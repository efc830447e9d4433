/**
 A sequence of requests served one after another by one process
 (backend/app.py:25 and 32-90). The `summarizer` global survives between
 requests. Because `tokenizer` is bound only by the request that loads it, the
 model is loaded at most once, is run at most once, and at most one new
 summary is ever stored per process.
 */
module Session {
  import opened Handler

  /** One request together with what the collaborators do while serving it. */
  datatype Exchange = Exchange(request: Request, world: World)

  /** The steps of serving the exchanges in order, starting from `s`. */
  function Run(s: State, xs: seq<Exchange>): (steps: seq<Step>)
    ensures |steps| == |xs|
    decreases |xs|
  {
    if xs == [] then []
    else
      var first := Handle(s, xs[0].request, xs[0].world);
      [first] + Run(first.state, xs[1..])
  }

  /** The state after serving the exchanges in order, starting from `s`. */
  function FinalState(s: State, xs: seq<Exchange>): State
    decreases |xs|
  {
    if xs == [] then s
    else FinalState(Handle(s, xs[0].request, xs[0].world).state, xs[1..])
  }

  /** How many of the steps ran the summarization model. */
  function Inferences(steps: seq<Step>): nat
    decreases |steps|
  {
    if steps == [] then 0
    else (if RunSummarizer in steps[0].calls then 1 else 0) + Inferences(steps[1..])
  }

  /**
   Once the model is loaded, no request changes anything and none runs the
   model: every later miss ends in the unbound-`tokenizer` error.
   */
  lemma {:induction false} LoadedProcessIsFrozen(s: State, xs: seq<Exchange>)
    requires s.summarizerLoaded
    ensures FinalState(s, xs) == s
    ensures Inferences(Run(s, xs)) == 0
    decreases |xs|
  {
    if xs != [] {
      LoadedProcessIsFrozen(s, xs[1..]);
      assert ([Handle(s, xs[0].request, xs[0].world)] + Run(s, xs[1..]))[1..] == Run(s, xs[1..]);
    }
  }

  /**
   Over any sequence of requests, the model runs at most once, and not at all
   if it was already loaded.
   */
  lemma {:induction false} AtMostOneInference(s: State, xs: seq<Exchange>)
    ensures Inferences(Run(s, xs)) <= if s.summarizerLoaded then 0 else 1
    decreases |xs|
  {
    if s.summarizerLoaded {
      LoadedProcessIsFrozen(s, xs);
    } else if xs != [] {
      var first := Handle(s, xs[0].request, xs[0].world);
      assert ([first] + Run(first.state, xs[1..]))[1..] == Run(first.state, xs[1..]);
      AtMostOneInference(first.state, xs[1..]);
    }
  }

  /**
   Over any sequence of requests, the stored summaries only grow. Records
   already present are never changed, and at most one new record appears (none
   if the model was already loaded).
   */
  lemma {:induction false} AtMostOneNewSummary(s: State, xs: seq<Exchange>)
    ensures s.cache.Keys <= FinalState(s, xs).cache.Keys
    ensures forall id :: id in s.cache ==> FinalState(s, xs).cache[id] == s.cache[id]
    ensures |FinalState(s, xs).cache.Keys - s.cache.Keys| <= if s.summarizerLoaded then 0 else 1
    decreases |xs|
  {
    if s.summarizerLoaded {
      LoadedProcessIsFrozen(s, xs);
    } else if xs != [] {
      var first := Handle(s, xs[0].request, xs[0].world);
      AtMostOneNewSummary(first.state, xs[1..]);
      var final := FinalState(s, xs);
      if first.state.cache != s.cache {
        var id := RequestedId(xs[0].request).value;
        LoadedProcessIsFrozen(first.state, xs[1..]);
        assert final.cache.Keys - s.cache.Keys == {id};
      } else {
        assert final.cache.Keys - s.cache.Keys == final.cache.Keys - first.state.cache.Keys;
      }
    }
  }
}
