/**
 What a single request to the handler guarantees, path by path, in the order
 the handler checks things (backend/app.py:36-90).
 */
module HandlerProperties {
  import opened Wrappers
  import opened PyStr
  import opened Words
  import opened VideoUrl
  import opened Handler

  /**
   A request without a `video_url`, or with an empty one, gets 400 "No video
   URL provided" before the store is consulted, and nothing changes. No other
   request gets that answer.
   */
  lemma NoUrlRejected(s: State, req: Request, w: World)
    ensures Handle(s, req, w).response == Err(400, NoUrlMessage)
        <==> req.videoUrl.None? || req.videoUrl.value == ""
    ensures req.videoUrl.None? || req.videoUrl.value == "" ==> Handle(s, req, w).state == s
    ensures req.videoUrl.None? || req.videoUrl.value == "" ==> Handle(s, req, w).calls == []
  {
  }

  /**
   A non-empty URL with no `v=`, or with nothing after its last `v=`, gets 400
   "Invalid video URL provided" before the store is consulted, and nothing
   changes. No other request gets that answer.
   */
  lemma {:induction false} InvalidUrlRejected(s: State, url: string, w: World)
    requires url != ""
    ensures Handle(s, Request(Some(url)), w).response == Err(400, InvalidUrlMessage)
        <==> !Contains(url, Marker) || EndsWith(url, Marker)
    ensures !Contains(url, Marker) || EndsWith(url, Marker) ==>
      Handle(s, Request(Some(url)), w).state == s && Handle(s, Request(Some(url)), w).calls == []
  {
    EmptyIdAtEnd(url);
  }

  /**
   A cache hit returns the stored summary verbatim with an empty analysis after
   one lookup. Nothing is fetched, loaded or run, the state is unchanged, and
   what the collaborators would have done does not matter.
   */
  lemma CacheHit(s: State, req: Request, w: World, id: string)
    requires RequestedId(req) == Some(id) && id in s.cache
    ensures Handle(s, req, w) == Step(Ok(s.cache[id], ""), s, [FindOne(id)])
  {
  }

  /**
   On a miss, a failed transcript fetch or an empty transcript gets a 500 with
   its fixed message. Only the lookup and the fetch happen and the state is
   unchanged.
   */
  lemma TranscriptUnavailable(s: State, req: Request, w: World, id: string)
    requires RequestedId(req) == Some(id) && id !in s.cache
    requires w.transcript.FetchFailed? || w.transcript.segments == []
    ensures Handle(s, req, w).response
        == Err(500, if w.transcript.FetchFailed? then FetchFailedMessage else EmptyTranscriptMessage)
    ensures Handle(s, req, w).state == s
    ensures Handle(s, req, w).calls == [FindOne(id), GetTranscript(id)]
  {
  }

  /**
   On a miss with a non-empty transcript, the answer is 400 "Transcript too
   short" exactly when the segments hold fewer than 50 words between them.
   Joining with spaces neither merges nor splits words. When the transcript is
   too short the state is unchanged and the model is not loaded, because this
   check comes before the lazy load.
   */
  lemma {:induction false} TooShortRejected(s: State, req: Request, w: World, id: string)
    requires RequestedId(req) == Some(id) && id !in s.cache
    requires w.transcript.Transcript? && w.transcript.segments != []
    ensures Handle(s, req, w).response == Err(400, TooShortMessage)
        <==> SumWordCounts(w.transcript.segments) < MinWords
    ensures SumWordCounts(w.transcript.segments) < MinWords ==>
      Handle(s, req, w).state == s && Handle(s, req, w).calls == [FindOne(id), GetTranscript(id)]
  {
    WordCountOfJoin(w.transcript.segments);
  }

  /** A miss whose transcript passes every check (backend/app.py:52-66). */
  predicate UsableTranscript(w: World) {
    && w.transcript.Transcript?
    && w.transcript.segments != []
    && SumWordCounts(w.transcript.segments) >= MinWords
  }

  /**
   A miss with a usable transcript succeeds exactly when the model has not been
   loaded yet, loads, and summarizes. The summary is then returned with an empty
   analysis and stored as the one new record under the identifier. The calls
   are: lookup, fetch, load, run, insert.
   */
  lemma {:induction false} MissSucceeds(s: State, req: Request, w: World, id: string)
    requires RequestedId(req) == Some(id) && id !in s.cache
    requires UsableTranscript(w)
    ensures Handle(s, req, w).response.Ok?
        <==> !s.summarizerLoaded && w.load.Loaded? && w.inference.Summarized?
    ensures Handle(s, req, w).response.Ok? ==>
      var summary := w.inference.summary;
      && Handle(s, req, w).response == Ok(summary, "")
      && Handle(s, req, w).state == State(s.cache[id := summary], true)
      && Handle(s, req, w).calls
         == [FindOne(id), GetTranscript(id), LoadSummarizer, RunSummarizer, InsertOne(id, summary)]
  {
    WordCountOfJoin(w.transcript.segments);
  }

  /**
   Once `summarizer` is set, every later miss whose transcript passes the checks
   reaches `tokenizer.encode` with `tokenizer` unbound. The UnboundLocalError
   lands in the catch-all and becomes a 500. Nothing is inserted, the model is
   not run, and the state is unchanged, whatever the collaborators would do.
   */
  lemma {:induction false} UnboundTokenizerAfterLoad(s: State, req: Request, w: World, id: string)
    requires s.summarizerLoaded
    requires RequestedId(req) == Some(id) && id !in s.cache
    requires UsableTranscript(w)
    ensures Handle(s, req, w) == Step(Err(500, ErrorPrefix + UnboundTokenizer.message), s,
                                      [FindOne(id), GetTranscript(id)])
  {
    WordCountOfJoin(w.transcript.segments);
  }

  /**
   A failure while loading the model or while running it is mapped by the two
   `except` clauses: an IndexError gets "An index error occurred: ", anything
   else "An error occurred: ", both with status 500. No record is stored: the
   calls stop before the insert. The model counts as loaded only if loading
   itself succeeded.
   */
  lemma {:induction false} CollaboratorFailureMapped(s: State, req: Request, w: World, id: string)
    requires !s.summarizerLoaded
    requires RequestedId(req) == Some(id) && id !in s.cache
    requires UsableTranscript(w)
    requires w.load.LoadFailed? || w.inference.InferenceFailed?
    ensures var e := if w.load.LoadFailed? then w.load.error else w.inference.error;
      Handle(s, req, w).response
        == Err(500, (if e.IndexError? then IndexErrorPrefix else ErrorPrefix) + e.message)
    ensures Handle(s, req, w).state == State(s.cache, w.load.Loaded?)
    ensures Handle(s, req, w).calls
        == [FindOne(id), GetTranscript(id), LoadSummarizer] + (if w.load.Loaded? then [RunSummarizer] else [])
  {
    WordCountOfJoin(w.transcript.segments);
  }

  /** No error response ever changes the stored summaries. */
  lemma ErrorKeepsCache(s: State, req: Request, w: World)
    requires Handle(s, req, w).response.Err?
    ensures Handle(s, req, w).state.cache == s.cache
  {
  }

  /**
   Every successful answer is stable: the same request sent again is a cache
   hit. It gets the same summary, whatever the collaborators would do the
   second time, and changes nothing.
   */
  lemma {:induction false} SuccessThenHit(s: State, req: Request, w1: World, w2: World)
    requires Handle(s, req, w1).response.Ok?
    ensures var first := Handle(s, req, w1);
      Handle(first.state, req, w2)
        == Step(first.response, first.state, [FindOne(RequestedId(req).value)])
  {
    var first := Handle(s, req, w1);
    var id := RequestedId(req).value;
    CacheHit(first.state, req, w2, id);
  }
}
