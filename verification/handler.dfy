/**
 The `POST /summarize` handler (backend/app.py:32-90) as one pure step:
 given the process state, the request and what the collaborators do on this
 request, it yields the response, the new state and the collaborator calls it
 made. The document store, the transcript service and the language model are
 not modelled; their outcomes are inputs.
 */
module Handler {
  import opened Wrappers
  import opened PyStr
  import opened Words
  import opened VideoUrl

  /** Transcripts of fewer words than this are refused (backend/app.py:65). */
  const MinWords: nat := 50

  const NoUrlMessage: string := "No video URL provided"
  const InvalidUrlMessage: string := "Invalid video URL provided"
  const FetchFailedMessage: string :=
    "Could not retrieve transcript. The video might not have subtitles or is restricted."
  const EmptyTranscriptMessage: string := "Transcript is empty or unavailable for this video"
  const TooShortMessage: string := "Transcript too short to summarize effectively"
  const IndexErrorPrefix: string := "An index error occurred: "
  const ErrorPrefix: string := "An error occurred: "

  /**
   The state a request sees: the stored summaries, keyed by video identifier,
   and whether the module-level `summarizer` has been set.
   */
  datatype State = State(cache: map<string, string>, summarizerLoaded: bool)

  /** The `video_url` member of the request body, if any. */
  datatype Request = Request(videoUrl: Option<string>)

  /**
   A Python exception raised by a collaborator, split the way the handler's two
   `except` clauses split them.
   */
  datatype PyError = IndexError(message: string) | OtherError(message: string)

  /** What the transcript service returns: a failure, or the segment texts in order. */
  datatype TranscriptOutcome = FetchFailed | Transcript(segments: seq<string>)

  /** Whether loading the tokenizer, the model and the pipeline succeeds. */
  datatype LoadOutcome = Loaded | LoadFailed(error: PyError)

  /**
   What running the summarizer on the (truncated) transcript yields: the
   `summary_text` of its first result, or the exception it raised.
   */
  datatype InferenceOutcome = Summarized(summary: string) | InferenceFailed(error: PyError)

  /** What each collaborator does if the handler calls it during this request. */
  datatype World = World(transcript: TranscriptOutcome, load: LoadOutcome, inference: InferenceOutcome)

  /** A call the handler makes into a collaborator. */
  datatype Call =
    | FindOne(videoId: string)
    | GetTranscript(videoId: string)
    | LoadSummarizer
    | RunSummarizer
    | InsertOne(videoId: string, summary: string)

  /** The JSON response: `200 {summary, analysis}` or `status {error}`. */
  datatype Response = Ok(summary: string, analysis: string) | Err(status: int, message: string)

  /** The outcome of one request. */
  datatype Step = Step(response: Response, state: State, calls: seq<Call>)

  /**
   `tokenizer` is bound only in the branch that loads the model, so Python
   treats it as a local of the handler; reading it when that branch was
   skipped raises UnboundLocalError, which is not an IndexError.
   */
  const UnboundTokenizer: PyError :=
    OtherError("cannot access local variable 'tokenizer' where it is not associated with a value")

  /** The two `except` clauses at the end of the handler (backend/app.py:86-90). */
  function Caught(e: PyError): Response {
    match e
    case IndexError(m) => Err(500, IndexErrorPrefix + m)
    case OtherError(m) => Err(500, ErrorPrefix + m)
  }

  /**
   The identifier a request is served under, or None when the handler answers
   400 before looking at the store: no URL, an empty URL, no `v=` in it, or
   nothing after its last `v=` (backend/app.py:36-44). A request passes exactly
   when its URL contains `v=` and does not end with it; the identifier is then
   what follows the last `v=`.
   */
  function RequestedId(req: Request): (r: Option<string>)
    ensures r.Some? <==>
      req.videoUrl.Some? && Contains(req.videoUrl.value, Marker) && !EndsWith(req.videoUrl.value, Marker)
    ensures r.Some? ==>
      && r.value != ""
      && EndsWith(req.videoUrl.value, Marker + r.value)
      && !Contains(r.value, Marker)
      && ExtractVideoId(req.videoUrl.value) == r
  {
    match req.videoUrl
    case None => None
    case Some(url) =>
      var id := ExtractVideoId(url);
      EmptyIdAtEnd(url);
      assert id.Some? ==> Marker + id.value != Marker || id.value == "";
      if id.None? || id.value == "" then None else id
  }

  /**
   The identifier is empty exactly when the URL contains `v=` and ends with it.
   */
  lemma EmptyIdAtEnd(url: string)
    ensures ExtractVideoId(url) == Some("") <==> Contains(url, Marker) && EndsWith(url, Marker)
  {
    if Contains(url, Marker) && EndsWith(url, Marker) {
      var i := |url| - 2;
      assert OccursAt(url, Marker, i);
      assert !OccursAt(url[i + 2..], Marker, 0);
      VideoIdUnique(url, i);
    }
    if ExtractVideoId(url) == Some("") {
      assert Marker + "" == Marker;
    }
  }

  /** The handler: validate, look up, and on a miss fetch, check, summarize and store. */
  function Handle(s: State, req: Request, w: World): (r: Step)
    ensures r.response.Ok? ==> r.response.analysis == ""
    ensures r.response.Err? ==> r.response.status == 400 || r.response.status == 500
    ensures r.response.Ok? ==>
      RequestedId(req).Some? && r.state.cache.Keys >= {RequestedId(req).value}
      && r.state.cache[RequestedId(req).value] == r.response.summary
    ensures r.state.cache == s.cache
      || (r.response.Ok? && RequestedId(req).value !in s.cache
          && r.state.cache == s.cache[RequestedId(req).value := r.response.summary])
    ensures s.summarizerLoaded ==> r.state == s
    ensures r.state.summarizerLoaded && !s.summarizerLoaded ==> LoadSummarizer in r.calls
    ensures RunSummarizer in r.calls ==> !s.summarizerLoaded && r.state.summarizerLoaded
  {
    match req.videoUrl
    case None => Step(Err(400, NoUrlMessage), s, [])
    case Some(url) =>
      if url == "" then
        Step(Err(400, NoUrlMessage), s, [])
      else
        var videoId := ExtractVideoId(url);
        if videoId.None? || videoId.value == "" then
          Step(Err(400, InvalidUrlMessage), s, [])
        else
          var id := videoId.value;
          if id in s.cache then
            Step(Ok(s.cache[id], ""), s, [FindOne(id)])
          else
            Miss(s, id, w)
  }

  /**
   The cache-miss path (backend/app.py:51-84): transcript fetch and checks,
   lazy model load, inference and the insert of the new record.
   */
  function Miss(s: State, id: string, w: World): (r: Step)
    requires id !in s.cache
    ensures r.response.Ok? ==> r.state == State(s.cache[id := r.response.summary], true)
    ensures r.response.Err? ==> r.state.cache == s.cache
    ensures |r.calls| >= 2 && r.calls[..2] == [FindOne(id), GetTranscript(id)]
    ensures RunSummarizer in r.calls ==> !s.summarizerLoaded && r.state.summarizerLoaded
  {
    var looked := [FindOne(id), GetTranscript(id)];
    match w.transcript
    case FetchFailed => Step(Err(500, FetchFailedMessage), s, looked)
    case Transcript(segments) =>
      if |segments| == 0 then
        Step(Err(500, EmptyTranscriptMessage), s, looked)
      else if WordCount(Join(segments, " ")) < MinWords then
        Step(Err(400, TooShortMessage), s, looked)
      else if s.summarizerLoaded then
        Step(Caught(UnboundTokenizer), s, looked)
      else
        match w.load
        case LoadFailed(e) => Step(Caught(e), s, looked + [LoadSummarizer])
        case Loaded =>
          var loaded := s.(summarizerLoaded := true);
          var ran := looked + [LoadSummarizer, RunSummarizer];
          match w.inference
          case InferenceFailed(e) => Step(Caught(e), loaded, ran)
          case Summarized(summary) =>
            Step(Ok(summary, ""), loaded.(cache := s.cache[id := summary]), ran + [InsertOne(id, summary)])
  }
}
