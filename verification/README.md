# youtube-summarizer: the `summarize` handler, modelled in Dafny

The service answers `POST /summarize` with a summary of a YouTube video's
transcript. Its only logic of its own is the handler in `backend/app.py`.
The handler reads `video_url` from the request and takes the text after the
last `v=` as the video identifier. It returns a stored summary if the
`summaries` collection already holds one. Otherwise it fetches the transcript,
joins the segment texts with spaces and refuses transcripts of fewer than 50
words. Next it loads the summarization model the first time it is needed, runs
the model and stores the result. Every failure becomes a JSON error with status
400 or 500.

The model is a pure step function, `Handler.Handle(state, request, world)`:

- `State` holds the summary store, a map from video identifier to summary. It
  also holds whether the module-level `summarizer` has been set.
- `Request` holds the optional `video_url`.
- `World` says what each collaborator does if it is called during this
  request: the transcript fetch (failure, or the segment texts in order),
  the model load (success, or a raised exception) and the inference (a
  summary, or a raised exception). Nothing about these services is modelled
  beyond their outcomes.
- The result is the response (`Ok(summary, "")` or `Err(status, message)`),
  the new state, and the list of collaborator calls made, in order. The list
  lets the model say that a cache hit never runs the model.

Python's string operations are modelled from their definitions. `sep in s`,
`s.split(sep)` and `sep.join(parts)` are in module `PyStr`. `Split` is the
left-to-right scan CPython performs: each leftmost occurrence of `sep` ends a
piece, and the scan resumes after it. The argument-less
`s.split()` is in module `Words`, with the whitespace set of `str.isspace()`.
`Session` serves a sequence of requests from one process.

The handler assigns `tokenizer` only inside `if summarizer is None:`, so Python
treats it as a local variable of the handler. After the request that loads the
model, every later cache miss that passes the word check reads an unbound
`tokenizer` and raises UnboundLocalError. The catch-all turns that into
`500 "An error occurred: ..."`. The model keeps this behaviour. It proves that a
process runs the model at most once and stores at most one new summary in its
lifetime (`Session.AtMostOneInference`, `Session.AtMostOneNewSummary`). For
the same reason, loading the model when the process starts would not be
harmless: `summarizer` would be set before the first request, so every cache
miss would fail this way (`HandlerProperties.UnboundTokenizerAfterLoad` with a
loaded state).

## Model

| member | source | states |
|---|---|---|
| PyStr.Split | backend/app.py:42 | `url.split(sep)` with a non-empty separator always has at least one piece |
| PyStr.SplitJoin | backend/app.py:42 | Joining the pieces of `url.split(sep)` back with `sep` gives the URL again, so no character is lost or added |
| PyStr.SplitFirstIsPrefix | backend/app.py:42 | The first piece of `url.split(sep)` is a prefix of the URL |
| PyStr.SplitPiecesFree | backend/app.py:42 | No piece of `url.split(sep)` contains `sep` |
| PyStr.SplitSinglePiece | backend/app.py:42 | `url.split(sep)` is `[url]` exactly when `sep` does not occur in the URL |
| PyStr.SplitLastAfterSep | backend/app.py:42 | When `sep` occurs, the URL ends with `sep` followed by the last piece |
| VideoUrl.ExtractVideoId | backend/app.py:42 | There is an identifier exactly when the URL contains `v=`; the URL then ends with `v=` plus the identifier, and the identifier contains no `v=` |
| VideoUrl.VideoIdFollowsLastMarker | backend/app.py:42 | Every `v=` in the URL starts at or before the one preceding the identifier, so the identifier follows the last `v=` |
| VideoUrl.VideoIdUnique | backend/app.py:42 | If `v=` occurs at `i` and the rest of the URL has no `v=`, the identifier is exactly that rest |
| VideoUrl.VideoIdExampleWatch | backend/app.py:42 | `https://x/watch?v=ABC123` yields `ABC123` |
| VideoUrl.VideoIdExampleTrailingParameter | backend/app.py:42 | `...?v=abc&list=x` yields `abc&list=x`: query parameters are not parsed |
| VideoUrl.VideoIdExampleOtherParameter | backend/app.py:42 | `...?list=x&dev=1` yields `1`: any parameter name ending in `v` supplies the marker |
| VideoUrl.VideoIdExampleShortLink | backend/app.py:42 | A URL with no `v=` yields no identifier |
| Words.Words | backend/app.py:65 | Every word of `s.split()` is non-empty and free of whitespace. `Words.WordsOfWord` and `Words.WordsAcrossSpace` show that the words are the maximal runs |
| Words.WordCountIsRunStarts | backend/app.py:65 | `len(s.split())` equals the number of indices where a non-whitespace character starts the text or follows whitespace. The count is the number of maximal runs, whichever way the text is cut |
| Words.WordLen | backend/app.py:65 | A word ends at the first whitespace character or at the end of the text |
| Words.WordsCoverText | backend/app.py:65 | Laid end to end, the words of `s.split()` are the non-whitespace characters of `s`, in order |
| Words.WordsAcrossSpace | backend/app.py:62-65 | For any whitespace character `c`, the words of `a + c + b` are the words of `a` followed by those of `b`. A whitespace character never merges or splits a word |
| Words.WordsOfWord | backend/app.py:65 | A non-empty text without whitespace is exactly one word. With `Words("") == []` and `WordsAcrossSpace`, this fixes `s.split()` on every text: its words are the maximal runs of non-whitespace |
| Words.WordsExample | backend/app.py:65 | `"ab c".split()` is `["ab", "c"]`, so a run is never cut into pieces |
| Words.WordsOfJoin | backend/app.py:62-65 | The words of `" ".join(texts)` are the words of each segment text, in order |
| Words.WordCountOfJoin | backend/app.py:62-65 | The word count the handler compares with 50 equals the sum of the segments' word counts |
| Handler.EmptyIdAtEnd | backend/app.py:42-43 | The extracted identifier is the empty string exactly when the URL contains `v=` and ends with it |
| Handler.RequestedId | backend/app.py:36-44 | A request passes the URL checks exactly when it has a URL that contains `v=` and does not end with it. The identifier is then the non-empty text after the last `v=`: the URL ends with `v=` plus the identifier, and the identifier holds no `v=` |
| Handler.Handle | backend/app.py:32-90 | Success carries an empty analysis, and errors are 400 or 500. A success leaves the summary stored under the requested identifier. The store changes only by inserting the returned summary under a new identifier. A loaded process never changes state. The model runs only in the request that loads it |
| Handler.Miss | backend/app.py:51-84 | A miss starts with the lookup and the fetch. Success inserts the summary under the identifier and sets the loaded flag. An error leaves the store unchanged |
| HandlerProperties.NoUrlRejected | backend/app.py:36-39 | A missing or empty `video_url` gets 400 "No video URL provided", and no other request does. Nothing is called and nothing changes |
| HandlerProperties.InvalidUrlRejected | backend/app.py:42-44 | A non-empty URL gets 400 "Invalid video URL provided" exactly when it has no `v=` or ends with `v=`. Nothing is called and nothing changes |
| HandlerProperties.CacheHit | backend/app.py:47-49 | A hit returns the stored summary verbatim with an empty analysis after one lookup, whatever the collaborators would do, and the state is unchanged |
| HandlerProperties.TranscriptUnavailable | backend/app.py:52-59 | On a miss, a failed fetch or an empty transcript gets 500 with its fixed message after lookup and fetch only, and the state is unchanged |
| HandlerProperties.TooShortRejected | backend/app.py:61-66 | On a miss with a non-empty transcript, the answer is 400 "Transcript too short..." exactly when the segments hold fewer than 50 words in all. Then the model is not loaded and the state is unchanged |
| HandlerProperties.MissSucceeds | backend/app.py:68-84 | A miss with a usable transcript succeeds exactly when the model was not loaded, loads and summarizes. It then returns the summary, stores exactly that record and calls lookup, fetch, load, run and insert in order |
| HandlerProperties.UnboundTokenizerAfterLoad | backend/app.py:69-77 | Once the model is loaded, every miss with a usable transcript gets 500 "An error occurred: ..." for the unbound `tokenizer`. The model is not run, nothing is inserted and the state is unchanged |
| HandlerProperties.CollaboratorFailureMapped | backend/app.py:68-90 | A failed load or inference gets the 500 message of its exception class and stores nothing. The loaded flag is set exactly when the load succeeded |
| HandlerProperties.ErrorKeepsCache | backend/app.py:32-90 | No error response changes the stored summaries |
| HandlerProperties.SuccessThenHit | backend/app.py:47-84 | After any success, the identical request is a cache hit with the same summary and changes nothing |
| Session.LoadedProcessIsFrozen | backend/app.py:69-77 | Once the model is loaded, no sequence of requests changes the state or runs the model |
| Session.AtMostOneInference | backend/app.py:69-79 | Over any sequence of requests, the model runs at most once, and not at all if it was already loaded |
| Session.AtMostOneNewSummary | backend/app.py:69-82 | Over any sequence of requests, stored summaries are never changed, and at most one new one is stored, none if the model was already loaded |

## Left out

- Flask routing, the `index` route (backend/app.py:27-29) and JSON parsing are HTTP plumbing. The request is modelled as an optional string `video_url`. A `video_url` that is not a string is not modelled. Python would not treat all such values alike. A falsy one (`0`, `false`, `[]`, `{}`) gets 400 "No video URL provided" at backend/app.py:38-39. A non-empty list or object with no `"v="` element or key makes `'v=' in video_url` false and gets 400 "Invalid video URL provided" at backend/app.py:42-44. Any other non-string value raises at backend/app.py:42, in the `in` test or in `.split`, and the catch-all turns that into a 500. A body that is not a JSON object fails at `request.json` or `data.get` and also gets a 500 from the catch-all. It is not modelled either.
- The start-up credential handling (backend/app.py:10-17) writes a file and sets environment variables, which is I/O. Port parsing (backend/app.py:92-94) is left out for the same reason.
- The MongoDB client (backend/app.py:20-22) is modelled as a map with lookup and insert. Failures of `find_one` or `insert_one` themselves are not modelled.
- The transcript client (backend/app.py:53) is an input outcome: a failure, or the segment texts in order. A segment that lacks a `text` key is not modelled.
- The tokenizer's 1024-token truncation (backend/app.py:75-77) and the decoding settings of the summarizer (backend/app.py:79) belong to foreign ML libraries whose token boundaries cannot be stated. They are folded into the opaque inference outcome. For the same reason, truncation idempotence is not stated.
- Handler.UnboundTokenizer: the message of the UnboundLocalError depends on the Python version. The model uses the wording of Python 3.11 and later. Older versions say "local variable 'tokenizer' referenced before assignment".
- The check-then-insert race between concurrent requests for the same identifier is outside a sequential model. The store is therefore a map, and a duplicate record cannot arise.
