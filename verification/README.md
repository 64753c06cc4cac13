# in-sync-signs, modelled in Dafny

InSync is a small web app for learning and translating American Sign
Language. Most of it is page markup. This project models its four pieces
of real logic as pure functions over immutable records and proves
properties about them:

- **Translate** (`translate.dfy`) models the translator page's webcam lifecycle:
  - `startWebcam`, `stopWebcam`, `togglePause` and `resetTranslation`;
  - the render rule that mounts `<video>` only while the webcam is active;
  - the interval that appends one canned phrase per tick.
  
  Camera acquisition is an input (`Granted(stream)` or `Refused`). Calls on
  tracks and on the video element become effects. A `Session` drives the
  page through clicks, ticks, acquisitions and unmount.
- **SignUp** (`signup.dfy`) models the sign-up form:
  - field updates;
  - the ordered validator, which reports the first failure;
  - the submit gate;
  - the 0–4 password-strength score, with its label, colour and bar width;
  - the password-match check mark.
- **Learn** (`learn.dfy`) models the lesson catalogue:
  - the fixed list of eight lessons;
  - the case-insensitive search combined with the optional level filter;
  - the level select, and the Reset button with its visibility rule.
- **Recognition** (`recognition.dfy`) models the Python recognition loop:
  - the 10-entry prediction window and its most-frequent (plurality) smoothing;
  - the rule that appends a label to the message;
  - the 63-feature gate;
  - the camera-index search.
  
  The classifier and the camera are oracles, passed in as function parameters.
- `wrappers.dfy` holds the `Option` type used for `null`/`None`.

The page has no facing-mode switch, no generation counter and no typed
error causes. A failed `getUserMedia` is only logged
(src/pages/Translate.tsx:36-38), and the model follows the code.

## Model

| member | source | states |
|---|---|---|
| `Translate.RenderBranchesExclusive` | src/pages/Translate.tsx:149-191 | The video and "Enable Camera" are never both rendered, and one of them always is. The pause and stop overlay is shown exactly with the video. |
| `Translate.OnStart` | src/pages/Translate.tsx:157-171 | A click on a hidden "Enable Camera" does nothing. A shown one opens the granted stream, if any. It never removes an interval and never changes the text. |
| `Translate.OnTick` | src/pages/Translate.tsx:109-117 | A tick changes only the text, and the old text stays a prefix. The open streams and the number of intervals are unchanged. |
| `Translate.Step` | src/pages/Translate.tsx:149-220 | A click on a control that is not rendered, or on a disabled Reset, leaves the session unchanged. No event removes an interval, because the interval's cleanup is never called. |
| `Translate.CompleteStart` | src/pages/Translate.tsx:18-39 | A refused acquisition only logs and leaves the page unchanged. A granted stream is committed (active, unpaused, stream held, feed started) exactly when a video surface exists. Otherwise the page is unchanged. No track is ever stopped, and the text is never touched. |
| `Translate.StartWebcam` | src/pages/Translate.tsx:149-168 | Start as wired: from the view that shows "Enable Camera", the page is unchanged. A granted stream is neither stored nor stopped. |
| `Translate.StartWebcamMounted` | src/pages/Translate.tsx:28-32 | Corrected start: a granted stream always activates and unpauses the page and is held. A refusal changes nothing. |
| `Translate.StopWebcam` | src/pages/Translate.tsx:42-51 | With a held stream: every track is stopped, the stream is cleared, the page is deactivated, the text is cleared, and `isPaused` is kept. Without a stream: no-op. Only tracks of the held stream are stopped. |
| `Translate.StopIdempotent` | src/pages/Translate.tsx:43 | A second stop does nothing. |
| `Translate.TogglePause` | src/pages/Translate.tsx:54-63 | Flips `isPaused` and changes nothing else. With the video mounted it emits one effect: pause when it was running, play when it was paused. |
| `Translate.TogglePauseTwice` | src/pages/Translate.tsx:54-63 | Toggling twice restores the page and issues exactly one pause and one play. |
| `Translate.ResetTranslation` | src/pages/Translate.tsx:88-90 | Clears only the text, which disables the text buttons. |
| `Translate.Phrase` | src/pages/Translate.tsx:94-112 | The phrase of a tick is one of the ten non-empty phrases. |
| `Translate.AppendPhrase` | src/pages/Translate.tsx:111-114 | The old text is kept as a prefix and the result is longer. Empty text becomes the phrase; otherwise one space and the phrase follow. |
| `Translate.FeedTick` | src/pages/Translate.tsx:109-117 | Tick as written: appends and advances the counter only if the captured flags were unpaused and active. Only the text changes. |
| `Translate.FeedTickLive` | src/pages/Translate.tsx:109-117 | Corrected tick: the same step, guarded by the page's current flags. |
| `Translate.StaleFeedNeverAppends` | src/pages/Translate.tsx:93-117 | A feed started from the "Enable Camera" view never changes the page, even when the page is active. |
| `Translate.AppendExtendsTranscript` | src/pages/Translate.tsx:111-114 | The tick with counter n turns the space-joined first n phrases (cycling every ten) into the first n+1. |
| `Translate.AsWrittenStepInert` | src/pages/Translate.tsx:149-191 | On the initial page every event leaves the page unchanged and starts no interval. The only change is that a granted stream becomes open. |
| `Translate.AsWrittenPageNeverChanges` | src/pages/Translate.tsx:18-39 | As written, no sequence of clicks, acquisitions and ticks moves the page off its initial state. Every granted stream stays open. |
| `Translate.Halt` | src/pages/Translate.tsx:122-127 | Stop, as also run by the unmount cleanup: it removes the held stream from the open ones and leaves a session without a stream unchanged. |
| `Translate.CorrectedStepHealthy` | src/pages/Translate.tsx:42-51 | With the corrected wiring, one event keeps these invariants: a stream is held iff the page is active, the held stream is the only open one, and the text is empty while inactive. |
| `Translate.CorrectedRunHealthy` | src/pages/Translate.tsx:42-51 | The same invariant for every sequence of model events, where a click on "Enable Camera" settles in the same event: at most one open stream and none leaked. |
| `Translate.CorrectedStartActivates` | src/pages/Translate.tsx:28-34 | A corrected granted start from the initial page reaches the active state. The stream is held and open, and one feed runs. |
| `Translate.CorrectedTickAppends` | src/pages/Translate.tsx:110-114 | Each live tick appends the next phrase. |
| `Translate.CorrectedStartSpellsTranscript` | src/pages/Translate.tsx:109-117 | n ticks after a corrected start, the text is exactly the first n phrases. |
| `Translate.StopAll` | src/pages/Translate.tsx:44-46 | One stop effect per track, in order. |
| `Translate.Without` | src/pages/Translate.tsx:47 | Removes the stopped stream from the open ones and keeps the others. |
| `SignUp.HandleChange` | src/pages/SignUp.tsx:23-26 | The named field gets the value and every other field is unchanged. |
| `SignUp.FirstFailure` | src/pages/SignUp.tsx:28-49 | None iff every check passes. Otherwise the reported failure is that of a failing check that every earlier check passed. |
| `SignUp.Validate` | src/pages/SignUp.tsx:28-49 | Valid iff all four fields are non-empty, the password equals the confirmation, the password has at least 8 characters, and the terms are agreed. |
| `SignUp.ValidateReportsFirstFailure` | src/pages/SignUp.tsx:29-47 | Each error is reported exactly when its check is the first to fail: empty field, then mismatch, then length, then terms. |
| `SignUp.NativeChecksLeavePasswordFailures` | src/pages/SignUp.tsx:29-47 | Once every field is filled and the terms are agreed, validation can only pass or report a mismatch or a short password. |
| `SignUp.Submit` | src/pages/SignUp.tsx:52-60 | An invalid form stores its failure message and leaves the loading flag alone. A valid one clears the error and sets loading. Loading never changes otherwise. |
| `SignUp.MessageInjective` | src/pages/SignUp.tsx:29-47 | The four error messages are pairwise distinct, so a message identifies its failure. |
| `SignUp.SubmitReportsFirstFailure` | src/pages/SignUp.tsx:29-60 | After a submit, the banner shows a failure's message exactly when that failure is the first check the form fails. It is empty exactly when the form is valid, and the form is busy exactly when it was busy or is valid. |
| `SignUp.Scan` | src/pages/SignUp.tsx:84-86 | A character-class regex test holds iff some character is in the class. |
| `SignUp.Strength` | src/pages/SignUp.tsx:79-89 | The score is at most 4, and 0 for an empty password. |
| `SignUp.StrengthCountsCriteria` | src/pages/SignUp.tsx:80-86 | The score is always the number of criteria met: length ≥ 8, an A–Z, a 0–9, and a character outside [A-Za-z0-9]. |
| `SignUp.StrengthExtremes` | src/pages/SignUp.tsx:83-86 | Score 4 iff all four criteria hold; score 0 iff none holds. |
| `SignUp.StrengthText` | src/pages/SignUp.tsx:91-98 | A label is defined iff the score is at most 4. The label is '' iff the score is 0. |
| `SignUp.StrengthColor` | src/pages/SignUp.tsx:100-107 | A colour is defined iff the score is at most 4. The colour is 'bg-muted' iff the score is 0. The bar is green exactly when the label reads "Strong". |
| `SignUp.ShowsMatchMark` | src/pages/SignUp.tsx:232-236 | The check mark needs a non-empty confirmation equal to the password. Whenever the mark is shown, the strength meter is shown too. |
| `SignUp.MeterOf` | src/pages/SignUp.tsx:189-200 | The meter is shown iff the password is non-empty. Its width is at most 100 %. Width 0, label '' and colour 'bg-muted' coincide, and width 100 coincides with "Strong". |
| `SignUp.MappingsTotalOnScores` | src/pages/SignUp.tsx:91-107 | The label and colour mappings are defined for every reachable score, and each is injective on scores. |
| `SignUp.ValidFormShowsMatchAndLength` | src/pages/SignUp.tsx:232-236 | A form that validates shows the match mark and scores at least 1 (bar ≥ 25 %). |
| `SignUp.CountTrueOfFour` | src/pages/SignUp.tsx:82-86 | The criteria count is the sum of the four one-point checks. |
| `Learn.CatalogueShape` | src/pages/Learn.tsx:17-76 | The list holds eight lessons with distinct ids: three Beginner, then three Intermediate, then two Advanced. Exactly the first two are completed. |
| `Learn.MatchesSearch` | src/pages/Learn.tsx:84-85 | Every lesson matches the empty query. |
| `Learn.MatchesLevel` | src/pages/Learn.tsx:86 | A level string that names no level admits no lesson. |
| `Learn.ResetShown` | src/pages/Learn.tsx:200 | Whenever Reset is hidden, every lesson matches. |
| `Learn.ToLower` | src/pages/Learn.tsx:84-85 | Keeps the length and lower-cases each ASCII capital. |
| `Learn.Includes` | src/pages/Learn.tsx:84-85 | True iff the needle occurs at some position of the haystack. |
| `Learn.Filter` | src/pages/Learn.tsx:83-89 | A lesson is in the result iff it is in the list and matches both the search and the level. The result is never longer than the list. |
| `Learn.FilterIsSubsequence` | src/pages/Learn.tsx:83-89 | The result is an order-preserving subsequence of the lessons. |
| `Learn.UnfilteredKeepsAll` | src/pages/Learn.tsx:84-86 | An empty query with a null (or '') level returns every lesson, in order. |
| `Learn.LevelFilterExact` | src/pages/Learn.tsx:86 | With a level set, every lesson the filter keeps has exactly that level. |
| `Learn.LevelFilterNarrows` | src/pages/Learn.tsx:86 | The level-filtered result is a subsequence of the result for the same query with no level. |
| `Learn.SubsequenceOfTail` | src/pages/Learn.tsx:88 | A lesson that matches only the wider filter does not disturb the subsequence order. |
| `Learn.ResetFilters` | src/pages/Learn.tsx:91-94 | After reset the Reset button is hidden and the filter keeps every lesson of any list, so the grid shows the whole catalogue. |
| `Learn.SelectLevel` | src/pages/Learn.tsx:186-187 | '' maps to null and any other value is kept. The query is untouched. |
| `Learn.HiddenResetShowsAll` | src/pages/Learn.tsx:200 | Whenever the Reset button is hidden, the filter keeps every lesson, so the grid already shows the whole catalogue. |
| `Learn.SelectAllLevelsClearsLevel` | src/pages/Learn.tsx:187 | "All Levels" leaves only the query in force. Reset then shows iff the query is non-empty. |
| `Recognition.Push` | backend/real_time_recognition.py:45-49 | The window never exceeds 10 entries and ends with the new label. It is the latest part of the old window plus the label. |
| `Recognition.WindowKeepsLatest` | backend/real_time_recognition.py:45-49 | After any stream of predictions, the window is exactly the last min(n, 10) of them, in order. |
| `Recognition.PushLatest` | backend/real_time_recognition.py:45-49 | Pushing onto the last min(n, 10) entries of a stream gives the last min(n+1, 10) entries of the extended stream. |
| `Recognition.PushShort` | backend/real_time_recognition.py:45-49 | Until the window holds ten entries, a push keeps every earlier prediction and adds the new one. |
| `Recognition.PushFull` | backend/real_time_recognition.py:45-49 | Once the window is full, a push drops exactly the oldest entry and adds the new one at the end. |
| `Recognition.BestAmong` | backend/real_time_recognition.py:50 | The choice comes from the scanned prefix and has a count at least that of every scanned label. |
| `Recognition.MostFrequent` | backend/real_time_recognition.py:50 | The result is in the window and no label occurs more often. |
| `Recognition.StablePrediction` | backend/real_time_recognition.py:48-51 | The new label is pushed. The result is in the window with a maximal count, which is at least the new label's count and at least 1. |
| `Recognition.UniformWindowIsStable` | backend/real_time_recognition.py:48-51 | A window holding a single label smooths to that label. |
| `Recognition.MajorityIsStable` | backend/real_time_recognition.py:50 | A label with a strict majority of the window is the one reported. |
| `Recognition.MultisetDisjointCounts` | backend/real_time_recognition.py:50 | The counts of two distinct labels add up to at most the window size. |
| `Recognition.AppendSign` | backend/real_time_recognition.py:81-82 | The message is unchanged or extended by the label. It is extended iff the message is empty or its last character differs from the label. |
| `Recognition.AppendKeepsNoRepeats` | backend/real_time_recognition.py:81-82 | With one-letter labels, appending never creates two equal adjacent characters. |
| `Recognition.PushKeepsLetters` | backend/real_time_recognition.py:49 | A window of one-letter labels stays one-letter after a push. |
| `Recognition.HandStep` | backend/real_time_recognition.py:70-82 | A feature vector without exactly 63 entries changes nothing. Otherwise the prediction is pushed and the smoothed label may be appended. The window stays bounded. |
| `Recognition.HandStepInvariant` | backend/real_time_recognition.py:70-82 | One hand keeps the window bounded and the old message as a prefix. With one-letter labels there is no doubled letter. |
| `Recognition.FrameStep` | backend/real_time_recognition.py:62-82 | Processing the hands of a frame keeps the state valid and the old message as a prefix. A frame with no hands changes nothing. |
| `Recognition.FrameStepInvariant` | backend/real_time_recognition.py:62-82 | The same holds across all hands of a frame, so the message length never decreases. |
| `Recognition.MalformedHandsIgnored` | backend/real_time_recognition.py:71 | A frame whose hands all lack 63 features leaves the state unchanged. |
| `Recognition.FindCamera` | backend/real_time_recognition.py:29-37 | Returns the lowest index in 0..2 whose capture opens, or None iff none opens. |

## Left out

- Browser APIs are not modelled: `getUserMedia` and its constraints, `MediaStream`, the `<video>` element, the clipboard, `speechSynthesis`, and the copy-success timer (src/pages/Translate.tsx:20-26, 65-85). Acquisition is an input, and track and video calls are effects.
- Timer timing and React scheduling are not modelled: the 5-second `setInterval`, batching of `setState`, and the cleanup function that `simulateTranslation` returns but nobody calls. A tick is one step. Intervals are never cleared, so a session keeps every feed it ever started.
- `Translate.CompleteStart` takes the click-time page and the resolution-time page to be the same page. The session model treats a click on "Enable Camera" and the settling of its `getUserMedia` as one event. In the source, the button stays rendered while the request is pending (src/pages/Translate.tsx:20, 157-171), so it can be clicked again, and the page can unmount, before the request settles.
- `Translate.CorrectedRunHealthy`: "no stream leaked" holds only for the atomic click-and-settle event of the model. Two overlapping requests still leak in the corrected wiring: the second settlement overwrites `streamRef` without stopping the first stream (src/pages/Translate.tsx:30). An unmount while a request is pending also leaves the granted stream open. The model has no separate request and settle events, so it does not cover these interleavings.
- The unmount cleanup is the `Unmount` event, which is `stopWebcam` without a visibility check.
- `SignUp.Submit`: the browser's native form validation is not modelled. All four inputs and the terms box carry `required`, the email input is `type="email"`, and the form has no `noValidate` (src/pages/SignUp.tsx:124, 144, 155, 161, 178, 222, 247). So the browser blocks a submit from the button before `handleSubmit` runs. That pre-empts `MissingField` and `TermsNotAgreed`, and also rejects malformed e-mail addresses, whose format rule is the browser's. `SignUp.NativeChecksLeavePasswordFailures` states that only the two password checks remain once the native checks pass.
- The sign-up network delay, the redirect and the `finally` that clears loading are async I/O and are not modelled (src/pages/SignUp.tsx:62-76). The show-password toggles and the terms checkbox toggle are not modelled either; the checkbox is the `agreeToTerms` input of `SignUp.Validate`.
- String lengths count Dafny characters, not UTF-16 code units. Lower-casing covers only ASCII capitals.
- The following parts of the backend are foreign libraries or floating-point code and are not modelled: model and encoder loading, `model.predict`, `argmax`, MediaPipe, OpenCV capture and display, the quit key, and the wrist-relative landmark arithmetic. The feature vector and the classifier are inputs.
- `Recognition.MostFrequent`: breaks ties towards the earliest entry of the window. Python picks the first label in `set` iteration order, which is unspecified. The contract promises only a label of maximal count.
- `find_camera` does not release the captures that fail to open; the model returns only the index.
- The About, Index, Navbar and badge components are static markup or class-string plumbing and are not modelled.

## Findings

| source | as written | input that shows it | evidently intended | confidence | as-written member | corrected member |
|---|---|---|---|---|---|---|
| src/pages/Translate.tsx:28-35 | `startWebcam` commits only if `videoRef.current` is set. The `<video>` is rendered only while `webcamActive` (lines 149-156), and "Enable Camera" only while it is not. The page can never activate, and a granted stream is dropped without its tracks being stopped. | From the initial page, click "Enable Camera" and let `getUserMedia` grant `Stream([1])`. The page stays initial and the stream stays open. | Keep the video mounted (hidden while inactive) so the stream is attached and stored, and a later stop stops it. This holds when each click settles before the next event; overlapping requests are listed under Left out. | not executed; high | `Translate.StartWebcam`, `Translate.AsWrittenPageNeverChanges` | `Translate.StartWebcamMounted`, `Translate.CorrectedRunHealthy` |
| src/pages/Translate.tsx:110 | The interval's guard reads `isPaused` and `webcamActive` from the closure of the render whose "Enable Camera" was clicked. There `webcamActive` is always false, so no tick ever appends. | Start (with the surface fixed) from the initial page, then tick: the feed captured `webcamActive == false` and the text stays "". | The guard reads the page's current flags. | not executed; high | `Translate.FeedTick`, `Translate.StaleFeedNeverAppends` | `Translate.FeedTickLive`, `Translate.CorrectedStartSpellsTranscript` |
