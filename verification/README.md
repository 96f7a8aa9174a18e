# Facial expression recognition front end, modelled in Dafny

The front end lets a user start the camera, send a frame or an uploaded
image to a detection server, and see the detected emotion. This project
models its client-side logic as pure functions over immutable datatypes:

- **Session** (`session.dfy`, `frontend/src/App.js`): the App component's
  state and event handlers. The state is the held camera stream
  (`streamRef`), the video element's source, `imagePreview`, `emotion`,
  `confidence`, and the set of streams whose tracks are still live. Each
  handler is a function from state to `Outcome`: `Finished` or `Threw`. A
  JavaScript exception keeps the changes made before it. Browser results are
  event inputs: a granted stream handle, the object URL of a chosen file,
  and a parsed answer or a failed request. Answers carry no sequence number:
  whichever arrives last overwrites the emotion and confidence.
- **Detection** (`detection.dfy`, `backend/app.py`): the shape of the server's
  answer. It is `{emotion, confidence}` for the first face found, or
  `{error: 'No face detected'}`.
- **Overlay** (`overlay.dfy`, `VideoDisplay.js`): a face's box in the fixed
  640x480 frame becomes percentage placement. Also modelled: the colour
  lookup with its fallback, one box per face in order, the
  "N faces detected" notice, and the preview taking precedence over the
  video.
- **AnalyticsPanel** (`analytics.dfy`, `Analytics.js`): the no-data guard, and
  the emotion distribution (positive entries only, highest first). Also the
  last five history entries, newest first, and each section's visibility
  test.
- **EmotionCard** (`emotion_card.dfy`, `EmotionCard.js`): loading, then ready,
  then result. Also the confidence slot (the bar, or the text "0" React
  prints for a zero confidence), every score sorted highest first, and the
  emoji fallback.
- **Ranking**, **Emotions** and **JsValues** hold what these share: the
  `(a, b) => b - a` sort and the `> 0` filter, the colour and emoji tables,
  and JavaScript truthiness (`null`/`undefined` are `None`; `""` and `0` are
  falsy).

Numbers are Dafny `real`, an idealisation of JavaScript numbers. `Object`
maps are sequences of entries in `Object.entries` order.

What `App.js` does and does not do, as the model states it:
- A start never stops a stream already held, so several streams can be live
  at once (`SecondStartLeaks`, `TwoStreamsReachable`).
- Requests carry no number: the answer that arrives last is the one shown
  (`LatestArrivalWins`, `ArrivalOrderDecides`).
- There is no timer, no polling of analytics, no session reset, no
  `isLoading` flag and no error message in the state.
- The `error` field of an answer is never read; an error-only answer shows
  "No face detected" (`ErrorOnlyAnswer`).

`Step` follows the code as written, including the start that throws over a
preview (see Findings). `StartCamera` is the intended start. It records what
line 15 shows was meant, and it keeps the same invariant
(`IntendedStartPreservesInv`).

## Model

| member | source | states |
|---|---|---|
| Session.StartCamera | frontend/src/App.js:11-16 | start as intended: the granted stream is held and shown, the preview is cleared, the earlier live streams all stay live (nothing is stopped), emotion and confidence untouched |
| Session.StartCameraAsWritten | frontend/src/App.js:11-16 | start as written: with the video mounted it behaves as intended; with a preview shown it throws after acquiring, leaving only the new stream added to the live set |
| Session.StartOverPreviewLeaks | frontend/src/App.js:11-16 | a start over a preview keeps the preview, holds nothing, and the granted stream survives any later stop |
| Session.StopCamera | frontend/src/App.js:18-24 | with no stream held the state is returned unchanged; otherwise only the held stream is released and the reference dropped; with the video mounted its source is cleared too |
| Session.StopIdempotent | frontend/src/App.js:18-24 | stop followed by stop equals stop |
| Session.StopReleasesHeld | frontend/src/App.js:19-22 | in every reachable state stop does not throw, leaves no stream held or shown, and releases the stream that was held |
| Session.SecondStartLeaks | frontend/src/App.js:11-24 | with the video mounted: start h1, start h2, stop releases h2 but h1 stays live with nothing holding it |
| Session.StartsOverPreviewBothLeak | frontend/src/App.js:11-24 | over a preview both starts throw, nothing is held, the stop releases nothing, and both streams stay live with the preview kept |
| Session.TwoStreamsReachable | frontend/src/App.js:11-16 | two starts from the first render leave two live streams, so at most one handle is not guaranteed |
| Session.CaptureAndSend | frontend/src/App.js:26-35 | sending a frame changes no state; it throws exactly when no video is mounted |
| Session.Reconcile | frontend/src/App.js:36-38 | the emotion is the answer's emotion if truthy, else "No face detected", so never empty; the confidence is kept iff truthy (0 becomes null); nothing else changes |
| Session.ErrorOnlyAnswer | frontend/src/App.js:36-38 | an answer with only `error` shows "No face detected" and no confidence line, whatever the error text |
| Session.ZeroConfidenceIsNull | frontend/src/App.js:38 | a confidence of exactly 0 is stored as null |
| Detection.Serve | backend/app.py:27-38 | the server answers `{emotion, confidence}` for the first face and `{error: 'No face detected'}` for none |
| Session.ServedAnswer | backend/app.py:47-56 | what the client shows for each server answer: the first face's label; its score unless the score is 0, in which case no confidence; or the no-face text with no confidence |
| Session.HandleUpload | frontend/src/App.js:42-54 | the camera is always stopped first; with no file the preview, emotion and confidence are unchanged; with a file the preview shows it before any answer, and emotion and confidence are unchanged |
| Session.UploadThenAnswer | frontend/src/App.js:42-59 | an upload followed by its answer shows the file and applies the same reconciliation as a captured frame |
| Session.RemoveImage | frontend/src/App.js:61-64 | the preview is cleared and the emotion emptied; confidence, held stream, video source and live set are unchanged |
| Session.RemoveKeepsConfidenceLine | frontend/src/App.js:61-64 | after removal the emotion line is empty while the confidence line (shown iff not null, line 124) is exactly as before |
| Session.AnswerAfterRemoveStillApplies | frontend/src/App.js:55-64 | an answer arriving after the image was removed still fills in the emotion |
| Session.FailuresChangeNothing | frontend/src/App.js:31-36 | a rejected fetch or JSON parse leaves the state unchanged |
| Session.LatestArrivalWins | frontend/src/App.js:26-59 | among arriving answers and failures, the state equals applying only the last answer to arrive, whatever order the requests were sent in |
| Session.ArrivalOrderDecides | frontend/src/App.js:37-38 | the same two answers in opposite arrival orders leave different emotions |
| Session.Render | frontend/src/App.js:71-128 | the preview replaces the video iff it is set, the remove button comes with it, and the confidence line is shown iff confidence is not null and shows the stored confidence |
| Session.InitInv | frontend/src/App.js:4-9 | the first render satisfies the invariant |
| Session.IntendedStartPreservesInv | frontend/src/App.js:11-16 | the intended start keeps the invariant |
| Session.Run | frontend/src/App.js:11-64 | applying events in arrival order keeps the invariant from any state that satisfies it |
| Session.Step | frontend/src/App.js:11-64 | every event keeps the invariant; only the stream held before the event can be stopped; only start, stop and upload touch the camera; only an answer or a removal changes emotion or confidence |
| Session.RenderShowsHeldStream | frontend/src/App.js:71-85 | in a reachable state the preview is never shown over a held stream, and the video shows exactly the held stream |
| Emotions.ColorOf | frontend/src/components/VideoDisplay.js:12-20 | the table colour for a label in the table, `#6b7280` for any other |
| Emotions.TablesCoverLabels | frontend/src/components/VideoDisplay.js:12-20 | the colour and emoji tables are keyed by exactly the classifier's seven labels |
| Emotions.LabelColorsDistinct | frontend/src/components/VideoDisplay.js:12-20 | the seven labels have pairwise different colours |
| Emotions.NeutralLooksUnknown | frontend/src/components/VideoDisplay.js:19-47 | the "Neutral" colour equals the fallback, so neutral and unknown faces look the same |
| Emotions.EmojiOf | frontend/src/components/Analytics.js:28-36 | an emoji exactly for the seven tabled labels, nothing otherwise |
| Overlay.Place | frontend/src/components/VideoDisplay.js:43-46 | left and width are x and w as hundredths of 640; top and height are y and h as hundredths of 480 |
| Overlay.ToPixels | frontend/src/components/VideoDisplay.js:43-46 | the pixel box a placement stands for |
| Overlay.PlaceThenToPixels | frontend/src/components/VideoDisplay.js:43-46 | placing a box and converting back gives the same box |
| Overlay.ToPixelsThenPlace | frontend/src/components/VideoDisplay.js:43-46 | converting a placement to pixels and placing it gives the same placement |
| Overlay.PlaceInView | frontend/src/components/VideoDisplay.js:43-46 | a box lies inside the 640x480 frame iff all four percentages are non-negative, left+width <= 100 and top+height <= 100 |
| Overlay.PlaceExample | frontend/src/components/VideoDisplay.js:43-46 | the box (100, 50, 80, 80) is placed at 15.625%, 125/12%, 12.5%, 50/3% |
| Overlay.FaceBox | frontend/src/components/VideoDisplay.js:39-56 | a face's box has its placement, its label and confidence, and one colour for border and label |
| Overlay.Boxes | frontend/src/components/VideoDisplay.js:38-57 | exactly one box per face, the i-th for the i-th face |
| Overlay.Overlays | frontend/src/components/VideoDisplay.js:36-38 | no boxes for null faces; otherwise one per face in order, none for an empty list |
| Overlay.Render | frontend/src/components/VideoDisplay.js:28-148 | a truthy preview replaces the video; boxes are the overlays of the faces; the processing layer follows `isLoading`; the notice appears iff there are more than one face and shows their number |
| Overlay.BannerCountsBoxes | frontend/src/components/VideoDisplay.js:140-144 | the notice appears iff more than one box is drawn, and shows the number of boxes |
| Overlay.BranchesAgree | frontend/src/components/VideoDisplay.js:29-100 | the preview branch and the video branch place the same faces identically; the two source branches are textually identical and the model builds both from one `Overlays`, so this records the merge |
| Ranking.KeepPositiveCounts | frontend/src/components/Analytics.js:95 | each entry occurs as often as in the input if its score is positive, else not at all |
| Ranking.KeepPositiveAppend | frontend/src/components/Analytics.js:95 | the filter keeps input order: filtering a concatenation concatenates the filtered parts |
| Ranking.KeepPositiveWithValue | frontend/src/components/Analytics.js:95 | for a positive score, the entries with that score all survive the filter, in order |
| Ranking.SortDesc | frontend/src/components/Analytics.js:96 | a permutation of the input with scores non-increasing |
| Ranking.SortDescStable | frontend/src/components/Analytics.js:96 | the sort is stable: for every score, the entries with that score appear in input order |
| Ranking.SortDescKeepsRanked | frontend/src/components/Analytics.js:96 | a list already ranked comes back unchanged: equal scores keep their order |
| Ranking.SortDescIdempotent | frontend/src/components/Analytics.js:96 | sorting twice equals sorting once |
| AnalyticsPanel.Distribution | frontend/src/components/Analytics.js:94-96 | the listed entries are exactly the positive ones, each as often as in the map, with scores non-increasing; entries with equal percentages keep map order |
| AnalyticsPanel.TailStart | frontend/src/components/Analytics.js:129 | `slice(-n)` keeps exactly the last min(n, length) entries; `slice(-0)` keeps all |
| AnalyticsPanel.Reverse | frontend/src/components/Analytics.js:129 | the i-th element is the i-th from the end |
| AnalyticsPanel.RecentActivity | frontend/src/components/Analytics.js:129 | min(5, n) entries, the i-th being the i-th newest |
| AnalyticsPanel.RecentActivityPush | frontend/src/components/Analytics.js:129 | a new detection heads the list and, with five or more before, pushes the oldest shown entry off |
| AnalyticsPanel.Render | frontend/src/components/Analytics.js:3-145 | no-data iff no analytics or no `session_stats`; dominant panel iff the dominant emotion is truthy, with its name and table emoji; distribution iff the map is non-empty; recent activity iff the history is non-empty; each with its transformed list |
| AnalyticsPanel.AllZeroShowsEmptyList | frontend/src/components/Analytics.js:88-96 | a non-empty map of zeros shows the distribution section with an empty list |
| EmotionCard.HeadlineEmoji | frontend/src/components/EmotionCard.js:45 | the table emoji for a tabled emotion, the robot face otherwise |
| EmotionCard.HeadlineEmojiFallsBack | frontend/src/components/EmotionCard.js:45 | the robot face is shown exactly for an emotion outside the seven labels |
| EmotionCard.ConfidenceSlotOf | frontend/src/components/EmotionCard.js:49-64 | `confidence && bar` renders the bar for a truthy number, the text "0" for zero, nothing for null |
| EmotionCard.Render | frontend/src/components/EmotionCard.js:24-74 | loading wins over all inputs; not loading with a falsy emotion is the ready view; otherwise the result with the bar for a truthy confidence, the text "0" for a zero one, nothing for null; every score, unfiltered, as a non-increasing permutation that keeps the order of equal scores, iff there are any |
| EmotionCard.CardKeepsZeroScores | frontend/src/components/EmotionCard.js:72-74 | an entry scoring 0 is listed on the card but not in the session distribution |

## Left out

- `backend/app.py` beyond its answer shape: routing, image decoding, face detection and the classifier are foreign numeric code.
- `backend/model_train.py`, `backend/check_accuracy.py`, `backend/evaluate_model.py`: training and evaluation scripts, not client logic.
- `frontend/src/components/CameraControls.js`: button labels and disabled flags only; its "every 2 seconds" text has no timer behind it.
- Browser effects: `getUserMedia`, drawing into the 300x300 canvas, `toDataURL`, `fetch`, `res.json()` and `URL.createObjectURL` are event inputs, not modelled code.
- The real-time scheduler, analytics polling, session reset, the `isLoading` single-flight and request sequencing do not exist in the code and are not modelled.
- `toFixed(1)` formatting, CSS classes and the colours `Analytics.js` and `EmotionCard.js` look up without a fallback for bar styling.
- Emojis shown beside distribution and history rows, and the history timestamp: display only.
- NaN and non-string or non-number JSON values: a number is a real, and a field is present or absent.
- Lookups of inherited object keys such as "constructor" in the colour and emoji tables: the server sends only the seven labels.
- Session: `videoRef.current` is taken to be null exactly when the state holds a preview; React's render timing between a state update and the commit is not modelled.

## Findings

| source | as written | input that shows it | evidently intended | confidence | as-written member | corrected member |
|---|---|---|---|---|---|---|
| frontend/src/App.js:11-16 | `startCamera` assigns `videoRef.current.srcObject`. The `<video>` is not rendered while a preview is shown (lines 71-85), so the ref is null and the assignment throws. The granted stream is then neither held nor stopped, and the preview stays. | upload an image, then press Start Camera and grant access | the stream is held and shown and the preview is cleared (line 15) | medium; not executed | Session.StartCameraAsWritten (Session.StartOverPreviewLeaks) | Session.StartCamera |
