/** The state of the App component and the event handlers that change it:
    starting and stopping the camera, sending a frame or an uploaded file for
    detection, applying the answer, and removing the preview.

    Browser effects are inputs: a granted camera is a fresh `Handle`, a chosen
    file is the object URL made for it, and an answer is a `Response`. A handler
    that throws part-way keeps the changes it made before the throw, which is
    what `Outcome.Threw` records. */
module Session {
  import opened JsValues
  import opened Detection

  /** A camera stream returned by the browser. */
  type Handle = nat

  /** An object URL made for a chosen file; such URLs are never empty. */
  type ObjectUrl = s: string | s != "" witness "blob:"

  datatype Session = Session(
    stream: Option<Handle>,          // streamRef.current
    videoSource: Option<Handle>,     // srcObject of the rendered <video>
    imagePreview: Option<ObjectUrl>, // the imagePreview state
    emotion: string,                 // the emotion state
    confidence: Option<real>,        // the confidence state
    live: set<Handle>)               // streams whose tracks have not been stopped

  /** How a handler ended: normally, or by throwing after the changes it had made. */
  datatype Outcome = Finished(state: Session) | Threw(state: Session)

  /** The state on first render. */
  const Init: Session := Session(None, None, None, "", None, {})

  /** The <video> element, and so `videoRef.current`, exists only while no
      preview image is rendered in its place. */
  predicate VideoMounted(s: Session) {
    s.imagePreview.None?
  }

  /** What every reachable state satisfies: the video shows the held stream, a
      held stream has live tracks, and a stream is held only while the video
      is on screen. */
  ghost predicate Inv(s: Session) {
    && s.videoSource == s.stream
    && (s.stream.Some? ==> s.stream.value in s.live && VideoMounted(s))
  }

  /** `startCamera` after `getUserMedia` granted stream `h`, as the code is
      written: with a preview on screen `videoRef.current` is null, so the
      assignment of `srcObject` throws and the new stream is neither held nor
      stopped. */
  function StartCameraAsWritten(s: Session, h: Handle): (r: Outcome)
    ensures h in r.state.live && s.live <= r.state.live
    ensures VideoMounted(s) ==> r == StartCamera(s, h)
    ensures !VideoMounted(s) ==> r.Threw? && r.state == s.(live := s.live + {h})
  {
    var acquired := s.(live := s.live + {h});
    if VideoMounted(s) then
      Finished(acquired.(videoSource := Some(h), stream := Some(h), imagePreview := None))
    else
      Threw(acquired)
  }

  /** `startCamera` as intended: the granted stream becomes the held one and is
      shown, and the preview is cleared. An earlier stream is not stopped. */
  function StartCamera(s: Session, h: Handle): (r: Outcome)
    ensures r.Finished?
    ensures r.state.stream == Some(h) && r.state.videoSource == Some(h)
    ensures r.state.imagePreview.None?
    ensures r.state.live == s.live + {h}
    ensures r.state.emotion == s.emotion && r.state.confidence == s.confidence
  {
    Finished(s.(live := s.live + {h}, videoSource := Some(h), stream := Some(h), imagePreview := None))
  }

  /** `stopCamera`: with no stream held nothing happens; otherwise the held
      stream's tracks are stopped, the reference is dropped and the video's
      source is cleared. The last step throws if no video is mounted. */
  function StopCamera(s: Session): (r: Outcome)
    ensures r.state.stream.None?
    ensures s.stream.None? ==> r == Finished(s)
    ensures s.stream.Some? ==> r.state.live == s.live - {s.stream.value}
    ensures s.stream.Some? && VideoMounted(s) ==> r.Finished? && r.state.videoSource.None?
    ensures r.state.imagePreview == s.imagePreview
    ensures r.state.emotion == s.emotion && r.state.confidence == s.confidence
  {
    if s.stream.None? then Finished(s)
    else
      var stopped := s.(live := s.live - {s.stream.value}, stream := None);
      if VideoMounted(s) then Finished(stopped.(videoSource := None)) else Threw(stopped)
  }

  /** `captureAndSend` up to the request: it draws the video into the canvas,
      which throws when no video is mounted, and otherwise sends the frame.
      Nothing in the state changes until the answer arrives. */
  function CaptureAndSend(s: Session): (r: Outcome)
    ensures r.state == s
    ensures r.Finished? <==> VideoMounted(s)
  {
    if VideoMounted(s) then Finished(s) else Threw(s)
  }

  /** Applies an answer to either request: `data.emotion || 'No face detected'`
      and `data.confidence || null`. The `error` field is never read. */
  function Reconcile(s: Session, data: Response): (r: Session)
    ensures r.emotion != ""
    ensures r.emotion == (if TruthyString(data.emotion) then data.emotion.value else NoFaceText)
    ensures r.confidence.Some? <==> TruthyNumber(data.confidence)
    ensures r.confidence.Some? ==> r.confidence == data.confidence
    ensures r.(emotion := s.emotion, confidence := s.confidence) == s
  {
    s.(emotion := OrString(data.emotion, NoFaceText), confidence := OrNull(data.confidence))
  }

  /** `handleUpload` up to the request: the camera is stopped first; with no
      file chosen the handler returns; otherwise the preview shows the file
      before the request is sent. */
  function HandleUpload(s: Session, file: Option<ObjectUrl>): (r: Outcome)
    ensures r.state.stream.None?
    ensures r.state.live == StopCamera(s).state.live
    ensures r.state.emotion == s.emotion && r.state.confidence == s.confidence
    ensures file.None? ==> r == StopCamera(s)
    ensures file.None? ==> r.state.imagePreview == s.imagePreview
    ensures file.Some? && StopCamera(s).Finished? ==> r.Finished? && r.state.imagePreview == file
  {
    var stopped := StopCamera(s);
    if stopped.Threw? || file.None? then stopped
    else Finished(stopped.state.(imagePreview := file))
  }

  /** `removeImage`: the preview goes and the emotion text is emptied; the
      confidence and the camera are left alone. */
  function RemoveImage(s: Session): (r: Session)
    ensures r.imagePreview.None? && r.emotion == ""
    ensures r.confidence == s.confidence
    ensures r.stream == s.stream && r.videoSource == s.videoSource && r.live == s.live
  {
    s.(imagePreview := None, emotion := "")
  }

  /** The user's actions and the browser's answers, one handler step each. */
  datatype Event =
    | CameraGranted(granted: Handle)        // getUserMedia resolved inside startCamera
    | CameraDenied                          // getUserMedia rejected: nothing after it runs
    | StopClicked
    | DetectClicked                         // captureAndSend up to its fetch
    | FileChosen(file: Option<ObjectUrl>)   // handleUpload up to its fetch
    | ResponseArrived(data: Response)       // either handler resumes after res.json()
    | RequestFailed                         // fetch or res.json() rejected
    | RemoveClicked

  /** The state after one event, with the start as the code is written. An
      exception leaves the changes made before it. Every step keeps the
      invariant; only the stream held before the step can be stopped by it;
      only the camera handlers touch the camera; and only an answer or a
      removal changes the emotion or the confidence. */
  function Step(s: Session, e: Event): (r: Session)
    ensures Inv(s) ==> Inv(r)
    ensures s.live - r.live <= (if s.stream.Some? then {s.stream.value} else {})
    ensures !(e.CameraGranted? || e.StopClicked? || e.FileChosen?) ==> r.stream == s.stream && r.live == s.live
    ensures r.emotion != s.emotion || r.confidence != s.confidence ==> e.ResponseArrived? || e.RemoveClicked?
  {
    match e
    case CameraGranted(h) => StartCameraAsWritten(s, h).state
    case CameraDenied => s
    case StopClicked => StopCamera(s).state
    case DetectClicked => CaptureAndSend(s).state
    case FileChosen(file) => HandleUpload(s, file).state
    case ResponseArrived(data) => Reconcile(s, data)
    case RequestFailed => s
    case RemoveClicked => RemoveImage(s)
  }

  /** The state after a sequence of events, applied in arrival order; it
      satisfies the invariant whenever the starting state does. */
  function Run(s: Session, es: seq<Event>): (r: Session)
    ensures Inv(s) ==> Inv(r)
    decreases |es|
  {
    if |es| == 0 then s else Run(Step(s, es[0]), es[1..])
  }

  /** What App renders from its state. */
  datatype Media = PreviewImage(url: ObjectUrl) | LiveVideo(source: Option<Handle>)

  datatype Screen = Screen(media: Media, removeButton: bool, emotionLine: string, confidenceLine: Option<real>)

  /** The preview replaces the video, the remove button comes with the preview,
      and the confidence line is shown iff `confidence !== null`. */
  function Render(s: Session): (v: Screen)
    ensures v.media.PreviewImage? <==> s.imagePreview.Some?
    ensures v.media.PreviewImage? ==> v.media.url == s.imagePreview.value
    ensures v.media.LiveVideo? ==> v.media.source == s.videoSource
    ensures v.removeButton <==> s.imagePreview.Some?
    ensures v.emotionLine == s.emotion
    ensures v.confidenceLine.Some? <==> s.confidence.Some?
    ensures v.confidenceLine == s.confidence
  {
    Screen(
      if s.imagePreview.Some? then PreviewImage(s.imagePreview.value) else LiveVideo(s.videoSource),
      s.imagePreview.Some?,
      s.emotion,
      s.confidence)
  }

  /** In a reachable state the preview is never shown over a held stream, and
      the video shows exactly the held stream. */
  lemma RenderShowsHeldStream(s: Session)
    requires Inv(s)
    ensures Render(s).media.PreviewImage? ==> s.stream.None?
    ensures Render(s).media.LiveVideo? ==> Render(s).media.source == s.stream
  {
  }

  // Camera lifecycle

  /** Stopping twice is stopping once. */
  lemma StopIdempotent(s: Session)
    ensures Step(Step(s, StopClicked), StopClicked) == Step(s, StopClicked)
  {
  }

  /** In a reachable state stopping never reaches the throwing assignment, and
      afterwards no stream is held and the one that was held is stopped. */
  lemma StopReleasesHeld(s: Session)
    requires Inv(s)
    ensures StopCamera(s).Finished?
    ensures StopCamera(s).state.stream.None? && StopCamera(s).state.videoSource.None?
    ensures s.stream.Some? ==> s.stream.value !in StopCamera(s).state.live
    ensures StopCamera(s).state.live <= s.live
  {
  }

  /** A second start does not stop the first stream, and a later stop releases
      only the second: the first stays live with nothing holding it. */
  lemma SecondStartLeaks(s: Session, h1: Handle, h2: Handle)
    requires VideoMounted(s)
    requires h1 != h2
    ensures var t := Run(s, [CameraGranted(h1), CameraGranted(h2), StopClicked]);
      h1 in t.live && h2 !in t.live && t.stream.None?
  {
    var a := Step(s, CameraGranted(h1));
    var b := Step(a, CameraGranted(h2));
    var c := Step(b, StopClicked);
    assert Run(s, [CameraGranted(h1), CameraGranted(h2), StopClicked]) == Run(a, [CameraGranted(h2), StopClicked]);
    assert Run(a, [CameraGranted(h2), StopClicked]) == Run(b, [StopClicked]);
    assert Run(b, [StopClicked]) == Run(c, []);
  }

  /** Over a preview both starts throw: neither stream is held, the stop that
      follows has nothing to stop, and both stay live. */
  lemma StartsOverPreviewBothLeak(s: Session, h1: Handle, h2: Handle)
    requires Inv(s) && !VideoMounted(s)
    ensures var t := Run(s, [CameraGranted(h1), CameraGranted(h2), StopClicked]);
      h1 in t.live && h2 in t.live && t.stream.None? && t.imagePreview == s.imagePreview
  {
    var a := Step(s, CameraGranted(h1));
    var b := Step(a, CameraGranted(h2));
    var c := Step(b, StopClicked);
    assert Run(s, [CameraGranted(h1), CameraGranted(h2), StopClicked]) == Run(a, [CameraGranted(h2), StopClicked]);
    assert Run(a, [CameraGranted(h2), StopClicked]) == Run(b, [StopClicked]);
    assert Run(b, [StopClicked]) == Run(c, []);
  }

  /** Two live streams are reachable from the first render, so there is no
      at-most-one-stream guarantee. */
  lemma TwoStreamsReachable()
    ensures Run(Init, [CameraGranted(1), CameraGranted(2)]).live == {1, 2}
  {
    var a := Step(Init, CameraGranted(1));
    assert Run(Init, [CameraGranted(1), CameraGranted(2)]) == Run(a, [CameraGranted(2)]);
    assert Run(a, [CameraGranted(2)]) == Run(Step(a, CameraGranted(2)), []);
  }

  /** As written, a start while a preview is shown keeps the preview, holds
      nothing new, and leaves the granted stream live for good: no stop
      reaches it. */
  lemma StartOverPreviewLeaks(s: Session, h: Handle)
    requires Inv(s) && !VideoMounted(s) && h !in s.live
    ensures var r := StartCameraAsWritten(s, h);
      && r.Threw?
      && r.state.imagePreview == s.imagePreview
      && r.state.stream.None?
      && h in StopCamera(r.state).state.live
  {
  }

  // Invariant

  lemma InitInv()
    ensures Inv(Init)
  {
  }

  /** The intended start keeps the invariant too. */
  lemma IntendedStartPreservesInv(s: Session, h: Handle)
    requires Inv(s)
    ensures Inv(StartCamera(s, h).state)
  {
  }

  // Answers

  /** An answer carrying only an error shows "No face detected" and no
      confidence, whatever the error says. */
  lemma ErrorOnlyAnswer(s: Session, err: string)
    ensures var r := Reconcile(s, Response(None, None, Some(err)));
      r.emotion == NoFaceText && r.confidence.None? && !Render(r).confidenceLine.Some?
  {
  }

  /** What the server sends is shown as follows: the first face's label, its
      score unless that is 0, or the no-face text with no confidence. */
  lemma ServedAnswer(s: Session, f: Finding)
    ensures var r := Reconcile(s, Serve(f));
      && (f.NoFace? ==> r.emotion == NoFaceText && r.confidence.None?)
      && (f.FirstFace? && f.name != "" ==> r.emotion == f.name)
      && (f.FirstFace? ==> (r.confidence.Some? <==> f.score != 0.0))
      && (f.FirstFace? && f.score != 0.0 ==> r.confidence == Some(f.score))
  {
  }

  /** A score of exactly 0 is shown as no confidence at all. */
  lemma ZeroConfidenceIsNull(s: Session, name: string)
    ensures Reconcile(s, Response(Some(name), Some(0.0), None)).confidence.None?
  {
  }

  lemma {:induction false} FailuresChangeNothing(s: Session, es: seq<Event>)
    requires forall i :: 0 <= i < |es| ==> es[i].RequestFailed?
    ensures Run(s, es) == s
    decreases |es|
  {
    if |es| > 0 {
      FailuresChangeNothing(Step(s, es[0]), es[1..]);
    }
  }

  /** There is no sequencing of requests: among answers and failures, the
      answer that arrives last decides what is shown, whichever request it
      belongs to. */
  lemma {:induction false} LatestArrivalWins(s: Session, es: seq<Event>, k: nat)
    requires forall i :: 0 <= i < |es| ==> es[i].ResponseArrived? || es[i].RequestFailed?
    requires k < |es| && es[k].ResponseArrived?
    requires forall j :: k < j < |es| ==> es[j].RequestFailed?
    ensures Run(s, es) == Reconcile(s, es[k].data)
    decreases |es|
  {
    var s' := Step(s, es[0]);
    if k == 0 {
      FailuresChangeNothing(s', es[1..]);
    } else {
      LatestArrivalWins(s', es[1..], k - 1);
    }
  }

  /** The order of arrival, not the order of sending, decides: the same two
      answers in the other order leave a different emotion. */
  lemma ArrivalOrderDecides(s: Session, a: string, b: string)
    requires a != "" && b != "" && a != b
    ensures var ra := ResponseArrived(Response(Some(a), None, None));
      var rb := ResponseArrived(Response(Some(b), None, None));
      Run(s, [ra, rb]).emotion == b && Run(s, [rb, ra]).emotion == a
  {
    var ra := ResponseArrived(Response(Some(a), None, None));
    var rb := ResponseArrived(Response(Some(b), None, None));
    LatestArrivalWins(s, [ra, rb], 1);
    LatestArrivalWins(s, [rb, ra], 1);
  }

  // Upload and removal

  /** With a file chosen the preview is set at once, and the answer is then
      applied exactly as an answer to a captured frame is. */
  lemma UploadThenAnswer(s: Session, url: ObjectUrl, data: Response)
    requires Inv(s)
    ensures var r := Run(s, [FileChosen(Some(url)), ResponseArrived(data)]);
      r == Reconcile(HandleUpload(s, Some(url)).state, data) && r.imagePreview == Some(url) && r.stream.None?
  {
    var a := Step(s, FileChosen(Some(url)));
    assert Run(s, [FileChosen(Some(url)), ResponseArrived(data)]) == Run(a, [ResponseArrived(data)]);
    assert Run(a, [ResponseArrived(data)]) == Run(Step(a, ResponseArrived(data)), []);
  }

  /** After removing the image the emotion line is empty but the confidence
      line stays exactly as it was. */
  lemma RemoveKeepsConfidenceLine(s: Session)
    ensures Render(RemoveImage(s)).emotionLine == ""
    ensures Render(RemoveImage(s)).confidenceLine == Render(s).confidenceLine
  {
  }

  /** An answer to an upload that arrives after the image was removed still
      fills the emotion in. */
  lemma AnswerAfterRemoveStillApplies(s: Session, data: Response)
    ensures Run(s, [RemoveClicked, ResponseArrived(data)]).emotion != ""
    ensures Run(s, [RemoveClicked, ResponseArrived(data)]).imagePreview.None?
  {
    var a := Step(s, RemoveClicked);
    assert Run(s, [RemoveClicked, ResponseArrived(data)]) == Run(a, [ResponseArrived(data)]);
    assert Run(a, [ResponseArrived(data)]) == Run(Step(a, ResponseArrived(data)), []);
  }
}
