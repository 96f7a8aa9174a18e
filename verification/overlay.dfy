/** The VideoDisplay component: where each detected face's box is drawn over
    the preview image or the live video, in what colour, and when the
    "N faces detected" notice appears. Boxes arrive in pixels of a fixed
    640x480 frame and are placed as percentages of the displayed element. */
module Overlay {
  import opened JsValues
  import Emotions

  const FrameWidth: real := 640.0
  const FrameHeight: real := 480.0

  /** A face's bounding box in pixels of the reference frame. */
  datatype BBox = BBox(x: real, y: real, w: real, h: real)

  datatype Face = Face(bbox: BBox, emotion: string, confidence: real)

  /** CSS placement of a box, each field a percentage. */
  datatype Placement = Placement(left: real, top: real, width: real, height: real)

  /** One drawn box: where it goes, its border colour, and its label. */
  datatype Box = Box(placement: Placement, borderColor: string, labelColor: string, emotion: string, confidence: real)

  /** Placement of a bounding box: each coordinate as a share of the frame
      dimension it runs along, times 100. */
  function Place(b: BBox): (p: Placement)
    ensures p.left * FrameWidth == b.x * 100.0 && p.width * FrameWidth == b.w * 100.0
    ensures p.top * FrameHeight == b.y * 100.0 && p.height * FrameHeight == b.h * 100.0
  {
    Placement((b.x / FrameWidth) * 100.0, (b.y / FrameHeight) * 100.0,
              (b.w / FrameWidth) * 100.0, (b.h / FrameHeight) * 100.0)
  }

  /** The pixel box a placement stands for: the inverse of `Place`. */
  function ToPixels(p: Placement): (b: BBox)
    ensures b.x * 100.0 == p.left * FrameWidth && b.w * 100.0 == p.width * FrameWidth
    ensures b.y * 100.0 == p.top * FrameHeight && b.h * 100.0 == p.height * FrameHeight
  {
    BBox(p.left * FrameWidth / 100.0, p.top * FrameHeight / 100.0,
         p.width * FrameWidth / 100.0, p.height * FrameHeight / 100.0)
  }

  lemma PlaceThenToPixels(b: BBox)
    ensures ToPixels(Place(b)) == b
  {
  }

  lemma ToPixelsThenPlace(p: Placement)
    ensures Place(ToPixels(p)) == p
  {
  }

  /** The box lies inside the 640x480 frame. */
  predicate InFrame(b: BBox) {
    && 0.0 <= b.x && 0.0 <= b.w && b.x + b.w <= FrameWidth
    && 0.0 <= b.y && 0.0 <= b.h && b.y + b.h <= FrameHeight
  }

  /** The placement lies inside the displayed element. */
  predicate InView(p: Placement) {
    && 0.0 <= p.left && 0.0 <= p.width && p.left + p.width <= 100.0
    && 0.0 <= p.top && 0.0 <= p.height && p.top + p.height <= 100.0
  }

  /** A box inside the frame is drawn inside the element, and only such a box is. */
  lemma PlaceInView(b: BBox)
    ensures InFrame(b) <==> InView(Place(b))
  {
    var p := Place(b);
    assert p.left + p.width == (b.x + b.w) / FrameWidth * 100.0;
    assert p.top + p.height == (b.y + b.h) / FrameHeight * 100.0;
  }

  /** The face at (100, 50) of size 80x80. */
  lemma PlaceExample()
    ensures Place(BBox(100.0, 50.0, 80.0, 80.0)) == Placement(15.625, 125.0 / 12.0, 12.5, 50.0 / 3.0)
  {
  }

  /** The box drawn for one face: border and label share the face's colour. */
  function FaceBox(f: Face): (b: Box)
    ensures b.placement == Place(f.bbox)
    ensures b.borderColor == b.labelColor == Emotions.ColorOf(f.emotion)
    ensures b.emotion == f.emotion && b.confidence == f.confidence
  {
    var color := Emotions.ColorOf(f.emotion);
    Box(Place(f.bbox), color, color, f.emotion, f.confidence)
  }

  /** `faces.map(...)`: one box per face, in the order of the faces. */
  function Boxes(faces: seq<Face>): (r: seq<Box>)
    ensures |r| == |faces|
    ensures forall i :: 0 <= i < |faces| ==> r[i] == FaceBox(faces[i])
  {
    if |faces| == 0 then [] else [FaceBox(faces[0])] + Boxes(faces[1..])
  }

  /** `faces && faces.length > 0 && faces.map(...)`: no boxes for null or no faces. */
  function Overlays(faces: Option<seq<Face>>): (r: seq<Box>)
    ensures faces.None? ==> r == []
    ensures faces.Some? ==> |r| == |faces.value|
    ensures faces.Some? ==> forall i :: 0 <= i < |r| ==> r[i] == FaceBox(faces.value[i])
  {
    if faces.Some? && |faces.value| > 0 then Boxes(faces.value) else []
  }

  /** The image area: the preview with its boxes and remove button, or the
      video with its boxes. */
  datatype Frame = PreviewFrame(url: string, boxes: seq<Box>) | VideoFrame(boxes: seq<Box>)

  datatype Display = Display(frame: Frame, processing: bool, banner: Option<nat>)

  /** The whole component: a truthy preview takes the place of the video, the
      processing overlay follows `isLoading`, and the notice counts the faces
      when there is more than one. */
  function Render(imagePreview: Option<string>, faces: Option<seq<Face>>, isLoading: bool): (d: Display)
    ensures d.frame.PreviewFrame? <==> TruthyString(imagePreview)
    ensures d.frame.PreviewFrame? ==> d.frame.url == imagePreview.value
    ensures d.frame.boxes == Overlays(faces)
    ensures d.processing == isLoading
    ensures d.banner.Some? <==> faces.Some? && |faces.value| > 1
    ensures d.banner.Some? ==> d.banner.value == |faces.value|
  {
    var frame :=
      if TruthyString(imagePreview) then PreviewFrame(imagePreview.value, Overlays(faces))
      else VideoFrame(Overlays(faces));
    var banner := if faces.Some? && |faces.value| > 1 then Some(|faces.value|) else None;
    Display(frame, isLoading, banner)
  }

  /** The notice appears exactly when more than one box is drawn, and counts
      the boxes. */
  lemma BannerCountsBoxes(imagePreview: Option<string>, faces: Option<seq<Face>>, isLoading: bool)
    ensures var d := Render(imagePreview, faces, isLoading);
      (d.banner.Some? <==> |d.frame.boxes| > 1) && (d.banner.Some? ==> d.banner.value == |d.frame.boxes|)
  {
  }

  /** The preview and the video place the same faces identically. The two
      branches of the component are written out twice with identical
      placement code; this model builds both from one `Overlays`, so the lemma
      records that merge rather than proving anything about two definitions. */
  lemma BranchesAgree(url: string, faces: Option<seq<Face>>, isLoading: bool)
    requires url != ""
    ensures Render(Some(url), faces, isLoading).frame.PreviewFrame?
    ensures Render(None, faces, isLoading).frame.VideoFrame?
    ensures Render(Some(url), faces, isLoading).frame.boxes == Render(None, faces, isLoading).frame.boxes
  {
  }
}
