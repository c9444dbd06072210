/**
 * The ROI worker of cvthread.py: its control settings (cvthread.py:13-25)
 * and the pure part of one iteration of its frame loop (cvthread.py:43-88).
 * The external decoder is an input: `hits` is what it reports for the crop.
 */
module CvWorker {
  import opened Base
  import opened FoundQr
  import opened FirstWins
  import opened Roi

  /** Pointer position in window coordinates, ROI half-width and window size. */
  datatype Settings = Settings(mouseX: int, mouseY: int, bboxSize: int, windowX: int, windowY: int)

  /** The half-width a new worker starts with (cvthread.py:18). */
  const DefaultBboxSize := 100

  /** `CVThread.__init__`: the pointer starts at the origin. */
  function NewSettings(windowX: int, windowY: int): (s: Settings)
    ensures s.mouseX == 0 && s.mouseY == 0 && s.bboxSize == DefaultBboxSize
    ensures s.windowX == windowX && s.windowY == windowY
  {
    Settings(0, 0, DefaultBboxSize, windowX, windowY)
  }

  /** `update_mouse`: only the pointer changes. */
  function UpdateMouse(s: Settings, x: int, y: int): (r: Settings)
    ensures r.mouseX == x && r.mouseY == y
    ensures r.bboxSize == s.bboxSize && r.windowX == s.windowX && r.windowY == s.windowY
  {
    s.(mouseX := x, mouseY := y)
  }

  /** `update_bbox`: only the half-width changes; any integer is accepted. */
  function UpdateBbox(s: Settings, size: int): (r: Settings)
    ensures r.bboxSize == size
    ensures r.mouseX == s.mouseX && r.mouseY == s.mouseY && r.windowX == s.windowX && r.windowY == s.windowY
  {
    s.(bboxSize := size)
  }

  /** Colour of the ROI outline: BGR (0, 255, 0) and (0, 0, 255). */
  datatype Colour = Green | Red

  /** What one processed frame yields: the scaled pointer (x, y), the clamped
      ROI, the pixels given to the decoder, the list emitted on
      `found_code_signal` (None when nothing is emitted), the highlight
      rectangles drawn in frame coordinates and the ROI outline colour. */
  datatype Detection = Detection(
    x: int, y: int, roi: Box, crop: Box,
    emitted: Option<seq<FoundQR>>, highlights: seq<Rect>, colour: Colour)

  /** Outcome of one loop iteration: no frame was read (`continue`), the
      pointer scaling divided by a zero window dimension (an uncaught
      `ZeroDivisionError`), or a processed frame. */
  datatype Tick = NoFrame | DivisionByZero | Processed(d: Detection)

  /** The payloads the decoder reported. */
  function HitPayloads(hits: seq<Hit>): set<string> {
    set k | 0 <= k < |hits| :: hits[k].payload
  }

  /** One record per decoder hit, in hit order (cvthread.py:78). */
  function Decoded(img: Image, hits: seq<Hit>): (r: seq<FoundQR>)
    ensures |r| == |hits|
    ensures forall k :: 0 <= k < |hits| ==>
      r[k].data == hits[k].payload && r[k].img == img && r[k].qrObj == hits[k] && r[k].consecutiveNotSeen == 0
  {
    seq(|hits|, k requires 0 <= k < |hits| => NewFoundQR(hits[k].payload, img, hits[k]))
  }

  lemma DecodedPayloads(img: Image, hits: seq<Hit>)
    ensures PayloadSet(Decoded(img, hits)) == HitPayloads(hits)
  {
    var d := Decoded(img, hits);
    forall p | p in HitPayloads(hits) ensures p in PayloadSet(d) {
      var k :| 0 <= k < |hits| && hits[k].payload == p;
      assert d[k].data == p;
    }
  }

  /** The emitted list and the highlight rectangles of a frame whose scaled
      pointer passed the gate (cvthread.py:75-80). */
  function Detect(img: Image, roi: Box, hits: seq<Hit>): (r: (seq<FoundQR>, seq<Rect>))
    ensures Unique(r.0) && PayloadSet(r.0) == HitPayloads(hits)
    ensures |r.0| > 0 <==> |hits| > 0
    ensures forall k :: 0 <= k < |r.0| ==> r.0[k].img == img && r.0[k].consecutiveNotSeen == 0
    ensures |r.1| == |hits|
    ensures forall k :: 0 <= k < |hits| ==> r.1[k] == ShiftRect(hits[k].rect, roi)
  {
    var codes := Decoded(img, hits);
    DecodedPayloads(img, hits);
    var emitted := Dedup(codes);
    assert |hits| > 0 ==> hits[0].payload in PayloadSet(emitted);
    (emitted, seq(|hits|, k requires 0 <= k < |hits| => ShiftRect(hits[k].rect, roi)))
  }

  /** One iteration of the frame loop of cvthread.py:43-88. */
  function Step(s: Settings, frame: Option<Image>, hits: seq<Hit>): (t: Tick)
    ensures frame.None? <==> t.NoFrame?
    ensures t.DivisionByZero? <==> frame.Some? && (s.windowX == 0 || s.windowY == 0)
    ensures t.Processed? ==>
      var d := t.d;
      var img := frame.value;
      && d.x == Scale(s.mouseX, img.width, s.windowX) && d.y == Scale(s.mouseY, img.height, s.windowY)
      && d.roi == RoiBox(d.x, d.y, img.width, img.height, s.bboxSize)
      && d.crop == CropSpan(d.roi, img.width, img.height)
      && 0 <= d.roi.xmin && d.roi.xmax <= img.width && 0 <= d.roi.ymin && d.roi.ymax <= img.height
      && (d.emitted.Some? <==> d.x != 0 && d.y != 0)
      && (d.emitted.Some? ==> Unique(d.emitted.value) && PayloadSet(d.emitted.value) == HitPayloads(hits))
      && (d.emitted.Some? ==> |d.highlights| == |hits|)
      && (d.emitted.None? ==> d.highlights == [])
      && (d.colour == Green <==> d.emitted.Some? && |hits| > 0)
  {
    match frame
    case None => NoFrame
    case Some(img) =>
      if s.windowX == 0 || s.windowY == 0 then DivisionByZero
      else
        var x := Scale(s.mouseX, img.width, s.windowX);
        var y := Scale(s.mouseY, img.height, s.windowY);
        var roi := RoiBox(x, y, img.width, img.height, s.bboxSize);
        var crop := CropSpan(roi, img.width, img.height);
        if x != 0 && y != 0 then
          var (emitted, highlights) := Detect(img, roi, hits);
          Processed(Detection(x, y, roi, crop, Some(emitted), highlights, if |emitted| > 0 then Green else Red))
        else
          Processed(Detection(x, y, roi, crop, None, [], Red))
  }

  /** The emitted list is the first record of each payload, in order of first
      appearance among the hits; each highlight is its hit's rectangle moved
      by the ROI's top-left corner, same width and height. */
  lemma StepEmitsFirstOccurrences(s: Settings, img: Image, hits: seq<Hit>)
    requires s.windowX != 0 && s.windowY != 0
    ensures var t := Step(s, Some(img), hits);
      t.Processed? && (t.d.emitted.Some? ==>
        && t.d.emitted.value == Unseen([], Decoded(img, hits))
        && forall k :: 0 <= k < |hits| ==> t.d.highlights[k] == ShiftRect(hits[k].rect, t.d.roi))
  {
    DedupKeepsFirstOccurrences(Decoded(img, hits));
  }

  /** With the pointer inside a window of positive size and a non-negative
      half-width, the ROI holds the scaled pointer and is what the decoder sees. */
  lemma StepRoiHoldsPointer(s: Settings, img: Image, hits: seq<Hit>)
    requires 0 < s.windowX && 0 < s.windowY && 0 <= s.bboxSize
    requires 0 <= s.mouseX <= s.windowX && 0 <= s.mouseY <= s.windowY
    ensures var t := Step(s, Some(img), hits);
      && t.Processed?
      && 0 <= t.d.roi.xmin <= t.d.x <= t.d.roi.xmax <= img.width
      && 0 <= t.d.roi.ymin <= t.d.y <= t.d.roi.ymax <= img.height
      && t.d.crop == t.d.roi
  {
    var x := Scale(s.mouseX, img.width, s.windowX);
    var y := Scale(s.mouseY, img.height, s.windowY);
    ScaleStaysInFrame(s.mouseX, img.width, s.windowX);
    ScaleStaysInFrame(s.mouseY, img.height, s.windowY);
    RoiContainsPoint(x, y, img.width, img.height, s.bboxSize);
    CropIsRoiForPointInFrame(x, y, img.width, img.height, s.bboxSize);
  }

  /** A new worker, whose pointer is still at the origin, emits nothing and
      outlines a red ROI at the frame's top-left corner. */
  lemma NewWorkerEmitsNothing(windowX: int, windowY: int, img: Image, hits: seq<Hit>)
    requires windowX != 0 && windowY != 0
    ensures var t := Step(NewSettings(windowX, windowY), Some(img), hits);
      && t.Processed? && t.d.emitted.None? && t.d.colour == Red
      && t.d.roi == Box(0, 0, Min(img.width, DefaultBboxSize), Min(img.height, DefaultBboxSize))
  {
    assert Scale(0, img.width, windowX) == 0;
  }
}
