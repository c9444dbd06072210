/**
 * The two halves connected: a list the ROI worker emits on
 * `found_code_signal` is delivered to `update_detected`; a frame that emits
 * nothing does not reach the widget at all.
 */
module Pipeline {
  import opened Base
  import opened FoundQr
  import opened Roi
  import opened CvWorker
  import opened Registry

  /** The widget after one iteration of the ROI worker's loop. */
  function Feed(ui: Ui, s: Settings, frame: Option<Image>, hits: seq<Hit>): (r: Ui)
    ensures |ui.qrCodes| <= |r.qrCodes|
    ensures !(Step(s, frame, hits).Processed? && Step(s, frame, hits).d.emitted.Some?) ==> r == ui
  {
    var t := Step(s, frame, hits);
    if t.Processed? && t.d.emitted.Some? then UpdateDetected(ui, t.d.emitted.value) else ui
  }

  /** Feeding frames keeps the widget invariant. */
  lemma FeedKeepsConsistent(ui: Ui, s: Settings, frame: Option<Image>, hits: seq<Hit>)
    requires Consistent(ui)
    ensures Consistent(Feed(ui, s, frame, hits))
  {
    var t := Step(s, frame, hits);
    if t.Processed? && t.d.emitted.Some? {
      UpdateDetectedKeepsConsistent(ui, t.d.emitted.value);
    }
  }

  /** A scaled pointer on either axis gates the decoder output off, so the
      frame leaves the widget unchanged: no registration and no counting. */
  lemma PointerOnAxisLeavesWidgetUnchanged(ui: Ui, s: Settings, img: Image, hits: seq<Hit>)
    requires s.windowX != 0 && s.windowY != 0
    requires Scale(s.mouseX, img.width, s.windowX) == 0 || Scale(s.mouseY, img.height, s.windowY) == 0
    ensures Feed(ui, s, Some(img), hits) == ui
  {
  }

  /** A 1920 x 1080 frame, a 1280 x 600 window and the pointer still at the
      origin: the ROI is the 100 x 100 corner, nothing is emitted and the
      widget does not change. */
  lemma OriginPointerScenario(ui: Ui, hits: seq<Hit>, serial: nat)
    ensures var t := Step(NewSettings(1280, 600), Some(Image(1920, 1080, serial)), hits);
      && t.Processed? && t.d.roi == Box(0, 0, 100, 100) && t.d.emitted.None? && t.d.colour == Red
    ensures Feed(ui, NewSettings(1280, 600), Some(Image(1920, 1080, serial)), hits) == ui
  {
    NewWorkerEmitsNothing(1280, 600, Image(1920, 1080, serial), hits);
  }
}
