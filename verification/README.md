# QR registry and ROI detection — a Dafny model

This project models the pure logic inside a small OpenCV/Qt application that
watches a camera, decodes QR codes and keeps a table of every code it has
seen. Three pieces are modelled:

- **The ROI worker** (`cvthread.py`). A worker thread maps the mouse
  position from window to frame coordinates and builds a square of
  half-width `bbox_size` around it. It clamps the square into the frame and
  decodes only that crop. It emits the deduplicated list of found codes, but
  only when the scaled pointer lies off both axes. Modules `Roi` (geometry)
  and `CvWorker` (settings and one loop iteration).
- **The registry and debounce table** (`Ui` in `main.py`). `qrCodes` is an
  append-only list of found codes, each with a `consecutiveNotSeen` counter.
  `previousCapture` is the last list that counted as a change. The table
  shows "Yes"/"No" per code. Module `Registry` models `update_detected`
  with the source's exact call order. This includes the relabelling pass it
  runs inside its counter loop, which labels later rows from counters not
  yet incremented. The model proves that every row still ends up with the
  label `PresenceLabel(counter, listed)`: "Yes" iff the code is in the
  current list or its counter is at most 10.
- **Payload identity** (`foundqr.py`, copied in `main.py`). A found code
  equals another iff their payload strings are equal. Module `FoundQr`.
  One first-wins append loop (`FirstWins.AppendNew`) serves three places:
  the frame dedup in `cvthread.py`, the dedup in `main.py`'s contour worker
  (module `ContourWorker`), and the registry append. `FirstWins.Unseen` is a
  declarative reference definition that the loop is proved equal to.

Module `Pipeline` feeds what the ROI worker emits into `update_detected`.
In this snapshot `main.py:236` connects the slot to `main.py`'s own contour
worker. Both workers emit the same kind of list on the same signal.

Behaviour of the code worth knowing:

- New payloads are registered only when the incoming list differs from
  `previousCapture`, not on every frame. `clearTable` keeps
  `previousCapture`. So codes still in view are not re-added after a clear
  until the list changes (`Registry.ClearThenSameListAddsNothing`).
- The emit gate tests the *scaled* point: `x != 0 and y != 0`. It is not a
  raw `(0, 0)` sentinel. Any pointer on an axis suppresses emission, and a
  frame that emits nothing neither registers nor counts anything
  (`Pipeline.PointerOnAxisLeavesWidgetUnchanged`).
- An emitted record keeps the decoder's hit with its *crop-local*
  rectangle. Frame-space geometry exists only as the highlight rectangles
  drawn on the frame (`CvWorker.Detection.highlights`).
- The ROI's `xmin`, `ymin` are never negative and its `xmax`, `ymax` never
  exceed the frame's dimensions, so every pixel it covers lies inside the
  frame. `xmin`/`ymin` can still exceed the frame when the scaled point lies
  beyond it by more than `bbox_size`, and the ROI is then inverted
  (`xmin > xmax`), as it is for a negative `bbox_size`. Python slicing then
  gives an empty crop (`Roi.PointPastRightEdgeGivesEmptyCrop`). If the
  point lies left of or above the frame by more than `bbox_size`, the
  negative `xmax` counts from the far edge. The decoder then gets a crop
  that lies away from the pointer (`Roi.NegativeStopWrapsAround`).
- A payload that is not valid UTF-8 raises in the source. It is not
  dropped.

## Model

| member | source | states |
|---|---|---|
| FoundQr.NewFoundQR | foundqr.py:2-6 | a fresh record stores payload, image and decoder hit unchanged and starts with counter 0 |
| FoundQr.SameCode | foundqr.py:8-9 | two records are the same code iff their payload strings are equal |
| FoundQr.Contains | foundqr.py:8-9 | Python `x in s`: some element of s is the same code as x |
| FoundQr.SameList | main.py:329 | Python `a == b` on lists of records: equal length and pairwise the same code |
| FoundQr.SameCodeIsEquivalence | foundqr.py:8-9 | payload equality is reflexive, symmetric and transitive |
| FoundQr.SameCodeIgnoresRecordState | foundqr.py:2-9 | changing image, decoder hit or counter never changes equality |
| FoundQr.ContainsIffPayloadListed | foundqr.py:8-9 | `x in list` holds iff x's payload is among the list's payloads (as a list and as a set) |
| FoundQr.ContainsByPayload | foundqr.py:8-9 | two records with equal payloads are in exactly the same lists |
| FoundQr.SameListIffSamePayloads | main.py:329 | Python list equality of found codes is equality of their payload lists |
| FoundQr.SameListSameMembers | main.py:329 | two lists equal as Python lists hold the same codes |
| FirstWins.AppendNew | main.py:332-334 | the loop keeps its start list as a prefix, its payload set is the union, it never creates a repeated payload, and everything it adds comes from the input |
| FirstWins.AppendNewIsUnseen | main.py:332-334 | the loop leaves the start list followed by the first record of each payload it lacked, in input order |
| FirstWins.Dedup | cvthread.py:75-80 | the frame list has no repeated payload, exactly the input's payloads, only input records, and is no longer than the input |
| FirstWins.DedupKeepsFirstOccurrences | cvthread.py:75-80 | the frame list is the first record of each payload, in order of first appearance |
| FirstWins.DedupOfUniqueIsIdentity | cvthread.py:79-80 | a list without repeated payloads passes unchanged |
| FirstWins.DedupIsIdempotent | cvthread.py:79-80 | deduplicating twice equals deduplicating once |
| FirstWins.AppendNewConcat | main.py:111-121 | running the loop over a and then over b equals running it over a + b |
| Roi.Scale | cvthread.py:52-53 | `int(m * frameDim / windowDim)`: the magnitude is the floor of the magnitudes' quotient, the sign is the product of the signs |
| Roi.TruncDiv | cvthread.py:52-53 | `int(a / b)`: the magnitude is the floor of the magnitudes' quotient, the sign is the product of the signs |
| Roi.ScaleIsFloorDivision | cvthread.py:52-53 | for a non-negative pointer and a positive window, scaling is integer division |
| Roi.ScaleStaysInFrame | cvthread.py:52-53 | a pointer inside the window maps into [0, frame dimension] |
| Roi.ClampSide | cvthread.py:56-65 | one ROI side starts at or after 0 and ends at or before dim, spans at most 2*bbox, and covers exactly the square's pixels that are inside the frame |
| Roi.RoiBox | cvthread.py:56-65 | xmin, ymin >= 0 and xmax, ymax <= the frame's dimensions; it is at most 2*bbox wide and high; the pixels it covers are exactly the square around the point intersected with the frame |
| Roi.RoiContainsPoint | cvthread.py:56-65 | for a point in the frame and bbox >= 0, 0 <= xmin <= x <= xmax <= width and likewise for y |
| Roi.RoiIsSquareAwayFromEdges | cvthread.py:56-65 | when bbox <= x <= width - bbox (and likewise y), the ROI is exactly the square around the point |
| Roi.SliceBound | cvthread.py:67 | a slice bound lands in [0, n]: in-range bounds are kept, bounds in [-n, 0) count from the end, bounds above n become n and bounds below -n become 0 |
| Roi.CropSpan | cvthread.py:67 | the sliced crop lies within the frame; on each axis the start is the normalised start, and the stop is the normalised stop, counted from the far edge when in [-n, 0), and never before the start |
| Roi.CropIsRoiForPointInFrame | cvthread.py:62-67 | for a point in the frame and bbox >= 0, the decoder sees exactly the ROI |
| Roi.NegativeStopWrapsAround | cvthread.py:62-67 | a point 500 px left of a 1920 px frame with bbox 100 decodes columns [0, 1520) |
| Roi.PointPastRightEdgeGivesEmptyCrop | cvthread.py:56-67 | a point at x = 3000 in a 1920 px frame with bbox 100 gives xmin = 2900 > xmax = 1920, and the decoder sees no column |
| Roi.ShiftRect | cvthread.py:77 | a highlight is the hit's rectangle moved by the ROI's top-left corner, same width and height |
| CvWorker.NewSettings | cvthread.py:13-19 | a new worker has its pointer at the origin, half-width 100 and the given window size |
| CvWorker.UpdateMouse | cvthread.py:21-22 | only the pointer changes |
| CvWorker.UpdateBbox | cvthread.py:24-25 | only the half-width changes |
| CvWorker.Decoded | cvthread.py:78 | one record per decoder hit, in hit order, carrying its payload, the frame, the hit and counter 0 |
| CvWorker.DecodedPayloads | cvthread.py:78 | the records carry exactly the hits' payloads |
| CvWorker.Detect | cvthread.py:75-80 | the gated frame list has no repeated payload and exactly the hits' payloads; it is non-empty iff there are hits; every record carries the frame and counter 0; one highlight per hit, shifted by the ROI |
| CvWorker.Step | cvthread.py:43-88 | no frame skips; a zero window dimension fails; otherwise the point is the pointer scaled into the frame, the ROI is the clamped square around it and the crop its Python slice, xmin, ymin >= 0 and xmax, ymax <= the frame's dimensions, a list is emitted iff both scaled coordinates are non-zero, the emitted list is unique with the hits' payloads, there are no highlights without emission, and the outline is green iff a non-empty list is emitted |
| CvWorker.StepEmitsFirstOccurrences | cvthread.py:75-80 | the emitted list is the first record of each payload among the hits, in order; each highlight is its hit's rectangle shifted by the ROI |
| CvWorker.StepRoiHoldsPointer | cvthread.py:49-67 | for a pointer inside a positive window and bbox >= 0, the ROI holds the scaled pointer and equals the crop |
| CvWorker.NewWorkerEmitsNothing | cvthread.py:17-88 | with the initial pointer nothing is emitted, the outline is red and the ROI is the frame's top-left bbox corner |
| ContourWorker.DetectAll | main.py:108-121 | the list shared by all candidates has no repeated payload and exactly the payloads of all hits |
| ContourWorker.DetectAllIsDedupOfAllHits | main.py:108-121 | the shared list is the first-wins dedup of all hits in candidate order |
| ContourWorker.ContourStep | main.py:106-123 | a list is emitted iff there are fewer than 10 candidates; it is unique and has all hit payloads |
| Registry.Init | main.py:172-173 | a new widget has no codes, no previous capture and an empty table |
| Registry.PresenceLabel | main.py:318-324 | an entry is labelled "No" iff its payload is not listed and its counter exceeds 10 |
| Registry.SetLabel | main.py:311-324 | `setItem` on column 0 replaces row i's label when the row exists; every other row and every payload cell is untouched |
| Registry.Advance | main.py:340-345 | an entry's counter becomes 0 iff its payload is listed and old + 1 otherwise; payload, image and hit are kept |
| Registry.Changed | main.py:329 | the list counts as unchanged iff there is a previous capture with the same payload list |
| Registry.ClearTable | main.py:242-247 | the registry and the table are emptied and the previous capture is kept |
| Registry.UpdateTable | main.py:309-313 | one row per entry in registry order, showing its payload and the label "No" |
| Registry.MarkFrom | main.py:316-324 | the relabelling loop resets the counter of each listed entry from i on and gives each such row its deserved label; earlier rows and entries are untouched |
| Registry.UpdateCurrentDetected | main.py:315-324 | listed entries are reset to 0, every row gets the label its entry deserves, payload cells and the previous capture are untouched |
| Registry.CountStep | main.py:340-345 | one loop iteration advances entry i by the counter rule; other entries change only by a reset of a listed entry; payload cells are untouched |
| Registry.CountFrom | main.py:339-345 | from index i on, each entry is reset if listed and counted otherwise; earlier entries only lose counts by a reset of a listed entry |
| Registry.Register | main.py:329-337 | on a changed list, it becomes the previous capture, unseen payloads are appended, listed entries are reset, and the table is rebuilt with deserved labels; on an unchanged list nothing changes |
| Registry.UpdateDetected | main.py:327-345 | the registry never shrinks; the previous capture becomes the list iff it changed; an unchanged list adds nothing |
| Registry.CountFromSettlesLabels | main.py:337-345 | whatever relabelling passes the counter loop triggers, every row ends with the label its entry deserves |
| Registry.CountStepKeepsPending | main.py:339-345 | one loop iteration, with or without a relabelling pass, leaves every row with a label the rest of the loop will settle |
| Registry.InitIsConsistent | main.py:172-173 | the initial state satisfies the widget invariant |
| Registry.ClearTableKeepsConsistent | main.py:242-247 | clearing keeps the widget invariant |
| Registry.RegisterLeavesLabelsPending | main.py:329-337 | after registration every row shows its payload, and its label is one the counter loop will settle |
| Registry.UpdateDetectedKeepsEntries | main.py:332-334 | no entry is removed or replaced: payload, first-sighting image and hit are kept, and no payload appears twice |
| Registry.UpdateDetectedCounters | main.py:339-345 | on every call each entry's counter becomes 0 if listed and old + 1 otherwise; added entries are listed with counter 0 |
| Registry.UpdateDetectedIsExpected | main.py:327-345 | the sequential update equals the reference: old entries followed, on change, by the unseen first records, each advanced by the counter rule |
| Registry.UpdateDetectedKeepsConsistent | main.py:309-345 | the widget invariant is kept, and every row shows "Yes" iff its payload is listed or its counter is at most 10 |
| Registry.RunKeepsConsistent | main.py:327-345 | any number of updates keep the widget invariant |
| Registry.RunOnlyGrows | main.py:327-345 | across any number of updates the registry only grows and keeps each entry's payload, image and hit |
| Registry.AbsentRunCounts | main.py:339-341 | an entry missing from k consecutive lists has its counter raised by exactly k |
| Registry.DebounceThreshold | main.py:315-343 | an entry seen and then missed k times shows "Yes" iff k <= 10 |
| Registry.ReappearanceResets | main.py:339-345 | a listed entry is reset to 0 and shows "Yes" whatever its counter was |
| Registry.ChangedListIsRegistered | main.py:329-337 | after a changed list, each of its payloads is registered with counter 0 and shows "Yes" |
| Registry.ClearThenSameListAddsNothing | main.py:242-334 | after a clear, a list equal to the previous capture registers nothing |
| Pipeline.Feed | cvthread.py:73-82 | a frame that emits nothing leaves the widget unchanged; the registry never shrinks |
| Pipeline.FeedKeepsConsistent | main.py:327-345 | feeding any frame keeps the widget invariant |
| Pipeline.PointerOnAxisLeavesWidgetUnchanged | cvthread.py:73-82 | a scaled pointer on either axis leaves the widget unchanged |
| Pipeline.OriginPointerScenario | cvthread.py:17-82 | 1920x1080 frame, 1280x600 window, pointer at the origin: ROI (0,0)-(100,100), nothing emitted, red outline, widget unchanged |

## Left out

- OpenCV and pyzbar calls (`VideoCapture`, `cvtColor`, `threshold`, `dilate`, `findContours`, `pyzbar.decode`) are foreign code: the decoder's output is an input sequence of hits.
- The contour candidate filter of `main.py:89-97` works on floating-point contour areas: its candidate boxes are an input.
- Decoding payload bytes as UTF-8 (`cvthread.py:78`): payloads are already text. Invalid bytes raise in the source, and that exception is not modelled.
- Pixels and drawing are not modelled: ROI and highlight rectangles, the crosshair with its floating-point 15 %, `convert_cv_qt`, the `live_signal` emissions and the blank frame on exit. An image is a shape plus a capture serial number. In the source the stored first-sighting image is the live frame array, which later drawing alters in place. The model stores the frame itself.
- Qt machinery is not modelled: widgets, item objects beyond their text, signals and slots, the browser, selection and tab handlers, and `startCVHandler`'s thread start and stop. The table starts with no rows. A label written to a row past the end of the table is ignored.
- Concurrency is not modelled: the `shouldRun`/`endCV` cancel flag and the cross-thread writes of `update_mouse`/`update_bbox`. Each frame reads one settings snapshot.
- A failed camera open only shows a message box, and the loop still runs. This is I/O. The capture `source` argument is used only for that, so it is not modelled.
- `dropper.py`, `DropThread`, `DropperConnectionThread` and `list_camera_ports` are serial, network and device I/O.
- Roi.TruncDiv: models exact truncation of the true quotient. Python first rounds `a / b` to a float, which can differ only for magnitudes beyond 2^53.
