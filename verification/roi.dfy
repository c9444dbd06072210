/**
 * Region-of-interest geometry of the ROI worker (cvthread.py:49-67): the
 * pointer is scaled from window to frame coordinates, a square of half-width
 * `bbox_size` is built around it, each side is clamped into the frame, and
 * the frame is sliced to that box before decoding.
 */
module Roi {
  import FoundQr

  function Abs(a: int): nat {
    if a < 0 then -a else a
  }

  function Max(a: int, b: int): int {
    if a < b then b else a
  }

  function Min(a: int, b: int): int {
    if a < b then a else b
  }

  /** Python's `int(a / b)`: the true quotient truncated toward zero. */
  function TruncDiv(a: int, b: int): (q: int)
    requires b != 0
    ensures Abs(a) - Abs(b) < Abs(q) * Abs(b) <= Abs(a)
    ensures q != 0 ==> ((q > 0) <==> ((a > 0) == (b > 0)))
  {
    var m := Abs(a) / Abs(b);
    DivBounds(Abs(a), Abs(b));
    assert a == 0 ==> m == 0;
    var q := if (a >= 0) == (b > 0) then m else -m;
    assert Abs(q) == m;
    q
  }

  lemma DivBounds(n: nat, d: nat)
    requires 0 < d
    ensures n - d < (n / d) * d <= n
  {
    var q, r := n / d, n % d;
    assert n == d * q + r && 0 <= r < d;
    assert q * d == d * q;
  }

  /** A corner-to-corner box of pixels: columns [xmin, xmax), rows [ymin, ymax). */
  datatype Box = Box(xmin: int, ymin: int, xmax: int, ymax: int)

  /** Integer c lies in the half-open span [lo, hi). */
  predicate InSpan(lo: int, hi: int, c: int) {
    lo <= c < hi
  }

  /** cvthread.py:52-53: one pointer coordinate mapped into the frame,
      `int(m * frameDim / windowDim)`. */
  function Scale(m: int, frameDim: nat, windowDim: int): (c: int)
    requires windowDim != 0
    ensures Abs(m * frameDim) - Abs(windowDim) < Abs(c) * Abs(windowDim) <= Abs(m * frameDim)
    ensures c != 0 ==> ((c > 0) <==> ((m * frameDim > 0) == (windowDim > 0)))
  {
    TruncDiv(m * frameDim, windowDim)
  }

  /** On non-negative inputs with a positive window the mapping is integer division. */
  lemma ScaleIsFloorDivision(m: int, frameDim: nat, windowDim: int)
    requires 0 <= m && 0 < windowDim
    ensures Scale(m, frameDim, windowDim) == m * frameDim / windowDim
  {
    assert 0 <= m * frameDim;
  }

  /** A pointer inside the window maps to a point inside the frame. */
  lemma ScaleStaysInFrame(m: int, frameDim: nat, windowDim: int)
    requires 0 <= m <= windowDim && 0 < windowDim
    ensures 0 <= Scale(m, frameDim, windowDim) <= frameDim
  {
    var q := Scale(m, frameDim, windowDim);
    assert 0 <= m * frameDim <= windowDim * frameDim by {
      assert (windowDim - m) * frameDim >= 0;
    }
    ScaleIsFloorDivision(m, frameDim, windowDim);
  }

  /** One side of the ROI: [c - bbox, c + bbox] clamped into [0, dim]
      (cvthread.py:56-65, per axis). */
  function ClampSide(c: int, bbox: int, dim: nat): (side: (int, int))
    ensures 0 <= side.0 && side.1 <= dim
    ensures side.1 - side.0 <= 2 * bbox
    ensures forall v :: InSpan(side.0, side.1, v) <==> InSpan(c - bbox, c + bbox, v) && InSpan(0, dim, v)
  {
    (Max(0, c - bbox), Min(dim, c + bbox))
  }

  /** The clamped ROI around the scaled point (x, y) in a width x height frame. */
  function RoiBox(x: int, y: int, width: nat, height: nat, bbox: int): (b: Box)
    ensures 0 <= b.xmin && 0 <= b.ymin && b.xmax <= width && b.ymax <= height
    ensures b.xmax - b.xmin <= 2 * bbox && b.ymax - b.ymin <= 2 * bbox
    ensures forall v :: InSpan(b.xmin, b.xmax, v) <==> InSpan(x - bbox, x + bbox, v) && InSpan(0, width, v)
    ensures forall v :: InSpan(b.ymin, b.ymax, v) <==> InSpan(y - bbox, y + bbox, v) && InSpan(0, height, v)
  {
    var (xmin, xmax) := ClampSide(x, bbox, width);
    var (ymin, ymax) := ClampSide(y, bbox, height);
    Box(xmin, ymin, xmax, ymax)
  }

  /** A point inside the frame with a non-negative half-width lies inside its
      ROI, and the ROI is a valid sub-rectangle of the frame. */
  lemma RoiContainsPoint(x: int, y: int, width: nat, height: nat, bbox: int)
    requires 0 <= x <= width && 0 <= y <= height && 0 <= bbox
    ensures var b := RoiBox(x, y, width, height, bbox);
      0 <= b.xmin <= x <= b.xmax <= width && 0 <= b.ymin <= y <= b.ymax <= height
  {
  }

  /** Away from the edges the ROI is exactly the square around the point. */
  lemma RoiIsSquareAwayFromEdges(x: int, y: int, width: nat, height: nat, bbox: int)
    requires bbox <= x <= width - bbox && bbox <= y <= height - bbox
    ensures RoiBox(x, y, width, height, bbox) == Box(x - bbox, y - bbox, x + bbox, y + bbox)
  {
  }

  /** Python's normalisation of one slice bound against a dimension of length n:
      a negative bound counts from the end, and out-of-range bounds are clamped. */
  function SliceBound(i: int, n: nat): (k: nat)
    ensures k <= n
    ensures 0 <= i <= n ==> k == i
    ensures -(n as int) <= i < 0 ==> k == i + n
    ensures n < i ==> k == n
    ensures i < -(n as int) ==> k == 0
  {
    if i < 0 then Max(0, i + n) else Min(i, n)
  }

  /** `[c0, c1)` is what Python's slice `[lo:hi]` keeps of an axis of length n:
      the start is normalised, and the stop is normalised the same way (counting
      from the far edge when negative) but never lies before the start. */
  predicate SliceOf(lo: int, hi: int, n: nat, c0: int, c1: int) {
    && c0 == SliceBound(lo, n) && c0 <= c1 <= n
    && (0 <= hi <= n ==> c1 == Max(c0, hi))
    && (-(n as int) <= hi < 0 ==> c1 == Max(c0, hi + n))
    && (hi < -(n as int) ==> c1 == c0)
    && (n < hi ==> c1 == n)
  }

  /** The pixels `image[ymin:ymax, xmin:xmax]` handed to the decoder
      (cvthread.py:67), with Python slice semantics: a negative stop counts
      from the far edge, and an inverted slice is empty. */
  function CropSpan(b: Box, width: nat, height: nat): (c: Box)
    ensures 0 <= c.xmin <= c.xmax <= width && 0 <= c.ymin <= c.ymax <= height
    ensures SliceOf(b.xmin, b.xmax, width, c.xmin, c.xmax)
    ensures SliceOf(b.ymin, b.ymax, height, c.ymin, c.ymax)
  {
    var x0 := SliceBound(b.xmin, width);
    var y0 := SliceBound(b.ymin, height);
    Box(x0, y0, Max(x0, SliceBound(b.xmax, width)), Max(y0, SliceBound(b.ymax, height)))
  }

  /** When the scaled point lies inside the frame and the half-width is not
      negative, the decoder sees exactly the ROI. */
  lemma CropIsRoiForPointInFrame(x: int, y: int, width: nat, height: nat, bbox: int)
    requires 0 <= x <= width && 0 <= y <= height && 0 <= bbox
    ensures var b := RoiBox(x, y, width, height, bbox); CropSpan(b, width, height) == b
  {
    RoiContainsPoint(x, y, width, height, bbox);
  }

  /** A point far left of the frame gives a negative `xmax`, which Python reads
      from the right edge: 1920 columns, x = -500, bbox 100 decode columns
      [0, 1520) although the ROI lies wholly outside the frame. */
  lemma NegativeStopWrapsAround()
    ensures RoiBox(-500, 500, 1920, 1080, 100) == Box(0, 400, -400, 600)
    ensures CropSpan(Box(0, 400, -400, 600), 1920, 1080) == Box(0, 400, 1520, 600)
  {
  }

  /** A point right of the frame by more than the half-width gives a ROI that
      starts past the frame's right edge: 1920 columns, x = 3000, bbox 100
      give xmin = 2900 > xmax = 1920, and the decoder sees no column at all. */
  lemma PointPastRightEdgeGivesEmptyCrop()
    ensures RoiBox(3000, 500, 1920, 1080, 100) == Box(2900, 400, 1920, 600)
    ensures CropSpan(Box(2900, 400, 1920, 600), 1920, 1080) == Box(1920, 400, 1920, 600)
  {
  }

  /** A decoder rectangle given in crop coordinates, moved into frame
      coordinates by the ROI's top-left corner (cvthread.py:77). */
  function ShiftRect(r: FoundQr.Rect, b: Box): (s: FoundQr.Rect)
    ensures s.width == r.width && s.height == r.height
    ensures s.left - r.left == b.xmin && s.top - r.top == b.ymin
  {
    FoundQr.Rect(b.xmin + r.left, b.ymin + r.top, r.width, r.height)
  }
}
