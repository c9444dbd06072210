/**
 * The dedup and emit gate of the contour-search worker defined in main.py
 * (main.py:99-123). The contour filter that yields the candidate boxes and
 * the decoder are external: each candidate comes with the decoder's hits
 * for its crop. All candidates share one `detected` list.
 */
module ContourWorker {
  import opened Base
  import opened FoundQr
  import opened FirstWins
  import opened Roi
  import opened CvWorker

  /** A candidate box and what the decoder reported for its crop. */
  datatype Candidate = Candidate(box: Box, hits: seq<Hit>)

  /** Frames with this many candidates or more emit nothing (main.py:106). */
  const MaxCandidates := 10

  /** Every hit of every candidate, candidate by candidate. */
  function AllHits(cands: seq<Candidate>): seq<Hit>
    decreases |cands|
  {
    if |cands| == 0 then [] else AllHits(cands[..|cands| - 1]) + cands[|cands| - 1].hits
  }

  lemma DecodedConcat(img: Image, a: seq<Hit>, b: seq<Hit>)
    ensures Decoded(img, a + b) == Decoded(img, a) + Decoded(img, b)
  {
  }

  /** The nested loop of main.py:108-121: for each candidate, for each hit,
      append its record unless the shared list already holds its payload. */
  function DetectAll(img: Image, cands: seq<Candidate>): (r: seq<FoundQR>)
    ensures Unique(r)
    ensures PayloadSet(r) == HitPayloads(AllHits(cands))
    decreases |cands|
  {
    if |cands| == 0 then []
    else
      var last := |cands| - 1;
      var before := DetectAll(img, cands[..last]);
      var more := cands[last].hits;
      DecodedPayloads(img, more);
      DecodedPayloads(img, AllHits(cands[..last]));
      DecodedPayloads(img, AllHits(cands));
      DecodedConcat(img, AllHits(cands[..last]), more);
      PayloadSetConcat(Decoded(img, AllHits(cands[..last])), Decoded(img, more));
      AppendNew(before, Decoded(img, more))
  }

  lemma PayloadSetConcat(a: seq<FoundQR>, b: seq<FoundQR>)
    ensures PayloadSet(a + b) == PayloadSet(a) + PayloadSet(b)
  {
    var t := a + b;
    forall p | p in PayloadSet(t) ensures p in PayloadSet(a) + PayloadSet(b) {
      var i :| 0 <= i < |t| && t[i].data == p;
      if i < |a| { assert a[i] == t[i]; } else { assert b[i - |a|] == t[i]; }
    }
    forall p | p in PayloadSet(a) ensures p in PayloadSet(t) {
      var i :| 0 <= i < |a| && a[i].data == p;
      assert t[i] == a[i];
    }
    forall p | p in PayloadSet(b) ensures p in PayloadSet(t) {
      var i :| 0 <= i < |b| && b[i].data == p;
      assert t[|a| + i] == b[i];
    }
  }

  /** The shared list is the frame-wide first-wins dedup of all hits in
      candidate order, the same list the ROI worker would emit for them. */
  lemma {:induction false} DetectAllIsDedupOfAllHits(img: Image, cands: seq<Candidate>)
    ensures DetectAll(img, cands) == Dedup(Decoded(img, AllHits(cands)))
    decreases |cands|
  {
    if |cands| > 0 {
      var last := |cands| - 1;
      DetectAllIsDedupOfAllHits(img, cands[..last]);
      DecodedConcat(img, AllHits(cands[..last]), cands[last].hits);
      AppendNewConcat([], Decoded(img, AllHits(cands[..last])), Decoded(img, cands[last].hits));
    }
  }

  /** What main.py:106-123 emits on `found_code_signal` for one frame. */
  function ContourStep(img: Image, cands: seq<Candidate>): (r: Option<seq<FoundQR>>)
    ensures r.Some? <==> |cands| < MaxCandidates
    ensures r.Some? ==> Unique(r.value) && PayloadSet(r.value) == HitPayloads(AllHits(cands))
  {
    if |cands| < MaxCandidates then Some(DetectAll(img, cands)) else None
  }
}
