/**
 * The first-wins append loop shared by three places of the source:
 *   `for code in s: if code not in acc: acc.append(code)`
 * It deduplicates a frame's decoder hits (cvthread.py:75-80, main.py:116-121,
 * starting from an empty list) and grows the registry (main.py:332-334,
 * starting from the registry). `AppendNew(acc, s[..k])` is the list after the
 * loop's first k iterations.
 */
module FirstWins {
  import opened FoundQr

  /** No element before position i carries the payload of s[i]. */
  predicate IsFirst(s: seq<FoundQR>, i: nat)
    requires i < |s|
  {
    forall j :: 0 <= j < i ==> !SameCode(s[j], s[i])
  }

  /** Reference definition: in input order, every element of s that is the
      first of s with its payload and whose payload acc does not hold. */
  function Unseen(acc: seq<FoundQR>, s: seq<FoundQR>): seq<FoundQR>
    decreases |s|
  {
    if |s| == 0 then []
    else
      var last := |s| - 1;
      Unseen(acc, s[..last]) + (if IsFirst(s, last) && !Contains(acc, s[last]) then [s[last]] else [])
  }

  lemma PayloadSetSnoc(s: seq<FoundQR>, x: FoundQR)
    ensures PayloadSet(s + [x]) == PayloadSet(s) + {x.data}
  {
    var t := s + [x];
    forall p | p in PayloadSet(t) ensures p in PayloadSet(s) + {x.data} {
      var i :| 0 <= i < |t| && t[i].data == p;
      if i < |s| { assert s[i] == t[i]; }
    }
    forall p | p in PayloadSet(s) ensures p in PayloadSet(t) {
      var i :| 0 <= i < |s| && s[i].data == p;
      assert t[i] == s[i];
    }
    assert t[|s|] == x;
  }

  lemma PayloadSetPrefix(s: seq<FoundQR>)
    requires |s| > 0
    ensures PayloadSet(s) == PayloadSet(s[..|s| - 1]) + {s[|s| - 1].data}
  {
    assert s == s[..|s| - 1] + [s[|s| - 1]];
    PayloadSetSnoc(s[..|s| - 1], s[|s| - 1]);
  }

  /** The source's append loop: each element of s is appended to acc unless a
      record with its payload is already there. */
  function AppendNew(acc: seq<FoundQR>, s: seq<FoundQR>): (r: seq<FoundQR>)
    ensures |acc| <= |r| && r[..|acc|] == acc
    ensures PayloadSet(r) == PayloadSet(acc) + PayloadSet(s)
    ensures Unique(acc) ==> Unique(r)
    ensures forall k :: |acc| <= k < |r| ==> r[k] in s
    decreases |s|
  {
    if |s| == 0 then acc
    else
      var last := |s| - 1;
      var a := AppendNew(acc, s[..last]);
      PayloadSetPrefix(s);
      ContainsIffPayloadListed(a, s[last]);
      if Contains(a, s[last]) then a
      else
        PayloadSetSnoc(a, s[last]);
        a + [s[last]]
  }

  /** The loop leaves exactly the reference list after acc: the first record
      of every payload of s that acc lacks, in order of first appearance. */
  lemma {:induction false} AppendNewIsUnseen(acc: seq<FoundQR>, s: seq<FoundQR>)
    ensures AppendNew(acc, s) == acc + Unseen(acc, s)
    decreases |s|
  {
    if |s| > 0 {
      var last := |s| - 1;
      var p := s[..last];
      var x := s[last];
      AppendNewIsUnseen(acc, p);
      var a := AppendNew(acc, p);
      ContainsIffPayloadListed(a, x);
      ContainsIffPayloadListed(acc, x);
      ContainsIffPayloadListed(p, x);
      assert Contains(p, x) <==> !IsFirst(s, last) by {
        if Contains(p, x) {
          var j :| 0 <= j < |p| && SameCode(p[j], x);
          assert SameCode(s[j], s[last]);
        }
        if !IsFirst(s, last) {
          var j :| 0 <= j < last && SameCode(s[j], s[last]);
          assert SameCode(p[j], x);
        }
      }
    }
  }

  /** A frame's deduplicated detections: the loop started from an empty list. */
  function Dedup(s: seq<FoundQR>): (r: seq<FoundQR>)
    ensures Unique(r)
    ensures PayloadSet(r) == PayloadSet(s)
    ensures forall k :: 0 <= k < |r| ==> r[k] in s
    ensures |r| <= |s|
  {
    DedupNotLonger(s);
    AppendNew([], s)
  }

  lemma {:induction false} DedupNotLonger(s: seq<FoundQR>)
    ensures |AppendNew([], s)| <= |s|
    decreases |s|
  {
    if |s| > 0 {
      DedupNotLonger(s[..|s| - 1]);
    }
  }

  /** Dedup keeps, in input order, exactly the first record of each payload. */
  lemma DedupKeepsFirstOccurrences(s: seq<FoundQR>)
    ensures Dedup(s) == Unseen([], s)
  {
    AppendNewIsUnseen([], s);
  }

  /** A list without repeated payloads passes the loop unchanged, so
      deduplicating twice is deduplicating once. */
  lemma {:induction false} DedupOfUniqueIsIdentity(s: seq<FoundQR>)
    requires Unique(s)
    ensures Dedup(s) == s
    decreases |s|
  {
    if |s| > 0 {
      var last := |s| - 1;
      var p := s[..last];
      assert Unique(p);
      DedupOfUniqueIsIdentity(p);
      ContainsIffPayloadListed(p, s[last]);
      forall j | 0 <= j < |p| ensures !SameCode(p[j], s[last]) {
        assert p[j] == s[j];
      }
      assert p + [s[last]] == s;
    }
  }

  lemma DedupIsIdempotent(s: seq<FoundQR>)
    ensures Dedup(Dedup(s)) == Dedup(s)
  {
    DedupOfUniqueIsIdentity(Dedup(s));
  }

  /** One more iteration of the loop. */
  lemma AppendNewSnoc(acc: seq<FoundQR>, s: seq<FoundQR>, x: FoundQR)
    ensures AppendNew(acc, s + [x]) == if Contains(AppendNew(acc, s), x) then AppendNew(acc, s) else AppendNew(acc, s) + [x]
  {
    var t := s + [x];
    assert t[..|t| - 1] == s;
    assert t[|t| - 1] == x;
  }

  /** Running the loop over a, then over b, is running it over a + b. */
  lemma {:induction false} AppendNewConcat(acc: seq<FoundQR>, a: seq<FoundQR>, b: seq<FoundQR>)
    ensures AppendNew(AppendNew(acc, a), b) == AppendNew(acc, a + b)
    decreases |b|
  {
    if |b| == 0 {
      assert a + b == a;
    } else {
      var last := |b| - 1;
      var front, x := b[..last], b[last];
      assert b == front + [x];
      assert a + b == (a + front) + [x];
      var mid := AppendNew(acc, a + front);
      calc {
        AppendNew(AppendNew(acc, a), b);
        { AppendNewSnoc(AppendNew(acc, a), front, x); }
        if Contains(AppendNew(AppendNew(acc, a), front), x) then AppendNew(AppendNew(acc, a), front)
        else AppendNew(AppendNew(acc, a), front) + [x];
        { AppendNewConcat(acc, a, front); }
        if Contains(mid, x) then mid else mid + [x];
        { AppendNewSnoc(acc, a + front, x); }
        AppendNew(acc, a + b);
      }
    }
  }
}
