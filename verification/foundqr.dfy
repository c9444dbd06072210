/**
 * The record of one decoded code and its notion of identity
 * (foundqr.py, copied verbatim at main.py:15-23). Equality of two records
 * looks at the payload text only; every `in`, `not in`, `==` and `!=` on
 * lists of records in the worker and the registry goes through it.
 */
module FoundQr {

  /** A decoder rectangle: origin and size in pixels. */
  datatype Rect = Rect(left: int, top: int, width: int, height: int)

  /** One hit of the external decoder: its payload, already decoded as text,
      and its rectangle in the coordinates of the image the decoder was given. */
  datatype Hit = Hit(payload: string, rect: Rect)

  /** A captured frame. Pixels are not modelled, only the shape and a capture
      serial number that tells two captures apart. */
  datatype Image = Image(width: nat, height: nat, serial: nat)

  /** `FoundQR`: the payload, the image it was found in, the raw decoder hit
      and the number of consecutive updates in which it was not seen. */
  datatype FoundQR = FoundQR(data: string, img: Image, qrObj: Hit, consecutiveNotSeen: nat)

  /** `FoundQR.__init__`: a fresh record has not been missed yet. */
  function NewFoundQR(data: string, img: Image, qr: Hit): (r: FoundQR)
    ensures r.data == data && r.img == img && r.qrObj == qr
    ensures r.consecutiveNotSeen == 0
  {
    FoundQR(data, img, qr, 0)
  }

  /** `FoundQR.__eq__`: two records are the same code iff their payloads are equal. */
  predicate SameCode(a: FoundQR, b: FoundQR) {
    a.data == b.data
  }

  lemma SameCodeIsEquivalence(a: FoundQR, b: FoundQR, c: FoundQR)
    ensures SameCode(a, a)
    ensures SameCode(a, b) ==> SameCode(b, a)
    ensures SameCode(a, b) && SameCode(b, c) ==> SameCode(a, c)
  {
  }

  /** The image, the decoder hit and the counter never take part in identity. */
  lemma SameCodeIgnoresRecordState(a: FoundQR, b: FoundQR, img: Image, qr: Hit, n: nat)
    ensures SameCode(a.(img := img, qrObj := qr, consecutiveNotSeen := n), b) <==> SameCode(a, b)
  {
  }

  /** Python's `x in s` for a list of records. */
  predicate Contains(s: seq<FoundQR>, x: FoundQR) {
    exists i :: 0 <= i < |s| && SameCode(s[i], x)
  }

  /** The payloads of a list, in list order. */
  function Payloads(s: seq<FoundQR>): seq<string> {
    seq(|s|, i requires 0 <= i < |s| => s[i].data)
  }

  /** The payloads of a list, as a set. */
  function PayloadSet(s: seq<FoundQR>): set<string> {
    set i | 0 <= i < |s| :: s[i].data
  }

  /** Membership of a record reduces to membership of its payload among the payloads. */
  lemma ContainsIffPayloadListed(s: seq<FoundQR>, x: FoundQR)
    ensures Contains(s, x) <==> x.data in Payloads(s)
    ensures Contains(s, x) <==> x.data in PayloadSet(s)
  {
    if x.data in Payloads(s) {
      var i :| 0 <= i < |Payloads(s)| && Payloads(s)[i] == x.data;
      assert SameCode(s[i], x);
    }
    if Contains(s, x) {
      var i :| 0 <= i < |s| && SameCode(s[i], x);
      assert Payloads(s)[i] == x.data;
    }
  }

  /** Whether a list holds a record depends on the record's payload only. */
  lemma ContainsByPayload(s: seq<FoundQR>, a: FoundQR, b: FoundQR)
    requires SameCode(a, b)
    ensures Contains(s, a) <==> Contains(s, b)
  {
    if Contains(s, b) {
      var k :| 0 <= k < |s| && SameCode(s[k], b);
      assert SameCode(s[k], a);
    }
    if Contains(s, a) {
      var k :| 0 <= k < |s| && SameCode(s[k], a);
      assert SameCode(s[k], b);
    }
  }

  /** Python's `a == b` on two lists of records: same length, pairwise `__eq__`. */
  predicate SameList(a: seq<FoundQR>, b: seq<FoundQR>) {
    |a| == |b| && forall i :: 0 <= i < |a| ==> SameCode(a[i], b[i])
  }

  /** List equality is equality of the payload lists. */
  lemma SameListIffSamePayloads(a: seq<FoundQR>, b: seq<FoundQR>)
    ensures SameList(a, b) <==> Payloads(a) == Payloads(b)
  {
    if Payloads(a) == Payloads(b) {
      assert |a| == |Payloads(a)|;
      forall i | 0 <= i < |a| ensures SameCode(a[i], b[i]) {
        assert Payloads(a)[i] == Payloads(b)[i];
      }
    }
  }

  /** Lists that are equal as Python lists hold the same codes. */
  lemma SameListSameMembers(a: seq<FoundQR>, b: seq<FoundQR>, x: FoundQR)
    requires SameList(a, b)
    ensures Contains(a, x) <==> Contains(b, x)
  {
    if Contains(a, x) {
      var i :| 0 <= i < |a| && SameCode(a[i], x);
      assert SameCode(b[i], x);
    }
    if Contains(b, x) {
      var i :| 0 <= i < |b| && SameCode(b[i], x);
      assert SameCode(a[i], x);
    }
  }

  /** No two records of the list are the same code. */
  predicate Unique(s: seq<FoundQR>) {
    forall i, j :: 0 <= i < j < |s| ==> !SameCode(s[i], s[j])
  }
}
