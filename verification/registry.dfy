/**
 * The code registry and presence table of the `Ui` widget in main.py: the
 * state `qrCodes` / `previousCapture` (main.py:172-173), the table the
 * widget shows, and the slots `clearTable`, `updateTable`,
 * `update_current_detected` and `update_detected` (main.py:242-345), with
 * the source's call order kept, including the relabelling pass that
 * `update_detected` runs in the middle of its counter loop.
 */
module Registry {
  import opened Base
  import opened FoundQr
  import opened FirstWins

  /** An absent entry keeps showing "Yes" while its counter is at most this. */
  const AbsenceThreshold := 10

  /** Text of the table's presence column. */
  datatype Presence = Yes | No

  /** One table row: column 0 the presence label, column 1 the payload. */
  datatype Row = Row(presence: Presence, payload: string)

  /** The widget state this part of main.py reads and writes. */
  datatype Ui = Ui(qrCodes: seq<FoundQR>, previousCapture: Option<seq<FoundQR>>, table: seq<Row>)

  /** The state right after `Ui.__init__`: no codes, no previous capture and
      an empty table. */
  function Init(): (r: Ui)
    ensures r.qrCodes == [] && r.previousCapture.None? && r.table == []
  {
    Ui([], None, [])
  }

  /** The label an entry deserves: "Yes" when its payload is in the current
      list or it has been missed at most `AbsenceThreshold` times in a row. */
  function PresenceLabel(counter: nat, present: bool): (p: Presence)
    ensures p == No <==> !present && AbsenceThreshold < counter
  {
    if present || counter <= AbsenceThreshold then Yes else No
  }

  /** `clearTable`: the registry and the table are emptied; the previous
      capture is kept. */
  function ClearTable(s: Ui): (r: Ui)
    ensures r.qrCodes == [] && r.table == []
    ensures r.previousCapture == s.previousCapture
  {
    Ui([], s.previousCapture, [])
  }

  /** `updateTable`: one row per entry, in registry order, showing its payload
      and the provisional label "No". */
  function UpdateTable(s: Ui): (r: Ui)
    ensures |r.table| == |s.qrCodes|
    ensures forall i :: 0 <= i < |r.table| ==> r.table[i] == Row(No, s.qrCodes[i].data)
    ensures r.qrCodes == s.qrCodes && r.previousCapture == s.previousCapture
  {
    s.(table := seq(|s.qrCodes|, i requires 0 <= i < |s.qrCodes| => Row(No, s.qrCodes[i].data)))
  }

  /** `setItem(i, 0, ...)`: replaces the label of row i; a row past the end of
      the table is left alone. */
  function SetLabel(table: seq<Row>, i: nat, p: Presence): (r: seq<Row>)
    ensures |r| == |table|
    ensures i < |table| ==> r[i].presence == p
    ensures forall j :: 0 <= j < |table| ==> r[j].payload == table[j].payload
    ensures forall j :: 0 <= j < |table| && j != i ==> r[j] == table[j]
  {
    if i < |table| then table[i := table[i].(presence := p)] else table
  }

  /** The loop of `update_current_detected` from index i on (main.py:316-324). */
  function MarkFrom(s: Ui, found: seq<FoundQR>, i: nat): (r: Ui)
    requires i <= |s.qrCodes|
    ensures |r.qrCodes| == |s.qrCodes| && |r.table| == |s.table|
    ensures r.previousCapture == s.previousCapture
    ensures forall j :: 0 <= j < i ==> r.qrCodes[j] == s.qrCodes[j]
    ensures forall j :: i <= j < |s.qrCodes| ==>
      r.qrCodes[j] == if Contains(found, s.qrCodes[j]) then s.qrCodes[j].(consecutiveNotSeen := 0) else s.qrCodes[j]
    ensures forall j :: 0 <= j < |s.table| ==> r.table[j].payload == s.table[j].payload
    ensures forall j :: 0 <= j < |s.table| && !(i <= j < |s.qrCodes|) ==> r.table[j] == s.table[j]
    ensures forall j :: i <= j < |s.qrCodes| && j < |s.table| ==>
      r.table[j].presence == PresenceLabel(r.qrCodes[j].consecutiveNotSeen, Contains(found, s.qrCodes[j]))
    decreases |s.qrCodes| - i
  {
    if i == |s.qrCodes| then s
    else
      var code := s.qrCodes[i];
      var next :=
        if !Contains(found, code) then
          s.(table := SetLabel(s.table, i, if code.consecutiveNotSeen > AbsenceThreshold then No else Yes))
        else
          s.(qrCodes := s.qrCodes[i := code.(consecutiveNotSeen := 0)], table := SetLabel(s.table, i, Yes));
      MarkFrom(next, found, i + 1)
  }

  /** `update_current_detected(found)`: every entry whose payload is in the
      list has its counter reset, and every row gets the label its entry
      deserves; nothing else changes. */
  function UpdateCurrentDetected(s: Ui, found: seq<FoundQR>): (r: Ui)
    ensures |r.qrCodes| == |s.qrCodes| && |r.table| == |s.table|
    ensures r.previousCapture == s.previousCapture
    ensures forall j :: 0 <= j < |s.qrCodes| ==>
      r.qrCodes[j] == if Contains(found, s.qrCodes[j]) then s.qrCodes[j].(consecutiveNotSeen := 0) else s.qrCodes[j]
    ensures forall j :: 0 <= j < |s.table| ==> r.table[j].payload == s.table[j].payload
    ensures forall j :: |s.qrCodes| <= j < |s.table| ==> r.table[j] == s.table[j]
    ensures forall j :: 0 <= j < |s.qrCodes| && j < |s.table| ==>
      r.table[j].presence == PresenceLabel(r.qrCodes[j].consecutiveNotSeen, Contains(found, r.qrCodes[j]))
  {
    var r := MarkFrom(s, found, 0);
    assert forall j :: 0 <= j < |s.qrCodes| ==> SameCode(r.qrCodes[j], s.qrCodes[j]);
    r
  }

  /** An entry's counter after an update with `codes`: reset when its payload
      is in the list, one more otherwise (main.py:339-345). */
  function Advance(q: FoundQR, codes: seq<FoundQR>): (r: FoundQR)
    ensures SameCode(r, q) && r.img == q.img && r.qrObj == q.qrObj
    ensures r.consecutiveNotSeen == 0 <==> Contains(codes, q)
    ensures !Contains(codes, q) ==> r.consecutiveNotSeen == q.consecutiveNotSeen + 1
  {
    q.(consecutiveNotSeen := if Contains(codes, q) then 0 else q.consecutiveNotSeen + 1)
  }

  /** One iteration of the counter loop of `update_detected` (main.py:340-345):
      a missed entry is counted and, once past the threshold, triggers a full
      `update_current_detected` pass; a listed entry is reset. */
  function CountStep(s: Ui, codes: seq<FoundQR>, i: nat): (r: Ui)
    requires i < |s.qrCodes|
    ensures |r.qrCodes| == |s.qrCodes| && |r.table| == |s.table|
    ensures r.previousCapture == s.previousCapture
    ensures r.qrCodes[i] == Advance(s.qrCodes[i], codes)
    ensures forall j :: 0 <= j < |s.qrCodes| && j != i ==>
      r.qrCodes[j] == s.qrCodes[j] || (Contains(codes, s.qrCodes[j]) && r.qrCodes[j] == s.qrCodes[j].(consecutiveNotSeen := 0))
    ensures forall j :: 0 <= j < |s.table| ==> r.table[j].payload == s.table[j].payload
  {
    var code := s.qrCodes[i];
    if !Contains(codes, code) then
      var counted := s.(qrCodes := s.qrCodes[i := code.(consecutiveNotSeen := code.consecutiveNotSeen + 1)]);
      if code.consecutiveNotSeen + 1 > AbsenceThreshold then UpdateCurrentDetected(counted, codes) else counted
    else
      s.(qrCodes := s.qrCodes[i := code.(consecutiveNotSeen := 0)])
  }

  /** The counter loop of `update_detected` from index i on (main.py:339-345). */
  function CountFrom(s: Ui, codes: seq<FoundQR>, i: nat): (r: Ui)
    requires i <= |s.qrCodes|
    ensures |r.qrCodes| == |s.qrCodes| && |r.table| == |s.table|
    ensures r.previousCapture == s.previousCapture
    ensures forall j :: i <= j < |s.qrCodes| ==> r.qrCodes[j] == Advance(s.qrCodes[j], codes)
    ensures forall j :: 0 <= j < i ==>
      r.qrCodes[j] == s.qrCodes[j] || (Contains(codes, s.qrCodes[j]) && r.qrCodes[j] == s.qrCodes[j].(consecutiveNotSeen := 0))
    ensures forall j :: 0 <= j < |s.table| ==> r.table[j].payload == s.table[j].payload
    decreases |s.qrCodes| - i
  {
    if i == |s.qrCodes| then s else CountFrom(CountStep(s, codes, i), codes, i + 1)
  }

  /** `codes != self.previousCapture`: always true against `None`, otherwise
      Python list inequality with payload-only element equality. */
  predicate Changed(codes: seq<FoundQR>, previous: Option<seq<FoundQR>>)
    ensures !Changed(codes, previous) <==> previous.Some? && Payloads(codes) == Payloads(previous.value)
  {
    match previous
    case None => true
    case Some(prev) =>
      SameListIffSamePayloads(codes, prev);
      !SameList(codes, prev)
  }

  /** The first half of `update_detected` (main.py:329-337): when the list
      differs from the previous one, it becomes the previous one, its unseen
      payloads are appended, and the table is rebuilt and relabelled. */
  function Register(s: Ui, codes: seq<FoundQR>): (r: Ui)
    ensures r.previousCapture == if Changed(codes, s.previousCapture) then Some(codes) else s.previousCapture
    ensures !Changed(codes, s.previousCapture) ==> r == s
    ensures |s.qrCodes| <= |r.qrCodes|
    ensures Changed(codes, s.previousCapture) ==> forall j :: 0 <= j < |s.qrCodes| ==>
      r.qrCodes[j] == if Contains(codes, s.qrCodes[j]) then s.qrCodes[j].(consecutiveNotSeen := 0) else s.qrCodes[j]
    ensures forall j :: |s.qrCodes| <= j < |r.qrCodes| ==> Contains(codes, r.qrCodes[j])
    ensures Changed(codes, s.previousCapture) ==>
      var grown := AppendNew(s.qrCodes, codes);
      && |r.qrCodes| == |grown|
      && (forall j :: 0 <= j < |grown| ==>
            r.qrCodes[j] == if Contains(codes, grown[j]) then grown[j].(consecutiveNotSeen := 0) else grown[j])
      && |r.table| == |r.qrCodes|
      && (forall j :: 0 <= j < |r.table| ==>
            r.table[j] == Row(PresenceLabel(r.qrCodes[j].consecutiveNotSeen, Contains(codes, r.qrCodes[j])), r.qrCodes[j].data))
    ensures Unique(s.qrCodes) ==> Unique(r.qrCodes)
  {
    if Changed(codes, s.previousCapture) then
      var grown := s.(previousCapture := Some(codes), qrCodes := AppendNew(s.qrCodes, codes));
      NewEntriesAreListed(s.qrCodes, codes);
      var r := UpdateCurrentDetected(UpdateTable(grown), codes);
      assert forall j :: 0 <= j < |r.qrCodes| ==> SameCode(r.qrCodes[j], grown.qrCodes[j]);
      r
    else s
  }

  /** `update_detected(codes)` (main.py:327-345): registration, then the
      counter loop, which runs on every call. */
  function UpdateDetected(s: Ui, codes: seq<FoundQR>): (r: Ui)
    ensures |s.qrCodes| <= |r.qrCodes|
    ensures r.previousCapture == if Changed(codes, s.previousCapture) then Some(codes) else s.previousCapture
    ensures !Changed(codes, s.previousCapture) ==> |r.qrCodes| == |s.qrCodes|
  {
    CountFrom(Register(s, codes), codes, 0)
  }

  /** Every entry the append loop adds carries a payload of the list. */
  lemma NewEntriesAreListed(acc: seq<FoundQR>, codes: seq<FoundQR>)
    ensures forall k :: |acc| <= k < |AppendNew(acc, codes)| ==> Contains(codes, AppendNew(acc, codes)[k])
  {
    var r := AppendNew(acc, codes);
    forall k | |acc| <= k < |r| ensures Contains(codes, r[k]) {
      var i :| 0 <= i < |codes| && codes[i] == r[k];
      assert SameCode(codes[i], r[k]);
    }
  }

  /** Contains looks at the payload only, so re-counting an entry does not
      change whether a list holds it. */
  lemma ContainsIgnoresCounter(codes: seq<FoundQR>, q: FoundQR, n: nat)
    ensures Contains(codes, q.(consecutiveNotSeen := n)) <==> Contains(codes, q)
  {
    ContainsByPayload(codes, q.(consecutiveNotSeen := n), q);
  }

  /** What row j may show while the counter loop stands at index i: a listed
      entry shows "Yes"; an entry the loop has passed shows its final label;
      an entry still ahead shows the label of its counter one step on, except
      at counter `AbsenceThreshold`, whose crossing forces a relabelling. */
  predicate PendingRow(p: Presence, q: FoundQR, codes: seq<FoundQR>, passed: bool) {
    if Contains(codes, q) then p == Yes
    else if passed then p == PresenceLabel(q.consecutiveNotSeen, false)
    else (q.consecutiveNotSeen < AbsenceThreshold ==> p == Yes) && (q.consecutiveNotSeen > AbsenceThreshold ==> p == No)
  }

  predicate LabelsPending(s: Ui, codes: seq<FoundQR>, i: nat) {
    && |s.table| == |s.qrCodes|
    && forall j :: 0 <= j < |s.qrCodes| ==> PendingRow(s.table[j].presence, s.qrCodes[j], codes, j < i)
  }

  /** Every row shows the label its entry deserves for the list `codes`. */
  predicate LabelsSettled(s: Ui, codes: seq<FoundQR>) {
    && |s.table| == |s.qrCodes|
    && forall j :: 0 <= j < |s.qrCodes| ==>
         s.table[j].presence == PresenceLabel(s.qrCodes[j].consecutiveNotSeen, Contains(codes, s.qrCodes[j]))
  }

  /** One iteration keeps the rows pending, one index further on: a listed
      entry is reset and already shows "Yes"; a missed entry within the
      threshold already shows the label its new counter deserves; a missed
      entry crossing it triggers a pass that relabels every row. */
  lemma CountStepKeepsPending(s: Ui, codes: seq<FoundQR>, i: nat)
    requires i < |s.qrCodes| && LabelsPending(s, codes, i)
    ensures LabelsPending(CountStep(s, codes, i), codes, i + 1)
  {
    var code := s.qrCodes[i];
    if !Contains(codes, code) {
      ContainsIgnoresCounter(codes, code, code.consecutiveNotSeen + 1);
      var counted := s.(qrCodes := s.qrCodes[i := code.(consecutiveNotSeen := code.consecutiveNotSeen + 1)]);
      if code.consecutiveNotSeen + 1 > AbsenceThreshold {
        var relabelled := UpdateCurrentDetected(counted, codes);
        forall j | 0 <= j < |relabelled.qrCodes|
          ensures PendingRow(relabelled.table[j].presence, relabelled.qrCodes[j], codes, j < i + 1)
        {
          ContainsIgnoresCounter(codes, counted.qrCodes[j], 0);
        }
      } else {
        assert PendingRow(counted.table[i].presence, counted.qrCodes[i], codes, true);
      }
    } else {
      ContainsIgnoresCounter(codes, code, 0);
    }
  }

  /** Once the loop has passed every row, every label is settled. */
  lemma PassedRowsAreSettled(s: Ui, codes: seq<FoundQR>)
    requires LabelsPending(s, codes, |s.qrCodes|)
    ensures LabelsSettled(s, codes)
  {
    assert forall j :: 0 <= j < |s.qrCodes| ==> PendingRow(s.table[j].presence, s.qrCodes[j], codes, true);
  }

  /** However the relabelling passes inside the counter loop fall, the loop
      ends with every label settled. */
  lemma {:induction false} CountFromSettlesLabels(s: Ui, codes: seq<FoundQR>, i: nat)
    requires i <= |s.qrCodes|
    requires LabelsPending(s, codes, i)
    ensures LabelsSettled(CountFrom(s, codes, i), codes)
    decreases |s.qrCodes| - i
  {
    if i == |s.qrCodes| {
      PassedRowsAreSettled(s, codes);
    } else {
      CountStepKeepsPending(s, codes, i);
      CountFromSettlesLabels(CountStep(s, codes, i), codes, i + 1);
    }
  }

  /** The widget invariant: no payload twice, one row per entry showing its
      payload and the label of its counter, and every entry of the previous
      capture counted as just seen. */
  predicate Consistent(s: Ui) {
    && Unique(s.qrCodes)
    && |s.table| == |s.qrCodes|
    && (forall j :: 0 <= j < |s.qrCodes| ==>
          s.table[j] == Row(PresenceLabel(s.qrCodes[j].consecutiveNotSeen, false), s.qrCodes[j].data))
    && (s.previousCapture.Some? ==> forall j :: 0 <= j < |s.qrCodes| ==>
          Contains(s.previousCapture.value, s.qrCodes[j]) ==> s.qrCodes[j].consecutiveNotSeen == 0)
  }

  lemma InitIsConsistent()
    ensures Consistent(Init())
  {
  }

  /** Clearing keeps the invariant. */
  lemma ClearTableKeepsConsistent(s: Ui)
    ensures Consistent(ClearTable(s))
  {
  }

  /** Registration leaves the labels in a state the counter loop settles. */
  lemma RegisterLeavesLabelsPending(s: Ui, codes: seq<FoundQR>)
    requires Consistent(s)
    ensures LabelsPending(Register(s, codes), codes, 0)
    ensures forall j :: 0 <= j < |Register(s, codes).qrCodes| ==>
      Register(s, codes).table[j].payload == Register(s, codes).qrCodes[j].data
  {
    var r := Register(s, codes);
    if !Changed(codes, s.previousCapture) {
      forall j | 0 <= j < |s.qrCodes| ensures PendingRow(s.table[j].presence, s.qrCodes[j], codes, false) {
        SameListSameMembers(codes, s.previousCapture.value, s.qrCodes[j]);
      }
    }
  }

  /** Entries are never removed or replaced: the registry only grows, keeps
      each entry's payload, first-sighting image and decoder hit, and never
      holds a payload twice. */
  lemma UpdateDetectedKeepsEntries(s: Ui, codes: seq<FoundQR>)
    ensures var r := UpdateDetected(s, codes);
      && |s.qrCodes| <= |r.qrCodes|
      && (forall j :: 0 <= j < |s.qrCodes| ==>
            r.qrCodes[j].data == s.qrCodes[j].data && r.qrCodes[j].img == s.qrCodes[j].img
            && r.qrCodes[j].qrObj == s.qrCodes[j].qrObj)
      && (Unique(s.qrCodes) ==> Unique(r.qrCodes))
  {
    var g := Register(s, codes);
    var r := CountFrom(g, codes, 0);
    assert forall j :: 0 <= j < |g.qrCodes| ==> SameCode(r.qrCodes[j], g.qrCodes[j]);
  }

  /** On every call, changed list or not, each entry's counter becomes 0 when
      its payload is listed and one more than before otherwise; entries added
      by the call are listed. */
  lemma UpdateDetectedCounters(s: Ui, codes: seq<FoundQR>)
    ensures var r := UpdateDetected(s, codes);
      && (forall j :: 0 <= j < |s.qrCodes| ==>
            r.qrCodes[j].consecutiveNotSeen == if Contains(codes, s.qrCodes[j]) then 0 else s.qrCodes[j].consecutiveNotSeen + 1)
      && (forall j :: |s.qrCodes| <= j < |r.qrCodes| ==> Contains(codes, r.qrCodes[j]) && r.qrCodes[j].consecutiveNotSeen == 0)
  {
    var g := Register(s, codes);
    forall j | 0 <= j < |s.qrCodes| ensures Contains(codes, g.qrCodes[j]) <==> Contains(codes, s.qrCodes[j]) {
      ContainsIgnoresCounter(codes, s.qrCodes[j], g.qrCodes[j].consecutiveNotSeen);
      assert g.qrCodes[j] == s.qrCodes[j].(consecutiveNotSeen := g.qrCodes[j].consecutiveNotSeen);
    }
  }

  /** Reference definition of the registry after an update: the entries
      before it, followed, when the list changed, by the first record of each
      payload the registry lacked (in list order), every one advanced by the
      per-entry counter rule. */
  function Expected(s: Ui, codes: seq<FoundQR>): seq<FoundQR> {
    var registered := if Changed(codes, s.previousCapture) then s.qrCodes + Unseen(s.qrCodes, codes) else s.qrCodes;
    seq(|registered|, j requires 0 <= j < |registered| => Advance(registered[j], codes))
  }

  /** The sequential update of main.py:327-345, relabelling passes and all,
      leaves exactly the reference registry. */
  lemma UpdateDetectedIsExpected(s: Ui, codes: seq<FoundQR>)
    ensures UpdateDetected(s, codes).qrCodes == Expected(s, codes)
  {
    var g := Register(s, codes);
    var r := CountFrom(g, codes, 0);
    if Changed(codes, s.previousCapture) {
      AppendNewIsUnseen(s.qrCodes, codes);
      var grown := AppendNew(s.qrCodes, codes);
      forall j | 0 <= j < |grown| ensures r.qrCodes[j] == Advance(grown[j], codes) {
        ContainsIgnoresCounter(codes, grown[j], 0);
      }
    }
  }

  /** `update_detected` keeps the widget invariant, and afterwards every row
      shows "Yes" exactly when its payload is in the list or its counter is
      at most `AbsenceThreshold`. */
  lemma UpdateDetectedKeepsConsistent(s: Ui, codes: seq<FoundQR>)
    requires Consistent(s)
    ensures Consistent(UpdateDetected(s, codes))
    ensures LabelsSettled(UpdateDetected(s, codes), codes)
  {
    var g := Register(s, codes);
    var r := CountFrom(g, codes, 0);
    RegisterLeavesLabelsPending(s, codes);
    CountFromSettlesLabels(g, codes, 0);
    UpdateDetectedKeepsEntries(s, codes);
    forall j | 0 <= j < |r.qrCodes| ensures Contains(codes, r.qrCodes[j]) ==> r.qrCodes[j].consecutiveNotSeen == 0 {
      ContainsIgnoresCounter(codes, g.qrCodes[j], r.qrCodes[j].consecutiveNotSeen);
      assert r.qrCodes[j] == g.qrCodes[j].(consecutiveNotSeen := r.qrCodes[j].consecutiveNotSeen);
    }
    if !Changed(codes, s.previousCapture) {
      forall j | 0 <= j < |r.qrCodes| ensures Contains(s.previousCapture.value, r.qrCodes[j]) ==> Contains(codes, r.qrCodes[j]) {
        SameListSameMembers(codes, s.previousCapture.value, r.qrCodes[j]);
      }
    }
  }

  /** A sequence of `update_detected` calls, one list per call, in order. */
  function Run(s: Ui, lists: seq<seq<FoundQR>>): Ui
    decreases |lists|
  {
    if |lists| == 0 then s else UpdateDetected(Run(s, lists[..|lists| - 1]), lists[|lists| - 1])
  }

  lemma {:induction false} RunKeepsConsistent(s: Ui, lists: seq<seq<FoundQR>>)
    requires Consistent(s)
    ensures Consistent(Run(s, lists))
    decreases |lists|
  {
    if |lists| > 0 {
      RunKeepsConsistent(s, lists[..|lists| - 1]);
      UpdateDetectedKeepsConsistent(Run(s, lists[..|lists| - 1]), lists[|lists| - 1]);
    }
  }

  /** Without a clear, the registry only grows and its entries keep their
      payload, image and decoder hit across any number of calls. */
  lemma {:induction false} RunOnlyGrows(s: Ui, lists: seq<seq<FoundQR>>)
    ensures var r := Run(s, lists);
      && |s.qrCodes| <= |r.qrCodes|
      && forall j :: 0 <= j < |s.qrCodes| ==>
           r.qrCodes[j].data == s.qrCodes[j].data && r.qrCodes[j].img == s.qrCodes[j].img
           && r.qrCodes[j].qrObj == s.qrCodes[j].qrObj
    decreases |lists|
  {
    if |lists| > 0 {
      RunOnlyGrows(s, lists[..|lists| - 1]);
      UpdateDetectedKeepsEntries(Run(s, lists[..|lists| - 1]), lists[|lists| - 1]);
    }
  }

  /** An entry missing from k consecutive lists has its counter raised by k. */
  lemma {:induction false} AbsentRunCounts(s: Ui, lists: seq<seq<FoundQR>>, j: nat)
    requires j < |s.qrCodes|
    requires forall k :: 0 <= k < |lists| ==> !Contains(lists[k], s.qrCodes[j])
    ensures j < |Run(s, lists).qrCodes|
    ensures Run(s, lists).qrCodes[j].data == s.qrCodes[j].data
    ensures Run(s, lists).qrCodes[j].consecutiveNotSeen == s.qrCodes[j].consecutiveNotSeen + |lists|
    decreases |lists|
  {
    if |lists| > 0 {
      var before := lists[..|lists| - 1];
      var last := lists[|lists| - 1];
      assert forall k :: 0 <= k < |before| ==> before[k] == lists[k];
      AbsentRunCounts(s, before, j);
      var mid := Run(s, before);
      assert Run(s, lists) == UpdateDetected(mid, last);
      ContainsByPayload(last, s.qrCodes[j], mid.qrCodes[j]);
      UpdateDetectedCounters(mid, last);
      UpdateDetectedKeepsEntries(mid, last);
    }
  }

  /** The debounce: an entry last seen with counter 0 and then missing from k
      consecutive lists still shows "Yes" for k up to `AbsenceThreshold` and
      "No" from the next call on. */
  lemma DebounceThreshold(s: Ui, lists: seq<seq<FoundQR>>, j: nat)
    requires Consistent(s)
    requires j < |s.qrCodes| && s.qrCodes[j].consecutiveNotSeen == 0
    requires forall k :: 0 <= k < |lists| ==> !Contains(lists[k], s.qrCodes[j])
    ensures j < |Run(s, lists).table|
    ensures Run(s, lists).table[j].presence == Yes <==> |lists| <= AbsenceThreshold
  {
    AbsentRunCounts(s, lists, j);
    RunKeepsConsistent(s, lists);
  }

  /** A listed entry is reset and shows "Yes", whatever its counter was. */
  lemma ReappearanceResets(s: Ui, codes: seq<FoundQR>, j: nat)
    requires Consistent(s)
    requires j < |s.qrCodes| && Contains(codes, s.qrCodes[j])
    ensures UpdateDetected(s, codes).qrCodes[j].consecutiveNotSeen == 0
    ensures UpdateDetected(s, codes).table[j].presence == Yes
  {
    UpdateDetectedCounters(s, codes);
    UpdateDetectedKeepsConsistent(s, codes);
  }

  /** When the list changed, every payload of the list ends up registered,
      counted as just seen and shown as "Yes". */
  lemma ChangedListIsRegistered(s: Ui, codes: seq<FoundQR>, x: FoundQR)
    requires Consistent(s)
    requires Changed(codes, s.previousCapture) && Contains(codes, x)
    ensures var r := UpdateDetected(s, codes);
      exists j :: 0 <= j < |r.qrCodes| && SameCode(r.qrCodes[j], x)
        && r.qrCodes[j].consecutiveNotSeen == 0 && r.table[j].presence == Yes
  {
    var r := UpdateDetected(s, codes);
    UpdateDetectedIsExpected(s, codes);
    AppendNewIsUnseen(s.qrCodes, codes);
    var grown := AppendNew(s.qrCodes, codes);
    ContainsIffPayloadListed(codes, x);
    ContainsIffPayloadListed(grown, x);
    var j :| 0 <= j < |grown| && SameCode(grown[j], x);
    assert r.qrCodes[j] == Advance(grown[j], codes);
    ContainsByPayload(codes, grown[j], x);
    UpdateDetectedKeepsConsistent(s, codes);
  }

  /** `clearTable` keeps the previous capture, so a list equal to it is not a
      change and registers nothing: codes still in view are not re-added until
      the list changes. */
  lemma ClearThenSameListAddsNothing(s: Ui, codes: seq<FoundQR>)
    requires s.previousCapture.Some? && SameList(codes, s.previousCapture.value)
    ensures UpdateDetected(ClearTable(s), codes).qrCodes == []
    ensures UpdateDetected(ClearTable(s), codes).table == []
  {
  }
}
