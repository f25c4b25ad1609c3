/**
 * What a history of file events says about I/O request packets (IRPs).
 *
 * A begin event of the target opens a row.  The row of a begin that names an IRP is decided by the
 * next event that names the same IRP: an OpEnd completes it, another begin or a close displaces it.
 * Nothing here mentions the maps and counters with which the processor keeps track of that.
 */
module IrpHistory {
  import opened Wrappers
  import opened EtwEvents
  import PathHistory

  /** A target event that opens a row. */
  predicate Opens(e: FileIoEvent, target: nat) {
    e.pid == target && e.kind != OpEnd && e.kind != Close
  }

  /** An event that says something about IRP `irp`: a target begin or close, or any OpEnd. */
  predicate Names(e: FileIoEvent, target: nat, irp: u64) {
    e.irp == Some(irp) && (e.kind == OpEnd || e.pid == target)
  }

  /** Positions of the events that opened the rows, one per row. */
  function RowStarts(f: seq<FileIoEvent>, target: nat): (starts: seq<nat>)
    ensures forall i :: 0 <= i < |starts| ==> starts[i] < |f| && Opens(f[starts[i]], target)
  {
    if f == [] then []
    else
      var n := |f| - 1;
      RowStarts(f[..n], target) + if Opens(f[n], target) then [n] else []
  }

  /** The row of the last event naming `irp`, when that event was a begin. */
  function Pending(f: seq<FileIoEvent>, target: nat, irp: u64): (row: Option<nat>)
    ensures row.Some? ==> row.value < |RowStarts(f, target)|
  {
    if f == [] then None
    else
      var n := |f| - 1;
      if !Names(f[n], target, irp) then Pending(f[..n], target, irp)
      else if Opens(f[n], target) then Some(|RowStarts(f[..n], target)|)
      else None
  }

  /** A close naming `irp` is still waiting for the OpEnd that it makes the processor swallow. */
  predicate Ignored(f: seq<FileIoEvent>, target: nat, irp: u64) {
    f != [] &&
    var n := |f| - 1;
    var before := Ignored(f[..n], target, irp);
    if !Names(f[n], target, irp) then before
    else if f[n].kind == Close then true
    else if f[n].kind == OpEnd then before && Pending(f[..n], target, irp).Some?
    else before
  }

  /** Whether the processor looks at `e` at all after the events `f`. */
  predicate Accepted(f: seq<FileIoEvent>, target: nat, e: FileIoEvent) {
    e.pid == target ||
    (e.kind == OpEnd && e.irp.Some? &&
     (Pending(f, target, e.irp.value).Some? || Ignored(f, target, e.irp.value)))
  }

  function AcceptedCount(f: seq<FileIoEvent>, target: nat): nat {
    if f == [] then 0
    else
      var n := |f| - 1;
      AcceptedCount(f[..n], target) + if Accepted(f[..n], target, f[n]) then 1 else 0
  }

  /** A target OpEnd that answers neither a begin nor a close. */
  predicate Unanswering(f: seq<FileIoEvent>, target: nat, e: FileIoEvent) {
    && e.kind == OpEnd && e.pid == target
    && (e.irp.Some? ==> Pending(f, target, e.irp.value).None? && !Ignored(f, target, e.irp.value))
  }

  function UnansweringCount(f: seq<FileIoEvent>, target: nat): nat {
    if f == [] then 0
    else
      var n := |f| - 1;
      UnansweringCount(f[..n], target) + if Unanswering(f[..n], target, f[n]) then 1 else 0
  }

  /** Position of the first event after `start` that names the IRP of the event at `start`. */
  function NextNaming(f: seq<FileIoEvent>, target: nat, start: nat): (next: Option<nat>)
    requires start < |f| && f[start].irp.Some?
    ensures next.Some? ==> start < next.value < |f| && Names(f[next.value], target, f[start].irp.value)
  {
    var n := |f| - 1;
    if start == n then None
    else
      var earlier := NextNaming(f[..n], target, start);
      if earlier.Some? then earlier
      else if Names(f[n], target, f[start].irp.value) then Some(n)
      else None
  }

  /** What became of a row's request. */
  datatype Fate = NoIrp | Open | Completed | Displaced

  function FateOf(f: seq<FileIoEvent>, target: nat, start: nat): Fate
    requires start < |f|
  {
    if f[start].irp.None? then NoIrp
    else match NextNaming(f, target, start)
      case None => Open
      case Some(next) => if f[next].kind == OpEnd then Completed else Displaced
  }

  function Fates(f: seq<FileIoEvent>, target: nat): (fates: seq<Fate>)
    ensures |fates| == |RowStarts(f, target)|
  {
    var starts := RowStarts(f, target);
    seq(|starts|, i requires 0 <= i < |starts| => FateOf(f, target, starts[i]))
  }

  /** The row an opening event creates when it arrives. */
  function OpenedRow(f: seq<FileIoEvent>, target: nat, e: FileIoEvent): FileIoRow {
    var resolved := PathHistory.Resolved(f, target, e);
    FileIoRow(
      |RowStarts(f, target)| + 1, e.kind, e.pid, e.thread, resolved.0, resolved.1,
      e.fileObject, e.fileKey, e.irp, e.details, e.extraInfo, e.ntStatus, [], None)
  }

  /** A row completed by `e`, the event with acceptance number `sequence`. */
  function CompletedRow(row: FileIoRow, e: FileIoEvent, sequence: nat): FileIoRow {
    row.(
      extraInfo := if e.extraInfo.Some? then e.extraInfo else row.extraInfo,
      ntStatus := if e.ntStatus.Some? then e.ntStatus else row.ntStatus,
      completion := Some(Completion(e.pid, e.thread, sequence)))
  }

  /** Position of the OpEnd that completes the row opened at `start`, if there is one. */
  function CompletedAt(f: seq<FileIoEvent>, target: nat, start: nat): (at: Option<nat>)
    requires start < |f|
    ensures at.Some? ==> start < at.value < |f| && f[at.value].kind == OpEnd && f[at.value].irp == f[start].irp
    ensures at.Some? <==> FateOf(f, target, start) == Completed
  {
    if f[start].irp.None? then None
    else
      var next := NextNaming(f, target, start);
      if next.Some? && f[next.value].kind == OpEnd then next else None
  }

  /** The whole row table as a function of the history: row `i` after all of `f`. */
  function RowAfter(f: seq<FileIoEvent>, target: nat, i: nat): FileIoRow
    requires i < |RowStarts(f, target)|
  {
    var start := RowStarts(f, target)[i];
    var row := OpenedRow(f[..start], target, f[start]);
    match CompletedAt(f, target, start)
    case None => row
    case Some(at) => CompletedRow(row, f[at], AcceptedCount(f[..at + 1], target))
  }

  function RowsAfter(f: seq<FileIoEvent>, target: nat): (rows: seq<FileIoRow>)
    ensures |rows| == |RowStarts(f, target)|
  {
    seq(|RowStarts(f, target)|, i requires 0 <= i < |RowStarts(f, target)| => RowAfter(f, target, i))
  }

  // ----- How one more event changes these functions -----

  /** The IRP an event says something about, if any. */
  function NamedIrp(e: FileIoEvent, target: nat): Option<u64> {
    if e.kind == OpEnd || e.pid == target then e.irp else None
  }

  /** The row whose fate the next event `e` settles, if any. */
  function Settles(f: seq<FileIoEvent>, target: nat, e: FileIoEvent): (row: Option<nat>)
    ensures row.Some? ==> row.value < |RowStarts(f, target)|
  {
    match NamedIrp(e, target)
    case None => None
    case Some(irp) => Pending(f, target, irp)
  }

  lemma RowStartsStep(f: seq<FileIoEvent>, target: nat, e: FileIoEvent)
    ensures RowStarts(f + [e], target) == RowStarts(f, target) + if Opens(e, target) then [|f|] else []
  {
    assert (f + [e])[..|f|] == f;
  }

  lemma PendingStep(f: seq<FileIoEvent>, target: nat, e: FileIoEvent, irp: u64)
    ensures Pending(f + [e], target, irp) ==
      if NamedIrp(e, target) != Some(irp) then Pending(f, target, irp)
      else if Opens(e, target) then Some(|RowStarts(f, target)|)
      else None
  {
    assert (f + [e])[..|f|] == f;
  }

  lemma IgnoredStep(f: seq<FileIoEvent>, target: nat, e: FileIoEvent, irp: u64)
    ensures Ignored(f + [e], target, irp) <==>
      if NamedIrp(e, target) != Some(irp) then Ignored(f, target, irp)
      else if e.kind == Close then true
      else if e.kind == OpEnd then Ignored(f, target, irp) && Pending(f, target, irp).Some?
      else Ignored(f, target, irp)
  {
    assert (f + [e])[..|f|] == f;
  }

  lemma CountsStep(f: seq<FileIoEvent>, target: nat, e: FileIoEvent)
    ensures AcceptedCount(f + [e], target) == AcceptedCount(f, target) + if Accepted(f, target, e) then 1 else 0
    ensures UnansweringCount(f + [e], target) ==
      UnansweringCount(f, target) + if Unanswering(f, target, e) then 1 else 0
  {
    assert (f + [e])[..|f|] == f;
  }

  lemma NextNamingStep(f: seq<FileIoEvent>, target: nat, e: FileIoEvent, start: nat)
    requires start < |f| && f[start].irp.Some?
    ensures NextNaming(f + [e], target, start) ==
      if NextNaming(f, target, start).Some? then NextNaming(f, target, start)
      else if NamedIrp(e, target) == f[start].irp then Some(|f|)
      else None
  {
    assert (f + [e])[..|f|] == f;
  }

  /** The last event naming `irp` is the begin of row `r` iff that row is the one still open on `irp`. */
  lemma {:induction false} PendingIsTheOpenRow(f: seq<FileIoEvent>, target: nat, irp: u64, r: nat)
    ensures Pending(f, target, irp) == Some(r) <==>
      && r < |RowStarts(f, target)|
      && f[RowStarts(f, target)[r]].irp == Some(irp)
      && FateOf(f, target, RowStarts(f, target)[r]) == Open
  {
    if f != [] {
      var n := |f| - 1;
      var g, e := f[..n], f[n];
      assert f == g + [e];
      PendingIsTheOpenRow(g, target, irp, r);
      RowStartsStep(g, target, e);
      PendingStep(g, target, e, irp);
      if r < |RowStarts(g, target)| && g[RowStarts(g, target)[r]].irp.Some? {
        NextNamingStep(g, target, e, RowStarts(g, target)[r]);
      }
    }
  }

  lemma {:induction false} FateStep(f: seq<FileIoEvent>, target: nat, e: FileIoEvent, i: nat)
    requires i < |RowStarts(f, target)|
    ensures var start := RowStarts(f, target)[i];
      FateOf(f + [e], target, start) ==
        if Settles(f, target, e) == Some(i) then (if e.kind == OpEnd then Completed else Displaced)
        else FateOf(f, target, start)
    ensures Settles(f, target, e) == Some(i) ==> FateOf(f, target, RowStarts(f, target)[i]) == Open
  {
    var start := RowStarts(f, target)[i];
    if f[start].irp.Some? {
      NextNamingStep(f, target, e, start);
      PendingIsTheOpenRow(f, target, f[start].irp.value, i);
    }
    if Settles(f, target, e) == Some(i) {
      PendingIsTheOpenRow(f, target, e.irp.value, i);
    }
  }

  /** The fates with the one that `e` settles, if any, brought up to date. */
  function Resettled(fates: seq<Fate>, settled: Option<nat>, e: FileIoEvent): (after: seq<Fate>)
    requires settled.Some? ==> settled.value < |fates|
  {
    if settled.Some? then fates[settled.value := if e.kind == OpEnd then Completed else Displaced] else fates
  }

  lemma {:induction false} OldFate(f: seq<FileIoEvent>, target: nat, e: FileIoEvent, i: nat)
    requires i < |Fates(f, target)|
    ensures i < |Fates(f + [e], target)|
    ensures Fates(f + [e], target)[i] == Resettled(Fates(f, target), Settles(f, target, e), e)[i]
    ensures Settles(f, target, e) == Some(i) ==> Fates(f, target)[i] == Open
  {
    RowStartsStep(f, target, e);
    FateStep(f, target, e, i);
  }

  lemma {:induction false} OpenedFate(f: seq<FileIoEvent>, target: nat, e: FileIoEvent)
    requires Opens(e, target)
    ensures |Fates(f + [e], target)| == |Fates(f, target)| + 1
    ensures Fates(f + [e], target)[|Fates(f, target)|] == if e.irp.Some? then Open else NoIrp
  {
    RowStartsStep(f, target, e);
  }

  /** One more event settles at most one row, the pending row of the IRP it names, and opens at most one. */
  lemma {:induction false} FatesStep(f: seq<FileIoEvent>, target: nat, e: FileIoEvent)
    ensures Fates(f + [e], target) ==
      Resettled(Fates(f, target), Settles(f, target, e), e) +
      if Opens(e, target) then [if e.irp.Some? then Open else NoIrp] else []
    ensures Settles(f, target, e).Some? ==> Fates(f, target)[Settles(f, target, e).value] == Open
  {
    RowStartsStep(f, target, e);
    var before, after, settled := Fates(f, target), Fates(f + [e], target), Settles(f, target, e);
    forall i | 0 <= i < |before|
      ensures after[i] == Resettled(before, settled, e)[i]
      ensures settled == Some(i) ==> before[i] == Open
    {
      OldFate(f, target, e, i);
    }
    if Opens(e, target) {
      OpenedFate(f, target, e);
    }
  }

  lemma {:induction false} CompletedAtStep(f: seq<FileIoEvent>, target: nat, e: FileIoEvent, i: nat)
    requires i < |RowStarts(f, target)|
    ensures var start := RowStarts(f, target)[i];
      CompletedAt(f + [e], target, start) ==
        if CompletedAt(f, target, start).Some? then CompletedAt(f, target, start)
        else if Settles(f, target, e) == Some(i) && e.kind == OpEnd then Some(|f|)
        else None
    ensures Settles(f, target, e) == Some(i) ==> CompletedAt(f, target, RowStarts(f, target)[i]).None?
  {
    var start := RowStarts(f, target)[i];
    if f[start].irp.Some? {
      NextNamingStep(f, target, e, start);
      PendingIsTheOpenRow(f, target, f[start].irp.value, i);
    }
    if Settles(f, target, e) == Some(i) {
      PendingIsTheOpenRow(f, target, e.irp.value, i);
    }
  }

  lemma {:induction false} RowStep(f: seq<FileIoEvent>, target: nat, e: FileIoEvent, i: nat)
    requires i < |RowStarts(f, target)|
    ensures RowStarts(f + [e], target) == RowStarts(f, target) + if Opens(e, target) then [|f|] else []
    ensures RowAfter(f + [e], target, i) ==
      if Settles(f, target, e) == Some(i) && e.kind == OpEnd
      then CompletedRow(RowAfter(f, target, i), e, AcceptedCount(f + [e], target))
      else RowAfter(f, target, i)
  {
    RowStartsStep(f, target, e);
    CompletedAtStep(f, target, e, i);
    var start := RowStarts(f, target)[i];
    assert RowStarts(f + [e], target)[i] == start;
    assert (f + [e])[..start] == f[..start];
    var at := CompletedAt(f, target, start);
    if at.Some? {
      assert (f + [e])[..at.value + 1] == f[..at.value + 1];
    } else {
      assert (f + [e])[..|f| + 1] == f + [e];
    }
  }

  lemma {:induction false} OpenedRowLast(f: seq<FileIoEvent>, target: nat, e: FileIoEvent)
    requires Opens(e, target)
    ensures |RowsAfter(f + [e], target)| == |RowsAfter(f, target)| + 1
    ensures RowsAfter(f + [e], target)[|RowsAfter(f, target)|] == OpenedRow(f, target, e)
  {
    RowStartsStep(f, target, e);
    assert (f + [e])[..|f|] == f;
  }

  /** The rows with the one that the OpEnd `e` completes, if any, filled in. */
  function Filled(rows: seq<FileIoRow>, settled: Option<nat>, e: FileIoEvent, sequence: nat): (after: seq<FileIoRow>)
    requires settled.Some? ==> settled.value < |rows|
  {
    if settled.Some? && e.kind == OpEnd
    then rows[settled.value := CompletedRow(rows[settled.value], e, sequence)]
    else rows
  }

  lemma {:induction false} OldRow(f: seq<FileIoEvent>, target: nat, e: FileIoEvent, i: nat)
    requires i < |RowsAfter(f, target)|
    ensures i < |RowsAfter(f + [e], target)|
    ensures RowsAfter(f + [e], target)[i] ==
      Filled(RowsAfter(f, target), Settles(f, target, e), e, AcceptedCount(f + [e], target))[i]
  {
    RowStep(f, target, e, i);
  }

  /** The row table grows at its end, and the settled row changes only if an OpEnd settles it. */
  lemma {:induction false} RowsStep(f: seq<FileIoEvent>, target: nat, e: FileIoEvent)
    ensures var before := Filled(RowsAfter(f, target), Settles(f, target, e), e, AcceptedCount(f + [e], target));
      RowsAfter(f + [e], target) == if Opens(e, target) then before + [OpenedRow(f, target, e)] else before
  {
    RowStartsStep(f, target, e);
    var before, after := RowsAfter(f, target), RowsAfter(f + [e], target);
    forall i | 0 <= i < |before|
      ensures after[i] == Filled(before, Settles(f, target, e), e, AcceptedCount(f + [e], target))[i]
    {
      OldRow(f, target, e, i);
    }
    if Opens(e, target) {
      OpenedRowLast(f, target, e);
    }
  }

  // ----- What the processor's maps and counters have to say about a history -----

  /** The pending map and the ignored set agree with the history. */
  ghost predicate Tracks(f: seq<FileIoEvent>, target: nat, pending: map<u64, nat>, ignored: set<u64>) {
    && (forall irp: u64 ::
      Pending(f, target, irp) == if irp in pending then Some(pending[irp]) else None)
    && (forall irp: u64 :: irp in ignored <==> Ignored(f, target, irp))
  }

  /** How many rows have fate `k`. */
  function Count(fates: seq<Fate>, k: Fate): nat {
    if fates == [] then 0
    else Count(fates[..|fates| - 1], k) + if fates[|fates| - 1] == k then 1 else 0
  }

  /** The counters of the processor. */
  datatype Tally = Tally(open: nat, accepted: nat, matched: nat, unmatched: nat, reused: nat)

  /** The counters agree with the fates of the rows. */
  ghost predicate Tallied(f: seq<FileIoEvent>, target: nat, t: Tally) {
    && t.accepted == AcceptedCount(f, target)
    && t.unmatched == UnansweringCount(f, target)
    && t.open == Count(Fates(f, target), Open)
    && t.matched == Count(Fates(f, target), Completed)
    && t.reused == Count(Fates(f, target), Displaced)
  }

  lemma {:induction false} CountAppend(fates: seq<Fate>, x: Fate, k: Fate)
    ensures Count(fates + [x], k) == Count(fates, k) + if x == k then 1 else 0
  {
    assert (fates + [x])[..|fates|] == fates;
  }

  lemma {:induction false} CountUpdate(fates: seq<Fate>, i: nat, x: Fate, k: Fate)
    requires i < |fates|
    ensures Count(fates[i := x], k) + (if fates[i] == k then 1 else 0) == Count(fates, k) + if x == k then 1 else 0
  {
    var n := |fates| - 1;
    if i < n {
      CountUpdate(fates[..n], i, x, k);
      assert fates[i := x][..n] == fates[..n][i := x];
    } else {
      assert fates[i := x][..n] == fates[..n];
    }
  }

  /** What one more event does to the number of rows with fate `k`. */
  lemma {:induction false} CountStep(f: seq<FileIoEvent>, target: nat, e: FileIoEvent, k: Fate)
    ensures Count(Fates(f + [e], target), k) + (if Settles(f, target, e).Some? && k == Open then 1 else 0) ==
      Count(Fates(f, target), k)
      + (if Settles(f, target, e).Some? && k == (if e.kind == OpEnd then Completed else Displaced) then 1 else 0)
      + (if Opens(e, target) && k == (if e.irp.Some? then Open else NoIrp) then 1 else 0)
  {
    FatesStep(f, target, e);
    var before, settled := Fates(f, target), Settles(f, target, e);
    var middle := Resettled(before, settled, e);
    if settled.Some? {
      CountUpdate(before, settled.value, if e.kind == OpEnd then Completed else Displaced, k);
    }
    if Opens(e, target) {
      CountAppend(middle, if e.irp.Some? then Open else NoIrp, k);
    } else {
      assert Fates(f + [e], target) == middle;
    }
  }

  lemma {:induction false} TallyStep(f: seq<FileIoEvent>, target: nat, t: Tally, e: FileIoEvent)
    requires Tallied(f, target, t)
    ensures Settles(f, target, e).Some? ==> t.open > 0
    ensures var settled := Settles(f, target, e).Some?;
      Tallied(f + [e], target, Tally(
        (if settled then t.open - 1 else t.open) + (if Opens(e, target) && e.irp.Some? then 1 else 0),
        t.accepted + (if Accepted(f, target, e) then 1 else 0),
        t.matched + (if settled && e.kind == OpEnd then 1 else 0),
        t.unmatched + (if Unanswering(f, target, e) then 1 else 0),
        t.reused + (if settled && e.kind != OpEnd then 1 else 0)))
  {
    CountsStep(f, target, e);
    CountStep(f, target, e, Open);
    CountStep(f, target, e, Completed);
    CountStep(f, target, e, Displaced);
    if Settles(f, target, e).Some? {
      FatesStep(f, target, e);
      CountUpdate(Fates(f, target), Settles(f, target, e).value, NoIrp, Open);
    }
  }

  lemma PutSize(m: map<u64, nat>, k: u64, v: nat)
    ensures |m[k := v]| == if k in m then |m| else |m| + 1
  {
    assert m[k := v].Keys == m.Keys + {k};
  }

  lemma RemoveSize(m: map<u64, nat>, k: u64)
    ensures |m - {k}| == if k in m then |m| - 1 else |m|
  {
    assert (m - {k}).Keys == m.Keys - {k};
  }

  /** What the maps tell about the next event. */
  lemma TracksDecides(f: seq<FileIoEvent>, target: nat, pending: map<u64, nat>, ignored: set<u64>, e: FileIoEvent)
    requires Tracks(f, target, pending, ignored)
    ensures Settles(f, target, e) ==
      if NamedIrp(e, target).Some? && e.irp.value in pending then Some(pending[e.irp.value]) else None
    ensures Unanswering(f, target, e) <==>
      e.kind == OpEnd && e.pid == target && (e.irp.Some? ==> e.irp.value !in pending && e.irp.value !in ignored)
    ensures Accepted(f, target, e) <==>
      e.pid == target || (e.kind == OpEnd && e.irp.Some? && (e.irp.value in pending || e.irp.value in ignored))
  {
  }

  lemma {:induction false} TracksUnnamed(
    f: seq<FileIoEvent>, target: nat, pending: map<u64, nat>, ignored: set<u64>, e: FileIoEvent)
    requires Tracks(f, target, pending, ignored) && NamedIrp(e, target).None?
    ensures Tracks(f + [e], target, pending, ignored)
  {
    forall irp: u64
      ensures Pending(f + [e], target, irp) == Pending(f, target, irp)
      ensures Ignored(f + [e], target, irp) == Ignored(f, target, irp)
    {
      PendingStep(f, target, e, irp);
      IgnoredStep(f, target, e, irp);
    }
  }

  lemma {:induction false} TracksOpEnd(
    f: seq<FileIoEvent>, target: nat, pending: map<u64, nat>, ignored: set<u64>, e: FileIoEvent)
    requires Tracks(f, target, pending, ignored) && e.kind == OpEnd && e.irp.Some?
    ensures if e.irp.value in pending then Tracks(f + [e], target, pending - {e.irp.value}, ignored)
      else Tracks(f + [e], target, pending, ignored - {e.irp.value})
  {
    forall irp: u64
      ensures Pending(f + [e], target, irp) == if e.irp == Some(irp) then None else Pending(f, target, irp)
      ensures Ignored(f + [e], target, irp) <==>
        Ignored(f, target, irp) && (e.irp == Some(irp) ==> Pending(f, target, irp).Some?)
    {
      PendingStep(f, target, e, irp);
      IgnoredStep(f, target, e, irp);
    }
  }

  lemma {:induction false} TracksClose(
    f: seq<FileIoEvent>, target: nat, pending: map<u64, nat>, ignored: set<u64>, e: FileIoEvent)
    requires Tracks(f, target, pending, ignored) && e.kind == Close && e.pid == target && e.irp.Some?
    ensures Tracks(f + [e], target, pending - {e.irp.value}, ignored + {e.irp.value})
  {
    forall irp: u64
      ensures Pending(f + [e], target, irp) == if e.irp == Some(irp) then None else Pending(f, target, irp)
      ensures Ignored(f + [e], target, irp) <==> Ignored(f, target, irp) || e.irp == Some(irp)
    {
      PendingStep(f, target, e, irp);
      IgnoredStep(f, target, e, irp);
    }
  }

  lemma {:induction false} TracksBegin(
    f: seq<FileIoEvent>, target: nat, pending: map<u64, nat>, ignored: set<u64>, e: FileIoEvent)
    requires Tracks(f, target, pending, ignored) && Opens(e, target) && e.irp.Some?
    ensures Tracks(f + [e], target, pending[e.irp.value := |RowStarts(f, target)|], ignored)
  {
    forall irp: u64
      ensures Pending(f + [e], target, irp) ==
        if e.irp == Some(irp) then Some(|RowStarts(f, target)|) else Pending(f, target, irp)
      ensures Ignored(f + [e], target, irp) == Ignored(f, target, irp)
    {
      PendingStep(f, target, e, irp);
      IgnoredStep(f, target, e, irp);
    }
  }

  /** The maps and the counters together. */
  ghost predicate Kept(
    f: seq<FileIoEvent>, target: nat, pending: map<u64, nat>, ignored: set<u64>,
    accepted: nat, matched: nat, unmatched: nat, reused: nat)
  {
    Tracks(f, target, pending, ignored) && Tallied(f, target, Tally(|pending|, accepted, matched, unmatched, reused))
  }

  lemma {:induction false} KeptByBegin(
    f: seq<FileIoEvent>, target: nat, pending: map<u64, nat>, ignored: set<u64>,
    accepted: nat, matched: nat, unmatched: nat, reused: nat, e: FileIoEvent)
    requires Kept(f, target, pending, ignored, accepted, matched, unmatched, reused) && Opens(e, target)
    ensures if e.irp.Some?
      then Kept(f + [e], target, pending[e.irp.value := |RowStarts(f, target)|], ignored, accepted + 1,
                matched, unmatched, if e.irp.value in pending then reused + 1 else reused)
      else Kept(f + [e], target, pending, ignored, accepted + 1, matched, unmatched, reused)
  {
    hide Tracks, Tallied, Settles, Accepted, Unanswering, RowStarts;
    TracksDecides(f, target, pending, ignored, e);
    var t := Tally(|pending|, accepted, matched, unmatched, reused);
    TallyStep(f, target, t, e);
    if e.irp.None? {
      TracksUnnamed(f, target, pending, ignored, e);
      assert Tallied(f + [e], target, t.(accepted := accepted + 1));
    } else {
      TracksBegin(f, target, pending, ignored, e);
      PutSize(pending, e.irp.value, |RowStarts(f, target)|);
      if e.irp.value in pending {
        assert Tallied(f + [e], target, t.(accepted := accepted + 1, reused := reused + 1));
      } else {
        assert Tallied(f + [e], target, t.(open := |pending| + 1, accepted := accepted + 1));
      }
    }
  }

  lemma {:induction false} KeptByClose(
    f: seq<FileIoEvent>, target: nat, pending: map<u64, nat>, ignored: set<u64>,
    accepted: nat, matched: nat, unmatched: nat, reused: nat, e: FileIoEvent)
    requires Kept(f, target, pending, ignored, accepted, matched, unmatched, reused)
    requires e.kind == Close && e.pid == target
    ensures if e.irp.Some?
      then Kept(f + [e], target, pending - {e.irp.value}, ignored + {e.irp.value}, accepted + 1, matched, unmatched,
                if e.irp.value in pending then reused + 1 else reused)
      else Kept(f + [e], target, pending, ignored, accepted + 1, matched, unmatched, reused)
  {
    hide Tracks, Tallied, Settles, Accepted, Unanswering;
    TracksDecides(f, target, pending, ignored, e);
    var t := Tally(|pending|, accepted, matched, unmatched, reused);
    TallyStep(f, target, t, e);
    if e.irp.None? {
      TracksUnnamed(f, target, pending, ignored, e);
      assert Tallied(f + [e], target, t.(accepted := accepted + 1));
    } else {
      TracksClose(f, target, pending, ignored, e);
      RemoveSize(pending, e.irp.value);
      if e.irp.value in pending {
        assert Tallied(f + [e], target, t.(open := |pending| - 1, accepted := accepted + 1, reused := reused + 1));
      } else {
        assert Tallied(f + [e], target, t.(accepted := accepted + 1));
      }
    }
  }

  lemma {:induction false} KeptByOpEnd(
    f: seq<FileIoEvent>, target: nat, pending: map<u64, nat>, ignored: set<u64>,
    accepted: nat, matched: nat, unmatched: nat, reused: nat, e: FileIoEvent)
    requires Kept(f, target, pending, ignored, accepted, matched, unmatched, reused)
    requires e.kind == OpEnd && Accepted(f, target, e)
    ensures if e.irp.None?
      then Kept(f + [e], target, pending, ignored, accepted + 1, matched, unmatched + 1, reused)
      else if e.irp.value in pending
      then Kept(f + [e], target, pending - {e.irp.value}, ignored, accepted + 1, matched + 1, unmatched, reused)
      else if e.irp.value in ignored
      then Kept(f + [e], target, pending, ignored - {e.irp.value}, accepted + 1, matched, unmatched, reused)
      else Kept(f + [e], target, pending, ignored, accepted + 1, matched, unmatched + 1, reused)
  {
    hide Tracks, Tallied, Settles, Accepted, Unanswering;
    TracksDecides(f, target, pending, ignored, e);
    var t := Tally(|pending|, accepted, matched, unmatched, reused);
    TallyStep(f, target, t, e);
    if e.irp.None? {
      TracksUnnamed(f, target, pending, ignored, e);
      assert Tallied(f + [e], target, t.(accepted := accepted + 1, unmatched := unmatched + 1));
    } else {
      TracksOpEnd(f, target, pending, ignored, e);
      if e.irp.value in pending {
        RemoveSize(pending, e.irp.value);
        assert Tallied(f + [e], target, t.(open := |pending| - 1, accepted := accepted + 1, matched := matched + 1));
      } else if e.irp.value in ignored {
        assert Tallied(f + [e], target, t.(accepted := accepted + 1));
      } else {
        assert ignored - {e.irp.value} == ignored;
        assert Tallied(f + [e], target, t.(accepted := accepted + 1, unmatched := unmatched + 1));
      }
    }
  }

  /** An event the processor does not look at changes nothing. */
  lemma {:induction false} RejectedEventChangesNothing(
    f: seq<FileIoEvent>, target: nat, pending: map<u64, nat>, ignored: set<u64>, t: Tally, e: FileIoEvent)
    requires Tracks(f, target, pending, ignored) && Tallied(f, target, t)
    requires !Accepted(f, target, e)
    ensures Tracks(f + [e], target, pending, ignored) && Tallied(f + [e], target, t)
    ensures RowsAfter(f + [e], target) == RowsAfter(f, target)
  {
    TallyStep(f, target, t, e);
    RowsStep(f, target, e);
    if NamedIrp(e, target).Some? {
      TracksOpEnd(f, target, pending, ignored, e);
      assert ignored - {e.irp.value} == ignored;
    } else {
      TracksUnnamed(f, target, pending, ignored, e);
    }
  }

  // ----- Properties of the history functions themselves -----

  /** `NextNaming` is the first later event that names the IRP of the one at `start`. */
  lemma {:induction false} NextNamingIsTheFirst(f: seq<FileIoEvent>, target: nat, start: nat, next: nat)
    requires start < |f| && f[start].irp.Some?
    ensures NextNaming(f, target, start) == Some(next) <==>
      && start < next < |f| && Names(f[next], target, f[start].irp.value)
      && forall k :: start < k < next ==> !Names(f[k], target, f[start].irp.value)
  {
    var n := |f| - 1;
    if start < n {
      NextNamingIsTheFirst(f[..n], target, start, next);
      var earlier := NextNaming(f[..n], target, start);
      if earlier.Some? {
        NextNamingIsTheFirst(f[..n], target, start, earlier.value);
      } else {
        UnnamedSoFar(f[..n], target, start);
      }
    }
  }

  lemma {:induction false} UnnamedSoFar(f: seq<FileIoEvent>, target: nat, start: nat)
    requires start < |f| && f[start].irp.Some?
    ensures NextNaming(f, target, start).None? <==>
      forall k :: start < k < |f| ==> !Names(f[k], target, f[start].irp.value)
  {
    var n := |f| - 1;
    if start < n {
      UnnamedSoFar(f[..n], target, start);
      if NextNaming(f[..n], target, start).Some? {
        assert Names(f[NextNaming(f[..n], target, start).value], target, f[start].irp.value);
      }
    }
  }

  /**
   * Every completion lands on the latest unanswered begin: the OpEnd at `at` completes the row opened
   * at `start` iff it names that row's IRP and no target begin, target close or OpEnd in between does.
   */
  lemma CompletionLandsOnTheLatestBegin(f: seq<FileIoEvent>, target: nat, start: nat, at: nat)
    requires start < |f| && f[start].irp.Some?
    ensures CompletedAt(f, target, start) == Some(at) <==>
      && start < at < |f| && f[at].kind == OpEnd && f[at].irp == f[start].irp
      && forall k :: start < k < at ==> !Names(f[k], target, f[start].irp.value)
  {
    NextNamingIsTheFirst(f, target, start, at);
  }

  /** No OpEnd completes two rows. */
  lemma OneCompletionPerOpEnd(f: seq<FileIoEvent>, target: nat, i: nat, j: nat)
    requires i < j < |RowStarts(f, target)|
    requires CompletedAt(f, target, RowStarts(f, target)[i]).Some?
    requires CompletedAt(f, target, RowStarts(f, target)[j]).Some?
    ensures CompletedAt(f, target, RowStarts(f, target)[i]) != CompletedAt(f, target, RowStarts(f, target)[j])
  {
    var si, sj := RowStarts(f, target)[i], RowStarts(f, target)[j];
    RowStartsIncrease(f, target, i, j);
    var at := CompletedAt(f, target, si).value;
    CompletionLandsOnTheLatestBegin(f, target, si, at);
    assert CompletedAt(f, target, sj) == Some(at) ==> Names(f[sj], target, f[si].irp.value);
  }

  lemma {:induction false} RowStartsIncrease(f: seq<FileIoEvent>, target: nat, i: nat, j: nat)
    requires i < j < |RowStarts(f, target)|
    ensures RowStarts(f, target)[i] < RowStarts(f, target)[j]
  {
    if j < |RowStarts(f[..|f| - 1], target)| {
      RowStartsIncrease(f[..|f| - 1], target, i, j);
    }
  }

  lemma {:induction false} AcceptedCountGrows(f: seq<FileIoEvent>, target: nat, a: nat, b: nat)
    requires a <= b < |f| && Accepted(f[..b], target, f[b])
    ensures AcceptedCount(f[..a], target) < AcceptedCount(f[..b + 1], target)
  {
    assert f[..b + 1] == f[..b] + [f[b]];
    CountsStep(f[..b], target, f[b]);
    AcceptedCountMonotone(f, target, a, b);
  }

  lemma {:induction false} AcceptedCountMonotone(f: seq<FileIoEvent>, target: nat, a: nat, b: nat)
    requires a <= b <= |f|
    ensures AcceptedCount(f[..a], target) <= AcceptedCount(f[..b], target)
    decreases b - a
  {
    if a < b {
      assert f[..b] == f[..b - 1] + [f[b - 1]];
      CountsStep(f[..b - 1], target, f[b - 1]);
      AcceptedCountMonotone(f, target, a, b - 1);
    }
  }

  lemma {:induction false} CompletingOpEndIsAccepted(f: seq<FileIoEvent>, target: nat, i: nat)
    requires i < |RowStarts(f, target)| && CompletedAt(f, target, RowStarts(f, target)[i]).Some?
    ensures var at := CompletedAt(f, target, RowStarts(f, target)[i]).value;
      Accepted(f[..at], target, f[at]) && Pending(f[..at], target, f[at].irp.value) == Some(i)
  {
    var start := RowStarts(f, target)[i];
    var at := CompletedAt(f, target, start).value;
    RowStartsOfPrefix(f, target, at, i);
    NextNamingIsTheFirst(f, target, start, at);
    UnnamedSoFar(f[..at], target, start);
    PendingIsTheOpenRow(f[..at], target, f[at].irp.value, i);
  }

  lemma {:induction false} RowStartsOfPrefix(f: seq<FileIoEvent>, target: nat, n: nat, i: nat)
    requires n <= |f| && i < |RowStarts(f, target)| && RowStarts(f, target)[i] < n
    ensures i < |RowStarts(f[..n], target)| && RowStarts(f[..n], target)[i] == RowStarts(f, target)[i]
  {
    if n == |f| {
      assert f[..n] == f;
    } else {
      assert f[..|f| - 1][..n] == f[..n];
      RowStartsOfPrefix(f[..|f| - 1], target, n, i);
    }
  }

  /** The number a completion carries, and that it is later than the number of the row's begin. */
  lemma {:induction false} CompletionSequenceIsLater(f: seq<FileIoEvent>, target: nat, i: nat) returns (at: nat)
    requires i < |RowStarts(f, target)| && RowAfter(f, target, i).completion.Some?
    ensures at < |f| && CompletedAt(f, target, RowStarts(f, target)[i]) == Some(at)
    ensures Accepted(f[..at], target, f[at])
    ensures RowAfter(f, target, i).completion.value.sequence == AcceptedCount(f[..at + 1], target)
    ensures AcceptedCount(f[..RowStarts(f, target)[i] + 1], target) < AcceptedCount(f[..at + 1], target)
  {
    var start := RowStarts(f, target)[i];
    at := CompletedAt(f, target, start).value;
    CompletingOpEndIsAccepted(f, target, i);
    AcceptedCountGrows(f, target, start + 1, at);
  }

  lemma AcceptedCountsDiffer(f: seq<FileIoEvent>, target: nat, a: nat, b: nat)
    requires a != b && a < |f| && b < |f|
    requires Accepted(f[..a], target, f[a]) && Accepted(f[..b], target, f[b])
    ensures AcceptedCount(f[..a + 1], target) != AcceptedCount(f[..b + 1], target)
  {
    if a < b {
      AcceptedCountGrows(f, target, a + 1, b);
    } else {
      AcceptedCountGrows(f, target, b + 1, a);
    }
  }

  /** No two rows carry the same completion number. */
  lemma {:induction false} CompletionSequencesAreDistinct(f: seq<FileIoEvent>, target: nat, i: nat, j: nat)
    requires i < j < |RowStarts(f, target)|
    requires RowAfter(f, target, i).completion.Some? && RowAfter(f, target, j).completion.Some?
    ensures RowAfter(f, target, i).completion.value.sequence != RowAfter(f, target, j).completion.value.sequence
  {
    var a := CompletionSequenceIsLater(f, target, i);
    var b := CompletionSequenceIsLater(f, target, j);
    assert a != b by {
      OneCompletionPerOpEnd(f, target, i, j);
    }
    AcceptedCountsDiffer(f, target, a, b);
  }

  /** How many rows have an IRP but no completion. */
  function Incomplete(rows: seq<FileIoRow>): nat {
    if rows == [] then 0
    else
      var last := rows[|rows| - 1];
      Incomplete(rows[..|rows| - 1]) + if last.irp.Some? && last.completion.None? then 1 else 0
  }

  /** The IRP and completion columns of a row tell its fate. */
  lemma {:induction false} RowSaysItsFate(f: seq<FileIoEvent>, target: nat, i: nat)
    requires i < |RowsAfter(f, target)|
    ensures RowsAfter(f, target)[i].irp.None? <==> Fates(f, target)[i] == NoIrp
    ensures RowsAfter(f, target)[i].completion.Some? <==> Fates(f, target)[i] == Completed
  {
    assert RowsAfter(f, target)[i] == RowAfter(f, target, i);
  }

  lemma {:induction false} IncompleteIsOpenOrDisplaced(f: seq<FileIoEvent>, target: nat, n: nat)
    requires n <= |Fates(f, target)|
    ensures Incomplete(RowsAfter(f, target)[..n]) ==
      Count(Fates(f, target)[..n], Open) + Count(Fates(f, target)[..n], Displaced)
  {
    if n > 0 {
      var rows, fates := RowsAfter(f, target), Fates(f, target);
      IncompleteIsOpenOrDisplaced(f, target, n - 1);
      assert rows[..n][..n - 1] == rows[..n - 1];
      assert fates[..n][..n - 1] == fates[..n - 1];
      RowSaysItsFate(f, target, n - 1);
    }
  }

  /** The reported number of incomplete requests is the number of IRP rows without a completion. */
  lemma {:induction false} IncompleteCountIsExact(f: seq<FileIoEvent>, target: nat, t: Tally)
    requires Tallied(f, target, t)
    ensures t.open + t.reused == Incomplete(RowsAfter(f, target))
  {
    IncompleteIsOpenOrDisplaced(f, target, |Fates(f, target)|);
    assert RowsAfter(f, target)[..|Fates(f, target)|] == RowsAfter(f, target);
    assert Fates(f, target)[..|Fates(f, target)|] == Fates(f, target);
  }

  /** Rows = rows without an IRP + pending + matched + reused, at all times. */
  lemma {:induction false} IrpRowsAreConserved(f: seq<FileIoEvent>, target: nat, t: Tally)
    requires Tallied(f, target, t)
    ensures t.open + t.matched + t.reused + Count(Fates(f, target), NoIrp) == |RowsAfter(f, target)|
  {
    FourFates(Fates(f, target));
  }

  lemma {:induction false} FourFates(fates: seq<Fate>)
    ensures Count(fates, NoIrp) + Count(fates, Open) + Count(fates, Completed) + Count(fates, Displaced) == |fates|
  {
    if fates != [] {
      FourFates(fates[..|fates| - 1]);
    }
  }

  /** The row index of a pending IRP is never out of range, and the row there has that IRP and no completion. */
  lemma PendingRowExists(f: seq<FileIoEvent>, target: nat, irp: u64)
    requires Pending(f, target, irp).Some?
    ensures var row := Pending(f, target, irp).value;
      row < |RowsAfter(f, target)| && RowsAfter(f, target)[row].irp == Some(irp)
      && RowsAfter(f, target)[row].completion.None?
  {
    PendingIsTheOpenRow(f, target, irp, Pending(f, target, irp).value);
  }
}
