/** The rows a history produces, in order, and which of them carry a given timestamp. */
module EventIndex {
  import opened Wrappers
  import opened EtwEvents
  import IrpHistory
  import PathHistory

  /** The file events that opened rows. */
  function OpenedEvents(f: seq<FileIoEvent>, target: nat): seq<FileIoEvent> {
    if f == [] then []
    else
      var n := |f| - 1;
      OpenedEvents(f[..n], target) + if IrpHistory.Opens(f[n], target) then [f[n]] else []
  }

  /** The lifecycle events that got rows. */
  function ShownLifecycle(h: seq<Event>, target: nat, settings: Settings): seq<LifecycleEvent> {
    if settings.process then TargetLifecycle(h, target) else []
  }

  function LifecycleRowOf(e: LifecycleEvent, sequence: nat): LifecycleRow {
    LifecycleRow(sequence, e.kind, e.pid, e.tid, e.parentPid, e.imagePath, e.imageBase, e.imageSize, [])
  }

  function LifecycleRows(events: seq<LifecycleEvent>): (rows: seq<LifecycleRow>)
    ensures |rows| == |events|
  {
    seq(|events|, i requires 0 <= i < |events| => LifecycleRowOf(events[i], i + 1))
  }

  /** What a row takes over from its own event for the matching of stacks. */
  datatype Origin = Origin(timestamp: int, thread: nat, stack: seq<u64>)

  predicate IsRow(h: seq<Event>, target: nat, settings: Settings, row: StackTarget) {
    match row
    case LifecycleTarget(i) => i < |ShownLifecycle(h, target, settings)|
    case FileIoTarget(i) => i < |OpenedEvents(FileIoEvents(h), target)|
  }

  function OriginOf(h: seq<Event>, target: nat, settings: Settings, row: StackTarget): Origin
    requires IsRow(h, target, settings, row)
  {
    match row
    case LifecycleTarget(i) =>
      var e := ShownLifecycle(h, target, settings)[i];
      Origin(e.timestamp, e.thread, e.stack)
    case FileIoTarget(i) =>
      var e := OpenedEvents(FileIoEvents(h), target)[i];
      Origin(e.timestamp, e.thread, e.stack)
  }

  /** The row opened by the last event of `h + [e]`, if it opens one. */
  function NewRow(h: seq<Event>, target: nat, settings: Settings, e: Event): Option<StackTarget> {
    match e
    case Lifecycle(l) =>
      if settings.process && l.pid == target then Some(LifecycleTarget(|TargetLifecycle(h, target)|)) else None
    case FileIo(f) =>
      if IrpHistory.Opens(f, target) then Some(FileIoTarget(|OpenedEvents(FileIoEvents(h), target)|)) else None
    case StackWalk(_) => None
  }

  function TimestampOf(e: Event): int {
    match e
    case Lifecycle(l) => l.timestamp
    case FileIo(f) => f.timestamp
    case StackWalk(s) => s.timestamp
  }

  /** The rows of both tables with a given timestamp, in the order in which they were opened. */
  function RowsAt(h: seq<Event>, target: nat, settings: Settings, timestamp: int): seq<StackTarget> {
    if h == [] then []
    else
      var n := |h| - 1;
      var row := NewRow(h[..n], target, settings, h[n]);
      RowsAt(h[..n], target, settings, timestamp) +
      if row.Some? && TimestampOf(h[n]) == timestamp then [row.value] else []
  }

  lemma HistoryStep(h: seq<Event>, target: nat, e: Event)
    ensures FileIoEvents(h + [e]) == if e.FileIo? then FileIoEvents(h) + [e.fileIo] else FileIoEvents(h)
    ensures TargetLifecycle(h + [e], target) ==
      if e.Lifecycle? && e.lifecycle.pid == target then TargetLifecycle(h, target) + [e.lifecycle]
      else TargetLifecycle(h, target)
    ensures StackWalks(h + [e]) == if e.StackWalk? then StackWalks(h) + [e.stackWalk] else StackWalks(h)
  {
    assert (h + [e])[..|h|] == h;
  }

  lemma OpenedStep(f: seq<FileIoEvent>, target: nat, e: FileIoEvent)
    ensures OpenedEvents(f + [e], target) ==
      if IrpHistory.Opens(e, target) then OpenedEvents(f, target) + [e] else OpenedEvents(f, target)
  {
    assert (f + [e])[..|f|] == f;
  }

  lemma RowsAtStep(h: seq<Event>, target: nat, settings: Settings, e: Event, timestamp: int)
    ensures RowsAt(h + [e], target, settings, timestamp) ==
      if NewRow(h, target, settings, e).Some? && TimestampOf(e) == timestamp
      then RowsAt(h, target, settings, timestamp) + [NewRow(h, target, settings, e).value]
      else RowsAt(h, target, settings, timestamp)
  {
    assert (h + [e])[..|h|] == h;
  }

  /** Rows keep their origin as the history grows; a new row has the origin of the new event. */
  lemma OriginStep(h: seq<Event>, target: nat, settings: Settings, e: Event, row: StackTarget)
    ensures IsRow(h + [e], target, settings, row) <==>
      IsRow(h, target, settings, row) || NewRow(h, target, settings, e) == Some(row)
    ensures IsRow(h, target, settings, row) ==>
      OriginOf(h + [e], target, settings, row) == OriginOf(h, target, settings, row)
    ensures NewRow(h, target, settings, e) == Some(row) ==>
      !IsRow(h, target, settings, row) && OriginOf(h + [e], target, settings, row).timestamp == TimestampOf(e)
  {
    HistoryStep(h, target, e);
    if e.FileIo? {
      OpenedStep(FileIoEvents(h), target, e.fileIo);
    }
  }

  /** The index lists exactly the rows whose own timestamp is the key. */
  lemma {:induction false} RowsAtHoldsExactlyTheRowsOfItsTimestamp(
    h: seq<Event>, target: nat, settings: Settings, timestamp: int, row: StackTarget)
    ensures row in RowsAt(h, target, settings, timestamp) <==>
      IsRow(h, target, settings, row) && OriginOf(h, target, settings, row).timestamp == timestamp
  {
    if h != [] {
      var g, e := h[..|h| - 1], h[|h| - 1];
      assert h == g + [e];
      RowsAtHoldsExactlyTheRowsOfItsTimestamp(g, target, settings, timestamp, row);
      RowsAtStep(g, target, settings, e, timestamp);
      OriginStep(g, target, settings, e, row);
    }
  }

  /** `a` was opened before `b`, where both are of one table. */
  predicate Before(a: StackTarget, b: StackTarget) {
    a.LifecycleTarget? == b.LifecycleTarget? ==> a.index < b.index
  }

  /** Within one timestamp, the rows of each table are listed in ascending order, each once. */
  lemma {:induction false} RowsAtIsInOrder(
    h: seq<Event>, target: nat, settings: Settings, timestamp: int, i: nat, j: nat)
    requires i < j < |RowsAt(h, target, settings, timestamp)|
    ensures Before(RowsAt(h, target, settings, timestamp)[i], RowsAt(h, target, settings, timestamp)[j])
  {
    var g, e := h[..|h| - 1], h[|h| - 1];
    assert h == g + [e];
    RowsAtStep(g, target, settings, e, timestamp);
    if j < |RowsAt(g, target, settings, timestamp)| {
      RowsAtIsInOrder(g, target, settings, timestamp, i, j);
    } else {
      RowsAtHoldsExactlyTheRowsOfItsTimestamp(
        g, target, settings, timestamp, RowsAt(g, target, settings, timestamp)[i]);
    }
  }

  /** The events behind the file rows. */
  lemma {:induction false} OpenedEventsAreAtTheRowStarts(f: seq<FileIoEvent>, target: nat)
    ensures |OpenedEvents(f, target)| == |IrpHistory.RowStarts(f, target)|
    ensures forall i :: 0 <= i < |OpenedEvents(f, target)| ==>
      OpenedEvents(f, target)[i] == f[IrpHistory.RowStarts(f, target)[i]]
  {
    if f != [] {
      OpenedEventsAreAtTheRowStarts(f[..|f| - 1], target);
    }
  }

  lemma FileRowsHaveTheTargetPid(f: seq<FileIoEvent>, target: nat)
    ensures forall i :: 0 <= i < |IrpHistory.RowsAfter(f, target)| ==> IrpHistory.RowsAfter(f, target)[i].pid == target
  {
  }

  lemma {:induction false} ShownHaveTheTargetPid(h: seq<Event>, target: nat)
    ensures forall i :: 0 <= i < |TargetLifecycle(h, target)| ==> TargetLifecycle(h, target)[i].pid == target
  {
    if h != [] {
      ShownHaveTheTargetPid(h[..|h| - 1], target);
    }
  }

  // ----- Which row a StackWalk event goes to -----

  function OnThread(h: seq<Event>, target: nat, settings: Settings, rows: seq<StackTarget>,
      thread: nat): (row: Option<StackTarget>)
    requires forall r :: r in rows ==> IsRow(h, target, settings, r)
    ensures row.Some? ==> row.value in rows && OriginOf(h, target, settings, row.value).thread == thread
  {
    if rows == [] then None
    else if OriginOf(h, target, settings, rows[0]).thread == thread then Some(rows[0])
    else OnThread(h, target, settings, rows[1..], thread)
  }

  /** The first row of the stack's timestamp and thread, or else, for a target stack, the first of its timestamp. */
  function Chosen(h: seq<Event>, target: nat, settings: Settings, stack: StackWalkEvent): (row: Option<StackTarget>)
    requires forall r :: r in RowsAt(h, target, settings, stack.timestamp) ==> IsRow(h, target, settings, r)
    ensures row.Some? ==> row.value in RowsAt(h, target, settings, stack.timestamp)
  {
    var rows := RowsAt(h, target, settings, stack.timestamp);
    var onThread := OnThread(h, target, settings, rows, stack.thread);
    if onThread.Some? then onThread
    else if rows != [] && stack.process == target then Some(rows[0])
    else None
  }

  lemma {:induction false} OnThreadSplit(
    h: seq<Event>, target: nat, settings: Settings, rows: seq<StackTarget>, n: nat, thread: nat)
    requires forall r :: r in rows ==> IsRow(h, target, settings, r)
    requires n < |rows|
    requires forall i :: 0 <= i < n ==> OriginOf(h, target, settings, rows[i]).thread != thread
    requires OriginOf(h, target, settings, rows[n]).thread == thread
    ensures OnThread(h, target, settings, rows, thread) == Some(rows[n])
  {
    if n > 0 {
      assert forall i :: 0 <= i < n - 1 ==> rows[1..][i] == rows[i + 1];
      OnThreadSplit(h, target, settings, rows[1..], n - 1, thread);
    }
  }

  lemma {:induction false} OnThreadNone(
    h: seq<Event>, target: nat, settings: Settings, rows: seq<StackTarget>, thread: nat)
    requires forall r :: r in rows ==> IsRow(h, target, settings, r)
    requires forall i :: 0 <= i < |rows| ==> OriginOf(h, target, settings, rows[i]).thread != thread
    ensures OnThread(h, target, settings, rows, thread).None?
  {
    if rows != [] {
      assert forall i :: 0 <= i < |rows| - 1 ==> rows[1..][i] == rows[i + 1];
      OnThreadNone(h, target, settings, rows[1..], thread);
    }
  }

  // ----- Counters per event kind and per resolved path -----

  function CountFileKind(events: seq<FileIoEvent>, kind: FileIoKind): nat {
    if events == [] then 0
    else CountFileKind(events[..|events| - 1], kind) + if events[|events| - 1].kind == kind then 1 else 0
  }

  function CountLifecycleKind(events: seq<LifecycleEvent>, kind: LifecycleKind): nat {
    if events == [] then 0
    else CountLifecycleKind(events[..|events| - 1], kind) + if events[|events| - 1].kind == kind then 1 else 0
  }

  /** The kinds that have a counter: all but close and op_end, which never get a row. */
  const COUNTED_FILE_KINDS: seq<FileIoKind> := [
    FileName, FileCreateName, FileDeleteName, FileRundown, Create, Cleanup, Read, Write,
    SetInfo, Delete, Rename, DirEnum, Flush, QueryInfo, FsControl, DirNotify]

  function SumOfCounts(events: seq<FileIoEvent>, kinds: seq<FileIoKind>): nat {
    if kinds == [] then 0 else CountFileKind(events, kinds[0]) + SumOfCounts(events, kinds[1..])
  }

  lemma {:induction false} SumOfCountsStep(events: seq<FileIoEvent>, kinds: seq<FileIoKind>)
    requires events != []
    requires forall i, j :: 0 <= i < j < |kinds| ==> kinds[i] != kinds[j]
    ensures SumOfCounts(events, kinds) ==
      SumOfCounts(events[..|events| - 1], kinds) + if events[|events| - 1].kind in kinds then 1 else 0
  {
    if kinds != [] {
      SumOfCountsStep(events, kinds[1..]);
    }
  }

  lemma {:induction false} SumOfNone(kinds: seq<FileIoKind>)
    ensures SumOfCounts([], kinds) == 0
  {
    if kinds != [] {
      SumOfNone(kinds[1..]);
    }
  }

  /** The counts of the sixteen counted kinds add up to the number of rows. */
  lemma {:induction false} CountsAddUpToTheRows(events: seq<FileIoEvent>)
    requires forall i :: 0 <= i < |events| ==> events[i].kind != OpEnd && events[i].kind != Close
    ensures SumOfCounts(events, COUNTED_FILE_KINDS) == |events|
  {
    if events == [] {
      SumOfNone(COUNTED_FILE_KINDS);
    } else {
      CountsAddUpToTheRows(events[..|events| - 1]);
      CountedKindsAreDistinct();
      SumOfCountsStep(events, COUNTED_FILE_KINDS);
      EveryOtherKindIsCounted(events[|events| - 1].kind);
    }
  }

  lemma CountedKindsAreDistinct()
    ensures forall i, j :: 0 <= i < j < |COUNTED_FILE_KINDS| ==> COUNTED_FILE_KINDS[i] != COUNTED_FILE_KINDS[j]
  {
  }

  lemma CountedKindsAreAllButTwo()
    ensures forall k: FileIoKind :: k in COUNTED_FILE_KINDS <==> k != OpEnd && k != Close
  {
    forall k: FileIoKind | k != OpEnd && k != Close ensures k in COUNTED_FILE_KINDS {
      EveryOtherKindIsCounted(k);
    }
  }

  const LIFECYCLE_KINDS: set<LifecycleKind> := {
    ProcessStart, ProcessEnd, ThreadStart, ThreadEnd, ImageLoad, ImageUnload}

  lemma EveryLifecycleKindIsCounted()
    ensures forall k: LifecycleKind :: k in LIFECYCLE_KINDS
  {
    forall k: LifecycleKind ensures k in LIFECYCLE_KINDS {
      match k
      case ProcessStart => case ProcessEnd => case ThreadStart =>
      case ThreadEnd => case ImageLoad => case ImageUnload =>
    }
  }

  lemma EveryOtherKindIsCounted(kind: FileIoKind)
    requires kind != OpEnd && kind != Close
    ensures kind in COUNTED_FILE_KINDS
  {
    assert COUNTED_FILE_KINDS[0] == FileName && COUNTED_FILE_KINDS[1] == FileCreateName
      && COUNTED_FILE_KINDS[2] == FileDeleteName && COUNTED_FILE_KINDS[3] == FileRundown
      && COUNTED_FILE_KINDS[4] == Create && COUNTED_FILE_KINDS[5] == Cleanup
      && COUNTED_FILE_KINDS[6] == Read && COUNTED_FILE_KINDS[7] == Write
      && COUNTED_FILE_KINDS[8] == SetInfo && COUNTED_FILE_KINDS[9] == Delete
      && COUNTED_FILE_KINDS[10] == Rename && COUNTED_FILE_KINDS[11] == DirEnum
      && COUNTED_FILE_KINDS[12] == Flush && COUNTED_FILE_KINDS[13] == QueryInfo
      && COUNTED_FILE_KINDS[14] == FsControl && COUNTED_FILE_KINDS[15] == DirNotify;
  }

  /** How many rows have a path. */
  function WithPath(rows: seq<FileIoRow>): nat {
    if rows == [] then 0
    else WithPath(rows[..|rows| - 1]) + if rows[|rows| - 1].path.Some? then 1 else 0
  }

  lemma {:induction false} WithPathAppend(rows: seq<FileIoRow>, row: FileIoRow)
    ensures WithPath(rows + [row]) == WithPath(rows) + if row.path.Some? then 1 else 0
  {
    assert (rows + [row])[..|rows|] == rows;
  }

  lemma {:induction false} WithPathUpdate(rows: seq<FileIoRow>, i: nat, row: FileIoRow)
    requires i < |rows| && rows[i].path == row.path
    ensures WithPath(rows[i := row]) == WithPath(rows)
  {
    var n := |rows| - 1;
    if i < n {
      assert rows[i := row][..n] == rows[..n][i := row];
      WithPathUpdate(rows[..n], i, row);
    } else {
      assert rows[i := row][..n] == rows[..n];
    }
  }

  /** A completion leaves the path of its row alone, so an event without a row keeps the path count. */
  lemma PathCountKept(f: seq<FileIoEvent>, target: nat, e: FileIoEvent)
    requires !IrpHistory.Opens(e, target)
    ensures |IrpHistory.RowsAfter(f + [e], target)| == |IrpHistory.RowsAfter(f, target)|
    ensures WithPath(IrpHistory.RowsAfter(f + [e], target)) == WithPath(IrpHistory.RowsAfter(f, target))
  {
    hide IrpHistory.RowsAfter, IrpHistory.RowStarts, IrpHistory.Settles, IrpHistory.AcceptedCount, WithPath;
    IrpHistory.RowsStep(f, target, e);
    var rows, settled := IrpHistory.RowsAfter(f, target), IrpHistory.Settles(f, target, e);
    if settled.Some? && e.kind == OpEnd {
      var row := IrpHistory.CompletedRow(rows[settled.value], e, IrpHistory.AcceptedCount(f + [e], target));
      WithPathUpdate(rows, settled.value, row);
    }
  }

  /** Only an event that opens a row adds to the rows, and to those with a path if it resolves to one. */
  lemma PathCountStep(f: seq<FileIoEvent>, target: nat, e: FileIoEvent)
    ensures var rows, after := IrpHistory.RowsAfter(f, target), IrpHistory.RowsAfter(f + [e], target);
      if IrpHistory.Opens(e, target)
      then |after| == |rows| + 1
        && WithPath(after) == WithPath(rows) + if PathHistory.Resolved(f, target, e).0.Some? then 1 else 0
      else |after| == |rows| && WithPath(after) == WithPath(rows)
  {
    hide IrpHistory.RowsAfter, IrpHistory.RowStarts, IrpHistory.Settles, IrpHistory.AcceptedCount, WithPath,
      PathHistory.Resolved;
    if IrpHistory.Opens(e, target) {
      IrpHistory.RowsStep(f, target, e);
      WithPathAppend(IrpHistory.RowsAfter(f, target), IrpHistory.OpenedRow(f, target, e));
    } else {
      PathCountKept(f, target, e);
    }
  }
}
