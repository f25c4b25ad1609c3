/**
 * Where each StackWalk event ends up: the row it belongs to, or the parking lot and how it leaves it.
 *
 * Everything is said of the rows of a timestamp, their threads, and the records that arrive.
 */
module StackPlacement {
  import opened Wrappers
  import opened EtwEvents
  import opened EventIndex
  import opened StackHistory
  import opened StackParking
  import IrpHistory

  // ----- The row of a stack -----

  /** The row was opened by a record of the thread. */
  predicate IsOfThread(h: seq<Event>, target: nat, settings: Settings, row: StackTarget, thread: nat) {
    IsRow(h, target, settings, row) && OriginOf(h, target, settings, row).thread == thread
  }

  /**
   * The `k`-th row of the stack's timestamp takes the stack: it is the first of the stack's own thread, or
   * no row is of that thread, it is the first of all, and the stack is the target's.
   */
  predicate TakesAt(h: seq<Event>, target: nat, settings: Settings, stack: StackWalkEvent, k: nat) {
    var rows := RowsAt(h, target, settings, stack.timestamp);
    && k < |rows|
    && (|| (IsOfThread(h, target, settings, rows[k], stack.thread)
            && forall j :: 0 <= j < k ==> !IsOfThread(h, target, settings, rows[j], stack.thread))
        || (k == 0 && stack.process == target
            && forall j :: 0 <= j < |rows| ==> !IsOfThread(h, target, settings, rows[j], stack.thread)))
  }

  /** The row takes the stack. */
  ghost predicate Takes(h: seq<Event>, target: nat, settings: Settings, stack: StackWalkEvent, row: StackTarget) {
    exists k: nat :: TakesAt(h, target, settings, stack, k)
      && RowsAt(h, target, settings, stack.timestamp)[k] == row
  }

  lemma {:induction false} FirstOnThread(h: seq<Event>, target: nat, settings: Settings, rows: seq<StackTarget>,
      thread: nat) returns (k: nat)
    requires forall r :: r in rows ==> IsRow(h, target, settings, r)
    ensures k <= |rows| && forall j :: 0 <= j < k ==> !IsOfThread(h, target, settings, rows[j], thread)
    ensures k < |rows| ==> IsOfThread(h, target, settings, rows[k], thread)
    ensures OnThread(h, target, settings, rows, thread) == if k < |rows| then Some(rows[k]) else None
  {
    k := 0;
    while k < |rows| && !IsOfThread(h, target, settings, rows[k], thread)
      invariant k <= |rows| && forall j :: 0 <= j < k ==> !IsOfThread(h, target, settings, rows[j], thread)
    {
      k := k + 1;
    }
    if k < |rows| {
      OnThreadSplit(h, target, settings, rows, k, thread);
    } else {
      OnThreadNone(h, target, settings, rows, thread);
    }
  }

  lemma TakesAtMostOnce(h: seq<Event>, target: nat, settings: Settings, stack: StackWalkEvent, j: nat, k: nat)
    requires TakesAt(h, target, settings, stack, j) && TakesAt(h, target, settings, stack, k)
    ensures j == k
  {
  }

  /** A stack is given to exactly the row that takes it. */
  lemma TakerTakes(h: seq<Event>, target: nat, settings: Settings, stack: StackWalkEvent, row: StackTarget)
    ensures Taker(h, target, settings, stack) == Some(row) <==> Takes(h, target, settings, stack, row)
  {
    var rows := RowsAt(h, target, settings, stack.timestamp);
    RowsAtAreRows(h, target, settings, stack.timestamp);
    var k := FirstOnThread(h, target, settings, rows, stack.thread);
    hide IsOfThread, OnThread, RowsAt;
    var at: nat := if k < |rows| then k else 0;
    var taken := k < |rows| || (rows != [] && stack.process == target);
    assert taken ==> TakesAt(h, target, settings, stack, at);
    assert Taker(h, target, settings, stack) == if taken then Some(rows[at]) else None;
    hide Taker;
    if Takes(h, target, settings, stack, row) {
      var j: nat :| TakesAt(h, target, settings, stack, j) && rows[j] == row;
      assert taken;
      hide TakesAt;
      TakesAtMostOnce(h, target, settings, stack, j, at);
    }
  }

  /** A target stack finds a row as soon as its timestamp has one. */
  lemma TargetStackIsTaken(h: seq<Event>, target: nat, settings: Settings, stack: StackWalkEvent)
    requires stack.process == target
    ensures Taker(h, target, settings, stack).None? <==> RowsAt(h, target, settings, stack.timestamp) == []
  {
  }

  // ----- The parking lot -----

  /** Only target stacks without a row of their timestamp are parked, under that timestamp. */
  ghost predicate WellParked(h: seq<Event>, target: nat, settings: Settings, parked: Parked) {
    forall k :: k in parked ==>
      && RowsAt(h, target, settings, k) == []
      && forall i :: 0 <= i < |parked[k]| ==> parked[k][i].timestamp == k && parked[k][i].process == target
  }

  /** The record opens a row of the timestamp. */
  predicate OpensRowAt(h: seq<Event>, target: nat, settings: Settings, e: Event, k: int) {
    NewRow(h, target, settings, e).Some? && TimestampOf(e) == k
  }

  /** The record is one the processor looks at, and is later than the timestamp. */
  predicate IsPast(h: seq<Event>, target: nat, e: Event, k: int) {
    && k < TimestampOf(e)
    && ((e.Lifecycle? && e.lifecycle.pid == target)
        || (e.FileIo? && IrpHistory.Accepted(FileIoEvents(h), target, e.fileIo)))
  }

  /** The record is a target stack for which no row is there. */
  predicate WantsToPark(h: seq<Event>, target: nat, settings: Settings, e: Event) {
    e.StackWalk? && e.stackWalk.process == target && RowsAt(h, target, settings, e.stackWalk.timestamp) == []
  }

  /** 4096 timestamps are parked and the stack is of another one, so the oldest makes room for it. */
  ghost predicate IsCrowdedOut(parked: Parked, e: Event, k: int) {
    && e.StackWalk? && e.stackWalk.timestamp !in parked && |parked| >= 4096
    && forall j :: j in parked ==> k <= j
  }

  lemma RowsGrow(h: seq<Event>, target: nat, settings: Settings, e: Event, k: int)
    ensures RowsAt(h + [e], target, settings, k) ==
      if OpensRowAt(h, target, settings, e, k)
      then RowsAt(h, target, settings, k) + [NewRow(h, target, settings, e).value]
      else RowsAt(h, target, settings, k)
  {
    RowsAtStep(h, target, settings, e, k);
  }

  /** A record other than a stack, seen from one timestamp of the lot. */
  lemma RecordAndLot(h: seq<Event>, target: nat, settings: Settings, e: Event, k: int)
    requires !e.StackWalk?
    ensures var parked, after := BookOf(h, target, settings).parked, BookOf(h + [e], target, settings).parked;
      && (k in after <==>
            k in parked && !OpensRowAt(h, target, settings, e, k) && !IsPast(h, target, e, k))
      && (k in after ==> after[k] == parked[k])
  {
    BookStep(h, target, settings, e);
    hide BookOf, GivenTo, IrpHistory.Pending, IrpHistory.Ignored, FileIoEvents, TargetLifecycle, OpenedEvents;
  }

  /** A target stack without a row, seen from one timestamp of the lot. */
  lemma ParkingAndLot(parked: Parked, stack: StackWalkEvent, target: nat, k: int)
    requires stack.process == target
    ensures var after := Parking(parked, stack, target);
      && (k != stack.timestamp ==>
            (k in after <==> k in parked && !IsCrowdedOut(parked, StackWalk(stack), k))
            && (k in after ==> after[k] == parked[k]))
      && ParkedUnder(after, stack.timestamp) ==
           if |ParkedUnder(parked, stack.timestamp)| < 32
           then ParkedUnder(parked, stack.timestamp) + [stack] else ParkedUnder(parked, stack.timestamp)
  {
  }

  /** Any stack, seen from one timestamp of the lot. */
  lemma StackAndLot(h: seq<Event>, target: nat, settings: Settings, stack: StackWalkEvent, k: int)
    ensures var parked := BookOf(h, target, settings).parked;
      var after, e := BookOf(h + [StackWalk(stack)], target, settings).parked, StackWalk(stack);
      && (k != stack.timestamp ==>
            (k in after <==>
              k in parked && !(WantsToPark(h, target, settings, e) && IsCrowdedOut(parked, e, k)))
            && (k in after ==> after[k] == parked[k]))
      && ParkedUnder(after, stack.timestamp) ==
           if WantsToPark(h, target, settings, e) && |ParkedUnder(parked, stack.timestamp)| < 32
           then ParkedUnder(parked, stack.timestamp) + [stack] else ParkedUnder(parked, stack.timestamp)
  {
    var e, parked := StackWalk(stack), BookOf(h, target, settings).parked;
    BookOfStackWalk(h, target, settings, stack);
    RowsGrow(h, target, settings, e, stack.timestamp);
    if stack.process == target {
      TargetStackIsTaken(h + [e], target, settings, stack);
      ParkingAndLot(parked, stack, target, k);
      hide BookOf, RowsAt, Taker, Parking, IsCrowdedOut;
    } else {
      hide BookOf, RowsAt, Taker;
    }
  }

  /** A timestamp leaves the lot when a row opens, a later record arrives, or a newer stack crowds it out. */
  lemma LeavesTheLot(h: seq<Event>, target: nat, settings: Settings, e: Event, k: int)
    requires k in BookOf(h, target, settings).parked
    ensures var parked := BookOf(h, target, settings).parked;
      k !in BookOf(h + [e], target, settings).parked <==>
        || OpensRowAt(h, target, settings, e, k)
        || IsPast(h, target, e, k)
        || (WantsToPark(h, target, settings, e) && IsCrowdedOut(parked, e, k))
  {
    if e.StackWalk? {
      StackAndLot(h, target, settings, e.stackWalk, k);
      hide BookOf, RowsAt;
    } else {
      RecordAndLot(h, target, settings, e, k);
      hide BookOf, RowsAt;
    }
  }

  /** A target stack without a row is parked behind those of its timestamp, unless 32 are there. */
  lemma JoinsTheLot(h: seq<Event>, target: nat, settings: Settings, e: Event, k: int)
    ensures var before := ParkedUnder(BookOf(h, target, settings).parked, k);
      var after := ParkedUnder(BookOf(h + [e], target, settings).parked, k);
      if WantsToPark(h, target, settings, e) && e.stackWalk.timestamp == k && |before| < 32
      then after == before + [e.stackWalk] else after == before || after == []
  {
    if e.StackWalk? {
      StackAndLot(h, target, settings, e.stackWalk, k);
      hide BookOf, RowsAt;
    } else {
      RecordAndLot(h, target, settings, e, k);
      hide BookOf, RowsAt;
    }
  }

  lemma {:induction false} LotIsWellParked(h: seq<Event>, target: nat, settings: Settings)
    ensures WellParked(h, target, settings, BookOf(h, target, settings).parked)
  {
    if h != [] {
      var before, e := h[..|h| - 1], h[|h| - 1];
      assert h == before + [e];
      LotIsWellParked(before, target, settings);
      hide BookOf, RowsAt;
      forall k | k in BookOf(h, target, settings).parked
        ensures RowsAt(h, target, settings, k) == []
        ensures var stacks := BookOf(h, target, settings).parked[k];
          forall i :: 0 <= i < |stacks| ==> stacks[i].timestamp == k && stacks[i].process == target
      {
        StaysWellParked(before, target, settings, e, k);
      }
    }
  }

  lemma StaysWellParked(h: seq<Event>, target: nat, settings: Settings, e: Event, k: int)
    requires WellParked(h, target, settings, BookOf(h, target, settings).parked)
    requires k in BookOf(h + [e], target, settings).parked
    ensures RowsAt(h + [e], target, settings, k) == []
    ensures var stacks := BookOf(h + [e], target, settings).parked[k];
      forall i :: 0 <= i < |stacks| ==> stacks[i].timestamp == k && stacks[i].process == target
  {
    RowsGrow(h, target, settings, e, k);
    if e.StackWalk? {
      StackAndLot(h, target, settings, e.stackWalk, k);
    } else {
      RecordAndLot(h, target, settings, e, k);
    }
    hide BookOf, RowsAt;
    assert ParkedUnder(BookOf(h + [e], target, settings).parked, k) == BookOf(h + [e], target, settings).parked[k];
  }

  // ----- What is attached -----

  function AllTo(row: StackTarget, stacks: seq<StackWalkEvent>): seq<Attachment> {
    seq(|stacks|, i requires 0 <= i < |stacks| => Attachment(row, stacks[i]))
  }

  /** A stack that arrives is attached if a row takes it, and then to that row. */
  lemma StackIsAttached(h: seq<Event>, target: nat, settings: Settings, stack: StackWalkEvent)
    ensures var g := h + [StackWalk(stack)];
      var before, after := BookOf(h, target, settings).attachments, BookOf(g, target, settings).attachments;
      && (forall row :: Takes(g, target, settings, stack, row) ==> after == before + [Attachment(row, stack)])
      && ((forall row :: !Takes(g, target, settings, stack, row)) ==> after == before)
  {
    var g := h + [StackWalk(stack)];
    BookOfStackWalk(h, target, settings, stack);
    forall row
      ensures Taker(g, target, settings, stack) == Some(row) <==> Takes(g, target, settings, stack, row)
    {
      TakerTakes(g, target, settings, stack, row);
    }
    hide BookOf, Taker, Takes, Parking;
    if Taker(g, target, settings, stack).Some? {
      assert Takes(g, target, settings, stack, Taker(g, target, settings, stack).value);
    }
  }

  /** The only row of a timestamp takes every target stack of it. */
  lemma {:induction false} AllAreGiven(h: seq<Event>, target: nat, settings: Settings, stacks: seq<StackWalkEvent>,
      k: int, row: StackTarget)
    requires RowsAt(h, target, settings, k) == [row]
    requires forall i :: 0 <= i < |stacks| ==> stacks[i].timestamp == k && stacks[i].process == target
    ensures GivenTo(h, target, settings, stacks) == AllTo(row, stacks)
  {
    if stacks != [] {
      var n := |stacks| - 1;
      AllAreGiven(h, target, settings, stacks[..n], k, row);
      TargetStackIsTaken(h, target, settings, stacks[n]);
      assert Taker(h, target, settings, stacks[n]) == Some(row);
      hide Taker, RowsAt;
      assert AllTo(row, stacks) == AllTo(row, stacks[..n]) + [Attachment(row, stacks[n])];
    }
  }

  /** A record that opens a row gives it all stacks parked for its timestamp, in their order. */
  lemma RowTakesTheParked(h: seq<Event>, target: nat, settings: Settings, e: Event)
    requires !e.StackWalk?
    ensures var before, after := BookOf(h, target, settings), BookOf(h + [e], target, settings);
      after.attachments == before.attachments +
        match NewRow(h, target, settings, e)
        case Some(row) => AllTo(row, ParkedUnder(before.parked, TimestampOf(e)))
        case None => []
  {
    var book := BookOf(h, target, settings);
    BookStep(h, target, settings, e);
    LotIsWellParked(h, target, settings);
    var k := TimestampOf(e);
    RowsGrow(h, target, settings, e, k);
    assert ParkedUnder(Pruned(book.parked, k), k) == ParkedUnder(book.parked, k);
    if NewRow(h, target, settings, e).Some? {
      if k in book.parked {
        AllAreGiven(h + [e], target, settings, book.parked[k], k, NewRow(h, target, settings, e).value);
      }
    }
    hide BookOf, GivenTo, RowsAt, IrpHistory.Pending, IrpHistory.Ignored, FileIoEvents, TargetLifecycle, OpenedEvents;
    NothingGiven(h + [e], target, settings);
  }

  lemma NothingGiven(h: seq<Event>, target: nat, settings: Settings)
    ensures GivenTo(h, target, settings, []) == []
  {
  }

  lemma AttachmentsStay(h: seq<Event>, target: nat, settings: Settings, e: Event)
    ensures BookOf(h, target, settings).attachments <= BookOf(h + [e], target, settings).attachments
  {
    BookStep(h, target, settings, e);
    hide BookOf, GivenTo, Parking, Pruned, Taker, IrpHistory.Accepted, IrpHistory.Opens, FileIoEvents;
  }

  lemma {:induction false} AttachmentsGrow(h: seq<Event>, target: nat, settings: Settings, n: nat)
    requires n <= |h|
    ensures BookOf(h[..n], target, settings).attachments <= BookOf(h, target, settings).attachments
    decreases |h|
  {
    if n == |h| {
      assert h[..n] == h;
    } else {
      var g := h[..|h| - 1];
      assert g[..n] == h[..n] && h == g + [h[|h| - 1]];
      AttachmentsGrow(g, target, settings, n);
      AttachmentsStay(g, target, settings, h[|h| - 1]);
      hide BookOf;
    }
  }

  /** The attachment was right when the first `n` records had been seen. */
  ghost predicate PlacedAt(h: seq<Event>, target: nat, settings: Settings, a: Attachment, n: nat) {
    n <= |h| && Takes(h[..n], target, settings, a.stack, a.target)
  }

  /** In every history each attached stack has gone to the row that took it when it was attached. */
  lemma {:induction false} AttachmentsBelong(h: seq<Event>, target: nat, settings: Settings, i: nat)
    requires i < |BookOf(h, target, settings).attachments|
    ensures exists n: nat :: PlacedAt(h, target, settings, BookOf(h, target, settings).attachments[i], n)
    decreases |h|
  {
    assert h != [];
    var g, e := h[..|h| - 1], h[|h| - 1];
    assert h == g + [e];
    var before, after := BookOf(g, target, settings).attachments, BookOf(h, target, settings).attachments;
    AttachmentsStay(g, target, settings, e);
    hide BookOf;
    if i < |before| {
      AttachmentsBelong(g, target, settings, i);
      var n: nat :| PlacedAt(g, target, settings, before[i], n);
      assert g[..n] == h[..n];
      assert PlacedAt(h, target, settings, after[i], n);
    } else {
      assert h[..|h|] == h;
      NewAttachmentBelongs(g, target, settings, e, i);
      assert PlacedAt(h, target, settings, after[i], |h|);
    }
  }

  lemma NewAttachmentBelongs(h: seq<Event>, target: nat, settings: Settings, e: Event, i: nat)
    requires |BookOf(h, target, settings).attachments| <= i < |BookOf(h + [e], target, settings).attachments|
    ensures var a := BookOf(h + [e], target, settings).attachments[i];
      Takes(h + [e], target, settings, a.stack, a.target)
  {
    hide BookOf, Takes, RowsAt;
    if e.StackWalk? {
      StackBelongs(h, target, settings, e.stackWalk, i);
    } else {
      ParkedStackBelongs(h, target, settings, e, i);
    }
  }

  lemma StackBelongs(h: seq<Event>, target: nat, settings: Settings, stack: StackWalkEvent, i: nat)
    requires |BookOf(h, target, settings).attachments| <= i
    requires i < |BookOf(h + [StackWalk(stack)], target, settings).attachments|
    ensures var a := BookOf(h + [StackWalk(stack)], target, settings).attachments[i];
      Takes(h + [StackWalk(stack)], target, settings, a.stack, a.target)
  {
    hide BookOf, Takes, RowsAt;
    StackIsAttached(h, target, settings, stack);
    var row :| Takes(h + [StackWalk(stack)], target, settings, stack, row);
    assert BookOf(h + [StackWalk(stack)], target, settings).attachments[i] == Attachment(row, stack);
  }

  lemma ParkedStackBelongs(h: seq<Event>, target: nat, settings: Settings, e: Event, i: nat)
    requires !e.StackWalk?
    requires |BookOf(h, target, settings).attachments| <= i < |BookOf(h + [e], target, settings).attachments|
    ensures var a := BookOf(h + [e], target, settings).attachments[i];
      Takes(h + [e], target, settings, a.stack, a.target)
  {
    hide BookOf, RowsAt, IsOfThread;
    RowTakesTheParked(h, target, settings, e);
    LotIsWellParked(h, target, settings);
    RowsGrow(h, target, settings, e, TimestampOf(e));
    var a := BookOf(h + [e], target, settings).attachments[i];
    assert TakesAt(h + [e], target, settings, a.stack, 0);
  }

  /** In every history a stack that finds a row on its arrival is attached to it. */
  lemma ArrivalIsAttached(h: seq<Event>, target: nat, settings: Settings, n: nat, row: StackTarget)
    requires n < |h| && h[n].StackWalk? && Takes(h[..n + 1], target, settings, h[n].stackWalk, row)
    ensures Attachment(row, h[n].stackWalk) in BookOf(h, target, settings).attachments
  {
    assert h[..n + 1] == h[..n] + [h[n]];
    StackIsAttached(h[..n], target, settings, h[n].stackWalk);
    AttachmentsGrow(h, target, settings, n + 1);
    hide BookOf, Takes;
    var some, all := BookOf(h[..n + 1], target, settings).attachments, BookOf(h, target, settings).attachments;
    assert all[|some| - 1] == some[|some| - 1] == Attachment(row, h[n].stackWalk);
  }

  /** In every history the first row of a timestamp gets every stack parked for it. */
  lemma ParkedAreAttached(h: seq<Event>, target: nat, settings: Settings, n: nat, i: nat)
    requires n < |h| && !h[n].StackWalk? && NewRow(h[..n], target, settings, h[n]).Some?
    requires i < |ParkedUnder(BookOf(h[..n], target, settings).parked, TimestampOf(h[n]))|
    ensures Attachment(
      NewRow(h[..n], target, settings, h[n]).value,
      ParkedUnder(BookOf(h[..n], target, settings).parked, TimestampOf(h[n]))[i])
        in BookOf(h, target, settings).attachments
  {
    hide BookOf, NewRow;
    assert h[..n + 1] == h[..n] + [h[n]];
    RowTakesTheParked(h[..n], target, settings, h[n]);
    AttachmentsGrow(h, target, settings, n + 1);
    var before, all := BookOf(h[..n], target, settings).attachments, BookOf(h, target, settings).attachments;
    assert all[|before| + i] == BookOf(h[..n + 1], target, settings).attachments[|before| + i];
  }
}
