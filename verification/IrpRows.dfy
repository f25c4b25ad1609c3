/** What the rows of a history of file events say, in terms of the events alone. */
module IrpRows {
  import opened Wrappers
  import opened EtwEvents
  import PathHistory
  import opened IrpHistory

  /** The rows are the begin events of the target, in order of arrival. */
  lemma {:induction false} RowsAreTheBegins(f: seq<FileIoEvent>, target: nat, p: nat)
    ensures p in RowStarts(f, target) <==>
      p < |f| && f[p].pid == target && f[p].kind != OpEnd && f[p].kind != Close
    ensures forall i, j :: 0 <= i < j < |RowStarts(f, target)| ==> RowStarts(f, target)[i] < RowStarts(f, target)[j]
  {
    if f != [] {
      RowsAreTheBegins(f[..|f| - 1], target, p);
    }
  }

  lemma {:induction false} RowsBefore(f: seq<FileIoEvent>, target: nat, i: nat)
    requires i < |RowStarts(f, target)|
    ensures |RowStarts(f[..RowStarts(f, target)[i]], target)| == i
  {
    var g := f[..|f| - 1];
    if i < |RowStarts(g, target)| {
      RowsBefore(g, target, i);
      var start := RowStarts(g, target)[i];
      assert g[..start] == f[..start];
    }
  }

  /** The first event after `start` about the IRP of the begin there, and that event is its OpEnd. */
  ghost predicate Answers(f: seq<FileIoEvent>, target: nat, start: nat, at: nat)
    requires start < |f|
  {
    && start < at < |f| && f[start].irp.Some? && f[at].kind == OpEnd && f[at].irp == f[start].irp
    && forall k :: start < k < at ==> !Names(f[k], target, f[start].irp.value)
  }

  /**
   * A row numbers and repeats its begin, with the path resolved at that moment.  The OpEnd that answers the
   * begin supplies the completion, and supplies the status and the extra information if it has them; without
   * such an OpEnd both are the begin's own, and there is no completion.
   */
  lemma RowTellsItsEvents(f: seq<FileIoEvent>, target: nat, i: nat)
    requires i < |RowStarts(f, target)|
    ensures var start := RowStarts(f, target)[i];
      var e, row := f[start], RowAfter(f, target, i);
      && row.sequence == i + 1 && row.kind == e.kind && row.pid == e.pid && row.thread == e.thread
      && (row.path, row.pathSource) == PathHistory.Resolved(f[..start], target, e)
      && row.fileObject == e.fileObject && row.fileKey == e.fileKey && row.irp == e.irp && row.details == e.details
      && (forall at: nat :: Answers(f, target, start, at) ==>
            && row.extraInfo == (if f[at].extraInfo.Some? then f[at].extraInfo else e.extraInfo)
            && row.ntStatus == (if f[at].ntStatus.Some? then f[at].ntStatus else e.ntStatus)
            && row.completion.Some?
            && row.completion.value.pid == f[at].pid && row.completion.value.thread == f[at].thread)
      && ((forall at: nat :: !Answers(f, target, start, at)) ==>
            row.extraInfo == e.extraInfo && row.ntStatus == e.ntStatus && row.completion.None?)
  {
    var start := RowStarts(f, target)[i];
    RowsBefore(f, target, i);
    var done := CompletedAt(f, target, start);
    forall at: nat
      ensures Answers(f, target, start, at) <==> done == Some(at)
    {
      if f[start].irp.Some? {
        CompletionLandsOnTheLatestBegin(f, target, start, at);
      }
    }
  }

  /** The last event about the IRP is the target begin at `b`. */
  ghost predicate EndsInBegin(f: seq<FileIoEvent>, target: nat, irp: u64, b: nat) {
    && b < |f| && Opens(f[b], target) && f[b].irp == Some(irp)
    && forall n :: b < n < |f| ==> !Names(f[n], target, irp)
  }

  /** Seen from its end, a history has a pending row iff the last event about the IRP is a begin. */
  lemma {:induction false} PendingIsALastBegin(f: seq<FileIoEvent>, target: nat, irp: u64)
    ensures Pending(f, target, irp).Some? <==> exists b :: EndsInBegin(f, target, irp, b)
  {
    if f != [] {
      var m := |f| - 1;
      var g := f[..m];
      PendingIsALastBegin(g, target, irp);
      if Names(f[m], target, irp) {
        assert Opens(f[m], target) ==> EndsInBegin(f, target, irp, m);
      } else {
        forall b: nat
          ensures EndsInBegin(f, target, irp, b) <==> EndsInBegin(g, target, irp, b)
        {
          assert b < m ==> g[b] == f[b];
          assert forall n :: b < n < m ==> g[n] == f[n];
        }
      }
    }
  }

  /** The last event about the IRP is a target begin, and it came after position `j`. */
  ghost predicate BeganSince(f: seq<FileIoEvent>, target: nat, irp: u64, j: nat) {
    exists b :: b > j && EndsInBegin(f, target, irp, b)
  }

  predicate IsCloseOf(e: FileIoEvent, target: nat, irp: u64) {
    e.pid == target && e.kind == Close && e.irp == Some(irp)
  }

  /**
   * The target close at `j` still waits for the OpEnd that it makes the processor swallow: each OpEnd of its IRP
   * since then was the answer to a begin made since then.
   */
  ghost predicate Waits(f: seq<FileIoEvent>, target: nat, irp: u64, j: nat) {
    && j < |f| && IsCloseOf(f[j], target, irp)
    && forall k :: j < k < |f| && f[k].kind == OpEnd && f[k].irp == Some(irp) ==> BeganSince(f[..k], target, irp, j)
  }

  lemma PendingBeganSince(f: seq<FileIoEvent>, target: nat, irp: u64, j: nat)
    requires j < |f| && IsCloseOf(f[j], target, irp)
    ensures BeganSince(f, target, irp, j) <==> Pending(f, target, irp).Some?
  {
    PendingIsALastBegin(f, target, irp);
    assert Names(f[j], target, irp);
    assert forall b: nat :: EndsInBegin(f, target, irp, b) ==> b > j;
  }

  lemma WaitsStep(f: seq<FileIoEvent>, target: nat, irp: u64, e: FileIoEvent, j: nat)
    requires j < |f|
    ensures Waits(f + [e], target, irp, j) <==>
      Waits(f, target, irp, j) && (e.kind == OpEnd && e.irp == Some(irp) ==> Pending(f, target, irp).Some?)
  {
    var after := f + [e];
    assert after[..|f|] == f;
    assert forall k :: 0 <= k < |f| ==> after[k] == f[k] && after[..k] == f[..k];
    if IsCloseOf(f[j], target, irp) {
      PendingBeganSince(f, target, irp, j);
    }
    hide Pending, BeganSince, IsCloseOf;
  }

  /** The next OpEnd of an IRP that answers no begin is swallowed iff a close of that IRP still waits for one. */
  lemma {:induction false} SwallowedOnlyForAClose(f: seq<FileIoEvent>, target: nat, irp: u64)
    ensures Ignored(f, target, irp) <==> exists j :: Waits(f, target, irp, j)
  {
    if f != [] {
      var m := |f| - 1;
      var g, e := f[..m], f[m];
      assert f == g + [e];
      SwallowedOnlyForAClose(g, target, irp);
      IgnoredStep(g, target, e, irp);
      forall j: nat | j < m
        ensures Waits(f, target, irp, j) <==>
          Waits(g, target, irp, j) && (e.kind == OpEnd && e.irp == Some(irp) ==> Pending(g, target, irp).Some?)
      {
        WaitsStep(g, target, irp, e, j);
      }
      hide Ignored, Pending;
      if IsCloseOf(e, target, irp) {
        assert Waits(f, target, irp, m);
      }
    }
  }

  /**
   * An OpEnd is looked at iff it is the target's own, or answers a begin, or a close waits for it; and it counts
   * as unmatched iff it is the target's own and neither of the others.
   */
  lemma AcceptedOpEnds(f: seq<FileIoEvent>, target: nat, e: FileIoEvent)
    requires e.kind == OpEnd
    ensures var answering := e.irp.Some? && exists b :: EndsInBegin(f, target, e.irp.value, b);
      var swallowed := e.irp.Some? && exists j :: Waits(f, target, e.irp.value, j);
      && (Accepted(f, target, e) <==> e.pid == target || answering || swallowed)
      && (Unanswering(f, target, e) <==> e.pid == target && !answering && !swallowed)
  {
    if e.irp.Some? {
      PendingIsALastBegin(f, target, e.irp.value);
      SwallowedOnlyForAClose(f, target, e.irp.value);
    }
  }
}
