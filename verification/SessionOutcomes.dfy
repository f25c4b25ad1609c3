/**
 * What ends up in the command log and in the sessions, said of what happened outside: how each eval
 * returned, and whether the worker could be closed.
 *
 * The history functions look at the actions of a run alone.
 */
module SessionOutcomes {
  import opened Wrappers
  import opened SessionManager
  import opened SessionInvariant
  import opened SessionProperties

  // ----- What the actions of a run say about a thread -----

  /** How many commands have been issued. */
  function Issued(acts: seq<Action>): nat {
    if acts == [] then 0
    else
      var n := |acts| - 1;
      Issued(acts[..n]) + if acts[n].Step? && acts[n].move.EvalStart? then 1 else 0
  }

  /** The command the thread has issued last. */
  function CommandOf(acts: seq<Action>, tid: ThreadId): Option<CommandId> {
    if acts == [] then None
    else
      var n := |acts| - 1;
      if acts[n].Step? && acts[n].tid == tid && acts[n].move.EvalStart? then Some(Issued(acts[..n]))
      else CommandOf(acts[..n], tid)
  }

  /** When the eval of that command returned, if it has. */
  function ReturnOf(acts: seq<Action>, tid: ThreadId): (at: Option<nat>)
    ensures at.Some? ==> at.value < |acts| && acts[at.value].Step? && acts[at.value].move.EvalReturn?
  {
    if acts == [] then None
    else
      var n := |acts| - 1;
      if acts[n].Step? && acts[n].tid == tid && acts[n].move.EvalReturn? then Some(n)
      else if acts[n].Step? && acts[n].tid == tid && acts[n].move.EvalStart? then None
      else ReturnOf(acts[..n], tid)
  }

  /** How it returned. */
  function OutcomeOf(acts: seq<Action>, tid: ThreadId): Option<Outcome> {
    match ReturnOf(acts, tid)
    case Some(at) => Some(acts[at].move.outcome)
    case None => None
  }

  function LastMove(acts: seq<Action>, tid: ThreadId): Option<Move> {
    if acts == [] then None
    else
      var n := |acts| - 1;
      if acts[n].Step? && acts[n].tid == tid then Some(acts[n].move) else LastMove(acts[..n], tid)
  }

  /** Whether the worker the thread has last tried to close was closed; waiting too long is a failure. */
  function ClosedWell(acts: seq<Action>, tid: ThreadId): bool {
    acts != [] &&
    var n := |acts| - 1;
    if acts[n].Step? && acts[n].tid == tid then
      match acts[n].move
      case CloseRemove(ok) => ok
      case StartupCloseWorker(ok) => ok
      case StartupCancel => true
      case CloseExpire => false
      case _ => ClosedWell(acts[..n], tid)
    else ClosedWell(acts[..n], tid)
  }

  /** The state of a session before the `n`-th action of the run. */
  ghost function StateBefore(acts: seq<Action>, n: nat, sid: SessionId): Option<SessionState>
    requires n <= |acts|
  {
    match Exec(INITIAL, acts[..n])
    case Some(s) => if sid in s.slots then Some(s.slots[sid].session.state) else None
    case None => None
  }

  // ----- What the outcomes mean -----

  function StatusOf(o: Outcome): OperationStatus {
    if o.Success? then OpFinished else OpFailed
  }

  /** The state an eval leaves: Error unless it succeeded, then the one its target reported, or the old one. */
  function EndState(o: Outcome, was: SessionState): SessionState {
    match o
    case Failure => Error
    case ArtifactFailure => Error
    case Success(None) => was
    case Success(Some(BackendBreak)) => Break
    case Success(Some(BackendRunning)) => Running
    case Success(Some(BackendClosed)) => Closed
  }

  /**
   * The end of an eval counts unless the session is being closed or lost; in a Closed session only if the
   * eval succeeded and found the session, or its target, closed.
   */
  predicate Counts(o: Outcome, was: SessionState, atReturn: SessionState) {
    && was != Closing && was != Error
    && (was == Closed ==> o == Success(Some(BackendClosed)) || (o == Success(None) && atReturn == Closed))
  }

  // ----- The state of a run and its actions -----

  /** A thread is where its own actions have brought it. */
  ghost predicate IsTied(acts: seq<Action>, tid: ThreadId, t: Thread, x: Session) {
    && (t.Eval? && t.eval.Executing? ==> CommandOf(acts, tid) == Some(t.eval.id))
    && (t.Eval? && t.eval.Finishing? ==> IsReturned(acts, tid, t, x))
    && (t.CloseFinishing? || t.CloseRegion? ==> t.ok == ClosedWell(acts, tid))
    && (t.WorkerLost? && t.owed.Some? ==> t.owed.value.status == OpFailed)
    && (t.Writing? ==> IsExplained(acts, tid, t.record))
  }

  ghost predicate IsReturned(acts: seq<Action>, tid: ThreadId, t: Thread, x: Session)
    requires t.Eval? && t.eval.Finishing?
  {
    && CommandOf(acts, tid) == Some(t.eval.id) && ReturnOf(acts, tid).Some?
    && var o, was := OutcomeOf(acts, tid).value, StateBefore(acts, ReturnOf(acts, tid).value, t.sid);
    && was.Some? && t.eval.status == StatusOf(o) && t.eval.records == !o.ArtifactFailure?
    && t.eval.next == EndState(o, was.value)
    && (x.state == was.value || IsClosing(x.state))
  }

  /** The record says how the command ended, by the thread's own last actions. */
  predicate IsExplained(acts: seq<Action>, tid: ThreadId, r: Record) {
    match LastMove(acts, tid)
    case Some(EvalFinish) =>
      && CommandOf(acts, tid) == Some(r.id) && OutcomeOf(acts, tid).Some?
      && !OutcomeOf(acts, tid).value.ArtifactFailure? && r.status == StatusOf(OutcomeOf(acts, tid).value)
    case Some(FinishClose) => r.status == if ClosedWell(acts, tid) then OpCanceled else OpFailed
    case Some(MonitorRemove) => r.status == OpFailed
    case _ => false
  }

  ghost predicate Tied(acts: seq<Action>, s: Sys)
    requires ThreadsPlaced(s)
  {
    && s.nextId == Issued(acts)
    && forall tid :: tid in s.threads ==>
      IsTied(acts, tid, s.threads[tid], s.slots[s.threads[tid].sid].session)
  }

  // ----- One more action -----

  lemma ActionsGrow(acts: seq<Action>, a: Action, tid: ThreadId)
    ensures var more := acts + [a];
      && Issued(more) == Issued(acts) + (if a.Step? && a.move.EvalStart? then 1 else 0)
      && (!(a.Step? && a.tid == tid) ==>
            LastMove(more, tid) == LastMove(acts, tid) && CommandOf(more, tid) == CommandOf(acts, tid)
            && ReturnOf(more, tid) == ReturnOf(acts, tid) && OutcomeOf(more, tid) == OutcomeOf(acts, tid)
            && ClosedWell(more, tid) == ClosedWell(acts, tid))
  {
    assert (acts + [a])[..|acts|] == acts;
  }

  lemma OwnActionsGrow(acts: seq<Action>, tid: ThreadId, move: Move)
    ensures var more := acts + [Step(tid, move)];
      && CommandOf(more, tid) == (if move.EvalStart? then Some(Issued(acts)) else CommandOf(acts, tid))
      && ReturnOf(more, tid) == (if move.EvalReturn? then Some(|acts|) else if move.EvalStart? then None
                                 else ReturnOf(acts, tid))
      && OutcomeOf(more, tid) == (if move.EvalReturn? then Some(move.outcome) else if move.EvalStart? then None
                                  else OutcomeOf(acts, tid))
      && ClosedWell(more, tid) == (match move
          case CloseRemove(ok) => ok case StartupCloseWorker(ok) => ok
          case StartupCancel => true case CloseExpire => false
          case _ => ClosedWell(acts, tid))
      && LastMove(more, tid) == Some(move)
  {
    assert (acts + [Step(tid, move)])[..|acts|] == acts;
  }

  lemma {:induction false} ExecLast(s: Sys, acts: seq<Action>, r: Sys) returns (m: Sys)
    requires acts != [] && Exec(s, acts) == Some(r)
    ensures Exec(s, acts[..|acts| - 1]) == Some(m) && Do(m, acts[|acts| - 1]) == Some(r)
    decreases |acts|
  {
    hide Do;
    if |acts| == 1 {
      m := s;
    } else {
      var n := Do(s, acts[0]).value;
      m := ExecLast(n, acts[1..], r);
      assert acts[1..][..|acts| - 2] == acts[..|acts| - 1][1..];
    }
  }

  // ----- One step of a thread -----

  lemma StartupTied(acts: seq<Action>, tid: ThreadId, move: Move, t: Thread, slot: Slot, e: Effect)
    requires t.CreateTail? || t.Startup?
    requires TakeStartup(tid, move, t, slot) == Some(e) && e.next.Some?
    ensures IsTied(acts + [Step(tid, move)], tid, e.next.value, e.slot.session)
  {
    OwnActionsGrow(acts, tid, move);
    hide CommandOf, ReturnOf, OutcomeOf, ClosedWell, LastMove, IsExplained, IsReturned;
  }

  lemma EvalTied(acts: seq<Action>, tid: ThreadId, move: Move, t: Thread, slot: Slot, nextId: CommandId, e: Effect)
    requires t.Eval? && TakeEval(tid, move, t, slot, nextId) == Some(e) && e.next.Some?
    requires nextId == Issued(acts) && IsTied(acts, tid, t, slot.session)
    requires StateBefore(acts, |acts|, t.sid) == Some(slot.session.state)
    requires forall n :: 0 <= n <= |acts| ==>
      StateBefore(acts + [Step(tid, move)], n, t.sid) == StateBefore(acts, n, t.sid)
    ensures IsTied(acts + [Step(tid, move)], tid, e.next.value, e.slot.session)
  {
    OwnActionsGrow(acts, tid, move);
    hide CommandOf, ReturnOf, ClosedWell, LastMove, StateBefore, Issued;
  }

  lemma OtherTied(acts: seq<Action>, tid: ThreadId, move: Move, t: Thread, slot: Slot, e: Effect)
    requires !t.CreateTail? && !t.Startup? && !t.Eval?
    requires TakeOther(tid, move, t, slot) == Some(e) && e.next.Some? && IsTied(acts, tid, t, slot.session)
    ensures IsTied(acts + [Step(tid, move)], tid, e.next.value, e.slot.session)
  {
    OwnActionsGrow(acts, tid, move);
    hide CommandOf, ReturnOf, OutcomeOf, ClosedWell, LastMove, IsReturned;
  }

  lemma LocalTied(acts: seq<Action>, tid: ThreadId, move: Move, t: Thread, slot: Slot, nextId: CommandId, e: Effect)
    requires Take(tid, move, t, slot, nextId) == Some(e) && e.next.Some?
    requires nextId == Issued(acts) && IsTied(acts, tid, t, slot.session)
    requires StateBefore(acts, |acts|, t.sid) == Some(slot.session.state)
    ensures IsTied(acts + [Step(tid, move)], tid, e.next.value, e.slot.session)
  {
    forall n | 0 <= n <= |acts|
      ensures StateBefore(acts + [Step(tid, move)], n, t.sid) == StateBefore(acts, n, t.sid)
    {
      EarlierStates(acts, Step(tid, move), n, t.sid);
    }
    hide TakeStartup, TakeEval, TakeOther, IsTied, StateBefore;
    if t.CreateTail? || t.Startup? {
      StartupTied(acts, tid, move, t, slot, e);
    } else if t.Eval? {
      EvalTied(acts, tid, move, t, slot, nextId, e);
    } else {
      OtherTied(acts, tid, move, t, slot, e);
    }
  }

  lemma EarlierStates(acts: seq<Action>, a: Action, n: nat, sid: SessionId)
    requires n <= |acts|
    ensures StateBefore(acts + [a], n, sid) == StateBefore(acts, n, sid)
  {
    assert (acts + [a])[..n] == acts[..n];
  }

  // ----- What one step leaves to the eval inside the lock -----

  /** Outside the lock, a step of an attached session can only close or lose it. */
  predicate OnlyCloses(t: Thread, x: Session, y: Session) {
    !Holds(t) && x.attached ==> y.state == x.state || IsClosing(y.state)
  }

  lemma StartupOnlyCloses(tid: ThreadId, move: Move, t: Thread, slot: Slot, nextId: CommandId, e: Effect)
    requires t.CreateTail? || t.Startup?
    requires TakeStartup(tid, move, t, slot) == Some(e) && Before(tid, t, slot, nextId)
    ensures OnlyCloses(t, slot.session, e.slot.session)
  {
  }

  lemma EvalOnlyCloses(tid: ThreadId, move: Move, t: Thread, slot: Slot, nextId: CommandId, e: Effect)
    requires t.Eval? && TakeEval(tid, move, t, slot, nextId) == Some(e)
    ensures OnlyCloses(t, slot.session, e.slot.session)
  {
  }

  lemma OtherOnlyCloses(tid: ThreadId, move: Move, t: Thread, slot: Slot, e: Effect)
    requires !t.CreateTail? && !t.Startup? && !t.Eval? && TakeOther(tid, move, t, slot) == Some(e)
    ensures OnlyCloses(t, slot.session, e.slot.session)
  {
  }

  lemma LocalOnlyCloses(tid: ThreadId, move: Move, t: Thread, slot: Slot, nextId: CommandId, e: Effect)
    requires Take(tid, move, t, slot, nextId) == Some(e) && Before(tid, t, slot, nextId)
    ensures OnlyCloses(t, slot.session, e.slot.session)
  {
    hide TakeStartup, TakeEval, TakeOther, Before, OnlyCloses;
    if t.CreateTail? || t.Startup? {
      StartupOnlyCloses(tid, move, t, slot, nextId, e);
    } else if t.Eval? {
      EvalOnlyCloses(tid, move, t, slot, nextId, e);
    } else {
      OtherOnlyCloses(tid, move, t, slot, e);
    }
  }

  /** Another thread stays tied while its session is left as it is, or closed or lost. */
  lemma StaysTied(acts: seq<Action>, a: Action, u: ThreadId, t: Thread, x: Session, y: Session)
    requires IsTied(acts, u, t, x) && !(a.Step? && a.tid == u)
    requires t.Eval? && t.eval.Finishing? ==> y.state == x.state || IsClosing(y.state)
    ensures IsTied(acts + [a], u, t, y)
  {
    ActionsGrow(acts, a, u);
    if t.Eval? && t.eval.Finishing? {
      EarlierStates(acts, a, ReturnOf(acts, u).value, t.sid);
    }
    hide CommandOf, ReturnOf, ClosedWell, LastMove, StateBefore, Issued;
  }

  // ----- Runs -----

  lemma OtherThreadTied(acts: seq<Action>, s: Sys, tid: ThreadId, move: Move, e: Effect, u: ThreadId)
    requires Inv(s) && ThreadsPlaced(s) && Tied(acts, s) && Stepping(s, tid, e) && u in s.threads && u != tid
    requires Take(tid, move, s.threads[tid], s.slots[s.threads[tid].sid], s.nextId) == Some(e)
    ensures s.threads[u].sid in Stepped(s, tid, e).slots
    ensures IsTied(acts + [Step(tid, move)], u, s.threads[u], Stepped(s, tid, e).slots[s.threads[u].sid].session)
  {
    var t, x, y := s.threads[u], s.slots[s.threads[u].sid].session, Stepped(s, tid, e).slots[s.threads[u].sid].session;
    BeforeStep(s, u);
    BeforeStep(s, tid);
    assert LocksAgree(s);
    hide Inv, Take, Stepping, IsTied;
    if t.sid == s.threads[tid].sid && t.Eval? && t.eval.Finishing? {
      HolderIsAlone(s, tid, u);
      LocalOnlyCloses(tid, move, s.threads[tid], s.slots[t.sid], s.nextId, e);
    }
    hide Before;
    StaysTied(acts, Step(tid, move), u, t, x, y);
  }

  lemma TiedAfterStep(acts: seq<Action>, s: Sys, a: Action, r: Sys)
    requires Exec(INITIAL, acts) == Some(s) && Inv(s) && ThreadsPlaced(s) && Tied(acts, s)
    requires a.Step? && Do(s, a) == Some(r) && ThreadsPlaced(r)
    ensures Tied(acts + [a], r)
  {
    hide Inv, Take, Stepping, IsTied;
    var e := EffectOf(s, a, r);
    assert acts[..|acts|] == acts;
    assert StateBefore(acts, |acts|, s.threads[a.tid].sid) == Some(s.slots[s.threads[a.tid].sid].session.state);
    IssuesAreStarts(a.tid, a.move, s.threads[a.tid], s.slots[s.threads[a.tid].sid], s.nextId, e);
    ActionsGrow(acts, a, a.tid);
    StepSettles(s, a.tid, e);
    hide Do, Inv, Take, Exec, Stepping, IsTied, StateBefore;
    forall u | u in r.threads
      ensures IsTied(acts + [a], u, r.threads[u], r.slots[r.threads[u].sid].session)
    {
      if u in s.threads && u != a.tid {
        OtherThreadTied(acts, s, a.tid, a.move, e, u);
      } else if u == a.tid {
        LocalTied(acts, a.tid, a.move, s.threads[a.tid], s.slots[s.threads[a.tid].sid], s.nextId, e);
      } else {
        FreshIsTied(acts + [a], u, r.threads[u], r.slots[r.threads[u].sid].session);
      }
    }
  }

  lemma IssuesAreStarts(tid: ThreadId, move: Move, t: Thread, slot: Slot, nextId: CommandId, e: Effect)
    requires Take(tid, move, t, slot, nextId) == Some(e)
    ensures e.issues <==> move.EvalStart?
  {
    hide TakeStartup, TakeEval, TakeOther;
    if t.CreateTail? || t.Startup? {
      StartupIssuesNothing(tid, move, t, slot, e);
    } else if t.Eval? {
      EvalIssues(tid, move, t, slot, nextId, e);
    } else {
      OtherIssuesNothing(tid, move, t, slot, e);
    }
  }

  lemma StartupIssuesNothing(tid: ThreadId, move: Move, t: Thread, slot: Slot, e: Effect)
    requires (t.CreateTail? || t.Startup?) && TakeStartup(tid, move, t, slot) == Some(e)
    ensures !e.issues && !move.EvalStart? && !move.EvalFinish? && !move.FinishClose?
  {
  }

  lemma EvalIssues(tid: ThreadId, move: Move, t: Thread, slot: Slot, nextId: CommandId, e: Effect)
    requires t.Eval? && TakeEval(tid, move, t, slot, nextId) == Some(e)
    ensures (e.issues <==> move.EvalStart?) && (move.EvalFinish? ==> t.eval.Finishing?) && !move.FinishClose?
  {
  }

  lemma OtherIssuesNothing(tid: ThreadId, move: Move, t: Thread, slot: Slot, e: Effect)
    requires !t.CreateTail? && !t.Startup? && !t.Eval? && TakeOther(tid, move, t, slot) == Some(e)
    ensures !e.issues && !move.EvalStart? && !move.EvalFinish? && (move.FinishClose? ==> t.CloseRegion?)
  {
  }

  lemma MovesOf(tid: ThreadId, move: Move, t: Thread, slot: Slot, nextId: CommandId, e: Effect)
    requires Take(tid, move, t, slot, nextId) == Some(e)
    ensures move.EvalFinish? ==> t.Eval? && t.eval.Finishing?
    ensures move.FinishClose? ==> t.CloseRegion?
  {
    hide TakeStartup, TakeEval, TakeOther;
    if t.CreateTail? || t.Startup? {
      StartupIssuesNothing(tid, move, t, slot, e);
    } else if t.Eval? {
      EvalIssues(tid, move, t, slot, nextId, e);
    } else {
      OtherIssuesNothing(tid, move, t, slot, e);
    }
  }

  lemma FreshIsTied(acts: seq<Action>, tid: ThreadId, t: Thread, x: Session)
    requires t.CreateTail? || t.CloseCalled? || t.Watching? || (t.Eval? && t.eval == EvalWait)
    ensures IsTied(acts, tid, t, x)
  {
  }

  lemma TiedAfterCall(acts: seq<Action>, s: Sys, a: Action, r: Sys)
    requires ThreadsPlaced(s) && Tied(acts, s) && !a.Step? && Do(s, a) == Some(r) && ThreadsPlaced(r)
    ensures Tied(acts + [a], r)
  {
    CallEffect(s, a, r);
    NewCaller(s, a, r);
    ActionsGrow(acts, a, 0);
    hide Do, IsTied, Holds, Executes, IsCloser, Owes, IsPending;
    forall u | u in r.threads
      ensures IsTied(acts + [a], u, r.threads[u], r.slots[r.threads[u].sid].session)
    {
      if u in s.threads {
        StaysTied(acts, a, u, s.threads[u], s.slots[s.threads[u].sid].session, r.slots[s.threads[u].sid].session);
      } else {
        FreshIsTied(acts + [a], u, r.threads[u], r.slots[r.threads[u].sid].session);
      }
    }
  }

  lemma NewCaller(s: Sys, a: Action, r: Sys)
    requires !a.Step? && Do(s, a) == Some(r)
    ensures forall u :: u in r.threads && u !in s.threads ==>
      r.threads[u].CreateTail? || r.threads[u].CloseCalled? || (r.threads[u].Eval? && r.threads[u].eval == EvalWait)
  {
    hide HasReusable;
  }

  lemma StartIsTied()
    ensures ThreadsPlaced(INITIAL) && Tied([], INITIAL)
  {
  }

  lemma NoActions(r: Sys)
    requires Exec(INITIAL, []) == Some(r)
    ensures r == INITIAL
  {
  }

  /** In every run each thread is where its own actions have brought it. */
  lemma {:induction false} RunIsTied(acts: seq<Action>, r: Sys)
    requires Exec(INITIAL, acts) == Some(r)
    ensures Inv(r) && ThreadsPlaced(r) && Tied(acts, r)
    decreases |acts|
  {
    hide Do, Exec, Inv, ThreadsPlaced, Tied;
    InvInitially();
    InvOfRun(INITIAL, acts, r);
    PlacedByInv(r);
    if acts == [] {
      NoActions(r);
      StartIsTied();
    } else {
      var n, a := |acts| - 1, acts[|acts| - 1];
      var s := ExecLast(INITIAL, acts, r);
      RunIsTied(acts[..n], s);
      assert acts == acts[..n] + [a];
      if a.Step? {
        TiedAfterStep(acts[..n], s, a, r);
      } else {
        TiedAfterCall(acts[..n], s, a, r);
      }
    }
  }

  lemma PlacedByInv(s: Sys)
    requires Inv(s)
    ensures ThreadsPlaced(s)
  {
    hide LocksAgree, ThreadsPlaced, SessionsOk, ThreadsOk, ClosersApart, IdsApart, LiveHeld, RecordsKnown, NothingLost;
  }

  // ----- What is recorded and shown -----

  /**
   * In every run, a record written after the end of an eval is about the eval's command, and says Finished
   * if and only if the eval returned with success, and Failed if and only if it returned with a failure;
   * an eval whose output could not be stored never writes one.
   */
  lemma EvalRecordSaysOutcome(acts: seq<Action>, s: Sys, tid: ThreadId, r: Sys)
    requires Exec(INITIAL, acts) == Some(s) && Do(s, Step(tid, Write)) == Some(r)
    requires LastMove(acts, tid) == Some(EvalFinish)
    ensures CommandOf(acts, tid).Some? && OutcomeOf(acts, tid).Some? && |r.log| == |s.log| + 1
    ensures var o, x := OutcomeOf(acts, tid).value, r.log[|s.log|];
      && r.log == s.log + [x] && x.id == CommandOf(acts, tid).value && !o.ArtifactFailure?
      && (x.status == OpFinished <==> o.Success?) && (x.status == OpFailed <==> o.Failure?)
  {
    RunIsTied(acts, s);
    WritersOnly(s, tid, r);
    assert IsTied(acts, tid, s.threads[tid], s.slots[s.threads[tid].sid].session);
    hide Do, Exec, Inv;
  }

  lemma WritersOnly(s: Sys, tid: ThreadId, r: Sys)
    requires Do(s, Step(tid, Write)) == Some(r)
    ensures tid in s.threads && s.threads[tid].sid in s.slots && s.threads[tid].Writing?
    ensures r.log == s.log + [s.threads[tid].record]
  {
  }

  /** A close records Canceled if the worker was closed and Failed otherwise; a lost worker records Failed. */
  lemma OtherRecordsSayOutcome(acts: seq<Action>, s: Sys, tid: ThreadId, r: Sys)
    requires Exec(INITIAL, acts) == Some(s) && Do(s, Step(tid, Write)) == Some(r)
    requires LastMove(acts, tid) != Some(EvalFinish)
    ensures LastMove(acts, tid) == Some(FinishClose) || LastMove(acts, tid) == Some(MonitorRemove)
    ensures |r.log| == |s.log| + 1
    ensures var x := r.log[|s.log|];
      && r.log == s.log + [x]
      && (LastMove(acts, tid) == Some(FinishClose) ==>
            (x.status == OpCanceled <==> ClosedWell(acts, tid)) && (x.status == OpFailed <==> !ClosedWell(acts, tid)))
      && (LastMove(acts, tid) == Some(MonitorRemove) ==> x.status == OpFailed)
  {
    RunIsTied(acts, s);
    WritersOnly(s, tid, r);
    assert IsTied(acts, tid, s.threads[tid], s.slots[s.threads[tid].sid].session);
    hide Do, Exec, Inv;
  }

  /**
   * In every run, the end of an eval that counts leaves its session in the state its outcome calls for and
   * gives the last operation its status, and then its record is due unless its output was not stored; an
   * end that does not count leaves the session alone and records nothing.
   */
  lemma EvalFinishSaysOutcome(acts: seq<Action>, s: Sys, tid: ThreadId, r: Sys)
    requires Exec(INITIAL, acts) == Some(s) && Do(s, Step(tid, EvalFinish)) == Some(r)
    ensures tid in s.threads && s.threads[tid].sid in s.slots && s.threads[tid].sid in r.slots && r.log == s.log
    ensures ReturnOf(acts, tid).Some? && StateBefore(acts, ReturnOf(acts, tid).value, s.threads[tid].sid).Some?
    ensures var x, y := s.slots[s.threads[tid].sid].session, r.slots[s.threads[tid].sid].session;
      var o, was := OutcomeOf(acts, tid).value, StateBefore(acts, ReturnOf(acts, tid).value, s.threads[tid].sid).value;
      if Counts(o, x.state, was) then
        && y.state == EndState(o, x.state) && !y.current && y.target == x.target && y.attached == x.attached
        && (x.last.None? ==> y.last == None)
        && (x.last.Some? ==> y.last == Some(Operation(x.last.value.id, if o.Success? then OpFinished else OpFailed)))
        && (Do(r, Step(tid, Write)).Some? <==> !o.ArtifactFailure?)
      else y == x && tid !in r.threads
  {
    hide Do, Exec, Inv, CommandOf, ReturnOf, StateBefore;
    RunIsTied(acts, s);
    FinishIs(s, tid, r);
    assert IsTied(acts, tid, s.threads[tid], s.slots[s.threads[tid].sid].session);
    WriteIsDue(r, tid);
  }

  lemma WriteIsDue(s: Sys, tid: ThreadId)
    requires tid in s.threads ==> s.threads[tid].Writing? && s.threads[tid].sid in s.slots
    ensures Do(s, Step(tid, Write)).Some? <==> tid in s.threads
  {
  }

  /** `finish_operation`, as a step of its thread. */
  lemma FinishIs(s: Sys, tid: ThreadId, r: Sys)
    requires Do(s, Step(tid, EvalFinish)) == Some(r)
    ensures tid in s.threads && s.threads[tid].sid in s.slots && s.threads[tid].Eval? && s.threads[tid].eval.Finishing?
    ensures r.log == s.log && s.threads[tid].sid in r.slots
    ensures var t := s.threads[tid].eval;
      var x, y := s.slots[s.threads[tid].sid].session, r.slots[s.threads[tid].sid].session;
      if FinishApplies(x.state, t.next, t.status) then
        && y == x.(state := t.next, current := false, last := y.last)
        && y.last == (if x.last.Some? then Some(x.last.value.(status := t.status)) else None)
        && (tid in r.threads <==> t.records)
        && (t.records ==> r.threads[tid] == Writing(s.threads[tid].sid, Record(t.id, t.status), true))
      else y == x && tid !in r.threads
  {
    hide TakeStartup, TakeOther;
    var t, slot := s.threads[tid], s.slots[s.threads[tid].sid];
    MovesOf(tid, EvalFinish, t, slot, s.nextId, Take(tid, EvalFinish, t, slot, s.nextId).value);
  }

  /** In every run, the end of a close leaves its session Closed if the worker was closed and Error otherwise. */
  lemma FinishCloseSaysOutcome(acts: seq<Action>, s: Sys, tid: ThreadId, r: Sys)
    requires Exec(INITIAL, acts) == Some(s) && Do(s, Step(tid, FinishClose)) == Some(r)
    ensures tid in s.threads && s.threads[tid].sid in r.slots
    ensures var y := r.slots[s.threads[tid].sid].session;
      && (y.state == Closed <==> ClosedWell(acts, tid)) && (y.state == Error <==> !ClosedWell(acts, tid))
      && !HasLive(y)
  {
    hide Do, Exec, Inv, ClosedWell;
    RunIsTied(acts, s);
    CloseIs(s, tid, r);
    assert IsTied(acts, tid, s.threads[tid], s.slots[s.threads[tid].sid].session);
  }

  lemma CloseIs(s: Sys, tid: ThreadId, r: Sys)
    requires Do(s, Step(tid, FinishClose)) == Some(r)
    ensures tid in s.threads && s.threads[tid].sid in s.slots && s.threads[tid].CloseRegion?
    ensures s.threads[tid].sid in r.slots && !HasLive(r.slots[s.threads[tid].sid].session)
    ensures r.slots[s.threads[tid].sid].session.state == if s.threads[tid].ok then Closed else Error
  {
    hide TakeStartup, TakeEval;
    var t, slot := s.threads[tid], s.slots[s.threads[tid].sid];
    MovesOf(tid, FinishClose, t, slot, s.nextId, Take(tid, FinishClose, t, slot, s.nextId).value);
  }
}
