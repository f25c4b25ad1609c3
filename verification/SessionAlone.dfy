/** What each operation on a session comes to when no other thread takes a step on that session meanwhile. */
module SessionAlone {
  import opened Wrappers
  import opened SessionManager
  import opened SessionProperties

  /** A thread and its session's slot, with the records it has written, and the next command id. */
  datatype Scene = Scene(slot: Slot, thread: Option<Thread>, log: seq<Record>, nextId: CommandId)

  function Next(tid: ThreadId, scene: Scene, move: Move): Option<Scene> {
    if scene.thread.None? then None
    else match Take(tid, move, scene.thread.value, scene.slot, scene.nextId)
      case None => None
      case Some(e) => Some(Scene(
        e.slot, e.next, if e.writes.Some? then scene.log + [e.writes.value] else scene.log,
        if e.issues then scene.nextId + 1 else scene.nextId))
  }

  /** The thread makes the first `n` of these moves, one after the other. */
  function Play(tid: ThreadId, scene: Scene, moves: seq<Move>, n: nat): Option<Scene>
    requires n <= |moves|
    decreases n
  {
    if n == 0 then Some(scene)
    else match Play(tid, scene, moves, n - 1)
      case None => None
      case Some(s) => Next(tid, s, moves[n - 1])
  }

  /** After the first `n` moves, the thread goes on from where they have brought it. */
  lemma {:induction false} PlayOn(tid: ThreadId, scene: Scene, moves: seq<Move>, n: nat, mid: Scene, k: nat)
    requires n + k <= |moves| && Play(tid, scene, moves, n) == Some(mid)
    ensures Play(tid, scene, moves, n + k) == Play(tid, mid, moves[n..], k)
    decreases k
  {
    hide Next;
    if k > 0 {
      PlayOn(tid, scene, moves, n, mid, k - 1);
    }
  }

  function Steps(tid: ThreadId, moves: seq<Move>): (acts: seq<Action>)
    ensures |acts| == |moves|
  {
    seq(|moves|, i requires 0 <= i < |moves| => Step(tid, moves[i]))
  }

  /** The moves of a thread start no monitor under a number that is taken. */
  predicate AreFree(s: Sys, tid: ThreadId, moves: seq<Move>) {
    forall i :: 0 <= i < |moves| && moves[i].StartupMonitor? ==>
      moves[i].monitor !in s.threads && moves[i].monitor != tid
  }

  /** The thread's own scene in a state. */
  function SceneIn(s: Sys, tid: ThreadId): Scene
    requires tid in s.threads && s.threads[tid].sid in s.slots
  {
    Scene(s.slots[s.threads[tid].sid], Some(s.threads[tid]), s.log, s.nextId)
  }

  /** The state with the thread's scene put in, and perhaps a monitor started when the thread ends. */
  predicate IsSet(s: Sys, tid: ThreadId, scene: Scene, r: Sys)
    requires tid in s.threads
  {
    var sid := s.threads[tid].sid;
    && r.slots == s.slots[sid := scene.slot] && r.log == scene.log && r.nextId == scene.nextId
    && (match scene.thread
        case Some(t) => r.threads == s.threads[tid := t] && t.sid == sid
        case None => tid !in r.threads)
    && forall u :: u in s.threads && u != tid ==> u in r.threads && r.threads[u] == s.threads[u]
  }

  lemma StartupStaysWithItsSession(tid: ThreadId, move: Move, t: Thread, slot: Slot, e: Effect)
    requires (t.CreateTail? || t.Startup?) && TakeStartup(tid, move, t, slot) == Some(e)
    ensures e.next.Some? ==> e.next.value.sid == t.sid && e.monitor.None?
    ensures e.monitor.Some? ==> move == StartupMonitor(e.monitor.value)
  {
  }

  lemma EvalStaysWithItsSession(tid: ThreadId, move: Move, t: Thread, slot: Slot, nextId: CommandId, e: Effect)
    requires t.Eval? && TakeEval(tid, move, t, slot, nextId) == Some(e)
    ensures (e.next.Some? ==> e.next.value.sid == t.sid) && e.monitor.None?
  {
  }

  lemma OtherStaysWithItsSession(tid: ThreadId, move: Move, t: Thread, slot: Slot, e: Effect)
    requires !t.CreateTail? && !t.Startup? && !t.Eval? && TakeOther(tid, move, t, slot) == Some(e)
    ensures (e.next.Some? ==> e.next.value.sid == t.sid) && e.monitor.None?
  {
  }

  lemma StaysWithItsSession(tid: ThreadId, move: Move, t: Thread, slot: Slot, nextId: CommandId, e: Effect)
    requires Take(tid, move, t, slot, nextId) == Some(e)
    ensures e.next.Some? ==> e.next.value.sid == t.sid && e.monitor.None?
    ensures e.monitor.Some? ==> move == StartupMonitor(e.monitor.value)
  {
    hide TakeStartup, TakeEval, TakeOther;
    if t.CreateTail? || t.Startup? {
      StartupStaysWithItsSession(tid, move, t, slot, e);
    } else if t.Eval? {
      EvalStaysWithItsSession(tid, move, t, slot, nextId, e);
    } else {
      OtherStaysWithItsSession(tid, move, t, slot, e);
    }
  }

  lemma NextIsAStep(s: Sys, tid: ThreadId, move: Move, scene: Scene) returns (r: Sys)
    requires tid in s.threads && s.threads[tid].sid in s.slots && Next(tid, SceneIn(s, tid), move) == Some(scene)
    requires move.StartupMonitor? ==> move.monitor !in s.threads
    ensures Do(s, Step(tid, move)) == Some(r) && IsSet(s, tid, scene, r)
  {
    var t, slot := s.threads[tid], s.slots[s.threads[tid].sid];
    var e := Take(tid, move, t, slot, s.nextId).value;
    StaysWithItsSession(tid, move, t, slot, s.nextId, e);
    hide Take;
    r := Apply(s, tid, t.sid, e);
  }

  /** What a thread plays alone is a run in which it is the only one to take steps. */
  lemma {:induction false} PlayIsARun(s: Sys, tid: ThreadId, moves: seq<Move>, n: nat, end: Scene) returns (r: Sys)
    requires tid in s.threads && s.threads[tid].sid in s.slots && n <= |moves| && AreFree(s, tid, moves)
    requires Play(tid, SceneIn(s, tid), moves, n) == Some(end)
    ensures Exec(s, Steps(tid, moves[..n])) == Some(r) && IsSet(s, tid, end, r)
    decreases n
  {
    hide Take, Do, Next;
    if n == 0 {
      r := s;
    } else {
      var mid := Play(tid, SceneIn(s, tid), moves, n - 1).value;
      var m := PlayIsARun(s, tid, moves, n - 1, mid);
      NothingAfterTheEnd(tid, mid, moves[n - 1], end);
      assert SceneIn(m, tid) == mid;
      r := NextIsAStep(m, tid, moves[n - 1], end);
      SetTwice(s, tid, mid, m, end, r);
      assert Steps(tid, moves[..n]) == Steps(tid, moves[..n - 1]) + [Step(tid, moves[n - 1])];
      ExecAppend(s, Steps(tid, moves[..n - 1]), [Step(tid, moves[n - 1])]);
      assert [Step(tid, moves[n - 1])][1..] == [];
    }
  }

  lemma NothingAfterTheEnd(tid: ThreadId, scene: Scene, move: Move, next: Scene)
    requires Next(tid, scene, move) == Some(next)
    ensures scene.thread.Some?
  {
  }

  lemma SetTwice(s: Sys, tid: ThreadId, mid: Scene, m: Sys, end: Scene, r: Sys)
    requires tid in s.threads && mid.thread.Some? && IsSet(s, tid, mid, m) && tid in m.threads && IsSet(m, tid, end, r)
    ensures IsSet(s, tid, end, r)
  {
    assert m.slots[s.threads[tid].sid := end.slot] == s.slots[s.threads[tid].sid := end.slot];
    assert end.thread.Some? ==> m.threads[tid := end.thread.value] == s.threads[tid := end.thread.value];
  }

  // ----- Closing -----

  /** A session is idle, with its worker registered. */
  predicate IsIdle(slot: Slot) {
    && slot.lock.Free? && slot.worker && !slot.session.current && !IsClosing(slot.session.state)
    && (slot.session.last.Some? ==> !IsLive(slot.session.last.value.status))
  }

  /** The end of a close, with nothing live left to record. */
  lemma CloseEnds(tid: ThreadId, sid: SessionId, x: Session, lock: Lock, log: seq<Record>, nextId: CommandId, ok: bool,
      locked: bool)
    requires x.last.Some? ==> !IsLive(x.last.value.status)
    ensures Play(tid, Scene(Slot(x, lock, false, false), Some(CloseFinishing(sid, ok, locked)), log, nextId),
        [CloseForget, FinishClose], 2)
      == Some(Scene(
        Slot(x.(state := if ok then Closed else Error, current := false), if locked then Free else lock, false, false),
        None, log, nextId))
  {
    hide TakeStartup, TakeEval;
  }

  /** Closing an idle session closes its worker; it becomes Closed, or Error if the worker could not be closed. */
  lemma IdleSessionIsClosed(tid: ThreadId, sid: SessionId, slot: Slot, log: seq<Record>, nextId: CommandId, ok: bool)
    requires IsIdle(slot)
    ensures Play(tid, Scene(slot, Some(CloseCalled(sid, true)), log, nextId),
        [CloseRequest, CloseLock, CloseRemove(ok), CloseForget, FinishClose], 5)
      == Some(Scene(
        Slot(slot.session.(state := if ok then Closed else Error), Free, false, false), None, log, nextId))
  {
    hide TakeStartup, TakeEval;
    var moves := [CloseRequest, CloseLock, CloseRemove(ok), CloseForget, FinishClose];
    var a, x := Scene(slot, Some(CloseCalled(sid, true)), log, nextId), slot.session.(state := Closing);
    var mid := Scene(Slot(x, HeldBy(tid), false, false), Some(CloseFinishing(sid, ok, true)), log, nextId);
    assert Play(tid, a, moves, 3) == Some(mid);
    hide TakeOther;
    PlayOn(tid, a, moves, 3, mid, 2);
    CloseEnds(tid, sid, x, HeldBy(tid), log, nextId, ok, true);
    assert moves[3..] == [CloseForget, FinishClose];
  }

  /** A session without a worker and without an operation is closed at once; a closed or closing one stays as it is. */
  lemma CloseAtOnce(tid: ThreadId, sid: SessionId, slot: Slot, log: seq<Record>, nextId: CommandId)
    requires !slot.session.current || slot.session.state == Closed || slot.session.state == Closing
    ensures var x := slot.session;
      Play(tid, Scene(slot, Some(CloseCalled(sid, false)), log, nextId), [CloseRequest], 1)
      == Some(Scene(
        if x.state == Closing then slot else slot.(session := x.(state := Closed)), None, log, nextId))
  {
    hide TakeStartup, TakeEval;
  }

  /** A session whose operation is running, with the operation lock held. */
  predicate IsBusy(slot: Slot, id: CommandId) {
    && slot.session.current && slot.session.last == Some(Operation(id, OpRunning))
    && slot.lock.HeldBy? && slot.session.state != Closed && slot.session.state != Closing
  }

  const TIMED_OUT: seq<Move> :=
    [CloseRequest, CloseKill, CloseTimeout, CloseExpire, CloseExpire, CloseForget, FinishClose, Write]

  /** Closing a busy session asks for the operation to be canceled, kills the worker, and waits. */
  lemma BusySessionIsCanceled(tid: ThreadId, sid: SessionId, slot: Slot, log: seq<Record>, nextId: CommandId,
      id: CommandId)
    requires IsBusy(slot, id)
    ensures Play(tid, Scene(slot, Some(CloseCalled(sid, slot.worker)), log, nextId), TIMED_OUT, 2)
      == Some(Scene(
        slot.(session := slot.session.(
                state := Closing, current := false, last := Some(Operation(id, OpCancelRequested))),
              canceled := slot.worker || slot.canceled),
        Some(CloseWait(sid)), log, nextId))
  {
    hide TakeStartup, TakeEval;
  }

  /**
   * If the operation does not end in time, the close gives it and the worker up: the command is Failed, the session
   * is Error, and whoever holds the operation lock keeps it.
   */
  lemma BusySessionTimesOut(tid: ThreadId, sid: SessionId, slot: Slot, log: seq<Record>, nextId: CommandId,
      id: CommandId)
    requires IsBusy(slot, id)
    ensures Play(tid, Scene(slot, Some(CloseCalled(sid, slot.worker)), log, nextId), TIMED_OUT, 8)
      == Some(Scene(
        Slot(slot.session.(state := Error, current := false, last := Some(Operation(id, OpFailed))), slot.lock, false,
             false),
        None, log + [Record(id, OpFailed)], nextId))
  {
    hide TakeStartup, TakeEval;
    BusySessionIsCanceled(tid, sid, slot, log, nextId, id);
    var closing := slot.session.(state := Closing, current := false, last := Some(Operation(id, OpCancelRequested)));
    var mid := Scene(slot.(session := closing, canceled := slot.worker || slot.canceled), Some(CloseWait(sid)), log,
                     nextId);
    hide TakeOther, Play;
    PlayOn(tid, Scene(slot, Some(CloseCalled(sid, slot.worker)), log, nextId), TIMED_OUT, 2, mid, 6);
    WaitRunsOut(tid, sid, mid.slot, log, nextId, id);
    assert TIMED_OUT[2..] == OUT_OF_TIME;
  }

  const OUT_OF_TIME: seq<Move> := [CloseTimeout, CloseExpire, CloseExpire, CloseForget, FinishClose, Write]

  lemma WaitRunsOut(tid: ThreadId, sid: SessionId, slot: Slot, log: seq<Record>, nextId: CommandId, id: CommandId)
    requires slot.session.last == Some(Operation(id, OpCancelRequested)) && slot.lock.HeldBy?
    ensures Play(tid, Scene(slot, Some(CloseWait(sid)), log, nextId), OUT_OF_TIME, 6)
      == Some(Scene(
        Slot(slot.session.(state := Error, current := false, last := Some(Operation(id, OpFailed))), slot.lock, false,
             false),
        None, log + [Record(id, OpFailed)], nextId))
  {
    hide TakeStartup, TakeEval;
    var a := Scene(slot, Some(CloseWait(sid)), log, nextId);
    var mid := Scene(slot.(worker := false, canceled := false), Some(CloseFinishing(sid, false, false)), log, nextId);
    assert Play(tid, a, OUT_OF_TIME, 3) == Some(mid);
    hide TakeOther;
    PlayOn(tid, a, OUT_OF_TIME, 3, mid, 3);
    CloseFailsOperation(tid, sid, mid.slot, log, nextId, id);
    assert OUT_OF_TIME[3..] == [CloseForget, FinishClose, Write];
  }

  /** The end of a close that has given up, with an operation to record. */
  lemma CloseFailsOperation(tid: ThreadId, sid: SessionId, slot: Slot, log: seq<Record>, nextId: CommandId,
      id: CommandId)
    requires slot.session.last == Some(Operation(id, OpCancelRequested))
    ensures Play(tid, Scene(slot, Some(CloseFinishing(sid, false, false)), log, nextId),
        [CloseForget, FinishClose, Write], 3)
      == Some(Scene(
        Slot(slot.session.(state := Error, current := false, last := Some(Operation(id, OpFailed))), slot.lock, false,
             false),
        None, log + [Record(id, OpFailed)], nextId))
  {
    hide TakeStartup, TakeEval;
  }

  /** Losing the worker of an open session makes it Error, and fails the operation it has. */
  lemma LostWorkerIsMarked(tid: ThreadId, sid: SessionId, slot: Slot, log: seq<Record>, nextId: CommandId)
    requires !IsClosing(slot.session.state)
    ensures var x := slot.session;
      var lost := Slot(
        x.(state := Error, current := false, last := Finalized(x.last, OpFailed)), slot.lock, false, false);
      if x.last.Some? && IsLive(x.last.value.status) then
        Play(tid, Scene(slot, Some(Watching(sid)), log, nextId), [MonitorLost, MonitorRemove, Write], 3)
        == Some(Scene(lost, None, log + [Record(x.last.value.id, OpFailed)], nextId))
      else
        Play(tid, Scene(slot, Some(Watching(sid)), log, nextId), [MonitorLost, MonitorRemove], 2)
        == Some(Scene(lost, None, log, nextId))
  {
    hide TakeStartup, TakeEval;
  }

  // ----- Evaluating -----

  /** An operation can run: nobody holds the lock, the session is Ready or Break, and its worker is registered. */
  predicate IsOpenFor(slot: Slot) {
    slot.lock.Free? && slot.worker && (slot.session.state == Ready || slot.session.state == Break)
  }

  function EvalMoves(o: Outcome): (moves: seq<Move>)
    ensures |moves| == 7
  {
    [EvalLock, EvalQuery, EvalWorker, EvalStart, EvalReturn(o), EvalFinish, Write]
  }

  /** An eval issues the next command id and runs it under the operation lock. */
  lemma EvalRuns(tid: ThreadId, sid: SessionId, slot: Slot, log: seq<Record>, nextId: CommandId, o: Outcome)
    requires IsOpenFor(slot)
    ensures Play(tid, Scene(slot, Some(Eval(sid, EvalWait)), log, nextId), EvalMoves(o), 4)
      == Some(Scene(
        slot.(session := slot.session.(current := true, last := Some(Operation(nextId, OpRunning))),
              lock := HeldBy(tid)),
        Some(Eval(sid, Executing(nextId))), log, nextId + 1))
  {
    hide TakeStartup, TakeOther;
  }

  /**
   * It leaves the session with that command as its last operation, and with the state and the status of its outcome;
   * unless the output was not stored, it records the same status.
   */
  lemma EvalLeavesItsOutcome(tid: ThreadId, sid: SessionId, slot: Slot, log: seq<Record>, nextId: CommandId, o: Outcome)
    requires IsOpenFor(slot)
    ensures var done := slot.session.(
        state := StateAfter(o, slot.session.state), current := false, last := Some(Operation(nextId, StatusAfter(o))));
      var end := Scene(slot.(session := done), None, log, nextId + 1);
      var a := Scene(slot, Some(Eval(sid, EvalWait)), log, nextId);
      if o.ArtifactFailure? then Play(tid, a, EvalMoves(o), 6) == Some(end)
      else Play(tid, a, EvalMoves(o), 7) == Some(end.(log := log + [Record(nextId, StatusAfter(o))]))
  {
    EvalRuns(tid, sid, slot, log, nextId, o);
    var running := slot.session.(current := true, last := Some(Operation(nextId, OpRunning)));
    var a := Scene(slot, Some(Eval(sid, EvalWait)), log, nextId);
    var mid := Scene(slot.(session := running, lock := HeldBy(tid)), Some(Eval(sid, Executing(nextId))), log,
                     nextId + 1);
    hide TakeStartup, TakeEval, TakeOther, Play;
    PlayOn(tid, a, EvalMoves(o), 4, mid, 2);
    PlayOn(tid, a, EvalMoves(o), 4, mid, 3);
    EvalReturns(tid, sid, mid.slot, log, nextId, o);
    assert EvalMoves(o)[4..] == [EvalReturn(o), EvalFinish, Write];
  }

  function StatusAfter(o: Outcome): OperationStatus {
    if o.Success? then OpFinished else OpFailed
  }

  function StateAfter(o: Outcome, was: SessionState): SessionState {
    if !o.Success? then Error else if o.final.Some? then StateOf(o.final.value) else was
  }

  lemma EvalReturns(tid: ThreadId, sid: SessionId, slot: Slot, log: seq<Record>, id: CommandId, o: Outcome)
    requires slot.lock == HeldBy(tid) && slot.session.last == Some(Operation(id, OpRunning))
    requires !IsClosing(slot.session.state)
    ensures var done := slot.session.(
        state := StateAfter(o, slot.session.state), current := false, last := Some(Operation(id, StatusAfter(o))));
      var end := Scene(slot.(lock := Free, session := done), None, log, id + 1);
      var a := Scene(slot, Some(Eval(sid, Executing(id))), log, id + 1);
      if o.ArtifactFailure? then Play(tid, a, [EvalReturn(o), EvalFinish, Write], 2) == Some(end)
      else
        Play(tid, a, [EvalReturn(o), EvalFinish, Write], 3)
        == Some(end.(log := log + [Record(id, StatusAfter(o))]))
  {
    hide TakeStartup;
    var done := slot.session.(
      state := StateAfter(o, slot.session.state), current := false, last := Some(Operation(id, StatusAfter(o))));
    var a := Scene(slot, Some(Eval(sid, Executing(id))), log, id + 1);
    if !o.ArtifactFailure? {
      assert Play(tid, a, [EvalReturn(o), EvalFinish, Write], 2) == Some(
        Scene(slot.(session := done), Some(Writing(sid, Record(id, StatusAfter(o)), true)), log, id + 1));
    }
  }

  /** An eval of a session that is in another state, or has lost its worker, changes nothing. */
  lemma EvalIsRefused(tid: ThreadId, sid: SessionId, slot: Slot, log: seq<Record>, nextId: CommandId)
    requires slot.lock.Free? && !IsOpenFor(slot)
    ensures var a := Scene(slot, Some(Eval(sid, EvalWait)), log, nextId);
      if slot.session.state == Ready || slot.session.state == Break then
        Play(tid, a, [EvalLock, EvalQuery, EvalWorker], 3) == Some(Scene(slot, None, log, nextId))
      else
        Play(tid, a, [EvalLock, EvalQuery], 2) == Some(Scene(slot, None, log, nextId))
  {
    hide TakeStartup, TakeOther;
  }

  // ----- Starting -----

  /** A session that has just been created. */
  predicate IsNew(slot: Slot) {
    slot.lock.NoLock? && slot.session.state == Starting && slot.session.current && slot.session.last.None?
  }

  function JustCreated(sid: SessionId, slot: Slot, log: seq<Record>, nextId: CommandId): Scene {
    Scene(slot, Some(CreateTail(sid)), log, nextId)
  }

  /** The worker starts, and is asked to create its session. */
  lemma StartupSpawns(tid: ThreadId, sid: SessionId, slot: Slot, log: seq<Record>, nextId: CommandId, moves: seq<Move>)
    requires IsNew(slot) && |moves| == 7
    requires moves[..4] == [CreateLock, StartupLock, StartupSpawn(true), StartupCheck]
    ensures Play(tid, JustCreated(sid, slot, log, nextId), moves, 4) == Some(Scene(
      Slot(slot.session, HeldBy(tid), true, false), Some(Startup(sid, Creating)), log, nextId))
  {
    hide TakeEval, TakeOther;
    assert moves[0] == moves[..4][0] && moves[1] == moves[..4][1] && moves[2] == moves[..4][2]
      && moves[3] == moves[..4][3];
  }

  /** A startup inside the operation lock. */
  function InStartup(tid: ThreadId, sid: SessionId, slot: Slot, pc: StartupPc, log: seq<Record>, nextId: CommandId)
    : Scene
  {
    Scene(slot.(lock := HeldBy(tid)), Some(Startup(sid, pc)), log, nextId)
  }

  /** A failed startup gives its worker up: the session is Error, or Closed if a close waits; an ended one stays. */
  lemma StartupGivesUp(tid: ThreadId, sid: SessionId, slot: Slot, log: seq<Record>, nextId: CommandId)
    ensures var x := slot.session;
      Play(tid, InStartup(tid, sid, slot, StartupErr, log, nextId), [StartupFail, StartupFailed], 2)
      == Some(Scene(
        Slot(if IsTerminal(x.state) then x
             else x.(state := if x.state == Closing then Closed else Error, current := false), Free, false, false),
        None, log, nextId))
  {
    hide TakeEval, TakeOther;
  }

  /** If its session is created, the session here is attached and in Break. */
  lemma StartupAttaches(tid: ThreadId, sid: SessionId, slot: Slot, log: seq<Record>, nextId: CommandId, m: ThreadId)
    requires IsNew(slot)
    ensures Play(tid, JustCreated(sid, slot, log, nextId),
        [CreateLock, StartupLock, StartupSpawn(true), StartupCheck, StartupCreate(true), StartupFinish,
         StartupMonitor(m)], 7)
      == Some(Scene(
        Slot(slot.session.(state := Break, current := false, attached := true), Free, true, false), None, log, nextId))
  {
    hide TakeEval, TakeOther;
    var moves := [CreateLock, StartupLock, StartupSpawn(true), StartupCheck, StartupCreate(true), StartupFinish,
                  StartupMonitor(m)];
    var a, up := JustCreated(sid, slot, log, nextId), Slot(slot.session, HeldBy(tid), true, false);
    StartupSpawns(tid, sid, slot, log, nextId, moves);
    assert Play(tid, a, moves, 5) == Some(InStartup(tid, sid, up, StartupOk, log, nextId));
  }

  /** If its session is not created, the session ends in Error without a worker. */
  lemma StartupFailsToCreate(tid: ThreadId, sid: SessionId, slot: Slot, log: seq<Record>, nextId: CommandId)
    requires IsNew(slot)
    ensures Play(tid, JustCreated(sid, slot, log, nextId),
        [CreateLock, StartupLock, StartupSpawn(true), StartupCheck, StartupCreate(false), StartupFail,
         StartupFailed], 7)
      == Some(Scene(Slot(slot.session.(state := Error, current := false), Free, false, false), None, log, nextId))
  {
    hide TakeEval, TakeOther;
    var moves := [CreateLock, StartupLock, StartupSpawn(true), StartupCheck, StartupCreate(false), StartupFail,
                  StartupFailed];
    var a, up := JustCreated(sid, slot, log, nextId), Slot(slot.session, HeldBy(tid), true, false);
    StartupSpawns(tid, sid, slot, log, nextId, moves);
    assert Play(tid, a, moves, 5) == Some(InStartup(tid, sid, up, StartupErr, log, nextId));
    hide TakeStartup;
    PlayOn(tid, a, moves, 5, InStartup(tid, sid, up, StartupErr, log, nextId), 2);
    StartupGivesUp(tid, sid, up, log, nextId);
    assert moves[5..] == [StartupFail, StartupFailed];
  }

  /** So it does if the worker does not start. */
  lemma StartupFailsToSpawn(tid: ThreadId, sid: SessionId, slot: Slot, log: seq<Record>, nextId: CommandId)
    requires IsNew(slot)
    ensures Play(tid, JustCreated(sid, slot, log, nextId),
        [CreateLock, StartupLock, StartupSpawn(false), StartupFail, StartupFailed], 5)
      == Some(Scene(Slot(slot.session.(state := Error, current := false), Free, false, false), None, log, nextId))
  {
    hide TakeEval, TakeOther;
  }

  /** A close has got ahead of the startup, and no operation is live. */
  predicate IsBehindClose(slot: Slot) {
    && IsClosing(slot.session.state) && slot.worker
    && (slot.session.last.Some? ==> !IsLive(slot.session.last.value.status))
  }

  /** Then the startup cancels a worker that it has just started, and the session is Closed. */
  lemma StartupCancelsWorker(tid: ThreadId, sid: SessionId, slot: Slot, log: seq<Record>, nextId: CommandId)
    requires IsBehindClose(slot)
    ensures Play(tid, InStartup(tid, sid, slot, Checking, log, nextId),
        [StartupCheck, StartupCancel, CloseForget, FinishClose], 4)
      == Some(Scene(Slot(slot.session.(state := Closed, current := false), Free, false, false), None, log, nextId))
  {
    hide TakeEval;
    var moves := [StartupCheck, StartupCancel, CloseForget, FinishClose];
    assert Play(tid, InStartup(tid, sid, slot, Checking, log, nextId), moves, 2) == Some(Scene(
      slot.(lock := HeldBy(tid), canceled := true), Some(CloseFinishing(sid, true, true)), log, nextId));
    hide TakeStartup;
  }

  /** It closes one whose session is created, or drops one that is canceled already. */
  lemma StartupClosesWorker(tid: ThreadId, sid: SessionId, slot: Slot, log: seq<Record>, nextId: CommandId, ok: bool)
    requires IsBehindClose(slot) && (slot.canceled ==> ok)
    ensures var x := slot.session;
      var moves := [StartupFinish, StartupIsCanceled, StartupCloseWorker(ok), CloseForget, FinishClose];
      if x.state == Closing then
        Play(tid, InStartup(tid, sid, slot, StartupOk, log, nextId), moves, 5) == Some(Scene(
          Slot(x.(state := if ok then Closed else Error, current := false), Free, false, false), None, log, nextId))
      else
        Play(tid, InStartup(tid, sid, slot, StartupOk, log, nextId), moves, 3) == Some(Scene(
          Slot(x, Free, false, false), None, log, nextId))
  {
    hide TakeEval;
    var moves := [StartupFinish, StartupIsCanceled, StartupCloseWorker(ok), CloseForget, FinishClose];
    var a, x := InStartup(tid, sid, slot, StartupOk, log, nextId), slot.session;
    assert Play(tid, a, moves, 2) == Some(InStartup(
      tid, sid, slot, DropWorker(x.state == Closing, slot.canceled), log, nextId));
    if x.state == Closing {
      var mid := Scene(Slot(x, HeldBy(tid), false, false), Some(CloseFinishing(sid, ok, true)), log, nextId);
      assert Play(tid, a, moves, 3) == Some(mid);
      hide TakeStartup, TakeOther;
      PlayOn(tid, a, moves, 3, mid, 2);
      CloseEnds(tid, sid, x, HeldBy(tid), log, nextId, ok, true);
      assert moves[3..] == [CloseForget, FinishClose];
    }
  }
}
