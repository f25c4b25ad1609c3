/** What the debug session manager promises over whole runs, and exactly when. */
module SessionProperties {
  import opened Wrappers
  import opened SessionManager
  import opened SessionInvariant

  // ----- Runs -----

  ghost function Exec(s: Sys, acts: seq<Action>): Option<Sys>
    decreases |acts|
  {
    if acts == [] then Some(s)
    else if Do(s, acts[0]).None? then None
    else Exec(Do(s, acts[0]).value, acts[1..])
  }

  lemma {:induction false} ExecAppend(s: Sys, acts: seq<Action>, more: seq<Action>)
    requires Exec(s, acts).Some?
    ensures Exec(s, acts + more) == Exec(Exec(s, acts).value, more)
    decreases |acts|
  {
    hide Do;
    if acts == [] {
      assert acts + more == more;
    } else {
      assert (acts + more)[0] == acts[0] && (acts + more)[1..] == acts[1..] + more;
      ExecAppend(Do(s, acts[0]).value, acts[1..], more);
    }
  }

  lemma {:induction false} InvOfRun(s: Sys, acts: seq<Action>, r: Sys)
    requires Inv(s) && Exec(s, acts) == Some(r)
    ensures Inv(r)
    decreases |acts|
  {
    hide Do, Inv;
    if acts != [] {
      InvKept(s, acts[0], Do(s, acts[0]).value);
      InvOfRun(Do(s, acts[0]).value, acts[1..], r);
    }
  }

  // ----- All runs -----

  /** In every run: when no thread owes a record any more, every decided command is in the log, and no other. */
  lemma QuietLogIsComplete(acts: seq<Action>, r: Sys)
    requires Exec(INITIAL, acts) == Some(r)
    requires forall tid :: tid in r.threads ==> Owes(r.threads[tid]).None?
    ensures forall id :: id in r.claims <==> Logged(r.log, id)
  {
    InvInitially();
    hide Do, LocksAgree, SessionsOk, ThreadsOk, ClosersApart, IdsApart, LiveHeld;
    InvOfRun(INITIAL, acts, r);
  }

  /** In every run the operation lock excludes: two threads are never inside the lock of one session. */
  lemma LockExcludes(acts: seq<Action>, r: Sys, t: ThreadId, u: ThreadId)
    requires Exec(INITIAL, acts) == Some(r)
    requires t in r.threads && u in r.threads && Holds(r.threads[t]) && Holds(r.threads[u])
    requires r.threads[t].sid == r.threads[u].sid
    ensures t == u
  {
    InvInitially();
    hide Do, SessionsOk, ThreadsOk, ClosersApart, IdsApart, LiveHeld, RecordsKnown, NothingLost;
    InvOfRun(INITIAL, acts, r);
    assert HolderIs(r, r.threads[t].sid, t) && HolderIs(r, r.threads[u].sid, u);
  }

  // ----- How a command gets two records -----

  /** The region of `close_session` moves the session straight to Closed. */
  predicate ClosesDirectly(t: Thread, x: Session) {
    t.CloseCalled? && x.state != Closed && x.state != Closing && !t.hadWorker && !x.current
  }

  /** `close_session`, then the eval ends with the target gone, and both write what they decided. */
  function RepeatingEnd(closer: ThreadId, eval: ThreadId): seq<Action> {
    [Step(closer, CloseRequest), Step(eval, EvalReturn(Success(Some(BackendClosed)))), Step(eval, EvalFinish),
     Step(eval, Write)]
  }

  /** An executing eval of a Closed session whose target is gone ends by writing a record. */
  lemma EvalRecordsInClosed(s: Sys, eval: ThreadId)
    requires eval in s.threads && s.threads[eval].sid in s.slots
    requires s.threads[eval].Eval? && s.threads[eval].eval.Executing?
    requires s.slots[s.threads[eval].sid].session.state == Closed
    ensures var acts := RepeatingEnd(0, eval)[1..];
      && Exec(s, acts).Some?
      && Exec(s, acts).value.log == s.log + [Record(s.threads[eval].eval.id, OpFinished)]
  {
    hide TakeStartup, TakeOther;
    var acts, id := RepeatingEnd(0, eval), s.threads[eval].eval.id;
    var s2 := Do(s, acts[1]).value;
    assert s2.threads[eval].eval == Finishing(id, OpFinished, Closed, true);
    var s3 := Do(s2, acts[2]).value;
    assert s3.threads[eval] == Writing(s.threads[eval].sid, Record(id, OpFinished), true);
    var s4 := WritesRecord(s3, eval);
    assert acts[1..][1..] == acts[2..] && acts[2..][1..] == acts[3..] && acts[3..][1..] == [];
    assert Exec(s, acts[1..]) == Exec(s2, acts[2..]) == Exec(s3, acts[3..]) == Exec(s4, []);
  }

  lemma WritesRecord(s: Sys, tid: ThreadId) returns (r: Sys)
    requires tid in s.threads && s.threads[tid].Writing? && s.threads[tid].sid in s.slots
    ensures Do(s, Step(tid, Write)) == Some(r) && r.log == s.log + [s.threads[tid].record]
  {
    r := Do(s, Step(tid, Write)).value;
  }

  /**
   * The hypothesis cannot be dropped: from any state where a command has its record while its eval still
   * executes, a direct close lets the eval write a second one.
   */
  lemma DirectCloseRepeatsRecord(s: Sys, closer: ThreadId, eval: ThreadId, i: nat)
    requires closer in s.threads && eval in s.threads && closer != eval
    requires s.threads[closer].sid in s.slots && s.threads[eval].sid == s.threads[closer].sid
    requires ClosesDirectly(s.threads[closer], s.slots[s.threads[closer].sid].session)
    requires s.threads[eval].Eval? && s.threads[eval].eval.Executing?
    requires i < |s.log| && s.log[i].id == s.threads[eval].eval.id
    ensures Exec(s, RepeatingEnd(closer, eval)).Some?
    ensures !OneRecordEach(Exec(s, RepeatingEnd(closer, eval)).value.log)
  {
    hide TakeStartup, TakeEval;
    var acts := RepeatingEnd(closer, eval);
    var s1 := Do(s, acts[0]).value;
    assert s1.slots[s.threads[eval].sid].session.state == Closed;
    EvalRecordsInClosed(s1, eval);
    assert acts[1..] == RepeatingEnd(0, eval)[1..];
    var log := Exec(s, acts).value.log;
    assert log[i].id == log[|s.log|].id;
  }

  // ----- Two runs that break the promises -----

  /** `s` with thread `tid` at `t` and the session's slot `slot`. */
  function Stage(s: Sys, sid: SessionId, tid: ThreadId, slot: Slot, t: Thread): Sys {
    s.(slots := s.slots[sid := slot], threads := s.threads[tid := t])
  }

  /** The moves a thread makes one after the other, with nothing but its slot and itself changing. */
  function Play(tid: ThreadId, slot: Slot, t: Thread, nextId: CommandId, moves: seq<Move>): Option<(Slot, Thread)>
    decreases |moves|
  {
    if moves == [] then Some((slot, t))
    else match Take(tid, moves[0], t, slot, nextId)
      case Some(Effect(slot', Some(t'), false, None, None, None)) =>
        if t'.sid == t.sid then Play(tid, slot', t', nextId, moves[1..]) else None
      case _ => None
  }

  function Steps(tid: ThreadId, moves: seq<Move>): (acts: seq<Action>)
    ensures |acts| == |moves| && forall i :: 0 <= i < |acts| ==> acts[i] == Step(tid, moves[i])
  {
    if moves == [] then [] else [Step(tid, moves[0])] + Steps(tid, moves[1..])
  }

  lemma {:induction false} StagePlays(s: Sys, sid: SessionId, tid: ThreadId, slot: Slot, t: Thread, moves: seq<Move>)
    requires t.sid == sid && Play(tid, slot, t, s.nextId, moves).Some?
    ensures var end := Play(tid, slot, t, s.nextId, moves).value;
      Exec(Stage(s, sid, tid, slot, t), Steps(tid, moves)) == Some(Stage(s, sid, tid, end.0, end.1))
    decreases |moves|
  {
    hide Take;
    if moves != [] {
      var e := Take(tid, moves[0], t, slot, s.nextId).value;
      var m := Stage(s, sid, tid, slot, t);
      assert m.slots[sid := e.slot] == s.slots[sid := e.slot];
      assert m.threads[tid := e.next.value] == s.threads[tid := e.next.value];
      assert Do(m, Step(tid, moves[0])) == Some(Stage(s, sid, tid, e.slot, e.next.value));
      StagePlays(s, sid, tid, e.slot, e.next.value, moves[1..]);
      ExecOne(m, Step(tid, moves[0]), Stage(s, sid, tid, e.slot, e.next.value), Steps(tid, moves[1..]));
    }
  }

  lemma StepIs(s: Sys, tid: ThreadId, move: Move, e: Effect, r: Sys)
    requires tid in s.threads && s.threads[tid].sid in s.slots && e.monitor.None?
    requires Take(tid, move, s.threads[tid], s.slots[s.threads[tid].sid], s.nextId) == Some(e)
    requires r.slots == Apply(s, tid, s.threads[tid].sid, e).slots
    requires r.threads == Apply(s, tid, s.threads[tid].sid, e).threads
    requires r.nextId == Apply(s, tid, s.threads[tid].sid, e).nextId
    requires r.claims == Apply(s, tid, s.threads[tid].sid, e).claims
    requires r.log == Apply(s, tid, s.threads[tid].sid, e).log
    ensures Do(s, Step(tid, move)) == Some(r)
  {
    hide Take;
  }

  lemma ExecOne(s: Sys, a: Action, r: Sys, rest: seq<Action>)
    requires Do(s, a) == Some(r)
    ensures Exec(s, [a] + rest) == Exec(r, rest)
  {
    hide Do;
    assert ([a] + rest)[0] == a && ([a] + rest)[1..] == rest;
  }

  const STARTUP: seq<Move> :=
    [CreateLock, StartupLock, StartupSpawn(true), StartupCheck, StartupCreate(true), StartupFinish]

  function StartupActs(target: Target, sid: SessionId, tid: ThreadId, monitor: ThreadId): seq<Action> {
    [Create(target, sid, tid)] + (Steps(tid, STARTUP) + [Step(tid, StartupMonitor(monitor))])
  }

  function NewSlot(target: Target): Slot {
    Slot(Session(target, Starting, true, None, false), NoLock, false, false)
  }

  function ReadySlot(target: Target): Slot {
    Slot(Session(target, Break, false, None, true), Free, true, false)
  }

  lemma PlayOne(tid: ThreadId, slot: Slot, t: Thread, nextId: CommandId, move: Move, slot': Slot, t': Thread,
      rest: seq<Move>)
    requires Take(tid, move, t, slot, nextId) == Some(Effect(slot', Some(t'), false, None, None, None))
    requires t'.sid == t.sid
    ensures Play(tid, slot, t, nextId, [move] + rest) == Play(tid, slot', t', nextId, rest)
  {
    hide Take;
    assert ([move] + rest)[0] == move && ([move] + rest)[1..] == rest;
  }

  lemma StartupPlays(target: Target, sid: SessionId, tid: ThreadId, nextId: CommandId)
    ensures Play(tid, NewSlot(target), CreateTail(sid), nextId, STARTUP)
      == Some((ReadySlot(target).(lock := HeldBy(tid)), Startup(sid, SpawnMonitor)))
  {
    hide Play;
    var free, held := NewSlot(target).(lock := Free), NewSlot(target).(lock := HeldBy(tid));
    var working, ready := held.(worker := true), ReadySlot(target).(lock := HeldBy(tid));
    PlayOne(tid, NewSlot(target), CreateTail(sid), nextId, CreateLock, free, Startup(sid, StartupWait), STARTUP[1..]);
    PlayOne(tid, free, Startup(sid, StartupWait), nextId, StartupLock, held, Startup(sid, Spawning), STARTUP[2..]);
    PlayOne(tid, held, Startup(sid, Spawning), nextId, StartupSpawn(true), working, Startup(sid, Checking),
      STARTUP[3..]);
    PlayOne(tid, working, Startup(sid, Checking), nextId, StartupCheck, working, Startup(sid, Creating), STARTUP[4..]);
    PlayOne(tid, working, Startup(sid, Creating), nextId, StartupCreate(true), working, Startup(sid, StartupOk),
      STARTUP[5..]);
    PlayOne(tid, working, Startup(sid, StartupOk), nextId, StartupFinish, ready, Startup(sid, SpawnMonitor), []);
    assert STARTUP[5..] == [StartupFinish] + [] && STARTUP[4..] == [StartupCreate(true)] + STARTUP[5..]
        && STARTUP[3..] == [StartupCheck] + STARTUP[4..] && STARTUP[2..] == [StartupSpawn(true)] + STARTUP[3..]
        && STARTUP[1..] == [StartupLock] + STARTUP[2..] && STARTUP == [CreateLock] + STARTUP[1..];
    assert Play(tid, ready, Startup(sid, SpawnMonitor), nextId, []) == Some((ready, Startup(sid, SpawnMonitor))) by {
      PlayNothing(tid, ready, Startup(sid, SpawnMonitor), nextId);
    }
  }

  lemma PlayNothing(tid: ThreadId, slot: Slot, t: Thread, nextId: CommandId)
    ensures Play(tid, slot, t, nextId, []) == Some((slot, t))
  {
  }

  lemma MonitorStarts(s: Sys, sid: SessionId, tid: ThreadId, monitor: ThreadId, slot: Slot)
    requires tid !in s.threads && monitor !in s.threads && tid != monitor && slot.worker
    ensures Do(Stage(s, sid, tid, slot, Startup(sid, SpawnMonitor)), Step(tid, StartupMonitor(monitor)))
      == Some(Stage(s, sid, monitor, slot.(lock := Free), Watching(sid)))
  {
    hide TakeEval, TakeOther;
    var s2 := Stage(s, sid, tid, slot, Startup(sid, SpawnMonitor));
    var s3 := Stage(s, sid, monitor, slot.(lock := Free), Watching(sid));
    assert s2.slots[sid := slot.(lock := Free)] == s3.slots;
    assert (s2.threads - {tid})[monitor := Watching(sid)] == s3.threads;
  }

  /** An undisturbed startup ends with the session in Break, a registered worker and a monitor. */
  lemma StartupSucceeds(s: Sys, target: Target, sid: SessionId, tid: ThreadId, monitor: ThreadId)
    requires !HasReusable(s, target) && sid !in s.slots
    requires tid !in s.threads && monitor !in s.threads && tid != monitor
    ensures Exec(s, StartupActs(target, sid, tid, monitor))
      == Some(Stage(s, sid, monitor, ReadySlot(target), Watching(sid)))
  {
    hide HasReusable, Play, Exec, Take;
    var s1 := Stage(s, sid, tid, NewSlot(target), CreateTail(sid));
    var ready := ReadySlot(target).(lock := HeldBy(tid));
    var s2 := Stage(s, sid, tid, ready, Startup(sid, SpawnMonitor));
    var s3 := Stage(s, sid, monitor, ReadySlot(target), Watching(sid));
    var last := Step(tid, StartupMonitor(monitor));
    ExecOne(s, Create(target, sid, tid), s1, Steps(tid, STARTUP) + [last]);
    hide Do;
    StartupPlays(target, sid, tid, s.nextId);
    StagePlays(s, sid, tid, NewSlot(target), CreateTail(sid), STARTUP);
    ExecAppend(s1, Steps(tid, STARTUP), [last]);
    MonitorStarts(s, sid, tid, monitor, ready);
    ExecOne(s2, last, s3, []);
    assert [last] + [] == [last];
    ExecNothing(s3);
  }

  lemma ExecNothing(s: Sys)
    ensures Exec(s, []) == Some(s)
  {
  }

  /** Session 0 is evaluating command 0 in thread 2, watched by thread 1. */
  const EVALUATING: Slot :=
    Slot(Session(0, Break, true, Some(Operation(0, OpRunning)), true), HeldBy(2), true, false)

  function Evaluating(): Sys {
    Sys(map[0 := EVALUATING], map[1 := Watching(0), 2 := Eval(0, Executing(0))], 1, map[], [])
  }

  function EvalActs(): seq<Action> {
    [EvalCall(0, 2)] + (Steps(2, [EvalLock, EvalQuery, EvalWorker]) + [Step(2, EvalStart)])
  }

  lemma EvalBegins()
    ensures Exec(INITIAL, StartupActs(0, 0, 0, 1) + EvalActs()) == Some(Evaluating())
  {
    hide Play;
    var s := Stage(INITIAL, 0, 1, ReadySlot(0), Watching(0));
    StartupSucceeds(INITIAL, 0, 0, 0, 1);
    ExecAppend(INITIAL, StartupActs(0, 0, 0, 1), EvalActs());
    var free, held, moves := ReadySlot(0), ReadySlot(0).(lock := HeldBy(2)), [EvalLock, EvalQuery, EvalWorker];
    PlayOne(2, free, Eval(0, EvalWait), 0, EvalLock, held, Eval(0, EvalLocked), moves[1..]);
    PlayOne(2, held, Eval(0, EvalLocked), 0, EvalQuery, held, Eval(0, NeedsWorker(Break)), moves[2..]);
    PlayOne(2, held, Eval(0, NeedsWorker(Break)), 0, EvalWorker, held, Eval(0, NeedsStart(Break)), []);
    PlayNothing(2, held, Eval(0, NeedsStart(Break)), 0);
    assert moves[2..] == [EvalWorker] + [] && moves[1..] == [EvalQuery] + moves[2..];
    assert moves == [EvalLock] + moves[1..];
    EvalEnters(s, free, held, moves);
  }

  lemma EvalEnters(s: Sys, free: Slot, held: Slot, moves: seq<Move>)
    requires s == Stage(INITIAL, 0, 1, ReadySlot(0), Watching(0))
    requires free == ReadySlot(0) && held == free.(lock := HeldBy(2)) && moves == [EvalLock, EvalQuery, EvalWorker]
    requires Play(2, free, Eval(0, EvalWait), 0, moves) == Some((held, Eval(0, NeedsStart(Break))))
    ensures Exec(s, EvalActs()) == Some(Evaluating())
  {
    hide Play;
    var s1, s2 := Stage(s, 0, 2, free, Eval(0, EvalWait)), Stage(s, 0, 2, held, Eval(0, NeedsStart(Break)));
    assert s.slots[0 := free] == s.slots;
    ExecOne(s, EvalCall(0, 2), s1, Steps(2, moves) + [Step(2, EvalStart)]);
    StagePlays(s, 0, 2, free, Eval(0, EvalWait), moves);
    ExecAppend(s1, Steps(2, moves), [Step(2, EvalStart)]);
    hide Do;
    StepIs(s2, 2, EvalStart, Effect(EVALUATING, Some(Eval(0, Executing(0))), true, None, None, None), Evaluating());
    ExecOne(s2, Step(2, EvalStart), Evaluating(), []);
    assert [Step(2, EvalStart)] + [] == [Step(2, EvalStart)];
  }

  /** The worker is lost during the eval, its failure is recorded, and `close_session` is called. */
  function LostActs(): seq<Action> {
    [Step(1, MonitorLost)] + ([Step(1, MonitorRemove)] + ([Step(1, Write)] + ([CloseCall(0, 3)] + [])))
  }

  function Lost(): Sys {
    Sys(map[0 := Slot(Session(0, Error, false, Some(Operation(0, OpFailed)), true), HeldBy(2), false, false)],
        map[2 := Eval(0, Executing(0)), 3 := CloseCalled(0, false)],
        1, map[0 := OpFailed], [Record(0, OpFailed)])
  }

  lemma CallIs(s: Sys, a: Action, t: Thread, r: Sys)
    requires a.CloseCall? && a.tid !in s.threads && a.sid in s.slots && !s.slots[a.sid].lock.NoLock?
    requires t == CloseCalled(a.sid, s.slots[a.sid].worker) && r == s.(threads := r.threads)
    requires r.threads == s.threads[a.tid := t]
    ensures Do(s, a) == Some(r)
  {
  }

  function Failing(): Sys {
    Sys(map[0 := EVALUATING.(session := Session(0, Error, false, Some(Operation(0, OpFailed)), true))],
        map[1 := WorkerLost(0, Some(Record(0, OpFailed))), 2 := Eval(0, Executing(0))], 1, map[0 := OpFailed], [])
  }

  lemma MonitorSeesLoss()
    ensures Do(Evaluating(), Step(1, MonitorLost)) == Some(Failing())
  {
    hide Do;
    var r := Record(0, OpFailed);
    StepIs(Evaluating(), 1, MonitorLost,
      Effect(Failing().slots[0], Some(WorkerLost(0, Some(r))), false, Some(r), None, None), Failing());
  }

  function Owing(): Sys {
    Failing().(slots := map[0 := Failing().slots[0].(worker := false)],
               threads := map[1 := Writing(0, Record(0, OpFailed), false), 2 := Eval(0, Executing(0))])
  }

  lemma LossIsOwed()
    ensures Do(Failing(), Step(1, MonitorRemove)) == Some(Owing())
  {
    hide Do;
    StepIs(Failing(), 1, MonitorRemove,
      Effect(Owing().slots[0], Some(Writing(0, Record(0, OpFailed), false)), false, None, None, None), Owing());
  }

  lemma LossIsRecorded()
    ensures Exec(Owing(), LostActs()[2..]) == Some(Lost())
  {
    hide Do;
    var r := Record(0, OpFailed);
    var s3 := Owing().(threads := map[2 := Eval(0, Executing(0))], log := [r]);
    StepIs(Owing(), 1, Write, Effect(Owing().slots[0], None, false, None, Some(r), None), s3);
    CallIs(s3, CloseCall(0, 3), CloseCalled(0, false), Lost());
    ExecOne(Owing(), Step(1, Write), s3, LostActs()[3..]);
    ExecOne(s3, CloseCall(0, 3), Lost(), []);
    assert LostActs()[3..] == [CloseCall(0, 3)] + [] && LostActs()[2..] == [Step(1, Write)] + LostActs()[3..];
  }

  lemma WorkerIsLost()
    ensures Exec(Evaluating(), LostActs()) == Some(Lost())
  {
    hide Do;
    MonitorSeesLoss();
    LossIsOwed();
    LossIsRecorded();
    ExecOne(Failing(), Step(1, MonitorRemove), Owing(), LostActs()[2..]);
    assert LostActs()[1..] == [Step(1, MonitorRemove)] + LostActs()[2..];
    ExecOne(Evaluating(), Step(1, MonitorLost), Failing(), LostActs()[1..]);
    assert LostActs() == [Step(1, MonitorLost)] + LostActs()[1..];
  }

  /** The close moves the session straight to Closed. */
  function LostAndClosed(): Sys {
    var slot := Lost().slots[0];
    Lost().(slots := map[0 := slot.(session := slot.session.(state := Closed))],
            threads := map[2 := Eval(0, Executing(0))])
  }

  lemma LostIsClosed()
    ensures Do(Lost(), Step(3, CloseRequest)) == Some(LostAndClosed())
  {
    hide Do;
    StepIs(Lost(), 3, CloseRequest, Effect(LostAndClosed().slots[0], None, false, None, None, None), LostAndClosed());
  }

  lemma LostIsReached()
    ensures Exec(INITIAL, StartupActs(0, 0, 0, 1) + EvalActs() + LostActs()) == Some(Lost())
  {
    hide Do, Exec, StartupActs, EvalActs, LostActs;
    EvalBegins();
    WorkerIsLost();
    ExecAppend(INITIAL, StartupActs(0, 0, 0, 1) + EvalActs(), LostActs());
  }

  /** There is a run from the start in which a command gets two terminal records. */
  lemma RecordsCanRepeat()
    ensures var acts := StartupActs(0, 0, 0, 1) + EvalActs() + LostActs() + RepeatingEnd(3, 2);
      Exec(INITIAL, acts).Some? && !OneRecordEach(Exec(INITIAL, acts).value.log)
  {
    hide Do, Exec, StartupActs, EvalActs, LostActs, RepeatingEnd;
    LostIsReached();
    DirectCloseRepeatsRecord(Lost(), 3, 2, 0);
    ExecAppend(INITIAL, StartupActs(0, 0, 0, 1) + EvalActs() + LostActs(), RepeatingEnd(3, 2));
  }

  // ----- One reusable session per target -----

  /** No two reusable sessions have the same target. */
  ghost predicate UniqueReusable(s: Sys) {
    forall a, b :: a in s.slots && b in s.slots && a != b ==> !Rivals(s.slots[a].session, s.slots[b].session)
  }

  predicate Rivals(x: Session, y: Session) {
    x.target == y.target && IsReusable(x.state) && IsReusable(y.state)
  }

  /** A backend event other than Closed reaches the session `sid`, which is Closed. */
  predicate Reopens(s: Sys, a: Action, sid: SessionId) {
    && a.Step? && a.move.EvalEvent? && !a.move.event.BackendClosed?
    && a.tid in s.threads && s.threads[a.tid].sid == sid && s.threads[a.tid].Eval? && s.threads[a.tid].eval.Executing?
    && sid in s.slots && s.slots[sid].session.state == Closed
  }

  /** The same, of the thread and its slot. */
  predicate ReopensSlot(move: Move, t: Thread, slot: Slot) {
    && move.EvalEvent? && !move.event.BackendClosed?
    && t.Eval? && t.eval.Executing? && slot.session.state == Closed
  }

  ghost predicate StaysClosing(move: Move, t: Thread, slot: Slot, e: Effect) {
    && e.slot.session.target == slot.session.target
    && (IsClosing(slot.session.state) ==> (IsClosing(e.slot.session.state) <==> !ReopensSlot(move, t, slot)))
  }

  lemma StartupStaysClosing(tid: ThreadId, move: Move, t: Thread, slot: Slot, e: Effect)
    requires (t.CreateTail? || t.Startup?) && TakeStartup(tid, move, t, slot) == Some(e)
    ensures StaysClosing(move, t, slot, e)
  {
  }

  lemma EvalStaysClosing(tid: ThreadId, move: Move, t: Thread, slot: Slot, nextId: CommandId, e: Effect)
    requires t.Eval? && TakeEval(tid, move, t, slot, nextId) == Some(e)
    ensures StaysClosing(move, t, slot, e)
  {
  }

  lemma OtherStaysClosing(tid: ThreadId, move: Move, t: Thread, slot: Slot, e: Effect)
    requires !t.CreateTail? && !t.Startup? && !t.Eval? && TakeOther(tid, move, t, slot) == Some(e)
    ensures StaysClosing(move, t, slot, e)
  {
  }

  /**
   * A session leaves Closing, Closed and Error exactly by such an event, in every step of every thread,
   * and keeps its target always.
   */
  lemma OnlyEventsReopen(s: Sys, a: Action, r: Sys, sid: SessionId)
    requires Do(s, a) == Some(r) && sid in s.slots
    ensures sid in r.slots && r.slots[sid].session.target == s.slots[sid].session.target
    ensures IsClosing(s.slots[sid].session.state) ==>
      (IsClosing(r.slots[sid].session.state) <==> !Reopens(s, a, sid))
  {
    hide HasReusable, TakeStartup, TakeEval, TakeOther;
    if a.Step? && sid == s.threads[a.tid].sid {
      var t, slot := s.threads[a.tid], s.slots[sid];
      var e := Take(a.tid, a.move, t, slot, s.nextId).value;
      if t.CreateTail? || t.Startup? {
        StartupStaysClosing(a.tid, a.move, t, slot, e);
      } else if t.Eval? {
        EvalStaysClosing(a.tid, a.move, t, slot, s.nextId, e);
      } else {
        OtherStaysClosing(a.tid, a.move, t, slot, e);
      }
    }
  }

  /** Another reusable session has the target of `sid`. */
  ghost predicate Taken(s: Sys, sid: SessionId)
    requires sid in s.slots
  {
    exists b :: b in s.slots && b != sid && IsReusable(s.slots[b].session.state)
      && s.slots[b].session.target == s.slots[sid].session.target
  }

  /** A step touches one session, or adds one for a target no reusable session has. */
  lemma SlotsAfter(s: Sys, a: Action, r: Sys, z: SessionId)
    requires Do(s, a) == Some(r)
    ensures z in s.slots && !(a.Step? && s.threads[a.tid].sid == z) ==> z in r.slots && r.slots[z] == s.slots[z]
    ensures z in r.slots && z !in s.slots ==>
      a.Create? && z == a.sid && r.slots[z].session.target == a.target && !HasReusable(s, a.target)
  {
    hide HasReusable, Take;
  }

  /**
   * A step keeps the targets of reusable sessions apart exactly unless it reopens a session whose target
   * another reusable session has.
   */
  lemma UniqueStep(s: Sys, a: Action, r: Sys)
    requires UniqueReusable(s) && Do(s, a) == Some(r)
    ensures UniqueReusable(r) <==> !(exists sid :: Reopens(s, a, sid) && Taken(s, sid))
  {
    hide Do;
    if sid :| Reopens(s, a, sid) && Taken(s, sid) {
      var b :| b in s.slots && b != sid && IsReusable(s.slots[b].session.state)
        && s.slots[b].session.target == s.slots[sid].session.target;
      OnlyEventsReopen(s, a, r, sid);
      SlotsAfter(s, a, r, b);
      assert Rivals(r.slots[sid].session, r.slots[b].session);
    } else {
      forall x, y | x in r.slots && y in r.slots && x != y
        ensures !Rivals(r.slots[x].session, r.slots[y].session)
      {
        if Rivals(r.slots[x].session, r.slots[y].session) {
          RivalsComeFromReopening(s, a, r, x, y);
        }
      }
    }
  }

  lemma RivalsComeFromReopening(s: Sys, a: Action, r: Sys, x: SessionId, y: SessionId)
    requires UniqueReusable(s) && Do(s, a) == Some(r)
    requires x in r.slots && y in r.slots && x != y && Rivals(r.slots[x].session, r.slots[y].session)
    ensures exists sid :: Reopens(s, a, sid) && Taken(s, sid)
  {
    hide Do;
    SlotsAfter(s, a, r, x);
    SlotsAfter(s, a, r, y);
    if x in s.slots { OnlyEventsReopen(s, a, r, x); }
    if y in s.slots { OnlyEventsReopen(s, a, r, y); }
    if x in s.slots && y in s.slots {
      assert !Rivals(s.slots[x].session, s.slots[y].session);
      assert (Reopens(s, a, x) && Taken(s, x)) || (Reopens(s, a, y) && Taken(s, y));
    }
  }

  /** No backend event reopens a session during the run. */
  ghost predicate NothingReopens(s: Sys, acts: seq<Action>)
    decreases |acts|
  {
    acts == [] || ((forall sid :: !Reopens(s, acts[0], sid))
                   && (Do(s, acts[0]).Some? ==> NothingReopens(Do(s, acts[0]).value, acts[1..])))
  }

  /** Without such events targets stay apart, and a session in Closing, Closed or Error stays there. */
  lemma {:induction false} ReusableStaysUnique(s: Sys, acts: seq<Action>, r: Sys)
    requires UniqueReusable(s) && Exec(s, acts) == Some(r) && NothingReopens(s, acts)
    ensures UniqueReusable(r)
    ensures forall sid :: sid in s.slots && IsClosing(s.slots[sid].session.state) ==>
      sid in r.slots && IsClosing(r.slots[sid].session.state)
    decreases |acts|
  {
    hide Do, Taken, IsClosing, Reopens;
    if acts != [] {
      var n := Do(s, acts[0]).value;
      UniqueStep(s, acts[0], n);
      forall sid | sid in s.slots && IsClosing(s.slots[sid].session.state)
        ensures sid in n.slots && IsClosing(n.slots[sid].session.state)
      {
        OnlyEventsReopen(s, acts[0], n, sid);
      }
      ReusableStaysUnique(n, acts[1..], r);
    }
  }

  /**
   * In every run without such events, whatever all threads do: no two reusable sessions share a target,
   * and a session that has entered Closing, Closed or Error, at any point of the run, stays there.
   */
  lemma AtMostOneReusable(acts: seq<Action>, m: Sys, more: seq<Action>, r: Sys)
    requires Exec(INITIAL, acts) == Some(m) && NothingReopens(INITIAL, acts)
    requires Exec(m, more) == Some(r) && NothingReopens(m, more)
    ensures UniqueReusable(m) && UniqueReusable(r)
    ensures forall sid :: sid in m.slots && IsClosing(m.slots[sid].session.state) ==>
      sid in r.slots && IsClosing(r.slots[sid].session.state)
  {
    hide Do, Exec, NothingReopens, IsClosing;
    ReusableStaysUnique(INITIAL, acts, m);
    ReusableStaysUnique(m, more, r);
  }

  /**
   * The worker is lost with a Running frame unread in its pipe, the session is closed, its target is opened
   * again, and only then does the eval thread read the frame.
   */
  function RevivingActs(): seq<Action> {
    [Step(3, CloseRequest)] + ([Create(0, 1, 4)] + ([Step(2, EvalEvent(BackendRunning))] + []))
  }

  /** There is a run from the start that ends with two reusable sessions for one target. */
  lemma TargetsCanClash()
    ensures var acts := StartupActs(0, 0, 0, 1) + EvalActs() + LostActs() + RevivingActs();
      Exec(INITIAL, acts).Some? && !UniqueReusable(Exec(INITIAL, acts).value)
  {
    hide Do, Exec, StartupActs, EvalActs, LostActs, RevivingActs;
    LostIsReached();
    ExecAppend(INITIAL, StartupActs(0, 0, 0, 1) + EvalActs() + LostActs(), RevivingActs());
    Revived();
  }

  lemma Revived()
    ensures Exec(Lost(), RevivingActs()).Some?
    ensures !UniqueReusable(Exec(Lost(), RevivingActs()).value)
  {
    var s1 := LostAndClosed();
    var s2 := s1.(slots := s1.slots[1 := NewSlot(0)], threads := s1.threads[4 := CreateTail(1)]);
    LostIsClosed();
    CreateIs(s1, s2);
    hide Do, LostAndClosed, Lost;
    var s3 := RunningArrives(s2);
    ExecOne(Lost(), Step(3, CloseRequest), s1, [Create(0, 1, 4)] + ([Step(2, EvalEvent(BackendRunning))] + []));
    ExecOne(s1, Create(0, 1, 4), s2, [Step(2, EvalEvent(BackendRunning))] + []);
    ExecOne(s2, Step(2, EvalEvent(BackendRunning)), s3, []);
    ExecNothing(s3);
  }

  lemma RunningArrives(s: Sys) returns (r: Sys)
    requires s == LostAndClosed().(
      slots := LostAndClosed().slots[1 := NewSlot(0)], threads := LostAndClosed().threads[4 := CreateTail(1)])
    ensures Do(s, Step(2, EvalEvent(BackendRunning))) == Some(r) && !UniqueReusable(r)
  {
    var slot := s.slots[0].(session := s.slots[0].session.(state := Running));
    r := s.(slots := s.slots[0 := slot]);
    hide Do;
    StepIs(s, 2, EvalEvent(BackendRunning), Effect(slot, Some(s.threads[2]), false, None, None, None), r);
    assert Rivals(r.slots[0].session, r.slots[1].session);
  }

  lemma CreateIs(s: Sys, r: Sys)
    requires s.slots.Keys == {0} && !IsReusable(s.slots[0].session.state) && 4 !in s.threads
    requires r == s.(slots := r.slots, threads := r.threads)
    requires r.slots == s.slots[1 := NewSlot(0)] && r.threads == s.threads[4 := CreateTail(1)]
    ensures Do(s, Create(0, 1, 4)) == Some(r)
  {
  }
}
