/**
 * Exactly when the status of a command may go back, and when a record contradicts what the session shows.
 *
 * The end of an eval puts its status on whatever the session's last operation is.  That is the one step
 * that can change a status which was final.
 */
module SessionStatus {
  import opened Wrappers
  import opened SessionManager
  import opened SessionInvariant
  import opened SessionProperties
  import opened SessionExactness

  // ----- One step -----

  /** Legal changes of a session's last operation. */
  predicate IsLegal(before: Option<Operation>, after: Option<Operation>) {
    || after == before
    || (after.Some? && after.value.status == OpRunning
        && (before.Some? ==> !IsLive(before.value.status) && before.value.id < after.value.id))
    || (before.Some? && after.Some? && before.value.id == after.value.id
        && MayBecome(before.value.status, after.value.status))
  }

  predicate MayBecome(a: OperationStatus, b: OperationStatus) {
    || (a == OpRunning && (b == OpCancelRequested || b == OpFinished || b == OpFailed))
    || (a == OpCancelRequested && (b == OpCanceled || b == OpFailed))
  }

  /** The thread's eval ends with effect on a session whose last operation ended before, in another way. */
  predicate EndsAgain(move: Move, t: Thread, x: Session) {
    && move.EvalFinish? && t.Eval? && t.eval.Finishing?
    && FinishApplies(x.state, t.eval.next, t.eval.status)
    && x.last.Some? && !IsLive(x.last.value.status) && x.last.value.status != t.eval.status
  }

  /** The step is such an end of an eval of the session `sid`. */
  predicate Overwrites(s: Sys, a: Action, sid: SessionId) {
    && a.Step? && a.tid in s.threads && s.threads[a.tid].sid == sid && sid in s.slots
    && EndsAgain(a.move, s.threads[a.tid], s.slots[sid].session)
  }

  lemma StartupStatus(tid: ThreadId, move: Move, t: Thread, slot: Slot, nextId: CommandId, e: Effect)
    requires t.CreateTail? || t.Startup?
    requires TakeStartup(tid, move, t, slot) == Some(e) && Before(tid, t, slot, nextId)
    ensures IsLegal(slot.session.last, e.slot.session.last) && !EndsAgain(move, t, slot.session)
  {
  }

  lemma EvalStatus(tid: ThreadId, move: Move, t: Thread, slot: Slot, nextId: CommandId, e: Effect)
    requires t.Eval?
    requires TakeEval(tid, move, t, slot, nextId) == Some(e) && Before(tid, t, slot, nextId)
    ensures IsLegal(slot.session.last, e.slot.session.last) <==> !EndsAgain(move, t, slot.session)
  {
  }

  lemma OtherStatus(tid: ThreadId, move: Move, t: Thread, slot: Slot, nextId: CommandId, e: Effect)
    requires !t.CreateTail? && !t.Startup? && !t.Eval?
    requires TakeOther(tid, move, t, slot) == Some(e) && Before(tid, t, slot, nextId)
    ensures IsLegal(slot.session.last, e.slot.session.last) && !EndsAgain(move, t, slot.session)
  {
  }

  lemma LocalStatus(tid: ThreadId, move: Move, t: Thread, slot: Slot, nextId: CommandId, e: Effect)
    requires Take(tid, move, t, slot, nextId) == Some(e) && Before(tid, t, slot, nextId)
    ensures IsLegal(slot.session.last, e.slot.session.last) <==> !EndsAgain(move, t, slot.session)
  {
    hide TakeStartup, TakeEval, TakeOther, Before, IsLegal, EndsAgain;
    if t.CreateTail? || t.Startup? {
      StartupStatus(tid, move, t, slot, nextId, e);
    } else if t.Eval? {
      EvalStatus(tid, move, t, slot, nextId, e);
    } else {
      OtherStatus(tid, move, t, slot, nextId, e);
    }
  }

  /**
   * In every state of every run: a step treats the last operation of a session legally if and only if it
   * does not overwrite an ended one.
   */
  lemma StatusStep(s: Sys, a: Action, r: Sys, sid: SessionId)
    requires Inv(s) && Do(s, a) == Some(r) && sid in s.slots
    ensures sid in r.slots
    ensures IsLegal(s.slots[sid].session.last, r.slots[sid].session.last) <==> !Overwrites(s, a, sid)
  {
    if a.Step? {
      var e := EffectOf(s, a, r);
      BeforeStep(s, a.tid);
      hide Do, Inv, Take, Before, After, EndsAgain;
      LocalStatus(a.tid, a.move, s.threads[a.tid], s.slots[s.threads[a.tid].sid], s.nextId, e);
    } else {
      CallEffect(s, a, r);
      hide Do, Inv;
    }
  }

  // ----- Runs -----

  /** No step of the run overwrites an ended operation. */
  ghost predicate NothingOverwrites(s: Sys, acts: seq<Action>)
    decreases |acts|
  {
    acts == [] || ((forall sid :: !Overwrites(s, acts[0], sid))
                   && (Do(s, acts[0]).Some? ==> NothingOverwrites(Do(s, acts[0]).value, acts[1..])))
  }

  ghost predicate AllLegal(s: Sys, r: Sys) {
    forall sid :: sid in s.slots && sid in r.slots ==> IsLegal(s.slots[sid].session.last, r.slots[sid].session.last)
  }

  /** Every step of the run treats the last operation of every session legally. */
  ghost predicate LegalRun(s: Sys, acts: seq<Action>)
    decreases |acts|
  {
    acts == [] || (Do(s, acts[0]).Some? ==>
      AllLegal(s, Do(s, acts[0]).value) && LegalRun(Do(s, acts[0]).value, acts[1..]))
  }

  /** In a run, all statuses change legally if and only if no step overwrites an ended operation. */
  lemma {:induction false} StatusIsExact(s: Sys, acts: seq<Action>, r: Sys)
    requires Inv(s) && Exec(s, acts) == Some(r)
    ensures LegalRun(s, acts) <==> NothingOverwrites(s, acts)
    decreases |acts|
  {
    hide Do, Inv, IsLegal;
    if acts != [] {
      var n := Do(s, acts[0]).value;
      InvKept(s, acts[0], n);
      forall sid | sid in s.slots
        ensures sid in n.slots
        ensures IsLegal(s.slots[sid].session.last, n.slots[sid].session.last) <==> !Overwrites(s, acts[0], sid)
      {
        StatusStep(s, acts[0], n, sid);
      }
      StatusIsExact(n, acts[1..], r);
    }
  }

  /** The statuses a command may have after it has had status `a`. */
  predicate Reaches(a: OperationStatus, b: OperationStatus) {
    || a == b
    || a == OpRunning
    || (a == OpCancelRequested && (b == OpCanceled || b == OpFailed))
  }

  /**
   * In every run without overwriting, the status of a command only moves from Running to CancelRequested,
   * from either to Failed, from CancelRequested to Canceled and from Running to Finished; a later command
   * of the session replaces only an ended one, and the replaced one never returns.
   */
  lemma {:induction false} StatusOnlyAdvances(s: Sys, acts: seq<Action>, r: Sys, sid: SessionId)
    requires Inv(s) && Exec(s, acts) == Some(r) && NothingOverwrites(s, acts)
    requires sid in s.slots && s.slots[sid].session.last.Some?
    ensures sid in r.slots && r.slots[sid].session.last.Some?
    ensures var a, b := s.slots[sid].session.last.value, r.slots[sid].session.last.value;
      a.id < b.id || (a.id == b.id && Reaches(a.status, b.status))
    decreases |acts|
  {
    hide Do, Inv, Overwrites;
    if acts != [] {
      var n := Do(s, acts[0]).value;
      InvKept(s, acts[0], n);
      StatusStep(s, acts[0], n, sid);
      StatusOnlyAdvances(n, acts[1..], r, sid);
    }
  }

  // ----- What records say -----

  /** Some thread has written the record, or is about to. */
  ghost predicate IsRecord(s: Sys, x: Record) {
    x in s.log || exists tid :: tid in s.threads && Owes(s.threads[tid]) == Some(x)
  }

  /** Every record has the status its session shows, as long as its command is the session's last. */
  ghost predicate AllShown(s: Sys) {
    forall x, sid :: IsRecord(s, x) && sid in s.slots ==> ShowsRecord(s.slots[sid].session, x)
  }

  /** The step overwrites an operation that has a record. */
  ghost predicate Contradicts(s: Sys, a: Action, sid: SessionId) {
    Overwrites(s, a, sid) && exists x :: IsRecord(s, x) && x.id == s.slots[sid].session.last.value.id
  }

  /** After a step the records are the old ones and the one for the command it decides. */
  lemma RecordsAfter(s: Sys, tid: ThreadId, e: Effect, x: Record)
    requires Settling(s, tid, e)
    ensures IsRecord(Stepped(s, tid, e), x) <==> IsRecord(s, x) || e.claim == Some(x)
  {
    var r := Stepped(s, tid, e);
    if IsRecord(s, x) && x !in s.log {
      var u :| u in s.threads && Owes(s.threads[u]) == Some(x);
      if u == tid && e.writes.Some? {
        assert r.log[|s.log|] == x;
      } else {
        assert u in r.threads && Owes(r.threads[u]) == Some(x);
      }
    }
    if e.claim == Some(x) {
      assert tid in r.threads && Owes(r.threads[tid]) == Some(x);
    }
  }

  lemma KnownRecord(s: Sys, x: Record)
    requires RecordsKnown(s) && IsRecord(s, x)
    ensures IsKnown(x, s.nextId)
  {
  }

  /** A record made by a step agrees with every session after it. */
  lemma NewRecordShown(s: Sys, tid: ThreadId, e: Effect, sid: SessionId)
    requires ThreadsPlaced(s) && IdsApart(s) && Stepping(s, tid, e)
    requires e.claim.Some? && sid in Stepped(s, tid, e).slots
    ensures ShowsRecord(Stepped(s, tid, e).slots[sid].session, e.claim.value)
  {
    hide PositionAfter, SessionOk, CloserStep, OthersStep, DebtStep;
  }

  /** An old record agrees with every session after the step, or the step overwrites what it is about. */
  lemma OldRecordShown(s: Sys, a: Action, r: Sys, e: Effect, sid: SessionId, x: Record)
    requires Inv(s) && AllShown(s) && a.Step? && Stepping(s, a.tid, e) && r == Stepped(s, a.tid, e)
    requires sid in s.slots && IsRecord(s, x) && !(Overwrites(s, a, sid) && x.id == s.slots[sid].session.last.value.id)
    requires IsLegal(s.slots[sid].session.last, r.slots[sid].session.last) <==> !Overwrites(s, a, sid)
    ensures ShowsRecord(r.slots[sid].session, x)
  {
    assert RecordsKnown(s) && IdStep(s.threads[a.tid], s.slots[s.threads[a.tid].sid].session, s.nextId, e);
    KnownRecord(s, x);
    assert ShowsRecord(s.slots[sid].session, x);
    hide Inv, AllShown, RecordsKnown, Stepping, IsRecord;
  }

  /**
   * In every state of every run in which records and sessions agree: they still agree after a step if and
   * only if it does not overwrite an operation that has a record.
   */
  lemma ShownStep(s: Sys, a: Action, r: Sys)
    requires Inv(s) && AllShown(s) && Do(s, a) == Some(r)
    ensures AllShown(r) <==> !(exists sid :: Contradicts(s, a, sid))
  {
    if a.Step? {
      var e := EffectOf(s, a, r);
      StepSettles(s, a.tid, e);
      hide Do, Take, Stepping, Settling, Inv, IsRecord;
      forall x ensures IsRecord(r, x) <==> IsRecord(s, x) || e.claim == Some(x) {
        RecordsAfter(s, a.tid, e, x);
      }
      if sid :| Contradicts(s, a, sid) {
        OverwritingContradicts(s, a, r, sid, e);
      } else {
        ShownAfter(s, a, r, e);
      }
    } else {
      CallEffect(s, a, r);
      ShownAfterCall(s, a, r);
    }
  }

  lemma OverwritingContradicts(s: Sys, a: Action, r: Sys, sid: SessionId, e: Effect)
    requires Inv(s) && AllShown(s) && Do(s, a) == Some(r) && Contradicts(s, a, sid)
    requires Take(a.tid, a.move, s.threads[a.tid], s.slots[s.threads[a.tid].sid], s.nextId) == Some(e)
    requires forall x :: IsRecord(r, x) <==> IsRecord(s, x) || e.claim == Some(x)
    ensures !AllShown(r)
  {
    hide Inv, IsRecord, TakeStartup, TakeOther;
    var x :| IsRecord(s, x) && x.id == s.slots[sid].session.last.value.id;
    assert ShowsRecord(s.slots[sid].session, x);
    assert r.slots[sid].session.last.value.status == s.threads[a.tid].eval.status;
    assert !ShowsRecord(r.slots[sid].session, x);
  }

  lemma ShownAfter(s: Sys, a: Action, r: Sys, e: Effect)
    requires Inv(s) && AllShown(s) && Do(s, a) == Some(r) && a.Step?
    requires Stepping(s, a.tid, e) && r == Stepped(s, a.tid, e)
    requires forall x :: IsRecord(r, x) <==> IsRecord(s, x) || e.claim == Some(x)
    requires forall sid :: !Contradicts(s, a, sid)
    ensures AllShown(r)
  {
    assert ThreadsPlaced(s) && IdsApart(s);
    assert r.slots.Keys == s.slots.Keys by { hide Do, Inv, AllShown; }
    hide Do, Stepping, Inv, IsRecord, IdsApart, ThreadsPlaced, Stepped, ShowsRecord, Overwrites;
    forall x, sid | IsRecord(r, x) && sid in r.slots
      ensures ShowsRecord(r.slots[sid].session, x)
    {
      if e.claim == Some(x) {
        NewRecordShown(s, a.tid, e, sid);
      } else {
        StatusStep(s, a, r, sid);
        assert !Contradicts(s, a, sid);
        OldRecordShown(s, a, r, e, sid, x);
      }
    }
  }

  lemma ShownAfterCall(s: Sys, a: Action, r: Sys)
    requires AllShown(s) && !a.Step? && Calls(s, a, r)
    ensures AllShown(r) && forall sid :: !Contradicts(s, a, sid)
  {
    forall x, sid | IsRecord(r, x) && sid in r.slots
      ensures ShowsRecord(r.slots[sid].session, x)
    {
      assert IsRecord(s, x);
    }
  }

  /** No step of the run overwrites an operation that has a record. */
  ghost predicate NothingContradicts(s: Sys, acts: seq<Action>)
    decreases |acts|
  {
    acts == [] || ((forall sid :: !Contradicts(s, acts[0], sid))
                   && (Do(s, acts[0]).Some? ==> NothingContradicts(Do(s, acts[0]).value, acts[1..])))
  }

  lemma {:induction false} ShownOfRun(s: Sys, acts: seq<Action>, r: Sys)
    requires Inv(s) && AllShown(s) && Exec(s, acts) == Some(r) && NothingContradicts(s, acts)
    ensures AllShown(r)
    decreases |acts|
  {
    hide Do, Inv, AllShown, Contradicts;
    if acts != [] {
      var n := Do(s, acts[0]).value;
      InvKept(s, acts[0], n);
      ShownStep(s, acts[0], n);
      ShownOfRun(n, acts[1..], r);
    }
  }

  /** In every run without such a step, every record repeats what its session shows of the command. */
  lemma RecordsAreShown(acts: seq<Action>, r: Sys)
    requires Exec(INITIAL, acts) == Some(r) && NothingContradicts(INITIAL, acts)
    ensures forall i, sid :: 0 <= i < |r.log| && sid in r.slots ==> ShowsRecord(r.slots[sid].session, r.log[i])
  {
    InvInitially();
    hide Do, Inv, NothingContradicts, ShowsRecord;
    assert AllShown(INITIAL);
    ShownOfRun(INITIAL, acts, r);
    forall i, sid | 0 <= i < |r.log| && sid in r.slots
      ensures ShowsRecord(r.slots[sid].session, r.log[i])
    {
      assert IsRecord(r, r.log[i]);
    }
  }

  // ----- A run that overwrites -----

  /** The command of the lost worker has ended again, as its eval thread saw it. */
  function EndedAgain(): Sys {
    var slot := LostAndClosed().slots[0];
    var ended := slot.(session := slot.session.(last := Some(Operation(0, OpFinished))));
    Sys(map[0 := ended], map[2 := Writing(0, Record(0, OpFinished), true)], 1, map[0 := OpFinished],
        [Record(0, OpFailed)])
  }

  function EndingAgain(): Sys {
    LostAndClosed().(threads := map[2 := Eval(0, Finishing(0, OpFinished, Closed, true))])
  }

  lemma EvalReturnsLate()
    ensures Do(LostAndClosed(), Step(2, EvalReturn(Success(Some(BackendClosed))))) == Some(EndingAgain())
  {
    hide Do;
    StepIs(LostAndClosed(), 2, EvalReturn(Success(Some(BackendClosed))),
      Effect(EndingAgain().slots[0], Some(EndingAgain().threads[2]), false, None, None, None), EndingAgain());
  }

  lemma EvalEndsAgain()
    ensures Do(EndingAgain(), Step(2, EvalFinish)) == Some(EndedAgain())
  {
    hide Do;
    StepIs(EndingAgain(), 2, EvalFinish,
      Effect(EndedAgain().slots[0], Some(EndedAgain().threads[2]), false, Some(Record(0, OpFinished)), None, None),
      EndedAgain());
  }

  /** There is a run from the start in which a command that failed, and has a record of it, is Finished later. */
  lemma StatusCanGoBack()
    ensures var acts := StartupActs(0, 0, 0, 1) + EvalActs() + LostActs();
      && Exec(INITIAL, acts) == Some(Lost())
      && Exec(INITIAL, acts + RepeatingEnd(3, 2)[..3]) == Some(EndedAgain())
    ensures Lost().slots[0].session.last == Some(Operation(0, OpFailed))
    ensures EndedAgain().slots[0].session.last == Some(Operation(0, OpFinished))
    ensures EndedAgain().log == [Record(0, OpFailed)]
  {
    var last := [Step(2, EvalFinish)] + [];
    var late := [Step(2, EvalReturn(Success(Some(BackendClosed))))] + last;
    assert RepeatingEnd(3, 2)[..3] == [Step(3, CloseRequest)] + late;
    LostIsReached();
    LostIsClosed();
    EvalReturnsLate();
    EvalEndsAgain();
    hide Do, Exec, LostAndClosed, EndingAgain, StartupActs, EvalActs, LostActs, RepeatingEnd;
    ExecAppend(INITIAL, StartupActs(0, 0, 0, 1) + EvalActs() + LostActs(), RepeatingEnd(3, 2)[..3]);
    ExecOne(Lost(), Step(3, CloseRequest), LostAndClosed(), late);
    ExecOne(LostAndClosed(), Step(2, EvalReturn(Success(Some(BackendClosed)))), EndingAgain(), last);
    ExecOne(EndingAgain(), Step(2, EvalFinish), EndedAgain(), []);
    ExecNothing(EndedAgain());
  }

  // ----- A condition that suffices for records and statuses -----

  /** Some eval is inside the operation lock of `sid`. */
  ghost predicate EvalHolds(s: Sys, sid: SessionId) {
    && sid in s.slots && s.slots[sid].lock.HeldBy?
    && s.slots[sid].lock.holder in s.threads && s.threads[s.slots[sid].lock.holder].Eval?
  }

  /** The step does not close a session directly while an eval is inside its operation lock. */
  ghost predicate Gentle(s: Sys, a: Action) {
    a.Step? && a.tid in s.threads && s.threads[a.tid].sid in s.slots
    && ClosesDirectly(s.threads[a.tid], s.slots[s.threads[a.tid].sid].session)
    ==> !EvalHolds(s, s.threads[a.tid].sid)
  }

  ghost predicate GentleRun(s: Sys, acts: seq<Action>)
    decreases |acts|
  {
    acts == [] || (Gentle(s, acts[0]) && (Do(s, acts[0]).Some? ==> GentleRun(Do(s, acts[0]).value, acts[1..])))
  }

  /** An eval's command is live until the eval ends, unless the session is Closing or Error. */
  predicate KeepsLive(t: Thread, x: Session) {
    && (t.Eval? && (t.eval.NeedsWorker? || t.eval.NeedsStart?) ==> x.state != Closed)
    && (Executes(t) ==> HasLive(x) || x.state == Closing || x.state == Error)
  }

  ghost predicate EvalsLive(s: Sys)
    requires ThreadsPlaced(s)
  {
    forall tid :: tid in s.threads ==> KeepsLive(s.threads[tid], s.slots[s.threads[tid].sid].session)
  }

  ghost predicate GentleInv(s: Sys) {
    Inv(s) && EvalsLive(s)
  }

  /** What a step outside the lock leaves to the eval inside it. */
  predicate LeavesLive(t: Thread, x: Session, y: Session) {
    !Holds(t) && !ClosesDirectly(t, x) ==>
      && (HasLive(x) ==> HasLive(y) || y.state == Closing || y.state == Error)
      && (x.state == Closing || x.state == Error ==> y.state == Closing || y.state == Error)
      && (x.state != Closed ==> y.state != Closed)
  }

  lemma LocalKeepsLive(tid: ThreadId, move: Move, t: Thread, slot: Slot, nextId: CommandId, e: Effect)
    requires Take(tid, move, t, slot, nextId) == Some(e) && Before(tid, t, slot, nextId)
    requires KeepsLive(t, slot.session)
    ensures LeavesLive(t, slot.session, e.slot.session)
    ensures e.next.Some? ==> KeepsLive(e.next.value, e.slot.session)
  {
    hide Before, TakeStartup, TakeEval, TakeOther;
    if t.CreateTail? || t.Startup? {
      StartupKeepsLive(tid, move, t, slot, nextId, e);
    } else if t.Eval? {
      EvalKeepsLive(tid, move, t, slot, nextId, e);
    } else {
      OtherKeepsLive(tid, move, t, slot, nextId, e);
    }
  }

  lemma StartupKeepsLive(tid: ThreadId, move: Move, t: Thread, slot: Slot, nextId: CommandId, e: Effect)
    requires t.CreateTail? || t.Startup?
    requires TakeStartup(tid, move, t, slot) == Some(e) && Before(tid, t, slot, nextId)
    ensures LeavesLive(t, slot.session, e.slot.session)
    ensures e.next.Some? ==> KeepsLive(e.next.value, e.slot.session)
  {
  }

  lemma EvalKeepsLive(tid: ThreadId, move: Move, t: Thread, slot: Slot, nextId: CommandId, e: Effect)
    requires t.Eval? && KeepsLive(t, slot.session)
    requires TakeEval(tid, move, t, slot, nextId) == Some(e) && Before(tid, t, slot, nextId)
    ensures LeavesLive(t, slot.session, e.slot.session)
    ensures e.next.Some? ==> KeepsLive(e.next.value, e.slot.session)
  {
  }

  lemma OtherKeepsLive(tid: ThreadId, move: Move, t: Thread, slot: Slot, nextId: CommandId, e: Effect)
    requires !t.CreateTail? && !t.Startup? && !t.Eval?
    requires TakeOther(tid, move, t, slot) == Some(e) && Before(tid, t, slot, nextId)
    ensures LeavesLive(t, slot.session, e.slot.session)
    ensures e.next.Some? ==> KeepsLive(e.next.value, e.slot.session)
  {
  }

  lemma GentleKept(s: Sys, a: Action, r: Sys)
    requires GentleInv(s) && Gentle(s, a) && Do(s, a) == Some(r)
    ensures GentleInv(r)
  {
    hide Inv, LocksAgree, ThreadsPlaced, Gentle, EvalsLive, Do;
    InvKept(s, a, r);
    PlacesOfInv(s);
    PlacesOfInv(r);
    if a.Step? {
      GentleStepKept(s, a, r);
    } else {
      CallEffect(s, a, r);
      GentleCallKept(s, a, r);
    }
  }

  lemma GentleCallKept(s: Sys, a: Action, r: Sys)
    requires ThreadsPlaced(s) && ThreadsPlaced(r) && EvalsLive(s) && !a.Step? && Calls(s, a, r)
    ensures EvalsLive(r)
  {
    hide Holds, Owes, IsCloser;
  }

  lemma GentleStepKept(s: Sys, a: Action, r: Sys)
    requires Inv(s) && ThreadsPlaced(s) && EvalsLive(s) && LocksAgree(s) && ThreadsPlaced(r)
    requires Gentle(s, a) && a.Step? && Do(s, a) == Some(r)
    ensures EvalsLive(r)
  {
    hide Inv, Take, Before, LocksAgree, KeepsLive, LeavesLive, Stepped, Gentle, Stepping;
    var e := EffectOf(s, a, r);
    BeforeStep(s, a.tid);
    StepSettles(s, a.tid, e);
    LocalKeepsLive(a.tid, a.move, s.threads[a.tid], s.slots[s.threads[a.tid].sid], s.nextId, e);
    hide Do;
    forall u | u in r.threads
      ensures KeepsLive(r.threads[u], r.slots[r.threads[u].sid].session)
    {
      GentleForThread(s, a, r, e, u);
    }
  }

  lemma PlacesOfInv(s: Sys)
    requires Inv(s)
    ensures LocksAgree(s) && ThreadsPlaced(s)
  {
    hide LocksAgree, SessionsOk, ThreadsOk, ClosersApart, IdsApart, LiveHeld, RecordsKnown, NothingLost;
  }

  lemma GentleForThread(s: Sys, a: Action, r: Sys, e: Effect, u: ThreadId)
    requires a.Step? && a.tid in s.threads && Gentle(s, a)
    requires LocksAgree(s) && ThreadsPlaced(s) && ThreadsPlaced(r) && EvalsLive(s)
    requires r == Stepped(s, a.tid, e) && Locking(s, a.tid, e) && u in r.threads
    requires LeavesLive(s.threads[a.tid], s.slots[s.threads[a.tid].sid].session, e.slot.session)
    requires e.next.Some? ==> KeepsLive(e.next.value, e.slot.session)
    ensures r.threads[u].sid in r.slots && KeepsLive(r.threads[u], r.slots[r.threads[u].sid].session)
  {
    hide Do;
    if u != a.tid && u in s.threads {
      var t := s.threads[u];
      assert KeepsLive(t, s.slots[t.sid].session);
      if t.sid == s.threads[a.tid].sid && t.Eval? && t.eval != EvalWait {
        assert HolderIs(s, t.sid, u);
        HolderIsAlone(s, a.tid, u);
        assert EvalHolds(s, t.sid);
      }
    }
  }

  /** While an eval's command stays live until it ends, nothing is overwritten. */
  lemma GentleOverwritesNothing(s: Sys, a: Action, sid: SessionId)
    requires GentleInv(s)
    ensures !Overwrites(s, a, sid)
  {
    assert EvalsLive(s);
    hide Inv;
  }

  lemma GentleIsHarmless(s: Sys, a: Action)
    requires Inv(s) && Gentle(s, a)
    ensures !Dangerous(s, a)
  {
    PlacesOfInv(s);
    hide Inv;
  }

  lemma {:induction false} GentleIsEnough(s: Sys, acts: seq<Action>, r: Sys)
    requires GentleInv(s) && Exec(s, acts) == Some(r) && GentleRun(s, acts)
    ensures HarmlessRun(s, acts) && NothingOverwrites(s, acts) && NothingContradicts(s, acts)
    decreases |acts|
  {
    hide Do, Inv, KeepsLive, Gentle, Dangerous, Overwrites;
    if acts != [] {
      var n := Do(s, acts[0]).value;
      GentleIsHarmless(s, acts[0]);
      forall sid ensures !Overwrites(s, acts[0], sid) {
        GentleOverwritesNothing(s, acts[0], sid);
      }
      assert forall sid :: !Contradicts(s, acts[0], sid);
      hide GentleInv;
      GentleKept(s, acts[0], n);
      GentleIsEnough(n, acts[1..], r);
    }
  }

  /**
   * In every run without a direct close under an eval's operation lock, whatever else happens: a command
   * gets at most one terminal record, the record repeats what the session shows, and all statuses change
   * legally.
   */
  lemma AtMostOneRecord(acts: seq<Action>, r: Sys)
    requires Exec(INITIAL, acts) == Some(r) && GentleRun(INITIAL, acts)
    ensures OneRecordEach(r.log)
    ensures forall i, sid :: 0 <= i < |r.log| && sid in r.slots ==> ShowsRecord(r.slots[sid].session, r.log[i])
    ensures LegalRun(INITIAL, acts)
  {
    InvInitially();
    assert GentleInv(INITIAL) by { hide Inv; }
    hide Do, Inv, GentleInv, ShowsRecord;
    GentleIsEnough(INITIAL, acts, r);
    OneRecordWithoutDanger(acts, r);
    RecordsAreShown(acts, r);
    StatusIsExact(INITIAL, acts, r);
  }
}
