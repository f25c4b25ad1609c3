/**
 * Exactly when a command may get a second terminal record.
 *
 * The one dangerous step is a `close_session` that moves its session straight to Closed while the eval
 * inside the operation lock can still write a record there for a command whose status was decided before.
 */
module SessionExactness {
  import opened Wrappers
  import opened SessionManager
  import opened SessionInvariant
  import opened SessionProperties

  /** The eval may yet write a record although its session is Closed. */
  predicate MayRecordInClosed(t: Thread) {
    Executes(t) && (t.eval.Finishing? ==> FinishApplies(Closed, t.eval.next, t.eval.status) && t.eval.records)
  }

  /** The step is a direct close under an eval that may yet record a command decided before. */
  ghost predicate Dangerous(s: Sys, a: Action) {
    && a.Step? && a.move.CloseRequest? && a.tid in s.threads && s.threads[a.tid].sid in s.slots
    && ClosesDirectly(s.threads[a.tid], s.slots[s.threads[a.tid].sid].session)
    && exists u :: RecordsAgain(s, s.threads[a.tid].sid, u)
  }

  ghost predicate RecordsAgain(s: Sys, sid: SessionId, u: ThreadId) {
    u in s.threads && s.threads[u].sid == sid && MayRecordInClosed(s.threads[u]) && s.threads[u].eval.id in s.claims
  }

  // ----- What holds without such a step -----

  /** A live command is undecided. */
  predicate LastOk(x: Session, claims: map<CommandId, OperationStatus>) {
    HasLive(x) ==> x.last.value.id !in claims
  }

  /** An eval whose command is decided cannot record it: its session is Closing, Error, or Closed to it. */
  predicate EvalOk(t: Thread, x: Session, claims: map<CommandId, OperationStatus>) {
    Executes(t) && t.eval.id in claims ==>
      x.state == Closing || x.state == Error || (x.state == Closed && !MayRecordInClosed(t))
  }

  ghost predicate Undecided(s: Sys)
    requires ThreadsPlaced(s)
  {
    && (forall tid :: tid in s.threads ==> EvalOk(s.threads[tid], s.slots[s.threads[tid].sid].session, s.claims))
    && (forall sid :: sid in s.slots ==> LastOk(s.slots[sid].session, s.claims))
    && (forall id :: id in s.claims ==> id < s.nextId)
  }

  ghost predicate HarmlessInv(s: Sys) {
    Inv(s) && Undecided(s) && RecordsOk(s)
  }

  lemma HarmlessInitially()
    ensures HarmlessInv(INITIAL)
  {
  }

  // ----- One step on its own slot -----

  ghost predicate UndecidedBefore(tid: ThreadId, t: Thread, slot: Slot, nextId: CommandId,
      claims: map<CommandId, OperationStatus>) {
    && Before(tid, t, slot, nextId)
    && LastOk(slot.session, claims)
    && EvalOk(t, slot.session, claims)
    && (forall id :: id in claims ==> id < nextId)
  }

  /** What a step outside the lock does to the session of an eval inside it. */
  predicate SparesEval(t: Thread, x: Session, e: Effect) {
    var y := e.slot.session;
    !Holds(t) ==>
      && (e.claim.Some? ==> y.state == Error)
      && (x.state == Closing || x.state == Error ==> y.state == Closing || y.state == Error || ClosesDirectly(t, x))
      && (x.state == Closed ==> y.state == Closed || y.state == Error)
      && (ClosesDirectly(t, x) ==> y.state == Closed && e.claim.None?)
  }

  function ClaimsAfter(claims: map<CommandId, OperationStatus>, e: Effect): map<CommandId, OperationStatus> {
    if e.claim.Some? then claims[e.claim.value.id := e.claim.value.status] else claims
  }

  predicate UndecidedAfter(t: Thread, x: Session, claims: map<CommandId, OperationStatus>, e: Effect) {
    && (e.claim.Some? ==> e.claim.value.id !in claims)
    && SparesEval(t, x, e)
    && LastOk(e.slot.session, ClaimsAfter(claims, e))
    && (e.next.Some? ==> EvalOk(e.next.value, e.slot.session, ClaimsAfter(claims, e)))
  }

  lemma StartupDecides(tid: ThreadId, move: Move, t: Thread, slot: Slot, nextId: CommandId,
      claims: map<CommandId, OperationStatus>, e: Effect)
    requires t.CreateTail? || t.Startup?
    requires TakeStartup(tid, move, t, slot) == Some(e) && UndecidedBefore(tid, t, slot, nextId, claims)
    ensures UndecidedAfter(t, slot.session, claims, e)
  {
  }

  lemma EvalDecides(tid: ThreadId, move: Move, t: Thread, slot: Slot, nextId: CommandId,
      claims: map<CommandId, OperationStatus>, e: Effect)
    requires t.Eval?
    requires TakeEval(tid, move, t, slot, nextId) == Some(e) && UndecidedBefore(tid, t, slot, nextId, claims)
    ensures UndecidedAfter(t, slot.session, claims, e)
  {
  }

  lemma OtherDecides(tid: ThreadId, move: Move, t: Thread, slot: Slot, nextId: CommandId,
      claims: map<CommandId, OperationStatus>, e: Effect)
    requires !t.CreateTail? && !t.Startup? && !t.Eval?
    requires TakeOther(tid, move, t, slot) == Some(e) && UndecidedBefore(tid, t, slot, nextId, claims)
    ensures UndecidedAfter(t, slot.session, claims, e)
  {
  }

  lemma LocalDecides(tid: ThreadId, move: Move, t: Thread, slot: Slot, nextId: CommandId,
      claims: map<CommandId, OperationStatus>, e: Effect)
    requires Take(tid, move, t, slot, nextId) == Some(e) && UndecidedBefore(tid, t, slot, nextId, claims)
    ensures UndecidedAfter(t, slot.session, claims, e)
  {
    hide TakeStartup, TakeEval, TakeOther, UndecidedBefore, UndecidedAfter;
    if t.CreateTail? || t.Startup? {
      StartupDecides(tid, move, t, slot, nextId, claims, e);
    } else if t.Eval? {
      EvalDecides(tid, move, t, slot, nextId, claims, e);
    } else {
      OtherDecides(tid, move, t, slot, nextId, claims, e);
    }
  }

  // ----- All steps -----

  /** The thread `tid` takes a step with effect `e` that is not dangerous. */
  ghost predicate Harmlessly(s: Sys, tid: ThreadId, e: Effect) {
    && Stepping(s, tid, e)
    && UndecidedAfter(s.threads[tid], s.slots[s.threads[tid].sid].session, s.claims, e)
    && (ClosesDirectly(s.threads[tid], s.slots[s.threads[tid].sid].session) ==>
          forall u :: !RecordsAgain(s, s.threads[tid].sid, u))
  }

  lemma LastsUndecided(s: Sys, tid: ThreadId, e: Effect)
    requires Harmlessly(s, tid, e) && ThreadsPlaced(s) && Undecided(s) && IdsApart(s)
    ensures var r := Stepped(s, tid, e); forall sid :: sid in r.slots ==> LastOk(r.slots[sid].session, r.claims)
    ensures forall id :: id in Stepped(s, tid, e).claims ==> id < Stepped(s, tid, e).nextId
  {
    hide PositionAfter, SessionOk, CloserStep, IdStep, OthersStep, DebtStep, SparesEval, EvalOk, RecordsAgain;
  }

  lemma EvalUndecided(s: Sys, tid: ThreadId, e: Effect, u: ThreadId)
    requires Harmlessly(s, tid, e) && LocksAgree(s) && ThreadsPlaced(s) && Undecided(s) && IdsApart(s)
    requires u in s.threads && u != tid
    ensures s.threads[u].sid in Stepped(s, tid, e).slots
    ensures EvalOk(s.threads[u], Stepped(s, tid, e).slots[s.threads[u].sid].session, Stepped(s, tid, e).claims)
  {
    hide PositionAfter, SessionOk, CloserStep, IdStep, OthersStep, DebtStep, LastOk;
    var t, x := s.threads[u], s.slots[s.threads[u].sid].session;
    assert EvalOk(t, x, s.claims);
    if Executes(t) && t.sid == s.threads[tid].sid {
      assert HolderIs(s, t.sid, u);
      HolderIsAlone(s, tid, u);
      assert !RecordsAgain(s, t.sid, u) || !ClosesDirectly(s.threads[tid], x);
    }
  }

  lemma HarmlessStep(s: Sys, tid: ThreadId, e: Effect)
    requires HarmlessInv(s) && tid in s.threads && Harmlessly(s, tid, e)
    ensures HarmlessInv(Stepped(s, tid, e))
  {
    var r := Stepped(s, tid, e);
    InvStep(s, tid, e);
    StepSettles(s, tid, e);
    assert Recording(s, tid, e) by { hide Inv, Stepping; }
    RecordsOkKept(s, tid, e);
    LastsUndecided(s, tid, e);
    hide LocksAgree, SessionsOk, ThreadsOk, ClosersApart, IdsApart, LiveHeld, RecordsKnown, RecordsOk, NothingLost,
      Harmlessly, Settling, Recording, EvalOk, LastOk;
    forall u | u in r.threads
      ensures EvalOk(r.threads[u], r.slots[r.threads[u].sid].session, r.claims)
    {
      if u != tid && u in s.threads {
        OtherThreadSame(s, tid, e, u);
        EvalUndecided(s, tid, e, u);
      } else {
        OwnEvalUndecided(s, tid, e, u);
      }
    }
  }

  lemma OtherThreadSame(s: Sys, tid: ThreadId, e: Effect, u: ThreadId)
    requires Locking(s, tid, e) && u in s.threads && u != tid
    ensures u in Stepped(s, tid, e).threads && Stepped(s, tid, e).threads[u] == s.threads[u]
  {
  }

  lemma OwnEvalUndecided(s: Sys, tid: ThreadId, e: Effect, u: ThreadId)
    requires Harmlessly(s, tid, e) && u in Stepped(s, tid, e).threads && (u == tid || u !in s.threads)
    ensures var r := Stepped(s, tid, e);
      r.threads[u].sid in r.slots && EvalOk(r.threads[u], r.slots[r.threads[u].sid].session, r.claims)
  {
    hide LockStep, LiveStep, ThreadOk, SessionAfter, SparesEval, LastOk, RecordsAgain, ClosesDirectly;
  }

  lemma UndecidedAfterCall(s: Sys, a: Action, r: Sys)
    requires ThreadsPlaced(s) && ThreadsPlaced(r) && Undecided(s) && !a.Step? && Calls(s, a, r)
    ensures Undecided(r)
  {
    hide Holds, Owes, IsCloser, MayRecordInClosed;
    forall u | u in r.threads
      ensures EvalOk(r.threads[u], r.slots[r.threads[u].sid].session, r.claims)
    {
      if u in s.threads { assert EvalOk(s.threads[u], s.slots[s.threads[u].sid].session, s.claims); }
    }
  }

  lemma HarmlessCallKept(s: Sys, a: Action, r: Sys)
    requires HarmlessInv(s) && !a.Step? && Do(s, a) == Some(r)
    ensures HarmlessInv(r)
  {
    InvKept(s, a, r);
    CallEffect(s, a, r);
    hide Do, Calls, LocksAgree, SessionsOk, ThreadsOk, ClosersApart, IdsApart, LiveHeld, RecordsKnown, RecordsOk,
      NothingLost, Undecided;
    UndecidedAfterCall(s, a, r);
    DebtsAfterCall(s, a, r);
  }

  /** Every step that is not dangerous keeps the records apart and their commands undecided before. */
  lemma HarmlessKept(s: Sys, a: Action, r: Sys)
    requires HarmlessInv(s) && !Dangerous(s, a) && Do(s, a) == Some(r)
    ensures HarmlessInv(r)
  {
    if a.Step? {
      var e := EffectOf(s, a, r);
      var t, slot := s.threads[a.tid], s.slots[s.threads[a.tid].sid];
      DirectIsRequest(a.tid, a.move, t, slot, s.nextId);
      hide Do, Take, RecordsAgain, Stepping, Stepped, Before, UndecidedAfter;
      BeforeStep(s, a.tid);
      LocalDecides(a.tid, a.move, t, slot, s.nextId, s.claims, e);
      hide HarmlessInv;
      HarmlessStep(s, a.tid, e);
    } else {
      HarmlessCallKept(s, a, r);
    }
  }

  lemma DirectIsRequest(tid: ThreadId, move: Move, t: Thread, slot: Slot, nextId: CommandId)
    requires Take(tid, move, t, slot, nextId).Some?
    ensures ClosesDirectly(t, slot.session) ==> move.CloseRequest?
  {
  }

  // ----- Over runs -----

  /** No step of the run is dangerous. */
  ghost predicate HarmlessRun(s: Sys, acts: seq<Action>)
    decreases |acts|
  {
    acts == [] || (!Dangerous(s, acts[0]) && (Do(s, acts[0]).Some? ==> HarmlessRun(Do(s, acts[0]).value, acts[1..])))
  }

  lemma {:induction false} HarmlessInvOfRun(s: Sys, acts: seq<Action>, r: Sys)
    requires HarmlessInv(s) && Exec(s, acts) == Some(r) && HarmlessRun(s, acts)
    ensures HarmlessInv(r)
    decreases |acts|
  {
    hide Do, Dangerous, HarmlessInv;
    if acts != [] {
      HarmlessKept(s, acts[0], Do(s, acts[0]).value);
      HarmlessInvOfRun(Do(s, acts[0]).value, acts[1..], r);
    }
  }

  /** In every run without a dangerous step, no command gets two terminal records. */
  lemma OneRecordWithoutDanger(acts: seq<Action>, r: Sys)
    requires Exec(INITIAL, acts) == Some(r) && HarmlessRun(INITIAL, acts)
    ensures OneRecordEach(r.log)
  {
    HarmlessInitially();
    hide Do, Inv, Undecided;
    HarmlessInvOfRun(INITIAL, acts, r);
  }

  // ----- After a dangerous step -----

  /** No step of the run is the region of a `close_session`. */
  predicate NoRequests(acts: seq<Action>) {
    forall i :: 0 <= i < |acts| ==> !(acts[i].Step? && acts[i].move.CloseRequest?)
  }

  lemma {:induction false} NoRequestsIsHarmless(s: Sys, acts: seq<Action>)
    requires NoRequests(acts)
    ensures HarmlessRun(s, acts)
    decreases |acts|
  {
    hide Do;
    if acts != [] {
      assert !Dangerous(s, acts[0]);
      if Do(s, acts[0]).Some? {
        NoRequestsIsHarmless(Do(s, acts[0]).value, acts[1..]);
      }
    }
  }

  /** The thread that owes a record writes it, and disturbs no eval and no session. */
  lemma OwedIsWritten(s: Sys, w: ThreadId, id: CommandId, u: ThreadId) returns (acts: seq<Action>, r: Sys)
    requires IsOwed(s.threads, w, id) && s.threads[w].sid in s.slots
    requires u in s.threads && u != w && s.threads[u].sid in s.slots
    ensures Exec(s, acts) == Some(r) && NoRequests(acts)
    ensures Logged(r.log, id) && u in r.threads && r.threads[u] == s.threads[u]
    ensures s.threads[u].sid in r.slots && r.slots[s.threads[u].sid].session == s.slots[s.threads[u].sid].session
  {
    var first := s;
    acts := [];
    if s.threads[w].WorkerLost? {
      first := Do(s, Step(w, MonitorRemove)).value;
      acts := [Step(w, MonitorRemove)];
      assert first.threads[w] == Writing(s.threads[w].sid, s.threads[w].owed.value, false);
      assert acts == [Step(w, MonitorRemove)] + [];
      ExecOne(s, Step(w, MonitorRemove), first, []);
    }
    assert first.threads[w].Writing? && first.threads[w].record.id == id;
    hide Do;
    r := WriteOwed(first, w, u);
    ExecOne(first, Step(w, Write), r, []);
    assert [Step(w, Write)] + [] == [Step(w, Write)];
    ExecAppend(s, acts, [Step(w, Write)]);
    acts := acts + [Step(w, Write)];
  }

  lemma WriteOwed(s: Sys, w: ThreadId, u: ThreadId) returns (r: Sys)
    requires w in s.threads && s.threads[w].Writing? && s.threads[w].sid in s.slots
    requires u in s.threads && u != w && s.threads[u].sid in s.slots
    ensures Do(s, Step(w, Write)) == Some(r)
    ensures Logged(r.log, s.threads[w].record.id) && u in r.threads && r.threads[u] == s.threads[u]
    ensures s.threads[u].sid in r.slots && r.slots[s.threads[u].sid].session == s.slots[s.threads[u].sid].session
  {
    r := Do(s, Step(w, Write)).value;
    assert r.log[|s.log|] == s.threads[w].record;
  }

  /** The eval writes its record although the session is Closed. */
  lemma EvalWritesInClosed(s: Sys, u: ThreadId) returns (acts: seq<Action>, r: Sys)
    requires u in s.threads && s.threads[u].sid in s.slots && MayRecordInClosed(s.threads[u])
    requires s.slots[s.threads[u].sid].session.state == Closed
    ensures Exec(s, acts) == Some(r) && NoRequests(acts)
    ensures r.log == s.log + [Record(s.threads[u].eval.id, OpFinished)]
  {
    if s.threads[u].eval.Executing? {
      EvalRecordsInClosed(s, u);
      acts := RepeatingEnd(0, u)[1..];
      r := Exec(s, acts).value;
    } else {
      r := FinishInClosed(s, u);
      acts := [Step(u, EvalFinish), Step(u, Write)];
    }
  }

  lemma FinishInClosed(s: Sys, u: ThreadId) returns (r: Sys)
    requires u in s.threads && s.threads[u].sid in s.slots
    requires MayRecordInClosed(s.threads[u]) && s.threads[u].eval.Finishing?
    requires s.slots[s.threads[u].sid].session.state == Closed
    ensures Exec(s, [Step(u, EvalFinish), Step(u, Write)]) == Some(r)
    ensures r.log == s.log + [Record(s.threads[u].eval.id, OpFinished)]
  {
    hide TakeStartup, TakeOther;
    var n := Do(s, Step(u, EvalFinish)).value;
    assert n.threads[u] == Writing(s.threads[u].sid, Record(s.threads[u].eval.id, OpFinished), true);
    r := WritesRecord(n, u);
    hide Do;
    ExecOne(n, Step(u, Write), r, []);
    ExecOne(s, Step(u, EvalFinish), n, [Step(u, Write)]);
    assert [Step(u, EvalFinish)] + [Step(u, Write)] == [Step(u, EvalFinish), Step(u, Write)];
    assert [Step(u, Write)] + [] == [Step(u, Write)];
  }

  lemma DangerousClose(s: Sys, a: Action, r: Sys, u: ThreadId)
    requires Dangerous(s, a) && Do(s, a) == Some(r) && RecordsAgain(s, s.threads[a.tid].sid, u)
    ensures u in r.threads && r.threads[u] == s.threads[u] && u != a.tid
    ensures s.threads[u].sid in r.slots && r.slots[s.threads[u].sid].session.state == Closed
    ensures r.log == s.log
    ensures forall w, id :: IsOwed(s.threads, w, id) ==>
      IsOwed(r.threads, w, id) && w != u && r.threads[w].sid == s.threads[w].sid
    ensures s.slots.Keys == r.slots.Keys
  {
  }

  /** A decided command that is recorded again gets its first record, if it has none, from the thread that owes it. */
  lemma FirstRecord(s: Sys, r: Sys, sid: SessionId, u: ThreadId) returns (acts: seq<Action>, n: Sys)
    requires NothingLost(s) && ThreadsPlaced(s) && RecordsAgain(s, sid, u) && sid in s.slots
    requires u in r.threads && r.threads[u] == s.threads[u] && r.log == s.log && s.slots.Keys == r.slots.Keys
    requires forall w, id :: IsOwed(s.threads, w, id) ==>
      IsOwed(r.threads, w, id) && w != u && r.threads[w].sid == s.threads[w].sid
    ensures Exec(r, acts) == Some(n) && NoRequests(acts) && Logged(n.log, s.threads[u].eval.id)
    ensures u in n.threads && n.threads[u] == s.threads[u]
    ensures sid in n.slots && n.slots[sid].session == r.slots[sid].session
  {
    hide Owes;
    var id := s.threads[u].eval.id;
    if Logged(s.log, id) {
      acts, n := [], r;
    } else {
      var w :| IsOwed(s.threads, w, id);
      acts, n := OwedIsWritten(r, w, id, u);
    }
  }

  lemma HarmlessRemembers(s: Sys)
    requires HarmlessInv(s)
    ensures NothingLost(s) && ThreadsPlaced(s)
  {
    hide LocksAgree, SessionsOk, ThreadsOk, ClosersApart, IdsApart, LiveHeld, RecordsKnown, NothingLost, RecordsOk,
      Undecided;
  }

  /** After a dangerous step, a run of the remaining threads alone ends with two records for one command. */
  lemma DangerRepeats(s: Sys, a: Action, r: Sys) returns (acts: seq<Action>)
    requires HarmlessInv(s) && Dangerous(s, a) && Do(s, a) == Some(r)
    ensures NoRequests(acts) && Exec(r, acts).Some? && !OneRecordEach(Exec(r, acts).value.log)
  {
    hide Do, Exec, HarmlessInv, NothingLost, ThreadsPlaced, Logged, OneRecordEach, IsOwed;
    var sid := s.threads[a.tid].sid;
    var u :| RecordsAgain(s, sid, u);
    DangerousClose(s, a, r, u);
    hide Dangerous;
    HarmlessRemembers(s);
    var first, n := FirstRecord(s, r, sid, u);
    var second, end := EvalWritesInClosed(n, u);
    ExecAppend(r, first, second);
    acts := first + second;
    TwiceLogged(n.log, end.log, s.threads[u].eval.id);
  }

  lemma TwiceLogged(log: seq<Record>, more: seq<Record>, id: CommandId)
    requires Logged(log, id) && more == log + [Record(id, OpFinished)]
    ensures !OneRecordEach(more)
  {
    var i :| 0 <= i < |log| && log[i].id == id;
    assert more[i].id == more[|log|].id;
  }

  /** Two records for one command are still to come. */
  ghost predicate MayRepeat(r: Sys, acts: seq<Action>) {
    HarmlessRun(r, acts) && Exec(r, acts).Some? && !OneRecordEach(Exec(r, acts).value.log)
  }

  /**
   * From every state reached without danger, a step makes a second record of some command possible, with
   * no further dangerous step, if and only if it is dangerous.
   */
  lemma DangerIsExact(s: Sys, a: Action, r: Sys)
    requires HarmlessInv(s) && Do(s, a) == Some(r)
    ensures Dangerous(s, a) <==> exists acts :: MayRepeat(r, acts)
  {
    hide Do, Dangerous;
    if Dangerous(s, a) {
      var acts := DangerRepeats(s, a, r);
      NoRequestsIsHarmless(r, acts);
      assert MayRepeat(r, acts);
    } else {
      HarmlessKept(s, a, r);
      forall acts
        ensures !MayRepeat(r, acts)
      {
        if HarmlessRun(r, acts) && Exec(r, acts).Some? {
          HarmlessInvOfRun(r, acts, Exec(r, acts).value);
        }
      }
    }
  }
}
