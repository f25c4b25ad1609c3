/** Which supervisor a request is given to, in every interleaving: the one its caller saw running, or a new one. */
module MultiplexerStarts {
  import opened Wrappers
  import opened SupervisorMultiplexer
  import opened MultiplexerRouting
  import opened MultiplexerHistory

  /** Inside the state mutex. */
  predicate IsInside(pc: Pc) {
    IsStarting(pc) && !pc.WantState?
  }

  /** On the way to another supervisor, as there is none. */
  predicate IsReplacing(pc: Pc) {
    pc.ClearChild? || pc.ClearPending? || pc.Spawn? || pc.SetChild? || pc.SetPending? || pc.SetState?
  }

  predicate HoldsLock(h: Handles, c: CallId, pc: Pc) {
    (IsInside(pc) ==> h.lock == Some(c)) && (IsReplacing(pc) ==> h.process.None?)
  }

  ghost predicate LockOk(s: Sys) {
    forall c :: c in s.calls ==> HoldsLock(s.handles, c, s.calls[c])
  }

  /** The call is on its way to a ticket of this supervisor, or has one. */
  predicate IsHeadedFor(s: Sys, c: CallId, inc: Incarnation) {
    && c in s.calls
    && match s.calls[c]
       case SetChild(i) => i == inc
       case SetPending(i) => i == inc
       case SetState(i) => i == inc
       case TakeTicket => s.handles.process == Some(inc)
       case pc => !IsStarting(pc) && c in s.tickets && s.tickets[c].inc == inc
  }

  ghost predicate HeadingsStep(s: Sys, a: Action, r: Sys) {
    forall c, inc :: IsHeadedFor(r, c, inc) <==> IsHeadedFor(s, c, inc) || Does(s, a, SettlesOn(c, inc))
  }

  // ----- One step -----

  /** Only the call `c` moves, and only what it holds, or nobody holds, changes. */
  ghost predicate OnlyMoves(s: Sys, r: Sys, c: CallId) {
    && (forall d :: d != c ==>
          && (d in r.calls <==> d in s.calls) && (d in s.calls ==> r.calls[d] == s.calls[d])
          && (d in r.tickets <==> d in s.tickets) && (d in s.tickets ==> r.tickets[d] == s.tickets[d]))
    && (r.handles.process != s.handles.process || r.handles.lock != s.handles.lock ==>
          s.handles.lock.None? || s.handles.lock == Some(c))
  }

  lemma OthersKeepTheirHeading(s: Sys, r: Sys, c: CallId)
    requires LockOk(s) && OnlyMoves(s, r, c)
    ensures forall d, inc :: d != c ==> (IsHeadedFor(r, d, inc) <==> IsHeadedFor(s, d, inc))
    ensures forall d :: d != c && d in r.calls ==> HoldsLock(r.handles, d, r.calls[d])
  {
  }

  /** What one call's own step does to it. */
  ghost predicate OwnStep(s: Sys, a: Action, r: Sys, c: CallId) {
    && (c in r.calls ==> HoldsLock(r.handles, c, r.calls[c]))
    && forall inc :: IsHeadedFor(r, c, inc) <==> IsHeadedFor(s, c, inc) || Does(s, a, SettlesOn(c, inc))
  }

  lemma StartOnlyMoves(s: Sys, c: CallId, choice: Choice, r: Sys)
    requires LockOk(s) && c in s.calls && IsStarting(s.calls[c]) && TakeStart(s, c, choice) == Some(r)
    ensures OnlyMoves(s, r, c)
  {
    hide IsIssued;
  }

  lemma StartStepKeeps(s: Sys, c: CallId, choice: Choice, r: Sys)
    requires LockOk(s) && TicketsOk(s) && c in s.calls && IsStarting(s.calls[c])
    requires !s.calls[c].TakeTicket? && !(s.calls[c].Spawn? && choice.ok)
    requires TakeStart(s, c, choice) == Some(r)
    ensures OwnStep(s, Caller(c, choice), r, c)
  {
    hide IsIssued;
    assert c !in s.tickets && HoldsLock(s.handles, c, s.calls[c]);
    hide TicketsOk, LockOk;
  }

  lemma SpawnKeeps(s: Sys, c: CallId, choice: Choice, r: Sys)
    requires LockOk(s) && TicketsOk(s) && c in s.calls && s.calls[c].Spawn? && choice.ok
    requires TakeStart(s, c, choice) == Some(r)
    ensures OwnStep(s, Caller(c, choice), r, c)
  {
    hide IsIssued;
    assert c !in s.tickets && HoldsLock(s.handles, c, s.calls[c]);
    hide TicketsOk, LockOk;
  }

  lemma TicketKeeps(s: Sys, c: CallId, choice: Choice, r: Sys)
    requires LockOk(s) && TicketsOk(s) && c in s.calls && s.calls[c].TakeTicket?
    requires TakeStart(s, c, choice) == Some(r)
    ensures OwnStep(s, Caller(c, choice), r, c)
  {
    assert r.tickets[c].inc == s.handles.process.value && r.calls[c].Register?;
    hide TicketsOk, LockOk, TakeStart;
  }

  /** A step outside the start moves no heading. */
  lemma OtherStepsKeep(s: Sys, a: Action, r: Sys, c: CallId)
    requires TicketsOk(s) && OnlyMoves(s, r, c) && LockOk(s) && r.tickets == s.tickets
    requires c in s.calls ==> c in r.calls && !IsStarting(s.calls[c]) && !IsStarting(r.calls[c])
    requires c !in s.calls && c in r.calls ==> !IsInside(r.calls[c])
    requires a.Caller? ==> a.c == c
    ensures LockOk(r) && HeadingsStep(s, a, r)
  {
    hide IsIssued;
    OthersKeepTheirHeading(s, r, c);
  }

  lemma RequestMoves(s: Sys, c: CallId, choice: Choice, r: Sys)
    requires c in s.calls && HasTicket(s.calls[c]) && TakeRequest(s, c, choice) == Some(r)
    ensures OnlyMoves(s, r, c) && r.tickets == s.tickets && c in r.calls && !IsStarting(r.calls[c])
  {
  }

  lemma KillStepMoves(stage: KillStage, h: Handles, ok: bool)
    requires !stage.Drain? && !stage.SendAll?
    ensures var (after, pc) := KillStep(stage, h, ok);
      after.lock == h.lock && (after.process != h.process ==> h.lock.None?) && (pc.Kill? || pc.Done?)
  {
  }

  lemma KillMoves(s: Sys, c: CallId, choice: Choice, r: Sys)
    requires c in s.calls && s.calls[c].Kill? && TakeKill(s, c, choice) == Some(r)
    ensures OnlyMoves(s, r, c) && r.tickets == s.tickets && c in r.calls && !IsStarting(r.calls[c])
  {
    hide KillStep, Drained;
    var stage := s.calls[c].stage;
    if !stage.Drain? && !stage.SendAll? {
      KillStepMoves(stage, s.handles, choice.ok);
    }
  }

  lemma ReaderMoves(s: Sys, a: Action, r: Sys)
    requires (a.Read? || a.Deliver? || a.Exit?) && Do(s, a) == Some(r)
    ensures r.calls == s.calls && r.tickets == s.tickets && r.handles == s.handles
  {
    hide Drained, Without;
  }

  lemma NewCallOnlyMoves(s: Sys, c: CallId, pc: Pc, r: Sys)
    requires NewCall(s, c, pc) == Some(r)
    ensures OnlyMoves(s, r, c) && r.tickets == s.tickets && c !in s.calls && c in r.calls && r.calls[c] == pc
  {
  }

  /** Every step keeps the mutex in order, and changes where a call is headed exactly if it settles it. */
  lemma HeadingsKept(s: Sys, a: Action, r: Sys)
    requires LockOk(s) && TicketsOk(s) && Do(s, a) == Some(r)
    ensures LockOk(r) && HeadingsStep(s, a, r)
  {
    match a
    case Caller(c, choice) =>
      if !HasTicket(s.calls[c]) && !s.calls[c].Kill? {
        StartHeadingsKept(s, c, choice, r);
      } else {
        if HasTicket(s.calls[c]) {
          RequestMoves(s, c, choice, r);
        } else {
          KillMoves(s, c, choice, r);
        }
        hide Do, LockOk, TicketsOk, OnlyMoves, HeadingsStep;
        OtherStepsKeep(s, a, r, c);
      }
    case Request(c) =>
      NewCallOnlyMoves(s, c, WantState(false), r);
      hide Do, LockOk, TicketsOk, OnlyMoves, HeadingsStep;
      OtherStepsKeep(s, a, r, c);
    case ProbeCall(c) =>
      NewCallOnlyMoves(s, c, WantState(true), r);
      hide Do, LockOk, TicketsOk, OnlyMoves, HeadingsStep;
      OtherStepsKeep(s, a, r, c);
    case KillCall(c) =>
      NewCallOnlyMoves(s, c, Kill(TakeChild), r);
      hide Do, LockOk, TicketsOk, OnlyMoves, HeadingsStep;
      OtherStepsKeep(s, a, r, c);
    case _ =>
      ReaderMoves(s, a, r);
      hide Do, TicketsOk;
  }

  lemma StartHeadingsKept(s: Sys, c: CallId, choice: Choice, r: Sys)
    requires LockOk(s) && TicketsOk(s) && c in s.calls && !HasTicket(s.calls[c]) && !s.calls[c].Kill?
    requires TakeStart(s, c, choice) == Some(r)
    ensures LockOk(r) && HeadingsStep(s, Caller(c, choice), r)
  {
    assert IsStarting(s.calls[c]);
    StartOnlyMoves(s, c, choice, r);
    OthersKeepTheirHeading(s, r, c);
    if s.calls[c].TakeTicket? {
      TicketKeeps(s, c, choice, r);
    } else if s.calls[c].Spawn? && choice.ok {
      SpawnKeeps(s, c, choice, r);
    } else {
      StartStepKeeps(s, c, choice, r);
    }
    hide TakeStart, TicketsOk, OnlyMoves, IsHeadedFor;
  }

  // ----- Over runs -----

  /** In every run, a call is headed for exactly the supervisors it has settled on. */
  lemma {:induction false} HeadedWhereSettled(acts: seq<Action>, r: Sys)
    requires Exec(INITIAL, acts) == Some(r)
    ensures LockOk(r)
    ensures forall c, inc :: IsHeadedFor(r, c, inc) <==> Did(acts, SettlesOn(c, inc))
    decreases |acts|
  {
    if acts != [] {
      var most, a := acts[..|acts| - 1], acts[|acts| - 1];
      assert acts == most + [a];
      ExecEnds(INITIAL, most, a);
      var s := Exec(INITIAL, most).value;
      HeadedWhereSettled(most, s);
      Reached(most, s);
      hide Do, Exec, LockOk, IsHeadedFor, Did, Does;
      HeadingsKept(s, a, r);
      forall c, inc
        ensures IsHeadedFor(r, c, inc) <==> Did(acts, SettlesOn(c, inc))
      {
        DidStep(most, s, a, SettlesOn(c, inc));
      }
    }
  }

  /**
   * In every run, a request goes to the one supervisor its call settled on: the current one, which it saw running
   * then, or one it started, which it does only when it has found none running.
   */
  lemma RequestsGoToLiveSupervisors(acts: seq<Action>, r: Sys, c: CallId, inc: Incarnation)
    requires Exec(INITIAL, acts) == Some(r) && c in r.tickets
    ensures r.tickets[c].inc == inc <==> Did(acts, SettlesOn(c, inc))
  {
    HeadedWhereSettled(acts, r);
    hide Did, Exec;
    Reached(acts, r);
    hide Inv;
    assert IsHeadedFor(r, c, inc) <==> Did(acts, SettlesOn(c, inc));
  }
}
