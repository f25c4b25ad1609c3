/** What kills do, and which calls make them, in every interleaving. */
module MultiplexerKills {
  import opened Wrappers
  import opened SupervisorMultiplexer
  import opened MultiplexerRouting
  import opened MultiplexerHistory
  import opened MultiplexerStarts

  predicate IsDead(s: Sys, inc: Incarnation) {
    inc in s.supervisors && !s.supervisors[inc].alive
  }

  // ----- What a call's past says of where it is -----

  predicate IsKilling(pc: Pc) {
    pc.Kill? && !pc.stage.TakeChild?
  }

  /** The kill has come to its end, or could not kill the process. */
  ghost predicate HasKilled(did: iset<Deed>, c: CallId) {
    FailsToKill(c) in did || (PassesPending(c) in did && ClearsState(c) in did)
  }

  ghost predicate StagesOk(did: iset<Deed>, c: CallId, pc: Pc) {
    && (IsKilling(pc) ==> BeginsKill(c) in did)
    && (IsKilling(pc) && !pc.stage.KillChild? && !pc.stage.TakePending? ==> PassesPending(c) in did)
    && (BeginsKill(c) in did ==> IsKilling(pc) || (pc == Done(NoReply) && HasKilled(did, c)))
    && (pc.Kill? && pc.stage.KillChild? ==> TakesChild(c, pc.stage.inc) in did)
    && (pc.Kill? && pc.stage.Drain? ==> TakesPending(c, pc.stage.inc) in did)
  }

  /** A request begins a kill if and only if it has timed out. */
  ghost predicate TimeoutOk(did: iset<Deed>, c: CallId, pc: Pc, hasTicket: bool) {
    if hasTicket then
      TimesOut(c) in did <==>
        (pc.RemoveOwn? && pc.timedOut) || pc == Kill(TakeChild) || BeginsKill(c) in did
    else TimesOut(c) !in did
  }

  ghost predicate DoomOk(did: iset<Deed>, s: Sys, c: CallId)
    requires c in s.calls
  {
    forall inc :: TakesChild(c, inc) in did ==>
      s.calls[c] == Kill(KillChild(inc)) || IsDead(s, inc) || FailsToKill(c) in did
  }

  ghost predicate CallOk(did: iset<Deed>, s: Sys, c: CallId) {
    if c in s.calls then
      StagesOk(did, c, s.calls[c]) && TimeoutOk(did, c, s.calls[c], c in s.tickets) && DoomOk(did, s, c)
    else forall d: Deed :: d in did ==> d.c != c
  }

  ghost function Doing(s: Sys, a: Action): iset<Deed> {
    iset d: Deed | Does(s, a, d)
  }

  // ----- One step -----

  /** A call that does not move keeps its past; who is dead stays dead. */
  lemma OthersStayOk(did: iset<Deed>, s: Sys, a: Action, r: Sys, c: CallId)
    requires CallOk(did, s, c) && !(a.Caller? && a.c == c)
    requires c in r.calls <==> c in s.calls
    requires c in s.calls ==> r.calls[c] == s.calls[c] && (c in r.tickets <==> c in s.tickets)
    requires KeepsDead(s, r)
    ensures CallOk(did + Doing(s, a), r, c)
  {
    hide IsDead;
    assert forall d: Deed :: d.c == c ==> (d in did + Doing(s, a) <==> d in did);
  }

  lemma NewCallIsOk(did: iset<Deed>, s: Sys, a: Action, r: Sys, c: CallId)
    requires CallOk(did, s, c) && TicketsOk(s) && !a.Caller? && c !in s.calls && c in r.calls && r.tickets == s.tickets
    requires r.calls[c].WantState? || r.calls[c] == Kill(TakeChild)
    ensures CallOk(did + Doing(s, a), r, c)
  {
    assert Doing(s, a) == iset{};
  }

  /** Who is dead stays dead. */
  ghost predicate KeepsDead(s: Sys, r: Sys) {
    forall inc :: IsDead(s, inc) ==> IsDead(r, inc)
  }

  lemma StartKeepsDead(s: Sys, c: CallId, choice: Choice, r: Sys)
    requires c in s.calls && TakeStart(s, c, choice) == Some(r)
    ensures KeepsDead(s, r)
  {
    hide StartStep;
  }

  lemma StartLeads(s: Sys, c: CallId, choice: Choice, r: Sys)
    requires c in s.calls && IsStarting(s.calls[c]) && TakeStart(s, c, choice) == Some(r)
    ensures c in r.calls && (IsStarting(r.calls[c]) || r.calls[c].Register? || r.calls[c] == Done(NoReply))
    ensures s.calls[c].TakeTicket? <==> r.calls[c].Register?
    ensures r.tickets.Keys == s.tickets.Keys + if r.calls[c].Register? then {c} else {}
  {
  }

  /** On its way to a ticket a call only settles on a supervisor; with one it only times out. */
  lemma DeedsBeforeKills(s: Sys, c: CallId, choice: Choice)
    requires c in s.calls && !s.calls[c].Kill?
    ensures forall d: Deed :: d in Doing(s, Caller(c, choice)) ==>
      if IsStarting(s.calls[c]) then d.SettlesOn? else d == TimesOut(c)
    ensures TimesOut(c) in Doing(s, Caller(c, choice)) <==> s.calls[c].Waiting? && c in s.mail && s.mail[c] == []
  {
  }

  lemma StartStaysOk(did: iset<Deed>, s: Sys, c: CallId, choice: Choice, r: Sys)
    requires CallOk(did, s, c) && TicketsOk(s) && c in s.calls && IsStarting(s.calls[c])
    requires TakeStart(s, c, choice) == Some(r)
    ensures CallOk(did + Doing(s, Caller(c, choice)), r, c)
  {
    assert c !in s.tickets;
    hide Does, Doing, TicketsOk;
    DeedsBeforeKills(s, c, choice);
    StartLeads(s, c, choice, r);
    StartKeepsDead(s, c, choice, r);
    hide TakeStart, IsDead;
    KeepsPast(did, Doing(s, Caller(c, choice)), s, r, c);
  }

  /** Deeds that have nothing to do with kills leave a call's past before any kill as it is. */
  lemma KeepsPast(did: iset<Deed>, doing: iset<Deed>, s: Sys, r: Sys, c: CallId)
    requires c in s.calls && c in r.calls && CallOk(did, s, c) && KeepsDead(s, r)
    requires forall d: Deed :: d in doing ==> d.SettlesOn? || d == TimesOut(c)
    requires !s.calls[c].Kill? && (s.calls[c] == Done(NoReply) ==> r.calls[c] == Done(NoReply))
    requires !IsKilling(r.calls[c]) && TimeoutOk(did + doing, c, r.calls[c], c in r.tickets)
    ensures CallOk(did + doing, r, c)
  {
    assert forall d: Deed :: !d.SettlesOn? && !d.TimesOut? ==> (d in did + doing <==> d in did);
    hide IsDead, TimeoutOk;
  }

  lemma RequestLeads(s: Sys, c: CallId, choice: Choice, r: Sys)
    requires c in s.calls && HasTicket(s.calls[c]) && TakeRequest(s, c, choice) == Some(r)
    ensures c in r.calls && r.tickets == s.tickets
    ensures match s.calls[c]
      case Register(_) => r.calls[c].WriteRequest?
      case WriteRequest(t) => r.calls[c] == if choice.ok then Waiting(t) else RemoveOwn(t, false)
      case Waiting(t) => c in s.mail && if s.mail[c] == [] then r.calls[c] == RemoveOwn(t, true) else
        r.calls[c].Done? && r.calls[c].outcome.Got?
      case RemoveOwn(_, timedOut) => r.calls[c] == if timedOut then Kill(TakeChild) else Done(NoReply)
      case _ => false
  {
  }

  lemma RequestStaysOk(did: iset<Deed>, s: Sys, c: CallId, choice: Choice, r: Sys)
    requires CallOk(did, s, c) && TicketsOk(s) && c in s.calls && HasTicket(s.calls[c])
    requires TakeRequest(s, c, choice) == Some(r) && KeepsDead(s, r)
    ensures CallOk(did + Doing(s, Caller(c, choice)), r, c)
  {
    assert c in s.tickets;
    hide Does, Doing, TicketsOk;
    DeedsBeforeKills(s, c, choice);
    RequestLeads(s, c, choice, r);
    hide TakeRequest, KeepsDead;
    KeepsPast(did, Doing(s, Caller(c, choice)), s, r, c);
  }

  lemma KillLeads(s: Sys, c: CallId, choice: Choice, r: Sys)
    requires c in s.calls && s.calls[c].Kill? && TakeKill(s, c, choice) == Some(r)
    ensures c in r.calls && r.tickets == s.tickets
    ensures match s.calls[c].stage
      case TakeChild =>
        r.calls[c] == Kill(match s.handles.activeChild case Some(inc) => KillChild(inc) case None => TakePending)
      case KillChild(inc) =>
        if choice.ok then r.calls[c] == Kill(TakePending) && IsDead(r, inc) else r.calls[c] == Done(NoReply)
      case TakePending =>
        r.calls[c] == Kill(match s.handles.activePending case Some(inc) => Drain(inc) case None => ClearState)
      case Drain(_) => r.calls[c].Kill? && r.calls[c].stage.SendAll?
      case SendAll(calls) =>
        r.calls[c].Kill? && if calls == {} then r.calls[c].stage == ClearState else r.calls[c].stage.SendAll?
      case ClearState => r.calls[c] == Done(NoReply)
  {
    hide Drained;
  }

  lemma KillKeepsDead(s: Sys, c: CallId, choice: Choice, r: Sys)
    requires c in s.calls && s.calls[c].Kill? && TakeKill(s, c, choice) == Some(r)
    ensures KeepsDead(s, r)
  {
    hide KillStep, Drained;
  }

  lemma DeadStayDead(s: Sys, a: Action, r: Sys)
    requires Do(s, a) == Some(r)
    ensures KeepsDead(s, r)
  {
    hide TakeStart, TakeKill, Drained, Without;
    if a.Caller? && !HasTicket(s.calls[a.c]) {
      if s.calls[a.c].Kill? {
        KillKeepsDead(s, a.c, a.choice, r);
      } else {
        StartKeepsDead(s, a.c, a.choice, r);
      }
    }
  }

  lemma KillKeepsStages(did: iset<Deed>, s: Sys, c: CallId, choice: Choice, r: Sys)
    requires c in s.calls && s.calls[c].Kill? && StagesOk(did, c, s.calls[c]) && TakeKill(s, c, choice) == Some(r)
    ensures c in r.calls && StagesOk(did + Doing(s, Caller(c, choice)), c, r.calls[c])
  {
    KillLeads(s, c, choice, r);
    hide TakeKill, IsDead;
  }

  lemma KillKeepsDoom(did: iset<Deed>, s: Sys, c: CallId, choice: Choice, r: Sys)
    requires c in s.calls && s.calls[c].Kill? && DoomOk(did, s, c) && TakeKill(s, c, choice) == Some(r)
    requires KeepsDead(s, r)
    ensures c in r.calls && DoomOk(did + Doing(s, Caller(c, choice)), r, c)
  {
    KillLeads(s, c, choice, r);
    hide TakeKill, IsDead;
  }

  lemma KillKeepsTimeout(did: iset<Deed>, s: Sys, c: CallId, choice: Choice, r: Sys)
    requires c in s.calls && s.calls[c].Kill? && TakeKill(s, c, choice) == Some(r)
    requires StagesOk(did, c, s.calls[c]) && TimeoutOk(did, c, s.calls[c], c in s.tickets)
    ensures c in r.calls && r.tickets == s.tickets
    ensures TimeoutOk(did + Doing(s, Caller(c, choice)), c, r.calls[c], c in r.tickets)
  {
    KillLeads(s, c, choice, r);
    hide TakeKill, IsDead;
  }

  lemma KillStaysOk(did: iset<Deed>, s: Sys, c: CallId, choice: Choice, r: Sys)
    requires CallOk(did, s, c) && c in s.calls && s.calls[c].Kill? && TakeKill(s, c, choice) == Some(r)
    requires KeepsDead(s, r)
    ensures CallOk(did + Doing(s, Caller(c, choice)), r, c)
  {
    hide StagesOk, DoomOk, TimeoutOk, TakeKill, Doing;
    KillKeepsStages(did, s, c, choice, r);
    KillKeepsDoom(did, s, c, choice, r);
    KillKeepsTimeout(did, s, c, choice, r);
  }

  ghost predicate CallsOk(did: iset<Deed>, s: Sys) {
    forall c :: CallOk(did, s, c)
  }

  lemma CallerStaysOk(did: iset<Deed>, s: Sys, c: CallId, choice: Choice, r: Sys)
    requires CallsOk(did, s) && LockOk(s) && TicketsOk(s) && Do(s, Caller(c, choice)) == Some(r)
    ensures CallsOk(did + Doing(s, Caller(c, choice)), r)
  {
    DeadStayDead(s, Caller(c, choice), r);
    assert CallOk(did, s, c);
    if HasTicket(s.calls[c]) {
      RequestMoves(s, c, choice, r);
      RequestStaysOk(did, s, c, choice, r);
    } else if s.calls[c].Kill? {
      KillMoves(s, c, choice, r);
      KillStaysOk(did, s, c, choice, r);
    } else {
      assert IsStarting(s.calls[c]);
      StartOnlyMoves(s, c, choice, r);
      StartStaysOk(did, s, c, choice, r);
    }
    hide Do, TakeStart, TakeRequest, TakeKill, CallOk, Doing, LockOk, TicketsOk;
    forall d
      ensures CallOk(did + Doing(s, Caller(c, choice)), r, d)
    {
      assert CallOk(did, s, d);
      if d != c {
        OthersStayOk(did, s, Caller(c, choice), r, d);
      }
    }
  }

  lemma CallsStayOk(did: iset<Deed>, s: Sys, a: Action, r: Sys)
    requires CallsOk(did, s) && LockOk(s) && TicketsOk(s) && Do(s, a) == Some(r)
    ensures CallsOk(did + Doing(s, a), r)
  {
    if a.Caller? {
      CallerStaysOk(did, s, a.c, a.choice, r);
    } else {
      DeadStayDead(s, a, r);
      if a.Request? || a.ProbeCall? || a.KillCall? {
        var pc := if a.Request? then WantState(false) else if a.ProbeCall? then WantState(true) else Kill(TakeChild);
        NewCallOnlyMoves(s, a.c, pc, r);
      } else {
        ReaderMoves(s, a, r);
      }
      hide Do, CallOk, Doing, LockOk, TicketsOk;
      forall c
        ensures CallOk(did + Doing(s, a), r, c)
      {
        assert CallOk(did, s, c);
        if c !in s.calls && c in r.calls {
          NewCallIsOk(did, s, a, r, c);
        } else {
          OthersStayOk(did, s, a, r, c);
        }
      }
    }
  }

  // ----- The handles that kills take -----

  ghost predicate ChildKnown(did: iset<Deed>, s: Sys, inc: Incarnation) {
    s.handles.activeChild == Some(inc) || exists k :: TakesChild(k, inc) in did
  }

  ghost predicate PendingKnown(did: iset<Deed>, s: Sys, inc: Incarnation) {
    s.handles.activePending == Some(inc) || exists k :: TakesPending(k, inc) in did
  }

  /** Whoever holds the mutex is inside it, and kills can reach, or have taken, whatever is or is being made current. */
  ghost predicate HandlesOk(did: iset<Deed>, s: Sys) {
    && (s.handles.lock.Some? ==> s.handles.lock.value in s.calls && IsInside(s.calls[s.handles.lock.value]))
    && (forall inc :: s.handles.process == Some(inc) ==> ChildKnown(did, s, inc) && PendingKnown(did, s, inc))
    && (forall c :: c in s.calls && s.calls[c].SetPending? ==> ChildKnown(did, s, s.calls[c].inc))
    && (forall c :: c in s.calls && s.calls[c].SetState? ==>
          ChildKnown(did, s, s.calls[c].inc) && PendingKnown(did, s, s.calls[c].inc))
  }

  /** Calls that are not inside the mutex before or after, and leave the handles alone, change nothing here. */
  lemma OutsideKeepsHandles(did: iset<Deed>, s: Sys, a: Action, r: Sys, c: CallId)
    requires HandlesOk(did, s) && OnlyMoves(s, r, c) && r.handles == s.handles
    requires c in s.calls ==> c in r.calls && !IsInside(s.calls[c])
    requires c in r.calls ==> !IsInside(r.calls[c])
    ensures HandlesOk(did + Doing(s, a), r)
  {
    hide Doing;
  }

  lemma KillHandles(s: Sys, c: CallId, choice: Choice, r: Sys)
    requires c in s.calls && s.calls[c].Kill? && TakeKill(s, c, choice) == Some(r)
    ensures r.handles.lock == s.handles.lock && (r.handles.process == s.handles.process || r.handles.process == None)
    ensures forall inc :: s.handles.activeChild == Some(inc) ==>
      r.handles.activeChild == Some(inc) || Does(s, Caller(c, choice), TakesChild(c, inc))
    ensures forall inc :: s.handles.activePending == Some(inc) ==>
      r.handles.activePending == Some(inc) || Does(s, Caller(c, choice), TakesPending(c, inc))
  {
    hide Drained;
  }

  lemma KillKeepsHandles(did: iset<Deed>, s: Sys, c: CallId, choice: Choice, r: Sys)
    requires HandlesOk(did, s) && c in s.calls && s.calls[c].Kill? && TakeKill(s, c, choice) == Some(r)
    ensures HandlesOk(did + Doing(s, Caller(c, choice)), r)
  {
    KillMoves(s, c, choice, r);
    KillHandles(s, c, choice, r);
    hide TakeKill, Does;
    forall inc: nat | ChildKnown(did, s, inc)
      ensures ChildKnown(did + Doing(s, Caller(c, choice)), r, inc)
    {
      if s.handles.activeChild == Some(inc) && r.handles.activeChild != Some(inc) {
        assert TakesChild(c, inc) in Doing(s, Caller(c, choice));
      }
    }
    forall inc: nat | PendingKnown(did, s, inc)
      ensures PendingKnown(did + Doing(s, Caller(c, choice)), r, inc)
    {
      if s.handles.activePending == Some(inc) && r.handles.activePending != Some(inc) {
        assert TakesPending(c, inc) in Doing(s, Caller(c, choice));
      }
    }
    hide ChildKnown, PendingKnown, Doing;
  }

  /** While a call takes a step inside the mutex, or into it, nobody else is inside. */
  lemma AloneInTheMutex(s: Sys, c: CallId, choice: Choice, r: Sys)
    requires LockOk(s) && c in s.calls && IsStarting(s.calls[c]) && TakeStart(s, c, choice) == Some(r)
    ensures forall d :: d in s.calls && d != c ==> !IsInside(s.calls[d])
  {
    assert HoldsLock(s.handles, c, s.calls[c]);
  }

  /** What a step inside the mutex, or into it, makes of the handles. */
  predicate StartsWith(c: CallId, h: Handles, pc: Pc, h': Handles, pc': Pc) {
    && h'.lock == (if IsInside(pc') then Some(c) else None)
    && (h'.process.Some? ==>
          h'.activeChild == h.activeChild && h'.activePending == h.activePending
          && (h'.process == h.process || pc == SetState(h'.process.value)))
    && (pc'.SetPending? ==> h'.activeChild == Some(pc'.inc))
    && (pc'.SetState? ==>
          h'.activePending == Some(pc'.inc) && h'.activeChild == h.activeChild && pc == SetPending(pc'.inc))
  }

  lemma StartHandles(s: Sys, c: CallId, choice: Choice, r: Sys)
    requires c in s.calls && IsStarting(s.calls[c]) && HoldsLock(s.handles, c, s.calls[c])
    requires TakeStart(s, c, choice) == Some(r)
    ensures c in r.calls && StartsWith(c, s.handles, s.calls[c], r.handles, r.calls[c])
  {
  }

  lemma StartKeepsHandles(did: iset<Deed>, s: Sys, c: CallId, choice: Choice, r: Sys)
    requires HandlesOk(did, s) && LockOk(s) && c in s.calls && IsStarting(s.calls[c])
    requires TakeStart(s, c, choice) == Some(r)
    ensures HandlesOk(did + Doing(s, Caller(c, choice)), r)
  {
    hide Doing;
    StartOnlyMoves(s, c, choice, r);
    StartHandles(s, c, choice, r);
    AloneInTheMutex(s, c, choice, r);
    assert forall d :: d in s.calls && d != c ==> !s.calls[d].SetPending? && !s.calls[d].SetState?;
    hide LockOk, TakeStart, IsInside;
  }

  lemma HandlesStayOk(did: iset<Deed>, s: Sys, a: Action, r: Sys)
    requires HandlesOk(did, s) && LockOk(s) && Do(s, a) == Some(r)
    ensures HandlesOk(did + Doing(s, a), r)
  {
    if a.Caller? {
      if HasTicket(s.calls[a.c]) {
        RequestMoves(s, a.c, a.choice, r);
        OutsideKeepsHandles(did, s, a, r, a.c);
      } else if s.calls[a.c].Kill? {
        KillKeepsHandles(did, s, a.c, a.choice, r);
      } else {
        StartKeepsHandles(did, s, a.c, a.choice, r);
      }
    } else if a.Request? || a.ProbeCall? || a.KillCall? {
      var pc := if a.Request? then WantState(false) else if a.ProbeCall? then WantState(true) else Kill(TakeChild);
      NewCallOnlyMoves(s, a.c, pc, r);
      OutsideKeepsHandles(did, s, a, r, a.c);
    } else {
      ReaderMoves(s, a, r);
      hide Do, Doing, LockOk;
    }
  }

  // ----- Over runs -----

  ghost function DidIn(acts: seq<Action>): iset<Deed> {
    iset d: Deed | Did(acts, d)
  }

  lemma DidInStep(acts: seq<Action>, s: Sys, a: Action)
    requires Exec(INITIAL, acts) == Some(s)
    ensures DidIn(acts + [a]) == DidIn(acts) + Doing(s, a)
  {
    hide Did, Does;
    forall d: Deed
      ensures Did(acts + [a], d) <==> Did(acts, d) || Does(s, a, d)
    {
      DidStep(acts, s, a, d);
    }
  }

  lemma {:induction false} PastOfRun(acts: seq<Action>, r: Sys)
    requires Exec(INITIAL, acts) == Some(r)
    ensures CallsOk(DidIn(acts), r) && HandlesOk(DidIn(acts), r)
    decreases |acts|
  {
    if acts == [] {
      assert DidIn([]) == iset{};
    } else {
      var most, a := acts[..|acts| - 1], acts[|acts| - 1];
      assert acts == most + [a];
      ExecEnds(INITIAL, most, a);
      var s := Exec(INITIAL, most).value;
      PastOfRun(most, s);
      HeadedWhereSettled(most, s);
      Reached(most, s);
      DidInStep(most, s, a);
      hide Do, Exec, LockOk, DidIn, Doing, CallsOk, HandlesOk, TicketsOk;
      CallsStayOk(DidIn(most), s, a, r);
      HandlesStayOk(DidIn(most), s, a, r);
    }
  }

  /** In every run, a request begins a kill after a time-out and only then. */
  lemma OnlyTimeoutsKill(acts: seq<Action>, r: Sys, c: CallId)
    requires Exec(INITIAL, acts) == Some(r) && c in r.tickets && c in r.calls && r.calls[c].Done?
    ensures Did(acts, TimesOut(c)) <==> Did(acts, BeginsKill(c))
  {
    PastOfRun(acts, r);
    hide Exec, Did;
    assert CallOk(DidIn(acts), r, c);
  }

  /**
   * In every run, a kill that has returned has failed to kill the process, or has seen to the waiting callers and
   * cleared the state.
   */
  lemma KillsRunToTheirEnd(acts: seq<Action>, r: Sys, c: CallId)
    requires Exec(INITIAL, acts) == Some(r) && Did(acts, BeginsKill(c)) && c in r.calls && r.calls[c].Done?
    ensures Did(acts, FailsToKill(c)) || (Did(acts, PassesPending(c)) && Did(acts, ClearsState(c)))
  {
    PastOfRun(acts, r);
    hide Exec, Did;
    assert CallOk(DidIn(acts), r, c);
  }

  /** In every run, a process that a kill has taken is dead, unless the kill is about to kill it or could not. */
  lemma TakenProcessesAreKilled(acts: seq<Action>, r: Sys, c: CallId, inc: Incarnation)
    requires Exec(INITIAL, acts) == Some(r) && Did(acts, TakesChild(c, inc))
    ensures c in r.calls && (r.calls[c] == Kill(KillChild(inc)) || Did(acts, FailsToKill(c)) || !IsRunning(r, inc))
  {
    PastOfRun(acts, r);
    hide Exec, Did;
    assert CallOk(DidIn(acts), r, c);
    assert TakesChild(c, inc) in DidIn(acts);
  }

  /** In every run, the process that is current, and its waiting callers, can be taken by a kill or have been. */
  lemma CurrentCanBeKilled(acts: seq<Action>, r: Sys, inc: Incarnation)
    requires Exec(INITIAL, acts) == Some(r) && r.handles.process == Some(inc)
    ensures r.handles.activeChild == Some(inc) || exists c :: Did(acts, TakesChild(c, inc))
    ensures r.handles.activePending == Some(inc) || exists c :: Did(acts, TakesPending(c, inc))
  {
    PastOfRun(acts, r);
    hide Exec, Did;
    assert ChildKnown(DidIn(acts), r, inc) && PendingKnown(DidIn(acts), r, inc);
  }

  /** In every run, the state mutex is held only by a call inside it, and a call that has returned holds nothing. */
  lemma MutexIsReleased(acts: seq<Action>, r: Sys, c: CallId)
    requires Exec(INITIAL, acts) == Some(r)
    ensures r.handles.lock == Some(c) <==> c in r.calls && IsInside(r.calls[c])
  {
    PastOfRun(acts, r);
    HeadedWhereSettled(acts, r);
    hide Exec, Did;
  }
}
