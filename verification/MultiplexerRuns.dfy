/** A run in which a start gets ahead of a kill, and a running supervisor process is forgotten. */
module MultiplexerRuns {
  import opened Wrappers
  import opened SupervisorMultiplexer
  import opened MultiplexerRouting
  import opened MultiplexerHistory
  import opened MultiplexerUndisturbed
  import opened MultiplexerOrphans

  /** A new call, beside those there are. */
  lemma Calls(s: Sys, acts: seq<Action>, m: Sys, c: CallId) returns (r: Sys)
    requires Leads(s, acts, m) && c !in m.calls
    ensures Leads(s, acts + [Request(c)], r)
    ensures r == m.(calls := m.calls[c := WantState(false)], mail := m.mail[c := []])
  {
    r := m.(calls := m.calls[c := WantState(false)], mail := m.mail[c := []]);
    LeadsThen(s, acts, m, Request(c), r);
  }

  /** One supervisor is running, and nobody waits for it. */
  predicate IsServedBy(s: Sys, inc: Incarnation, started: set<Incarnation>, calls: set<CallId>) {
    && s.calls.Keys == calls && s.supervisors.Keys == started
    && s.handles == Handles(None, Some(inc), Some(inc), Some(inc))
    && IsRunning(s, inc) && s.supervisors[inc].pending == map[]
  }

  /** A first call has started a supervisor. */
  lemma FirstCall() returns (acts: seq<Action>, r: Sys)
    ensures Leads(INITIAL, acts, r) && IsServedBy(r, 0, {0}, {0}) && r.calls[0].Done?
  {
    hide Do;
    assert Leads(INITIAL, [], INITIAL);
    var s := Calls(INITIAL, [], INITIAL, 0);
    var more, inc, m := UndisturbedCallIsAnswered(s, 0, 0, 0);
    LeadsOn(INITIAL, [] + [Request(0)], s, more, m);
    acts, r := [] + [Request(0)] + more, m;
  }

  /** A kill has killed the process and taken its waiting callers, and goes on from there. */
  lemma KillUnderWay(acts: seq<Action>, s: Sys) returns (more: seq<Action>, r: Sys)
    requires Leads(INITIAL, acts, s) && IsServedBy(s, 0, {0}, {0}) && s.calls[0].Done?
    ensures Leads(INITIAL, more, r) && r.calls == map[0 := s.calls[0], 1 := Kill(Drain(0))]
    ensures r.handles == Handles(None, Some(0), None, None) && r.supervisors.Keys == {0}
    ensures !IsRunning(r, 0) && r.supervisors[0].pending == map[]
  {
    var go := Caller(1, GOES_WELL);
    var m := s.(calls := s.calls[1 := Kill(TakeChild)], mail := s.mail[1 := []]);
    LeadsThen(INITIAL, acts, s, KillCall(1), m);
    more := acts + [KillCall(1)];
    var p, h := m.supervisors[0], m.handles;
    var h1 := h.(activeChild := None);
    var dead := p.(alive := false);
    assert m == Dying(m, 1, 0, p, TakeChild, h);
    TakesProcess(m, 1, 0, p, h);
    KillsChild(m, 1, 0, p, h1);
    TakesWaiting(m, 1, 0, dead, h1);
    r := Dying(m, 1, 0, dead, Drain(0), h1.(activePending := None));
    assert r.calls == map[0 := s.calls[0], 1 := Kill(Drain(0))];
    hide Do, Dying;
    LeadsThen(INITIAL, more, m, go, Dying(m, 1, 0, p, KillChild(0), h1));
    more := more + [go];
    LeadsThen(INITIAL, more, Dying(m, 1, 0, p, KillChild(0), h1), go, Dying(m, 1, 0, dead, TakePending, h1));
    more := more + [go];
    LeadsThen(INITIAL, more, Dying(m, 1, 0, dead, TakePending, h1), go, r);
    more := more + [go];
  }

  /** Another call finds the process dead and starts the next one before the kill comes to its end. */
  lemma StartGetsAhead(acts: seq<Action>, s: Sys) returns (more: seq<Action>, r: Sys)
    requires Leads(INITIAL, acts, s) && s.calls.Keys == {0, 1} && s.calls[0].Done? && s.calls[1] == Kill(Drain(0))
    requires s.handles == Handles(None, Some(0), None, None) && s.supervisors.Keys == {0}
    requires !IsRunning(s, 0) && s.supervisors[0].pending == map[]
    ensures Leads(INITIAL, more, r) && IsServedBy(r, 1, {0, 1}, {0, 1, 2}) && r.supervisors[0].pending == map[]
    ensures r.calls[0].Done? && r.calls[1] == Kill(Drain(0)) && r.calls[2].Done?
  {
    hide Do;
    var m := Calls(INITIAL, acts, s, 2);
    var mine, inc, n := UndisturbedCallIsAnswered(m, 2, 1, 0);
    LeadsOn(INITIAL, acts + [Request(2)], m, mine, n);
    more, r := acts + [Request(2)] + mine, n;
  }

  /** The kill clears the state of a process that it has not killed. */
  lemma KillEnds(acts: seq<Action>, s: Sys) returns (more: seq<Action>, r: Sys)
    requires Leads(INITIAL, acts, s) && IsServedBy(s, 1, {0, 1}, {0, 1, 2}) && s.supervisors[0].pending == map[]
    requires s.calls[0].Done? && s.calls[1] == Kill(Drain(0)) && s.calls[2].Done?
    ensures Leads(INITIAL, more, r) && r.calls.Keys == {0, 1, 2} && r.supervisors.Keys == {0, 1} && IsRunning(r, 1)
    ensures r.handles == Handles(None, None, Some(1), Some(1)) && forall c :: c in r.calls ==> r.calls[c].Done?
  {
    var go := Caller(1, GOES_WELL);
    var a := Goto(s, 1, Kill(SendAll({})));
    var b := Goto(a, 1, Kill(ClearState));
    r := Goto(b, 1, Done(NoReply)).(handles := s.handles.(process := None));
    assert s.supervisors[0 := s.supervisors[0].(pending := map[])] == s.supervisors;
    assert Drained(s.supervisors[0]) == {};
    LeadsThen(INITIAL, acts, s, go, a);
    LeadsThen(INITIAL, acts + [go], a, go, b);
    LeadsThen(INITIAL, acts + [go] + [go], b, go, r);
    more := acts + [go] + [go] + [go];
  }

  /** A run from the start in which a supervisor process runs on that nothing can ask or kill. */
  lemma ProcessCanBeForgotten() returns (acts: seq<Action>, r: Sys)
    ensures Exec(INITIAL, acts) == Some(r) && IsRunning(r, 1) && !IsKnown(r, 1)
  {
    hide Do, Leads;
    var first, s := FirstCall();
    var second, t := KillUnderWay(first, s);
    var third, u := StartGetsAhead(second, t);
    var fourth, v := KillEnds(third, u);
    var w := Calls(INITIAL, fourth, v, 3);
    var last := DeadSupervisorIsReplaced(w, 3, 2);
    r := Standing(Put(w, 2, Supervisor(true, 1, map[], Reading)), 3, TakeTicket,
      Handles(Some(3), Some(2), Some(2), Some(2)));
    LeadsOn(INITIAL, fourth + [Request(3)], w, last, r);
    acts := fourth + [Request(3)] + last;
    LeadsIsExec(acts, r);
  }

  lemma LeadsIsExec(acts: seq<Action>, r: Sys)
    requires Leads(INITIAL, acts, r)
    ensures Exec(INITIAL, acts) == Some(r)
  {
  }
}
