/** What a request, a start and a kill come to when nobody else takes a step meanwhile. */
module MultiplexerUndisturbed {
  import opened Wrappers
  import opened SupervisorMultiplexer
  import opened MultiplexerRouting
  import opened MultiplexerHistory

  const GOES_WELL: Choice := Choice(true, 0, 0)

  ghost predicate Leads(s: Sys, acts: seq<Action>, r: Sys) {
    Exec(s, acts) == Some(r)
  }

  lemma LeadsOne(s: Sys, a: Action, r: Sys)
    requires Do(s, a) == Some(r)
    ensures Leads(s, [a], r)
  {
    assert [a][1..] == [];
  }

  lemma {:induction false} LeadsOn(s: Sys, acts: seq<Action>, m: Sys, more: seq<Action>, r: Sys)
    requires Leads(s, acts, m) && Leads(m, more, r)
    ensures Leads(s, acts + more, r)
    decreases |acts|
  {
    hide Do;
    if acts == [] {
      assert acts + more == more;
    } else {
      assert (acts + more)[0] == acts[0] && (acts + more)[1..] == acts[1..] + more;
      LeadsOn(Do(s, acts[0]).value, acts[1..], m, more, r);
    }
  }

  lemma LeadsThen(s: Sys, acts: seq<Action>, m: Sys, a: Action, r: Sys)
    requires Leads(s, acts, m) && Do(m, a) == Some(r)
    ensures Leads(s, acts + [a], r)
  {
    hide Do;
    LeadsOne(m, a, r);
    LeadsOn(s, acts, m, [a], r);
  }

  /** Only this call takes steps. */
  predicate AreStepsOf(acts: seq<Action>, c: CallId) {
    forall i :: 0 <= i < |acts| ==> acts[i].Caller? && acts[i].c == c
  }

  /** The state with one call, and the handles, moved on. */
  function Standing(s: Sys, c: CallId, pc: Pc, h: Handles): Sys {
    s.(calls := s.calls[c := pc], handles := h)
  }

  /** A call waits for the state mutex, which is free. */
  predicate IsReady(s: Sys, c: CallId) {
    c in s.calls && s.calls[c] == WantState(false) && s.handles.lock == None
  }

  // ----- Starting -----

  lemma StepInside(s: Sys, c: CallId, pc: Pc, h: Handles, pc': Pc, h': Handles)
    requires IsStarting(pc) && !pc.Spawn? && !pc.TakeTicket?
    requires StartStep(c, pc, h, h.process.Some? && IsRunning(s, h.process.value), true) == Some((h', pc'))
    ensures Do(Standing(s, c, pc, h), Caller(c, GOES_WELL)) == Some(Standing(s, c, pc', h'))
  {
    hide StartStep;
    assert Standing(s, c, pc, h).calls[c := pc'] == s.calls[c := pc'];
  }

  /** A call that finds its process dead, or none, comes to start another. */
  lemma FindsNone(s: Sys, c: CallId) returns (acts: seq<Action>, h: Handles)
    requires IsReady(s, c) && (s.handles.process.Some? ==> !IsRunning(s, s.handles.process.value))
    ensures AreStepsOf(acts, c)
    ensures h.lock == Some(c) && h.process == None && Leads(s, acts, Standing(s, c, Spawn, h))
  {
    h := s.handles.(lock := Some(c));
    hide Do;
    assert s == Standing(s, c, WantState(false), s.handles);
    StepInside(s, c, WantState(false), s.handles, CheckChild(false), h);
    LeadsOne(s, Caller(c, GOES_WELL), Standing(s, c, CheckChild(false), h));
    acts := [Caller(c, GOES_WELL)];
    if s.handles.process.None? {
      StepInside(s, c, CheckChild(false), h, Spawn, h);
      LeadsThen(s, acts, Standing(s, c, CheckChild(false), h), Caller(c, GOES_WELL), Standing(s, c, Spawn, h));
      acts := acts + [Caller(c, GOES_WELL)];
    } else {
      acts := Steps3(s, s, c, acts, CheckChild(false), h, ClearChild(false), h.(process := None),
        ClearPending(false), h.(process := None, activeChild := None), Spawn, Handles(Some(c), None, None, None));
      h := Handles(Some(c), None, None, None);
    }
  }

  /** Three more steps of a call inside the mutex. */
  lemma Steps3(from: Sys, s: Sys, c: CallId, acts: seq<Action>, a: Pc, ha: Handles, b: Pc, hb: Handles,
      d: Pc, hd: Handles, e: Pc, he: Handles) returns (more: seq<Action>)
    requires Leads(from, acts, Standing(s, c, a, ha)) && AreStepsOf(acts, c)
    requires GoesOn(s, c, a, ha, b, hb) && GoesOn(s, c, b, hb, d, hd) && GoesOn(s, c, d, hd, e, he)
    ensures Leads(from, more, Standing(s, c, e, he)) && AreStepsOf(more, c)
  {
    hide Do, StartStep;
    var go := Caller(c, GOES_WELL);
    StepInside(s, c, a, ha, b, hb);
    LeadsThen(from, acts, Standing(s, c, a, ha), go, Standing(s, c, b, hb));
    StepInside(s, c, b, hb, d, hd);
    LeadsThen(from, acts + [go], Standing(s, c, b, hb), go, Standing(s, c, d, hd));
    StepInside(s, c, d, hd, e, he);
    LeadsThen(from, acts + [go] + [go], Standing(s, c, d, hd), go, Standing(s, c, e, he));
    more := acts + [go] + [go] + [go];
  }

  predicate GoesOn(s: Sys, c: CallId, pc: Pc, h: Handles, pc': Pc, h': Handles) {
    && IsStarting(pc) && !pc.Spawn? && !pc.TakeTicket?
    && StartStep(c, pc, h, h.process.Some? && IsRunning(s, h.process.value), true) == Some((h', pc'))
  }

  /**
   * From any state with the mutex free and no process running as the current one, a call left to itself can get to
   * its ticket with a new process, which is then current and in reach of kills.
   */
  lemma DeadSupervisorIsReplaced(s: Sys, c: CallId, inc: Incarnation) returns (acts: seq<Action>)
    requires IsReady(s, c) && (s.handles.process.Some? ==> !IsRunning(s, s.handles.process.value))
    requires inc !in s.supervisors
    ensures AreStepsOf(acts, c)
    ensures Leads(s, acts, Standing(
      Put(s, inc, Supervisor(true, 1, map[], Reading)), c, TakeTicket,
      Handles(Some(c), Some(inc), Some(inc), Some(inc))))
  {
    var h;
    acts, h := FindsNone(s, c);
    var t := Put(s, inc, Supervisor(true, 1, map[], Reading));
    assert Do(Standing(s, c, Spawn, h), Caller(c, Choice(true, inc, 0))) == Some(Standing(t, c, SetChild(inc), h)) by {
      assert s.calls[c := Spawn][c := SetChild(inc)] == s.calls[c := SetChild(inc)];
    }
    hide Do;
    LeadsThen(s, acts, Standing(s, c, Spawn, h), Caller(c, Choice(true, inc, 0)), Standing(t, c, SetChild(inc), h));
    acts := acts + [Caller(c, Choice(true, inc, 0))];
    var h1 := h.(activeChild := Some(inc));
    var h2 := h1.(activePending := Some(inc));
    acts := Steps3(s, t, c, acts, SetChild(inc), h, SetPending(inc), h1, SetState(inc), h2, TakeTicket,
      h2.(process := Some(inc)));
  }

  /** A probe that finds the process dead drops it from every handle, and one that finds it running leaves it there. */
  lemma ProbeDropsTheDead(s: Sys, c: CallId, inc: Incarnation) returns (acts: seq<Action>)
    requires c in s.calls && s.calls[c] == WantState(true) && s.handles.lock == None && s.handles.process == Some(inc)
    ensures AreStepsOf(acts, c)
    ensures Leads(s, acts, Standing(
      s, c, Done(NoReply), if IsRunning(s, inc) then s.handles else Handles(None, None, None, None)))
  {
    var h := s.handles.(lock := Some(c));
    hide Do;
    assert s == Standing(s, c, WantState(true), s.handles);
    StepInside(s, c, WantState(true), s.handles, CheckChild(true), h);
    LeadsOne(s, Caller(c, GOES_WELL), Standing(s, c, CheckChild(true), h));
    acts := [Caller(c, GOES_WELL)];
    if IsRunning(s, inc) {
      StepInside(s, c, CheckChild(true), h, Done(NoReply), s.handles);
      LeadsThen(s, acts, Standing(s, c, CheckChild(true), h), Caller(c, GOES_WELL),
        Standing(s, c, Done(NoReply), s.handles));
      acts := acts + [Caller(c, GOES_WELL)];
    } else {
      acts := Steps3(s, s, c, acts, CheckChild(true), h, ClearChild(true), h.(process := None),
        ClearPending(true), h.(process := None, activeChild := None), Done(NoReply), Handles(None, None, None, None));
    }
  }

  // ----- Asking -----

  /** The state with a request under way that has just been given the next id of its supervisor. */
  function Underway(s: Sys, c: CallId, inc: Incarnation, p: Supervisor, pc: Pc, inbox: seq<Message>): Sys
    requires inc in s.supervisors
  {
    Sys(s.supervisors[inc := p], s.calls[c := pc], s.tickets[c := Ticket(inc, s.supervisors[inc].nextId)],
        s.mail[c := inbox], s.handles.(lock := None))
  }

  /** A request is answered: it has used up one request id, and nothing else has changed. */
  function Answered(s: Sys, c: CallId, inc: Incarnation, payload: Payload): Sys
    requires inc in s.supervisors
  {
    var p := s.supervisors[inc];
    var reply := Reply(Ticket(inc, p.nextId), payload);
    Underway(s, c, inc, p.(nextId := p.nextId + 1), Done(Got(reply)), [reply])
  }

  predicate CanAsk(s: Sys, c: CallId, inc: Incarnation) {
    && c in s.calls && s.calls[c] == TakeTicket && c in s.mail && s.mail[c] == []
    && s.handles.process == Some(inc) && inc in s.supervisors
    && s.supervisors[inc].reader == Reading && s.supervisors[inc].nextId !in s.supervisors[inc].pending
  }

  lemma Overwrites<K, V>(m: map<K, V>, k: K, a: V, b: V)
    ensures m[k := a][k := b] == m[k := b]
  {
  }

  lemma UnderwayMoves(s: Sys, c: CallId, inc: Incarnation, p: Supervisor, pc: Pc, inbox: seq<Message>, p': Supervisor,
      pc': Pc)
    requires inc in s.supervisors
    ensures Goto(Put(Underway(s, c, inc, p, pc, inbox), inc, p'), c, pc') == Underway(s, c, inc, p', pc', inbox)
    ensures Goto(Underway(s, c, inc, p, pc, inbox), c, pc') == Underway(s, c, inc, p, pc', inbox)
    ensures Put(Underway(s, c, inc, p, pc, inbox), inc, p') == Underway(s, c, inc, p', pc, inbox)
  {
    Overwrites(s.supervisors, inc, p, p');
    Overwrites(s.calls, c, pc, pc');
  }

  lemma UnderwayGets(s: Sys, c: CallId, inc: Incarnation, p: Supervisor, pc: Pc, m: Message)
    requires inc in s.supervisors
    ensures Send(Underway(s, c, inc, p, pc, []), c, m) == Underway(s, c, inc, p, pc, [m])
  {
    Overwrites(s.mail, c, [], [m]);
    assert [] + [m] == [m];
  }

  lemma TakesItsTicket(s: Sys, c: CallId, inc: Incarnation)
    requires CanAsk(s, c, inc)
    ensures var p, t := s.supervisors[inc], Ticket(inc, s.supervisors[inc].nextId);
      Do(s, Caller(c, GOES_WELL)) == Some(Underway(s, c, inc, p.(nextId := p.nextId + 1), Register(t), []))
  {
    assert s.mail[c := []] == s.mail;
    hide StartStep;
  }

  lemma Registers(s: Sys, c: CallId, inc: Incarnation, p: Supervisor, t: Ticket)
    requires inc in s.supervisors && t.inc == inc
    ensures Do(Underway(s, c, inc, p, Register(t), []), Caller(c, GOES_WELL))
      == Some(Underway(s, c, inc, p.(pending := p.pending[t.id := c]), WriteRequest(t), []))
  {
    UnderwayMoves(s, c, inc, p, Register(t), [], p.(pending := p.pending[t.id := c]), WriteRequest(t));
    hide Goto, Put;
  }

  lemma Writes(s: Sys, c: CallId, inc: Incarnation, p: Supervisor, t: Ticket)
    requires inc in s.supervisors
    ensures Do(Underway(s, c, inc, p, WriteRequest(t), []), Caller(c, GOES_WELL))
      == Some(Underway(s, c, inc, p, Waiting(t), []))
  {
    UnderwayMoves(s, c, inc, p, WriteRequest(t), [], p, Waiting(t));
    hide Goto, Put;
  }

  lemma IsAnswered(s: Sys, c: CallId, inc: Incarnation, p: Supervisor, id: RequestId, pc: Pc, payload: Payload)
    requires inc in s.supervisors && id !in p.pending && p.reader == Reading
    ensures Do(Underway(s, c, inc, p.(pending := p.pending[id := c]), pc, []), Read(inc, Line(Some(id), payload)))
      == Some(Underway(s, c, inc, p.(reader := Holding(c, Reply(Ticket(inc, id), payload))), pc, []))
  {
    var p2, p3 := p.(pending := p.pending[id := c]), p.(reader := Holding(c, Reply(Ticket(inc, id), payload)));
    UnderwayMoves(s, c, inc, p2, pc, [], p3, pc);
    assert Without(p2.pending, id) == p.pending;
    hide Goto, Put;
  }

  lemma IsDelivered(s: Sys, c: CallId, inc: Incarnation, p: Supervisor, pc: Pc, m: Message)
    requires inc in s.supervisors && p.reader == Reading
    ensures Do(Underway(s, c, inc, p.(reader := Holding(c, m)), pc, []), Deliver(inc, c))
      == Some(Underway(s, c, inc, p, pc, [m]))
  {
    UnderwayMoves(s, c, inc, p.(reader := Holding(c, m)), pc, [], p, pc);
    UnderwayGets(s, c, inc, p, pc, m);
    hide Goto, Put, Send;
  }

  lemma TakesItsMail(s: Sys, c: CallId, inc: Incarnation, p: Supervisor, t: Ticket, m: Message)
    requires inc in s.supervisors
    ensures Do(Underway(s, c, inc, p, Waiting(t), [m]), Caller(c, GOES_WELL))
      == Some(Underway(s, c, inc, p, Done(Got(m)), [m]))
  {
    UnderwayMoves(s, c, inc, p, Waiting(t), [m], p, Done(Got(m)));
    hide Goto, Put;
  }

  /**
   * From its ticket on, a call that nobody disturbs gets what its process answers to its id, and the state is as it
   * was but for the id.
   */
  lemma AnswerIsReceived(s: Sys, c: CallId, inc: Incarnation, payload: Payload) returns (acts: seq<Action>)
    requires CanAsk(s, c, inc)
    ensures Leads(s, acts, Answered(s, c, inc, payload))
  {
    var p, go := s.supervisors[inc], Caller(c, GOES_WELL);
    var t := Ticket(inc, p.nextId);
    var p1, reply := p.(nextId := p.nextId + 1), Reply(t, payload);
    var p2, p3 := p1.(pending := p.pending[t.id := c]), p1.(reader := Holding(c, reply));
    TakesItsTicket(s, c, inc);
    Registers(s, c, inc, p1, t);
    Writes(s, c, inc, p2, t);
    IsAnswered(s, c, inc, p1, t.id, Waiting(t), payload);
    IsDelivered(s, c, inc, p1, Waiting(t), reply);
    TakesItsMail(s, c, inc, p1, t, reply);
    hide Do, Underway;
    LeadsOne(s, go, Underway(s, c, inc, p1, Register(t), []));
    LeadsThen(s, [go], Underway(s, c, inc, p1, Register(t), []), go, Underway(s, c, inc, p2, WriteRequest(t), []));
    acts := [go] + [go];
    LeadsThen(s, acts, Underway(s, c, inc, p2, WriteRequest(t), []), go, Underway(s, c, inc, p2, Waiting(t), []));
    acts := acts + [go];
    LeadsThen(s, acts, Underway(s, c, inc, p2, Waiting(t), []), Read(inc, Line(Some(t.id), payload)),
      Underway(s, c, inc, p3, Waiting(t), []));
    acts := acts + [Read(inc, Line(Some(t.id), payload))];
    LeadsThen(s, acts, Underway(s, c, inc, p3, Waiting(t), []), Deliver(inc, c),
      Underway(s, c, inc, p1, Waiting(t), [reply]));
    acts := acts + [Deliver(inc, c)];
    LeadsThen(s, acts, Underway(s, c, inc, p1, Waiting(t), [reply]), go, Answered(s, c, inc, payload));
    acts := acts + [go];
  }

  lemma LiveSupervisorIsKept(s: Sys, c: CallId, inc: Incarnation) returns (acts: seq<Action>)
    requires IsReady(s, c) && s.handles.process == Some(inc) && IsRunning(s, inc)
    ensures AreStepsOf(acts, c) && Leads(s, acts, Standing(s, c, TakeTicket, s.handles.(lock := Some(c))))
  {
    var h := s.handles.(lock := Some(c));
    hide Do;
    assert s == Standing(s, c, WantState(false), s.handles);
    StepInside(s, c, WantState(false), s.handles, CheckChild(false), h);
    StepInside(s, c, CheckChild(false), h, TakeTicket, h);
    LeadsOne(s, Caller(c, GOES_WELL), Standing(s, c, CheckChild(false), h));
    acts := [Caller(c, GOES_WELL)];
    LeadsThen(s, acts, Standing(s, c, CheckChild(false), h), Caller(c, GOES_WELL), Standing(s, c, TakeTicket, h));
    acts := acts + [Caller(c, GOES_WELL)];
  }

  /**
   * From any state with the mutex free, a call left to itself, with a process that answers it, is answered: by the
   * current process if that is running, else by a new one; other calls and processes are as they were.
   */
  lemma UndisturbedCallIsAnswered(s: Sys, c: CallId, spawned: Incarnation, payload: Payload)
    returns (acts: seq<Action>, inc: Incarnation, r: Sys)
    requires IsReady(s, c) && c in s.mail && s.mail[c] == [] && spawned !in s.supervisors
    requires var current := s.handles.process;
      current.Some? && IsRunning(s, current.value) ==>
        var p := s.supervisors[current.value];
        p.reader == Reading && p.nextId !in p.pending
    ensures Leads(s, acts, r)
    ensures var kept := s.handles.process.Some? && IsRunning(s, s.handles.process.value);
      && inc == (if kept then s.handles.process.value else spawned)
      && r.handles == (if kept then s.handles else Handles(None, Some(inc), Some(inc), Some(inc)))
    ensures c in r.tickets && r.tickets[c].inc == inc && IsRunning(r, inc)
    ensures r.supervisors[inc].pending == if inc in s.supervisors then s.supervisors[inc].pending else map[]
    ensures c in r.calls && r.calls[c] == Done(Got(Reply(r.tickets[c], payload)))
    ensures r.calls.Keys == s.calls.Keys && forall d :: d in s.calls && d != c ==> r.calls[d] == s.calls[d]
    ensures r.supervisors.Keys == s.supervisors.Keys + {inc}
    ensures forall i :: i in s.supervisors && i != inc ==> r.supervisors[i] == s.supervisors[i]
  {
    hide Do, Leads;
    var first, m;
    if s.handles.process.Some? && IsRunning(s, s.handles.process.value) {
      inc := s.handles.process.value;
      first := LiveSupervisorIsKept(s, c, inc);
      m := Standing(s, c, TakeTicket, s.handles.(lock := Some(c)));
    } else {
      inc := spawned;
      first := DeadSupervisorIsReplaced(s, c, inc);
      m := Standing(Put(s, inc, Supervisor(true, 1, map[], Reading)), c, TakeTicket,
        Handles(Some(c), Some(inc), Some(inc), Some(inc)));
    }
    var last := AnswerIsReceived(m, c, inc, payload);
    r := Answered(m, c, inc, payload);
    LeadsOn(s, first, m, last, r);
    acts := first + last;
  }

  // ----- Killing -----

  /** Everyone in the set is told that the supervisor was killed. */
  function Told(mail: map<CallId, seq<Message>>, calls: set<CallId>): map<CallId, seq<Message>> {
    map c | c in mail :: if c in calls then mail[c] + [SupervisorKilled] else mail[c]
  }

  lemma {:induction false} TellsAll(s: Sys, k: CallId, calls: set<CallId>) returns (acts: seq<Action>)
    requires k in s.calls && s.calls[k] == Kill(SendAll(calls)) && calls <= s.mail.Keys
    ensures AreStepsOf(acts, k)
    ensures Leads(s, acts, Goto(s, k, Kill(ClearState)).(mail := Told(s.mail, calls)))
    decreases |calls|
  {
    if calls == {} {
      assert Told(s.mail, {}) == s.mail;
      LeadsOne(s, Caller(k, GOES_WELL), Goto(s, k, Kill(ClearState)));
      acts := [Caller(k, GOES_WELL)];
    } else {
      var c :| c in calls;
      var a := Caller(k, Choice(true, 0, c));
      var rest := calls - {c};
      var m := Goto(Send(s, c, SupervisorKilled), k, Kill(SendAll(rest)));
      assert Do(s, a) == Some(m);
      var more := TellsAll(m, k, rest);
      assert Told(m.mail, rest) == Told(s.mail, calls);
      assert m.calls[k := Kill(ClearState)] == s.calls[k := Kill(ClearState)];
      hide Do;
      LeadsOne(s, a, m);
      LeadsOn(s, [a], m, more, Goto(m, k, Kill(ClearState)).(mail := Told(m.mail, rest)));
      acts := [a] + more;
    }
  }

  /** The process is dead and nobody waits for it. */
  function Killed(p: Supervisor): Supervisor {
    p.(alive := false, pending := map[])
  }

  /** The state with a kill of this process under way. */
  function Dying(s: Sys, k: CallId, inc: Incarnation, p: Supervisor, stage: KillStage, h: Handles): Sys {
    Sys(s.supervisors[inc := p], s.calls[k := Kill(stage)], s.tickets, s.mail, h)
  }

  lemma DyingMoves(s: Sys, k: CallId, inc: Incarnation, p: Supervisor, stage: KillStage, h: Handles, p': Supervisor,
      stage': KillStage, h': Handles)
    ensures Goto(Put(Dying(s, k, inc, p, stage, h), inc, p'), k, Kill(stage')).(handles := h')
      == Dying(s, k, inc, p', stage', h')
    ensures Goto(Dying(s, k, inc, p, stage, h), k, Kill(stage')).(handles := h') == Dying(s, k, inc, p, stage', h')
  {
    Overwrites(s.supervisors, inc, p, p');
    Overwrites(s.calls, k, Kill(stage), Kill(stage'));
  }

  lemma TakesProcess(s: Sys, k: CallId, inc: Incarnation, p: Supervisor, h: Handles)
    requires h.activeChild == Some(inc)
    ensures Do(Dying(s, k, inc, p, TakeChild, h), Caller(k, GOES_WELL))
      == Some(Dying(s, k, inc, p, KillChild(inc), h.(activeChild := None)))
  {
    DyingMoves(s, k, inc, p, TakeChild, h, p, KillChild(inc), h.(activeChild := None));
    hide Goto, Put;
  }

  lemma KillsChild(s: Sys, k: CallId, inc: Incarnation, p: Supervisor, h: Handles)
    ensures Do(Dying(s, k, inc, p, KillChild(inc), h), Caller(k, GOES_WELL))
      == Some(Dying(s, k, inc, p.(alive := false), TakePending, h))
  {
    DyingMoves(s, k, inc, p, KillChild(inc), h, p.(alive := false), TakePending, h);
    hide Goto, Put;
  }

  lemma TakesWaiting(s: Sys, k: CallId, inc: Incarnation, p: Supervisor, h: Handles)
    requires h.activePending == Some(inc)
    ensures Do(Dying(s, k, inc, p, TakePending, h), Caller(k, GOES_WELL))
      == Some(Dying(s, k, inc, p, Drain(inc), h.(activePending := None)))
  {
    DyingMoves(s, k, inc, p, TakePending, h, p, Drain(inc), h.(activePending := None));
    hide Goto, Put;
  }

  lemma DrainsWaiting(s: Sys, k: CallId, inc: Incarnation, p: Supervisor, h: Handles)
    ensures Do(Dying(s, k, inc, p, Drain(inc), h), Caller(k, GOES_WELL))
      == Some(Dying(s, k, inc, p.(pending := map[]), SendAll(p.pending.Values), h))
  {
    DyingMoves(s, k, inc, p, Drain(inc), h, p.(pending := map[]), SendAll(p.pending.Values), h);
  }

  /**
   * From any state with the mutex free and one process in reach, a kill left to itself kills that process, tells
   * everyone who waits for it, and leaves no process current.
   */
  lemma UndisturbedKillTakesDown(s: Sys, k: CallId, inc: Incarnation) returns (acts: seq<Action>)
    requires k in s.calls && s.calls[k] == Kill(TakeChild) && inc in s.supervisors
    requires s.handles.lock == None && s.handles.activeChild == s.handles.activePending == Some(inc)
    requires s.supervisors[inc].pending.Values <= s.mail.Keys
    ensures AreStepsOf(acts, k)
    ensures Leads(s, acts, Sys(s.supervisors[inc := Killed(s.supervisors[inc])], s.calls[k := Done(NoReply)], s.tickets,
      Told(s.mail, s.supervisors[inc].pending.Values), Handles(None, None, None, None)))
  {
    var p, h, go := s.supervisors[inc], s.handles, Caller(k, GOES_WELL);
    var h1 := h.(activeChild := None);
    var h2 := h1.(activePending := None);
    var dead := p.(alive := false);
    TakesProcess(s, k, inc, p, h);
    KillsChild(s, k, inc, p, h1);
    TakesWaiting(s, k, inc, dead, h1);
    DrainsWaiting(s, k, inc, dead, h2);
    assert Dying(s, k, inc, p, TakeChild, h) == s;
    var m := Dying(s, k, inc, Killed(p), SendAll(p.pending.Values), h2);
    var more := TellsAll(m, k, p.pending.Values);
    var told := Goto(m, k, Kill(ClearState)).(mail := Told(m.mail, p.pending.Values));
    var r := Sys(s.supervisors[inc := Killed(p)], s.calls[k := Done(NoReply)], s.tickets,
      Told(s.mail, p.pending.Values), Handles(None, None, None, None));
    assert Do(told, go) == Some(r) by {
      Overwrites(s.calls, k, Kill(SendAll(p.pending.Values)), Kill(ClearState));
      Overwrites(s.calls, k, Kill(ClearState), Done(NoReply));
    }
    hide Do, Dying, Told, Killed;
    LeadsOne(s, go, Dying(s, k, inc, p, KillChild(inc), h1));
    LeadsThen(s, [go], Dying(s, k, inc, p, KillChild(inc), h1), go, Dying(s, k, inc, dead, TakePending, h1));
    acts := [go] + [go];
    LeadsThen(s, acts, Dying(s, k, inc, dead, TakePending, h1), go, Dying(s, k, inc, dead, Drain(inc), h2));
    acts := acts + [go];
    LeadsThen(s, acts, Dying(s, k, inc, dead, Drain(inc), h2), go, m);
    acts := acts + [go];
    LeadsOn(s, acts, m, more, told);
    acts := acts + more;
    LeadsThen(s, acts, told, go, r);
    acts := acts + [go];
  }
}
