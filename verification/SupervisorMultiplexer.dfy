/**
 * Many callers share one ida-pro-mcp supervisor process.
 *
 * A step is one critical section: a region under one mutex, one message sent over a caller's channel, or
 * one line read from the supervisor.  The state mutex is held over several steps while a process is
 * started, so its holder is part of the state.
 */
module SupervisorMultiplexer {
  import opened Wrappers

  type CallId = nat
  /** A started supervisor process, with its own map of waiting callers and its own reader thread. */
  type Incarnation = nat
  type RequestId = nat
  type Payload = nat

  datatype Ticket = Ticket(inc: Incarnation, id: RequestId)

  /** What a caller's channel carries: the supervisor's reply to a request, or why there will be none. */
  datatype Message = Reply(ticket: Ticket, payload: Payload) | ReaderFailed | SupervisorKilled

  datatype Reader = Reading | Holding(call: CallId, message: Message) | Failing(calls: set<CallId>) | Ended

  datatype Supervisor = Supervisor(
    alive: bool, nextId: RequestId, pending: map<RequestId, CallId>, reader: Reader)

  datatype KillStage = TakeChild | KillChild(inc: Incarnation) | TakePending | Drain(inc: Incarnation)
    | SendAll(calls: set<CallId>) | ClearState

  datatype Outcome = Got(message: Message) | NoReply

  /** What a caller is about to do.  A probe is a call of `has_exited`, which shares the first steps. */
  datatype Pc =
    | WantState(probe: bool)
    | CheckChild(probe: bool)
    | ClearChild(probe: bool)
    | ClearPending(probe: bool)
    | Spawn
    | SetChild(inc: Incarnation)
    | SetPending(inc: Incarnation)
    | SetState(inc: Incarnation)
    | TakeTicket
    | Register(ticket: Ticket)
    | WriteRequest(ticket: Ticket)
    | Waiting(ticket: Ticket)
    | RemoveOwn(ticket: Ticket, timedOut: bool)
    | Kill(stage: KillStage)
    | Done(outcome: Outcome)

  /** The state mutex and its holder, the process it guards, and the two handles `kill` takes. */
  datatype Handles = Handles(
    lock: Option<CallId>,
    process: Option<Incarnation>,
    activeChild: Option<Incarnation>,
    activePending: Option<Incarnation>)

  /**
   * The shared state.  `tickets` is a history variable: the supervisor and request id each call was
   * given.  `mail` holds every message ever sent to a call; the caller takes the first.
   */
  datatype Sys = Sys(
    supervisors: map<Incarnation, Supervisor>,
    calls: map<CallId, Pc>,
    tickets: map<CallId, Ticket>,
    mail: map<CallId, seq<Message>>,
    handles: Handles)

  const INITIAL: Sys := Sys(map[], map[], map[], map[], Handles(None, None, None, None))

  /** What the outside decides about a caller's step. */
  datatype Choice = Choice(ok: bool, spawned: Incarnation, target: CallId)

  /** What the supervisor's output stream yields. */
  datatype Line = Line(id: Option<RequestId>, payload: Payload) | EndOfStream

  datatype Action =
    | Request(c: CallId)
    | ProbeCall(c: CallId)
    | KillCall(c: CallId)
    | Caller(c: CallId, choice: Choice)
    | Read(inc: Incarnation, line: Line)
    | Deliver(inc: Incarnation, target: CallId)
    | Exit(inc: Incarnation)

  // ----- Pieces of steps -----

  function Goto(s: Sys, c: CallId, pc: Pc): Sys {
    s.(calls := s.calls[c := pc])
  }

  function Put(s: Sys, inc: Incarnation, p: Supervisor): Sys {
    s.(supervisors := s.supervisors[inc := p])
  }

  function Send(s: Sys, c: CallId, m: Message): Sys {
    if c in s.mail then s.(mail := s.mail[c := s.mail[c] + [m]]) else s
  }

  function Without(pending: map<RequestId, CallId>, id: RequestId): map<RequestId, CallId> {
    map k | k in pending && k != id :: pending[k]
  }

  /** `fail_pending` begins: the senders of all waiting callers leave the map at once. */
  function Drained(p: Supervisor): set<CallId> {
    p.pending.Values
  }

  /** The call acts on a ticket: it registers, writes, waits or gives up. */
  predicate HasTicket(pc: Pc) {
    pc.Register? || pc.WriteRequest? || pc.Waiting? || pc.RemoveOwn?
  }

  // ----- Steps -----

  function Do(s: Sys, a: Action): Option<Sys> {
    match a
    case Request(c) => NewCall(s, c, WantState(false))
    case ProbeCall(c) => NewCall(s, c, WantState(true))
    case KillCall(c) => NewCall(s, c, Kill(TakeChild))
    case Caller(c, choice) =>
      if c !in s.calls then None
      else if HasTicket(s.calls[c]) then TakeRequest(s, c, choice)
      else if s.calls[c].Kill? then TakeKill(s, c, choice)
      else TakeStart(s, c, choice)
    case Read(inc, line) =>
      if inc !in s.supervisors || !s.supervisors[inc].reader.Reading? then None else Some(TakeLine(s, inc, line))
    case Deliver(inc, target) =>
      if inc !in s.supervisors then None else TakeDelivery(s, inc, target)
    case Exit(inc) =>
      if inc !in s.supervisors then None else Some(Put(s, inc, s.supervisors[inc].(alive := false)))
  }

  function NewCall(s: Sys, c: CallId, pc: Pc): Option<Sys> {
    if c in s.calls then None else Some(Goto(s, c, pc).(mail := s.mail[c := []]))
  }

  /** `ensure_started_locked`, `has_exited` and taking a request id, all inside the state mutex. */
  function TakeStart(s: Sys, c: CallId, choice: Choice): Option<Sys>
    requires c in s.calls
  {
    var h := s.handles;
    if s.calls[c].Spawn? && choice.ok then
      if choice.spawned in s.supervisors then None
      else Some(Goto(Put(s, choice.spawned, Supervisor(true, 1, map[], Reading)), c, SetChild(choice.spawned)))
    else if s.calls[c].TakeTicket? then
      if h.process.None? || h.process.value !in s.supervisors then None
      else
        var p := s.supervisors[h.process.value];
        var t := Ticket(h.process.value, p.nextId);
        Some(Goto(Put(s, t.inc, p.(nextId := p.nextId + 1)), c, Register(t)).(
          tickets := s.tickets[c := t], handles := h.(lock := None)))
    else
      var alive := h.process.Some? && h.process.value in s.supervisors && s.supervisors[h.process.value].alive;
      match StartStep(c, s.calls[c], h, alive, choice.ok)
      case None => None
      case Some((handles, pc)) => Some(Goto(s, c, pc).(handles := handles))
  }

  /** The steps inside the state mutex that concern the handles alone. */
  function StartStep(c: CallId, pc: Pc, h: Handles, alive: bool, ok: bool): Option<(Handles, Pc)> {
    match pc
    case WantState(probe) => if h.lock != None then None else Some((h.(lock := Some(c)), CheckChild(probe)))
    case CheckChild(probe) =>
      if h.process.None? && !probe then Some((h, Spawn))
      else if h.process.None? || !ok then Some((h.(lock := None), Done(NoReply)))
      else if !alive then Some((h.(process := None), ClearChild(probe)))
      else if probe then Some((h.(lock := None), Done(NoReply)))
      else Some((h, TakeTicket))
    case ClearChild(probe) => Some((h.(activeChild := None), ClearPending(probe)))
    case ClearPending(probe) =>
      if probe then Some((h.(activePending := None, lock := None), Done(NoReply)))
      else Some((h.(activePending := None), Spawn))
    case Spawn => Some((h.(lock := None), Done(NoReply)))
    case SetChild(inc) => Some((h.(activeChild := Some(inc)), SetPending(inc)))
    case SetPending(inc) => Some((h.(activePending := Some(inc)), SetState(inc)))
    case SetState(inc) => Some((h.(process := Some(inc)), TakeTicket))
    case _ => None
  }

  /** Registering, writing the request, waiting for the reply, and giving up. */
  function TakeRequest(s: Sys, c: CallId, choice: Choice): Option<Sys>
    requires c in s.calls
  {
    match s.calls[c]
    case Register(t) =>
      if t.inc !in s.supervisors then None
      else
        var p := s.supervisors[t.inc];
        Some(Goto(Put(s, t.inc, p.(pending := p.pending[t.id := c])), c, WriteRequest(t)))
    case WriteRequest(t) => Some(Goto(s, c, if choice.ok then Waiting(t) else RemoveOwn(t, false)))
    case Waiting(t) =>
      if c !in s.mail then None
      else if s.mail[c] != [] then Some(Goto(s, c, Done(Got(s.mail[c][0]))))
      else Some(Goto(s, c, RemoveOwn(t, true)))
    case RemoveOwn(t, timedOut) =>
      if t.inc !in s.supervisors then None
      else
        var p := s.supervisors[t.inc];
        Some(Goto(Put(s, t.inc, p.(pending := Without(p.pending, t.id))), c,
                  if timedOut then Kill(TakeChild) else Done(NoReply)))
    case _ => None
  }

  /** `kill`: the child is killed and the active map is drained. */
  function TakeKill(s: Sys, c: CallId, choice: Choice): Option<Sys>
    requires c in s.calls && s.calls[c].Kill?
  {
    var stage := s.calls[c].stage;
    if stage.SendAll? then
      if stage.calls == {} then Some(Goto(s, c, Kill(ClearState)))
      else if choice.target !in stage.calls then None
      else Some(Goto(Send(s, choice.target, SupervisorKilled), c, Kill(SendAll(stage.calls - {choice.target}))))
    else if (stage.Drain? || stage.KillChild?) && stage.inc !in s.supervisors then None
    else if stage.Drain? then
      var p := s.supervisors[stage.inc];
      Some(Goto(Put(s, stage.inc, p.(pending := map[])), c, Kill(SendAll(Drained(p)))))
    else
      var killed := if stage.KillChild? && choice.ok
        then Put(s, stage.inc, s.supervisors[stage.inc].(alive := false)) else s;
      var (handles, pc) := KillStep(stage, s.handles, choice.ok);
      Some(Goto(killed, c, pc).(handles := handles))
  }

  /** The steps of `kill` that concern the handles; a failure to kill the child ends it at once. */
  function KillStep(stage: KillStage, h: Handles, ok: bool): (Handles, Pc)
    requires !stage.Drain? && !stage.SendAll?
  {
    match stage
    case TakeChild =>
      (h.(activeChild := None), Kill(if h.activeChild.Some? then KillChild(h.activeChild.value) else TakePending))
    case KillChild(_) => (h, if ok then Kill(TakePending) else Done(NoReply))
    case TakePending =>
      (h.(activePending := None), Kill(if h.activePending.Some? then Drain(h.activePending.value) else ClearState))
    case ClearState => (if h.lock == None then h.(process := None) else h, Done(NoReply))
  }

  /** The reader takes one line; a reply to nobody is dropped, and the end of the stream drains the map. */
  function TakeLine(s: Sys, inc: Incarnation, line: Line): Sys
    requires inc in s.supervisors
  {
    var p := s.supervisors[inc];
    match line
    case EndOfStream => Put(s, inc, p.(pending := map[], reader := Failing(Drained(p))))
    case Line(None, _) => s
    case Line(Some(id), payload) =>
      if id !in p.pending then s
      else Put(s, inc, p.(pending := Without(p.pending, id),
                          reader := Holding(p.pending[id], Reply(Ticket(inc, id), payload))))
  }

  function TakeDelivery(s: Sys, inc: Incarnation, target: CallId): Option<Sys>
    requires inc in s.supervisors
  {
    var p := s.supervisors[inc];
    match p.reader
    case Holding(c, m) => if c != target then None else Some(Send(Put(s, inc, p.(reader := Reading)), c, m))
    case Failing(calls) =>
      if calls == {} then Some(Put(s, inc, p.(reader := Ended)))
      else if target !in calls then None
      else Some(Send(Put(s, inc, p.(reader := Failing(calls - {target}))), target, ReaderFailed))
    case _ => None
  }
}
