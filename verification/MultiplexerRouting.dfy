/** Where every reply of the supervisor multiplexer goes, in every interleaving. */
module MultiplexerRouting {
  import opened Wrappers
  import opened SupervisorMultiplexer

  // ----- Where the sender of a caller's channel is -----

  /** The one sender of a caller's channel moves from the map to a thread's hand, and is used up by a message. */
  datatype Place = InMap(ticket: Ticket) | WithReader(inc: Incarnation) | WithKiller(killer: CallId) | Used

  ghost predicate At(s: Sys, c: CallId, place: Place) {
    match place
    case InMap(t) => t.inc in s.supervisors && t.id in s.supervisors[t.inc].pending
                     && s.supervisors[t.inc].pending[t.id] == c
    case WithReader(inc) => inc in s.supervisors && ReaderHas(s.supervisors[inc].reader, c)
    case WithKiller(k) => k in s.calls && KillerHas(s.calls[k], c)
    case Used => c in s.mail && s.mail[c] != []
  }

  predicate ReaderHas(r: Reader, c: CallId) {
    (r.Holding? && r.call == c) || (r.Failing? && c in r.calls)
  }

  predicate KillerHas(pc: Pc, c: CallId) {
    pc.Kill? && pc.stage.SendAll? && c in pc.stage.calls
  }

  /** The call has been entered into its supervisor's map at some time. */
  predicate IsRegistered(pc: Pc) {
    pc.WriteRequest? || pc.Waiting? || pc.RemoveOwn? || pc.Kill? || pc.Done?
  }

  /** The sender is in at most one place, which is its own map as long as it is in a map. */
  ghost predicate SendersOk(s: Sys) {
    && (forall c, p, q :: At(s, c, p) && At(s, c, q) ==> p == q)
    && (forall c, p :: At(s, c, p) ==>
          c in s.calls && c in s.tickets && IsRegistered(s.calls[c]) && (p.InMap? ==> p.ticket == s.tickets[c]))
  }

  /** Tickets are distinct, issued by their supervisor, and what their callers act on. */
  ghost predicate TicketsOk(s: Sys) {
    && (forall c :: c in s.tickets ==> c in s.calls && IsIssued(s, s.tickets[c]))
    && (forall c, d :: c in s.tickets && d in s.tickets && s.tickets[c] == s.tickets[d] ==> c == d)
    && (forall c :: c in s.calls && HasTicket(s.calls[c]) ==> c in s.tickets && s.tickets[c] == s.calls[c].ticket)
    && (forall c :: c in s.calls && IsStarting(s.calls[c]) ==> c !in s.tickets)
  }

  ghost predicate IsIssued(s: Sys, t: Ticket) {
    t.inc in s.supervisors && t.id < s.supervisors[t.inc].nextId
  }

  predicate IsStarting(pc: Pc) {
    pc.WantState? || pc.CheckChild? || pc.ClearChild? || pc.ClearPending? || pc.Spawn? || pc.SetChild?
    || pc.SetPending? || pc.SetState? || pc.TakeTicket?
  }

  /** Every call has a channel with at most one message, and a reply in it answers the call's own request. */
  ghost predicate MailOk(s: Sys) {
    && s.mail.Keys == s.calls.Keys
    && (forall c :: c in s.mail ==> |s.mail[c]| <= 1)
    && (forall c :: c in s.mail && s.mail[c] != [] ==> Answers(s, c, s.mail[c][0]))
    && (forall inc :: inc in s.supervisors && s.supervisors[inc].reader.Holding? ==>
          Answers(s, s.supervisors[inc].reader.call, s.supervisors[inc].reader.message)
          && s.supervisors[inc].reader.message.Reply? && s.supervisors[inc].reader.message.ticket.inc == inc)
    && (forall c :: c in s.calls && s.calls[c].Done? && s.calls[c].outcome.Got? ==>
          s.mail[c] == [s.calls[c].outcome.message])
  }

  ghost predicate Answers(s: Sys, c: CallId, m: Message) {
    m.Reply? ==> c in s.tickets && s.tickets[c] == m.ticket
  }

  /** A registered call that has not given up still has its sender somewhere. */
  ghost predicate NobodyForgotten(s: Sys) {
    forall c :: c in s.calls && (s.calls[c].WriteRequest? || s.calls[c].Waiting?) ==> IsSomewhere(s, c)
  }

  ghost predicate IsSomewhere(s: Sys, c: CallId) {
    exists p :: At(s, c, p)
  }

  ghost predicate Inv(s: Sys) {
    SendersOk(s) && TicketsOk(s) && MailOk(s) && NobodyForgotten(s)
  }

  lemma InvInitially()
    ensures Inv(INITIAL)
  {
  }

  // ----- Moving senders -----

  /** The senders of `moved` go to `dest`, or are dropped; all others stay where they are. */
  ghost predicate Shift(s: Sys, r: Sys, moved: set<CallId>, dest: Option<Place>) {
    && (forall c, p :: c !in moved ==> (At(r, c, p) <==> At(s, c, p)))
    && (forall c, p :: c in moved ==> (At(r, c, p) <==> dest == Some(p)))
  }

  /** Calls never become unregistered, and a moved sender belongs to a registered call. */
  ghost predicate CallsStep(s: Sys, r: Sys, moved: set<CallId>, dest: Option<Place>) {
    && s.calls.Keys <= r.calls.Keys
    && (forall c :: c in s.calls && IsRegistered(s.calls[c]) ==> IsRegistered(r.calls[c]))
    && (forall c :: c in s.tickets ==> c in r.tickets && r.tickets[c] == s.tickets[c])
    && (forall c :: c in r.calls && Waits(r.calls[c]) ==>
          if c in moved then dest.Some? else c in s.calls && Waits(s.calls[c]))
    && (forall c :: c in moved && dest.Some? ==>
          c in r.calls && c in r.tickets && IsRegistered(r.calls[c])
          && (dest.value.InMap? ==> dest.value.ticket == r.tickets[c]))
  }

  predicate Waits(pc: Pc) {
    pc.WriteRequest? || pc.Waiting?
  }

  lemma ShiftKeepsSenders(s: Sys, r: Sys, moved: set<CallId>, dest: Option<Place>)
    requires SendersOk(s) && NobodyForgotten(s) && Shift(s, r, moved, dest) && CallsStep(s, r, moved, dest)
    ensures SendersOk(r) && NobodyForgotten(r)
  {
    hide At;
    forall c | c in r.calls && Waits(r.calls[c])
      ensures IsSomewhere(r, c)
    {
      if c in moved {
        assert At(r, c, dest.value);
      } else {
        assert IsSomewhere(s, c);
        var p :| At(s, c, p);
        assert At(r, c, p);
      }
    }
  }

  /** Tickets stay; supervisors only add to what they have issued. */
  ghost predicate TicketsStep(s: Sys, r: Sys) {
    && r.tickets == s.tickets
    && s.calls.Keys <= r.calls.Keys
    && (forall inc :: inc in s.supervisors ==>
          inc in r.supervisors && s.supervisors[inc].nextId <= r.supervisors[inc].nextId)
    && (forall c :: c in r.calls && HasTicket(r.calls[c]) ==>
          c in s.calls && HasTicket(s.calls[c]) && s.calls[c].ticket == r.calls[c].ticket)
    && (forall c :: c in r.calls && IsStarting(r.calls[c]) ==> c !in s.calls || IsStarting(s.calls[c]))
  }

  lemma TicketsKept(s: Sys, r: Sys)
    requires TicketsOk(s) && TicketsStep(s, r)
    ensures TicketsOk(r)
  {
  }

  /** Channels and what the readers hold stay. */
  ghost predicate MailStep(s: Sys, r: Sys) {
    && (forall c :: c in s.tickets ==> c in r.tickets && r.tickets[c] == s.tickets[c])
    && r.mail.Keys == r.calls.Keys && s.calls.Keys <= r.calls.Keys
    && (forall c :: c in r.mail ==> r.mail[c] == if c in s.mail then s.mail[c] else [])
    && (forall inc :: inc in r.supervisors && r.supervisors[inc].reader.Holding? ==>
          inc in s.supervisors && s.supervisors[inc].reader == r.supervisors[inc].reader)
    && (forall c :: c in r.calls && GotReply(r.calls[c]) ==>
          c in s.calls
          && (r.calls[c] == s.calls[c]
              || (c in s.mail && s.mail[c] != [] && r.calls[c].outcome.message == s.mail[c][0])))
  }

  predicate GotReply(pc: Pc) {
    pc.Done? && pc.outcome.Got?
  }

  lemma MailKept(s: Sys, r: Sys)
    requires MailOk(s) && MailStep(s, r)
    ensures MailOk(r)
  {
  }

  /** A step that sends nothing and gives no ticket keeps the invariant if it moves senders as it should. */
  lemma ShiftKeepsInv(s: Sys, r: Sys, moved: set<CallId>, dest: Option<Place>)
    requires Inv(s) && Shift(s, r, moved, dest) && CallsStep(s, r, moved, dest)
    requires TicketsStep(s, r) && MailStep(s, r)
    ensures Inv(r)
  {
    hide SendersOk, TicketsOk, MailOk, NobodyForgotten, Shift, CallsStep, TicketsStep, MailStep;
    ShiftKeepsSenders(s, r, moved, dest);
    TicketsKept(s, r);
    MailKept(s, r);
  }

  // ----- Steps that move no sender -----

  /** The call moves on without touching a map, a channel or a ticket. */
  predicate PcStep(a: Pc, b: Pc, inbox: seq<Message>) {
    && (IsRegistered(a) ==> IsRegistered(b))
    && (HasTicket(b) ==> HasTicket(a) && b.ticket == a.ticket)
    && (IsStarting(b) ==> IsStarting(a))
    && (Waits(b) ==> Waits(a))
    && (a.Kill? && a.stage.SendAll? ==> a.stage.calls == {})
    && !(b.Kill? && b.stage.SendAll?)
    && (GotReply(b) ==> inbox != [] && b.outcome.message == inbox[0])
  }

  predicate SupervisorStep(a: Supervisor, b: Supervisor) {
    b.nextId == a.nextId && b.pending == a.pending
    && (b.reader == a.reader || (a.reader == Failing({}) && b.reader == Ended))
  }

  ghost predicate SupervisorsQuiet(s: Sys, r: Sys) {
    && (forall inc :: inc in s.supervisors ==>
          inc in r.supervisors && SupervisorStep(s.supervisors[inc], r.supervisors[inc]))
    && (forall inc :: inc in r.supervisors && inc !in s.supervisors ==>
          r.supervisors[inc].pending == map[] && r.supervisors[inc].reader == Reading)
  }

  /** At most the position of `c` and the processes change. */
  ghost predicate Quiet(s: Sys, r: Sys, c: CallId) {
    && r.mail == s.mail && r.tickets == s.tickets && SupervisorsQuiet(s, r)
    && (r.calls == s.calls || (
      && c in s.calls && c in s.mail && c in r.calls && r.calls == s.calls[c := r.calls[c]]
      && PcStep(s.calls[c], r.calls[c], s.mail[c])))
  }

  lemma QuietMovesNothing(s: Sys, r: Sys, c: CallId)
    requires Quiet(s, r, c)
    ensures Shift(s, r, {}, None)
  {
  }

  lemma QuietCalls(s: Sys, r: Sys, c: CallId)
    requires Quiet(s, r, c)
    ensures CallsStep(s, r, {}, None)
  {
  }

  lemma QuietTickets(s: Sys, r: Sys, c: CallId)
    requires Quiet(s, r, c)
    ensures TicketsStep(s, r)
  {
  }

  lemma QuietMail(s: Sys, r: Sys, c: CallId)
    requires Quiet(s, r, c) && MailOk(s)
    ensures MailStep(s, r)
  {
  }

  lemma QuietKeepsInv(s: Sys, r: Sys, c: CallId)
    requires Inv(s) && Quiet(s, r, c)
    ensures Inv(r)
  {
    hide SendersOk, TicketsOk, MailOk, NobodyForgotten, Shift, CallsStep, TicketsStep, MailStep, Quiet;
    QuietMovesNothing(s, r, c);
    QuietCalls(s, r, c);
    QuietTickets(s, r, c);
    QuietMail(s, r, c);
    ShiftKeepsInv(s, r, {}, None);
  }

  // ----- Each step -----

  lemma NewCallKeepsInv(s: Sys, c: CallId, pc: Pc, r: Sys)
    requires Inv(s) && NewCall(s, c, pc) == Some(r) && (pc.WantState? || pc == Kill(TakeChild))
    ensures Inv(r)
  {
    hide SendersOk, TicketsOk, NobodyForgotten, MailOk, Shift, CallsStep, TicketsStep, MailStep;
    MailKeys(s);
    NewCallMoves(s, c, pc, r);
    NewCallMail(s, c, pc, r);
    ShiftKeepsInv(s, r, {}, None);
  }

  lemma NewCallMoves(s: Sys, c: CallId, pc: Pc, r: Sys)
    requires NewCall(s, c, pc) == Some(r) && (pc.WantState? || pc == Kill(TakeChild)) && c !in s.mail
    ensures Shift(s, r, {}, None) && CallsStep(s, r, {}, None) && TicketsStep(s, r)
  {
    assert Shift(s, r, {}, None) by { hide CallsStep, TicketsStep; }
    assert CallsStep(s, r, {}, None) by { hide Shift, TicketsStep; }
    hide Shift, CallsStep;
  }

  lemma MailKeys(s: Sys)
    requires MailOk(s)
    ensures s.mail.Keys == s.calls.Keys
  {
  }

  lemma NewCallMail(s: Sys, c: CallId, pc: Pc, r: Sys)
    requires MailOk(s) && NewCall(s, c, pc) == Some(r) && !pc.Done?
    ensures MailStep(s, r)
  {
    assert forall d :: d in r.calls && GotReply(r.calls[d]) ==> d in s.calls && r.calls[d] == s.calls[d];
    assert r.mail.Keys == r.calls.Keys;
  }

  lemma StartPc(c: CallId, pc: Pc, h: Handles, alive: bool, ok: bool, inbox: seq<Message>)
    requires !HasTicket(pc) && StartStep(c, pc, h, alive, ok).Some?
    ensures PcStep(pc, StartStep(c, pc, h, alive, ok).value.1, inbox)
  {
  }

  lemma StartIsQuiet(s: Sys, c: CallId, choice: Choice, r: Sys)
    requires c in s.calls && c in s.mail && !s.calls[c].TakeTicket?
    requires !HasTicket(s.calls[c]) && !s.calls[c].Kill? && TakeStart(s, c, choice) == Some(r)
    ensures Quiet(s, r, c)
  {
    hide SupervisorsQuiet, StartStep;
    StartKeepsSupervisors(s, c, choice, r);
    if !(s.calls[c].Spawn? && choice.ok) {
      var h := s.handles;
      var alive := h.process.Some? && h.process.value in s.supervisors && s.supervisors[h.process.value].alive;
      StartPc(c, s.calls[c], h, alive, choice.ok, s.mail[c]);
    }
  }

  lemma StartKeepsSupervisors(s: Sys, c: CallId, choice: Choice, r: Sys)
    requires c in s.calls && !s.calls[c].TakeTicket? && TakeStart(s, c, choice) == Some(r)
    ensures SupervisorsQuiet(s, r)
  {
    hide StartStep;
    if !(s.calls[c].Spawn? && choice.ok) {
      assert r.supervisors == s.supervisors;
    }
  }

  /** Giving out a ticket: the supervisor's next request id, to a call that had none. */
  lemma TicketKeepsInv(s: Sys, c: CallId, choice: Choice, r: Sys)
    requires Inv(s) && c in s.calls && s.calls[c].TakeTicket? && TakeStart(s, c, choice) == Some(r)
    ensures Inv(r)
  {
    hide SendersOk, MailOk, NobodyForgotten, Shift, CallsStep, MailStep;
    NewTicketIsDistinct(s, c, choice, r);
    NewTicketMoves(s, c, choice, r);
    MailKeys(s);
    NewTicketMail(s, c, choice, r);
    hide TicketsOk;
    ShiftKeepsSenders(s, r, {}, None);
    MailKept(s, r);
  }

  lemma NewTicketMoves(s: Sys, c: CallId, choice: Choice, r: Sys)
    requires TicketsOk(s) && c in s.calls && s.calls[c].TakeTicket? && TakeStart(s, c, choice) == Some(r)
    ensures Shift(s, r, {}, None) && CallsStep(s, r, {}, None)
  {
    assert c !in s.tickets;
    hide TicketsOk;
    assert Shift(s, r, {}, None) by { hide CallsStep; }
    hide Shift;
  }

  lemma NewTicketMail(s: Sys, c: CallId, choice: Choice, r: Sys)
    requires TicketsOk(s) && s.mail.Keys == s.calls.Keys
    requires c in s.calls && s.calls[c].TakeTicket? && TakeStart(s, c, choice) == Some(r)
    ensures MailStep(s, r)
  {
    assert c !in s.tickets;
    hide TicketsOk;
  }

  /** `c` gets a ticket its supervisor had not issued before, and nothing else changes for callers. */
  ghost predicate Issues(s: Sys, c: CallId, t: Ticket, r: Sys) {
    && r.tickets == s.tickets[c := t] && r.calls == s.calls[c := Register(t)]
    && IsIssued(r, t)
    && (forall u: Ticket :: IsIssued(s, u) ==> IsIssued(r, u) && u != t)
  }

  lemma NewTicketIsDistinct(s: Sys, c: CallId, choice: Choice, r: Sys)
    requires TicketsOk(s) && c in s.calls && s.calls[c].TakeTicket? && TakeStart(s, c, choice) == Some(r)
    ensures TicketsOk(r)
  {
    var t := Ticket(s.handles.process.value, s.supervisors[s.handles.process.value].nextId);
    assert Issues(s, c, t, r) by {
      hide StartStep, TicketsOk;
    }
    hide StartStep, TakeStart;
    IssuingKeepsTickets(s, c, t, r);
  }

  lemma IssuingKeepsTickets(s: Sys, c: CallId, t: Ticket, r: Sys)
    requires TicketsOk(s) && c in s.calls && Issues(s, c, t, r)
    ensures TicketsOk(r)
  {
    hide IsIssued;
  }

  lemma RequestIsQuiet(s: Sys, c: CallId, choice: Choice, r: Sys)
    requires c in s.calls && c in s.mail && Waits(s.calls[c]) && TakeRequest(s, c, choice) == Some(r)
    ensures Quiet(s, r, c)
  {
    hide SupervisorsQuiet;
    assert SupervisorsQuiet(s, r) by { SameSupervisors(s, r); }
  }

  lemma SameSupervisors(s: Sys, r: Sys)
    requires r.supervisors == s.supervisors
    ensures SupervisorsQuiet(s, r)
  {
  }

  // ----- Entering and leaving a map -----

  /** `c` moves on and only the map of `inc` changes: nothing happens to channels and tickets. */
  ghost predicate EditsMap(s: Sys, r: Sys, c: CallId, inc: Incarnation, pending: map<RequestId, CallId>) {
    && inc in s.supervisors && c in s.calls
    && r.supervisors == s.supervisors[inc := s.supervisors[inc].(pending := pending)]
    && r.tickets == s.tickets && r.mail == s.mail
    && c in r.calls && r.calls == s.calls[c := r.calls[c]]
    && !GotReply(r.calls[c]) && !IsStarting(r.calls[c])
    && (HasTicket(r.calls[c]) ==> HasTicket(s.calls[c]) && r.calls[c].ticket == s.calls[c].ticket)
  }

  lemma EditKeepsTickets(s: Sys, r: Sys, c: CallId, inc: Incarnation, pending: map<RequestId, CallId>)
    requires TicketsOk(s) && EditsMap(s, r, c, inc, pending)
    ensures TicketsOk(r)
  {
    assert TicketsStep(s, r) by { hide TicketsOk; }
    hide TicketsOk, TicketsStep;
    TicketsKept(s, r);
  }

  lemma EditKeepsMail(s: Sys, r: Sys, c: CallId, inc: Incarnation, pending: map<RequestId, CallId>)
    requires MailOk(s) && EditsMap(s, r, c, inc, pending)
    ensures MailOk(r)
  {
    MailKeys(s);
    assert MailStep(s, r) by { hide MailOk; }
    hide MailOk, MailStep;
    MailKept(s, r);
  }

  lemma EditKeepsData(s: Sys, r: Sys, c: CallId, inc: Incarnation, pending: map<RequestId, CallId>)
    requires TicketsOk(s) && MailOk(s) && EditsMap(s, r, c, inc, pending)
    ensures TicketsOk(r) && MailOk(r)
  {
    hide TicketsOk, MailOk, EditsMap;
    EditKeepsTickets(s, r, c, inc, pending);
    EditKeepsMail(s, r, c, inc, pending);
  }

  lemma RegisterKeepsInv(s: Sys, c: CallId, choice: Choice, r: Sys)
    requires Inv(s) && c in s.calls && s.calls[c].Register? && TakeRequest(s, c, choice) == Some(r)
    ensures Inv(r)
  {
    hide SendersOk, TicketsOk, MailOk, NobodyForgotten, Shift, CallsStep;
    var t := s.calls[c].ticket;
    EditKeepsData(s, r, c, t.inc, s.supervisors[t.inc].pending[t.id := c]);
    RegisterMoves(s, c, choice, r);
    ShiftKeepsSenders(s, r, {c}, Some(InMap(t)));
  }

  /** A call that is about to register has its sender in its own hands, and its id is not in the map. */
  lemma RegisterIsNew(s: Sys, c: CallId)
    requires SendersOk(s) && TicketsOk(s) && c in s.calls && s.calls[c].Register?
    requires s.calls[c].ticket.inc in s.supervisors
    ensures c in s.tickets && s.tickets[c] == s.calls[c].ticket
    ensures s.calls[c].ticket.id !in s.supervisors[s.calls[c].ticket.inc].pending
    ensures forall p :: !At(s, c, p)
  {
    var t := s.calls[c].ticket;
    var pending := s.supervisors[t.inc].pending;
    assert t.id in pending ==> At(s, pending[t.id], InMap(t));
    hide At;
  }

  lemma RegisterMoves(s: Sys, c: CallId, choice: Choice, r: Sys)
    requires SendersOk(s) && TicketsOk(s) && c in s.calls && s.calls[c].Register?
    requires TakeRequest(s, c, choice) == Some(r)
    ensures Shift(s, r, {c}, Some(InMap(s.calls[c].ticket)))
    ensures CallsStep(s, r, {c}, Some(InMap(s.calls[c].ticket)))
  {
    var t := s.calls[c].ticket;
    RegisterIsNew(s, c);
    hide SendersOk, TicketsOk;
    assert CallsStep(s, r, {c}, Some(InMap(t))) by { hide Shift, At; }
    hide CallsStep;
    assert forall d, p :: At(r, d, p) <==> At(s, d, p) || (d == c && p == InMap(t));
  }

  lemma RemoveKeepsInv(s: Sys, c: CallId, choice: Choice, r: Sys)
    requires Inv(s) && c in s.calls && s.calls[c].RemoveOwn? && TakeRequest(s, c, choice) == Some(r)
    ensures Inv(r)
  {
    hide SendersOk, TicketsOk, MailOk, NobodyForgotten, Shift, CallsStep;
    var t := s.calls[c].ticket;
    EditKeepsData(s, r, c, t.inc, Without(s.supervisors[t.inc].pending, t.id));
    var moved := if At(s, c, InMap(t)) then {c} else {};
    RemoveMoves(s, c, choice, r, moved);
    ShiftKeepsSenders(s, r, moved, None);
  }

  lemma RemoveMoves(s: Sys, c: CallId, choice: Choice, r: Sys, moved: set<CallId>)
    requires SendersOk(s) && TicketsOk(s) && c in s.calls && s.calls[c].RemoveOwn?
    requires TakeRequest(s, c, choice) == Some(r)
    requires moved == if At(s, c, InMap(s.calls[c].ticket)) then {c} else {}
    ensures Shift(s, r, moved, None) && CallsStep(s, r, moved, None)
  {
    var t := s.calls[c].ticket;
    assert CallsStep(s, r, moved, None) by { hide Shift, SendersOk, TicketsOk, At; }
    OwnEntry(s, c);
    assert c in moved ==> forall p :: At(s, c, p) ==> p == InMap(t);
    hide SendersOk, TicketsOk, CallsStep;
    RemovedFromMap(s, c, choice, r);
    hide At;
  }

  lemma RemovedFromMap(s: Sys, c: CallId, choice: Choice, r: Sys)
    requires c in s.calls && s.calls[c].RemoveOwn? && TakeRequest(s, c, choice) == Some(r)
    ensures forall d, p :: At(r, d, p) <==> At(s, d, p) && p != InMap(s.calls[c].ticket)
  {
  }

  /** Only the call with the ticket can be registered under it. */
  lemma OwnEntry(s: Sys, c: CallId)
    requires SendersOk(s) && TicketsOk(s) && c in s.calls && s.calls[c].RemoveOwn?
    ensures forall d :: At(s, d, InMap(s.calls[c].ticket)) ==> d == c
  {
    hide At;
  }

  lemma DrainKeepsInv(s: Sys, c: CallId, choice: Choice, r: Sys)
    requires Inv(s) && c in s.calls && s.calls[c].Kill? && s.calls[c].stage.Drain? && TakeKill(s, c, choice) == Some(r)
    ensures Inv(r)
  {
    hide SendersOk, TicketsOk, MailOk, NobodyForgotten, Shift, CallsStep;
    var inc := s.calls[c].stage.inc;
    EditKeepsData(s, r, c, inc, map[]);
    DrainMoves(s, c, choice, r);
    ShiftKeepsSenders(s, r, Drained(s.supervisors[inc]), Some(WithKiller(c)));
  }

  /** Every call of the map goes to the drainer's hand, and its sender was nowhere else. */
  lemma DrainMoves(s: Sys, c: CallId, choice: Choice, r: Sys)
    requires SendersOk(s)
    requires c in s.calls && s.calls[c].Kill? && s.calls[c].stage.Drain? && TakeKill(s, c, choice) == Some(r)
    ensures Shift(s, r, Drained(s.supervisors[s.calls[c].stage.inc]), Some(WithKiller(c)))
    ensures CallsStep(s, r, Drained(s.supervisors[s.calls[c].stage.inc]), Some(WithKiller(c)))
  {
    var inc := s.calls[c].stage.inc;
    var moved := Drained(s.supervisors[inc]);
    DrainedAreInMap(s, inc);
    hide SendersOk;
    assert CallsStep(s, r, moved, Some(WithKiller(c))) by { hide Shift; }
    hide CallsStep;
    assert forall d, p :: At(r, d, p) <==>
      (p == WithKiller(c) && d in moved) || (At(s, d, p) && !(p.InMap? && p.ticket.inc == inc));
  }

  lemma DrainedAreInMap(s: Sys, inc: Incarnation)
    requires SendersOk(s) && inc in s.supervisors
    ensures forall d :: d in Drained(s.supervisors[inc]) ==>
      d in s.calls && d in s.tickets && IsRegistered(s.calls[d]) && s.tickets[d].inc == inc
      && (forall p :: At(s, d, p) <==> p == InMap(s.tickets[d]))
    ensures forall d, id :: At(s, d, InMap(Ticket(inc, id))) ==> d in Drained(s.supervisors[inc])
  {
    forall d | d in Drained(s.supervisors[inc])
      ensures d in s.calls && d in s.tickets && IsRegistered(s.calls[d]) && s.tickets[d].inc == inc
           && (forall p :: At(s, d, p) <==> p == InMap(s.tickets[d]))
    {
      var id :| id in s.supervisors[inc].pending && s.supervisors[inc].pending[id] == d;
      assert At(s, d, InMap(Ticket(inc, id)));
    }
  }

  // ----- The reader, and sending -----

  /** Only one supervisor's map and reader change. */
  ghost predicate EditsReader(s: Sys, r: Sys, inc: Incarnation, p: Supervisor) {
    && inc in s.supervisors && p.nextId == s.supervisors[inc].nextId
    && r.supervisors == s.supervisors[inc := p]
    && r.tickets == s.tickets && r.calls == s.calls
  }

  lemma ReaderKeepsTickets(s: Sys, r: Sys, inc: Incarnation, p: Supervisor)
    requires TicketsOk(s) && EditsReader(s, r, inc, p)
    ensures TicketsOk(r)
  {
    assert TicketsStep(s, r) by { hide TicketsOk; }
    hide TicketsOk, TicketsStep;
    TicketsKept(s, r);
  }

  lemma EndOfStreamKeepsInv(s: Sys, inc: Incarnation, r: Sys)
    requires Inv(s) && inc in s.supervisors && s.supervisors[inc].reader.Reading? && TakeLine(s, inc, EndOfStream) == r
    ensures Inv(r)
  {
    hide SendersOk, TicketsOk, MailOk, NobodyForgotten, Shift, CallsStep;
    ReaderKeepsTickets(s, r, inc, r.supervisors[inc]);
    assert MailOk(r) by { EndOfStreamMail(s, inc, r); }
    EndOfStreamMoves(s, inc, r);
    ShiftKeepsSenders(s, r, Drained(s.supervisors[inc]), Some(WithReader(inc)));
  }

  lemma EndOfStreamMail(s: Sys, inc: Incarnation, r: Sys)
    requires MailOk(s) && inc in s.supervisors && TakeLine(s, inc, EndOfStream) == r
    ensures MailOk(r)
  {
    MailKeys(s);
    assert MailStep(s, r) by { hide MailOk; }
    hide MailOk, MailStep;
    MailKept(s, r);
  }

  lemma EndOfStreamMoves(s: Sys, inc: Incarnation, r: Sys)
    requires SendersOk(s) && inc in s.supervisors && s.supervisors[inc].reader.Reading?
    requires TakeLine(s, inc, EndOfStream) == r
    ensures Shift(s, r, Drained(s.supervisors[inc]), Some(WithReader(inc)))
    ensures CallsStep(s, r, Drained(s.supervisors[inc]), Some(WithReader(inc)))
  {
    var moved := Drained(s.supervisors[inc]);
    DrainedAreInMap(s, inc);
    hide SendersOk;
    assert CallsStep(s, r, moved, Some(WithReader(inc))) by { hide Shift, At; }
    hide CallsStep;
    assert forall d, p :: At(r, d, p) <==>
      (p == WithReader(inc) && d in moved) || (At(s, d, p) && !(p.InMap? && p.ticket.inc == inc));
  }

  lemma ReplyKeepsInv(s: Sys, inc: Incarnation, id: RequestId, payload: Payload, r: Sys)
    requires Inv(s) && inc in s.supervisors && s.supervisors[inc].reader.Reading?
    requires id in s.supervisors[inc].pending && TakeLine(s, inc, Line(Some(id), payload)) == r
    ensures Inv(r)
  {
    hide SendersOk, TicketsOk, MailOk, NobodyForgotten, Shift, CallsStep;
    var c := s.supervisors[inc].pending[id];
    ReaderKeepsTickets(s, r, inc, r.supervisors[inc]);
    ReplyFindsItsCaller(s, inc, id);
    ReplyMail(s, inc, id, payload, r);
    ReplyMoves(s, inc, id, payload, r);
    ShiftKeepsSenders(s, r, {c}, Some(WithReader(inc)));
  }

  /** Whoever is found under a reply's id asked that supervisor under that id. */
  lemma ReplyFindsItsCaller(s: Sys, inc: Incarnation, id: RequestId)
    requires SendersOk(s) && inc in s.supervisors && id in s.supervisors[inc].pending
    ensures var c := s.supervisors[inc].pending[id];
      && c in s.calls && IsRegistered(s.calls[c]) && c in s.tickets && s.tickets[c] == Ticket(inc, id)
      && (forall p :: At(s, c, p) <==> p == InMap(Ticket(inc, id)))
    ensures forall d :: At(s, d, InMap(Ticket(inc, id))) ==> d == s.supervisors[inc].pending[id]
  {
    assert At(s, s.supervisors[inc].pending[id], InMap(Ticket(inc, id)));
  }

  lemma ReplyMail(s: Sys, inc: Incarnation, id: RequestId, payload: Payload, r: Sys)
    requires MailOk(s) && inc in s.supervisors && id in s.supervisors[inc].pending
    requires TakeLine(s, inc, Line(Some(id), payload)) == r
    requires var c := s.supervisors[inc].pending[id]; c in s.tickets && s.tickets[c] == Ticket(inc, id)
    ensures MailOk(r)
  {
  }

  lemma ReplyMoves(s: Sys, inc: Incarnation, id: RequestId, payload: Payload, r: Sys)
    requires SendersOk(s) && inc in s.supervisors && s.supervisors[inc].reader.Reading?
    requires id in s.supervisors[inc].pending && TakeLine(s, inc, Line(Some(id), payload)) == r
    ensures Shift(s, r, {s.supervisors[inc].pending[id]}, Some(WithReader(inc)))
    ensures CallsStep(s, r, {s.supervisors[inc].pending[id]}, Some(WithReader(inc)))
  {
    var c := s.supervisors[inc].pending[id];
    ReplyFindsItsCaller(s, inc, id);
    hide SendersOk;
    assert CallsStep(s, r, {c}, Some(WithReader(inc))) by { hide Shift, At; }
    hide CallsStep;
    assert forall d, p :: At(r, d, p) <==>
      (p == WithReader(inc) && d == c) || (At(s, d, p) && p != InMap(Ticket(inc, id)));
  }

  /** A message is sent to `c`: nothing was sent to it before, and its sender is used up. */
  lemma SendMail(s: Sys, c: CallId, m: Message, from: Place, r: Sys)
    requires SendersOk(s) && MailOk(s) && At(s, c, from) && from != Used && Answers(s, c, m)
    requires c in s.mail && r.mail == s.mail[c := s.mail[c] + [m]] && r.tickets == s.tickets
    requires r.calls.Keys == s.calls.Keys
    requires forall d :: d in r.calls && GotReply(r.calls[d]) ==> r.calls[d] == s.calls[d]
    requires forall inc :: inc in r.supervisors && r.supervisors[inc].reader.Holding? ==>
      inc in s.supervisors && s.supervisors[inc].reader == r.supervisors[inc].reader
    ensures MailOk(r)
    ensures s.mail[c] == []
  {
    assert !At(s, c, Used);
    hide SendersOk;
  }

  lemma DeliveryKeepsInv(s: Sys, inc: Incarnation, target: CallId, r: Sys)
    requires Inv(s) && inc in s.supervisors && TakeDelivery(s, inc, target) == Some(r)
    requires s.supervisors[inc].reader != Failing({})
    ensures Inv(r)
  {
    hide SendersOk, TicketsOk, MailOk, NobodyForgotten, Shift, CallsStep;
    ReaderKeepsTickets(s, r, inc, r.supervisors[inc]);
    DeliveryMail(s, inc, target, r);
    DeliveryMoves(s, inc, target, r);
    ShiftKeepsSenders(s, r, {target}, Some(Used));
  }

  lemma DeliveryMail(s: Sys, inc: Incarnation, target: CallId, r: Sys)
    requires SendersOk(s) && MailOk(s) && inc in s.supervisors && TakeDelivery(s, inc, target) == Some(r)
    requires s.supervisors[inc].reader != Failing({})
    ensures target in s.calls && target in s.mail && At(s, target, WithReader(inc)) && MailOk(r)
  {
    assert At(s, target, WithReader(inc));
    MailKeys(s);
    assert target in s.calls;
    var m := if s.supervisors[inc].reader.Holding? then s.supervisors[inc].reader.message else ReaderFailed;
    assert Answers(s, target, m);
    hide SendersOk, MailOk;
    SendMail(s, target, m, WithReader(inc), r);
  }

  lemma DeliveryMoves(s: Sys, inc: Incarnation, target: CallId, r: Sys)
    requires SendersOk(s) && inc in s.supervisors && TakeDelivery(s, inc, target) == Some(r)
    requires s.supervisors[inc].reader != Failing({}) && target in s.mail && At(s, target, WithReader(inc))
    ensures Shift(s, r, {target}, Some(Used)) && CallsStep(s, r, {target}, Some(Used))
  {
    assert forall p :: At(s, target, p) <==> p == WithReader(inc);
    assert target in s.calls && IsRegistered(s.calls[target]) && target in s.tickets;
    hide SendersOk;
    assert CallsStep(s, r, {target}, Some(Used)) by { hide Shift, At; }
    hide CallsStep;
    assert r.mail[target] != [];
    assert forall d, p :: At(r, d, p) <==>
      (d == target && p == Used) || (At(s, d, p) && !(d == target && p == WithReader(inc)));
  }

  lemma KillerSendKeepsInv(s: Sys, k: CallId, choice: Choice, r: Sys)
    requires Inv(s) && k in s.calls && s.calls[k].Kill? && s.calls[k].stage.SendAll? && s.calls[k].stage.calls != {}
    requires TakeKill(s, k, choice) == Some(r)
    ensures Inv(r)
  {
    hide SendersOk, TicketsOk, MailOk, NobodyForgotten, Shift, CallsStep;
    KillerSendTickets(s, k, choice, r);
    KillerSendMail(s, k, choice, r);
    KillerSendMoves(s, k, choice, r);
    ShiftKeepsSenders(s, r, {choice.target}, Some(Used));
  }

  lemma KillerSendTickets(s: Sys, k: CallId, choice: Choice, r: Sys)
    requires TicketsOk(s) && k in s.calls && s.calls[k].Kill? && s.calls[k].stage.SendAll?
    requires s.calls[k].stage.calls != {}
    requires TakeKill(s, k, choice) == Some(r)
    ensures TicketsOk(r)
  {
    assert TicketsStep(s, r) by { hide TicketsOk; }
    hide TicketsOk, TicketsStep;
    TicketsKept(s, r);
  }

  lemma KillerSendMail(s: Sys, k: CallId, choice: Choice, r: Sys)
    requires SendersOk(s) && MailOk(s)
    requires k in s.calls && s.calls[k].Kill? && s.calls[k].stage.SendAll? && s.calls[k].stage.calls != {}
    requires TakeKill(s, k, choice) == Some(r)
    ensures choice.target in s.mail && At(s, choice.target, WithKiller(k)) && MailOk(r)
  {
    assert At(s, choice.target, WithKiller(k));
    MailKeys(s);
    assert choice.target in s.calls;
    hide SendersOk, MailOk;
    SendMail(s, choice.target, SupervisorKilled, WithKiller(k), r);
  }

  lemma KillerSendMoves(s: Sys, k: CallId, choice: Choice, r: Sys)
    requires SendersOk(s) && choice.target in s.mail && At(s, choice.target, WithKiller(k))
    requires k in s.calls && s.calls[k].Kill? && s.calls[k].stage.SendAll? && s.calls[k].stage.calls != {}
    requires TakeKill(s, k, choice) == Some(r)
    ensures Shift(s, r, {choice.target}, Some(Used)) && CallsStep(s, r, {choice.target}, Some(Used))
  {
    var c := choice.target;
    assert forall p :: At(s, c, p) <==> p == WithKiller(k);
    assert c in s.calls && IsRegistered(s.calls[c]) && c in s.tickets;
    hide SendersOk;
    assert CallsStep(s, r, {c}, Some(Used)) by { hide Shift, At; }
    hide CallsStep;
    assert r.mail[c] != [];
    assert forall d, p :: At(r, d, p) <==>
      (d == c && p == Used) || (At(s, d, p) && !(d == c && p == WithKiller(k)));
  }

  lemma KillPc(stage: KillStage, h: Handles, ok: bool, inbox: seq<Message>)
    requires !stage.Drain? && !stage.SendAll?
    ensures PcStep(Kill(stage), KillStep(stage, h, ok).1, inbox)
  {
  }

  lemma KillIsQuiet(s: Sys, c: CallId, choice: Choice, r: Sys)
    requires c in s.calls && c in s.mail && s.calls[c].Kill? && !s.calls[c].stage.Drain?
    requires s.calls[c].stage.SendAll? ==> s.calls[c].stage.calls == {}
    requires TakeKill(s, c, choice) == Some(r)
    ensures Quiet(s, r, c)
  {
    hide SupervisorsQuiet, KillStep;
    if s.calls[c].stage.KillChild? {
      ChildKilled(s, c, choice, r);
    } else {
      SameSupervisors(s, r);
    }
    if !s.calls[c].stage.SendAll? {
      KillPc(s.calls[c].stage, s.handles, choice.ok, s.mail[c]);
    }
  }

  lemma ChildKilled(s: Sys, c: CallId, choice: Choice, r: Sys)
    requires c in s.calls && s.calls[c].Kill? && s.calls[c].stage.KillChild? && TakeKill(s, c, choice) == Some(r)
    ensures SupervisorsQuiet(s, r)
  {
  }

  // ----- All steps -----

  lemma CallerKeepsInv(s: Sys, c: CallId, choice: Choice, r: Sys)
    requires Inv(s) && Do(s, Caller(c, choice)) == Some(r)
    ensures Inv(r)
  {
    hide SendersOk, TicketsOk, NobodyForgotten, Quiet, TakeStart, TakeKill, TakeRequest;
    MailKeys(s);
    hide MailOk;
    var pc := s.calls[c];
    if Waits(pc) {
      RequestIsQuiet(s, c, choice, r);
      QuietKeepsInv(s, r, c);
    } else if pc.Register? {
      RegisterKeepsInv(s, c, choice, r);
    } else if pc.RemoveOwn? {
      RemoveKeepsInv(s, c, choice, r);
    } else if pc.Kill? && pc.stage.Drain? {
      DrainKeepsInv(s, c, choice, r);
    } else if pc.Kill? && pc.stage.SendAll? && pc.stage.calls != {} {
      KillerSendKeepsInv(s, c, choice, r);
    } else if pc.Kill? {
      KillIsQuiet(s, c, choice, r);
      QuietKeepsInv(s, r, c);
    } else if pc.TakeTicket? {
      TicketKeepsInv(s, c, choice, r);
    } else {
      StartIsQuiet(s, c, choice, r);
      QuietKeepsInv(s, r, c);
    }
  }

  lemma InvKept(s: Sys, a: Action, r: Sys)
    requires Inv(s) && Do(s, a) == Some(r)
    ensures Inv(r)
  {
    hide Inv, NewCall, TakeStart, TakeKill, TakeRequest;
    match a
    case Request(c) => NewCallKeepsInv(s, c, WantState(false), r);
    case ProbeCall(c) => NewCallKeepsInv(s, c, WantState(true), r);
    case KillCall(c) => NewCallKeepsInv(s, c, Kill(TakeChild), r);
    case Caller(c, choice) => CallerKeepsInv(s, c, choice, r);
    case Read(inc, line) =>
      if line.EndOfStream? {
        EndOfStreamKeepsInv(s, inc, r);
      } else if line.id.Some? && line.id.value in s.supervisors[inc].pending {
        ReplyKeepsInv(s, inc, line.id.value, line.payload, r);
      }
    case Deliver(inc, target) =>
      if s.supervisors[inc].reader == Failing({}) {
        QuietKeepsInv(s, r, 0);
      } else {
        DeliveryKeepsInv(s, inc, target, r);
      }
    case Exit(inc) => QuietKeepsInv(s, r, 0);
  }

  // ----- Over runs -----

  ghost function Exec(s: Sys, acts: seq<Action>): Option<Sys>
    decreases |acts|
  {
    if acts == [] then Some(s)
    else if Do(s, acts[0]).None? then None
    else Exec(Do(s, acts[0]).value, acts[1..])
  }

  lemma {:induction false} InvOfRun(s: Sys, acts: seq<Action>, r: Sys)
    requires Inv(s) && Exec(s, acts) == Some(r)
    ensures Inv(r)
    decreases |acts|
  {
    hide Do, Inv;
    if acts != [] {
      InvKept(s, acts[0], Do(s, acts[0]).value);
      InvOfRun(Do(s, acts[0]).value, acts[1..], r);
    }
  }

  lemma Reached(acts: seq<Action>, r: Sys)
    requires Exec(INITIAL, acts) == Some(r)
    ensures Inv(r)
  {
    InvInitially();
    hide Do, Inv;
    InvOfRun(INITIAL, acts, r);
  }

  /**
   * In every run, a call is sent at most one message; the one it returns is that message; and a reply it
   * gets comes from the supervisor it asked, under the request id it alone was given there.
   */
  lemma RepliesAreRouted(acts: seq<Action>, r: Sys, c: CallId)
    requires Exec(INITIAL, acts) == Some(r) && c in r.calls
    ensures c in r.mail && |r.mail[c]| <= 1
    ensures GotReply(r.calls[c]) ==> r.mail[c] == [r.calls[c].outcome.message]
    ensures r.mail[c] != [] && r.mail[c][0].Reply? ==>
      c in r.tickets && r.tickets[c] == r.mail[c][0].ticket
      && forall d :: d in r.tickets && r.tickets[d] == r.tickets[c] ==> d == c
  {
    hide Do;
    Reached(acts, r);
    hide SendersOk, NobodyForgotten;
    assert r.mail[c] != [] ==> Answers(r, c, r.mail[c][0]);
  }

  /** In every run, a waiting call is in its supervisor's map, in some thread's hand, or has its message. */
  lemma WaitersAreNotForgotten(acts: seq<Action>, r: Sys, c: CallId)
    requires Exec(INITIAL, acts) == Some(r) && c in r.calls && r.calls[c].Waiting?
    ensures IsSomewhere(r, c)
    ensures forall p, q :: At(r, c, p) && At(r, c, q) ==> p == q
  {
    InvInitially();
    hide Do, At;
    InvOfRun(INITIAL, acts, r);
  }

  /** In every run, a kill takes every waiter that is in the map it drains, and leaves the map empty. */
  lemma KillTakesEveryWaiter(acts: seq<Action>, s: Sys, k: CallId, choice: Choice, r: Sys, c: CallId, t: Ticket)
    requires Exec(INITIAL, acts) == Some(s) && k in s.calls && s.calls[k] == Kill(Drain(t.inc))
    requires Do(s, Caller(k, choice)) == Some(r)
    requires At(s, c, InMap(t))
    ensures At(r, c, WithKiller(k)) && forall d, id :: !At(r, d, InMap(Ticket(t.inc, id)))
  {
    Reached(acts, s);
    DrainedAreInMap(s, t.inc);
    hide Inv;
  }

  /** The end of the supervisor's output does the same. */
  lemma EndTakesEveryWaiter(acts: seq<Action>, s: Sys, inc: Incarnation, r: Sys, c: CallId, id: RequestId)
    requires Exec(INITIAL, acts) == Some(s) && Do(s, Read(inc, EndOfStream)) == Some(r)
    requires At(s, c, InMap(Ticket(inc, id)))
    ensures At(r, c, WithReader(inc)) && r.supervisors[inc].reader.Failing?
    ensures forall d, i :: !At(r, d, InMap(Ticket(inc, i)))
  {
    Reached(acts, s);
    DrainedAreInMap(s, inc);
    hide Inv;
  }

  lemma StartSendsNothing(s: Sys, c: CallId, choice: Choice, r: Sys)
    requires c in s.calls && TakeStart(s, c, choice) == Some(r)
    ensures r.mail == s.mail && c in r.calls && r.calls == s.calls[c := r.calls[c]]
    ensures forall inc :: inc in s.supervisors ==>
      inc in r.supervisors && r.supervisors[inc].reader == s.supervisors[inc].reader
  {
    hide StartStep;
  }

  lemma RequestSendsNothing(s: Sys, c: CallId, choice: Choice, r: Sys)
    requires c in s.calls && TakeRequest(s, c, choice) == Some(r)
    ensures r.mail == s.mail && c in r.calls && r.calls == s.calls[c := r.calls[c]]
    ensures forall inc :: inc in s.supervisors ==>
      inc in r.supervisors && r.supervisors[inc].reader == s.supervisors[inc].reader
  {
  }

  /** Messages are only added. */
  lemma MailOnlyGrows(s: Sys, a: Action, r: Sys, c: CallId)
    requires Do(s, a) == Some(r) && c in s.mail && c in s.calls
    ensures c in r.mail && s.mail[c] <= r.mail[c]
  {
    hide TakeRequest, TakeStart, KillStep;
    if a.Caller? && HasTicket(s.calls[a.c]) {
      RequestSendsNothing(s, a.c, a.choice, r);
    } else if a.Caller? && !s.calls[a.c].Kill? {
      StartSendsNothing(s, a.c, a.choice, r);
    }
  }

  /** Messages are never taken back. */
  lemma MailStays(s: Sys, a: Action, r: Sys, c: CallId)
    requires Inv(s) && Do(s, a) == Some(r) && c in s.mail && s.mail[c] != []
    ensures c in r.mail && r.mail[c] == s.mail[c]
  {
    hide Do, SendersOk, TicketsOk, NobodyForgotten;
    InvKept(s, a, r);
    MailKeys(s);
    MailOnlyGrows(s, a, r, c);
    assert |r.mail[c]| <= 1 && |s.mail[c]| <= 1;
  }

  /** A waiter in a killer's hand stays there until it is told. */
  lemma KillerTells(s: Sys, a: Action, r: Sys, k: CallId, c: CallId)
    requires Inv(s) && Do(s, a) == Some(r) && At(s, c, WithKiller(k))
    ensures At(r, c, WithKiller(k)) || (c in r.mail && r.mail[c] == [SupervisorKilled])
  {
    assert !At(s, c, Used) && c in s.calls;
    MailKeys(s);
    hide Inv, TakeRequest, TakeStart, TakeKill, TakeDelivery, TakeLine;
    if a.Caller? && HasTicket(s.calls[a.c]) {
      RequestSendsNothing(s, a.c, a.choice, r);
    } else if a.Caller? && !s.calls[a.c].Kill? {
      StartSendsNothing(s, a.c, a.choice, r);
    } else if a.Caller? {
      KillStepTells(s, a.c, a.choice, r, k, c);
    } else if a.Read? || a.Deliver? {
      ReaderKeepsCalls(s, a, r);
    }
  }

  lemma KillStepTells(s: Sys, d: CallId, choice: Choice, r: Sys, k: CallId, c: CallId)
    requires d in s.calls && s.calls[d].Kill? && TakeKill(s, d, choice) == Some(r)
    requires k in s.calls && KillerHas(s.calls[k], c) && c in s.mail && s.mail[c] == []
    ensures k in r.calls
    ensures KillerHas(r.calls[k], c) || (c in r.mail && r.mail[c] == [SupervisorKilled])
  {
    hide KillStep;
  }

  lemma ReaderKeepsCalls(s: Sys, a: Action, r: Sys)
    requires (a.Read? || a.Deliver?) && Do(s, a) == Some(r)
    ensures r.calls == s.calls
  {
  }

  /** A waiter in the hand of a reader that has met the end of the output stays there until it is told. */
  lemma ReaderTells(s: Sys, a: Action, r: Sys, inc: Incarnation, c: CallId)
    requires Inv(s) && Do(s, a) == Some(r)
    requires inc in s.supervisors && s.supervisors[inc].reader.Failing? && c in s.supervisors[inc].reader.calls
    ensures inc in r.supervisors
    ensures (r.supervisors[inc].reader.Failing? && c in r.supervisors[inc].reader.calls)
      || (c in r.mail && r.mail[c] == [ReaderFailed])
  {
    assert At(s, c, WithReader(inc));
    assert !At(s, c, Used) && c in s.calls;
    MailKeys(s);
    hide Inv, TakeRequest, TakeStart, TakeKill, At, TakeDelivery, TakeLine;
    if a.Caller? && HasTicket(s.calls[a.c]) {
      RequestSendsNothing(s, a.c, a.choice, r);
    } else if a.Caller? && !s.calls[a.c].Kill? {
      StartSendsNothing(s, a.c, a.choice, r);
    } else if a.Caller? {
      KillKeepsReaders(s, a.c, a.choice, r);
    } else if a.Read? || a.Deliver? {
      ReaderStepTells(s, a, r, inc, c);
    }
  }

  lemma ReaderStepTells(s: Sys, a: Action, r: Sys, inc: Incarnation, c: CallId)
    requires (a.Read? || a.Deliver?) && Do(s, a) == Some(r)
    requires inc in s.supervisors && s.supervisors[inc].reader.Failing? && c in s.supervisors[inc].reader.calls
    requires c in s.mail && s.mail[c] == []
    ensures inc in r.supervisors
    ensures (r.supervisors[inc].reader.Failing? && c in r.supervisors[inc].reader.calls)
      || (c in r.mail && r.mail[c] == [ReaderFailed])
  {
  }

  lemma KillKeepsReaders(s: Sys, c: CallId, choice: Choice, r: Sys)
    requires c in s.calls && s.calls[c].Kill? && TakeKill(s, c, choice) == Some(r)
    ensures forall inc :: inc in s.supervisors ==>
      inc in r.supervisors && r.supervisors[inc].reader == s.supervisors[inc].reader
  {
    hide KillStep;
  }

  /**
   * Over every run: whoever was in the map when a kill drained it has been sent the kill's error, unless
   * the killer is still about to send it.
   */
  lemma {:induction false} DrainedByKillIsTold(s: Sys, acts: seq<Action>, r: Sys, k: CallId, c: CallId)
    requires Inv(s) && Exec(s, acts) == Some(r)
    requires At(s, c, WithKiller(k)) || (c in s.mail && s.mail[c] == [SupervisorKilled])
    ensures At(r, c, WithKiller(k)) || (c in r.mail && r.mail[c] == [SupervisorKilled])
    decreases |acts|
  {
    hide Do, Inv, At;
    if acts != [] {
      var n := Do(s, acts[0]).value;
      InvKept(s, acts[0], n);
      if At(s, c, WithKiller(k)) {
        KillerTells(s, acts[0], n, k, c);
      } else {
        MailStays(s, acts[0], n, c);
      }
      DrainedByKillIsTold(n, acts[1..], r, k, c);
    }
  }

  /** The reader will still send its error to `c`, or has sent it. */
  ghost predicate ToldByReader(s: Sys, inc: Incarnation, c: CallId) {
    || (inc in s.supervisors && s.supervisors[inc].reader.Failing? && c in s.supervisors[inc].reader.calls)
    || (c in s.mail && s.mail[c] == [ReaderFailed])
  }

  /** The same for the end of the supervisor's output; a reader that has ended has told everyone. */
  lemma {:induction false} DrainedByReaderIsTold(s: Sys, acts: seq<Action>, r: Sys, inc: Incarnation, c: CallId)
    requires Inv(s) && Exec(s, acts) == Some(r) && ToldByReader(s, inc, c)
    ensures ToldByReader(r, inc, c)
    ensures inc in r.supervisors && r.supervisors[inc].reader.Ended? ==> c in r.mail && r.mail[c] == [ReaderFailed]
    decreases |acts|
  {
    hide Do, Inv;
    if acts != [] {
      var n := Do(s, acts[0]).value;
      InvKept(s, acts[0], n);
      if inc in s.supervisors && s.supervisors[inc].reader.Failing? && c in s.supervisors[inc].reader.calls {
        ReaderTells(s, acts[0], n, inc, c);
      } else {
        MailStays(s, acts[0], n, c);
      }
      DrainedByReaderIsTold(n, acts[1..], r, inc, c);
    }
  }
}
