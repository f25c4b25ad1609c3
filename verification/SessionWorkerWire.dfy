/**
 * The parent's side of the debug session protocol, and both sides joined by their pipes.
 *
 * All frames can be decoded; the worker may be killed, or its process may end, at any time.
 */
module SessionWorkerWire {
  import opened Wrappers
  import opened SessionWorkerLoop

  datatype RequestError =
    | AlreadyExited
    | WriteFailed
    | ExitedBeforeResponse
    | UnexpectedId(got: RequestId)
    | Undecodable
    | Reported(failure: Failure)

  // ----- Reading one response -----

  datatype Output = Decoded(frame: Frame) | Garbage

  /** What one line of the worker's output means to a request: go on with these events, or return. */
  datatype Reading = Continue(events: seq<Event>) | Return(result: Result<Success, RequestError>)

  function ReadFrame(id: RequestId, events: seq<Event>, line: Output): Reading {
    if line.Garbage? then Return(Err(Undecodable))
    else match line.frame
      case Log => Continue(events)
      case StateChanged(event) => Continue(events + [event])
      case Response(got, result) =>
        if got != id then Return(Err(UnexpectedId(got)))
        else if result.Err? then Return(Err(Reported(result.error)))
        else Return(Ok(result.value))
  }

  /** A request's result, the events it applies, and how many lines it reads, if these lines are all there are. */
  datatype Outcome = Outcome(result: Result<Success, RequestError>, events: seq<Event>, read: nat)

  function ReadResponse(id: RequestId, events: seq<Event>, lines: seq<Output>): Outcome
    decreases |lines|
  {
    if lines == [] then Outcome(Err(ExitedBeforeResponse), events, 0)
    else match ReadFrame(id, events, lines[0])
      case Return(result) => Outcome(result, events, 1)
      case Continue(more) =>
        var rest := ReadResponse(id, more, lines[1..]);
        rest.(read := rest.read + 1)
  }

  /** The loop of `request_with_event_sink`, over the lines the worker writes until its output ends. */
  method AwaitResponse(id: RequestId, lines: seq<Output>) returns (result: Result<Success, RequestError>,
      applied: seq<Event>, read: nat)
    ensures Outcome(result, applied, read) == ReadResponse(id, [], lines)
  {
    applied := [];
    read := 0;
    while read < |lines|
      invariant 0 <= read <= |lines|
      invariant ReadResponse(id, [], lines) ==
        var rest := ReadResponse(id, applied, lines[read..]); rest.(read := rest.read + read)
    {
      var line := lines[read];
      assert lines[read..][0] == line && lines[read..][1..] == lines[read + 1..];
      read := read + 1;
      if line.Garbage? {
        return Err(Undecodable), applied, read;
      }
      match line.frame
      case Log =>
      case StateChanged(event) =>
        applied := applied + [event];
      case Response(got, answer) =>
        if got != id {
          return Err(UnexpectedId(got)), applied, read;
        }
        if answer.Err? {
          return Err(Reported(answer.error)), applied, read;
        }
        return Ok(answer.value), applied, read;
    }
    result := Err(ExitedBeforeResponse);
  }

  /** A line that a waiting request passes over, with the event it may bring. */
  predicate IsPassed(line: Output) {
    line.Decoded? && !line.frame.Response?
  }

  function EventsIn(lines: seq<Output>): seq<Event> {
    if lines == [] then []
    else (match lines[0] case Decoded(StateChanged(event)) => [event] case _ => []) + EventsIn(lines[1..])
  }

  /** What a request makes of the first line it does not pass over. */
  predicate Returns(id: RequestId, line: Output, result: Result<Success, RequestError>) {
    match line
    case Garbage => result == Err(Undecodable)
    case Decoded(Response(got, Ok(value))) => result == if got == id then Ok(value) else Err(UnexpectedId(got))
    case Decoded(Response(got, Err(failure))) =>
      result == Err(if got == id then Reported(failure) else UnexpectedId(got))
    case Decoded(_) => false
  }

  lemma {:induction false} ReadsOn(id: RequestId, events: seq<Event>, lines: seq<Output>, k: nat)
    requires k <= |lines| && forall i :: 0 <= i < k ==> IsPassed(lines[i])
    requires k < |lines| ==> !IsPassed(lines[k])
    ensures var o := ReadResponse(id, events, lines);
      && o.events == events + EventsIn(lines[..k])
      && if k < |lines| then o.read == k + 1 && Returns(id, lines[k], o.result)
         else o.read == k && o.result == Err(ExitedBeforeResponse)
    decreases k
  {
    if k > 0 {
      var more := ReadFrame(id, events, lines[0]).events;
      assert lines[1..][..k - 1] == lines[..k][1..];
      ReadsOn(id, more, lines[1..], k - 1);
      assert more + EventsIn(lines[..k][1..]) == events + EventsIn(lines[..k]);
    }
  }

  /**
   * A request reads up to the first line that is garbage or a response, applies the events of all lines before it, and
   * returns what that line says; if there is none, it applies them all and says that the worker exited.
   */
  lemma ReadsUpToItsAnswer(id: RequestId, lines: seq<Output>, k: nat)
    requires k <= |lines| && forall i :: 0 <= i < k ==> IsPassed(lines[i])
    requires k < |lines| ==> !IsPassed(lines[k])
    ensures var o := ReadResponse(id, [], lines);
      && o.events == EventsIn(lines[..k])
      && if k < |lines| then o.read == k + 1 && Returns(id, lines[k], o.result)
         else o.read == k && o.result == Err(ExitedBeforeResponse)
  {
    ReadsOn(id, [], lines, k);
    assert [] + EventsIn(lines[..k]) == EventsIn(lines[..k]);
  }

  // ----- Parent, pipes and worker together -----

  /** One request of the parent holds the request lock from its look at the process to its return. */
  datatype Parent =
    | Idle
    | Writing(id: RequestId, request: Request)
    | Awaiting(id: RequestId, request: Request, events: seq<Event>)

  /** What a request returned, with the events it had applied by then; it may return before it takes an id. */
  datatype Returned = Returned(id: Option<RequestId>, result: Result<Success, RequestError>, events: seq<Event>)

  /**
   * `todo` holds the frames of the line the worker is serving that it has not written yet, and `leaving`
   * says whether it stops after them.  `completed` and `handled` are history variables: what the parent's
   * requests returned, and what the worker made of the requests it took.
   */
  datatype Sys = Sys(
    parent: Parent, nextId: RequestId, stdin: seq<Line>, pipe: seq<Frame>,
    worker: State, todo: seq<Frame>, leaving: bool, exited: bool,
    completed: seq<Returned>, handled: seq<Handling>)

  /** The worker's result for a request, and the events its backend reported meanwhile. */
  datatype Handling = Handling(id: RequestId, request: Request, result: Result<Success, Failure>, events: seq<Event>)

  const INITIAL: Sys := Sys(Idle, 0, [], [], FRESH, [], false, false, [], [])

  datatype Action =
    | Begin(request: Request)
    | Send
    | FailToWrite
    | TakeLine
    | WriteFrame
    | WriteLog
    | Leave
    | Killed
    | ReadLine
    | ReadEnd

  function Do(backend: Backend, s: Sys, a: Action): Option<Sys> {
    match a
    case Begin(request) =>
      if !s.parent.Idle? then None
      else if s.exited then Some(s.(completed := s.completed + [Returned(None, Err(AlreadyExited), [])]))
      else Some(s.(parent := Writing(s.nextId, request), nextId := s.nextId + 1))
    case Send =>
      if !s.parent.Writing? then None
      else Some(s.(parent := Awaiting(s.parent.id, s.parent.request, []),
                   stdin := s.stdin + [Input(s.parent.id, s.parent.request)]))
    case FailToWrite =>
      if !s.parent.Writing? || !s.exited then None
      else Some(s.(parent := Idle, completed := s.completed + [Returned(Some(s.parent.id), Err(WriteFailed), [])]))
    case TakeLine =>
      if s.exited || s.leaving || s.todo != [] || s.stdin == [] then None
      else
        var served := Serve(backend, s.worker, s.stdin[0]);
        Some(s.(stdin := s.stdin[1..], worker := served.state, todo := served.frames, leaving := served.exit,
                handled := s.handled + HandlingOf(backend, s.worker, s.stdin[0])))
    case WriteFrame =>
      if s.exited || s.todo == [] then None
      else Some(s.(pipe := s.pipe + [s.todo[0]], todo := s.todo[1..]))
    case WriteLog => if s.exited then None else Some(s.(pipe := s.pipe + [Log]))
    case Leave => if s.leaving && s.todo == [] then Some(s.(exited := true)) else None
    case Killed => Some(s.(exited := true))
    case ReadLine =>
      if !s.parent.Awaiting? || s.pipe == [] then None
      else
        var rest := s.(pipe := s.pipe[1..]);
        Some(match ReadFrame(s.parent.id, s.parent.events, Decoded(s.pipe[0]))
          case Continue(events) => rest.(parent := s.parent.(events := events))
          case Return(result) => Complete(rest, result))
    case ReadEnd =>
      if !s.parent.Awaiting? || s.pipe != [] || !s.exited then None
      else Some(Complete(s, Err(ExitedBeforeResponse)))
  }

  function Complete(s: Sys, result: Result<Success, RequestError>): Sys
    requires s.parent.Awaiting?
  {
    s.(parent := Idle, completed := s.completed + [Returned(Some(s.parent.id), result, s.parent.events)])
  }

  function HandlingOf(backend: Backend, w: State, line: Line): seq<Handling> {
    if line.Input? then
      var h := Handle(backend, w, line.request);
      [Handling(line.id, line.request, h.result, EventsOf(h.side))]
    else []
  }

  // ----- The invariant -----

  predicate NoResponse(frames: seq<Frame>) {
    forall i :: 0 <= i < |frames| ==> !frames[i].Response?
  }

  predicate OnlyLogs(frames: seq<Frame>) {
    forall i :: 0 <= i < |frames| ==> frames[i].Log?
  }

  /** The frames are the rest of one answer: `k` frames that are no response, the response, then logs. */
  ghost predicate AnswerAt(frames: seq<Frame>, k: nat, h: Handling, applied: seq<Event>) {
    && k < |frames| && frames[k] == Response(h.id, h.result)
    && NoResponse(frames[..k]) && OnlyLogs(frames[k + 1..])
    && applied + EventsOf(frames[..k]) == h.events
  }

  /** The frames between the worker and the parent answer the request the parent awaits. */
  ghost predicate AnswerInFlight(s: Sys, h: Handling)
    requires s.parent.Awaiting?
  {
    && h.id == s.parent.id && h.request == s.parent.request
    && (s.todo != [] ==> s.todo[|s.todo| - 1].Response?)
    && exists k :: AnswerAt(s.pipe + s.todo, k, h, s.parent.events)
  }

  /** The request returned what the worker made of it, with all its events applied. */
  predicate ReturnsHandling(r: Returned, h: Handling) {
    && r.id == Some(h.id) && r.events == h.events
    && r.result == if h.result.Ok? then Ok(h.result.value) else Err(Reported(h.result.error))
  }

  predicate LostWorker(r: Returned) {
    r.result == Err(ExitedBeforeResponse) || r.result == Err(WriteFailed) || r.result == Err(AlreadyExited)
  }

  /** The first `m` requests returned what the worker made of them; the others lost the worker. */
  ghost predicate KeptUntil(s: Sys, m: nat) {
    && m <= |s.completed| && m <= |s.handled|
    && (forall i :: 0 <= i < m ==> ReturnsHandling(s.completed[i], s.handled[i]))
    && (forall i :: m <= i < |s.completed| ==> LostWorker(s.completed[i]))
  }

  /** How many requests have taken an id and returned. */
  function Sent(s: Sys): int {
    s.nextId - if s.parent.Idle? then 0 else 1
  }

  predicate IsNumbered(r: Returned, i: nat, sent: int) {
    if i < sent then r.id == Some(i) && r.result != Err(AlreadyExited)
    else r.id == None && r.result == Err(AlreadyExited)
  }

  /** Request ids count the requests; only after the process has ended do requests return without one. */
  predicate Numbered(s: Sys) {
    && 0 <= Sent(s) <= |s.completed|
    && (forall i :: 0 <= i < |s.completed| ==> IsNumbered(s.completed[i], i, Sent(s)))
    && (Sent(s) < |s.completed| ==> s.exited && s.parent.Idle?)
    && (!s.parent.Idle? ==> s.parent.id == |s.completed|)
  }

  /** Parent and worker keep step: every request taken so far has returned, except the one awaited. */
  ghost predicate InStep(s: Sys) {
    && KeptUntil(s, |s.completed|)
    && match s.parent
      case Idle => s.stdin == [] && s.todo == [] && OnlyLogs(s.pipe) && |s.handled| == |s.completed|
      case Writing(_, _) => s.stdin == [] && s.todo == [] && OnlyLogs(s.pipe) && |s.handled| == |s.completed|
      case Awaiting(id, request, events) =>
        || (|s.handled| == |s.completed| && s.stdin == [Input(id, request)] && s.todo == [] && OnlyLogs(s.pipe)
            && events == [])
        || (|s.handled| == |s.completed| + 1 && s.stdin == [] && AnswerInFlight(s, s.handled[|s.completed|]))
  }

  /** The worker has ended and nothing of it is left to read. */
  ghost predicate Gone(s: Sys) {
    s.exited && OnlyLogs(s.pipe) && exists m :: KeptUntil(s, m)
  }

  ghost predicate WorkerOk(backend: Backend, s: Sys) {
    IsBracketed(backend, s.worker.calls) && (!s.leaving ==> IsServing(backend, s.worker))
  }

  ghost predicate Inv(backend: Backend, s: Sys) {
    (InStep(s) || Gone(s)) && Numbered(s) && WorkerOk(backend, s)
  }

  lemma InvInitially(backend: Backend)
    ensures Inv(backend, INITIAL)
  {
  }

  lemma WorkerStep(backend: Backend, s: Sys, a: Action, r: Sys)
    requires WorkerOk(backend, s) && Do(backend, s, a) == Some(r)
    ensures WorkerOk(backend, r)
  {
    hide IsServing, IsBracketed, Serve, HandlingOf;
    if a.TakeLine? {
      ServeKeepsBrackets(backend, s.worker, s.stdin[0]);
    }
  }

  lemma NumberedStep(backend: Backend, s: Sys, a: Action, r: Sys)
    requires Numbered(s) && Do(backend, s, a) == Some(r)
    ensures Numbered(r)
  {
    hide Serve, HandlingOf;
  }

  lemma GoneStays(backend: Backend, s: Sys, a: Action, r: Sys)
    requires Gone(s) && Do(backend, s, a) == Some(r)
    ensures Gone(r)
  {
    hide Serve, HandlingOf, EventsOf;
    var m :| KeptUntil(s, m);
    assert KeptUntil(r, m);
  }

  lemma {:induction false} LogsHaveNoEvents(frames: seq<Frame>)
    requires OnlyLogs(frames)
    ensures EventsOf(frames) == []
  {
    if frames != [] {
      LogsHaveNoEvents(frames[1..]);
    }
  }

  /** Serving the awaited request puts its answer in flight. */
  lemma TakeKeepsStep(backend: Backend, s: Sys, r: Sys)
    requires InStep(s) && Do(backend, s, TakeLine) == Some(r)
    ensures InStep(r)
  {
    var line := s.stdin[0];
    var h := Handle(backend, s.worker, line.request);
    var handling := HandlingOf(backend, s.worker, line)[0];
    var frames := s.pipe + (h.side + [Response(line.id, h.result)]);
    hide Handle, KeptUntil;
    var k := |s.pipe| + |h.side|;
    assert frames[..k] == s.pipe + h.side;
    assert frames[k + 1..] == [];
    SideIsNoResponse(backend, s.worker, line.request);
    assert EventsOf(frames[..k]) == handling.events by {
      EventsAppend(s.pipe, h.side);
      LogsHaveNoEvents(s.pipe);
    }
    hide EventsOf;
    assert [] + handling.events == handling.events;
    assert AnswerAt(r.pipe + r.todo, k, handling, []);
    hide AnswerAt;
    assert KeptUntil(r, |r.completed|) by { TakingKeepsHistory(s, r); }
  }

  lemma SideIsNoResponse(backend: Backend, w: State, request: Request)
    ensures NoResponse(Handle(backend, w, request).side)
  {
  }

  lemma TakingKeepsHistory(s: Sys, r: Sys)
    requires KeptUntil(s, |s.completed|) && r.completed == s.completed && s.handled <= r.handled
    ensures KeptUntil(r, |r.completed|)
  {
  }

  /** A stray log line moves the answer behind it one place back. */
  lemma LogKeepsAnswer(pipe: seq<Frame>, todo: seq<Frame>, k: nat, h: Handling, applied: seq<Event>)
    requires AnswerAt(pipe + todo, k, h, applied)
    ensures AnswerAt((pipe + [Log]) + todo, if k < |pipe| then k else k + 1, h, applied)
  {
    var before, after := pipe + todo, (pipe + [Log]) + todo;
    if k < |pipe| {
      assert after[..k] == before[..k];
      var tail := after[k + 1..];
      forall i | 0 <= i < |tail|
        ensures tail[i].Log?
      {
        if i < |pipe| - k - 1 {
          assert tail[i] == before[k + 1..][i];
        } else if i > |pipe| - k - 1 {
          assert tail[i] == before[k + 1..][i - 1];
        }
      }
    } else {
      assert before[..k] == pipe + before[|pipe|..k];
      assert after[..k + 1] == pipe + ([Log] + before[|pipe|..k]);
      EventsAppend(pipe, before[|pipe|..k]);
      EventsAppend(pipe, [Log] + before[|pipe|..k]);
      EventsAppend([Log], before[|pipe|..k]);
      assert after[k + 2..] == before[k + 1..];
    }
  }

  lemma WriteKeepsStep(backend: Backend, s: Sys, a: Action, r: Sys)
    requires InStep(s) && (a.WriteFrame? || a.WriteLog?) && Do(backend, s, a) == Some(r)
    ensures InStep(r)
  {
    hide KeptUntil, AnswerAt;
    assert KeptUntil(r, |r.completed|) by { TakingKeepsHistory(s, r); }
    if s.parent.Awaiting? && |s.handled| == |s.completed| + 1 {
      var h := s.handled[|s.completed|];
      var k: nat :| AnswerAt(s.pipe + s.todo, k, h, s.parent.events);
      if a.WriteFrame? {
        assert r.pipe + r.todo == s.pipe + s.todo;
      } else {
        LogKeepsAnswer(s.pipe, s.todo, k, h, s.parent.events);
      }
    }
  }

  lemma ResponseIsNoLog(pipe: seq<Frame>, todo: seq<Frame>)
    requires pipe != [] && todo != [] && todo[|todo| - 1].Response?
    ensures !OnlyLogs((pipe + todo)[1..])
  {
    assert (pipe + todo)[1..][|pipe + todo| - 2].Response?;
  }

  /** Reading a frame brings the answer one place nearer, or returns it. */
  lemma ReadKeepsStep(backend: Backend, s: Sys, r: Sys)
    requires InStep(s) && Do(backend, s, ReadLine) == Some(r)
    ensures InStep(r)
  {
    if |s.handled| == |s.completed| + 1 {
      var k: nat :| AnswerAt(s.pipe + s.todo, k, s.handled[|s.completed|], s.parent.events);
      if k == 0 {
        ReadsAnswer(backend, s, r);
      } else {
        ReadsOther(backend, s, r, k);
      }
    }
  }

  lemma ReadsAnswer(backend: Backend, s: Sys, r: Sys)
    requires InStep(s) && Do(backend, s, ReadLine) == Some(r) && |s.handled| == |s.completed| + 1
    requires AnswerAt(s.pipe + s.todo, 0, s.handled[|s.completed|], s.parent.events)
    ensures InStep(r)
  {
    var h, frames := s.handled[|s.completed|], s.pipe + s.todo;
    assert frames[..0] == [];
    if s.todo != [] { ResponseIsNoLog(s.pipe, s.todo); }
    assert frames[1..] == s.pipe[1..];
    assert s.pipe[0] == Response(h.id, h.result);
    assert ReturnsHandling(r.completed[|s.completed|], h);
    hide AnswerAt, ReadFrame, EventsOf, ReturnsHandling;
  }

  lemma ReadsOther(backend: Backend, s: Sys, r: Sys, k: nat)
    requires InStep(s) && Do(backend, s, ReadLine) == Some(r) && |s.handled| == |s.completed| + 1
    requires k > 0 && AnswerAt(s.pipe + s.todo, k, s.handled[|s.completed|], s.parent.events)
    ensures InStep(r)
  {
    var h, frames := s.handled[|s.completed|], s.pipe + s.todo;
    AnswerNearer(frames, k, h, s.parent.events);
    assert frames[..k][0] == frames[0] == s.pipe[0];
    assert r.pipe + r.todo == frames[1..];
    hide KeptUntil, EventsOf, NoResponse, OnlyLogs;
    assert AnswerAt(r.pipe + r.todo, k - 1, h, r.parent.events);
    hide AnswerAt;
    assert KeptUntil(r, |r.completed|) by { TakingKeepsHistory(s, r); }
  }

  lemma AnswerNearer(frames: seq<Frame>, k: nat, h: Handling, applied: seq<Event>)
    requires k > 0 && AnswerAt(frames, k, h, applied)
    ensures AnswerAt(frames[1..], k - 1, h, if frames[0].StateChanged? then applied + [frames[0].event] else applied)
  {
    assert frames[1..][..k - 1] == frames[..k][1..];
    assert frames[1..][k..] == frames[k + 1..];
    assert frames[..k][0] == frames[0];
    if frames[0].StateChanged? {
      assert applied + ([frames[0].event] + EventsOf(frames[..k][1..]))
          == applied + [frames[0].event] + EventsOf(frames[..k][1..]);
    }
  }

  lemma ParentKeepsStep(backend: Backend, s: Sys, a: Action, r: Sys)
    requires InStep(s) && (a.Begin? || a.Send? || a.FailToWrite? || a.Leave? || a.Killed? || a.ReadEnd?)
    requires Do(backend, s, a) == Some(r)
    ensures InStep(r) || Gone(r)
  {
    if r.completed != s.completed {
      assert KeptUntil(r, |s.completed|);
    }
  }

  lemma InvKept(backend: Backend, s: Sys, a: Action, r: Sys)
    requires Inv(backend, s) && Do(backend, s, a) == Some(r)
    ensures Inv(backend, r)
  {
    hide Do, InStep, Gone, Numbered, WorkerOk;
    WorkerStep(backend, s, a, r);
    NumberedStep(backend, s, a, r);
    if Gone(s) {
      GoneStays(backend, s, a, r);
    } else if a.TakeLine? {
      TakeKeepsStep(backend, s, r);
    } else if a.WriteFrame? || a.WriteLog? {
      WriteKeepsStep(backend, s, a, r);
    } else if a.ReadLine? {
      ReadKeepsStep(backend, s, r);
    } else {
      ParentKeepsStep(backend, s, a, r);
    }
  }

  // ----- Over runs -----

  function Exec(backend: Backend, s: Sys, acts: seq<Action>): Option<Sys>
    decreases |acts|
  {
    if acts == [] then Some(s)
    else if Do(backend, s, acts[0]).None? then None
    else Exec(backend, Do(backend, s, acts[0]).value, acts[1..])
  }

  lemma {:induction false} InvOfRun(backend: Backend, s: Sys, acts: seq<Action>, r: Sys)
    requires Inv(backend, s) && Exec(backend, s, acts) == Some(r)
    ensures Inv(backend, r)
    decreases |acts|
  {
    hide Do, Inv;
    if acts != [] {
      InvKept(backend, s, acts[0], Do(backend, s, acts[0]).value);
      InvOfRun(backend, Do(backend, s, acts[0]).value, acts[1..], r);
    }
  }

  /**
   * In every run: the first requests return, in order, exactly what the worker made of them, each with
   * all its state changes applied before it returned; once the worker is lost, every request says so, and
   * once one has seen the process gone, no later one takes an id.  In particular the branch for an
   * unexpected response id is never taken.
   */
  lemma RequestsReturnTheirHandling(backend: Backend, acts: seq<Action>, r: Sys)
    requires Exec(backend, INITIAL, acts) == Some(r)
    ensures exists m :: KeptUntil(r, m)
    ensures forall i :: 0 <= i < |r.completed| ==> IsNumbered(r.completed[i], i, Sent(r))
    ensures forall i :: 0 <= i < |r.completed| && r.completed[i].result.Err? ==>
      !r.completed[i].result.error.UnexpectedId? && !r.completed[i].result.error.Undecodable?
    ensures !r.exited ==> KeptUntil(r, |r.completed|) && Sent(r) == |r.completed|
  {
    InvInitially(backend);
    hide Do;
    InvOfRun(backend, INITIAL, acts, r);
    assert InStep(r) ==> KeptUntil(r, |r.completed|);
  }

  /** In every run, the backend is asked to execute only in the session its one create made, before its close. */
  lemma BackendSeesOneSessionOnTheWire(backend: Backend, acts: seq<Action>, r: Sys)
    requires Exec(backend, INITIAL, acts) == Some(r)
    ensures IsBracketed(backend, r.worker.calls)
  {
    InvInitially(backend);
    hide Do;
    InvOfRun(backend, INITIAL, acts, r);
  }
}
