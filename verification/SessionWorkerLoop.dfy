/** The worker's side of the debug session protocol: one response line for each request line. */
module SessionWorkerLoop {
  import opened Wrappers

  type BackendId = nat
  type RequestId = nat
  type Command = nat
  type Event = nat

  datatype Request = CreateSession | Execute(command: Command) | CloseSession

  /** A line of the worker's standard input. */
  datatype Line = Blank | Malformed | Input(id: RequestId, request: Request)

  datatype Failure = InvalidRequest | AlreadyExists | NotInitialized | BackendFailed

  datatype Success = SessionCreated(id: BackendId) | Executed | SessionClosed

  /** A line of the worker's standard output. */
  datatype Frame = Log | StateChanged(event: Event) | Response(id: RequestId, result: Result<Success, Failure>)

  datatype BackendCall =
    | BackendCreate
    | BackendExecute(session: BackendId, command: Command)
    | BackendClose(session: BackendId)

  /**
   * What a backend call does: the log lines and state changes it reports while it runs, and how it ends.
   * Only `execute` is given a sink for state changes.
   */
  datatype Answer = Answer(side: seq<Side>, ok: bool, created: BackendId)

  datatype Side = SideLog | SideEvent(event: Event)

  /** Any backend: its answer may depend on everything it has been asked before. */
  type Backend = seq<BackendCall> -> Answer

  function FrameOf(side: Side, events: bool): Frame {
    if side.SideEvent? && events then StateChanged(side.event) else Log
  }

  /** The frames written during a call; a call without a sink reports no state changes. */
  function SideFrames(side: seq<Side>, events: bool): (frames: seq<Frame>)
    ensures forall i :: 0 <= i < |frames| ==> !frames[i].Response?
  {
    if side == [] then []
    else if side[0].SideEvent? && !events then SideFrames(side[1..], events)
    else [FrameOf(side[0], events)] + SideFrames(side[1..], events)
  }

  function EventsOf(frames: seq<Frame>): seq<Event> {
    if frames == [] then []
    else if frames[0].StateChanged? then [frames[0].event] + EventsOf(frames[1..])
    else EventsOf(frames[1..])
  }

  lemma {:induction false} EventsAppend(a: seq<Frame>, b: seq<Frame>)
    ensures EventsOf(a + b) == EventsOf(a) + EventsOf(b)
    decreases |a|
  {
    if a == [] {
      assert a + b == b;
    } else {
      assert (a + b)[0] == a[0] && (a + b)[1..] == a[1..] + b;
      EventsAppend(a[1..], b);
    }
  }

  // ----- The runtime -----

  /** The runtime: the backend session it has created and not closed, and the calls it has made. */
  datatype State = State(session: Option<BackendId>, calls: seq<BackendCall>)

  const FRESH: State := State(None, [])

  datatype Handled = Handled(state: State, side: seq<Frame>, result: Result<Success, Failure>, exit: bool)

  function Handle(backend: Backend, s: State, request: Request): Handled {
    match request
    case CreateSession =>
      if s.session.Some? then Handled(s, [], Err(AlreadyExists), true)
      else
        var calls := s.calls + [BackendCreate];
        var a := backend(calls);
        if a.ok
        then Handled(State(Some(a.created), calls), SideFrames(a.side, false), Ok(SessionCreated(a.created)), false)
        else Handled(State(None, calls), SideFrames(a.side, false), Err(BackendFailed), true)
    case Execute(command) =>
      if s.session.None? then Handled(s, [], Err(NotInitialized), true)
      else
        var calls := s.calls + [BackendExecute(s.session.value, command)];
        var a := backend(calls);
        Handled(s.(calls := calls), SideFrames(a.side, true), if a.ok then Ok(Executed) else Err(BackendFailed), false)
    case CloseSession =>
      if s.session.None? then Handled(s, [], Ok(SessionClosed), true)
      else
        var calls := s.calls + [BackendClose(s.session.value)];
        var a := backend(calls);
        Handled(State(None, calls), SideFrames(a.side, false),
                if a.ok then Ok(SessionClosed) else Err(BackendFailed), true)
  }

  class WorkerRuntime {
    var backendSessionId: Option<BackendId>
    var calls: seq<BackendCall>

    function Abstract(): State
      reads this
    {
      State(backendSessionId, calls)
    }

    constructor ()
      ensures Abstract() == FRESH
    {
      backendSessionId := None;
      calls := [];
    }

    /** One call of the backend, as the calls so far have left it. */
    method Call(backend: Backend, call: BackendCall) returns (a: Answer)
      modifies `calls
      ensures calls == old(calls) + [call] && a == backend(calls)
    {
      calls := calls + [call];
      a := backend(calls);
    }

    method HandleRequest(backend: Backend, request: Request)
      returns (result: Result<Success, Failure>, shouldExit: bool, side: seq<Frame>)
      modifies this
      ensures Handled(Abstract(), side, result, shouldExit) == Handle(backend, old(Abstract()), request)
    {
      side := [];
      match request
      case CreateSession =>
        if backendSessionId.Some? {
          return Err(AlreadyExists), true, side;
        }
        var a := Call(backend, BackendCreate);
        side := SideFrames(a.side, false);
        if a.ok {
          backendSessionId := Some(a.created);
          return Ok(SessionCreated(a.created)), false, side;
        }
        return Err(BackendFailed), true, side;
      case Execute(command) =>
        if backendSessionId.None? {
          return Err(NotInitialized), true, side;
        }
        var a := Call(backend, BackendExecute(backendSessionId.value, command));
        return if a.ok then Ok(Executed) else Err(BackendFailed), false, SideFrames(a.side, true);
      case CloseSession =>
        var taken := backendSessionId;
        backendSessionId := None;
        if taken.None? {
          return Ok(SessionClosed), true, side;
        }
        var a := Call(backend, BackendClose(taken.value));
        return if a.ok then Ok(SessionClosed) else Err(BackendFailed), true, SideFrames(a.side, false);
    }
  }

  // ----- The loop -----

  /** Everything one line makes the worker do. */
  datatype Served = Served(state: State, frames: seq<Frame>, exit: bool)

  function Serve(backend: Backend, s: State, line: Line): Served {
    match line
    case Blank => Served(s, [], false)
    case Malformed => Served(s, [Response(0, Err(InvalidRequest))], false)
    case Input(id, request) =>
      var h := Handle(backend, s, request);
      Served(h.state, h.side + [Response(id, h.result)], h.exit)
  }

  function ServeAll(backend: Backend, s: State, lines: seq<Line>): Served
    decreases |lines|
  {
    if lines == [] then Served(s, [], false)
    else
      var first := Serve(backend, s, lines[0]);
      if first.exit then first
      else
        var rest := ServeAll(backend, first.state, lines[1..]);
        Served(rest.state, first.frames + rest.frames, rest.exit)
  }

  method RunSessionWorker(backend: Backend, lines: seq<Line>) returns (output: seq<Frame>, calls: seq<BackendCall>)
    ensures output == ServeAll(backend, FRESH, lines).frames
    ensures calls == ServeAll(backend, FRESH, lines).state.calls
  {
    var runtime := new WorkerRuntime();
    output := [];
    var i := 0;
    assert lines[0..] == lines && [] + ServeAll(backend, FRESH, lines).frames == ServeAll(backend, FRESH, lines).frames;
    assert Resumes(backend, lines, 0, FRESH, []);
    hide ServeAll, Handle, Resumes;
    while i < |lines|
      invariant 0 <= i <= |lines|
      invariant Resumes(backend, lines, i, runtime.Abstract(), output)
    {
      var line := lines[i];
      ResumesAfter(backend, lines, i, runtime.Abstract(), output);
      i := i + 1;
      match line
      case Blank =>
        assert output + [] == output;
      case Malformed =>
        output := output + [Response(0, Err(InvalidRequest))];
      case Input(id, request) =>
        var result, shouldExit, side := runtime.HandleRequest(backend, request);
        output := output + (side + [Response(id, result)]);
        if shouldExit {
          return output, runtime.calls;
        }
    }
    ResumesAtEnd(backend, lines, runtime.Abstract(), output);
    calls := runtime.calls;
  }

  /** What remains to be served completes what is written. */
  ghost predicate Resumes(backend: Backend, lines: seq<Line>, i: nat, state: State, output: seq<Frame>)
    requires i <= |lines|
  {
    var rest, all := ServeAll(backend, state, lines[i..]), ServeAll(backend, FRESH, lines);
    all.frames == output + rest.frames && all.state == rest.state
  }

  lemma ResumesAfter(backend: Backend, lines: seq<Line>, i: nat, state: State, output: seq<Frame>)
    requires i < |lines| && Resumes(backend, lines, i, state, output)
    ensures var first, all := Serve(backend, state, lines[i]), ServeAll(backend, FRESH, lines);
      if first.exit then all.frames == output + first.frames && all.state == first.state
      else Resumes(backend, lines, i + 1, first.state, output + first.frames)
  {
    hide Serve;
    var first := Serve(backend, state, lines[i]);
    assert lines[i..][1..] == lines[i + 1..];
    WrittenFirst(output, first.frames, ServeAll(backend, first.state, lines[i + 1..]).frames);
  }

  lemma ResumesAtEnd(backend: Backend, lines: seq<Line>, state: State, output: seq<Frame>)
    requires Resumes(backend, lines, |lines|, state, output)
    ensures ServeAll(backend, FRESH, lines).frames == output && ServeAll(backend, FRESH, lines).state == state
  {
    assert output + [] == output;
  }

  lemma WrittenFirst(a: seq<Frame>, b: seq<Frame>, c: seq<Frame>)
    ensures a + (b + c) == (a + b) + c
  {
  }

  // ----- What the worker promises -----

  function ResponseIds(frames: seq<Frame>): seq<RequestId> {
    if frames == [] then []
    else if frames[0].Response? then [frames[0].id] + ResponseIds(frames[1..])
    else ResponseIds(frames[1..])
  }

  /** The ids to answer: one for each line that is not blank, up to the one after which the worker exits. */
  function IdsToAnswer(backend: Backend, s: State, lines: seq<Line>): seq<RequestId>
    decreases |lines|
  {
    if lines == [] then []
    else
      var first := Serve(backend, s, lines[0]);
      var rest := if first.exit then [] else IdsToAnswer(backend, first.state, lines[1..]);
      if lines[0].Blank? then rest
      else [if lines[0].Input? then lines[0].id else 0] + rest
  }

  lemma {:induction false} ResponseIdsAppend(a: seq<Frame>, b: seq<Frame>)
    ensures ResponseIds(a + b) == ResponseIds(a) + ResponseIds(b)
    decreases |a|
  {
    if a == [] {
      assert a + b == b;
    } else {
      assert (a + b)[0] == a[0] && (a + b)[1..] == a[1..] + b;
      ResponseIdsAppend(a[1..], b);
    }
  }

  lemma {:induction false} NoResponses(frames: seq<Frame>)
    requires forall i :: 0 <= i < |frames| ==> !frames[i].Response?
    ensures ResponseIds(frames) == []
  {
    if frames != [] {
      NoResponses(frames[1..]);
    }
  }

  lemma HandleSideHasNoResponse(backend: Backend, s: State, request: Request)
    ensures ResponseIds(Handle(backend, s, request).side) == []
  {
    NoResponses(Handle(backend, s, request).side);
  }

  /** Exactly one response per line that is not blank, in order, under the line's own id (0 if undecodable). */
  lemma {:induction false} OneResponsePerLine(backend: Backend, s: State, lines: seq<Line>)
    ensures ResponseIds(ServeAll(backend, s, lines).frames) == IdsToAnswer(backend, s, lines)
    decreases |lines|
  {
    if lines != [] {
      hide Handle;
      var first := Serve(backend, s, lines[0]);
      var rest := ServeAll(backend, first.state, lines[1..]).frames;
      if lines[0].Input? {
        var h := Handle(backend, s, lines[0].request);
        HandleSideHasNoResponse(backend, s, lines[0].request);
        ResponseIdsAppend(h.side, [Response(lines[0].id, h.result)]);
        assert [Response(lines[0].id, h.result)][1..] == [];
      } else if lines[0].Malformed? {
        assert first.frames[1..] == [];
      }
      ResponseIdsAppend(first.frames, rest);
      OneResponsePerLine(backend, first.state, lines[1..]);
    }
  }

  /** The calls so far are one create, then executes of the session it made, and perhaps its close. */
  predicate IsBracketed(backend: Backend, calls: seq<BackendCall>) {
    calls == [] || (
      && calls[0] == BackendCreate
      && (|calls| > 1 ==> backend([BackendCreate]).ok)
      && (forall i :: 0 < i < |calls| - 1 ==> IsExecute(calls[i], backend([BackendCreate]).created))
      && (|calls| > 1 ==> (IsExecute(calls[|calls| - 1], backend([BackendCreate]).created)
                          || calls[|calls| - 1] == BackendClose(backend([BackendCreate]).created))))
  }

  predicate IsExecute(call: BackendCall, session: BackendId) {
    call.BackendExecute? && call.session == session
  }

  /** While the worker goes on, an open session is the created one, and no session means no call was made. */
  ghost predicate IsServing(backend: Backend, s: State) {
    && IsBracketed(backend, s.calls)
    && (s.session.None? ==> s.calls == [])
    && (s.session.Some? ==>
          s.calls != [] && backend([BackendCreate]).ok && s.session.value == backend([BackendCreate]).created
          && (|s.calls| > 1 ==> IsExecute(s.calls[|s.calls| - 1], s.session.value)))
  }

  lemma ServeKeepsBrackets(backend: Backend, s: State, line: Line)
    requires IsServing(backend, s)
    ensures IsBracketed(backend, Serve(backend, s, line).state.calls)
    ensures !Serve(backend, s, line).exit ==> IsServing(backend, Serve(backend, s, line).state)
  {
    assert [] + [BackendCreate] == [BackendCreate];
  }

  /**
   * Whatever lines arrive, the backend sees at most one create, executes only the session that create
   * made and only before its close, and nothing after the close.
   */
  lemma BackendSeesOneSession(backend: Backend, lines: seq<Line>)
    ensures IsBracketed(backend, ServeAll(backend, FRESH, lines).state.calls)
  {
    hide ServeAll;
    BracketsKept(backend, FRESH, lines);
  }

  lemma {:induction false} BracketsKept(backend: Backend, s: State, lines: seq<Line>)
    requires IsServing(backend, s)
    ensures IsBracketed(backend, ServeAll(backend, s, lines).state.calls)
    decreases |lines|
  {
    if lines != [] {
      hide IsServing, IsBracketed;
      ServeKeepsBrackets(backend, s, lines[0]);
      if !Serve(backend, s, lines[0]).exit {
        BracketsKept(backend, Serve(backend, s, lines[0]).state, lines[1..]);
      }
    } else {
      assert ServeAll(backend, s, lines).state == s;
    }
  }
}
