/**
 * What a session worker answers, said of the backend: each result is what the backend made of the call
 * the request led to, or says that no call could be made.
 */
module SessionWorkerAnswers {
  import opened Wrappers
  import opened SessionWorkerLoop

  /** The calls so far have created a session and not closed it. */
  predicate IsOpen(backend: Backend, calls: seq<BackendCall>) {
    && calls != [] && calls[0] == BackendCreate && backend([BackendCreate]).ok
    && forall i :: 0 <= i < |calls| ==> !calls[i].BackendClose?
  }

  /** What a request that comes after the calls `before` leads to: more calls, a result, and perhaps the end. */
  datatype Reaction = Reaction(
    more: seq<BackendCall>, events: seq<Event>, result: Result<Success, Failure>, exits: bool)

  /** The state changes a backend call reports. */
  function Reported(side: seq<Side>): seq<Event> {
    if side == [] then []
    else (match side[0] case SideEvent(event) => [event] case SideLog => []) + Reported(side[1..])
  }

  /** The reaction is the right one, by what the backend answers to the calls up to and including the new one. */
  predicate IsRight(backend: Backend, before: seq<BackendCall>, request: Request, r: Reaction) {
    var a := backend(before + r.more);
    match request
    case CreateSession =>
      if IsOpen(backend, before) then r == Reaction([], [], Err(AlreadyExists), true)
      else r.more == [BackendCreate] && r.events == [] && (r.exits <==> !a.ok)
           && r.result == if a.ok then Ok(SessionCreated(a.created)) else Err(BackendFailed)
    case Execute(command) =>
      if !IsOpen(backend, before) then r == Reaction([], [], Err(NotInitialized), true)
      else r.more == [BackendExecute(backend([BackendCreate]).created, command)] && !r.exits
           && r.events == Reported(a.side)
           && r.result == if a.ok then Ok(Executed) else Err(BackendFailed)
    case CloseSession =>
      if !IsOpen(backend, before) then r == Reaction([], [], Ok(SessionClosed), true)
      else r.more == [BackendClose(backend([BackendCreate]).created)] && r.events == [] && r.exits
           && r.result == if a.ok then Ok(SessionClosed) else Err(BackendFailed)
  }

  // ----- One line -----

  /** An open session is what the calls show, and without one there have been no calls. */
  ghost predicate ShowsSession(backend: Backend, s: State) {
    && (s.session.Some? <==> IsOpen(backend, s.calls))
    && (s.session.Some? ==> s.session.value == backend([BackendCreate]).created)
    && (s.session.None? ==> s.calls == [])
  }

  lemma {:induction false} SideReports(side: seq<Side>)
    ensures EventsOf(SideFrames(side, true)) == Reported(side)
    ensures EventsOf(SideFrames(side, false)) == []
  {
    if side != [] {
      SideReports(side[1..]);
      EventsAppend([FrameOf(side[0], true)], SideFrames(side[1..], true));
      EventsAppend([FrameOf(side[0], false)], SideFrames(side[1..], false));
      assert [FrameOf(side[0], true)][1..] == [] && [FrameOf(side[0], false)][1..] == [];
    }
  }

  function ReactionOf(before: seq<BackendCall>, h: Handled): Reaction
    requires before <= h.state.calls
  {
    Reaction(h.state.calls[|before|..], EventsOf(h.side), h.result, h.exit)
  }

  lemma HandlingIsRight(backend: Backend, s: State, request: Request)
    requires ShowsSession(backend, s)
    ensures var h := Handle(backend, s, request);
      && s.calls <= h.state.calls && IsRight(backend, s.calls, request, ReactionOf(s.calls, h))
      && (!h.exit ==> ShowsSession(backend, h.state))
  {
    var h := Handle(backend, s, request);
    assert [] + [BackendCreate] == [BackendCreate];
    assert s.calls + h.state.calls[|s.calls|..] == h.state.calls;
    assert s.calls + [] == s.calls;
    SideReports(backend(h.state.calls).side);
    hide EventsOf, SideFrames, Reported;
    assert EventsOf([]) == [] by { NoEvents(); }
  }

  lemma NoEvents()
    ensures EventsOf([]) == []
  {
  }

  // ----- All lines -----

  lemma {:induction false} ServeOneMore(backend: Backend, s: State, lines: seq<Line>, line: Line)
    ensures ServeAll(backend, s, lines + [line]) ==
      var before := ServeAll(backend, s, lines);
      if before.exit then before
      else
        var last := Serve(backend, before.state, line);
        Served(last.state, before.frames + last.frames, last.exit)
    decreases |lines|
  {
    hide Serve;
    if lines == [] {
      assert lines + [line] == [line] && [line][1..] == [];
      var last := Serve(backend, s, line);
      assert last.frames + [] == last.frames == [] + last.frames;
    } else {
      assert (lines + [line])[0] == lines[0] && (lines + [line])[1..] == lines[1..] + [line];
      var first := Serve(backend, s, lines[0]);
      if !first.exit {
        ServeOneMore(backend, first.state, lines[1..], line);
        var rest := ServeAll(backend, first.state, lines[1..]);
        WrittenFirst(first.frames, rest.frames, Serve(backend, rest.state, line).frames);
      }
    }
  }

  lemma {:induction false} SessionIsShown(backend: Backend, lines: seq<Line>)
    ensures !ServeAll(backend, FRESH, lines).exit ==> ShowsSession(backend, ServeAll(backend, FRESH, lines).state)
  {
    if lines != [] {
      var n := |lines| - 1;
      assert lines == lines[..n] + [lines[n]];
      SessionIsShown(backend, lines[..n]);
      ServeOneMore(backend, FRESH, lines[..n], lines[n]);
      var before := ServeAll(backend, FRESH, lines[..n]);
      hide ServeAll, Handle, ShowsSession;
      if !before.exit && lines[n].Input? {
        HandlingIsRight(backend, before.state, lines[n].request);
      }
    }
  }

  /** A line of the input leads to this reaction, and its response comes last. */
  ghost predicate Leads(backend: Backend, lines: seq<Line>, k: nat, r: Reaction)
    requires k < |lines| && lines[k].Input?
  {
    var before, after := ServeAll(backend, FRESH, lines[..k]), ServeAll(backend, FRESH, lines[..k + 1]);
    && after.state.calls == before.state.calls + r.more && (after.exit <==> r.exits)
    && exists side: seq<Frame> ::
      && after.frames == before.frames + (side + [Response(lines[k].id, r.result)])
      && EventsOf(side) == r.events && forall i :: 0 <= i < |side| ==> !side[i].Response?
  }

  /**
   * Over all lines: a request line that is reached leads to the right reaction; a line that cannot be
   * decoded is answered under 0 and changes nothing, and a blank one is passed over; after the end, no
   * line does anything.
   */
  lemma EveryLineIsAnswered(backend: Backend, lines: seq<Line>, k: nat) returns (r: Reaction)
    requires k < |lines|
    ensures var before, after := ServeAll(backend, FRESH, lines[..k]), ServeAll(backend, FRESH, lines[..k + 1]);
      if before.exit || lines[k].Blank? then after == before
      else if lines[k].Malformed? then
        after == before.(frames := before.frames + [Response(0, Err(InvalidRequest))])
      else IsRight(backend, before.state.calls, lines[k].request, r) && Leads(backend, lines, k, r)
  {
    var before := ServeAll(backend, FRESH, lines[..k]);
    assert lines[..k + 1] == lines[..k] + [lines[k]];
    ServeOneMore(backend, FRESH, lines[..k], lines[k]);
    SessionIsShown(backend, lines[..k]);
    hide ServeAll, ShowsSession, Handle, IsRight, EventsOf;
    r := Reaction([], [], Err(NotInitialized), false);
    if !before.exit && lines[k].Input? {
      var h := Handle(backend, before.state, lines[k].request);
      HandlingIsRight(backend, before.state, lines[k].request);
      r := ReactionOf(before.state.calls, h);
      assert h.state.calls == before.state.calls + r.more;
      SideHasNoResponse(backend, before.state, lines[k].request);
      assert Leads(backend, lines, k, r);
    } else if !before.exit && lines[k].Blank? {
      assert before.frames + [] == before.frames;
    }
  }

  lemma SideHasNoResponse(backend: Backend, s: State, request: Request)
    ensures var side := Handle(backend, s, request).side; forall i :: 0 <= i < |side| ==> !side[i].Response?
  {
  }
}
