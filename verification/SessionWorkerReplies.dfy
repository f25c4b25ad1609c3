/** What the parent's requests return, said of what it asked and of what the backend made of it. */
module SessionWorkerReplies {
  import opened Wrappers
  import opened SessionWorkerLoop
  import opened SessionWorkerAnswers
  import opened SessionWorkerWire

  /** The requests the parent has begun, in order. */
  function Asked(acts: seq<Action>): seq<Request> {
    if acts == [] then []
    else
      var n := |acts| - 1;
      Asked(acts[..n]) + if acts[n].Begin? then [acts[n].request] else []
  }

  /** The lines the worker has taken. */
  function LinesOf(handled: seq<Handling>): (lines: seq<Line>)
    ensures |lines| == |handled|
    ensures forall i :: 0 <= i < |handled| ==> lines[i] == Input(handled[i].id, handled[i].request)
  {
    seq(|handled|, i requires 0 <= i < |handled| => Input(handled[i].id, handled[i].request))
  }

  ghost predicate CameFrom(backend: Backend, handled: seq<Handling>, i: nat, r: Reaction)
    requires i < |handled|
  {
    var before := ServeAll(backend, FRESH, LinesOf(handled)[..i]).state.calls;
    && IsRight(backend, before, handled[i].request, r)
    && ServeAll(backend, FRESH, LinesOf(handled)[..i + 1]).state.calls == before + r.more
    && handled[i].result == r.result && handled[i].events == r.events
  }

  /** The worker is where the lines it has taken bring it, and has handled each of them rightly. */
  ghost predicate WorkerServes(backend: Backend, s: Sys) {
    && (forall i :: 0 <= i < |s.stdin| ==> s.stdin[i].Input?)
    && s.worker == ServeAll(backend, FRESH, LinesOf(s.handled)).state
    && s.leaving == ServeAll(backend, FRESH, LinesOf(s.handled)).exit
    && forall i :: 0 <= i < |s.handled| ==> IsHandledRightly(backend, s.handled, i)
  }

  ghost predicate IsHandledRightly(backend: Backend, handled: seq<Handling>, i: nat)
    requires i < |handled|
  {
    exists r :: CameFrom(backend, handled, i, r)
  }

  /** What the worker has handled is what was asked, in order. */
  ghost predicate HandlesAsked(asked: seq<Request>, s: Sys) {
    && |asked| == |s.completed| + (if s.parent.Idle? then 0 else 1)
    && (!s.parent.Idle? ==> s.parent.request == asked[|s.completed|])
    && |s.handled| <= |asked|
    && (forall i :: 0 <= i < |s.handled| ==> s.handled[i].request == asked[i])
  }

  lemma AskedStep(acts: seq<Action>, a: Action)
    ensures Asked(acts + [a]) == Asked(acts) + if a.Begin? then [a.request] else []
  {
    assert (acts + [a])[..|acts|] == acts;
  }

  lemma {:induction false} HandledBefore(backend: Backend, handled: seq<Handling>, h: Handling, i: nat)
    requires i < |handled| && IsHandledRightly(backend, handled, i)
    ensures IsHandledRightly(backend, handled + [h], i)
  {
    var q :| CameFrom(backend, handled, i, q);
    assert LinesOf(handled + [h])[..i] == LinesOf(handled)[..i];
    assert LinesOf(handled + [h])[..i + 1] == LinesOf(handled)[..i + 1];
    assert CameFrom(backend, handled + [h], i, q);
  }

  /** One more request, handled as the worker does it. */
  lemma HandledNow(backend: Backend, handled: seq<Handling>, s: State, id: RequestId, request: Request)
    requires s == ServeAll(backend, FRESH, LinesOf(handled)).state && !ServeAll(backend, FRESH, LinesOf(handled)).exit
    ensures var h := Handle(backend, s, request);
      var more := handled + [Handling(id, request, h.result, EventsOf(h.side))];
      && IsHandledRightly(backend, more, |handled|)
      && ServeAll(backend, FRESH, LinesOf(more)).state == h.state
      && ServeAll(backend, FRESH, LinesOf(more)).exit == h.exit
  {
    var h := Handle(backend, s, request);
    var more := handled + [Handling(id, request, h.result, EventsOf(h.side))];
    SessionIsShown(backend, LinesOf(handled));
    HandlingIsRight(backend, s, request);
    assert LinesOf(more) == LinesOf(handled) + [Input(id, request)];
    ServeOneMore(backend, FRESH, LinesOf(handled), Input(id, request));
    assert LinesOf(more)[..|handled|] == LinesOf(handled) && LinesOf(more)[..|handled| + 1] == LinesOf(more);
    hide ServeAll, Handle, IsRight, EventsOf;
    assert h.state.calls == s.calls + h.state.calls[|s.calls|..];
    assert CameFrom(backend, more, |handled|, ReactionOf(s.calls, h));
  }

  lemma Taken(backend: Backend, s: Sys, r: Sys)
    requires s.stdin != [] && s.stdin[0].Input? && Do(backend, s, TakeLine) == Some(r)
    ensures var h := Handle(backend, s.worker, s.stdin[0].request);
      && r.handled == s.handled + [Handling(s.stdin[0].id, s.stdin[0].request, h.result, EventsOf(h.side))]
      && r.worker == h.state && r.leaving == h.exit && r.stdin == s.stdin[1..] && !s.leaving
  {
    hide Handle, EventsOf;
  }

  lemma TakingServes(backend: Backend, s: Sys, r: Sys)
    requires WorkerServes(backend, s) && Do(backend, s, TakeLine) == Some(r)
    ensures WorkerServes(backend, r)
  {
    hide ServeAll, Handle, EventsOf, IsHandledRightly, LinesOf, Serve, HandlingOf;
    var line := s.stdin[0];
    Taken(backend, s, r);
    hide Do;
    HandledNow(backend, s.handled, s.worker, line.id, line.request);
    forall i | 0 <= i < |s.handled|
      ensures IsHandledRightly(backend, r.handled, i)
    {
      HandledBefore(backend, s.handled, r.handled[|s.handled|], i);
    }
  }

  lemma OthersServe(backend: Backend, s: Sys, a: Action, r: Sys)
    requires WorkerServes(backend, s) && !a.TakeLine? && Do(backend, s, a) == Some(r)
    ensures WorkerServes(backend, r)
  {
    hide ServeAll, IsHandledRightly, ReadFrame;
  }

  /** Only `Begin` asks, and a request goes on until it returns. */
  lemma RequestsGoOn(backend: Backend, s: Sys, a: Action, r: Sys)
    requires Do(backend, s, a) == Some(r) && !a.TakeLine?
    ensures r.handled == s.handled
    ensures |r.completed| + (if r.parent.Idle? then 0 else 1)
      == |s.completed| + (if s.parent.Idle? then 0 else 1) + (if a.Begin? then 1 else 0)
    ensures !r.parent.Idle? ==> |r.completed| == |s.completed|
    ensures !r.parent.Idle? ==> r.parent.request == if a.Begin? then a.request else s.parent.request
  {
    hide Serve, ReadFrame;
  }

  lemma AskedKept(backend: Backend, asked: seq<Request>, s: Sys, a: Action, r: Sys)
    requires Inv(backend, s) && HandlesAsked(asked, s) && Do(backend, s, a) == Some(r)
    ensures HandlesAsked(asked + if a.Begin? then [a.request] else [], r)
  {
    if a.TakeLine? {
      TakesWhatIsAsked(backend, s, r);
    } else {
      RequestsGoOn(backend, s, a, r);
    }
    hide Do, Inv;
    assert forall i :: 0 <= i < |s.handled| ==> r.handled[i] == s.handled[i];
  }

  lemma TakesWhatIsAsked(backend: Backend, s: Sys, r: Sys)
    requires Inv(backend, s) && Do(backend, s, TakeLine) == Some(r)
    ensures s.parent.Awaiting? && |s.handled| == |s.completed| && r.completed == s.completed && r.parent == s.parent
    ensures |r.handled| == |s.handled| + 1 && s.handled <= r.handled
    ensures r.handled[|s.handled|].request == s.parent.request
  {
    hide Serve, EventsOf, AnswerInFlight, KeptUntil, IsBracketed, IsServing, Handle;
    assert InStep(s);
  }

  lemma ServedInitially(backend: Backend)
    ensures WorkerServes(backend, INITIAL) && HandlesAsked(Asked([]), INITIAL)
  {
  }

  lemma {:induction false} ExecLast(backend: Backend, s: Sys, acts: seq<Action>, r: Sys) returns (m: Sys)
    requires acts != [] && Exec(backend, s, acts) == Some(r)
    ensures Exec(backend, s, acts[..|acts| - 1]) == Some(m) && Do(backend, m, acts[|acts| - 1]) == Some(r)
    decreases |acts|
  {
    hide Do;
    if |acts| == 1 {
      m := s;
    } else {
      m := ExecLast(backend, Do(backend, s, acts[0]).value, acts[1..], r);
      assert acts[1..][..|acts| - 2] == acts[..|acts| - 1][1..];
    }
  }

  lemma {:induction false} RunServes(backend: Backend, acts: seq<Action>, r: Sys)
    requires Exec(backend, INITIAL, acts) == Some(r)
    ensures WorkerServes(backend, r) && HandlesAsked(Asked(acts), r)
    decreases |acts|
  {
    ServedInitially(backend);
    if acts != [] {
      var n, a := |acts| - 1, acts[|acts| - 1];
      var s := ExecLast(backend, INITIAL, acts, r);
      hide Do, Exec, Inv, WorkerServes, HandlesAsked;
      RunServes(backend, acts[..n], s);
      InvInitially(backend);
      InvOfRun(backend, INITIAL, acts[..n], s);
      AskedKept(backend, Asked(acts[..n]), s, a, r);
      AskedStep(acts[..n], a);
      assert acts == acts[..n] + [a];
      if a.TakeLine? {
        TakingServes(backend, s, r);
      } else {
        OthersServe(backend, s, a, r);
      }
    }
  }

  lemma {:induction false} CallsGrow(backend: Backend, lines: seq<Line>, k: nat)
    requires k <= |lines|
    ensures ServeAll(backend, FRESH, lines[..k]).state.calls <= ServeAll(backend, FRESH, lines).state.calls
    decreases |lines|
  {
    if k == |lines| {
      assert lines[..k] == lines;
    } else {
      var n := |lines| - 1;
      assert lines[..n][..k] == lines[..k] && lines == lines[..n] + [lines[n]];
      CallsGrow(backend, lines[..n], k);
      ServeOneMore(backend, FRESH, lines[..n], lines[n]);
      var s := ServeAll(backend, FRESH, lines[..n]).state;
      assert s.calls <= Serve(backend, s, lines[n]).state.calls by { CallsStay(backend, s, lines[n]); }
      hide ServeAll, Serve;
    }
  }

  lemma CallsStay(backend: Backend, s: State, line: Line)
    ensures s.calls <= Serve(backend, s, line).state.calls
  {
  }

  /** The `n` calls before a request and the reaction to it, among all the calls the backend has seen. */
  ghost predicate Explains(backend: Backend, calls: seq<BackendCall>, request: Request, q: Returned, n: nat,
      r: Reaction) {
    && n <= |calls| && calls[..n] + r.more <= calls
    && IsRight(backend, calls[..n], request, r)
    && q.events == r.events
    && q.result == if r.result.Ok? then Ok(r.result.value) else Err(RequestError.Reported(r.result.error))
  }

  /**
   * In every run, each request of the parent either says that the worker was lost, or returns the right
   * reaction to what was asked, by what the backend answered to the calls made so far and the one it led to.
   */
  lemma RequestsAreAnswered(backend: Backend, acts: seq<Action>, r: Sys, i: nat)
    requires Exec(backend, INITIAL, acts) == Some(r) && i < |r.completed| && !LostWorker(r.completed[i])
    ensures i < |Asked(acts)|
    ensures exists n: nat, reaction ::
      Explains(backend, r.worker.calls, Asked(acts)[i], r.completed[i], n, reaction)
  {
    RequestsReturnTheirHandling(backend, acts, r);
    RunServes(backend, acts, r);
    hide Do, Exec, Inv, EventsOf, ServeAll, Asked;
    var m: nat :| KeptUntil(r, m);
    assert i < m && ReturnsHandling(r.completed[i], r.handled[i]);
    assert IsHandledRightly(backend, r.handled, i);
    var reaction :| CameFrom(backend, r.handled, i, reaction);
    var lines := LinesOf(r.handled);
    CallsGrow(backend, lines, i);
    CallsGrow(backend, lines, i + 1);
    var before := ServeAll(backend, FRESH, lines[..i]).state.calls;
    assert r.worker.calls[..|before|] == before;
    assert Explains(backend, r.worker.calls, Asked(acts)[i], r.completed[i], |before|, reaction);
  }
}
