/** Runs of the IDA session manager in which a session ends otherwise than one may expect. */
module IdaRuns {
  import opened Wrappers
  import opened IdaSessions
  import opened IdaBinding
  import opened IdaTargets

  // ----- One thread at work -----

  /** `s` with the session's slot and the thread's position replaced. */
  function Stage(s: Sys, sid: SessionId, tid: ThreadId, slot: Slot, pc: Pc): Sys {
    s.(slots := s.slots[sid := slot], threads := s.threads[tid := Working(sid, pc)])
  }

  function Steps(tid: ThreadId, moves: seq<Move>): seq<Action> {
    if moves == [] then [] else [Step(tid, moves[0])] + Steps(tid, moves[1..])
  }

  /** The moves take the thread from one position to the other, and the slot with it. */
  predicate Plays(tid: ThreadId, slot: Slot, pc: Pc, moves: seq<Move>, slot': Slot, pc': Pc)
    decreases |moves|
  {
    if moves == [] then slot == slot' && pc == pc'
    else match Take(tid, moves[0], pc, slot)
      case None => false
      case Some((next, at)) => at != Finished && Plays(tid, next, at, moves[1..], slot', pc')
  }

  lemma PlaysOne(tid: ThreadId, slot: Slot, pc: Pc, move: Move, next: Slot, at: Pc, rest: seq<Move>,
      slot': Slot, pc': Pc)
    requires Take(tid, move, pc, slot) == Some((next, at)) && at != Finished && Plays(tid, next, at, rest, slot', pc')
    ensures Plays(tid, slot, pc, [move] + rest, slot', pc')
  {
    hide Take;
    assert ([move] + rest)[0] == move && ([move] + rest)[1..] == rest;
  }

  lemma ExecOne(s: Sys, a: Action, r: Sys, rest: seq<Action>)
    requires Do(s, a) == Some(r)
    ensures Exec(s, [a] + rest) == Exec(r, rest)
  {
    hide Do;
    assert ([a] + rest)[0] == a && ([a] + rest)[1..] == rest;
  }

  lemma ExecNothing(s: Sys)
    ensures Exec(s, []) == Some(s)
  {
  }

  lemma {:induction false} ExecAppend(s: Sys, acts: seq<Action>, more: seq<Action>)
    requires Exec(s, acts).Some?
    ensures Exec(s, acts + more) == Exec(Exec(s, acts).value, more)
    decreases |acts|
  {
    hide Do;
    if acts == [] {
      assert acts + more == more;
    } else {
      assert (acts + more)[0] == acts[0] && (acts + more)[1..] == acts[1..] + more;
      ExecAppend(Do(s, acts[0]).value, acts[1..], more);
    }
  }

  lemma {:induction false} StagePlays(s: Sys, sid: SessionId, tid: ThreadId, slot: Slot, pc: Pc, moves: seq<Move>,
      slot': Slot, pc': Pc)
    requires Plays(tid, slot, pc, moves, slot', pc')
    ensures Exec(Stage(s, sid, tid, slot, pc), Steps(tid, moves)) == Some(Stage(s, sid, tid, slot', pc'))
    decreases |moves|
  {
    hide Take;
    if moves != [] {
      var taken := Take(tid, moves[0], pc, slot).value;
      var n := Stage(s, sid, tid, taken.0, taken.1);
      StageStep(s, sid, tid, slot, pc, moves[0], taken.0, taken.1);
      StagePlays(s, sid, tid, taken.0, taken.1, moves[1..], slot', pc');
      ExecOne(Stage(s, sid, tid, slot, pc), Step(tid, moves[0]), n, Steps(tid, moves[1..]));
    }
  }

  lemma StageStep(s: Sys, sid: SessionId, tid: ThreadId, slot: Slot, pc: Pc, move: Move, slot': Slot, pc': Pc)
    requires Take(tid, move, pc, slot) == Some((slot', pc')) && pc' != Finished
    ensures Do(Stage(s, sid, tid, slot, pc), Step(tid, move)) == Some(Stage(s, sid, tid, slot', pc'))
  {
    hide Take;
    var m := Stage(s, sid, tid, slot, pc);
    assert m.slots[sid := slot'] == s.slots[sid := slot'];
    assert m.threads[tid := Working(sid, pc')] == s.threads[tid := Working(sid, pc')];
  }

  /** The last step of a thread, after which it is gone. */
  lemma StageEnds(s: Sys, sid: SessionId, tid: ThreadId, slot: Slot, pc: Pc, move: Move, slot': Slot, r: Sys)
    requires tid !in s.threads && Take(tid, move, pc, slot) == Some((slot', Finished))
    requires r == s.(
      slots := s.slots[sid := slot'], createLock := if s.createLock == Some(tid) then None else s.createLock)
    ensures Do(Stage(s, sid, tid, slot, pc), Step(tid, move)) == Some(r)
  {
    hide Take;
    var m := Stage(s, sid, tid, slot, pc);
    assert m.slots[sid := slot'] == s.slots[sid := slot'];
    assert m.threads - {tid} == s.threads;
  }

  // ----- Creating, opening and beginning to close a session -----

  const NEW: Slot := Slot(0, Starting, None, None, Free)
  const READY: Slot := Slot(0, Ready, Some(7), Some(7), Free)

  function CreateActs(tid: ThreadId, sid: SessionId): seq<Action> {
    [CreateCall(tid, 0)] + ([CreateStep(tid, sid)] + ([CreateStep(tid, sid)] + ([CreateStep(tid, sid)] + [])))
  }

  lemma Creates(s: Sys, tid: ThreadId, sid: SessionId)
    requires tid !in s.threads && sid !in s.slots && s.createLock.None? && !HasReusable(s, 0)
    ensures Exec(s, CreateActs(tid, sid)) == Some(Stage(s.(createLock := Some(tid)), sid, tid, NEW, OpenLock))
  {
    var s1 := s.(threads := s.threads[tid := Creating(0, WantCreateLock)]);
    var s2 := s1.(threads := s1.threads[tid := Creating(0, CheckReusable)], createLock := Some(tid));
    var s3 := s2.(threads := s2.threads[tid := Creating(0, InsertSession)]);
    var r := Stage(s.(createLock := Some(tid)), sid, tid, NEW, OpenLock);
    assert HasReusable(s2, 0) <==> HasReusable(s, 0);
    assert s3.threads[tid := Working(sid, OpenLock)] == r.threads;
    assert Do(s, CreateCall(tid, 0)) == Some(s1);
    assert Do(s1, CreateStep(tid, sid)) == Some(s2);
    assert Do(s2, CreateStep(tid, sid)) == Some(s3);
    assert Do(s3, CreateStep(tid, sid)) == Some(r);
    hide Do;
    ExecOne(s3, CreateStep(tid, sid), r, []);
    ExecOne(s2, CreateStep(tid, sid), s3, [CreateStep(tid, sid)] + []);
    ExecOne(s1, CreateStep(tid, sid), s2, [CreateStep(tid, sid)] + ([CreateStep(tid, sid)] + []));
    ExecOne(s, CreateCall(tid, 0), s1,
      [CreateStep(tid, sid)] + ([CreateStep(tid, sid)] + ([CreateStep(tid, sid)] + [])));
  }

  function OpenMoves(): seq<Move> {
    [Go] + ([Opened(7)] + ([Go] + ([Go] + ([Go] + ([Upstreams(true)] + [])))))
  }

  lemma OpenPlays()
    ensures Plays(0, NEW, OpenLock, OpenMoves(), READY.(lock := HeldBy(0)), Release)
  {
    var held := NEW.(lock := HeldBy(0));
    var entered, bound := held.(entry := Some(7)), READY.(lock := HeldBy(0));
    PlaysOne(0, bound, Listed(7, Release), Upstreams(true), bound, Release, [], bound, Release);
    PlaysOne(0, bound, Refresh(Release), Go, bound, Listed(7, Release), [Upstreams(true)] + [], bound, Release);
    PlaysOne(0, entered, BindSession(7), Go, bound, Refresh(Release), [Go] + ([Upstreams(true)] + []), bound, Release);
    hide Plays;
    PlaysOne(0, held, BindEntry(7), Go, entered, BindSession(7),
      [Go] + ([Go] + ([Upstreams(true)] + [])), bound, Release);
    PlaysOne(0, held, Opening, Opened(7), held, BindEntry(7),
      [Go] + ([Go] + ([Go] + ([Upstreams(true)] + []))), bound, Release);
    PlaysOne(0, NEW, OpenLock, Go, held, Opening,
      [Opened(7)] + ([Go] + ([Go] + ([Go] + ([Upstreams(true)] + [])))), bound, Release);
  }

  /** Session 0 is open, and nothing else is going on. */
  function Open(): Sys {
    Sys(map[0 := READY], map[], None)
  }

  function OpenActs(): seq<Action> {
    CreateActs(0, 0) + Steps(0, OpenMoves()) + ([Step(0, Go)] + [])
  }

  lemma OpenReleases()
    ensures Do(Stage(INITIAL.(createLock := Some(0)), 0, 0, READY.(lock := HeldBy(0)), Release), Step(0, Go))
      == Some(Open())
  {
    hide Do, Stage;
    StageEnds(INITIAL.(createLock := Some(0)), 0, 0, READY.(lock := HeldBy(0)), Release, Go, READY, Open());
  }

  lemma OpenIsReached()
    ensures Exec(INITIAL, OpenActs()) == Some(Open())
  {
    var s, held := INITIAL.(createLock := Some(0)), READY.(lock := HeldBy(0));
    Creates(INITIAL, 0, 0);
    OpenPlays();
    OpenReleases();
    hide Do, Plays, Stage, Open, OpenMoves, CreateActs;
    StagePlays(s, 0, 0, NEW, OpenLock, OpenMoves(), held, Release);
    ExecOne(Stage(s, 0, 0, held, Release), Step(0, Go), Open(), []);
    ExecNothing(Open());
    hide Exec;
    ExecAppend(INITIAL, CreateActs(0, 0), Steps(0, OpenMoves()));
    ExecAppend(INITIAL, CreateActs(0, 0) + Steps(0, OpenMoves()), [Step(0, Go)] + []);
  }

  /** A close up to the step that marks the session Closing, and what follows it. */
  function CloseMoves(more: seq<Move>): seq<Move> {
    [Go] + ([Go] + ([Upstreams(true)] + ([Go] + ([Go] + ([Go] + ([Upstreams(true)] + more))))))
  }

  lemma ClosePlays(tid: ThreadId, save: bool, more: seq<Move>, slot': Slot, pc': Pc)
    requires Plays(tid, READY.(lock := HeldBy(tid)), CloseBegin(save, Ready, 7, Some(7)), more, slot', pc')
    ensures Plays(tid, READY, CloseLock(save), CloseMoves(more), slot', pc')
  {
    hide Plays;
    var held := READY.(lock := HeldBy(tid));
    var read, begin := CloseRead(save, Some(7)), CloseBegin(save, Ready, 7, Some(7));
    PlaysOne(tid, held, Listed(7, begin), Upstreams(true), held, begin, more, slot', pc');
    PlaysOne(tid, held, Refresh(begin), Go, held, Listed(7, begin), [Upstreams(true)] + more, slot', pc');
    PlaysOne(tid, held, CloseLookup(save, Ready, Some(7)), Go, held, Refresh(begin),
      [Go] + ([Upstreams(true)] + more), slot', pc');
    PlaysOne(tid, held, read, Go, held, CloseLookup(save, Ready, Some(7)),
      [Go] + ([Go] + ([Upstreams(true)] + more)), slot', pc');
    PlaysOne(tid, held, Listed(7, read), Upstreams(true), held, read,
      [Go] + ([Go] + ([Go] + ([Upstreams(true)] + more))), slot', pc');
    PlaysOne(tid, held, Refresh(read), Go, held, Listed(7, read),
      [Upstreams(true)] + ([Go] + ([Go] + ([Go] + ([Upstreams(true)] + more)))), slot', pc');
    PlaysOne(tid, READY, CloseLock(save), Go, held, Refresh(read),
      [Go] + ([Upstreams(true)] + ([Go] + ([Go] + ([Go] + ([Upstreams(true)] + more))))), slot', pc');
  }

  function CloseActs(tid: ThreadId, save: bool, more: seq<Move>): seq<Action> {
    [CloseCall(tid, 0, save)] + Steps(tid, CloseMoves(more))
  }

  /** A thread closes the ready session 0, whatever else is going on. */
  lemma Closes(s: Sys, tid: ThreadId, save: bool, more: seq<Move>, slot: Slot, pc: Pc)
    requires tid !in s.threads && 0 in s.slots && s.slots[0] == READY
    requires Plays(tid, READY.(lock := HeldBy(tid)), CloseBegin(save, Ready, 7, Some(7)), more, slot, pc)
    ensures Exec(s, CloseActs(tid, save, more)) == Some(Stage(s, 0, tid, slot, pc))
  {
    hide Plays, CloseMoves;
    var called := Stage(s, 0, tid, READY, CloseLock(save));
    assert s.slots[0 := READY] == s.slots;
    assert Do(s, CloseCall(tid, 0, save)) == Some(called);
    hide Do;
    ClosePlays(tid, save, more, slot, pc);
    StagePlays(s, 0, tid, READY, CloseLock(save), CloseMoves(more), slot, pc);
    ExecOne(s, CloseCall(tid, 0, save), called, Steps(tid, CloseMoves(more)));
  }

  // ----- A close whose output cannot be written -----

  const CLOSING: Slot := READY.(state := Closing)

  function UnwrittenMoves(): seq<Move> {
    [Go] + ([Save(OutputNotWritten)] + [])
  }

  lemma UnwrittenPlays()
    ensures Plays(1, READY.(lock := HeldBy(1)), CloseBegin(true, Ready, 7, Some(7)), UnwrittenMoves(),
              CLOSING.(lock := HeldBy(1)), Release)
  {
    var ready, closing := READY.(lock := HeldBy(1)), CLOSING.(lock := HeldBy(1));
    PlaysOne(1, closing, Saving(Ready, 7, Some(7)), Save(OutputNotWritten), closing, Release, [], closing, Release);
    PlaysOne(1, ready, CloseBegin(true, Ready, 7, Some(7)), Go, closing, Saving(Ready, 7, Some(7)),
      [Save(OutputNotWritten)] + [], closing, Release);
  }

  lemma UnwrittenReleases()
    ensures Do(Stage(Open(), 0, 1, CLOSING.(lock := HeldBy(1)), Release), Step(1, Go))
      == Some(Open().(slots := map[0 := CLOSING]))
  {
    hide Do, Stage;
    StageEnds(Open(), 0, 1, CLOSING.(lock := HeldBy(1)), Release, Go, CLOSING, Open().(slots := map[0 := CLOSING]));
  }

  /** There is a run from the start that ends with nothing going on and the session Closing, and still bound. */
  lemma UnwrittenOutputCanLeaveClosing()
    ensures Exec(INITIAL, OpenActs() + CloseActs(1, true, UnwrittenMoves()) + ([Step(1, Go)] + []))
      == Some(Open().(slots := map[0 := CLOSING]))
  {
    OpenIsReached();
    UnwrittenPlays();
    UnwrittenReleases();
    hide Do, Plays, Stage, OpenActs, CloseActs, UnwrittenMoves;
    var end, held := Open().(slots := map[0 := CLOSING]), CLOSING.(lock := HeldBy(1));
    Closes(Open(), 1, true, UnwrittenMoves(), held, Release);
    hide Open;
    ExecOne(Stage(Open(), 0, 1, held, Release), Step(1, Go), end, []);
    ExecNothing(end);
    hide Exec;
    ExecAppend(INITIAL, OpenActs(), CloseActs(1, true, UnwrittenMoves()));
    ExecAppend(INITIAL, OpenActs() + CloseActs(1, true, UnwrittenMoves()), [Step(1, Go)] + []);
  }

  // ----- A refresh that is late -----

  const CLOSED: Slot := Slot(0, Closed, None, None, Free)

  function UnbindMoves(): seq<Move> {
    [Go] + ([Go] + ([Go] + ([Go] + [])))
  }

  lemma UnbindPlays()
    ensures Plays(2, READY.(lock := HeldBy(2)), CloseBegin(false, Ready, 7, Some(7)), UnbindMoves(),
              CLOSED.(lock := HeldBy(2)), Release)
  {
    var ready, closing, closed := READY.(lock := HeldBy(2)), CLOSING.(lock := HeldBy(2)), CLOSED.(lock := HeldBy(2));
    var removed := closing.(entry := None);
    PlaysOne(2, closed, Refresh(Release), Go, closed, Release, [], closed, Release);
    PlaysOne(2, removed, Unbind, Go, closed, Refresh(Release), [Go] + [], closed, Release);
    hide Plays;
    PlaysOne(2, closing, RemoveEntry(7), Go, removed, Unbind, [Go] + ([Go] + []), closed, Release);
    PlaysOne(2, ready, CloseBegin(false, Ready, 7, Some(7)), Go, closing, RemoveEntry(7),
      [Go] + ([Go] + ([Go] + [])), closed, Release);
  }

  /** A health call has read the session's database and waits for the upstream list. */
  function Refreshing(slot: Slot): Sys {
    Sys(map[0 := slot], map[1 := Working(0, Listed(7, Finished))], None)
  }

  function HealthActs(): seq<Action> {
    [HealthCall(1, 0)] + ([Step(1, Go)] + [])
  }

  lemma HealthBegins()
    ensures Exec(Open(), HealthActs()) == Some(Refreshing(READY))
  {
    var called := Stage(Open(), 0, 1, READY, Refresh(Finished));
    assert Open().slots[0 := READY] == Open().slots;
    assert Do(Open(), HealthCall(1, 0)) == Some(called);
    hide Do;
    StageStep(Open(), 0, 1, READY, Refresh(Finished), Go, READY, Listed(7, Finished));
    ExecOne(called, Step(1, Go), Refreshing(READY), []);
    ExecOne(Open(), HealthCall(1, 0), called, [Step(1, Go)] + []);
  }

  function LateActs(): seq<Action> {
    OpenActs() + HealthActs() + (CloseActs(2, false, UnbindMoves()) + ([Step(2, Go)] + []))
  }

  lemma UnbindReleases()
    ensures Do(Stage(Refreshing(READY), 0, 2, CLOSED.(lock := HeldBy(2)), Release), Step(2, Go))
      == Some(Refreshing(CLOSED))
  {
    hide Do, Stage;
    StageEnds(Refreshing(READY), 0, 2, CLOSED.(lock := HeldBy(2)), Release, Go, CLOSED, Refreshing(CLOSED));
  }

  lemma ClosesWhileRefreshing()
    ensures Exec(Refreshing(READY), CloseActs(2, false, UnbindMoves()) + ([Step(2, Go)] + []))
      == Some(Refreshing(CLOSED))
  {
    var held := CLOSED.(lock := HeldBy(2));
    UnbindPlays();
    UnbindReleases();
    hide Do, Plays, Stage, CloseActs, UnbindMoves;
    Closes(Refreshing(READY), 2, false, UnbindMoves(), held, Release);
    hide Refreshing;
    ExecOne(Stage(Refreshing(READY), 0, 2, held, Release), Step(2, Go), Refreshing(CLOSED), []);
    ExecNothing(Refreshing(CLOSED));
    hide Exec;
    ExecAppend(Refreshing(READY), CloseActs(2, false, UnbindMoves()), [Step(2, Go)] + []);
  }

  lemma ClosedWhileRefreshing()
    ensures Exec(INITIAL, LateActs()) == Some(Refreshing(CLOSED))
  {
    OpenIsReached();
    HealthBegins();
    ClosesWhileRefreshing();
    hide Do, Exec, Open, Refreshing, OpenActs, HealthActs, CloseActs, UnbindMoves;
    ExecAppend(INITIAL, OpenActs(), HealthActs());
    ExecAppend(INITIAL, OpenActs() + HealthActs(), CloseActs(2, false, UnbindMoves()) + ([Step(2, Go)] + []));
  }

  /** There is a run from the start in which a Closed session becomes Error. */
  lemma ClosedCanBecomeError()
    ensures Exec(INITIAL, LateActs()) == Some(Refreshing(CLOSED))
    ensures Exec(Refreshing(CLOSED), [Step(1, Upstreams(false)), Step(1, Go)])
      == Some(Open().(slots := map[0 := CLOSED.(state := Error)]))
  {
    ClosedWhileRefreshing();
    hide Do, LateActs;
    var s := Open().(slots := map[0 := CLOSED]);
    var unlisted, end := Stage(s, 0, 1, CLOSED, Unlisted(Finished)), s.(slots := map[0 := CLOSED.(state := Error)]);
    assert Stage(s, 0, 1, CLOSED, Listed(7, Finished)) == Refreshing(CLOSED);
    StageStep(s, 0, 1, CLOSED, Listed(7, Finished), Upstreams(false), CLOSED, Unlisted(Finished));
    StageEnds(s, 0, 1, CLOSED, Unlisted(Finished), Go, CLOSED.(state := Error), end);
    ExecOne(unlisted, Step(1, Go), end, []);
    ExecOne(Refreshing(CLOSED), Step(1, Upstreams(false)), unlisted, [Step(1, Go)] + []);
    assert [Step(1, Upstreams(false)), Step(1, Go)] == [Step(1, Upstreams(false))] + ([Step(1, Go)] + []);
  }

  // ----- A save that fails too late -----

  lemma SavingPlays()
    ensures Plays(1, READY.(lock := HeldBy(1)), CloseBegin(true, Ready, 7, Some(7)), [Go] + [],
              CLOSING.(lock := HeldBy(1)), Saving(Ready, 7, Some(7)))
  {
    var closing := CLOSING.(lock := HeldBy(1));
    PlaysOne(1, READY.(lock := HeldBy(1)), CloseBegin(true, Ready, 7, Some(7)), Go, closing, Saving(Ready, 7, Some(7)),
      [], closing, Saving(Ready, 7, Some(7)));
  }

  /** Session 0 is being saved while session 1 is opened for its target. */
  function Saving0(slot: Slot, pc: Pc): Sys {
    Sys(map[0 := slot, 1 := NEW], map[1 := Working(0, pc), 2 := Working(1, OpenLock)], Some(2))
  }

  function ReopenActs(): seq<Action> {
    OpenActs() + CloseActs(1, true, [Go] + []) + CreateActs(2, 1)
  }

  /** Session 0 is being saved, and nothing else is going on. */
  function SavingAlone(): Sys {
    Sys(map[0 := CLOSING.(lock := HeldBy(1))], map[1 := Working(0, Saving(Ready, 7, Some(7)))], None)
  }

  lemma SavingIsReached()
    ensures Exec(INITIAL, OpenActs() + CloseActs(1, true, [Go] + [])) == Some(SavingAlone())
  {
    OpenIsReached();
    SavingPlays();
    hide Do, Plays, OpenActs, CloseActs;
    Closes(Open(), 1, true, [Go] + [], CLOSING.(lock := HeldBy(1)), Saving(Ready, 7, Some(7)));
    ExecAppend(INITIAL, OpenActs(), CloseActs(1, true, [Go] + []));
    assert Stage(Open(), 0, 1, CLOSING.(lock := HeldBy(1)), Saving(Ready, 7, Some(7))) == SavingAlone();
  }

  lemma ReopenedWhileSaving()
    ensures Exec(INITIAL, ReopenActs()) == Some(Saving0(CLOSING.(lock := HeldBy(1)), Saving(Ready, 7, Some(7))))
  {
    SavingIsReached();
    assert !HasReusable(SavingAlone(), 0);
    hide Do, HasReusable, OpenActs, CreateActs, CloseActs;
    Creates(SavingAlone(), 2, 1);
    NewWhileSaving();
    hide SavingAlone;
    ExecAppend(INITIAL, OpenActs() + CloseActs(1, true, [Go] + []), CreateActs(2, 1));
  }

  lemma NewWhileSaving()
    ensures Stage(SavingAlone().(createLock := Some(2)), 1, 2, NEW, OpenLock)
      == Saving0(CLOSING.(lock := HeldBy(1)), Saving(Ready, 7, Some(7)))
  {
  }

  function SaveFails(): seq<Move> {
    [Save(SaveFailed)] + ([Go] + [])
  }

  lemma SaveFailPlays()
    ensures Plays(1, CLOSING.(lock := HeldBy(1)), Saving(Ready, 7, Some(7)), SaveFails(),
              READY.(lock := HeldBy(1)), Release)
  {
    var ready, closing := READY.(lock := HeldBy(1)), CLOSING.(lock := HeldBy(1));
    PlaysOne(1, closing, Restore(Ready, 7, Some(7)), Go, ready, Release, [], ready, Release);
    PlaysOne(1, closing, Saving(Ready, 7, Some(7)), Save(SaveFailed), closing, Restore(Ready, 7, Some(7)),
      [Go] + [], ready, Release);
  }

  lemma ReadyWhileNew()
    ensures !UniqueReusable(Saving0(READY.(lock := HeldBy(1)), Release))
  {
    var s := Saving0(READY.(lock := HeldBy(1)), Release);
    assert Rivals(s.slots[0], s.slots[1]);
  }

  lemma StageOfSaving(a: Slot, p: Pc, b: Slot, q: Pc)
    ensures Stage(Saving0(a, p), 0, 1, b, q) == Saving0(b, q)
  {
  }

  /** There is a run from the start that ends with two reusable sessions for one target. */
  lemma TargetsCanClash()
    ensures var acts := ReopenActs() + Steps(1, SaveFails());
      Exec(INITIAL, acts).Some? && !UniqueReusable(Exec(INITIAL, acts).value)
  {
    ReopenedWhileSaving();
    SaveFailPlays();
    ReadyWhileNew();
    hide Do, Exec, Plays, ReopenActs, SaveFails, Saving0, Stage, UniqueReusable;
    var held, ready := CLOSING.(lock := HeldBy(1)), READY.(lock := HeldBy(1));
    var saving := Saving(Ready, 7, Some(7));
    StageOfSaving(held, saving, held, saving);
    StageOfSaving(held, saving, ready, Release);
    StagePlays(Saving0(held, saving), 0, 1, held, saving, SaveFails(), ready, Release);
    ExecAppend(INITIAL, ReopenActs(), Steps(1, SaveFails()));
  }
}
