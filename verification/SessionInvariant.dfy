/** What every step of every thread of the session manager keeps, in all runs. */
module SessionInvariant {
  import opened Wrappers
  import opened SessionManager

  // ----- What a thread is doing -----

  /** The thread is inside the operation lock of its session. */
  predicate Holds(t: Thread) {
    match t
    case Startup(_, pc) => pc != StartupWait
    case Eval(_, pc) => pc != EvalWait
    case CloseLocked(_) => true
    case CloseFinishing(_, _, locked) => locked
    case CloseRegion(_, _, locked) => locked
    case Writing(_, _, locked) => locked
    case _ => false
  }

  /** The startup of the session has not finished. */
  predicate IsPending(t: Thread) {
    t.CreateTail? || (t.Startup? && t.startup != SpawnMonitor)
  }

  predicate Executes(t: Thread) {
    t.Eval? && (t.eval.Executing? || t.eval.Finishing?)
  }

  /** The thread closes the session's worker. */
  predicate IsCloser(t: Thread) {
    || t.CloseCanceling? || t.CloseWait? || t.CloseLocked? || t.CloseExpired? || t.CloseFinishing? || t.CloseRegion?
    || (t.Startup? && (t.startup.Canceling? || t.startup.CloseWorker? || t.startup.DropWorker?))
  }

  /** The record the thread is going to write. */
  function Owes(t: Thread): Option<Record> {
    match t
    case WorkerLost(_, owed) => owed
    case Writing(_, record, _) => Some(record)
    case _ => None
  }

  predicate HasLive(x: Session) {
    x.last.Some? && IsLive(x.last.value.status)
  }

  predicate HasStatus(x: Session, status: OperationStatus) {
    x.last.Some? && x.last.value.status == status
  }

  // ----- The invariant -----

  /** Exactly the thread recorded in a lock is inside it. */
  ghost predicate LocksAgree(s: Sys) {
    && (forall tid :: tid in s.threads && Holds(s.threads[tid]) ==> HolderIs(s, s.threads[tid].sid, tid))
    && (forall sid :: sid in s.slots && s.slots[sid].lock.HeldBy? ==> HolderRuns(s, sid))
  }

  ghost predicate HolderIs(s: Sys, sid: SessionId, tid: ThreadId) {
    sid in s.slots && s.slots[sid].lock == HeldBy(tid)
  }

  ghost predicate HolderRuns(s: Sys, sid: SessionId)
    requires sid in s.slots && s.slots[sid].lock.HeldBy?
  {
    var h := s.slots[sid].lock.holder;
    h in s.threads && Holds(s.threads[h]) && s.threads[h].sid == sid
  }

  /** Threads belong to sessions; at most one startup runs for a session. */
  ghost predicate ThreadsPlaced(s: Sys) {
    && (forall tid :: tid in s.threads ==> s.threads[tid].sid in s.slots)
    && (forall t, u :: (t in s.threads && u in s.threads && t != u
          && IsPending(s.threads[t]) && IsPending(s.threads[u])) ==> s.threads[t].sid != s.threads[u].sid)
  }

  /** What holds of one session by itself. */
  ghost predicate SessionOk(x: Session, nextId: CommandId) {
    && (x.last.Some? ==> x.attached && x.last.value.id < nextId)
    && (x.state == Ready || x.state == Break || x.state == Running ==> x.attached)
    && (HasStatus(x, OpRunning) ==> x.current)
    && (HasStatus(x, OpCancelRequested) ==> x.state == Closing)
  }

  /** What a thread may rely on about its session. */
  ghost predicate ThreadOk(t: Thread, x: Session, nextId: CommandId) {
    && (IsPending(t) ==> !x.attached)
    && (t.Eval? && t.eval != EvalWait && t.eval != EvalLocked ==> x.attached)
    && (t.Eval? && (t.eval.NeedsWorker? || t.eval.NeedsStart?) ==>
          !HasLive(x) && (t.eval.seen == Ready || t.eval.seen == Break))
    && (Executes(t) ==> t.eval.id < nextId && (HasLive(x) ==> x.last.value.id == t.eval.id))
    && (t.Eval? && t.eval.Finishing? ==> t.eval.status == OpFinished || t.eval.status == OpFailed)
    && (IsCloser(t) ==> ClosingFor(x))
    && (t.CloseFinishing? || t.CloseRegion? ==> t.ok ==> t.locked)
  }

  /** The session is as its closer left it; only the startup that never finished may end it meanwhile. */
  predicate ClosingFor(x: Session) {
    if x.attached then x.state == Closing && !HasStatus(x, OpRunning) else IsClosing(x.state)
  }

  ghost predicate SessionsOk(s: Sys) {
    forall sid :: sid in s.slots ==> SessionOk(s.slots[sid].session, s.nextId)
  }

  ghost predicate ThreadsOk(s: Sys)
    requires ThreadsPlaced(s)
  {
    forall tid :: tid in s.threads ==> ThreadOk(s.threads[tid], s.slots[s.threads[tid].sid].session, s.nextId)
  }

  /** Two threads close one session only if its startup never finished. */
  ghost predicate ClosersApart(s: Sys)
    requires ThreadsPlaced(s)
  {
    forall t, u :: (t in s.threads && u in s.threads && t != u && s.threads[t].sid == s.threads[u].sid
      && IsCloser(s.threads[t]) && IsCloser(s.threads[u])) ==> !s.slots[s.threads[t].sid].session.attached
  }

  /** Different sessions never share a command. */
  ghost predicate LastsDiffer(s: Sys) {
    forall a, b :: (a in s.slots && b in s.slots && a != b
      && s.slots[a].session.last.Some? && s.slots[b].session.last.Some?)
      ==> s.slots[a].session.last.value.id != s.slots[b].session.last.value.id
  }

  /** No command runs in two evals, or in one eval while being another session's last. */
  ghost predicate IdsApart(s: Sys) {
    && LastsDiffer(s)
    && (forall t, u :: t in s.threads && u in s.threads && t != u && Executes(s.threads[t]) && Executes(s.threads[u])
          ==> s.threads[t].eval.id != s.threads[u].eval.id)
    && (forall t, sid :: (t in s.threads && Executes(s.threads[t]) && sid in s.slots && sid != s.threads[t].sid
          && s.slots[sid].session.last.Some?) ==> s.slots[sid].session.last.value.id != s.threads[t].eval.id)
  }

  /** A live operation of an open session belongs to the eval inside the session's lock. */
  ghost predicate LiveHeld(s: Sys) {
    forall sid :: sid in s.slots && IsOpenLive(s.slots[sid].session) ==> RunsLast(s, sid)
  }

  predicate IsOpenLive(x: Session) {
    HasLive(x) && !IsClosing(x.state)
  }

  ghost predicate RunsLast(s: Sys, sid: SessionId)
    requires sid in s.slots && s.slots[sid].session.last.Some?
  {
    && s.slots[sid].lock.HeldBy? && s.slots[sid].lock.holder in s.threads
    && RunsOperation(s.threads[s.slots[sid].lock.holder], sid, s.slots[sid].session.last.value.id)
  }

  predicate RunsOperation(t: Thread, sid: SessionId, id: CommandId) {
    t.sid == sid && Executes(t) && t.eval.id == id
  }

  ghost predicate Logged(log: seq<Record>, id: CommandId) {
    exists i :: 0 <= i < |log| && log[i].id == id
  }

  /** At most one record per command. */
  ghost predicate OneRecordEach(log: seq<Record>) {
    forall i, j :: 0 <= i < j < |log| ==> log[i].id != log[j].id
  }

  predicate IsDecided(claims: map<CommandId, OperationStatus>, r: Record) {
    r.id in claims && claims[r.id] == r.status
  }

  predicate IsOwed(threads: map<ThreadId, Thread>, tid: ThreadId, id: CommandId) {
    tid in threads && Owes(threads[tid]).Some? && Owes(threads[tid]).value.id == id
  }

  /** Records and debts say what was decided; no command has two of them. */
  ghost predicate RecordsOk(s: Sys) {
    && OneRecordEach(s.log)
    && (forall i :: 0 <= i < |s.log| ==> IsDecided(s.claims, s.log[i]))
    && (forall tid :: tid in s.threads && Owes(s.threads[tid]).Some? ==>
          IsDecided(s.claims, Owes(s.threads[tid]).value) && !Logged(s.log, Owes(s.threads[tid]).value.id))
    && (forall t, u, id :: IsOwed(s.threads, t, id) && IsOwed(s.threads, u, id) ==> t == u)
  }

  predicate IsKnown(r: Record, nextId: CommandId) {
    r.id < nextId && !IsLive(r.status)
  }

  /** Records and debts are about issued commands and final statuses. */
  ghost predicate RecordsKnown(s: Sys) {
    && (forall i :: 0 <= i < |s.log| ==> IsKnown(s.log[i], s.nextId) && s.log[i].id in s.claims)
    && (forall tid :: tid in s.threads && Owes(s.threads[tid]).Some? ==>
          IsKnown(Owes(s.threads[tid]).value, s.nextId) && Owes(s.threads[tid]).value.id in s.claims)
  }

  /** Whatever was decided is written, or a thread is about to write it. */
  ghost predicate NothingLost(s: Sys) {
    forall id :: id in s.claims ==> Logged(s.log, id) || exists tid :: IsOwed(s.threads, tid, id)
  }

  ghost predicate Inv(s: Sys) {
    && LocksAgree(s)
    && ThreadsPlaced(s)
    && SessionsOk(s)
    && ThreadsOk(s)
    && ClosersApart(s)
    && IdsApart(s)
    && LiveHeld(s)
    && RecordsKnown(s)
    && NothingLost(s)
  }

  lemma InvInitially()
    ensures Inv(INITIAL)
  {
  }

  // ----- What one step does to its own slot and thread -----

  /** What the invariant says about the slot and the thread of a step. */
  ghost predicate Before(tid: ThreadId, t: Thread, slot: Slot, nextId: CommandId) {
    && (Holds(t) <==> slot.lock == HeldBy(tid))
    && SessionOk(slot.session, nextId)
    && ThreadOk(t, slot.session, nextId)
    && (IsOpenLive(slot.session) ==> slot.lock.HeldBy?)
    && (IsOpenLive(slot.session) && Holds(t) ==> RunsOperation(t, t.sid, slot.session.last.value.id))
  }

  /** The lock changes hands only from free to this thread, or from this thread to free. */
  predicate LockStep(tid: ThreadId, slot: Slot, e: Effect) {
    && (e.next.Some? && Holds(e.next.value) <==> e.slot.lock == HeldBy(tid))
    && (e.slot.lock != slot.lock ==> (slot.lock == HeldBy(tid) || !slot.lock.HeldBy?)
                                     && (e.slot.lock.HeldBy? ==> e.slot.lock == HeldBy(tid)))
  }

  predicate PlaceStep(t: Thread, slot: Slot, e: Effect) {
    && (e.next.Some? ==> e.next.value.sid == t.sid && (IsPending(e.next.value) ==> IsPending(t)))
    && (e.monitor.Some? ==> e.next.None?)
    && (slot.session.attached ==> e.slot.session.attached)
    && (slot.session.attached != e.slot.session.attached ==> IsPending(t) && !IsClosing(slot.session.state))
  }

  /** Nobody begins to close a session that is being closed. */
  predicate CloserStep(t: Thread, x: Session, e: Effect) {
    e.next.Some? && IsCloser(e.next.value) && !IsCloser(t) && e.slot.session.attached ==> x.state != Closing
  }

  /** Only a new command id enters the session and the eval. */
  predicate IdStep(t: Thread, x: Session, nextId: CommandId, e: Effect) {
    && (e.slot.session.last.Some? ==>
          (x.last.Some? && e.slot.session.last.value.id == x.last.value.id)
          || (e.issues && e.slot.session.last.value.id == nextId))
    && (e.next.Some? && Executes(e.next.value) ==>
          (Executes(t) && e.next.value.eval.id == t.eval.id) || (e.issues && e.next.value.eval.id == nextId))
  }

  /** Decided is the session's own live command or the executing one, and the session shows it if it is its last. */
  predicate ClaimStep(t: Thread, x: Session, nextId: CommandId, e: Effect) {
    e.claim.Some? ==>
      && IsKnown(e.claim.value, nextId)
      && ((x.last.Some? && e.claim.value.id == x.last.value.id) || (Executes(t) && e.claim.value.id == t.eval.id))
      && ShowsRecord(e.slot.session, e.claim.value)
  }

  /** If the record is about the session's last command, it has the status the session shows. */
  predicate ShowsRecord(x: Session, r: Record) {
    x.last.Some? && x.last.value.id == r.id ==> x.last.value.status == r.status
  }

  /** What other threads know of the session stays true. */
  predicate OthersStep(t: Thread, x: Session, y: Session) {
    && (x.attached && x.state == Closing && !IsCloser(t) ==> y.state == Closing && y.last == x.last)
    && (!x.attached && IsClosing(x.state) ==> IsClosing(y.state))
    && (!Holds(t) && HasLive(y) ==> HasLive(x) && y.last.value.id == x.last.value.id)
  }

  predicate LiveStep(tid: ThreadId, t: Thread, slot: Slot, e: Effect) {
    IsOpenLive(e.slot.session) ==>
      || (e.slot.lock == HeldBy(tid) && e.next.Some?
          && RunsOperation(e.next.value, t.sid, e.slot.session.last.value.id))
      || (!Holds(t) && IsOpenLive(slot.session) && slot.lock.HeldBy? && e.slot.lock == slot.lock
          && e.slot.session.last.value.id == slot.session.last.value.id)
  }

  /** A decision is owed at once; a debt is kept until it is written. */
  predicate DebtStep(t: Thread, e: Effect) {
    && var owes := if e.next.Some? then Owes(e.next.value) else None;
    && (e.claim.Some? ==> Owes(t).None? && e.writes.None? && owes == e.claim)
    && (e.claim.None? ==> owes == if e.writes.Some? then None else Owes(t))
    && (e.writes.Some? ==> Owes(t) == e.writes)
  }

  ghost predicate After(tid: ThreadId, t: Thread, slot: Slot, nextId: CommandId, e: Effect) {
    PositionAfter(tid, t, slot, nextId, e) && SessionAfter(t, slot.session, nextId, e)
  }

  ghost predicate PositionAfter(tid: ThreadId, t: Thread, slot: Slot, nextId: CommandId, e: Effect) {
    && LockStep(tid, slot, e)
    && PlaceStep(t, slot, e)
    && LiveStep(tid, t, slot, e)
    && (e.next.Some? ==> ThreadOk(e.next.value, e.slot.session, IdsAfter(nextId, e)))
  }

  ghost predicate SessionAfter(t: Thread, x: Session, nextId: CommandId, e: Effect) {
    && SessionOk(e.slot.session, IdsAfter(nextId, e))
    && CloserStep(t, x, e)
    && IdStep(t, x, nextId, e)
    && OthersStep(t, x, e.slot.session)
    && DebtStep(t, e)
    && ClaimStep(t, x, nextId, e)
  }

  function IdsAfter(nextId: CommandId, e: Effect): CommandId {
    if e.issues then nextId + 1 else nextId
  }

  lemma StartupPosition(tid: ThreadId, move: Move, t: Thread, slot: Slot, nextId: CommandId, e: Effect)
    requires t.CreateTail? || t.Startup?
    requires TakeStartup(tid, move, t, slot) == Some(e) && Before(tid, t, slot, nextId)
    ensures PositionAfter(tid, t, slot, nextId, e)
  {
  }

  lemma StartupSession(tid: ThreadId, move: Move, t: Thread, slot: Slot, nextId: CommandId, e: Effect)
    requires t.CreateTail? || t.Startup?
    requires TakeStartup(tid, move, t, slot) == Some(e) && Before(tid, t, slot, nextId)
    ensures SessionAfter(t, slot.session, nextId, e)
  {
  }

  lemma EvalPosition(tid: ThreadId, move: Move, t: Thread, slot: Slot, nextId: CommandId, e: Effect)
    requires t.Eval?
    requires TakeEval(tid, move, t, slot, nextId) == Some(e) && Before(tid, t, slot, nextId)
    ensures PositionAfter(tid, t, slot, nextId, e)
  {
  }

  lemma EvalSession(tid: ThreadId, move: Move, t: Thread, slot: Slot, nextId: CommandId, e: Effect)
    requires t.Eval?
    requires TakeEval(tid, move, t, slot, nextId) == Some(e) && Before(tid, t, slot, nextId)
    ensures SessionAfter(t, slot.session, nextId, e)
  {
  }

  lemma ClosePosition(tid: ThreadId, move: Move, t: Thread, slot: Slot, nextId: CommandId, e: Effect)
    requires IsCloser(t) && !t.Startup?
    requires TakeOther(tid, move, t, slot) == Some(e) && Before(tid, t, slot, nextId)
    ensures PositionAfter(tid, t, slot, nextId, e)
  {
  }

  lemma CloseSession(tid: ThreadId, move: Move, t: Thread, slot: Slot, nextId: CommandId, e: Effect)
    requires IsCloser(t) && !t.Startup?
    requires TakeOther(tid, move, t, slot) == Some(e) && Before(tid, t, slot, nextId)
    ensures SessionAfter(t, slot.session, nextId, e)
  {
  }

  lemma OtherPosition(tid: ThreadId, move: Move, t: Thread, slot: Slot, nextId: CommandId, e: Effect)
    requires !t.CreateTail? && !t.Startup? && !t.Eval? && !IsCloser(t)
    requires TakeOther(tid, move, t, slot) == Some(e) && Before(tid, t, slot, nextId)
    ensures PositionAfter(tid, t, slot, nextId, e)
  {
  }

  lemma OtherSession(tid: ThreadId, move: Move, t: Thread, slot: Slot, nextId: CommandId, e: Effect)
    requires !t.CreateTail? && !t.Startup? && !t.Eval? && !IsCloser(t)
    requires TakeOther(tid, move, t, slot) == Some(e) && Before(tid, t, slot, nextId)
    ensures SessionAfter(t, slot.session, nextId, e)
  {
  }

  lemma LocalStep(tid: ThreadId, move: Move, t: Thread, slot: Slot, nextId: CommandId, e: Effect)
    requires Take(tid, move, t, slot, nextId) == Some(e) && Before(tid, t, slot, nextId)
    ensures After(tid, t, slot, nextId, e)
  {
    hide TakeStartup, TakeEval, TakeOther, Before, PositionAfter, SessionAfter;
    if t.CreateTail? || t.Startup? {
      StartupPosition(tid, move, t, slot, nextId, e);
      StartupSession(tid, move, t, slot, nextId, e);
    } else if t.Eval? {
      EvalPosition(tid, move, t, slot, nextId, e);
      EvalSession(tid, move, t, slot, nextId, e);
    } else if IsCloser(t) {
      ClosePosition(tid, move, t, slot, nextId, e);
      CloseSession(tid, move, t, slot, nextId, e);
    } else {
      OtherPosition(tid, move, t, slot, nextId, e);
      OtherSession(tid, move, t, slot, nextId, e);
    }
  }

  // ----- What one step does to the whole -----

  /** The thread `tid` takes a step with effect `e` from `s`. */
  ghost predicate Stepping(s: Sys, tid: ThreadId, e: Effect) {
    && tid in s.threads && s.threads[tid].sid in s.slots
    && After(tid, s.threads[tid], s.slots[s.threads[tid].sid], s.nextId, e)
    && (e.monitor.Some? ==> e.monitor.value !in s.threads)
  }

  function Stepped(s: Sys, tid: ThreadId, e: Effect): Sys
    requires tid in s.threads
  {
    Apply(s, tid, s.threads[tid].sid, e)
  }

  lemma BeforeStep(s: Sys, tid: ThreadId)
    requires Inv(s) && tid in s.threads
    ensures s.threads[tid].sid in s.slots
    ensures Before(tid, s.threads[tid], s.slots[s.threads[tid].sid], s.nextId)
  {
    hide RecordsKnown, IdsApart, NothingLost, ClosersApart;
    var sid := s.threads[tid].sid;
    assert s.slots[sid].lock == HeldBy(tid) ==> HolderRuns(s, sid);
    assert IsOpenLive(s.slots[sid].session) ==> RunsLast(s, sid);
  }

  /** The step treats the operation lock as it should, and starts at most a monitor. */
  ghost predicate Locking(s: Sys, tid: ThreadId, e: Effect) {
    && tid in s.threads && s.threads[tid].sid in s.slots
    && LockStep(tid, s.slots[s.threads[tid].sid], e)
    && (e.next.Some? ==> e.next.value.sid == s.threads[tid].sid)
    && (e.monitor.Some? ==> e.next.None? && e.monitor.value !in s.threads)
  }

  lemma LocksAgreeKept(s: Sys, tid: ThreadId, e: Effect)
    requires Locking(s, tid, e) && LocksAgree(s)
    ensures LocksAgree(Stepped(s, tid, e))
  {
    var r, sid := Stepped(s, tid, e), s.threads[tid].sid;
    forall u | u in r.threads && Holds(r.threads[u])
      ensures HolderIs(r, r.threads[u].sid, u)
    {
      if u != tid && u in s.threads { assert HolderIs(s, s.threads[u].sid, u); }
    }
    forall z | z in r.slots && r.slots[z].lock.HeldBy?
      ensures HolderRuns(r, z)
    {
      if z != sid || r.slots[z].lock == s.slots[z].lock {
        assert HolderRuns(s, z);
      }
    }
  }

  lemma HolderIsAlone(s: Sys, t: ThreadId, u: ThreadId)
    requires LocksAgree(s) && t in s.threads && u in s.threads && t != u
    requires s.threads[t].sid == s.threads[u].sid && Holds(s.threads[u])
    ensures !Holds(s.threads[t])
  {
    assert HolderIs(s, s.threads[u].sid, u);
    assert Holds(s.threads[t]) ==> HolderIs(s, s.threads[t].sid, t);
  }

  lemma ThreadsPlacedKept(s: Sys, tid: ThreadId, e: Effect)
    requires Stepping(s, tid, e) && ThreadsPlaced(s)
    ensures ThreadsPlaced(Stepped(s, tid, e))
  {
    hide LockStep, SessionAfter, LiveStep, ThreadOk;
  }

  lemma IdsApartKept(s: Sys, tid: ThreadId, e: Effect)
    requires Stepping(s, tid, e) && ThreadsPlaced(s) && SessionsOk(s) && ThreadsOk(s) && IdsApart(s)
    ensures IdsApart(Stepped(s, tid, e))
  {
    hide LockStep, CloserStep, OthersStep, LiveStep, DebtStep, ClaimStep, ClosingFor;
  }

  lemma SessionsOkKept(s: Sys, tid: ThreadId, e: Effect)
    requires Stepping(s, tid, e) && SessionsOk(s)
    ensures SessionsOk(Stepped(s, tid, e))
  {
    hide PositionAfter, CloserStep, IdStep, OthersStep, DebtStep, ClaimStep;
  }

  lemma ThreadsOkKept(s: Sys, tid: ThreadId, e: Effect)
    requires Stepping(s, tid, e) && LocksAgree(s) && ThreadsPlaced(s) && ThreadsOk(s) && ClosersApart(s)
    ensures ThreadsPlaced(Stepped(s, tid, e))
    ensures ThreadsOk(Stepped(s, tid, e))
  {
    hide LockStep, SessionAfter, LiveStep;
    ThreadsPlacedKept(s, tid, e);
    var r := Stepped(s, tid, e);
    forall u | u in r.threads
      ensures ThreadOk(r.threads[u], r.slots[r.threads[u].sid].session, r.nextId)
    {
      if u != tid && u in s.threads {
        OtherThreadKept(s, tid, e, u);
      }
    }
  }

  lemma OtherThreadKept(s: Sys, tid: ThreadId, e: Effect, u: ThreadId)
    requires Stepping(s, tid, e) && LocksAgree(s) && ThreadsPlaced(s) && ThreadsOk(s) && ClosersApart(s)
    requires u in s.threads && u != tid
    ensures s.threads[u].sid in Stepped(s, tid, e).slots
    ensures ThreadOk(s.threads[u], Stepped(s, tid, e).slots[s.threads[u].sid].session, Stepped(s, tid, e).nextId)
  {
    hide LockStep, IdStep, LiveStep, DebtStep, ClaimStep;
    assert ThreadOk(s.threads[u], s.slots[s.threads[u].sid].session, s.nextId);
    if s.threads[u].sid == s.threads[tid].sid && s.threads[u].Eval? && s.threads[u].eval != EvalWait {
      assert HolderIs(s, s.threads[u].sid, u);
      assert !Holds(s.threads[tid]);
    }
  }

  lemma ClosersApartKept(s: Sys, tid: ThreadId, e: Effect)
    requires Stepping(s, tid, e) && ThreadsPlaced(s) && ThreadsOk(s) && ClosersApart(s)
    ensures ThreadsPlaced(Stepped(s, tid, e)) && ClosersApart(Stepped(s, tid, e))
  {
    hide LockStep, SessionAfter, LiveStep, OthersStep, IdStep, DebtStep, ClaimStep;
    ThreadsPlacedKept(s, tid, e);
    var r, sid := Stepped(s, tid, e), s.threads[tid].sid;
    forall u | u in s.threads && u != tid && s.threads[u].sid == sid && IsCloser(s.threads[u])
      && tid in r.threads && IsCloser(r.threads[tid])
      ensures !r.slots[sid].session.attached
    {
      OneCloserKept(s, tid, e, u);
    }
    forall t, u | t in r.threads && u in r.threads && t != u && r.threads[t].sid == r.threads[u].sid
      && IsCloser(r.threads[t]) && IsCloser(r.threads[u])
      ensures !r.slots[r.threads[t].sid].session.attached
    {
      if t != tid && u != tid { assert ThreadOk(s.threads[t], s.slots[s.threads[t].sid].session, s.nextId); }
    }
  }

  lemma OneCloserKept(s: Sys, tid: ThreadId, e: Effect, u: ThreadId)
    requires Stepping(s, tid, e) && ThreadsPlaced(s) && ThreadsOk(s) && ClosersApart(s)
    requires u in s.threads && u != tid && s.threads[u].sid == s.threads[tid].sid && IsCloser(s.threads[u])
    requires e.next.Some? && IsCloser(e.next.value)
    ensures !e.slot.session.attached
  {
    hide LockStep, LiveStep, OthersStep, IdStep, DebtStep, ClaimStep;
    assert ThreadOk(s.threads[u], s.slots[s.threads[u].sid].session, s.nextId);
  }

  lemma LiveHeldKept(s: Sys, tid: ThreadId, e: Effect)
    requires Stepping(s, tid, e) && LiveHeld(s) && LocksAgree(s)
    ensures LiveHeld(Stepped(s, tid, e))
  {
    hide LockStep, PlaceStep, SessionAfter, ThreadOk;
    var r, sid := Stepped(s, tid, e), s.threads[tid].sid;
    forall z | z in r.slots && IsOpenLive(r.slots[z].session)
      ensures RunsLast(r, z)
    {
      if z != sid || !(e.slot.lock == HeldBy(tid)) {
        assert RunsLast(s, z);
        assert HolderRuns(s, z);
      }
    }
  }

  lemma LoggedStep(log: seq<Record>, r: Record, id: CommandId)
    ensures Logged(log + [r], id) <==> Logged(log, id) || r.id == id
  {
    if Logged(log, id) {
      var i :| 0 <= i < |log| && log[i].id == id;
      assert (log + [r])[i].id == id;
    }
    assert (log + [r])[|log|] == r;
  }

  /** The step settles debts as it should. */
  ghost predicate Settling(s: Sys, tid: ThreadId, e: Effect) {
    && tid in s.threads && DebtStep(s.threads[tid], e)
    && (e.monitor.Some? ==> e.next.None? && e.monitor.value !in s.threads)
  }

  /** It also decides only what was undecided. */
  ghost predicate Recording(s: Sys, tid: ThreadId, e: Effect) {
    Settling(s, tid, e) && (e.claim.Some? ==> e.claim.value.id !in s.claims)
  }

  lemma StepSettles(s: Sys, tid: ThreadId, e: Effect)
    requires Stepping(s, tid, e)
    ensures Settling(s, tid, e) && Locking(s, tid, e)
  {
    hide LockStep, CloserStep, IdStep, OthersStep, LiveStep, DebtStep, ClaimStep, ThreadOk, SessionOk;
  }

  /** A debt after the step is an old one, or the one the step has just made. */
  lemma DebtsAfter(s: Sys, tid: ThreadId, e: Effect, u: ThreadId, id: CommandId)
    requires Settling(s, tid, e)
    requires IsOwed(Stepped(s, tid, e).threads, u, id)
    ensures if e.claim.Some? && u == tid then id == e.claim.value.id else IsOwed(s.threads, u, id)
    ensures e.writes.Some? ==> u != tid
  {
  }

  lemma RecordsOkKept(s: Sys, tid: ThreadId, e: Effect)
    requires Recording(s, tid, e) && RecordsOk(s)
    ensures RecordsOk(Stepped(s, tid, e))
  {
    hide Logged;
    var r := Stepped(s, tid, e);
    assert e.writes.Some? ==> IsOwed(s.threads, tid, e.writes.value.id);
    forall u | u in r.threads && Owes(r.threads[u]).Some?
      ensures IsDecided(r.claims, Owes(r.threads[u]).value) && !Logged(r.log, Owes(r.threads[u]).value.id)
    {
      assert IsOwed(r.threads, u, Owes(r.threads[u]).value.id);
      OneDebtKept(s, tid, e, u);
    }
    forall t, u, id | IsOwed(r.threads, t, id) && IsOwed(r.threads, u, id)
      ensures t == u
    {
      DebtsAfter(s, tid, e, t, id);
      DebtsAfter(s, tid, e, u, id);
    }
    LogKept(s, tid, e);
  }

  lemma OneDebtKept(s: Sys, tid: ThreadId, e: Effect, u: ThreadId)
    requires Recording(s, tid, e) && RecordsOk(s)
    requires u in Stepped(s, tid, e).threads && Owes(Stepped(s, tid, e).threads[u]).Some?
    ensures IsDecided(Stepped(s, tid, e).claims, Owes(Stepped(s, tid, e).threads[u]).value)
    ensures !Logged(Stepped(s, tid, e).log, Owes(Stepped(s, tid, e).threads[u]).value.id)
  {
    var r := Stepped(s, tid, e);
    var id := Owes(r.threads[u]).value.id;
    assert e.writes.Some? ==> IsOwed(s.threads, tid, e.writes.value.id);
    assert IsOwed(r.threads, u, id);
    DebtsAfter(s, tid, e, u, id);
    if e.writes.Some? { LoggedStep(s.log, e.writes.value, id); }
  }

  lemma LogKept(s: Sys, tid: ThreadId, e: Effect)
    requires Recording(s, tid, e) && RecordsOk(s)
    ensures OneRecordEach(Stepped(s, tid, e).log)
    ensures forall i :: 0 <= i < |Stepped(s, tid, e).log| ==>
      IsDecided(Stepped(s, tid, e).claims, Stepped(s, tid, e).log[i])
  {
  }

  lemma RecordsKnownKept(s: Sys, tid: ThreadId, e: Effect)
    requires Stepping(s, tid, e) && Settling(s, tid, e) && RecordsKnown(s)
    ensures RecordsKnown(Stepped(s, tid, e))
  {
    hide PositionAfter, SessionOk, CloserStep, IdStep, OthersStep;
  }

  lemma NothingLostKept(s: Sys, tid: ThreadId, e: Effect)
    requires Settling(s, tid, e) && NothingLost(s)
    ensures NothingLost(Stepped(s, tid, e))
  {
    hide Logged;
    var r := Stepped(s, tid, e);
    forall id | id in r.claims
      ensures Logged(r.log, id) || exists u :: IsOwed(r.threads, u, id)
    {
      if e.writes.Some? { LoggedStep(s.log, e.writes.value, id); }
      if e.claim.Some? && e.claim.value.id == id {
        assert IsOwed(r.threads, tid, id);
      } else if !Logged(s.log, id) {
        var u :| IsOwed(s.threads, u, id);
        if !(u == tid && e.writes.Some?) { assert IsOwed(r.threads, u, id); }
      }
    }
  }

  // ----- The invariant over steps and runs -----

  lemma InvStep(s: Sys, tid: ThreadId, e: Effect)
    requires Inv(s) && Stepping(s, tid, e)
    ensures Inv(Stepped(s, tid, e))
  {
    hide LocksAgree, SessionsOk, IdsApart, ClosersApart, LiveHeld, RecordsKnown, NothingLost, Stepping, Stepped,
      Settling, Locking;
    StepSettles(s, tid, e);
    LocksAgreeKept(s, tid, e);
    ThreadsPlacedKept(s, tid, e);
    IdsApartKept(s, tid, e);
    SessionsOkKept(s, tid, e);
    ThreadsOkKept(s, tid, e);
    ClosersApartKept(s, tid, e);
    LiveHeldKept(s, tid, e);
    RecordsKnownKept(s, tid, e);
    NothingLostKept(s, tid, e);
  }

  /** A call starts one thread outside every lock; only `create_session` adds a session with it. */
  ghost predicate Calls(s: Sys, a: Action, r: Sys) {
    && r.nextId == s.nextId && r.claims == s.claims && r.log == s.log
    && (r == s || (
      && a.tid !in s.threads && r.threads.Keys == s.threads.Keys + {a.tid}
      && (forall u :: u in s.threads ==> r.threads[u] == s.threads[u])
      && var t := r.threads[a.tid];
      && t.sid in r.slots && !Holds(t) && !Executes(t) && !IsCloser(t) && Owes(t).None?
      && (t.Eval? ==> t.eval == EvalWait)
      && (IsPending(t) ==> t.sid !in s.slots && !r.slots[t.sid].session.attached)
      && r.slots.Keys == s.slots.Keys + {t.sid}
      && (forall z :: z in s.slots ==> r.slots[z] == s.slots[z])
      && (t.sid !in s.slots ==> IsNew(r.slots[t.sid]))))
  }

  predicate IsNew(slot: Slot) {
    slot.session.last.None? && slot.lock.NoLock? && slot.session.state == Starting
  }

  lemma CallEffect(s: Sys, a: Action, r: Sys)
    requires !a.Step? && Do(s, a) == Some(r)
    ensures Calls(s, a, r)
  {
    hide HasReusable;
  }

  lemma LocksAfterCall(s: Sys, a: Action, r: Sys)
    requires LocksAgree(s) && Calls(s, a, r) && !a.Step?
    ensures LocksAgree(r)
  {
    forall sid | sid in r.slots && r.slots[sid].lock.HeldBy?
      ensures HolderRuns(r, sid)
    {
      assert HolderRuns(s, sid);
    }
    forall tid | tid in r.threads && Holds(r.threads[tid])
      ensures HolderIs(r, r.threads[tid].sid, tid)
    {
      assert HolderIs(s, s.threads[tid].sid, tid);
    }
  }

  lemma LiveAfterCall(s: Sys, a: Action, r: Sys)
    requires LiveHeld(s) && Calls(s, a, r) && !a.Step?
    ensures LiveHeld(r)
  {
    forall sid | sid in r.slots && IsOpenLive(r.slots[sid].session)
      ensures RunsLast(r, sid)
    {
      assert RunsLast(s, sid);
    }
  }

  lemma PlacesAfterCall(s: Sys, a: Action, r: Sys)
    requires ThreadsPlaced(s) && Calls(s, a, r) && !a.Step?
    ensures ThreadsPlaced(r)
  {
  }

  lemma SessionsAfterCall(s: Sys, a: Action, r: Sys)
    requires SessionsOk(s) && Calls(s, a, r) && !a.Step?
    ensures SessionsOk(r)
  {
    hide Holds, Owes, Executes, IsCloser;
  }

  lemma IdsAfterCall(s: Sys, a: Action, r: Sys)
    requires IdsApart(s) && Calls(s, a, r) && !a.Step?
    ensures IdsApart(r)
  {
    hide Holds, Owes, Executes, IsCloser;
  }

  lemma ThreadsAfterCall(s: Sys, a: Action, r: Sys)
    requires ThreadsPlaced(s) && ThreadsPlaced(r) && ThreadsOk(s) && Calls(s, a, r) && !a.Step?
    ensures ThreadsOk(r)
  {
    hide ClosingFor, Holds, Owes;
    forall u | u in r.threads
      ensures ThreadOk(r.threads[u], r.slots[r.threads[u].sid].session, r.nextId)
    {
      if u in s.threads { assert ThreadOk(s.threads[u], s.slots[s.threads[u].sid].session, s.nextId); }
    }
  }

  lemma ClosersAfterCall(s: Sys, a: Action, r: Sys)
    requires ThreadsPlaced(s) && ThreadsPlaced(r) && ClosersApart(s) && Calls(s, a, r) && !a.Step?
    ensures ClosersApart(r)
  {
    hide Holds, Owes, IsPending;
  }

  lemma DebtsAfterCall(s: Sys, a: Action, r: Sys)
    requires Calls(s, a, r) && !a.Step?
    ensures RecordsOk(s) ==> RecordsOk(r)
    ensures RecordsKnown(s) ==> RecordsKnown(r)
    ensures NothingLost(s) ==> NothingLost(r)
  {
    hide Logged;
    assert forall u, id :: IsOwed(r.threads, u, id) <==> IsOwed(s.threads, u, id);
  }

  lemma InvAfterCall(s: Sys, a: Action, r: Sys)
    requires Inv(s) && !a.Step? && Do(s, a) == Some(r)
    ensures Inv(r)
  {
    hide Do, Calls, LocksAgree, SessionsOk, IdsApart, ClosersApart, LiveHeld, RecordsOk, RecordsKnown, NothingLost;
    CallEffect(s, a, r);
    LocksAfterCall(s, a, r);
    LiveAfterCall(s, a, r);
    PlacesAfterCall(s, a, r);
    SessionsAfterCall(s, a, r);
    IdsAfterCall(s, a, r);
    ThreadsAfterCall(s, a, r);
    ClosersAfterCall(s, a, r);
    DebtsAfterCall(s, a, r);
  }

  /** Every step of every thread keeps the invariant. */
  lemma InvKept(s: Sys, a: Action, r: Sys)
    requires Inv(s) && Do(s, a) == Some(r)
    ensures Inv(r)
  {
    hide Inv;
    if a.Step? {
      var e := EffectOf(s, a, r);
      InvStep(s, a.tid, e);
    } else {
      InvAfterCall(s, a, r);
    }
  }

  /** The effect of a thread's step, and what `LocalStep` says of it. */
  lemma EffectOf(s: Sys, a: Action, r: Sys) returns (e: Effect)
    requires Inv(s) && a.Step? && Do(s, a) == Some(r)
    ensures Stepping(s, a.tid, e) && r == Stepped(s, a.tid, e)
    ensures Take(a.tid, a.move, s.threads[a.tid], s.slots[s.threads[a.tid].sid], s.nextId) == Some(e)
  {
    hide Inv, Take, Before, After;
    var t, slot := s.threads[a.tid], s.slots[s.threads[a.tid].sid];
    e := Take(a.tid, a.move, t, slot, s.nextId).value;
    BeforeStep(s, a.tid);
    LocalStep(a.tid, a.move, t, slot, s.nextId, e);
  }
}
