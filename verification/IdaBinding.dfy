/** A session and the map of database ids agree whenever nobody is inside the session's operation lock. */
module IdaBinding {
  import opened Wrappers
  import opened IdaSessions

  /** What a thread does after the refresh it may be in. */
  function After(pc: Pc): Pc {
    match pc
    case Refresh(next) => After(next)
    case Listed(_, next) => After(next)
    case Unlisted(next) => After(next)
    case _ => pc
  }

  /** The thread is inside the operation lock. */
  predicate Holds(pc: Pc) {
    var p := After(pc);
    !(p.OpenLock? || p.CloseLock? || p.ToolLock? || p.Finished?)
  }

  predicate IsRefreshing(pc: Pc) {
    pc.Refresh? || pc.Listed? || pc.Unlisted?
  }

  /** Both places name the same database, or none. */
  predicate Agrees(slot: Slot) {
    slot.entry == slot.database
  }

  /** What a thread inside the lock may rely on. */
  predicate BindingOk(pc: Pc, slot: Slot) {
    match After(pc)
    case Opening => Agrees(slot) && slot.entry.None?
    case OpenFailed => Agrees(slot) && slot.entry.None?
    case BindEntry(_) => Agrees(slot) && slot.entry.None?
    case BindSession(database) => slot.entry == Some(database) && slot.database.None?
    case CloseRead(_, at) => Agrees(slot) && slot.entry == at
    case CloseLookup(_, previous, at) => Agrees(slot) && slot.entry == at && IsOpenStill(previous, slot)
    case CloseBegin(_, previous, database, at) =>
      Agrees(slot) && slot.entry == at == Some(database) && IsOpenStill(previous, slot)
    case Saving(previous, database, at) =>
      Agrees(slot) && slot.entry == at == Some(database) && previous != Closed && IsClosingOrLost(slot)
    case Restore(previous, database, at) =>
      Agrees(slot) && slot.entry == at == Some(database) && previous != Closed && IsClosingOrLost(slot)
    case RemoveEntry(database) => Agrees(slot) && slot.entry == Some(database) && IsClosingOrLost(slot)
    case Unbind => slot.entry.None? && slot.database.Some? && IsClosingOrLost(slot)
    case Calling(database) => Agrees(slot) && slot.entry == Some(database)
    case _ => Agrees(slot)
  }

  /** Neither was the session Closed when the close began, nor is it now. */
  predicate IsOpenStill(previous: SessionState, slot: Slot) {
    previous != Closed && slot.state != Closed
  }

  /** The close goes on; meanwhile a refresh may have found the database gone. */
  predicate IsClosingOrLost(slot: Slot) {
    slot.state == Closing || slot.state == Error
  }

  /** Refreshes are entered only where the code enters them. */
  predicate RefreshOk(pc: Pc) {
    IsRefreshing(pc) ==>
      var p := pc.next;
      p.Finished? || p.Release? || p.CloseRead? || p.CloseBegin? || p.ToolReady?
  }

  ghost predicate LocksOk(s: Sys) {
    && (forall tid :: tid in s.threads && s.threads[tid].Working? && Holds(s.threads[tid].pc) ==>
          s.threads[tid].sid in s.slots && s.slots[s.threads[tid].sid].lock == HeldBy(tid))
    && (forall sid :: sid in s.slots && s.slots[sid].lock.HeldBy? ==> HolderWorks(s, sid))
  }

  ghost predicate HolderWorks(s: Sys, sid: SessionId)
    requires sid in s.slots && s.slots[sid].lock.HeldBy?
  {
    var h := s.slots[sid].lock.holder;
    h in s.threads && s.threads[h].Working? && s.threads[h].sid == sid && Holds(s.threads[h].pc)
  }

  ghost predicate BindingsOk(s: Sys) {
    && (forall sid :: sid in s.slots && s.slots[sid].lock.Free? ==> Agrees(s.slots[sid]))
    && (forall tid :: tid in s.threads && s.threads[tid].Working? ==>
          s.threads[tid].sid in s.slots && RefreshOk(s.threads[tid].pc)
          && (Holds(s.threads[tid].pc) ==> BindingOk(s.threads[tid].pc, s.slots[s.threads[tid].sid])))
  }

  /** A session that is being opened has no database yet. */
  predicate OpenOk(pc: Pc, slot: Slot) {
    (pc.OpenLock? ==> slot.entry.None? && slot.database.None?) && (IsOpening(pc) ==> slot.state != Closed)
  }

  /** Only its own opener binds a session, and it does so once. */
  ghost predicate OpeningsOk(s: Sys) {
    && (forall t, u :: t in s.threads && u in s.threads && t != u && Opens(s.threads[t]) && Opens(s.threads[u]) ==>
          s.threads[t].sid != s.threads[u].sid)
    && (forall tid :: tid in s.threads && Opens(s.threads[tid]) ==>
          s.threads[tid].sid in s.slots && OpenOk(s.threads[tid].pc, s.slots[s.threads[tid].sid]))
  }

  predicate IsOpening(pc: Pc) {
    pc.OpenLock? || pc.Opening? || pc.BindEntry? || pc.BindSession? || pc.OpenFailed?
  }

  predicate Opens(t: Thread) {
    t.Working? && IsOpening(t.pc)
  }

  ghost predicate Inv(s: Sys) {
    LocksOk(s) && BindingsOk(s) && OpeningsOk(s)
  }

  // ----- One step on its own slot -----

  ghost predicate Before(tid: ThreadId, pc: Pc, slot: Slot) {
    && (Holds(pc) <==> slot.lock == HeldBy(tid))
    && RefreshOk(pc) && OpenOk(pc, slot)
    && (Holds(pc) ==> BindingOk(pc, slot))
    && (slot.lock.Free? ==> Agrees(slot))
  }

  /** The lock goes only from free to this thread or back, and outside it the binding does not change. */
  predicate LockStep(tid: ThreadId, pc: Pc, slot: Slot, slot': Slot) {
    && (slot'.lock != slot.lock ==>
          (slot.lock == HeldBy(tid) && slot'.lock.Free?) || (slot.lock.Free? && slot'.lock == HeldBy(tid)))
    && (!Holds(pc) ==> slot'.entry == slot.entry && slot'.database == slot.database)
    && (slot'.state == Closed ==> slot.state == Closed || pc.Unbind?)
    && (!Holds(pc) ==> slot'.state == slot.state || slot'.state == Error)
  }

  /** What one step leaves behind for its own thread and slot. */
  ghost predicate Kept(tid: ThreadId, pc: Pc, slot: Slot, slot': Slot, pc': Pc) {
    && Before(tid, pc', slot') && LockStep(tid, pc, slot, slot')
    && (IsOpening(pc') ==> IsOpening(pc))
    && (slot'.entry != slot.entry || slot'.database != slot.database ==> Rebinds(pc))
  }

  lemma RefreshKeeps(tid: ThreadId, move: Move, pc: Pc, slot: Slot, slot': Slot, pc': Pc)
    requires IsRefreshing(pc) && Before(tid, pc, slot) && Take(tid, move, pc, slot) == Some((slot', pc'))
    ensures Kept(tid, pc, slot, slot', pc')
  {
    assert After(pc') == After(pc);
    assert pc.OpenLock? == false && !pc'.OpenLock?;
  }

  lemma WorkKeeps(tid: ThreadId, move: Move, pc: Pc, slot: Slot, slot': Slot, pc': Pc)
    requires !IsRefreshing(pc) && Before(tid, pc, slot) && Take(tid, move, pc, slot) == Some((slot', pc'))
    ensures Kept(tid, pc, slot, slot', pc')
  {
    assert After(pc) == pc;
    assert After(pc') == if pc'.Refresh? then pc'.next else pc';
  }

  /** The steps that bind or unbind a session. */
  predicate Rebinds(pc: Pc) {
    pc.BindEntry? || pc.BindSession? || pc.RemoveEntry? || pc.Unbind?
  }

  // ----- All steps -----

  lemma BeforeStep(s: Sys, tid: ThreadId)
    requires Inv(s) && tid in s.threads && s.threads[tid].Working?
    ensures s.threads[tid].sid in s.slots && Before(tid, s.threads[tid].pc, s.slots[s.threads[tid].sid])
  {
    var slot := s.slots[s.threads[tid].sid];
    assert slot.lock == HeldBy(tid) ==> HolderWorks(s, s.threads[tid].sid);
    assert s.threads[tid].pc.OpenLock? ==> Opens(s.threads[tid]);
  }

  /** What `Step` makes of the whole state. */
  ghost predicate Steps(s: Sys, tid: ThreadId, r: Sys, slot: Slot, pc: Pc) {
    && tid in s.threads && s.threads[tid].Working? && s.threads[tid].sid in s.slots
    && Kept(tid, s.threads[tid].pc, s.slots[s.threads[tid].sid], slot, pc)
    && IsBound(s.threads[tid].pc, s.slots[s.threads[tid].sid])
    && r.slots == s.slots[s.threads[tid].sid := slot]
    && r.threads == (if pc == Finished then s.threads - {tid} else s.threads[tid := Working(s.threads[tid].sid, pc)])
  }

  lemma StepIs(s: Sys, tid: ThreadId, move: Move, r: Sys) returns (slot: Slot, pc: Pc)
    requires Inv(s) && Do(s, Step(tid, move)) == Some(r)
    ensures Steps(s, tid, r, slot, pc)
    ensures Take(tid, move, s.threads[tid].pc, s.slots[s.threads[tid].sid]) == Some((slot, pc))
  {
    BeforeStep(s, tid);
    hide Inv, Before, Kept, Take;
    var t := s.threads[tid];
    var taken := Take(tid, move, t.pc, s.slots[t.sid]).value;
    slot, pc := taken.0, taken.1;
    if IsRefreshing(t.pc) {
      RefreshKeeps(tid, move, t.pc, s.slots[t.sid], slot, pc);
    } else {
      WorkKeeps(tid, move, t.pc, s.slots[t.sid], slot, pc);
    }
    RemoverHasEntry(tid, t.pc, s.slots[t.sid]);
  }

  /** Only a bound session is unbound. */
  predicate IsBound(pc: Pc, slot: Slot) {
    (pc.RemoveEntry? ==> slot.entry.Some?) && (pc.Unbind? ==> slot.database.Some?)
  }

  lemma RemoverHasEntry(tid: ThreadId, pc: Pc, slot: Slot)
    requires Before(tid, pc, slot)
    ensures IsBound(pc, slot)
  {
  }

  lemma LocksKept(s: Sys, tid: ThreadId, r: Sys, slot: Slot, pc: Pc)
    requires LocksOk(s) && Steps(s, tid, r, slot, pc)
    ensures LocksOk(r)
  {
    assert !Holds(Finished);
    hide Holds, RefreshOk, OpenOk, BindingOk;
    var sid := s.threads[tid].sid;
    forall z | z in r.slots && r.slots[z].lock.HeldBy?
      ensures HolderWorks(r, z)
    {
      if z != sid || slot.lock == s.slots[sid].lock {
        assert HolderWorks(s, z);
      }
    }
  }

  lemma BindingsKept(s: Sys, tid: ThreadId, r: Sys, slot: Slot, pc: Pc)
    requires LocksOk(s) && BindingsOk(s) && Steps(s, tid, r, slot, pc)
    ensures BindingsOk(r)
  {
    assert s.threads[tid].pc.Unbind? ==> Holds(s.threads[tid].pc);
    hide Holds, RefreshOk, OpenOk;
    var sid := s.threads[tid].sid;
    forall u | u in r.threads && r.threads[u].Working?
      ensures r.threads[u].sid in r.slots && RefreshOk(r.threads[u].pc)
      ensures Holds(r.threads[u].pc) ==> BindingOk(r.threads[u].pc, r.slots[r.threads[u].sid])
    {
      if u != tid && s.threads[u].sid == sid && Holds(s.threads[u].pc) {
        assert !Holds(s.threads[tid].pc);
        SameBinding(s.threads[u].pc, s.slots[sid], slot);
      }
    }
  }

  /** What holds of a binding goes on if the session's state stays or becomes Error. */
  lemma SameBinding(pc: Pc, a: Slot, b: Slot)
    requires a.entry == b.entry && a.database == b.database && (b.state == a.state || b.state == Error)
    requires BindingOk(pc, a)
    ensures BindingOk(pc, b)
  {
  }

  lemma OpeningsKept(s: Sys, tid: ThreadId, r: Sys, slot: Slot, pc: Pc)
    requires LocksOk(s) && OpeningsOk(s) && Steps(s, tid, r, slot, pc)
    ensures OpeningsOk(r)
  {
    hide Holds, RefreshOk, BindingOk, LockStep;
    var sid := s.threads[tid].sid;
    forall u | u in r.threads && Opens(r.threads[u])
      ensures r.threads[u].sid in r.slots && OpenOk(r.threads[u].pc, r.slots[r.threads[u].sid])
    {
      if u != tid && s.threads[u].sid == sid {
        assert Opens(s.threads[u]);
        NotReboundWhileOpening(s, tid, u, r, slot, pc);
      }
    }
  }

  lemma RebindersHold(pc: Pc)
    ensures Rebinds(pc) ==> Holds(pc)
  {
  }

  lemma OpenersHold(pc: Pc)
    requires IsOpening(pc)
    ensures pc.OpenLock? || Holds(pc)
  {
  }

  /** While a session waits to be opened, another thread's step leaves it unbound. */
  lemma NotReboundWhileOpening(s: Sys, tid: ThreadId, u: ThreadId, r: Sys, slot: Slot, pc: Pc)
    requires LocksOk(s) && OpeningsOk(s) && Steps(s, tid, r, slot, pc)
    requires u in s.threads && u != tid && Opens(s.threads[u]) && s.threads[u].sid == s.threads[tid].sid
    ensures OpenOk(s.threads[u].pc, slot)
  {
    assert !Opens(s.threads[tid]);
    assert OpenOk(s.threads[u].pc, s.slots[s.threads[u].sid]);
    RebindersHold(s.threads[tid].pc);
    OpenersHold(s.threads[u].pc);
    hide Holds, RefreshOk;
  }

  /** A call adds a thread outside every lock, and at most a fresh, unbound session for it. */
  ghost predicate Calls(s: Sys, r: Sys, tid: ThreadId) {
    && (forall u :: u != tid ==>
          (u in r.threads <==> u in s.threads) && (u in s.threads ==> r.threads[u] == s.threads[u]))
    && (tid in s.threads ==> s.threads[tid].Creating?)
    && (forall z :: z in s.slots ==> z in r.slots && r.slots[z] == s.slots[z])
    && (tid in r.threads && r.threads[tid].Working? ==>
          var t := r.threads[tid];
          && t.sid in r.slots && !Holds(t.pc) && RefreshOk(t.pc)
          && (IsOpening(t.pc) ==> t.sid !in s.slots && OpenOk(t.pc, r.slots[t.sid])))
    && (forall z :: z in r.slots && z !in s.slots ==> IsUnbound(r.slots[z]))
  }

  predicate IsUnbound(slot: Slot) {
    slot.entry.None? && slot.database.None? && slot.lock.Free?
  }

  lemma CallIs(s: Sys, a: Action, r: Sys)
    requires !a.Step? && Do(s, a) == Some(r)
    ensures Calls(s, r, a.tid)
  {
    hide HasReusable;
  }

  lemma CallKeepsLocks(s: Sys, r: Sys, tid: ThreadId)
    requires LocksOk(s) && Calls(s, r, tid)
    ensures LocksOk(r)
  {
    hide Holds, RefreshOk, OpenOk;
    forall z | z in r.slots && r.slots[z].lock.HeldBy?
      ensures HolderWorks(r, z)
    {
      assert HolderWorks(s, z);
    }
  }

  lemma CallKeepsBindings(s: Sys, r: Sys, tid: ThreadId)
    requires BindingsOk(s) && Calls(s, r, tid)
    ensures BindingsOk(r)
  {
    hide Holds, RefreshOk, OpenOk, BindingOk;
  }

  lemma CallKeepsOpenings(s: Sys, r: Sys, tid: ThreadId)
    requires OpeningsOk(s) && Calls(s, r, tid)
    ensures OpeningsOk(r)
  {
    hide Holds, RefreshOk, OpenOk;
  }

  lemma CallsKeepInv(s: Sys, a: Action, r: Sys)
    requires Inv(s) && !a.Step? && Do(s, a) == Some(r)
    ensures Inv(r)
  {
    CallIs(s, a, r);
    hide Do, LocksOk, BindingsOk, OpeningsOk, Calls;
    CallKeepsLocks(s, r, a.tid);
    CallKeepsBindings(s, r, a.tid);
    CallKeepsOpenings(s, r, a.tid);
  }

  lemma InvKept(s: Sys, a: Action, r: Sys)
    requires Inv(s) && Do(s, a) == Some(r)
    ensures Inv(r)
  {
    if a.Step? {
      var slot, pc := StepIs(s, a.tid, a.move, r);
      hide Do, LocksOk, BindingsOk, OpeningsOk, Steps;
      LocksKept(s, a.tid, r, slot, pc);
      BindingsKept(s, a.tid, r, slot, pc);
      OpeningsKept(s, a.tid, r, slot, pc);
    } else {
      CallsKeepInv(s, a, r);
    }
  }

  lemma InvInitially()
    ensures Inv(INITIAL)
  {
  }

  // ----- Over runs -----

  ghost function Exec(s: Sys, acts: seq<Action>): Option<Sys>
    decreases |acts|
  {
    if acts == [] then Some(s)
    else if Do(s, acts[0]).None? then None
    else Exec(Do(s, acts[0]).value, acts[1..])
  }

  lemma {:induction false} InvOfRun(s: Sys, acts: seq<Action>, r: Sys)
    requires Inv(s) && Exec(s, acts) == Some(r)
    ensures Inv(r)
    decreases |acts|
  {
    hide Do, Inv;
    if acts != [] {
      InvKept(s, acts[0], Do(s, acts[0]).value);
      InvOfRun(Do(s, acts[0]).value, acts[1..], r);
    }
  }

  lemma Reached(acts: seq<Action>, r: Sys)
    requires Exec(INITIAL, acts) == Some(r)
    ensures Inv(r)
  {
    InvInitially();
    hide Do, Inv;
    InvOfRun(INITIAL, acts, r);
  }

  /** In every run, a session whose operation lock is free is bound in both places alike, or in neither. */
  lemma FreeSessionsAgree(acts: seq<Action>, r: Sys, sid: SessionId)
    requires Exec(INITIAL, acts) == Some(r) && sid in r.slots && r.slots[sid].lock.Free?
    ensures r.slots[sid].entry == r.slots[sid].database
  {
    hide Do;
    Reached(acts, r);
  }

  /** In every run, an upstream call is made inside the session's lock, with the database bound to the session. */
  lemma UpstreamCallsAreBound(acts: seq<Action>, r: Sys, tid: ThreadId)
    requires Exec(INITIAL, acts) == Some(r) && tid in r.threads && UpstreamOf(tid, r.threads[tid]).Some?
    ensures var call := UpstreamOf(tid, r.threads[tid]).value;
      && call.sid in r.slots && r.slots[call.sid].lock == HeldBy(tid)
      && r.slots[call.sid].entry == r.slots[call.sid].database == Some(call.database)
  {
    hide Do;
    Reached(acts, r);
    BeforeStep(r, tid);
  }

  /** In every run, only the thread inside the lock changes a binding, and only when it binds or unbinds the session. */
  lemma OnlyHolderRebinds(acts: seq<Action>, s: Sys, a: Action, r: Sys, sid: SessionId)
    requires Exec(INITIAL, acts) == Some(s) && Do(s, a) == Some(r) && sid in s.slots
    ensures sid in r.slots
    ensures r.slots[sid].entry != s.slots[sid].entry || r.slots[sid].database != s.slots[sid].database ==>
      a.Step? && s.slots[sid].lock == HeldBy(a.tid) && s.threads[a.tid] == Working(sid, s.threads[a.tid].pc)
      && Rebinds(s.threads[a.tid].pc)
  {
    Reached(acts, s);
    if a.Step? {
      var slot, pc := StepIs(s, a.tid, a.move, r);
      BeforeStep(s, a.tid);
    } else {
      CallIs(s, a, r);
    }
  }

  /**
   * In every run, a close whose save fails ends with the binding the session had when its lock was taken, and with the
   * state it had before the close.
   */
  lemma FailedSaveKeepsBinding(acts: seq<Action>, s: Sys, tid: ThreadId, move: Move, r: Sys)
    requires Exec(INITIAL, acts) == Some(s) && tid in s.threads && s.threads[tid].Working? && s.threads[tid].pc.Restore?
    requires Do(s, Step(tid, move)) == Some(r)
    ensures var sid, pc := s.threads[tid].sid, s.threads[tid].pc;
      && sid in r.slots && r.slots[sid].state == pc.previous
      && r.slots[sid].entry == r.slots[sid].database == pc.at == Some(pc.database)
  {
    Reached(acts, s);
    BeforeStep(s, tid);
  }

  /**
   * So does a close whose save output cannot be written, but the session is left as it is: Closing, or
   * Error if a refresh has lost the database meanwhile.
   */
  lemma UnwrittenOutputKeepsBinding(acts: seq<Action>, s: Sys, tid: ThreadId, r: Sys)
    requires Exec(INITIAL, acts) == Some(s) && tid in s.threads && s.threads[tid].Working? && s.threads[tid].pc.Saving?
    requires Do(s, Step(tid, Save(OutputNotWritten))) == Some(r)
    ensures var sid, pc := s.threads[tid].sid, s.threads[tid].pc;
      && sid in r.slots && r.slots[sid].state == s.slots[sid].state
      && (r.slots[sid].state == Closing || r.slots[sid].state == Error)
      && r.slots[sid].entry == r.slots[sid].database == pc.at == Some(pc.database)
  {
    Reached(acts, s);
    BeforeStep(s, tid);
  }

  /** A close that succeeds leaves the session unbound in both places. */
  lemma SuccessfulCloseUnbinds(acts: seq<Action>, s: Sys, tid: ThreadId, move: Move, r: Sys)
    requires Exec(INITIAL, acts) == Some(s) && tid in s.threads && s.threads[tid].Working? && s.threads[tid].pc.Unbind?
    requires Do(s, Step(tid, move)) == Some(r)
    ensures var sid := s.threads[tid].sid;
      sid in r.slots && r.slots[sid].entry == r.slots[sid].database == None && r.slots[sid].state == Closed
  {
    Reached(acts, s);
    BeforeStep(s, tid);
  }

  lemma LeavesClosed(tid: ThreadId, move: Move, pc: Pc, slot: Slot, slot': Slot, pc': Pc)
    requires Before(tid, pc, slot) && slot.state == Closed && Take(tid, move, pc, slot) == Some((slot', pc'))
    ensures slot'.state != Closed <==> pc.Unlisted?
  {
  }

  /** In every reachable state, a session leaves Closed exactly when a late health refresh marks it Error. */
  lemma OnlyRefreshLeavesClosed(acts: seq<Action>, s: Sys, a: Action, r: Sys, sid: SessionId)
    requires Exec(INITIAL, acts) == Some(s) && Do(s, a) == Some(r) && sid in s.slots && s.slots[sid].state == Closed
    ensures sid in r.slots
    ensures r.slots[sid].state != Closed <==> a.Step? && s.threads[a.tid].sid == sid && s.threads[a.tid].pc.Unlisted?
  {
    hide Exec, Inv, Before, Take;
    Reached(acts, s);
    if a.Step? {
      BeforeStep(s, a.tid);
      if s.threads[a.tid].sid == sid {
        var taken := Take(a.tid, a.move, s.threads[a.tid].pc, s.slots[sid]).value;
        LeavesClosed(a.tid, a.move, s.threads[a.tid].pc, s.slots[sid], taken.0, taken.1);
      }
    } else {
      CallIs(s, a, r);
    }
  }
}
