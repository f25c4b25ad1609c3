/** When two reusable IDA sessions may share a target. */
module IdaTargets {
  import opened Wrappers
  import opened IdaSessions
  import opened IdaBinding

  // ----- What creating and opening a session keep -----

  /** The thread has come for the create lock and waits for it. */
  predicate WaitsToCreate(t: Thread) {
    t.Creating? && t.create == WantCreateLock
  }

  /** Who looks for a reusable session or inserts its own holds the create lock; who is gone does not. */
  ghost predicate CreatorsHold(s: Sys) {
    && (forall tid :: tid in s.threads && s.threads[tid].Creating? && !WaitsToCreate(s.threads[tid]) ==>
          s.createLock == Some(tid))
    && (s.createLock.Some? ==> s.createLock.value in s.threads && !WaitsToCreate(s.threads[s.createLock.value]))
  }

  predicate HasListed(t: Thread) {
    t.Working? && (t.pc.Listed? || t.pc.Unlisted?)
  }

  /** A session is Starting until its opener has bound it, and no refresh has looked at its database before. */
  ghost predicate OpeningsStart(s: Sys) {
    && (forall tid :: tid in s.threads && Opens(s.threads[tid]) ==>
          s.threads[tid].sid in s.slots && s.slots[s.threads[tid].sid].state == Starting)
    && (forall t, u :: t in s.threads && u in s.threads && HasListed(s.threads[t]) && Opens(s.threads[u]) ==>
          s.threads[t].sid != s.threads[u].sid)
  }

  ghost predicate TargetInv(s: Sys) {
    Inv(s) && CreatorsHold(s) && OpeningsStart(s)
  }

  lemma TargetInvInitially()
    ensures TargetInv(INITIAL)
  {
    InvInitially();
  }

  lemma CreatorsHoldKept(s: Sys, a: Action, r: Sys)
    requires CreatorsHold(s) && Do(s, a) == Some(r)
    ensures CreatorsHold(r)
  {
    hide HasReusable, Take;
  }

  lemma OpeningsAfterCall(s: Sys, a: Action, r: Sys)
    requires BindingsOk(s) && OpeningsStart(s) && !a.Step? && Do(s, a) == Some(r)
    ensures OpeningsStart(r)
  {
    hide HasReusable, Holds, RefreshOk, BindingOk;
  }

  /** A step of a thread on a session that another thread is opening. */
  lemma OthersWait(tid: ThreadId, move: Move, pc: Pc, slot: Slot, slot': Slot, pc': Pc)
    requires !IsOpening(pc) && !pc.Listed? && !pc.Unlisted? && RefreshOk(pc) && (Holds(pc) ==> BindingOk(pc, slot))
    requires slot.database.None? && slot.state == Starting && Take(tid, move, pc, slot) == Some((slot', pc'))
    ensures slot'.state == Starting && !pc'.Listed? && !pc'.Unlisted?
  {
  }

  lemma OpenersStep(tid: ThreadId, move: Move, pc: Pc, slot: Slot, slot': Slot, pc': Pc)
    requires IsOpening(pc) && Take(tid, move, pc, slot) == Some((slot', pc')) && slot.state == Starting
    ensures IsOpening(pc') ==> slot'.state == Starting
    ensures !pc'.Listed? && !pc'.Unlisted?
  {
  }

  /** While a session is being opened, nobody else can have looked at a database of it. */
  lemma OpeningIsUnbound(s: Sys, u: ThreadId, tid: ThreadId)
    requires Inv(s) && u in s.threads && Opens(s.threads[u]) && tid in s.threads && tid != u
    requires s.threads[tid].Working? && s.threads[tid].sid == s.threads[u].sid
    ensures s.threads[u].sid in s.slots && !Opens(s.threads[tid]) && RefreshOk(s.threads[tid].pc)
    ensures s.slots[s.threads[u].sid].database.None?
    ensures Holds(s.threads[tid].pc) ==> BindingOk(s.threads[tid].pc, s.slots[s.threads[u].sid])
  {
    OpenersHold(s.threads[u].pc);
  }

  /** A step of the opener or of another thread leaves a session that is being opened Starting and unlooked at. */
  lemma StaysStarting(s: Sys, tid: ThreadId, move: Move, slot: Slot, pc: Pc, u: ThreadId)
    requires Inv(s) && OpeningsStart(s) && tid in s.threads && s.threads[tid].Working? && s.threads[tid].sid in s.slots
    requires Take(tid, move, s.threads[tid].pc, s.slots[s.threads[tid].sid]) == Some((slot, pc))
    requires u in s.threads && Opens(s.threads[u]) && s.threads[u].sid == s.threads[tid].sid
    ensures !pc.Listed? && !pc.Unlisted?
    ensures u != tid || IsOpening(pc) ==> slot.state == Starting
  {
    hide Inv, Take, BindingOk, Holds;
    if u == tid {
      OpenersStep(tid, move, s.threads[tid].pc, s.slots[s.threads[tid].sid], slot, pc);
    } else {
      assert !HasListed(s.threads[tid]);
      OpeningIsUnbound(s, u, tid);
      OthersWait(tid, move, s.threads[tid].pc, s.slots[s.threads[tid].sid], slot, pc);
    }
  }

  lemma OpeningsAfterStep(s: Sys, tid: ThreadId, move: Move, r: Sys)
    requires Inv(s) && OpeningsStart(s) && Do(s, Step(tid, move)) == Some(r)
    ensures OpeningsStart(r)
  {
    hide Do, Inv, Take, Kept, IsBound, IsOpening, Holds, RefreshOk, BindingOk;
    var slot, pc := StepIs(s, tid, move, r);
    StaysOpening(tid, s.threads[tid].pc, s.slots[s.threads[tid].sid], slot, pc);
    forall u | u in s.threads && Opens(s.threads[u]) && s.threads[u].sid == s.threads[tid].sid
      ensures !pc.Listed? && !pc.Unlisted?
      ensures u != tid || IsOpening(pc) ==> slot.state == Starting
    {
      StaysStarting(s, tid, move, slot, pc, u);
    }
  }

  lemma StaysOpening(tid: ThreadId, pc: Pc, slot: Slot, slot': Slot, pc': Pc)
    requires Kept(tid, pc, slot, slot', pc')
    ensures IsOpening(pc') ==> IsOpening(pc)
  {
  }

  lemma TargetInvKept(s: Sys, a: Action, r: Sys)
    requires TargetInv(s) && Do(s, a) == Some(r)
    ensures TargetInv(r)
  {
    InvKept(s, a, r);
    CreatorsHoldKept(s, a, r);
    assert BindingsOk(s);
    hide Do, Inv, CreatorsHold, OpeningsStart, BindingsOk;
    if a.Step? {
      OpeningsAfterStep(s, a.tid, a.move, r);
    } else {
      OpeningsAfterCall(s, a, r);
    }
  }

  // ----- Targets -----

  predicate Rivals(x: Slot, y: Slot) {
    x.target == y.target && IsReusable(x.state) && IsReusable(y.state)
  }

  /** No two reusable sessions have the same target. */
  ghost predicate UniqueReusable(s: Sys) {
    forall a, b :: a in s.slots && b in s.slots && a != b ==> !Rivals(s.slots[a], s.slots[b])
  }

  /** A thread is about to insert a session for the target, having found no reusable one. */
  predicate Inserts(t: Thread, target: Target) {
    t == Creating(target, InsertSession)
  }

  /** Reusable sessions have different targets, and what a creator has found is still so. */
  ghost predicate Apart(s: Sys) {
    && UniqueReusable(s)
    && forall tid, target :: tid in s.threads && Inserts(s.threads[tid], target) ==> !HasReusable(s, target)
  }

  /** Another reusable session has the target of `sid`, or a creator is about to insert one. */
  ghost predicate Taken(s: Sys, sid: SessionId)
    requires sid in s.slots
  {
    || (exists b :: b in s.slots && b != sid && Rivals(s.slots[b], s.slots[sid].(state := Ready)))
    || (exists tid :: tid in s.threads && Inserts(s.threads[tid], s.slots[sid].target))
  }

  /** The step makes the session reusable again after its save has failed. */
  predicate Restores(s: Sys, a: Action, sid: SessionId) {
    && a.Step? && a.tid in s.threads && s.threads[a.tid].Working? && s.threads[a.tid].sid == sid && sid in s.slots
    && s.threads[a.tid].pc.Restore? && IsReusable(s.threads[a.tid].pc.previous)
  }

  lemma ReusableAfter(tid: ThreadId, move: Move, pc: Pc, slot: Slot, slot': Slot, pc': Pc)
    requires Take(tid, move, pc, slot) == Some((slot', pc')) && (IsOpening(pc) ==> slot.state == Starting)
    ensures slot'.target == slot.target
    ensures if pc.Restore? && IsReusable(pc.previous) then IsReusable(slot'.state)
      else IsReusable(slot'.state) ==> IsReusable(slot.state)
  {
  }

  /** What a step does to one session's state and target. */
  lemma SlotsAfter(s: Sys, a: Action, r: Sys, z: SessionId)
    requires OpeningsStart(s) && Do(s, a) == Some(r) && z in s.slots
    ensures z in r.slots && r.slots[z].target == s.slots[z].target
    ensures Restores(s, a, z) ==> IsReusable(r.slots[z].state)
    ensures !Restores(s, a, z) && IsReusable(r.slots[z].state) ==> IsReusable(s.slots[z].state)
  {
    hide Take, HasReusable;
    if a.Step? && s.threads[a.tid].sid == z {
      var pc := s.threads[a.tid].pc;
      assert IsOpening(pc) ==> Opens(s.threads[a.tid]);
      var taken := Take(a.tid, a.move, pc, s.slots[z]).value;
      ReusableAfter(a.tid, a.move, pc, s.slots[z], taken.0, taken.1);
    }
  }

  /** A session is new only if a creator inserts it, alone. */
  lemma NewSlot(s: Sys, a: Action, r: Sys, z: SessionId)
    requires Do(s, a) == Some(r) && z in r.slots && z !in s.slots
    ensures a.CreateStep? && z == a.sid && a.tid in s.threads && Inserts(s.threads[a.tid], r.slots[z].target)
  {
    hide Take, HasReusable;
  }

  /** A creator is about to insert only after it was, or has just found no reusable session. */
  lemma InsertersAfter(s: Sys, a: Action, r: Sys, tid: ThreadId, target: Target)
    requires CreatorsHold(s) && Do(s, a) == Some(r) && tid in r.threads && Inserts(r.threads[tid], target)
    ensures if tid in s.threads && Inserts(s.threads[tid], target) then r.slots.Keys == s.slots.Keys || a.tid == tid
      else r.slots == s.slots && !HasReusable(s, target)
    ensures tid in s.threads && Inserts(s.threads[tid], target) ==> forall z :: z in r.slots ==> z in s.slots
  {
    hide Take, HasReusable;
  }

  lemma InsertersStay(s: Sys, a: Action, r: Sys, tid: ThreadId, target: Target)
    requires Do(s, a) == Some(r) && a.Step? && tid in s.threads && Inserts(s.threads[tid], target)
    ensures tid in r.threads && Inserts(r.threads[tid], target)
  {
    hide Take;
  }

  /**
   * In every state of every run in which targets are apart: a step keeps them apart if and only if it does
   * not restore, after a failed save, a session whose target has been taken meanwhile.
   */
  lemma ApartStep(s: Sys, a: Action, r: Sys)
    requires TargetInv(s) && Apart(s) && Do(s, a) == Some(r)
    ensures Apart(r) <==> !(exists sid :: Restores(s, a, sid) && Taken(s, sid))
  {
    if sid :| Restores(s, a, sid) && Taken(s, sid) {
      RestoringClashes(s, a, r, sid);
    } else {
      hide Do, TargetInv;
      forall x, y | x in r.slots && y in r.slots && x != y
        ensures !Rivals(r.slots[x], r.slots[y])
      {
        if Rivals(r.slots[x], r.slots[y]) {
          RivalsComeFromRestoring(s, a, r, x, y);
        }
      }
      forall tid, target | tid in r.threads && Inserts(r.threads[tid], target)
        ensures !HasReusable(r, target)
      {
        InsertersStayRight(s, a, r, tid, target);
      }
    }
  }

  lemma RestoringClashes(s: Sys, a: Action, r: Sys, sid: SessionId)
    requires TargetInv(s) && Apart(s) && Do(s, a) == Some(r) && Restores(s, a, sid) && Taken(s, sid)
    ensures !Apart(r)
  {
    assert OpeningsStart(s);
    hide Do, TargetInv;
    SlotsAfter(s, a, r, sid);
    if tid :| tid in s.threads && Inserts(s.threads[tid], s.slots[sid].target) {
      InsertersStay(s, a, r, tid, s.slots[sid].target);
      assert HasReusable(r, s.slots[sid].target);
    } else {
      var b :| b in s.slots && b != sid && Rivals(s.slots[b], s.slots[sid].(state := Ready));
      RestoreLeavesOthers(s, a, r, sid, b);
      assert Rivals(r.slots[b], r.slots[sid]);
    }
  }

  lemma RestoreLeavesOthers(s: Sys, a: Action, r: Sys, sid: SessionId, b: SessionId)
    requires Do(s, a) == Some(r) && Restores(s, a, sid) && b in s.slots && b != sid
    ensures b in r.slots && r.slots[b] == s.slots[b]
  {
    hide Take;
  }

  lemma IsFound(s: Sys, sid: SessionId, target: Target)
    requires sid in s.slots && s.slots[sid].target == target && IsReusable(s.slots[sid].state)
    ensures HasReusable(s, target)
  {
  }

  lemma RivalsComeFromRestoring(s: Sys, a: Action, r: Sys, x: SessionId, y: SessionId)
    requires TargetInv(s) && Apart(s) && Do(s, a) == Some(r)
    requires x in r.slots && y in r.slots && x != y && Rivals(r.slots[x], r.slots[y])
    ensures exists sid :: Restores(s, a, sid) && Taken(s, sid)
  {
    assert OpeningsStart(s);
    hide Do, TargetInv;
    if x in s.slots { SlotsAfter(s, a, r, x); } else { NewSlot(s, a, r, x); }
    if y in s.slots { SlotsAfter(s, a, r, y); } else { NewSlot(s, a, r, y); }
    if x in s.slots && y in s.slots {
      assert !Rivals(s.slots[x], s.slots[y]);
      assert (Restores(s, a, x) && Taken(s, x)) || (Restores(s, a, y) && Taken(s, y));
    } else if x in s.slots {
      IsFound(s, x, r.slots[y].target);
    } else if y in s.slots {
      IsFound(s, y, r.slots[x].target);
    }
  }

  lemma InsertersStayRight(s: Sys, a: Action, r: Sys, tid: ThreadId, target: Target)
    requires TargetInv(s) && Apart(s) && Do(s, a) == Some(r) && tid in r.threads && Inserts(r.threads[tid], target)
    requires !exists sid :: Restores(s, a, sid) && Taken(s, sid)
    ensures !HasReusable(r, target)
  {
    assert CreatorsHold(s) && OpeningsStart(s);
    hide Do, TargetInv;
    InsertersAfter(s, a, r, tid, target);
    if HasReusable(r, target) {
      var z :| z in r.slots && r.slots[z].target == target && IsReusable(r.slots[z].state);
      if tid in s.threads && Inserts(s.threads[tid], target) {
        SlotsAfter(s, a, r, z);
        if !Restores(s, a, z) {
          IsFound(s, z, target);
        }
      } else {
        IsFound(s, z, target);
      }
    }
  }

  /** No step of the run restores a session whose target has been taken. */
  ghost predicate NothingClashes(s: Sys, acts: seq<Action>)
    decreases |acts|
  {
    acts == [] || ((forall sid :: !(Restores(s, acts[0], sid) && Taken(s, sid)))
                   && (Do(s, acts[0]).Some? ==> NothingClashes(Do(s, acts[0]).value, acts[1..])))
  }

  lemma {:induction false} ApartOfRun(s: Sys, acts: seq<Action>, r: Sys)
    requires TargetInv(s) && Apart(s) && Exec(s, acts) == Some(r) && NothingClashes(s, acts)
    ensures Apart(r)
    decreases |acts|
  {
    hide Do, TargetInv, Apart, Taken;
    if acts != [] {
      var n := Do(s, acts[0]).value;
      TargetInvKept(s, acts[0], n);
      ApartStep(s, acts[0], n);
      ApartOfRun(n, acts[1..], r);
    }
  }

  /** In every run without such a step, whatever all threads do, no two reusable sessions share a target. */
  lemma AtMostOneReusable(acts: seq<Action>, r: Sys)
    requires Exec(INITIAL, acts) == Some(r) && NothingClashes(INITIAL, acts)
    ensures UniqueReusable(r)
  {
    TargetInvInitially();
    hide Do, Exec, TargetInv, NothingClashes;
    ApartOfRun(INITIAL, acts, r);
  }

  lemma {:induction false} TargetInvOfRun(s: Sys, acts: seq<Action>, r: Sys)
    requires TargetInv(s) && Exec(s, acts) == Some(r)
    ensures TargetInv(r)
    decreases |acts|
  {
    hide Do, TargetInv;
    if acts != [] {
      TargetInvKept(s, acts[0], Do(s, acts[0]).value);
      TargetInvOfRun(Do(s, acts[0]).value, acts[1..], r);
    }
  }

  /**
   * In every run, threads that look for a reusable session or insert one hold the create lock, so there is one at a
   * time; and no thread that has returned holds it.
   */
  lemma CreateLockIsReleased(acts: seq<Action>, r: Sys, tid: ThreadId)
    requires Exec(INITIAL, acts) == Some(r)
    ensures tid in r.threads && r.threads[tid].Creating? && !WaitsToCreate(r.threads[tid]) ==> r.createLock == Some(tid)
    ensures r.createLock == Some(tid) ==> tid in r.threads && !WaitsToCreate(r.threads[tid])
  {
    TargetInvInitially();
    hide Do, Exec, Inv, OpeningsStart;
    TargetInvOfRun(INITIAL, acts, r);
  }
}
