/** When a running supervisor process is forgotten, so that nothing can ask or kill it any more. */
module MultiplexerOrphans {
  import opened Wrappers
  import opened SupervisorMultiplexer
  import opened MultiplexerRouting
  import opened MultiplexerHistory
  import opened MultiplexerStarts

  /** The call is making this process the current one. */
  predicate IsSetting(pc: Pc, inc: Incarnation) {
    pc == SetChild(inc) || pc == SetPending(inc) || pc == SetState(inc)
  }

  /** Or it is about to kill it. */
  predicate HasInHand(pc: Pc, inc: Incarnation) {
    IsSetting(pc, inc) || pc == Kill(KillChild(inc))
  }

  ghost predicate IsBeingSet(s: Sys, inc: Incarnation) {
    exists c :: c in s.calls && IsSetting(s.calls[c], inc)
  }

  ghost predicate IsInHand(s: Sys, inc: Incarnation) {
    exists c :: c in s.calls && HasInHand(s.calls[c], inc)
  }

  /** The process is current, or the next kill takes it, or a call has it in hand. */
  ghost predicate IsKnown(s: Sys, inc: Incarnation) {
    s.handles.process == Some(inc) || s.handles.activeChild == Some(inc) || IsInHand(s, inc)
  }

  ghost predicate IsOrphan(s: Sys, inc: Incarnation) {
    IsRunning(s, inc) && !IsKnown(s, inc)
  }

  /**
   * The steps that forget a running process: a start that meets it in the handle, because a kill has cleared the
   * state ahead of it; a failed kill when it is not, and is not being made, current; and the last step of a kill
   * when it is current and an earlier kill has failed to kill it.
   */
  ghost predicate Forgets(s: Sys, a: Action, inc: Incarnation) {
    && a.Caller? && a.c in s.calls && IsRunning(s, inc)
    && match s.calls[a.c]
       case SetChild(_) => s.handles.activeChild == Some(inc)
       case Kill(KillChild(i)) => i == inc && !a.choice.ok && s.handles.process != Some(inc) && !IsBeingSet(s, inc)
       case Kill(ClearState) =>
         s.handles.lock.None? && s.handles.process == Some(inc) && s.handles.activeChild.None? && !IsInHand(s, inc)
       case _ => false
  }

  // ----- The invariant -----

  /** What stands in the handles, or in a call's hand, is a process. */
  ghost predicate NamesOk(s: Sys) {
    && (forall c, inc :: c in s.calls && HasInHand(s.calls[c], inc) ==> inc in s.supervisors)
    && (s.handles.process.Some? ==> s.handles.process.value in s.supervisors)
    && (s.handles.activeChild.Some? ==> s.handles.activeChild.value in s.supervisors)
  }

  /** The handle that kills take is that of the latest process, which no kill has taken yet. */
  ghost predicate PlacesOk(s: Sys) {
    && (s.handles.process.Some? && s.handles.activeChild.Some? ==> s.handles.activeChild == s.handles.process)
    && (forall c :: c in s.calls ==> PlaceOk(s, s.calls[c]))
    && (forall c, d :: c in s.calls && d in s.calls && c != d ==> !Clash(s.calls[c], s.calls[d]))
  }

  /** One is about to kill what the other is about to kill, or to put into the handle. */
  predicate Clash(a: Pc, b: Pc) {
    a.Kill? && a.stage.KillChild? && (b == a || b == SetChild(a.stage.inc))
  }

  predicate PlaceOk(s: Sys, pc: Pc) {
    match pc
    case ClearChild(_) => s.handles.activeChild.Some? ==> !IsRunning(s, s.handles.activeChild.value)
    case SetChild(inc) => s.handles.activeChild != Some(inc)
    case SetPending(inc) => s.handles.activeChild.Some? ==> s.handles.activeChild == Some(inc)
    case SetState(inc) => s.handles.activeChild.Some? ==> s.handles.activeChild == Some(inc)
    case Kill(KillChild(inc)) => s.handles.activeChild != Some(inc)
    case _ => true
  }

  ghost predicate OrphansOk(s: Sys) {
    NamesOk(s) && PlacesOk(s)
  }

  // ----- Steps inside the mutex -----

  /** What such a step makes of the processes in the handles and in the call's hand. */
  predicate StartMoves(pc: Pc, h: Handles, pc': Pc, h': Handles) {
    match pc
    case SetChild(inc) => pc' == SetPending(inc) && h'.activeChild == Some(inc) && h'.process == h.process
    case SetPending(inc) => pc' == SetState(inc) && h'.activeChild == h.activeChild && h'.process == h.process
    case SetState(inc) => pc' == TakeTicket && h'.activeChild == h.activeChild && h'.process == Some(inc)
    case ClearChild(_) => !IsReplaced(pc') && !pc'.ClearChild? && h'.activeChild.None? && h'.process == h.process
    case Spawn => (pc'.SetChild? || !IsReplaced(pc')) && h'.activeChild == h.activeChild && h'.process == h.process
    case CheckChild(_) =>
      !IsReplaced(pc') && h'.activeChild == h.activeChild
      && h'.process == (if pc'.ClearChild? then None else h.process)
    case _ =>
      !IsReplaced(pc') && !pc'.ClearChild? && h'.activeChild == h.activeChild && h'.process == h.process
  }

  predicate IsReplaced(pc: Pc) {
    pc.SetChild? || pc.SetPending? || pc.SetState? || pc.Kill?
  }

  lemma StartMovesSo(s: Sys, c: CallId, choice: Choice, r: Sys)
    requires c in s.calls && IsStarting(s.calls[c]) && TakeStart(s, c, choice) == Some(r)
    ensures c in r.calls && StartMoves(s.calls[c], s.handles, r.calls[c], r.handles)
    ensures r.calls[c].SetChild? ==>
      && s.calls[c].Spawn? && r.calls[c].inc !in s.supervisors
      && r.supervisors.Keys == s.supervisors.Keys + {r.calls[c].inc}
    ensures r.calls[c].ClearChild? ==>
      s.calls[c].CheckChild? && s.handles.process.Some? && !IsRunning(s, s.handles.process.value)
    ensures s.supervisors.Keys <= r.supervisors.Keys
    ensures forall inc :: inc in s.supervisors ==> (IsRunning(r, inc) <==> IsRunning(s, inc))
  {
  }

  /** A step of one call that is alone inside the mutex, or on its way in. */
  ghost predicate MovesAlone(s: Sys, c: CallId, r: Sys) {
    && c in s.calls && c in r.calls && OnlyMoves(s, r, c) && IsStarting(s.calls[c])
    && HoldsLock(s.handles, c, s.calls[c])
    && (forall d :: d in s.calls && d != c ==> !IsInside(s.calls[d]))
    && StartMoves(s.calls[c], s.handles, r.calls[c], r.handles)
    && (r.calls[c].SetChild? ==> r.calls[c].inc !in s.supervisors && r.calls[c].inc in r.supervisors)
    && (r.calls[c].ClearChild? ==> s.handles.process.Some? && !IsRunning(s, s.handles.process.value))
    && s.supervisors.Keys <= r.supervisors.Keys
    && (forall inc :: inc in s.supervisors ==> (IsRunning(r, inc) <==> IsRunning(s, inc)))
  }

  lemma StartIsAlone(s: Sys, c: CallId, choice: Choice, r: Sys)
    requires LockOk(s) && c in s.calls && IsStarting(s.calls[c]) && TakeStart(s, c, choice) == Some(r)
    ensures MovesAlone(s, c, r)
  {
    StartOnlyMoves(s, c, choice, r);
    StartMovesSo(s, c, choice, r);
    assert HoldsLock(s.handles, c, s.calls[c]);
    hide StartMoves, OnlyMoves;
  }

  lemma StartKeepsNames(s: Sys, c: CallId, r: Sys)
    requires NamesOk(s) && MovesAlone(s, c, r)
    ensures NamesOk(r)
  {
    hide IsRunning;
  }

  lemma StartKeepsPlaces(s: Sys, c: CallId, r: Sys)
    requires OrphansOk(s) && MovesAlone(s, c, r)
    ensures PlacesOk(r)
  {
    StartKeepsPlace(s, c, r);
    hide HoldsLock, IsRunning, NamesOk, HasInHand;
    forall d, e | d in r.calls && e in r.calls && d != e
      ensures !Clash(r.calls[d], r.calls[e])
    {
      assert d in s.calls && e in s.calls && !Clash(s.calls[d], s.calls[e]);
      assert e == c ==> PlaceOk(s, s.calls[d]) && !KillsNew(s, r, c, d);
    }
    hide PlaceOk, Clash, StartMoves;
  }

  /** Nobody is about to kill a process that has just been spawned. */
  ghost predicate KillsNew(s: Sys, r: Sys, c: CallId, d: CallId)
    requires c in r.calls && d in s.calls
  {
    r.calls[c].SetChild? && s.calls[d] == Kill(KillChild(r.calls[c].inc))
  }

  lemma StartKeepsPlace(s: Sys, c: CallId, r: Sys)
    requires OrphansOk(s) && MovesAlone(s, c, r)
    ensures r.handles.process.Some? && r.handles.activeChild.Some? ==> r.handles.activeChild == r.handles.process
    ensures forall d :: d in r.calls ==> PlaceOk(r, r.calls[d])
    ensures forall d :: d in s.calls ==> !KillsNew(s, r, c, d)
  {
    assert PlaceOk(s, s.calls[c]);
    forall d | d in s.calls
      ensures !KillsNew(s, r, c, d)
    {
      assert s.calls[d].Kill? && s.calls[d].stage.KillChild? ==> HasInHand(s.calls[d], s.calls[d].stage.inc);
    }
    forall d | d in r.calls
      ensures PlaceOk(r, r.calls[d])
    {
      assert d != c ==> PlaceOk(s, s.calls[d]) && !IsInside(s.calls[d]) && !Clash(s.calls[d], s.calls[c]);
    }
  }

  lemma StartForgets(s: Sys, c: CallId, choice: Choice, r: Sys, inc: Incarnation)
    requires OrphansOk(s) && MovesAlone(s, c, r) && IsRunning(s, inc) && IsKnown(s, inc)
    ensures IsOrphan(r, inc) <==> Forgets(s, Caller(c, choice), inc)
  {
  }

  // ----- Steps of a kill -----

  /** A step of a kill, in what concerns processes. */
  ghost predicate MovesKill(s: Sys, c: CallId, ok: bool, r: Sys) {
    && c in s.calls && c in r.calls && s.calls[c].Kill? && OnlyMoves(s, r, c)
    && r.supervisors.Keys == s.supervisors.Keys
    && (forall inc :: inc in s.supervisors ==>
          (IsRunning(r, inc) <==> IsRunning(s, inc) && !(s.calls[c] == Kill(KillChild(inc)) && ok)))
    && match s.calls[c].stage
       case TakeChild =>
         r.handles.process == s.handles.process && r.handles.activeChild.None? && !IsStarting(r.calls[c])
         && r.calls[c] == Kill(match s.handles.activeChild case Some(inc) => KillChild(inc) case None => TakePending)
       case stage =>
         && r.handles.activeChild == s.handles.activeChild && !IsStarting(r.calls[c])
         && (r.calls[c].Kill? ==> !r.calls[c].stage.KillChild?)
         && r.handles.process == (if stage.ClearState? && s.handles.lock == None then None else s.handles.process)
  }

  lemma KillMovesSo(s: Sys, c: CallId, choice: Choice, r: Sys)
    requires c in s.calls && s.calls[c].Kill? && TakeKill(s, c, choice) == Some(r)
    ensures MovesKill(s, c, choice.ok, r)
  {
    KillMoves(s, c, choice, r);
    hide OnlyMoves, Drained;
  }

  lemma KillKeepsNames(s: Sys, c: CallId, ok: bool, r: Sys)
    requires NamesOk(s) && MovesKill(s, c, ok, r)
    ensures NamesOk(r)
  {
    hide IsRunning;
  }

  lemma KillKeepsPlaces(s: Sys, c: CallId, ok: bool, r: Sys)
    requires OrphansOk(s) && LockOk(s) && MovesKill(s, c, ok, r)
    ensures PlacesOk(r)
  {
    hide HasInHand, HoldsLock;
    forall d | d in r.calls
      ensures PlaceOk(r, r.calls[d])
    {
      assert d != c ==> PlaceOk(s, s.calls[d]);
    }
    hide IsRunning, NamesOk;
    forall d, e | d in r.calls && e in r.calls && d != e
      ensures !Clash(r.calls[d], r.calls[e])
    {
      assert d in s.calls && e in s.calls && !Clash(s.calls[d], s.calls[e]);
      assert PlaceOk(s, s.calls[d]) && PlaceOk(s, s.calls[e]);
    }
    hide PlaceOk, Clash;
  }

  lemma KillForgets(s: Sys, c: CallId, choice: Choice, r: Sys, inc: Incarnation)
    requires OrphansOk(s) && LockOk(s) && MovesKill(s, c, choice.ok, r) && IsRunning(s, inc) && IsKnown(s, inc)
    ensures IsOrphan(r, inc) <==> Forgets(s, Caller(c, choice), inc)
  {
  }

  // ----- All steps -----

  /** The call has to do with no process. */
  predicate IsElsewhere(pc: Pc) {
    pc.WantState? || pc == Kill(TakeChild) || HasTicket(pc) || pc.Done?
  }

  lemma ElsewhereHasNothing(s: Sys, pc: Pc, other: Pc)
    requires IsElsewhere(pc)
    ensures PlaceOk(s, pc) && !Clash(pc, other) && !Clash(other, pc) && forall inc :: !HasInHand(pc, inc)
  {
  }

  /** Other steps leave handles and processes in reach as they are, but a process may exit. */
  ghost predicate MovesElsewhere(s: Sys, c: CallId, r: Sys) {
    && OnlyMoves(s, r, c) && r.handles == s.handles && r.supervisors.Keys == s.supervisors.Keys
    && (c in s.calls ==> c in r.calls && (r.calls[c] == s.calls[c] || IsElsewhere(s.calls[c])))
    && (c in r.calls ==> (c in s.calls && r.calls[c] == s.calls[c]) || IsElsewhere(r.calls[c]))
    && (forall inc :: inc in s.supervisors ==> (IsRunning(r, inc) ==> IsRunning(s, inc)))
  }

  lemma ElsewhereKeepsKnown(s: Sys, c: CallId, r: Sys, inc: Incarnation)
    requires MovesElsewhere(s, c, r) && IsKnown(s, inc)
    ensures IsKnown(r, inc)
  {
    if IsInHand(s, inc) {
      var d :| d in s.calls && HasInHand(s.calls[d], inc);
      assert d in r.calls && r.calls[d] == s.calls[d];
    }
  }

  lemma ElsewhereKeepsNames(s: Sys, c: CallId, r: Sys)
    requires NamesOk(s) && MovesElsewhere(s, c, r)
    ensures NamesOk(r)
  {
    hide IsRunning;
    forall d, inc | d in r.calls && HasInHand(r.calls[d], inc)
      ensures inc in r.supervisors
    {
      if d == c && IsElsewhere(r.calls[d]) { ElsewhereHasNothing(r, r.calls[d], Spawn); }
      assert d in s.calls && r.calls[d] == s.calls[d];
    }
  }

  lemma ElsewhereKeepsPlaces(s: Sys, c: CallId, r: Sys)
    requires OrphansOk(s) && MovesElsewhere(s, c, r)
    ensures PlacesOk(r)
  {
    forall d | d in r.calls
      ensures PlaceOk(r, r.calls[d])
    {
      if IsElsewhere(r.calls[d]) {
        ElsewhereHasNothing(r, r.calls[d], Spawn);
      } else {
        PlaceStays(s, c, r, d);
      }
    }
    hide PlaceOk, NamesOk;
    forall d, e | d in r.calls && e in r.calls && d != e
      ensures !Clash(r.calls[d], r.calls[e])
    {
      if IsElsewhere(r.calls[d]) {
        ElsewhereHasNothing(r, r.calls[d], r.calls[e]);
      } else if IsElsewhere(r.calls[e]) {
        ElsewhereHasNothing(r, r.calls[e], r.calls[d]);
      } else {
        assert d in s.calls && r.calls[d] == s.calls[d] && e in s.calls && r.calls[e] == s.calls[e];
      }
    }
  }

  lemma PlaceStays(s: Sys, c: CallId, r: Sys, d: CallId)
    requires OrphansOk(s) && MovesElsewhere(s, c, r) && d in r.calls && d in s.calls && r.calls[d] == s.calls[d]
    ensures PlaceOk(r, r.calls[d])
  {
    assert PlaceOk(s, s.calls[d]);
  }

  lemma RequestElsewhere(s: Sys, c: CallId, choice: Choice, r: Sys)
    requires c in s.calls && HasTicket(s.calls[c]) && TakeRequest(s, c, choice) == Some(r)
    ensures MovesElsewhere(s, c, r)
  {
    RequestMoves(s, c, choice, r);
    hide OnlyMoves, Without;
  }

  lemma ReaderElsewhere(s: Sys, a: Action, r: Sys, c: CallId)
    requires (a.Read? || a.Deliver? || a.Exit?) && Do(s, a) == Some(r)
    ensures MovesElsewhere(s, c, r)
  {
    ReaderMoves(s, a, r);
    hide Drained, Without;
  }

  lemma ElsewhereKeeps(s: Sys, a: Action, r: Sys, c: CallId)
    requires OrphansOk(s) && MovesElsewhere(s, c, r) && (a.Caller? ==> a.c in s.calls && IsElsewhere(s.calls[a.c]))
    ensures OrphansOk(r)
    ensures forall inc :: IsKnown(s, inc) ==> !IsOrphan(r, inc) && !Forgets(s, a, inc)
  {
    ElsewhereKeepsNames(s, c, r);
    ElsewhereKeepsPlaces(s, c, r);
    forall inc: nat | IsKnown(s, inc)
      ensures IsKnown(r, inc)
    {
      ElsewhereKeepsKnown(s, c, r, inc);
    }
    hide IsKnown, OrphansOk;
  }

  /** Every step keeps the places in order, and forgets a process exactly in the three cases. */
  lemma PlacesKept(s: Sys, a: Action, r: Sys)
    requires OrphansOk(s) && LockOk(s) && Do(s, a) == Some(r)
    ensures OrphansOk(r)
    ensures forall inc :: IsRunning(s, inc) && IsKnown(s, inc) ==> (IsOrphan(r, inc) <==> Forgets(s, a, inc))
  {
    assert a.Caller? ==> HasTicket(s.calls[a.c]) || s.calls[a.c].Kill? || IsStarting(s.calls[a.c]);
    hide TakeStart, TakeKill, TakeRequest;
    if a.Caller? && !HasTicket(s.calls[a.c]) {
      if s.calls[a.c].Kill? {
        KillMovesSo(s, a.c, a.choice, r);
        hide MovesKill, Do, LockOk, IsKnown, IsOrphan, Forgets, NamesOk, PlacesOk;
        KillKeepsNames(s, a.c, a.choice.ok, r);
        KillKeepsPlaces(s, a.c, a.choice.ok, r);
        forall inc | IsRunning(s, inc) && IsKnown(s, inc)
          ensures IsOrphan(r, inc) <==> Forgets(s, a, inc)
        {
          KillForgets(s, a.c, a.choice, r, inc);
        }
      } else {
        StartIsAlone(s, a.c, a.choice, r);
        hide MovesAlone, Do, LockOk, IsKnown, IsOrphan, Forgets, NamesOk, PlacesOk;
        StartKeepsNames(s, a.c, r);
        StartKeepsPlaces(s, a.c, r);
        forall inc | IsRunning(s, inc) && IsKnown(s, inc)
          ensures IsOrphan(r, inc) <==> Forgets(s, a, inc)
        {
          StartForgets(s, a.c, a.choice, r, inc);
        }
      }
    } else {
      var c := ElsewhereSteps(s, a, r);
      assert a.Caller? ==> IsElsewhere(s.calls[a.c]);
      hide MovesElsewhere, Do, LockOk, IsKnown, IsOrphan, Forgets, OrphansOk, IsElsewhere;
      ElsewhereKeeps(s, a, r, c);
    }
  }

  lemma ElsewhereSteps(s: Sys, a: Action, r: Sys) returns (c: CallId)
    requires Do(s, a) == Some(r) && (a.Caller? ==> a.c in s.calls && HasTicket(s.calls[a.c]))
    ensures MovesElsewhere(s, c, r)
  {
    if a.Caller? {
      c := a.c;
      RequestElsewhere(s, c, a.choice, r);
    } else if a.Request? || a.ProbeCall? || a.KillCall? {
      c := a.c;
      var pc := if a.Request? then WantState(false) else if a.ProbeCall? then WantState(true) else Kill(TakeChild);
      NewCallOnlyMoves(s, c, pc, r);
    } else {
      c := 0;
      ReaderElsewhere(s, a, r, c);
    }
  }

  // ----- Over runs -----

  lemma {:induction false} PlacesOfRun(acts: seq<Action>, r: Sys)
    requires Exec(INITIAL, acts) == Some(r)
    ensures OrphansOk(r)
    decreases |acts|
  {
    if acts != [] {
      var most, a := acts[..|acts| - 1], acts[|acts| - 1];
      assert acts == most + [a];
      ExecEnds(INITIAL, most, a);
      var s := Exec(INITIAL, most).value;
      PlacesOfRun(most, s);
      HeadedWhereSettled(most, s);
      hide Do, Exec, LockOk, OrphansOk;
      PlacesKept(s, a, r);
    }
  }

  /** In every run, a step forgets a running process exactly in the three cases. */
  lemma ForgettingIsExact(acts: seq<Action>, s: Sys, a: Action, r: Sys, inc: Incarnation)
    requires Exec(INITIAL, acts) == Some(s) && Do(s, a) == Some(r) && IsRunning(s, inc) && IsKnown(s, inc)
    ensures IsRunning(r, inc) && !IsKnown(r, inc) <==> Forgets(s, a, inc)
  {
    PlacesOfRun(acts, s);
    HeadedWhereSettled(acts, s);
    hide Do, Exec, LockOk, OrphansOk, Forgets, IsKnown;
    PlacesKept(s, a, r);
    assert IsOrphan(r, inc) <==> IsRunning(r, inc) && !IsKnown(r, inc);
  }

  lemma StartFindsNone(s: Sys, c: CallId, r: Sys, inc: Incarnation)
    requires MovesAlone(s, c, r) && inc in s.supervisors && !IsKnown(s, inc)
    ensures !IsKnown(r, inc)
  {
    hide IsRunning;
  }

  lemma KillFindsNone(s: Sys, c: CallId, ok: bool, r: Sys, inc: Incarnation)
    requires MovesKill(s, c, ok, r) && inc in s.supervisors && !IsKnown(s, inc)
    ensures !IsKnown(r, inc)
  {
    hide IsRunning;
  }

  lemma ElsewhereFindsNone(s: Sys, c: CallId, r: Sys, inc: Incarnation)
    requires MovesElsewhere(s, c, r) && !IsKnown(s, inc)
    ensures !IsKnown(r, inc)
  {
    hide IsRunning;
  }

  /** In every run, a forgotten process stays forgotten: no kill takes it, and it never becomes current again. */
  lemma OrphansStay(acts: seq<Action>, s: Sys, a: Action, r: Sys, inc: Incarnation)
    requires Exec(INITIAL, acts) == Some(s) && Do(s, a) == Some(r) && inc in s.supervisors && !IsKnown(s, inc)
    ensures !IsKnown(r, inc)
  {
    HeadedWhereSettled(acts, s);
    assert a.Caller? ==> HasTicket(s.calls[a.c]) || s.calls[a.c].Kill? || IsStarting(s.calls[a.c]);
    hide Exec, TakeStart, TakeKill, TakeRequest, IsKnown;
    if a.Caller? && !HasTicket(s.calls[a.c]) {
      if s.calls[a.c].Kill? {
        KillMovesSo(s, a.c, a.choice, r);
        KillFindsNone(s, a.c, a.choice.ok, r, inc);
      } else {
        StartIsAlone(s, a.c, a.choice, r);
        StartFindsNone(s, a.c, r, inc);
      }
    } else {
      var c := ElsewhereSteps(s, a, r);
      ElsewhereFindsNone(s, c, r, inc);
    }
  }
}
