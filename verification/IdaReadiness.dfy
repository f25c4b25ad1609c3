/** A tool is called only for a session that was Ready since the call took the operation lock. */
module IdaReadiness {
  import opened Wrappers
  import opened IdaSessions
  import opened IdaBinding

  /** The thread is about to call a tool for the session, or waits for it. */
  predicate IsCalling(s: Sys, tid: ThreadId, sid: SessionId) {
    tid in s.threads && s.threads[tid].Working? && s.threads[tid].sid == sid
    && (s.threads[tid].pc.ToolLookup? || s.threads[tid].pc.Calling?)
  }

  /** In this state the thread is inside the session's lock. */
  predicate IsInside(s: Sys, tid: ThreadId, sid: SessionId) {
    sid in s.slots && s.slots[sid].lock == HeldBy(tid)
  }

  /** With this action the thread finds the session Ready. */
  ghost predicate FindsReady(s: Sys, a: Action, tid: ThreadId, sid: SessionId) {
    a.Step? && a.tid == tid && IsInside(s, tid, sid) && s.slots[sid].state == Ready
    && tid in s.threads && s.threads[tid] == Working(sid, ToolReady)
  }

  ghost predicate FoundReadyAt(acts: seq<Action>, k: nat, tid: ThreadId, sid: SessionId)
    requires k < |acts|
  {
    && Exec(INITIAL, acts[..k]).Some? && FindsReady(Exec(INITIAL, acts[..k]).value, acts[k], tid, sid)
    && forall j :: k <= j <= |acts| ==> IsInsideAt(acts, j, tid, sid)
  }

  ghost predicate IsInsideAt(acts: seq<Action>, j: nat, tid: ThreadId, sid: SessionId)
    requires j <= |acts|
  {
    Exec(INITIAL, acts[..j]).Some? && IsInside(Exec(INITIAL, acts[..j]).value, tid, sid)
  }

  /** The thread found the session Ready, and has been inside its lock ever since. */
  ghost predicate FoundReady(acts: seq<Action>, tid: ThreadId, sid: SessionId) {
    exists k :: 0 <= k < |acts| && FoundReadyAt(acts, k, tid, sid)
  }

  /** A thread begins to call only by finding its session Ready. */
  lemma CallingStep(s: Sys, a: Action, r: Sys, tid: ThreadId, sid: SessionId)
    requires Inv(s) && Do(s, a) == Some(r) && IsCalling(r, tid, sid)
    ensures IsCalling(s, tid, sid) || FindsReady(s, a, tid, sid)
  {
    if a.Step? {
      var slot, pc := StepIs(s, a.tid, a.move, r);
      if tid == a.tid {
        ReadyStep(s, tid, a.move, slot, pc);
      }
    } else {
      CallIs(s, a, r);
      hide Inv, Do, Holds, RefreshOk, OpenOk;
    }
  }

  lemma ReadyStep(s: Sys, tid: ThreadId, move: Move, slot: Slot, pc: Pc)
    requires Inv(s) && tid in s.threads && s.threads[tid].Working? && s.threads[tid].sid in s.slots
    requires Take(tid, move, s.threads[tid].pc, s.slots[s.threads[tid].sid]) == Some((slot, pc))
    requires pc.ToolLookup? || pc.Calling?
    ensures IsCalling(s, tid, s.threads[tid].sid) || FindsReady(s, Step(tid, move), tid, s.threads[tid].sid)
  {
    BeforeStep(s, tid);
    hide Inv, Take;
    ReachesLookup(tid, move, s.threads[tid].pc, s.slots[s.threads[tid].sid], slot, pc);
  }

  lemma ReachesLookup(tid: ThreadId, move: Move, pc: Pc, slot: Slot, slot': Slot, pc': Pc)
    requires RefreshOk(pc) && Take(tid, move, pc, slot) == Some((slot', pc')) && (pc'.ToolLookup? || pc'.Calling?)
    ensures pc.ToolLookup? || (pc == ToolReady && slot.state == Ready)
  {
  }

  lemma CallersAreInside(s: Sys, tid: ThreadId, sid: SessionId)
    requires Inv(s) && IsCalling(s, tid, sid)
    ensures IsInside(s, tid, sid)
  {
    assert Holds(s.threads[tid].pc);
  }

  lemma FinderIsInside(s: Sys, a: Action, tid: ThreadId, sid: SessionId)
    requires FindsReady(s, a, tid, sid)
    ensures IsInside(s, tid, sid)
  {
  }

  lemma {:induction false} ExecEnds(s: Sys, acts: seq<Action>, a: Action)
    ensures Exec(s, acts + [a]) == if Exec(s, acts).None? then None else Do(Exec(s, acts).value, a)
    decreases |acts|
  {
    hide Do;
    if acts != [] {
      assert (acts + [a])[0] == acts[0] && (acts + [a])[1..] == acts[1..] + [a];
      if Do(s, acts[0]).Some? {
        ExecEnds(Do(s, acts[0]).value, acts[1..], a);
      }
    } else {
      assert (acts + [a])[1..] == [];
    }
  }

  /** Who found the session Ready and is still inside its lock has found it Ready in the longer run too. */
  lemma StillFoundReady(acts: seq<Action>, s: Sys, a: Action, r: Sys, tid: ThreadId, sid: SessionId)
    requires Exec(INITIAL, acts) == Some(s) && Exec(INITIAL, acts + [a]) == Some(r) && IsInside(r, tid, sid)
    requires FoundReady(acts, tid, sid) || FindsReady(s, a, tid, sid)
    ensures FoundReady(acts + [a], tid, sid)
  {
    hide Exec, FindsReady, IsInside;
    var more := acts + [a];
    assert more[..|acts|] == acts && more[..|more|] == more;
    assert forall k :: 0 <= k < |acts| ==> more[..k] == acts[..k] && more[k] == acts[k];
    assert IsInsideAt(more, |more|, tid, sid);
    if FoundReady(acts, tid, sid) {
      var k :| 0 <= k < |acts| && FoundReadyAt(acts, k, tid, sid);
      forall j | k <= j <= |acts|
        ensures IsInsideAt(more, j, tid, sid)
      {
        assert IsInsideAt(acts, j, tid, sid) && more[..j] == acts[..j];
      }
      assert FoundReadyAt(more, k, tid, sid);
    } else {
      FinderIsInside(s, a, tid, sid);
      assert FoundReadyAt(more, |acts|, tid, sid);
    }
  }

  /**
   * In every run, a thread that calls a tool for a session has found that session Ready since it took the
   * session's lock, which it has not left.
   */
  lemma {:induction false} CallsFoundReady(acts: seq<Action>, r: Sys, tid: ThreadId, sid: SessionId)
    requires Exec(INITIAL, acts) == Some(r) && IsCalling(r, tid, sid)
    ensures FoundReady(acts, tid, sid)
    decreases |acts|
  {
    if acts != [] {
      var most, a := acts[..|acts| - 1], acts[|acts| - 1];
      assert acts == most + [a];
      ExecEnds(INITIAL, most, a);
      var s := Exec(INITIAL, most).value;
      Reached(most, s);
      Reached(acts, r);
      hide Do, Exec, Inv, FindsReady, FoundReady;
      CallingStep(s, a, r, tid, sid);
      CallersAreInside(r, tid, sid);
      if IsCalling(s, tid, sid) {
        CallsFoundReady(most, s, tid, sid);
      }
      StillFoundReady(most, s, a, r, tid, sid);
    }
  }
}
