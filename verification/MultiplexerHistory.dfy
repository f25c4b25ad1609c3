/** What has been done in a run of the supervisor multiplexer. */
module MultiplexerHistory {
  import opened Wrappers
  import opened SupervisorMultiplexer
  import opened MultiplexerRouting

  /** Something a call does in one of its steps. */
  datatype Deed =
    | SettlesOn(c: CallId, inc: Incarnation)
    | TimesOut(c: CallId)
    | BeginsKill(c: CallId)
    | TakesChild(c: CallId, inc: Incarnation)
    | FailsToKill(c: CallId)
    | TakesPending(c: CallId, inc: Incarnation)
    | PassesPending(c: CallId)
    | ClearsState(c: CallId)

  predicate IsRunning(s: Sys, inc: Incarnation) {
    inc in s.supervisors && s.supervisors[inc].alive
  }

  /** Whether this action, in this state, is the deed. */
  predicate Does(s: Sys, a: Action, d: Deed) {
    && a.Caller? && a.c == d.c && d.c in s.calls
    && var pc := s.calls[d.c];
    match d
    case SettlesOn(_, inc) =>
      a.choice.ok
      && ((pc == CheckChild(false) && s.handles.process == Some(inc) && IsRunning(s, inc))
          || (pc.Spawn? && s.handles.process.None? && a.choice.spawned == inc && inc !in s.supervisors))
    case TimesOut(_) => pc.Waiting? && d.c in s.mail && s.mail[d.c] == []
    case BeginsKill(_) => pc == Kill(TakeChild)
    case TakesChild(_, inc) => pc == Kill(TakeChild) && s.handles.activeChild == Some(inc)
    case FailsToKill(_) => pc.Kill? && pc.stage.KillChild? && !a.choice.ok
    case TakesPending(_, inc) => pc == Kill(TakePending) && s.handles.activePending == Some(inc)
    case PassesPending(_) => pc == Kill(TakePending)
    case ClearsState(_) => pc == Kill(ClearState)
  }

  ghost predicate DidAt(acts: seq<Action>, k: nat, d: Deed)
    requires k < |acts|
  {
    Exec(INITIAL, acts[..k]).Some? && Does(Exec(INITIAL, acts[..k]).value, acts[k], d)
  }

  ghost predicate Did(acts: seq<Action>, d: Deed) {
    exists k :: 0 <= k < |acts| && DidAt(acts, k, d)
  }

  lemma {:induction false} ExecEnds(s: Sys, acts: seq<Action>, a: Action)
    ensures Exec(s, acts + [a]) == if Exec(s, acts).None? then None else Do(Exec(s, acts).value, a)
    decreases |acts|
  {
    hide Do;
    if acts != [] {
      assert (acts + [a])[0] == acts[0] && (acts + [a])[1..] == acts[1..] + [a];
      if Do(s, acts[0]).Some? {
        ExecEnds(Do(s, acts[0]).value, acts[1..], a);
      }
    } else {
      assert (acts + [a])[1..] == [];
    }
  }

  lemma DidStep(acts: seq<Action>, s: Sys, a: Action, d: Deed)
    requires Exec(INITIAL, acts) == Some(s)
    ensures Did(acts + [a], d) <==> Did(acts, d) || Does(s, a, d)
  {
    hide Exec, Does;
    var more := acts + [a];
    assert more[..|acts|] == acts;
    assert forall k :: 0 <= k < |acts| ==> more[..k] == acts[..k] && more[k] == acts[k];
    assert forall k :: 0 <= k < |acts| ==> DidAt(more, k, d) == DidAt(acts, k, d);
    assert DidAt(more, |acts|, d) == Does(s, a, d);
  }
}
