/** Which requests lose the worker, and what their errors say. */
module SessionWorkerLosses {
  import opened Wrappers
  import opened SessionWorkerLoop
  import opened SessionWorkerWire
  import opened SessionWorkerReplies

  // ----- A worker that is not killed -----

  /** The worker has left after its last answer was read, and no request is under way. */
  ghost predicate HasLeft(s: Sys) {
    && s.exited && s.leaving && s.todo == [] && s.parent.Idle?
    && |s.handled| <= |s.completed| && KeptUntil(s, |s.handled|)
  }

  ghost predicate IsCalm(s: Sys) {
    HasLeft(s) || (InStep(s) && (s.exited ==> s.leaving && s.todo == []))
  }

  lemma LeftStays(backend: Backend, s: Sys, a: Action, r: Sys)
    requires HasLeft(s) && Do(backend, s, a) == Some(r)
    ensures HasLeft(r)
  {
    hide Serve, HandlingOf, ReturnsHandling;
  }

  lemma LosesAfterLeaving(backend: Backend, s: Sys, a: Action, r: Sys)
    requires InStep(s) && s.exited && s.leaving && s.todo == [] && Do(backend, s, a) == Some(r)
    requires (a.Begin? || a.FailToWrite? || a.ReadEnd?)
    ensures HasLeft(r)
  {
    hide ReturnsHandling;
  }

  lemma CalmStays(backend: Backend, s: Sys, a: Action, r: Sys)
    requires IsCalm(s) && !a.Killed? && Do(backend, s, a) == Some(r)
    ensures IsCalm(r)
  {
    if HasLeft(s) {
      LeftStays(backend, s, a, r);
    } else if a.TakeLine? {
      TakeKeepsStep(backend, s, r);
    } else if a.WriteFrame? || a.WriteLog? {
      WriteKeepsStep(backend, s, a, r);
    } else if a.ReadLine? {
      ReadKeepsStep(backend, s, r);
      hide InStep, HasLeft, ReadFrame;
    } else if s.exited && (a.Begin? || a.FailToWrite? || a.ReadEnd?) {
      LosesAfterLeaving(backend, s, a, r);
    } else {
      ParentKeepsStep(backend, s, a, r);
    }
  }

  lemma {:induction false} CalmRun(backend: Backend, acts: seq<Action>, r: Sys)
    requires Exec(backend, INITIAL, acts) == Some(r) && Killed !in acts
    ensures IsCalm(r)
    decreases |acts|
  {
    if acts == [] {
      InvInitially(backend);
      assert InStep(INITIAL);
    } else {
      var n := |acts| - 1;
      var s := ExecLast(backend, INITIAL, acts, r);
      hide Do, Exec, IsCalm;
      assert acts[n] in acts && forall k :: 0 <= k < n ==> acts[..n][k] == acts[k];
      CalmRun(backend, acts[..n], s);
      CalmStays(backend, s, acts[n], r);
    }
  }

  /**
   * In every run in which nobody kills the worker, each request it takes gets its answer, once it returns; requests
   * lose the worker only if it took none of them, because an answer before them was the one it ends with.
   */
  lemma UnkilledWorkersAnswer(backend: Backend, acts: seq<Action>, r: Sys, i: nat)
    requires Exec(backend, INITIAL, acts) == Some(r) && Killed !in acts && i < |r.completed|
    ensures if i < |r.handled| then ReturnsHandling(r.completed[i], r.handled[i])
      else LostWorker(r.completed[i]) && ServeAll(backend, FRESH, LinesOf(r.handled)).exit
  {
    CalmRun(backend, acts, r);
    RunServes(backend, acts, r);
    hide Exec, ReturnsHandling, ServeAll, LostWorker, IsHandledRightly, AnswerInFlight;
  }

  // ----- What the errors say -----

  /** Whether each request that took an id was written, in order. */
  function Written(acts: seq<Action>): seq<bool> {
    if acts == [] then []
    else
      var n := |acts| - 1;
      Written(acts[..n]) + if acts[n].Send? then [true] else if acts[n].FailToWrite? then [false] else []
  }

  predicate SaysWhether(r: Returned, i: nat, written: seq<bool>) {
    && (r.result == Err(AlreadyExited) <==> i >= |written|)
    && (r.result == Err(WriteFailed) <==> i < |written| && !written[i])
    && (r.id == None <==> i >= |written|)
  }

  /** Errors of lost requests agree with what was written. */
  ghost predicate ErrorsAgree(s: Sys, written: seq<bool>) {
    && |written| == s.nextId - (if s.parent.Writing? then 1 else 0)
    && (s.parent.Awaiting? ==> |written| == |s.completed| + 1 && written[|s.completed|])
    && (s.parent.Writing? ==> |written| == |s.completed|)
    && forall i :: 0 <= i < |s.completed| ==> SaysWhether(s.completed[i], i, written)
  }

  lemma ErrorsStillAgree(backend: Backend, s: Sys, written: seq<bool>, a: Action, r: Sys)
    requires ErrorsAgree(s, written) && Numbered(s) && Do(backend, s, a) == Some(r)
    ensures ErrorsAgree(r, written + if a.Send? then [true] else if a.FailToWrite? then [false] else [])
  {
    hide Serve, HandlingOf;
  }

  /**
   * In every run a request says that the process had exited already if and only if it took no id, and that its write
   * failed if and only if it took one and was not written.
   */
  lemma {:induction false} LossesNameTheirReason(backend: Backend, acts: seq<Action>, r: Sys)
    requires Exec(backend, INITIAL, acts) == Some(r)
    ensures ErrorsAgree(r, Written(acts))
    decreases |acts|
  {
    if acts != [] {
      var n := |acts| - 1;
      var s := ExecLast(backend, INITIAL, acts, r);
      InvInitially(backend);
      hide Do, Exec, ErrorsAgree, InStep, Gone, Numbered, WorkerOk;
      LossesNameTheirReason(backend, acts[..n], s);
      InvOfRun(backend, INITIAL, acts[..n], s);
      ErrorsStillAgree(backend, s, Written(acts[..n]), acts[n], r);
    }
  }
}
