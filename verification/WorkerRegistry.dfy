/** The registry of session workers: who is registered, and who has been asked to stop. */
module WorkerRegistry {
  import opened Wrappers
  import SessionManager

  type SessionId = SessionManager.SessionId
  type Worker = nat

  /** The registry's two collections, and the workers it has told to stop, in order. */
  datatype State = State(workers: map<SessionId, Worker>, canceled: set<SessionId>, kills: seq<Worker>)

  const EMPTY: State := State(map[], {}, [])

  datatype Operation = Insert(sid: SessionId, worker: Worker) | Remove(sid: SessionId) | KillOnce(sid: SessionId)

  function Apply(s: State, op: Operation): State {
    match op
    case Insert(sid, worker) => s.(workers := s.workers[sid := worker], canceled := s.canceled - {sid})
    case Remove(sid) => s.(workers := s.workers - {sid}, canceled := s.canceled - {sid})
    case KillOnce(sid) =>
      if sid in s.canceled || sid !in s.workers then s
      else s.(canceled := s.canceled + {sid}, kills := s.kills + [s.workers[sid]])
  }

  class Registry {
    var workers: map<SessionId, Worker>
    var cancelRequested: set<SessionId>
    ghost var kills: seq<Worker>

    ghost function Abstract(): State
      reads this
    {
      State(workers, cancelRequested, kills)
    }

    constructor ()
      ensures Abstract() == EMPTY
    {
      workers, cancelRequested, kills := map[], {}, [];
    }

    method InsertWorker(sid: SessionId, worker: Worker)
      modifies this
      ensures Abstract() == Apply(old(Abstract()), Insert(sid, worker))
    {
      cancelRequested := cancelRequested - {sid};
      workers := workers[sid := worker];
    }

    method RemoveWorker(sid: SessionId) returns (r: Option<Worker>)
      modifies this
      ensures Abstract() == Apply(old(Abstract()), Remove(sid))
      ensures r == if sid in old(workers) then Some(old(workers)[sid]) else None
    {
      cancelRequested := cancelRequested - {sid};
      r := if sid in workers then Some(workers[sid]) else None;
      workers := workers - {sid};
    }

    /** The worker to kill, if this call is the first to ask for it. */
    method KillOnceFor(sid: SessionId) returns (r: Option<Worker>)
      modifies this
      ensures Abstract() == Apply(old(Abstract()), KillOnce(sid))
      ensures r.Some? <==> sid in old(workers) && sid !in old(cancelRequested)
      ensures r.Some? ==> r.value == old(workers)[sid] && kills == old(kills) + [r.value]
    {
      if sid in cancelRequested || sid !in workers {
        return None;
      }
      cancelRequested := cancelRequested + {sid};
      kills := kills + [workers[sid]];
      r := Some(workers[sid]);
    }

    /** Whether the session's registered worker is one that has been told to stop. */
    method IsCancelRequested(sid: SessionId) returns (r: bool)
      ensures IsSound(Abstract()) ==> (r <==> sid in workers && workers[sid] in kills)
    {
      r := sid in cancelRequested;
    }
  }

  // ----- Over any sequence of operations -----

  function ApplyAll(s: State, ops: seq<Operation>): State
    decreases |ops|
  {
    if ops == [] then s else ApplyAll(Apply(s, ops[0]), ops[1..])
  }

  /** Every worker inserted is a new one. */
  predicate InsertsFresh(ops: seq<Operation>) {
    forall i, j :: 0 <= i < j < |ops| && ops[i].Insert? && ops[j].Insert? ==> ops[i].worker != ops[j].worker
  }

  /** The worker is not registered and has not been killed. */
  ghost predicate IsUnknown(s: State, worker: Worker) {
    worker !in s.kills && forall sid :: sid in s.workers ==> s.workers[sid] != worker
  }

  ghost predicate IsSound(s: State) {
    && s.canceled <= s.workers.Keys
    && (forall a, b :: a in s.workers && b in s.workers && a != b ==> s.workers[a] != s.workers[b])
    && (forall sid :: sid in s.workers ==> (s.workers[sid] in s.kills <==> sid in s.canceled))
    && (forall i, j :: 0 <= i < j < |s.kills| ==> s.kills[i] != s.kills[j])
  }

  lemma SoundStep(s: State, op: Operation)
    requires IsSound(s) && (op.Insert? ==> IsUnknown(s, op.worker))
    ensures IsSound(Apply(s, op))
    ensures forall w :: IsUnknown(s, w) && (op.Insert? ==> op.worker != w) ==> IsUnknown(Apply(s, op), w)
  {
  }

  lemma {:induction false} SoundAfterAll(s: State, ops: seq<Operation>)
    requires IsSound(s) && InsertsFresh(ops)
    requires forall i :: 0 <= i < |ops| && ops[i].Insert? ==> IsUnknown(s, ops[i].worker)
    ensures IsSound(ApplyAll(s, ops))
    decreases |ops|
  {
    hide IsSound, IsUnknown;
    if ops != [] {
      SoundStep(s, ops[0]);
      forall i | 0 <= i < |ops[1..]| && ops[1..][i].Insert?
        ensures IsUnknown(Apply(s, ops[0]), ops[1..][i].worker)
      {
        assert ops[1..][i] == ops[i + 1];
      }
      SoundAfterAll(Apply(s, ops[0]), ops[1..]);
    }
  }

  /**
   * However the threads' operations interleave: no worker is killed twice, only registered workers are
   * marked as canceled, and a registered worker is marked exactly if it has been killed.
   */
  lemma KilledAtMostOnce(ops: seq<Operation>)
    requires InsertsFresh(ops)
    ensures IsSound(ApplyAll(EMPTY, ops))
  {
    SoundAfterAll(EMPTY, ops);
  }

  // ----- The slots of the session manager -----

  /** The slot shows what the registry holds under the session's id. */
  predicate Shows(slot: SessionManager.Slot, s: State, sid: SessionId) {
    slot.worker == (sid in s.workers) && slot.canceled == (sid in s.canceled)
  }

  /** The session manager's steps on a slot are the registry's operations on its session, and leave others alone. */
  lemma SlotsFollowRegistry(slot: SessionManager.Slot, s: State, sid: SessionId, worker: Worker)
    requires Shows(slot, s, sid) && IsSound(s)
    ensures Shows(SessionManager.KillOnce(slot), Apply(s, KillOnce(sid)), sid)
    ensures Shows(SessionManager.RemoveWorker(slot), Apply(s, Remove(sid)), sid)
    ensures Shows(slot.(worker := true, canceled := false), Apply(s, Insert(sid, worker)), sid)
    ensures forall other, z: SessionManager.Slot :: other != sid && Shows(z, s, other) ==>
      && Shows(z, Apply(s, KillOnce(sid)), other)
      && Shows(z, Apply(s, Remove(sid)), other)
      && Shows(z, Apply(s, Insert(sid, worker)), other)
  {
  }
}
