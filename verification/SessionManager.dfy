/**
 * The debug session manager as a transition system.
 *
 * A step is one critical section of one thread: a region under the sessions lock, one call of the
 * worker registry, one acquisition of a session's operation lock, or one record write.  Between two
 * steps of a thread, any other thread may take steps.
 */
module SessionManager {
  import opened Wrappers

  type SessionId = nat
  type ThreadId = nat
  type CommandId = nat
  type Target = nat

  datatype SessionState = Created | Starting | Ready | Break | Running | Closing | Closed | Error

  predicate IsTerminal(s: SessionState) {
    s == Closed || s == Error
  }

  predicate IsReusable(s: SessionState) {
    s == Created || s == Starting || s == Ready || s == Break || s == Running
  }

  datatype OperationStatus = OpRunning | OpCancelRequested | OpCanceled | OpFinished | OpFailed

  predicate IsLive(status: OperationStatus) {
    status == OpRunning || status == OpCancelRequested
  }

  datatype Operation = Operation(id: CommandId, status: OperationStatus)

  /**
   * `current` says whether the session has a current operation; `attached` whether it has a backend
   * session id, which the successful end of the startup sets.
   */
  datatype Session = Session(
    target: Target, state: SessionState, current: bool, last: Option<Operation>, attached: bool)

  datatype BackendState = BackendBreak | BackendRunning | BackendClosed

  function StateOf(b: BackendState): SessionState {
    match b
    case BackendBreak => Break
    case BackendRunning => Running
    case BackendClosed => Closed
  }

  datatype Outcome = Failure | ArtifactFailure | Success(final: Option<BackendState>)

  datatype StartupPc = StartupWait | Spawning | Checking | Canceling | Creating | StartupOk
    | CloseWorker(wasClosing: bool) | DropWorker(wasClosing: bool, canceled: bool)
    | StartupErr | FailRegion | SpawnMonitor

  datatype EvalPc =
    | EvalWait
    | EvalLocked
    | NeedsWorker(seen: SessionState)
    | NeedsStart(seen: SessionState)
    | Executing(id: CommandId)
    | Finishing(id: CommandId, status: OperationStatus, next: SessionState, records: bool)

  /** What a thread is about to do. */
  datatype Thread =
    | CreateTail(sid: SessionId)
    | Startup(sid: SessionId, startup: StartupPc)
    | Eval(sid: SessionId, eval: EvalPc)
    | CloseCalled(sid: SessionId, hadWorker: bool)
    | CloseCanceling(sid: SessionId, closing: bool)
    | CloseWait(sid: SessionId)
    | CloseLocked(sid: SessionId)
    | CloseExpired(sid: SessionId, killed: bool)
    | CloseFinishing(sid: SessionId, ok: bool, locked: bool)
    | CloseRegion(sid: SessionId, ok: bool, locked: bool)
    | Watching(sid: SessionId)
    | WorkerLost(sid: SessionId, owed: Option<Record>)
    | Writing(sid: SessionId, record: Record, locked: bool)

  /** A terminal entry of the command log. */
  datatype Record = Record(id: CommandId, status: OperationStatus)

  /** The operation lock of a session; `create_session` adds it after the session itself. */
  datatype Lock = NoLock | Free | HeldBy(holder: ThreadId)

  /** Everything the manager keeps under one session id: the session, its lock, and the registry's entries. */
  datatype Slot = Slot(session: Session, lock: Lock, worker: bool, canceled: bool)

  /**
   * The shared state.  `claims` is a history variable: the commands whose final status some thread has
   * decided inside a critical section and then writes, or has written, to the command log.
   */
  datatype Sys = Sys(
    slots: map<SessionId, Slot>,
    threads: map<ThreadId, Thread>,
    nextId: CommandId,
    claims: map<CommandId, OperationStatus>,
    log: seq<Record>)

  const INITIAL: Sys := Sys(map[], map[], 0, map[], [])

  /** The critical sections of a running thread, with what the outside decides about them. */
  datatype Move =
    | CreateLock
    | StartupLock
    | StartupSpawn(ok: bool)
    | StartupCheck
    | StartupCancel
    | StartupCreate(ok: bool)
    | StartupFinish
    | StartupMonitor(monitor: ThreadId)
    | StartupIsCanceled
    | StartupCloseWorker(ok: bool)
    | StartupFail
    | StartupFailed
    | EvalLock
    | EvalQuery
    | EvalWorker
    | EvalStart
    | EvalEvent(event: BackendState)
    | EvalReturn(outcome: Outcome)
    | EvalFinish
    | CloseRequest
    | CloseKill
    | CloseLock
    | CloseTimeout
    | CloseExpire
    | CloseRemove(ok: bool)
    | CloseForget
    | FinishClose
    | MonitorLost
    | MonitorRemove
    | Write

  /** A tool call arrives, or the thread `tid` makes its next move. */
  datatype Action =
    | Create(target: Target, sid: SessionId, tid: ThreadId)
    | EvalCall(sid: SessionId, tid: ThreadId)
    | CloseCall(sid: SessionId, tid: ThreadId)
    | Step(tid: ThreadId, move: Move)

  /**
   * What one step of a thread does: the new slot of its session, the thread's next position (or its
   * end), a command id it issues, a command whose final status it decides, a record it appends to the
   * command log, and a monitor thread it starts.
   */
  datatype Effect = Effect(
    slot: Slot,
    next: Option<Thread>,
    issues: bool,
    claim: Option<Record>,
    writes: Option<Record>,
    monitor: Option<ThreadId>)

  // ----- Pieces of steps -----

  function Goto(slot: Slot, next: Thread): Option<Effect> {
    Some(Effect(slot, Some(next), false, None, None, None))
  }

  /** The thread ends; if it holds the operation lock, the guard is dropped. */
  function End(slot: Slot, locked: bool): Option<Effect> {
    Some(Effect(if locked then slot.(lock := Free) else slot, None, false, None, None, None))
  }

  /** `kill_once`: marks the worker as canceled if it is registered. */
  function KillOnce(slot: Slot): Slot {
    if slot.worker then slot.(canceled := true) else slot
  }

  function RemoveWorker(slot: Slot): Slot {
    slot.(worker := false, canceled := false)
  }

  predicate IsClosing(s: SessionState) {
    s == Closing || IsTerminal(s)
  }

  /** `finalize_canceled_operation`: a live operation gets its final status. */
  function Finalized(last: Option<Operation>, status: OperationStatus): Option<Operation> {
    if last.Some? && IsLive(last.value.status) then Some(last.value.(status := status)) else last
  }

  /** The record owed for an operation that `Finalized` has just decided. */
  function Owed(last: Option<Operation>, status: OperationStatus): Option<Record> {
    if last.Some? && IsLive(last.value.status) then Some(Record(last.value.id, status)) else None
  }

  /** Whether `finish_operation` changes the session. */
  predicate FinishApplies(state: SessionState, next: SessionState, status: OperationStatus) {
    state != Closing
    && (IsTerminal(state) ==> state == Closed && next == Closed && status == OpFinished)
  }

  // ----- Steps -----

  /** Some reusable session already has this target. */
  ghost predicate HasReusable(s: Sys, target: Target) {
    exists sid :: sid in s.slots && s.slots[sid].session.target == target && IsReusable(s.slots[sid].session.state)
  }

  /** The step `a` takes in `s`; nothing if it is not possible there. */
  ghost function Do(s: Sys, a: Action): Option<Sys> {
    match a
    case Create(target, sid, tid) =>
      if HasReusable(s, target) then Some(s)
      else if sid in s.slots || tid in s.threads then None
      else
        var slot := Slot(Session(target, Starting, true, None, false), NoLock, false, false);
        Some(s.(slots := s.slots[sid := slot], threads := s.threads[tid := CreateTail(sid)]))
    case EvalCall(sid, tid) =>
      if sid !in s.slots || s.slots[sid].lock.NoLock? || tid in s.threads then None
      else Some(s.(threads := s.threads[tid := Eval(sid, EvalWait)]))
    case CloseCall(sid, tid) =>
      if sid !in s.slots || s.slots[sid].lock.NoLock? || tid in s.threads then None
      else Some(s.(threads := s.threads[tid := CloseCalled(sid, s.slots[sid].worker)]))
    case Step(tid, move) =>
      if tid !in s.threads || s.threads[tid].sid !in s.slots then None
      else
        var sid := s.threads[tid].sid;
        var e := Take(tid, move, s.threads[tid], s.slots[sid], s.nextId);
        if e.None? || (e.value.monitor.Some? && e.value.monitor.value in s.threads) then None
        else Some(Apply(s, tid, sid, e.value))
  }

  function Apply(s: Sys, tid: ThreadId, sid: SessionId, e: Effect): Sys {
    Sys(
      s.slots[sid := e.slot],
      WithMonitor(if e.next.Some? then s.threads[tid := e.next.value] else s.threads - {tid}, sid, e.monitor),
      if e.issues then s.nextId + 1 else s.nextId,
      if e.claim.Some? then s.claims[e.claim.value.id := e.claim.value.status] else s.claims,
      if e.writes.Some? then s.log + [e.writes.value] else s.log)
  }

  function WithMonitor(threads: map<ThreadId, Thread>, sid: SessionId,
      monitor: Option<ThreadId>): map<ThreadId, Thread> {
    if monitor.Some? then threads[monitor.value := Watching(sid)] else threads
  }

  function Take(tid: ThreadId, move: Move, t: Thread, slot: Slot, nextId: CommandId): Option<Effect> {
    match t
    case CreateTail(_) => TakeStartup(tid, move, t, slot)
    case Startup(_, _) => TakeStartup(tid, move, t, slot)
    case Eval(_, _) => TakeEval(tid, move, t, slot, nextId)
    case _ => TakeOther(tid, move, t, slot)
  }

  function TakeStartup(tid: ThreadId, move: Move, t: Thread, slot: Slot): Option<Effect>
    requires t.CreateTail? || t.Startup?
  {
    var sid, session := t.sid, slot.session;
    if t.CreateTail? then
      if move.CreateLock? && slot.lock.NoLock? then Goto(slot.(lock := Free), Startup(sid, StartupWait)) else None
    else match t.startup
      case StartupWait =>
        if move.StartupLock? && slot.lock.Free?
        then Goto(slot.(lock := HeldBy(tid)), Startup(sid, Spawning))
        else None
      case Spawning =>
        if !move.StartupSpawn? then None
        else if !move.ok then Goto(slot, Startup(sid, StartupErr))
        else Goto(slot.(worker := true, canceled := false), Startup(sid, Checking))
      case Checking =>
        if !move.StartupCheck? then None
        else Goto(slot, Startup(sid, if IsClosing(session.state) then Canceling else Creating))
      case Canceling =>
        if !move.StartupCancel? then None else Goto(KillOnce(slot), CloseFinishing(sid, true, true))
      case Creating =>
        if !move.StartupCreate? then None
        else Goto(slot, Startup(sid, if move.ok then StartupOk else StartupErr))
      case StartupOk =>
        if !move.StartupFinish? then None
        else if IsClosing(session.state) then Goto(slot, Startup(sid, CloseWorker(session.state == Closing)))
        else
          Goto(slot.(session := session.(state := Break, current := false, attached := true)),
               Startup(sid, SpawnMonitor))
      case SpawnMonitor =>
        if !move.StartupMonitor? then None
        else if !slot.worker then End(slot, true)
        else Some(Effect(slot.(lock := Free), None, false, None, None, Some(move.monitor)))
      case CloseWorker(wasClosing) =>
        if !move.StartupIsCanceled? then None
        else Goto(slot, Startup(sid, DropWorker(wasClosing, slot.canceled)))
      case DropWorker(wasClosing, canceled) =>
        if !move.StartupCloseWorker? || ((canceled || !slot.worker) && !move.ok) then None
        else if wasClosing then Goto(RemoveWorker(slot), CloseFinishing(sid, move.ok, true))
        else End(RemoveWorker(slot), true)
      case StartupErr =>
        if !move.StartupFail? then None else Goto(RemoveWorker(slot), Startup(sid, FailRegion))
      case FailRegion =>
        if !move.StartupFailed? then None
        else if session.state == Closing then
          End(slot.(session := session.(state := Closed, current := false)), true)
        else if !IsTerminal(session.state) then
          End(slot.(session := session.(state := Error, current := false)), true)
        else End(slot, true)
  }

  function TakeEval(tid: ThreadId, move: Move, t: Thread, slot: Slot, nextId: CommandId): Option<Effect>
    requires t.Eval?
  {
    var sid, session := t.sid, slot.session;
    match t.eval
    case EvalWait =>
      if move.EvalLock? && slot.lock.Free?
      then Goto(slot.(lock := HeldBy(tid)), Eval(sid, EvalLocked))
      else None
    case EvalLocked =>
      if !move.EvalQuery? then None
      else if session.state != Ready && session.state != Break then End(slot, true)
      else Goto(slot, Eval(sid, NeedsWorker(session.state)))
    case NeedsWorker(seen) =>
      if !move.EvalWorker? then None
      else if !slot.worker then End(slot, true)
      else Goto(slot, Eval(sid, NeedsStart(seen)))
    case NeedsStart(seen) =>
      if !move.EvalStart? then None
      else
        var started := if IsClosing(session.state) then session
          else session.(state := seen, current := true, last := Some(Operation(nextId, OpRunning)));
        Some(Effect(slot.(session := started), Some(Eval(sid, Executing(nextId))), true, None, None, None))
    case Executing(id) =>
      if move.EvalEvent? then
        if session.state == Closing || (IsTerminal(session.state) && session.state != Closed) then Goto(slot, t)
        else Goto(slot.(session := session.(state := StateOf(move.event))), t)
      else if !move.EvalReturn? then None
      else Goto(slot, Eval(sid, match move.outcome
          case Failure => Finishing(id, OpFailed, Error, true)
          case ArtifactFailure => Finishing(id, OpFailed, Error, false)
          case Success(final) =>
            Finishing(id, OpFinished, if final.Some? then StateOf(final.value) else session.state, true)))
    case Finishing(id, status, next, records) =>
      if !move.EvalFinish? then None
      else if !FinishApplies(session.state, next, status) then End(slot, true)
      else
        var last := if session.last.Some? then Some(session.last.value.(status := status)) else None;
        var done := slot.(session := session.(state := next, current := false, last := last));
        var record := Record(id, status);
        if records
        then Some(Effect(done, Some(Writing(sid, record, true)), false, Some(record), None, None))
        else End(done, true)
  }

  function TakeOther(tid: ThreadId, move: Move, t: Thread, slot: Slot): Option<Effect>
    requires !t.CreateTail? && !t.Startup? && !t.Eval?
  {
    var sid, session := t.sid, slot.session;
    match t
    case CloseCalled(_, hadWorker) =>
      if !move.CloseRequest? then None
      else if session.state == Closed || session.state == Closing then End(slot, false)
      else
        var cancel := session.current;
        var last := if cancel && session.last.Some? && session.last.value.status == OpRunning
          then Some(session.last.value.(status := OpCancelRequested)) else session.last;
        var closing := hadWorker || cancel;
        var requested := slot.(session := session.(
          state := if closing then Closing else Closed, current := false, last := last));
        if cancel then Goto(requested, CloseCanceling(sid, closing))
        else if closing then Goto(requested, CloseWait(sid))
        else End(requested, false)
    case CloseCanceling(_, closing) =>
      if !move.CloseKill? then None
      else if closing then Goto(KillOnce(slot), CloseWait(sid))
      else End(KillOnce(slot), false)
    case CloseWait(_) =>
      if move.CloseLock? && slot.lock.Free? then Goto(slot.(lock := HeldBy(tid)), CloseLocked(sid))
      else if move.CloseTimeout? && slot.lock.HeldBy? then Goto(slot, CloseExpired(sid, false))
      else None
    case CloseExpired(_, killed) =>
      if !move.CloseExpire? then None
      else if !killed then Goto(KillOnce(slot), CloseExpired(sid, true))
      else Goto(RemoveWorker(slot), CloseFinishing(sid, false, false))
    case CloseLocked(_) =>
      if !move.CloseRemove? || (!slot.worker && !move.ok) then None
      else Goto(RemoveWorker(slot), CloseFinishing(sid, move.ok, true))
    case CloseFinishing(_, ok, locked) =>
      if !move.CloseForget? then None else Goto(RemoveWorker(slot), CloseRegion(sid, ok, locked))
    case CloseRegion(_, ok, locked) =>
      if !move.FinishClose? then None
      else
        var status := if ok then OpCanceled else OpFailed;
        var owed := Owed(session.last, status);
        var done := slot.(session := session.(
          state := if ok then Closed else Error, current := false, last := Finalized(session.last, status)));
        if owed.Some?
        then Some(Effect(done, Some(Writing(sid, owed.value, locked)), false, owed, None, None))
        else End(done, locked)
    case Watching(_) =>
      if !move.MonitorLost? then None
      else if IsClosing(session.state) then End(slot, false)
      else
        var done := slot.(session := session.(
          state := Error, current := false, last := Finalized(session.last, OpFailed)));
        var owed := Owed(session.last, OpFailed);
        Some(Effect(done, Some(WorkerLost(sid, owed)), false, owed, None, None))
    case WorkerLost(_, owed) =>
      if !move.MonitorRemove? then None
      else if owed.Some? then Goto(RemoveWorker(slot), Writing(sid, owed.value, false))
      else End(RemoveWorker(slot), false)
    case Writing(_, record, locked) =>
      if !move.Write? then None
      else Some(Effect(if locked then slot.(lock := Free) else slot, None, false, None, Some(record), None))
  }
}
