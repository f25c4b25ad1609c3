/**
 * IDA sessions and the upstream databases they are bound to.
 *
 * A step is one critical section of one thread, or the return of one call to the upstream supervisor.
 * The operation lock of a session is held over many steps; health refreshes run without it.
 */
module IdaSessions {
  import opened Wrappers

  type SessionId = nat
  type ThreadId = nat
  type Database = nat
  type Target = nat

  datatype SessionState = Starting | Ready | Closing | Closed | Error

  predicate IsReusable(s: SessionState) {
    s == Starting || s == Ready
  }

  predicate IsTerminal(s: SessionState) {
    s == Closed || s == Error
  }

  datatype Lock = Free | HeldBy(holder: ThreadId)

  /**
   * What is kept under one session id: the session's target, state and database, its entry in the map
   * of database ids, and its operation lock, which is made when it is first asked for.
   */
  datatype Slot = Slot(
    target: Target, state: SessionState, database: Option<Database>, entry: Option<Database>, lock: Lock)

  datatype SaveOutcome = Saved | SaveFailed | OutputNotWritten

  /** What a thread is about to do.  A refresh goes on with `next` when it is done. */
  datatype Pc =
    | Refresh(next: Pc)
    | Listed(database: Database, next: Pc)
    | Unlisted(next: Pc)
    | OpenLock
    | Opening
    | BindEntry(database: Database)
    | BindSession(database: Database)
    | OpenFailed
    | CloseLock(save: bool)
    | CloseRead(save: bool, at: Binding)
    | CloseLookup(save: bool, previous: SessionState, at: Binding)
    | CloseBegin(save: bool, previous: SessionState, database: Database, at: Binding)
    | Saving(previous: SessionState, database: Database, at: Binding)
    | Restore(previous: SessionState, database: Database, at: Binding)
    | RemoveEntry(database: Database)
    | Unbind
    | ToolLock
    | ToolReady
    | ToolLookup
    | Calling(database: Database)
    | Release
    | Finished

  /** The binding of a session at the time its lock was taken. */
  type Binding = Option<Database>

  datatype CreatePc = WantCreateLock | CheckReusable | InsertSession

  datatype Thread = Creating(target: Target, create: CreatePc) | Working(sid: SessionId, pc: Pc)

  /** A call to the upstream supervisor with a database, made for a session. */
  datatype Upstream = Upstream(tid: ThreadId, sid: SessionId, database: Database)

  datatype Sys = Sys(
    slots: map<SessionId, Slot>,
    threads: map<ThreadId, Thread>,
    createLock: Option<ThreadId>)

  const INITIAL: Sys := Sys(map[], map[], None)

  datatype Move =
    | Go
    | GoFailing
    | Opened(database: Database)
    | Save(outcome: SaveOutcome)
    | Upstreams(listed: bool)

  datatype Action =
    | CreateCall(tid: ThreadId, target: Target)
    | CreateStep(tid: ThreadId, sid: SessionId)
    | CloseCall(tid: ThreadId, sid: SessionId, save: bool)
    | ToolCall(tid: ThreadId, sid: SessionId)
    | HealthCall(tid: ThreadId, sid: SessionId)
    | Step(tid: ThreadId, move: Move)

  function Goto(slot: Slot, pc: Pc): Option<(Slot, Pc)> {
    Some((slot, pc))
  }

  /** Some reusable session already has this target. */
  ghost predicate HasReusable(s: Sys, target: Target) {
    exists sid :: sid in s.slots && s.slots[sid].target == target && IsReusable(s.slots[sid].state)
  }

  ghost function Do(s: Sys, a: Action): Option<Sys> {
    match a
    case CreateCall(tid, target) =>
      if tid in s.threads then None else Some(s.(threads := s.threads[tid := Creating(target, WantCreateLock)]))
    case CreateStep(tid, sid) =>
      if tid !in s.threads || !s.threads[tid].Creating? then None else TakeCreate(s, tid, sid, s.threads[tid])
    case CloseCall(tid, sid, save) =>
      if tid in s.threads || sid !in s.slots then None
      else Some(s.(threads := s.threads[tid := Working(sid, CloseLock(save))]))
    case ToolCall(tid, sid) =>
      if tid in s.threads || sid !in s.slots then None
      else Some(s.(threads := s.threads[tid := Working(sid, ToolLock)]))
    case HealthCall(tid, sid) =>
      if tid in s.threads || sid !in s.slots then None
      else Some(s.(threads := s.threads[tid := Working(sid, Refresh(Finished))]))
    case Step(tid, move) =>
      if tid !in s.threads || !s.threads[tid].Working? || s.threads[tid].sid !in s.slots then None
      else
        var t := s.threads[tid];
        match Take(tid, move, t.pc, s.slots[t.sid])
        case None => None
        case Some((slot, pc)) => Some(Sys(
          s.slots[t.sid := slot],
          if pc == Finished then s.threads - {tid} else s.threads[tid := Working(t.sid, pc)],
          if pc == Finished && s.createLock == Some(tid) then None else s.createLock))
  }

  /** `create_session` up to the new session, under the create lock. */
  ghost function TakeCreate(s: Sys, tid: ThreadId, sid: SessionId, t: Thread): Option<Sys>
    requires t.Creating?
  {
    match t.create
    case WantCreateLock =>
      if s.createLock.Some? then None
      else Some(s.(createLock := Some(tid), threads := s.threads[tid := Creating(t.target, CheckReusable)]))
    case CheckReusable =>
      if HasReusable(s, t.target) then Some(s.(createLock := None, threads := s.threads - {tid}))
      else Some(s.(threads := s.threads[tid := Creating(t.target, InsertSession)]))
    case InsertSession =>
      if sid in s.slots then None
      else Some(s.(slots := s.slots[sid := Slot(t.target, Starting, None, None, Free)],
                   threads := s.threads[tid := Working(sid, OpenLock)]))
  }

  /** The step of one thread on its session's slot. */
  function Take(tid: ThreadId, move: Move, pc: Pc, slot: Slot): Option<(Slot, Pc)> {
    match pc
    case Refresh(next) =>
      if IsTerminal(slot.state) || slot.database.None? then Goto(slot, next)
      else Goto(slot, Listed(slot.database.value, next))
    case Listed(_, next) =>
      if !move.Upstreams? then None else Goto(slot, if move.listed then next else Unlisted(next))
    case Unlisted(next) => Goto(slot.(state := Error), next)
    case OpenLock => if slot.lock.HeldBy? then None else Goto(slot.(lock := HeldBy(tid)), Opening)
    case Opening => if move.Opened? then Goto(slot, BindEntry(move.database)) else Goto(slot, OpenFailed)
    case BindEntry(database) => Goto(slot.(entry := Some(database)), BindSession(database))
    case BindSession(database) => Goto(slot.(state := Ready, database := Some(database)), Refresh(Release))
    case OpenFailed => Goto(slot.(state := Error), Release)
    case CloseLock(save) =>
      if slot.lock.HeldBy? then None
      else Goto(slot.(lock := HeldBy(tid)), Refresh(CloseRead(save, slot.entry)))
    case CloseRead(save, at) =>
      if slot.state == Closed then Goto(slot, Release) else Goto(slot, CloseLookup(save, slot.state, at))
    case CloseLookup(save, previous, at) =>
      if slot.entry.None? then Goto(slot, Release)
      else Goto(slot, Refresh(CloseBegin(save, previous, slot.entry.value, at)))
    case CloseBegin(save, previous, database, at) =>
      Goto(slot.(state := Closing), if save then Saving(previous, database, at) else RemoveEntry(database))
    case Saving(previous, database, at) =>
      if !move.Save? then None
      else if move.outcome == Saved then Goto(slot, RemoveEntry(database))
      else if move.outcome == SaveFailed then Goto(slot, Restore(previous, database, at))
      else Goto(slot, Release)
    case Restore(previous, _, _) => Goto(slot.(state := previous), Release)
    case RemoveEntry(_) => Goto(slot.(entry := None), Unbind)
    case Unbind => Goto(slot.(state := Closed, database := None), Refresh(Release))
    case ToolLock => if slot.lock.HeldBy? then None else Goto(slot.(lock := HeldBy(tid)), Refresh(ToolReady))
    case ToolReady => Goto(slot, if slot.state == Ready then ToolLookup else Release)
    case ToolLookup => if slot.entry.None? then Goto(slot, Release) else Goto(slot, Calling(slot.entry.value))
    case Calling(_) => Goto(slot, Release)
    case Release => Goto(slot.(lock := Free), Finished)
    case Finished => None
  }

  /** The call to the upstream supervisor the thread is waiting for, with the database it names. */
  function UpstreamOf(tid: ThreadId, t: Thread): Option<Upstream> {
    if t.Creating? then None
    else match t.pc
      case Calling(database) => Some(Upstream(tid, t.sid, database))
      case Saving(_, database, _) => Some(Upstream(tid, t.sid, database))
      case _ => None
  }
}
