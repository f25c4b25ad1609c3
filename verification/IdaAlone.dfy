/** What each operation on an IDA session comes to when no other thread takes a step on that session meanwhile. */
module IdaAlone {
  import opened Wrappers
  import opened IdaSessions

  /** The first `n` of these moves of one thread, one after the other. */
  function Play(tid: ThreadId, slot: Slot, pc: Pc, moves: seq<Move>, n: nat): Option<(Slot, Pc)>
    requires n <= |moves|
    decreases n
  {
    if n == 0 then Some((slot, pc))
    else match Play(tid, slot, pc, moves, n - 1)
      case None => None
      case Some((s, at)) => Take(tid, moves[n - 1], at, s)
  }

  /** A session nobody works on, bound to a database. */
  predicate IsOpenWith(slot: Slot, database: Database) {
    slot.lock.Free? && slot.state == Ready && slot.entry == slot.database == Some(database)
  }

  /** A session nobody works on, bound to nothing. */
  predicate IsUnbound(slot: Slot) {
    slot.lock.Free? && slot.entry.None? && slot.database.None?
  }

  // ----- Opening -----

  /** An opened database is bound in both places, and the session is Ready. */
  lemma OpeningBinds(tid: ThreadId, slot: Slot, database: Database)
    requires IsUnbound(slot)
    ensures Play(tid, slot, OpenLock, [Go, Opened(database), Go, Go, Go, Upstreams(true), Go], 7)
      == Some((slot.(state := Ready, entry := Some(database), database := Some(database)), Finished))
  {
  }

  /** A database that cannot be opened leaves the session in Error and unbound. */
  lemma FailedOpeningIsError(tid: ThreadId, slot: Slot)
    requires IsUnbound(slot)
    ensures Play(tid, slot, OpenLock, [Go, GoFailing, Go, Go], 4) == Some((slot.(state := Error), Finished))
  {
  }

  // ----- Refreshing -----

  /** A refresh leaves a session with a listed database as it is, and puts one whose database is gone in Error. */
  lemma RefreshFindsLostDatabase(tid: ThreadId, slot: Slot, database: Database)
    requires slot.database == Some(database) && slot.state != Closed && slot.state != Error
    ensures Play(tid, slot, Refresh(Finished), [Go, Upstreams(true)], 2) == Some((slot, Finished))
    ensures Play(tid, slot, Refresh(Finished), [Go, Upstreams(false), Go], 3)
      == Some((slot.(state := Error), Finished))
  {
  }

  /** A session that has ended, or is bound to nothing, is not looked up. */
  lemma EndedSessionIsNotRefreshed(tid: ThreadId, slot: Slot)
    requires slot.state == Closed || slot.state == Error || slot.database.None?
    ensures Play(tid, slot, Refresh(Finished), [Go], 1) == Some((slot, Finished))
  {
  }

  // ----- Closing -----

  /** Up to the close proper: the lock, a refresh, a look at the state and the entry, and another refresh. */
  const INTO_CLOSE: seq<Move> := [Go, Go, Upstreams(true), Go, Go, Go, Upstreams(true), Go]

  lemma CloseBegins(tid: ThreadId, slot: Slot, database: Database, save: bool)
    requires IsOpenWith(slot, database)
    ensures Play(tid, slot, CloseLock(save), INTO_CLOSE, 8)
      == Some((slot.(state := Closing, lock := HeldBy(tid)),
               if save then Saving(Ready, database, Some(database)) else RemoveEntry(database)))
  {
  }

  /** The database is closed: the session is Closed and unbound in both places. */
  lemma CloseUnbinds(tid: ThreadId, slot: Slot, database: Database)
    requires slot.lock == HeldBy(tid)
    ensures Play(tid, slot, RemoveEntry(database), [Go, Go, Go, Go], 4)
      == Some((slot.(state := Closed, entry := None, database := None, lock := Free), Finished))
  {
  }

  lemma {:induction false} PlayOn(tid: ThreadId, slot: Slot, pc: Pc, moves: seq<Move>, n: nat, slot': Slot, pc': Pc,
      k: nat)
    requires n + k <= |moves| && Play(tid, slot, pc, moves, n) == Some((slot', pc'))
    ensures Play(tid, slot, pc, moves, n + k) == Play(tid, slot', pc', moves[n..], k)
    decreases k
  {
    hide Take;
    if k > 0 {
      PlayOn(tid, slot, pc, moves, n, slot', pc', k - 1);
    }
  }

  lemma {:induction false} PlaySame(tid: ThreadId, slot: Slot, pc: Pc, moves: seq<Move>, more: seq<Move>, n: nat)
    requires n <= |moves|
    ensures Play(tid, slot, pc, moves + more, n) == Play(tid, slot, pc, moves, n)
    decreases n
  {
    hide Take;
    if n > 0 {
      PlaySame(tid, slot, pc, moves, more, n - 1);
    }
  }

  /** What the thread does after the way into the close. */
  lemma CloseGoesOn(tid: ThreadId, slot: Slot, database: Database, save: bool, more: seq<Move>, k: nat)
    requires IsOpenWith(slot, database) && k <= |more|
    ensures Play(tid, slot, CloseLock(save), INTO_CLOSE + more, 8 + k)
      == Play(tid, slot.(state := Closing, lock := HeldBy(tid)),
              if save then Saving(Ready, database, Some(database)) else RemoveEntry(database), more, k)
  {
    CloseBegins(tid, slot, database, save);
    hide Take;
    PlaySame(tid, slot, CloseLock(save), INTO_CLOSE, more, 8);
    PlayOn(tid, slot, CloseLock(save), INTO_CLOSE + more, 8, slot.(state := Closing, lock := HeldBy(tid)),
      if save then Saving(Ready, database, Some(database)) else RemoveEntry(database), k);
    assert (INTO_CLOSE + more)[8..] == more;
  }

  lemma SavesEnd(tid: ThreadId, slot: Slot, database: Database)
    requires slot.lock == HeldBy(tid)
    ensures var pc := Saving(Ready, database, Some(database));
      && Play(tid, slot, pc, [Save(Saved), Go, Go, Go, Go], 1) == Some((slot, RemoveEntry(database)))
      && Play(tid, slot, pc, [Save(SaveFailed), Go, Go], 3) == Some((slot.(state := Ready, lock := Free), Finished))
      && Play(tid, slot, pc, [Save(OutputNotWritten), Go], 2) == Some((slot.(lock := Free), Finished))
  {
  }

  /** Closing an open session without saving, or with a save that succeeds, leaves it Closed and unbound. */
  lemma OpenSessionIsClosed(tid: ThreadId, slot: Slot, database: Database)
    requires IsOpenWith(slot, database)
    ensures var closed := slot.(state := Closed, entry := None, database := None);
      && Play(tid, slot, CloseLock(false), INTO_CLOSE + [Go, Go, Go, Go], 12) == Some((closed, Finished))
      && Play(tid, slot, CloseLock(true), INTO_CLOSE + [Save(Saved), Go, Go, Go, Go], 13) == Some((closed, Finished))
  {
    hide Play, INTO_CLOSE;
    var inside := slot.(state := Closing, lock := HeldBy(tid));
    CloseUnbinds(tid, inside, database);
    CloseGoesOn(tid, slot, database, false, [Go, Go, Go, Go], 4);
    CloseGoesOn(tid, slot, database, true, [Save(Saved), Go, Go, Go, Go], 5);
    SavesEnd(tid, inside, database);
    PlayOn(tid, inside, Saving(Ready, database, Some(database)), [Save(Saved), Go, Go, Go, Go], 1, inside,
      RemoveEntry(database), 4);
    assert [Save(Saved), Go, Go, Go, Go][1..] == [Go, Go, Go, Go];
  }

  /** A save that fails leaves the session as it was; one whose output is not written leaves it bound, but Closing. */
  lemma FailedSaveKeepsSession(tid: ThreadId, slot: Slot, database: Database)
    requires IsOpenWith(slot, database)
    ensures Play(tid, slot, CloseLock(true), INTO_CLOSE + [Save(SaveFailed), Go, Go], 11) == Some((slot, Finished))
    ensures Play(tid, slot, CloseLock(true), INTO_CLOSE + [Save(OutputNotWritten), Go], 10)
      == Some((slot.(state := Closing), Finished))
  {
    hide Play, INTO_CLOSE;
    CloseGoesOn(tid, slot, database, true, [Save(SaveFailed), Go, Go], 3);
    CloseGoesOn(tid, slot, database, true, [Save(OutputNotWritten), Go], 2);
    SavesEnd(tid, slot.(state := Closing, lock := HeldBy(tid)), database);
  }

  /** A session that is Closed, or bound to nothing, is not closed again. */
  lemma NothingToClose(tid: ThreadId, slot: Slot, save: bool)
    requires slot.lock.Free? && slot.database.None?
    requires slot.state == Closed || slot.entry.None?
    ensures var moves := if slot.state == Closed then [Go, Go, Go, Go] else [Go, Go, Go, Go, Go];
      if slot.state == Closed then Play(tid, slot, CloseLock(save), moves, 4) == Some((slot, Finished))
      else Play(tid, slot, CloseLock(save), moves, 5) == Some((slot, Finished))
  {
  }

  /** A session whose database turns out to be gone is closed all the same. */
  lemma LostSessionIsClosed(tid: ThreadId, slot: Slot, database: Database)
    requires IsOpenWith(slot, database)
    ensures Play(tid, slot, CloseLock(false),
        [Go, Go, Upstreams(false), Go, Go, Go, Go, Go, Go, Go, Go, Go], 12)
      == Some((slot.(state := Closed, entry := None, database := None), Finished))
  {
  }

  // ----- Calling a tool -----

  /** A call for an open session goes upstream with its database, and changes nothing here. */
  lemma OpenSessionIsCalled(tid: ThreadId, slot: Slot, database: Database)
    requires IsOpenWith(slot, database)
    ensures var moves := [Go, Go, Upstreams(true), Go, Go, Go, Go];
      && Play(tid, slot, ToolLock, moves, 5) == Some((slot.(lock := HeldBy(tid)), Calling(database)))
      && Play(tid, slot, ToolLock, moves, 7) == Some((slot, Finished))
  {
  }

  /** A call for a session that is not Ready, or whose database is gone, does not. */
  lemma OtherSessionIsNotCalled(tid: ThreadId, slot: Slot, database: Database)
    ensures IsOpenWith(slot, database) ==>
      Play(tid, slot, ToolLock, [Go, Go, Upstreams(false), Go, Go, Go], 6) == Some((slot.(state := Error), Finished))
    ensures IsUnbound(slot) && slot.state != Ready ==>
      Play(tid, slot, ToolLock, [Go, Go, Go, Go], 4) == Some((slot, Finished))
  {
  }
}
