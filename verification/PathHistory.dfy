/** What a history of file events says about the path behind a file object or file key pointer. */
module PathHistory {
  import opened Wrappers
  import opened EtwEvents

  predicate HasPath(e: FileIoEvent) {
    e.path.Some? && e.path.value != ""
  }

  predicate MentionsPointer(e: FileIoEvent, pointer: u64) {
    e.fileObject == Some(pointer) || e.fileKey == Some(pointer)
  }

  /** A target cleanup or close of the pointer's file. */
  predicate Forgets(e: FileIoEvent, target: nat, pointer: u64) {
    e.pid == target && (e.kind == Cleanup || e.kind == Close) && MentionsPointer(e, pointer)
  }

  /** A target event that reveals the path behind the pointer. */
  predicate Reveals(e: FileIoEvent, target: nat, pointer: u64) {
    && e.pid == target && e.kind != OpEnd && e.kind != Close && e.kind != Cleanup
    && HasPath(e) && MentionsPointer(e, pointer)
  }

  /** The path known for a pointer: that of the latest revealing event, unless forgotten since. */
  function Known(f: seq<FileIoEvent>, target: nat, pointer: u64): Option<string> {
    if f == [] then None
    else
      var n := |f| - 1;
      if Forgets(f[n], target, pointer) then None
      else if Reveals(f[n], target, pointer) then f[n].path
      else Known(f[..n], target, pointer)
  }

  function KnownOpt(f: seq<FileIoEvent>, target: nat, pointer: Option<u64>): Option<string> {
    if pointer.Some? then Known(f, target, pointer.value) else None
  }

  /** The path and path source given to the row of `e` after the events `f`. */
  function Resolved(f: seq<FileIoEvent>, target: nat, e: FileIoEvent): (Option<string>, Option<PathSource>) {
    if HasPath(e) then (e.path, e.pathSource)
    else if KnownOpt(f, target, e.fileObject).Some? then
      (KnownOpt(f, target, e.fileObject), Some(FileObjectCache))
    else if KnownOpt(f, target, e.fileKey).Some? then
      (KnownOpt(f, target, e.fileKey), Some(FileKeyCache))
    else (None, None)
  }

  lemma KnownStep(f: seq<FileIoEvent>, target: nat, e: FileIoEvent, pointer: u64)
    ensures Known(f + [e], target, pointer) ==
      if Forgets(e, target, pointer) then None
      else if Reveals(e, target, pointer) then e.path
      else Known(f, target, pointer)
  {
    assert (f + [e])[..|f|] == f;
  }

  /** The path cache agrees with the history. */
  ghost predicate Caches(f: seq<FileIoEvent>, target: nat, paths: map<u64, string>) {
    forall pointer: u64 ::
      Known(f, target, pointer) == if pointer in paths then Some(paths[pointer]) else None
  }

  /** A target event revealed the path, and since then none forgot the pointer or revealed a path behind it. */
  ghost predicate IsLatest(f: seq<FileIoEvent>, target: nat, pointer: u64, path: string) {
    exists j :: 0 <= j < |f| && Reveals(f[j], target, pointer) && f[j].path == Some(path)
      && forall k :: j < k < |f| ==> !Forgets(f[k], target, pointer) && !Reveals(f[k], target, pointer)
  }

  /**
   * A pointer's path is known iff some target event revealed it and, since then, no target cleanup or
   * close forgot it and no other event revealed another path.
   */
  lemma {:induction false} KnownIsTheLatestRevealed(f: seq<FileIoEvent>, target: nat, pointer: u64, path: string)
    ensures Known(f, target, pointer) == Some(path) <==> IsLatest(f, target, pointer, path)
  {
    if f != [] {
      var n := |f| - 1;
      KnownIsTheLatestRevealed(f[..n], target, pointer, path);
      if Known(f, target, pointer) == Some(path) {
        if Reveals(f[n], target, pointer) {
          assert f[n].path == Some(path);
        } else {
          var j :| 0 <= j < n && Reveals(f[..n][j], target, pointer) && f[..n][j].path == Some(path)
            && forall k :: j < k < n ==> !Forgets(f[..n][k], target, pointer) && !Reveals(f[..n][k], target, pointer);
          forall k | j < k < |f| ensures !Forgets(f[k], target, pointer) && !Reveals(f[k], target, pointer) {
            assert k < n ==> f[..n][k] == f[k];
          }
          assert f[..n][j] == f[j];
        }
      }
    }
  }

  /** A known path is never empty. */
  lemma {:induction false} KnownPathsAreNotEmpty(f: seq<FileIoEvent>, target: nat, pointer: u64)
    ensures Known(f, target, pointer) != Some("")
  {
    if f != [] {
      KnownPathsAreNotEmpty(f[..|f| - 1], target, pointer);
    }
  }

  /** No row gets an empty path, and a row gets a path source iff its event had none or gave both. */
  lemma ResolvedPathIsNotEmpty(f: seq<FileIoEvent>, target: nat, e: FileIoEvent)
    ensures Resolved(f, target, e).0 != Some("")
    ensures !HasPath(e) ==> (Resolved(f, target, e).0.Some? <==> Resolved(f, target, e).1.Some?)
  {
    if e.fileObject.Some? {
      KnownPathsAreNotEmpty(f, target, e.fileObject.value);
    }
    if e.fileKey.Some? {
      KnownPathsAreNotEmpty(f, target, e.fileKey.value);
    }
  }

  /** Some path is the latest one behind the pointer. */
  ghost predicate HasLatest(f: seq<FileIoEvent>, target: nat, pointer: Option<u64>) {
    pointer.Some? && exists path :: IsLatest(f, target, pointer.value, path)
  }

  lemma KnownOptIsTheLatest(f: seq<FileIoEvent>, target: nat, pointer: Option<u64>)
    ensures KnownOpt(f, target, pointer).Some? <==> HasLatest(f, target, pointer)
    ensures forall path ::
      KnownOpt(f, target, pointer) == Some(path) <==>
        pointer.Some? && IsLatest(f, target, pointer.value, path)
  {
    forall path
      ensures KnownOpt(f, target, pointer) == Some(path) <==>
        pointer.Some? && IsLatest(f, target, pointer.value, path)
    {
      if pointer.Some? {
        KnownIsTheLatestRevealed(f, target, pointer.value, path);
      }
    }
    if KnownOpt(f, target, pointer).Some? {
      assert IsLatest(f, target, pointer.value, KnownOpt(f, target, pointer).value);
    }
  }

  /**
   * Where a row's path comes from: the event itself, or else the latest path behind its file object, or
   * else the latest one behind its file key, and the row names which of these it was.
   */
  lemma PathsComeInOrder(f: seq<FileIoEvent>, target: nat, e: FileIoEvent)
    ensures match Resolved(f, target, e)
      case (Some(path), Some(FileObjectCache)) =>
        if HasPath(e) then e.path == Some(path) && e.pathSource == Some(FileObjectCache)
        else e.fileObject.Some? && IsLatest(f, target, e.fileObject.value, path)
      case (Some(path), Some(FileKeyCache)) =>
        if HasPath(e) then e.path == Some(path) && e.pathSource == Some(FileKeyCache)
        else !HasLatest(f, target, e.fileObject) && e.fileKey.Some? && IsLatest(f, target, e.fileKey.value, path)
      case (Some(path), source) => HasPath(e) && e.path == Some(path) && e.pathSource == source
      case (None, source) =>
        source.None? && !HasPath(e) && !HasLatest(f, target, e.fileObject) && !HasLatest(f, target, e.fileKey)
  {
    hide Known, IsLatest, HasLatest;
    KnownOptIsTheLatest(f, target, e.fileObject);
    KnownOptIsTheLatest(f, target, e.fileKey);
  }
}
