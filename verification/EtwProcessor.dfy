/**
 * The ETW trace processor: one mutable object fed with decoded records.
 *
 * The ghost field `history` holds every record the object has looked at.  `Valid()` says that each
 * real field is what the history functions of the other modules make of it; every `Process` method
 * keeps that while extending the history by its own record.
 */
module EtwProcessing {
  import opened Wrappers
  import opened EtwEvents
  import opened EventIndex
  import opened StackHistory
  import opened StackParking
  import Irp = IrpHistory
  import Loads = ModuleHistory
  import Paths = PathHistory
  import Modules = ModuleTable

  datatype FileIoSummary = FileIoSummary(
    counts: map<FileIoKind, nat>, stack: Modules.StackStats, pathResolved: nat, pathUnresolved: nat,
    matchedOpEnds: nat, unmatchedOpEnds: nat, incomplete: nat, reused: nat)

  datatype LifecycleSummary = LifecycleSummary(counts: map<LifecycleKind, nat>, stack: Modules.StackStats)

  datatype Summary = Summary(process: Option<LifecycleSummary>, fileIo: Option<FileIoSummary>)

  function LifecycleCountMap(): (counts: map<LifecycleKind, nat>)
    ensures forall k: LifecycleKind :: k in counts && counts[k] == 0
  {
    EveryLifecycleKindIsCounted();
    map k | k in LIFECYCLE_KINDS :: 0
  }

  function FileIoCountMap(): (counts: map<FileIoKind, nat>)
    ensures forall k: FileIoKind :: k in counts <==> k != OpEnd && k != Close
    ensures forall k :: k in counts ==> counts[k] == 0
  {
    CountedKindsAreAllButTwo();
    map k | k in COUNTED_FILE_KINDS :: 0
  }

  /** Resolves one row's addresses, adds them to the counts, and puts the outermost frame first. */
  method FinalizeStack(
    addresses: seq<u64>, modules: seq<Modules.ModuleInterval>, timestamp: int, stats: Modules.StackStats)
    returns (finished: seq<Frame>, counted: Modules.StackStats)
    ensures finished == Modules.Finished(addresses, modules, timestamp)
    ensures counted == Modules.StackStats(
      stats.total + |finished|, stats.resolved + Modules.Inside(finished),
      stats.unresolved + |finished| - Modules.Inside(finished))
  {
    var stack := Modules.ResolveAll(addresses, modules, timestamp);
    var inside := Modules.Inside(stack);
    counted := Modules.StackStats(
      stats.total + |stack|, stats.resolved + inside, stats.unresolved + (|stack| - inside));
    Modules.ReversalKeepsInside(stack);
    finished := Modules.Reversed(stack);
  }

  function LifecycleStacks(rows: seq<LifecycleRow>): seq<seq<Frame>> {
    seq(|rows|, i requires 0 <= i < |rows| => rows[i].stack)
  }

  function FileStacks(rows: seq<FileIoRow>): seq<seq<Frame>> {
    seq(|rows|, i requires 0 <= i < |rows| => rows[i].stack)
  }

  lemma EmptyHistory(target: nat, settings: Settings)
    ensures Irp.RowsAfter([], target) == []
    ensures Irp.Tracks([], target, map[], {})
    ensures Irp.Tallied([], target, Irp.Tally(0, 0, 0, 0, 0))
    ensures Paths.Caches([], target, map[])
    ensures LifecycleRows([]) == []
    ensures ShownLifecycle([], target, settings) == []
    ensures Conserved([], [], [], map[], multiset{})
  {
  }

  /** `target.contains`-checked append of a stack's frames to those a row has. */
  method AppendStackFrames(frames: seq<u64>, source: seq<u64>) returns (result: seq<u64>)
    ensures result == Appended(frames, source)
  {
    result := frames;
    for i := 0 to |source|
      invariant result == Appended(frames, source[..i])
    {
      assert source[..i + 1][..i] == source[..i];
      if source[i] != 0 && source[i] !in result {
        result := result + [source[i]];
      }
    }
    assert source[..|source|] == source;
  }

  // ----- What a report says -----

  /** The figures of a summary, stacks apart: what the history makes of every request, path and kind. */
  ghost predicate Summarises(s: Summary, h: seq<Event>, target: nat, settings: Settings) {
    && (s.process.Some? <==> settings.process)
    && (s.fileIo.Some? <==> settings.fileIo)
    && (settings.process ==> forall k: LifecycleKind ::
          k in s.process.value.counts
          && s.process.value.counts[k] == CountLifecycleKind(TargetLifecycle(h, target), k))
    && (settings.fileIo ==> SummarisesFiles(s.fileIo.value, FileIoEvents(h), target))
  }

  ghost predicate SummarisesFiles(io: FileIoSummary, f: seq<FileIoEvent>, target: nat) {
    && io.matchedOpEnds == Irp.Count(Irp.Fates(f, target), Irp.Completed)
    && io.reused == Irp.Count(Irp.Fates(f, target), Irp.Displaced)
    && io.unmatchedOpEnds == Irp.UnansweringCount(f, target)
    && io.incomplete == Irp.Incomplete(Irp.RowsAfter(f, target))
    && io.pathResolved == WithPath(Irp.RowsAfter(f, target))
    && io.pathResolved + io.pathUnresolved == |Irp.RowsAfter(f, target)|
    && SumOfCounts(OpenedEvents(f, target), COUNTED_FILE_KINDS) == |Irp.RowsAfter(f, target)|
    && (forall k :: k in COUNTED_FILE_KINDS ==>
          k in io.counts && io.counts[k] == CountFileKind(OpenedEvents(f, target), k))
  }

  /**
   * The stack of a row as it is reported: the row's own addresses and those of the stacks that belong to
   * it, resolved as of the row's timestamp against all modules the trace has shown.
   */
  ghost function ReportedStack(h: seq<Event>, target: nat, settings: Settings, row: StackTarget, own: seq<u64>,
      timestamp: int): seq<Frame> {
    Modules.Finished(
      FramesOf(own, BookOf(h, target, settings).attachments, row),
      Modules.ModulesAfter(TargetLifecycle(h, target)),
      timestamp)
  }

  ghost predicate ReportsLifecycle(rows: seq<LifecycleRow>, h: seq<Event>, target: nat, settings: Settings) {
    var shown := ShownLifecycle(h, target, settings);
    && |rows| == |shown|
    && forall i :: 0 <= i < |shown| ==>
      var e := shown[i];
      rows[i] == LifecycleRow(
        i + 1, e.kind, e.pid, e.tid, e.parentPid, e.imagePath, e.imageBase, e.imageSize,
        ReportedStack(h, target, settings, LifecycleTarget(i), e.stack, e.timestamp))
  }

  ghost predicate ReportsFiles(rows: seq<FileIoRow>, h: seq<Event>, target: nat, settings: Settings) {
    var f := FileIoEvents(h);
    var begun := OpenedEvents(f, target);
    && |rows| == |begun| == |Irp.RowsAfter(f, target)|
    && forall i :: 0 <= i < |begun| ==> rows[i] == Irp.RowsAfter(f, target)[i].(
      stack := ReportedStack(h, target, settings, FileIoTarget(i), begun[i].stack, begun[i].timestamp))
  }

  /**
   * On a trace whose lifecycle records are in timestamp order, every reported stack reads as if it had been
   * resolved with the modules shown up to the row's own timestamp.
   */
  lemma StacksReadAsOfTheirOwnTime(h: seq<Event>, target: nat, settings: Settings, row: StackTarget, own: seq<u64>,
      timestamp: int)
    requires Modules.Nondecreasing(TargetLifecycle(h, target))
    ensures var loads := TargetLifecycle(h, target);
      ReportedStack(h, target, settings, row, own, timestamp) == Modules.Finished(
        FramesOf(own, BookOf(h, target, settings).attachments, row),
        Modules.ModulesAfter(loads[..Modules.SeenBy(loads, timestamp)]), timestamp)
  {
    Modules.OrderedTraceResolvesOnline(
      TargetLifecycle(h, target), FramesOf(own, BookOf(h, target, settings).attachments, row), timestamp);
  }

  /** Every frame of a reported stack names the module that owns its address, by loads and unloads alone. */
  lemma ReportedFramesAreOwned(h: seq<Event>, target: nat, settings: Settings, row: StackTarget, own: seq<u64>,
      timestamp: int)
    ensures var addresses := FramesOf(own, BookOf(h, target, settings).attachments, row);
      var stack := ReportedStack(h, target, settings, row, own, timestamp);
      && |stack| == |addresses|
      && forall i :: 0 <= i < |stack| ==>
        Loads.IsFrameOf(TargetLifecycle(h, target), addresses[|stack| - 1 - i], timestamp, stack[i])
  {
    hide BookOf, TargetLifecycle, FramesOf, Loads.IsFrameOf, Modules.ModulesAfter, Modules.Resolve;
    var addresses := FramesOf(own, BookOf(h, target, settings).attachments, row);
    forall i | 0 <= i < |addresses|
      ensures Loads.IsFrameOf(TargetLifecycle(h, target), addresses[|addresses| - 1 - i], timestamp,
                              ReportedStack(h, target, settings, row, own, timestamp)[i])
    {
      Loads.ResolvesToItsOwner(TargetLifecycle(h, target), addresses[|addresses| - 1 - i], timestamp);
    }
  }

  class EtwProcessor {
    const target: nat
    const settings: Settings

    var lifecycleRows: seq<LifecycleRow>
    var lifecycleTimestamps: seq<int>
    var lifecycleThreads: seq<nat>
    var lifecycleAddresses: seq<seq<u64>>
    var fileRows: seq<FileIoRow>
    var fileTimestamps: seq<int>
    var fileThreads: seq<nat>
    var fileAddresses: seq<seq<u64>>
    var pendingIrps: map<u64, nat>
    var ignoredIrps: set<u64>
    var eventIndex: map<int, seq<StackTarget>>
    var parked: Parked
    var paths: map<u64, string>
    var modules: seq<Modules.ModuleInterval>
    var lifecycleCounts: map<LifecycleKind, nat>
    var fileCounts: map<FileIoKind, nat>
    var lifecycleStats: Modules.StackStats
    var fileStats: Modules.StackStats
    var pathResolved: nat
    var pathUnresolved: nat
    var rawSequence: nat
    var matchedOpEnds: nat
    var unmatchedOpEnds: nat
    var reusedIrps: nat
    var stackWalksSeen: nat
    var stackWalksMatched: nat
    var stackWalksDropped: nat

    ghost var history: seq<Event>
    ghost var attachments: seq<Attachment>
    ghost var dropped: seq<StackWalkEvent>

    // ----- What the fields mean -----

    /** The IRP maps and counters agree with the fates of the rows, of `accepted` file records. */
    ghost predicate IrpsMatch(f: seq<FileIoEvent>, accepted: int)
      reads `pendingIrps, `ignoredIrps, `matchedOpEnds, `unmatchedOpEnds, `reusedIrps
    {
      && accepted >= 0
      && Irp.Kept(f, target, pendingIrps, ignoredIrps, accepted, matchedOpEnds, unmatchedOpEnds, reusedIrps)
    }

    ghost predicate PathCountsMatch(f: seq<FileIoEvent>)
      reads `pathResolved, `pathUnresolved
    {
      && pathResolved == WithPath(Irp.RowsAfter(f, target))
      && pathResolved + pathUnresolved == |Irp.RowsAfter(f, target)|
    }

    /** The columns kept beside the file rows, and the counters per kind. */
    ghost predicate FileColumnsMatch(f: seq<FileIoEvent>)
      reads `fileTimestamps, `fileThreads, `fileCounts
    {
      var begun := OpenedEvents(f, target);
      && |fileTimestamps| == |fileThreads| == |begun|
      && (forall i :: 0 <= i < |begun| ==>
        fileTimestamps[i] == begun[i].timestamp && fileThreads[i] == begun[i].thread)
      && (forall k: FileIoKind :: k in fileCounts <==> k != OpEnd && k != Close)
      && (forall k :: k in fileCounts ==> fileCounts[k] == CountFileKind(begun, k))
    }

    ghost predicate LifecycleColumnsMatch(shown: seq<LifecycleEvent>)
      reads `lifecycleRows, `lifecycleTimestamps, `lifecycleThreads, `lifecycleCounts
    {
      && lifecycleRows == LifecycleRows(shown)
      && |lifecycleTimestamps| == |lifecycleThreads| == |shown|
      && (forall i :: 0 <= i < |shown| ==>
        lifecycleTimestamps[i] == shown[i].timestamp && lifecycleThreads[i] == shown[i].thread)
      && LifecycleCountsMatch(shown)
    }

    ghost predicate LifecycleCountsMatch(shown: seq<LifecycleEvent>)
      reads `lifecycleCounts
    {
      forall k: LifecycleKind :: k in lifecycleCounts && lifecycleCounts[k] == CountLifecycleKind(shown, k)
    }

    /** The index lists, for each timestamp, exactly the rows carrying it, in order of arrival. */
    ghost predicate IndexMatches(h: seq<Event>)
      reads `eventIndex
    {
      forall timestamp: int ::
        && RowsAt(h, target, settings, timestamp) == (if timestamp in eventIndex then eventIndex[timestamp] else [])
        && (timestamp in eventIndex ==> eventIndex[timestamp] != [])
    }

    /** The addresses of every row are its own followed by those of the stacks attached to it. */
    ghost predicate FramesMatch(h: seq<Event>)
      reads `lifecycleAddresses, `fileAddresses, `attachments
    {
      var shown := ShownLifecycle(h, target, settings);
      var begun := OpenedEvents(FileIoEvents(h), target);
      && |lifecycleAddresses| == |shown|
      && |fileAddresses| == |begun|
      && (forall i :: 0 <= i < |shown| ==>
        lifecycleAddresses[i] == FramesOf(shown[i].stack, attachments, LifecycleTarget(i)))
      && (forall i :: 0 <= i < |begun| ==>
        fileAddresses[i] == FramesOf(begun[i].stack, attachments, FileIoTarget(i)))
      && (forall i :: 0 <= i < |attachments| ==> RightlyAttached(h, attachments[i]))
    }

    /** A stack went to a row of its own timestamp, on its own thread unless it is the target's. */
    ghost predicate RightlyAttached(h: seq<Event>, a: Attachment) {
      && IsRow(h, target, settings, a.target)
      && OriginOf(h, target, settings, a.target).timestamp == a.stack.timestamp
      && (OriginOf(h, target, settings, a.target).thread == a.stack.thread || a.stack.process == target)
    }

    ghost predicate ParkedWell()
      reads `parked, `eventIndex
    {
      ParkedWithin(parked, eventIndex.Keys, target)
    }

    /** Every StackWalk event seen is attached, dropped, parked, or still in hand. */
    ghost predicate StacksConserved(h: seq<Event>, inHand: multiset<StackWalkEvent>)
      reads `parked, `attachments, `dropped, `stackWalksSeen, `stackWalksMatched, `stackWalksDropped
    {
      && stackWalksSeen == |StackWalks(h)|
      && stackWalksMatched == |attachments|
      && stackWalksDropped == |dropped|
      && Conserved(StackWalks(h), attachments, dropped, parked, inHand)
    }

    ghost predicate Unfinished()
      reads `lifecycleStats, `fileStats
    {
      lifecycleStats == fileStats == Modules.StackStats(0, 0, 0)
    }

    /** The row table of the file events with all that is kept beside it, paths and stacks excepted. */
    ghost predicate FileRowsMatch(f: seq<FileIoEvent>, accepted: int)
      reads `fileRows, `fileTimestamps, `fileThreads, `fileCounts, `pathResolved, `pathUnresolved
      reads `pendingIrps, `ignoredIrps, `matchedOpEnds, `unmatchedOpEnds, `reusedIrps
    {
      FileTableMatches(f) && IrpsMatch(f, accepted)
    }

    ghost predicate FileTableMatches(f: seq<FileIoEvent>)
      reads `fileRows, `fileTimestamps, `fileThreads, `fileCounts, `pathResolved, `pathUnresolved
    {
      && fileRows == Irp.RowsAfter(f, target)
      && PathCountsMatch(f)
      && FileColumnsMatch(f)
    }

    /** Lifecycle rows, the index and the stacks. */
    ghost predicate OtherTablesMatch(h: seq<Event>)
      reads `lifecycleRows, `lifecycleTimestamps, `lifecycleThreads, `lifecycleAddresses, `lifecycleCounts
      reads `fileAddresses, `eventIndex, `parked, `attachments, `dropped
      reads `stackWalksSeen, `stackWalksMatched, `stackWalksDropped, `lifecycleStats, `fileStats
    {
      && LifecycleColumnsMatch(ShownLifecycle(h, target, settings))
      && IndexMatches(h)
      && FramesMatch(h)
      && ParkedWell()
      && StacksConserved(h, multiset{})
      && Unfinished()
    }

    /** Everything but the module table. */
    ghost predicate TablesMatch(h: seq<Event>)
      reads `lifecycleRows, `lifecycleTimestamps, `lifecycleThreads, `lifecycleAddresses, `lifecycleCounts
      reads `fileRows, `fileTimestamps, `fileThreads, `fileAddresses, `fileCounts
      reads `pendingIrps, `ignoredIrps, `rawSequence, `matchedOpEnds, `unmatchedOpEnds, `reusedIrps
      reads `paths, `pathResolved, `pathUnresolved, `eventIndex, `parked, `attachments, `dropped
      reads `stackWalksSeen, `stackWalksMatched, `stackWalksDropped, `lifecycleStats, `fileStats
    {
      && FileRowsMatch(FileIoEvents(h), rawSequence)
      && Paths.Caches(FileIoEvents(h), target, paths)
      && OtherTablesMatch(h)
    }

    ghost predicate ModulesMatch(h: seq<Event>)
      reads `modules
    {
      modules == Modules.ModulesAfter(TargetLifecycle(h, target))
    }

    /** The parked stacks and the attachments are those the history calls for. */
    ghost predicate BookMatches(h: seq<Event>)
      reads `parked, `attachments
    {
      Book(parked, attachments) == BookOf(h, target, settings)
    }

    ghost predicate Valid()
      reads this
    {
      TablesMatch(history) && ModulesMatch(history) && BookMatches(history)
    }

    constructor (target: nat, settings: Settings)
      ensures Valid() && history == [] && this.target == target && this.settings == settings
    {
      this.target := target;
      this.settings := settings;
      lifecycleRows, lifecycleTimestamps, lifecycleThreads, lifecycleAddresses := [], [], [], [];
      fileRows, fileTimestamps, fileThreads, fileAddresses := [], [], [], [];
      pendingIrps, ignoredIrps, eventIndex, parked, paths, modules := map[], {}, map[], map[], map[], [];
      lifecycleCounts, fileCounts := LifecycleCountMap(), FileIoCountMap();
      lifecycleStats, fileStats := Modules.StackStats(0, 0, 0), Modules.StackStats(0, 0, 0);
      pathResolved, pathUnresolved, rawSequence, matchedOpEnds, unmatchedOpEnds, reusedIrps := 0, 0, 0, 0, 0, 0;
      stackWalksSeen, stackWalksMatched, stackWalksDropped := 0, 0, 0;
      history, attachments, dropped := [], [], [];
      new;
      EmptyHistory(target, settings);
      assert IrpsMatch([], 0) && PathCountsMatch([]);
      assert FileColumnsMatch([]) && LifecycleColumnsMatch([]);
      assert IndexMatches([]) && FramesMatch([]);
      assert ParkedWell() && StacksConserved([], multiset{});
    }

    // ----- Records that open no row leave the row-related fields alone -----

    lemma NoNewRowInIndex(h: seq<Event>, e: Event)
      requires NewRow(h, target, settings, e).None? && IndexMatches(h)
      ensures IndexMatches(h + [e])
    {
      forall timestamp: int
        ensures RowsAt(h + [e], target, settings, timestamp) == RowsAt(h, target, settings, timestamp)
      {
        RowsAtStep(h, target, settings, e, timestamp);
      }
    }

    lemma AttachmentsStayRight(h: seq<Event>, e: Event)
      requires forall i :: 0 <= i < |attachments| ==> RightlyAttached(h, attachments[i])
      ensures forall i :: 0 <= i < |attachments| ==> RightlyAttached(h + [e], attachments[i])
    {
      forall i | 0 <= i < |attachments| ensures RightlyAttached(h + [e], attachments[i]) {
        OriginStep(h, target, settings, e, attachments[i].target);
      }
    }

    lemma NoNewRowForFrames(h: seq<Event>, e: Event)
      requires NewRow(h, target, settings, e).None? && FramesMatch(h)
      ensures FramesMatch(h + [e])
    {
      hide FramesOf, RightlyAttached, FileIoEvents, TargetLifecycle, OpenedEvents;
      HistoryStep(h, target, e);
      if e.FileIo? {
        OpenedStep(FileIoEvents(h), target, e.fileIo);
      }
      AttachmentsStayRight(h, e);
    }

    /** A lifecycle record that opens no row leaves the tables alone. */
    lemma NoNewLifecycleRow(h: seq<Event>, e: LifecycleEvent)
      requires TablesMatch(h) && NewRow(h, target, settings, Lifecycle(e)).None?
      ensures TablesMatch(h + [Lifecycle(e)])
    {
      hide Conserved, IndexMatches, FramesMatch, RowsAt, FileRowsMatch, LifecycleColumnsMatch, ParkedWithin;
      HistoryStep(h, target, Lifecycle(e));
      NoNewRowInIndex(h, Lifecycle(e));
      NoNewRowForFrames(h, Lifecycle(e));
    }

    // ----- Parked stacks -----

    method FirstParked() returns (first: Option<int>)
      ensures first.None? <==> parked == map[]
      ensures first.Some? ==> first.value == Oldest(parked)
    {
      if parked == map[] {
        return None;
      }
      ghost var o := Oldest(parked);
      assert o in parked.Keys;
      var k :| k in parked.Keys && forall j :: j in parked.Keys ==> k <= j;
      first := Some(k);
    }

    method DropOldestParked(ghost h: seq<Event>, ghost inHand: multiset<StackWalkEvent>)
      requires ParkedWell() && StacksConserved(h, inHand)
      modifies `parked, `dropped, `stackWalksDropped
      ensures ParkedWell() && StacksConserved(h, inHand)
      ensures old(parked) == map[] ==> parked == map[]
      ensures old(parked) != map[] ==> parked == old(parked) - {Oldest(old(parked))} && |parked| < |old(parked)|
    {
      var first := FirstParked();
      if first.None? {
        return;
      }
      var oldest := first.value;
      ConservedByDroppingParked(StackWalks(h), attachments, dropped, parked, oldest, inHand);
      ParkedWithinAfterRemoval(parked, eventIndex.Keys, target, oldest);
      var removed := parked[oldest];
      parked := parked - {oldest};
      dropped := dropped + removed;
      stackWalksDropped := stackWalksDropped + |removed|;
    }

    /** Gives up on every parked stack older than `timestamp`, and on no other. */
    method PruneParkedBefore(ghost h: seq<Event>, timestamp: int)
      requires OtherTablesMatch(h)
      modifies `parked, `dropped, `stackWalksDropped
      ensures OtherTablesMatch(h)
      ensures parked == Pruned(old(parked), timestamp)
    {
      hide Conserved, IndexMatches, FramesMatch, RowsAt, FileRowsMatch, LifecycleColumnsMatch, ParkedWithin;
      var first := FirstParked();
      while first.Some? && first.value < timestamp
        invariant ParkedWell() && StacksConserved(h, multiset{})
        invariant first.None? <==> parked == map[]
        invariant first.Some? ==> first.value == Oldest(parked)
        invariant forall k :: k in parked ==> k in old(parked) && parked[k] == old(parked)[k]
        invariant forall k :: k in old(parked) && timestamp <= k ==> k in parked
        decreases |parked|
      {
        DropOldestParked(h, multiset{});
        first := FirstParked();
      }
    }

    method DropStack(ghost h: seq<Event>, ghost stack: StackWalkEvent)
      requires StacksConserved(h, multiset{stack})
      modifies `dropped, `stackWalksDropped
      ensures StacksConserved(h, multiset{})
    {
      ConservedByDropping(StackWalks(h), attachments, dropped, parked, stack);
      stackWalksDropped := stackWalksDropped + 1;
      dropped := dropped + [stack];
    }

    /** A full parking lot gives up its oldest timestamp before it takes a new one. */
    method MakeRoom(ghost h: seq<Event>, stack: StackWalkEvent)
      requires ParkedWell() && StacksConserved(h, multiset{stack})
      modifies `parked, `dropped, `stackWalksDropped
      ensures ParkedWell() && StacksConserved(h, multiset{stack})
      ensures parked == Room(old(parked), stack.timestamp)
      ensures stack.timestamp in parked || |parked| < MAX_PARKED_TIMESTAMPS
    {
      hide Conserved, ParkedWithin, Bag, Oldest, StackWalks;
      assert MAX_PARKED_TIMESTAMPS > 0;
      if stack.timestamp !in parked && |parked| >= MAX_PARKED_TIMESTAMPS {
        WithinBounds();
        DropOldestParked(h, multiset{stack});
      }
    }

    lemma WithinBounds()
      requires ParkedWell()
      ensures |parked| <= MAX_PARKED_TIMESTAMPS
    {
    }

    method CacheParked(ghost h: seq<Event>, stack: StackWalkEvent)
      requires ParkedWell() && StacksConserved(h, multiset{stack})
      requires stack.process == target ==> stack.timestamp !in eventIndex
      modifies `parked, `dropped, `stackWalksDropped
      ensures ParkedWell() && StacksConserved(h, multiset{})
      ensures parked == Parking(old(parked), stack, target)
    {
      hide Conserved, Bag, Room, StackWalks;
      if stack.process != target {
        DropStack(h, stack);
        return;
      }
      MakeRoom(h, stack);
      var pending := ParkedUnder(parked, stack.timestamp);
      if |pending| >= MAX_PARKED_PER_TIMESTAMP {
        DropStack(h, stack);
        return;
      }
      ConservedByParking(StackWalks(h), attachments, dropped, parked, stack);
      ParkedWithinAfterParking(parked, eventIndex.Keys, target, stack);
      parked := parked[stack.timestamp := pending + [stack]];
    }

    // ----- Attaching stacks to rows -----

    /** What the columns say about the process and thread of a row. */
    function Identity(row: StackTarget): (nat, nat)
      requires match row
        case LifecycleTarget(i) => i < |lifecycleRows| && i < |lifecycleThreads|
        case FileIoTarget(i) => i < |fileRows| && i < |fileThreads|
      reads `lifecycleRows, `lifecycleThreads, `fileRows, `fileThreads
    {
      match row
      case LifecycleTarget(i) => (lifecycleRows[i].pid, lifecycleThreads[i])
      case FileIoTarget(i) => (fileRows[i].pid, fileThreads[i])
    }

    /** The rows' columns agree with the events the rows came from. */
    ghost predicate IdentitiesMatch(h: seq<Event>)
      reads `lifecycleRows, `lifecycleThreads, `fileRows, `fileThreads
    {
      && |lifecycleRows| == |lifecycleThreads| == |ShownLifecycle(h, target, settings)|
      && |fileRows| == |fileThreads| == |OpenedEvents(FileIoEvents(h), target)|
      && (forall row: StackTarget :: IsRow(h, target, settings, row) ==>
        Identity(row) == (target, OriginOf(h, target, settings, row).thread))
    }

    lemma RowIdentity(h: seq<Event>, row: StackTarget)
      requires IdentitiesMatch(h) && IsRow(h, target, settings, row)
      ensures match row
        case LifecycleTarget(i) => i < |lifecycleRows| && i < |lifecycleThreads|
        case FileIoTarget(i) => i < |fileRows| && i < |fileThreads|
      ensures Identity(row) == (target, OriginOf(h, target, settings, row).thread)
    {
    }

    lemma ValidIdentities(h: seq<Event>)
      requires FileTableMatches(FileIoEvents(h)) && LifecycleColumnsMatch(ShownLifecycle(h, target, settings))
      ensures IdentitiesMatch(h)
    {
      hide FileIoEvents, TargetLifecycle, OpenedEvents, Irp.RowStarts, Irp.RowAfter, PathCountsMatch;
      OpenedEventsAreAtTheRowStarts(FileIoEvents(h), target);
      FileRowsHaveTheTargetPid(FileIoEvents(h), target);
      ShownHaveTheTargetPid(h, target);
    }

    lemma IndexedRowsAreRows(h: seq<Event>, timestamp: int)
      ensures forall r :: r in RowsAt(h, target, settings, timestamp) ==>
        IsRow(h, target, settings, r) && OriginOf(h, target, settings, r).timestamp == timestamp
    {
      forall r | r in RowsAt(h, target, settings, timestamp)
        ensures IsRow(h, target, settings, r) && OriginOf(h, target, settings, r).timestamp == timestamp
      {
        RowsAtHoldsExactlyTheRowsOfItsTimestamp(h, target, settings, timestamp, r);
      }
    }

    /** A target stack whose timestamp has rows always finds one; one that finds none has no rows or is foreign. */
    lemma ChosenForTarget(h: seq<Event>, stack: StackWalkEvent)
      requires IndexMatches(h)
      requires forall r :: r in RowsAt(h, target, settings, stack.timestamp) ==> IsRow(h, target, settings, r)
      requires stack.process == target
      ensures Chosen(h, target, settings, stack).Some? <==> stack.timestamp in eventIndex
      ensures Chosen(h, target, settings, stack).Some? <==> RowsAt(h, target, settings, stack.timestamp) != []
    {
    }

    method AppendStackFramesToTarget(ghost h: seq<Event>, row: StackTarget, stack: StackWalkEvent)
      requires FramesMatch(h) && RightlyAttached(h, Attachment(row, stack))
      modifies `lifecycleAddresses, `fileAddresses, `attachments
      ensures FramesMatch(h) && attachments == old(attachments) + [Attachment(row, stack)]
    {
      hide Appended, FramesOf, FileIoEvents, TargetLifecycle, OpenedEvents, RowsAt, OnThread;
      ghost var a := Attachment(row, stack);
      forall own: seq<u64>, r: StackTarget
        ensures FramesOf(own, attachments + [a], r) ==
          if a.target == r then Appended(FramesOf(own, attachments, r), stack.addresses)
          else FramesOf(own, attachments, r)
      {
        FramesStep(own, attachments, a, r);
      }
      match row
      case LifecycleTarget(i) =>
        var frames := AppendStackFrames(lifecycleAddresses[i], stack.addresses);
        lifecycleAddresses := lifecycleAddresses[i := frames];
        attachments := attachments + [a];
      case FileIoTarget(i) =>
        var frames := AppendStackFrames(fileAddresses[i], stack.addresses);
        fileAddresses := fileAddresses[i := frames];
        attachments := attachments + [a];
    }

    /** Gives the stack to the row `Chosen` names, and says whether there is one. */
    method AttachStackWalkEvent(ghost h: seq<Event>, stack: StackWalkEvent) returns (attached: bool)
      requires IndexMatches(h) && FramesMatch(h) && IdentitiesMatch(h)
      requires forall r :: r in RowsAt(h, target, settings, stack.timestamp) ==> IsRow(h, target, settings, r)
      modifies `lifecycleAddresses, `fileAddresses, `attachments, `stackWalksMatched
      ensures FramesMatch(h)
      ensures attached <==> Chosen(h, target, settings, stack).Some?
      ensures attached ==>
        && attachments == old(attachments) + [Attachment(Chosen(h, target, settings, stack).value, stack)]
        && stackWalksMatched == old(stackWalksMatched) + 1
      ensures !attached ==> attachments == old(attachments) && stackWalksMatched == old(stackWalksMatched)
    {
      hide FramesMatch, IdentitiesMatch, RowsAt, OnThread, FileIoEvents, TargetLifecycle;
      IndexedRowsAreRows(h, stack.timestamp);
      if stack.timestamp !in eventIndex {
        return false;
      }
      var indices := eventIndex[stack.timestamp];
      assert indices == RowsAt(h, target, settings, stack.timestamp);
      var fallback: Option<StackTarget> := None;
      for i := 0 to |indices|
        invariant fallback == if i == 0 then None else Some(indices[0])
        invariant forall j :: 0 <= j < i ==> OriginOf(h, target, settings, indices[j]).thread != stack.thread
        invariant FramesMatch(h) && IdentitiesMatch(h)
        invariant attachments == old(attachments) && stackWalksMatched == old(stackWalksMatched)
      {
        var row := indices[i];
        RowIdentity(h, row);
        var (pid, thread) := Identity(row);
        if pid == target {
          if fallback.None? {
            fallback := Some(row);
          }
          if thread == stack.thread {
            OnThreadSplit(h, target, settings, indices, i, stack.thread);
            AppendStackFramesToTarget(h, row, stack);
            stackWalksMatched := stackWalksMatched + 1;
            return true;
          }
        }
      }
      OnThreadNone(h, target, settings, indices, stack.thread);
      if fallback.Some? && stack.process == target {
        AppendStackFramesToTarget(h, fallback.value, stack);
        stackWalksMatched := stackWalksMatched + 1;
        return true;
      }
      return false;
    }

    lemma GivenToNothing(h: seq<Event>)
      ensures GivenTo(h, target, settings, []) == []
    {
    }

    /** Attaches one of the stacks parked for a timestamp that now has a row.  It cannot fail. */
    method AttachOneParked(ghost h: seq<Event>, stack: StackWalkEvent, ghost rest: seq<StackWalkEvent>)
      requires IndexMatches(h) && FramesMatch(h) && IdentitiesMatch(h)
      requires StacksConserved(h, multiset([stack] + rest))
      requires stack.process == target && RowsAt(h, target, settings, stack.timestamp) != []
      modifies `lifecycleAddresses, `fileAddresses, `attachments, `stackWalksMatched
      ensures FramesMatch(h) && StacksConserved(h, multiset(rest))
      ensures Taker(h, target, settings, stack).Some?
      ensures attachments == old(attachments) + [Attachment(Taker(h, target, settings, stack).value, stack)]
    {
      hide Conserved, IndexMatches, FramesMatch, IdentitiesMatch, RowsAt, Chosen, OnThread;
      IndexedRowsAreRows(h, stack.timestamp);
      ChosenForTarget(h, stack);
      ghost var before := attachments;
      var attached := AttachStackWalkEvent(h, stack);
      assert attached;
      ConservedByAttaching(StackWalks(h), before, dropped, parked, attachments[|before|], rest);
    }

    /** Attaches stacks that were parked for a timestamp that now has a row.  None of them fails. */
    method AttachParked(ghost h: seq<Event>, stacks: seq<StackWalkEvent>)
      requires IndexMatches(h) && FramesMatch(h) && IdentitiesMatch(h)
      requires StacksConserved(h, multiset(stacks))
      requires forall i :: 0 <= i < |stacks| ==>
        stacks[i].process == target && RowsAt(h, target, settings, stacks[i].timestamp) != []
      modifies `lifecycleAddresses, `fileAddresses, `attachments, `stackWalksMatched
      ensures FramesMatch(h) && StacksConserved(h, multiset{})
      ensures |attachments| == |old(attachments)| + |stacks|
      ensures attachments == old(attachments) + GivenTo(h, target, settings, stacks)
    {
      hide StacksConserved, IndexMatches, FramesMatch, IdentitiesMatch, RowsAt, Taker, GivenTo;
      GivenToNothing(h);
      assert stacks[0..] == stacks && stacks[..0] == [];
      for i := 0 to |stacks|
        invariant FramesMatch(h) && StacksConserved(h, multiset(stacks[i..]))
        invariant |attachments| == |old(attachments)| + i
        invariant attachments == old(attachments) + GivenTo(h, target, settings, stacks[..i])
      {
        assert stacks[i..] == [stacks[i]] + stacks[i + 1..];
        AttachOneParked(h, stacks[i], stacks[i + 1..]);
        GivenToStep(h, target, settings, stacks, i);
      }
      assert stacks[|stacks|..] == [] && stacks[..|stacks|] == stacks;
    }

    /** A StackWalk record changes nothing but the accounting of stacks. */
    lemma StackWalkKeepsTheRest(stack: StackWalkEvent)
      requires Valid()
      ensures var h := history + [StackWalk(stack)];
        && FileIoEvents(h) == FileIoEvents(history)
        && ShownLifecycle(h, target, settings) == ShownLifecycle(history, target, settings)
        && TargetLifecycle(h, target) == TargetLifecycle(history, target)
        && StackWalks(h) == StackWalks(history) + [stack]
        && IndexMatches(h) && FramesMatch(h) && IdentitiesMatch(h)
        && Conserved(StackWalks(h), attachments, dropped, parked, multiset{stack})
    {
      hide Conserved, Appended, FramesOf, Irp.RowsAfter, Irp.Tallied, Irp.Tracks, Paths.Caches, WithPath;
      ghost var h := history + [StackWalk(stack)];
      HistoryStep(history, target, StackWalk(stack));
      NoNewRowInIndex(history, StackWalk(stack));
      NoNewRowForFrames(history, StackWalk(stack));
      ValidIdentities(history);
      ConservedOnArrival(StackWalks(history), attachments, dropped, parked, stack);
      forall row: StackTarget
        ensures IsRow(h, target, settings, row) == IsRow(history, target, settings, row)
        ensures IsRow(h, target, settings, row) ==>
          OriginOf(h, target, settings, row) == OriginOf(history, target, settings, row)
      {
      }
    }

    method ProcessStackWalkEvent(stack: StackWalkEvent)
      requires Valid()
      modifies this
      ensures Valid() && history == old(history) + [StackWalk(stack)]
    {
      hide Conserved, IndexMatches, FramesMatch, IdentitiesMatch, FileRowsMatch, LifecycleColumnsMatch, ParkedWithin,
        Paths.Caches, FileIoEvents, TargetLifecycle, StackWalks, BookOf, Arrived;
      ghost var h := history + [StackWalk(stack)];
      StackWalkKeepsTheRest(stack);
      BookOfStackWalk(history, target, settings, stack);
      stackWalksSeen := stackWalksSeen + 1;
      GiveOrPark(h, stack);
      Record(h);
    }

    /** Attaches a newly seen stack if some row takes it, and parks or drops it otherwise. */
    method GiveOrPark(ghost h: seq<Event>, stack: StackWalkEvent)
      requires IndexMatches(h) && FramesMatch(h) && IdentitiesMatch(h)
      requires ParkedWell() && StacksConserved(h, multiset{stack})
      modifies `lifecycleAddresses, `fileAddresses, `attachments, `stackWalksMatched
      modifies `parked, `dropped, `stackWalksDropped
      ensures FramesMatch(h) && ParkedWell() && StacksConserved(h, multiset{})
      ensures Book(parked, attachments) == Arrived(h, target, settings, Book(old(parked), old(attachments)), stack)
    {
      hide Conserved, IndexMatches, FramesMatch, IdentitiesMatch, RowsAt, Chosen, OnThread, Parking;
      IndexedRowsAreRows(h, stack.timestamp);
      ghost var before := attachments;
      var attached := AttachStackWalkEvent(h, stack);
      if attached {
        ConservedByAttachingTheLast(StackWalks(h), before, dropped, parked, attachments[|before|]);
      } else {
        if stack.process == target {
          ChosenForTarget(h, stack);
        }
        CacheParked(h, stack);
      }
    }

    // ----- New rows -----

    method IndexRow(ghost h: seq<Event>, ghost e: Event, timestamp: int, row: StackTarget)
      requires IndexMatches(h)
      requires NewRow(h, target, settings, e) == Some(row) && TimestampOf(e) == timestamp
      modifies `eventIndex
      ensures IndexMatches(h + [e]) && eventIndex.Keys == old(eventIndex.Keys) + {timestamp}
    {
      forall t: int
        ensures RowsAt(h + [e], target, settings, t) ==
          RowsAt(h, target, settings, t) + if t == timestamp then [row] else []
      {
        RowsAtStep(h, target, settings, e, t);
      }
      var entry := if timestamp in eventIndex then eventIndex[timestamp] else [];
      eventIndex := eventIndex[timestamp := entry + [row]];
    }

    method PushLifecycleAddresses(ghost h: seq<Event>, e: LifecycleEvent)
      requires FramesMatch(h) && e.pid == target && settings.process
      modifies `lifecycleAddresses
      ensures FramesMatch(h + [Lifecycle(e)])
    {
      hide FramesOf, RightlyAttached, FileIoEvents, TargetLifecycle, OpenedEvents;
      FramesOfNewRow(h, Lifecycle(e), LifecycleTarget(|lifecycleAddresses|), e.stack);
      lifecycleAddresses := lifecycleAddresses + [e.stack];
    }

    method PushFileAddresses(ghost h: seq<Event>, e: FileIoEvent)
      requires FramesMatch(h) && Irp.Opens(e, target)
      modifies `fileAddresses
      ensures FramesMatch(h + [FileIo(e)])
    {
      hide FramesOf, RightlyAttached, FileIoEvents, TargetLifecycle, OpenedEvents;
      FramesOfNewRow(h, FileIo(e), FileIoTarget(|fileAddresses|), e.stack);
      OpenedStep(FileIoEvents(h), target, e);
      fileAddresses := fileAddresses + [e.stack];
    }

    /** No stack has been attached to a row that is only just being opened. */
    lemma FramesOfNewRow(h: seq<Event>, e: Event, row: StackTarget, own: seq<u64>)
      requires FramesMatch(h) && NewRow(h, target, settings, e) == Some(row)
      ensures FramesOf(own, attachments, row) == own
      ensures forall i :: 0 <= i < |attachments| ==> RightlyAttached(h + [e], attachments[i])
      ensures FileIoEvents(h + [e]) == if e.FileIo? then FileIoEvents(h) + [e.fileIo] else FileIoEvents(h)
      ensures TargetLifecycle(h + [e], target) ==
        if e.Lifecycle? then TargetLifecycle(h, target) + [e.lifecycle] else TargetLifecycle(h, target)
    {
      HistoryStep(h, target, e);
      OriginStep(h, target, settings, e, row);
      AttachmentsStayRight(h, e);
      FramesUntouched(own, attachments, row);
    }

    /** Stacks parked for a timestamp that has just been indexed are the target's, and a row is there for them. */
    lemma ParkedStacksHaveRows(h: seq<Event>, timestamp: int, indexedBefore: set<int>)
      requires IndexMatches(h) && timestamp in eventIndex
      requires ParkedWithin(parked, indexedBefore, target) && timestamp in parked
      ensures forall i :: 0 <= i < |parked[timestamp]| ==>
        && parked[timestamp][i].process == target
        && RowsAt(h, target, settings, parked[timestamp][i].timestamp) != []
    {
      hide RowsAt;
      assert RowsAt(h, target, settings, timestamp) != [];
    }

    /** Hands the stacks parked for `timestamp` to the row that has just been indexed there. */
    method TakeParked(ghost h: seq<Event>, timestamp: int, ghost indexedBefore: set<int>)
      requires IndexMatches(h) && FramesMatch(h) && IdentitiesMatch(h)
      requires ParkedWithin(parked, indexedBefore, target) && eventIndex.Keys == indexedBefore + {timestamp}
      requires StacksConserved(h, multiset{})
      modifies `parked, `lifecycleAddresses, `fileAddresses, `attachments, `stackWalksMatched
      ensures FramesMatch(h) && ParkedWell() && StacksConserved(h, multiset{})
      ensures |attachments| == |old(attachments)| + |ParkedUnder(old(parked), timestamp)|
      ensures Book(parked, attachments) == TakenOut(h, target, settings, Book(old(parked), old(attachments)), timestamp)
    {
      hide Conserved, IndexMatches, FramesMatch, IdentitiesMatch, RowsAt, ParkedWithin, GivenTo;
      ParkedWithinAfterRemoval(parked, indexedBefore, target, timestamp);
      if timestamp in parked {
        ParkedStacksHaveRows(h, timestamp, indexedBefore);
        ConservedByTakingOut(StackWalks(h), attachments, dropped, parked, timestamp);
        var pending := parked[timestamp];
        parked := parked - {timestamp};
        AttachParked(h, pending);
      } else {
        GivenToNothing(h);
        assert parked - {timestamp} == parked;
      }
    }

    // ----- Lifecycle records -----

    method RecordModuleLoad(timestamp: int, base: u64, size: u64, name: string)
      modifies `modules
      ensures modules == old(modules) + [Modules.ModuleInterval(base, size, name, timestamp, None)]
    {
      modules := modules + [Modules.ModuleInterval(base, size, name, timestamp, None)];
    }

    /** Ends the interval of the youngest loaded module at `base`, if there is one. */
    method RecordModuleUnload(timestamp: int, base: u64, size: Option<u64>)
      modifies `modules
      ensures modules == Modules.AfterUnload(old(modules), timestamp, base, size)
    {
      var i := |modules|;
      while i > 0
        invariant 0 <= i <= |modules|
        invariant modules == old(modules)
        invariant Modules.Youngest(modules, base, size) == Modules.Youngest(modules[..i], base, size)
      {
        i := i - 1;
        assert modules[..i + 1][..i] == modules[..i];
        if Modules.Unloads(modules[i], base, size) {
          modules := modules[i := modules[i].(unloadedAt := Some(timestamp))];
          return;
        }
      }
    }

    method RecordModules(ghost h: seq<Event>, e: LifecycleEvent)
      requires TablesMatch(h)
      modifies `modules
      ensures TablesMatch(h)
      ensures modules == Modules.AfterEvent(old(modules), e)
    {
      hide TablesMatch;
      match e.kind
      case ImageLoad =>
        if e.imageBase.Some? && e.imageSize.Some? {
          var name := if e.imagePath.Some? then e.imagePath.value else "image_" + Modules.Hex(e.imageBase.value);
          RecordModuleLoad(e.timestamp, e.imageBase.value, e.imageSize.value, name);
        }
      case ImageUnload =>
        if e.imageBase.Some? {
          RecordModuleUnload(e.timestamp, e.imageBase.value, e.imageSize);
        }
      case _ =>
    }

    method PushLifecycleColumns(ghost shown: seq<LifecycleEvent>, e: LifecycleEvent)
      requires LifecycleColumnsMatch(shown)
      modifies `lifecycleRows, `lifecycleTimestamps, `lifecycleThreads, `lifecycleCounts
      ensures LifecycleColumnsMatch(shown + [e])
    {
      assert (shown + [e])[..|shown|] == shown;
      if e.kind in lifecycleCounts {
        lifecycleCounts := lifecycleCounts[e.kind := lifecycleCounts[e.kind] + 1];
      }
      var sequence := |lifecycleRows| + 1;
      lifecycleRows := lifecycleRows + [LifecycleRowOf(e, sequence)];
      lifecycleTimestamps := lifecycleTimestamps + [e.timestamp];
      lifecycleThreads := lifecycleThreads + [e.thread];
      assert lifecycleRows == LifecycleRows(shown + [e]);
    }

    /** Opens the row of a target lifecycle record and gives it the stacks parked for it. */
    method OpenLifecycleRow(ghost h: seq<Event>, e: LifecycleEvent)
      requires e.pid == target && settings.process
      requires OtherTablesMatch(h) && FileTableMatches(FileIoEvents(h))
      modifies `lifecycleRows, `lifecycleTimestamps, `lifecycleThreads, `lifecycleCounts, `eventIndex
      modifies `parked, `lifecycleAddresses, `fileAddresses, `attachments, `stackWalksMatched
      ensures OtherTablesMatch(h + [Lifecycle(e)])
      ensures Book(parked, attachments) == TakenOut(
        h + [Lifecycle(e)], target, settings, Book(old(parked), old(attachments)), e.timestamp)
    {
      hide Conserved, IndexMatches, FramesMatch, IdentitiesMatch, RowsAt, FileTableMatches,
        OriginOf, IsRow, ParkedWithin, LifecycleColumnsMatch, FileIoEvents, TargetLifecycle, StackWalks;
      ghost var h' := h + [Lifecycle(e)];
      HistoryStep(h, target, Lifecycle(e));
      ghost var indexed := eventIndex.Keys;
      LifecycleRowCount(ShownLifecycle(h, target, settings));
      var row := LifecycleTarget(|lifecycleRows|);
      PushLifecycleColumns(ShownLifecycle(h, target, settings), e);
      PushLifecycleAddresses(h, e);
      IndexRow(h, Lifecycle(e), e.timestamp, row);
      ValidIdentities(h');
      TakeParked(h', e.timestamp, indexed);
    }

    lemma LifecycleRowCount(shown: seq<LifecycleEvent>)
      requires LifecycleColumnsMatch(shown)
      ensures |lifecycleRows| == |shown|
    {
    }

    /** Extends the ghost history; nothing real changes. */
    ghost method Record(h: seq<Event>)
      requires TablesMatch(h) && ModulesMatch(h) && BookMatches(h)
      modifies `history
      ensures Valid() && history == h
    {
      hide TablesMatch;
      history := h;
    }

    method ProcessLifecycleEvent(e: LifecycleEvent)
      requires Valid()
      modifies this
      ensures Valid() && history == old(history) + [Lifecycle(e)]
    {
      hide OtherTablesMatch, FileTableMatches, IrpsMatch, Modules.AfterEvent, Modules.ModulesAfter, Paths.Caches,
        FileIoEvents, TargetLifecycle, BookOf, TakenOut, Pruned;
      ghost var before := history;
      ModulesStep(before, e);
      BookOfLifecycle(before, target, settings, e);
      if e.pid != target {
        NoNewLifecycleRow(before, e);
        Record(before + [Lifecycle(e)]);
        return;
      }
      PruneParkedBefore(before, e.timestamp);
      RecordModules(before, e);
      if settings.process {
        OpenLifecycleRow(before, e);
        HistoryStep(before, target, Lifecycle(e));
      } else {
        NoNewLifecycleRow(before, e);
      }
      Record(before + [Lifecycle(e)]);
    }

    lemma ModulesStep(h: seq<Event>, e: LifecycleEvent)
      ensures Modules.ModulesAfter(TargetLifecycle(h + [Lifecycle(e)], target)) ==
        if e.pid == target then Modules.AfterEvent(Modules.ModulesAfter(TargetLifecycle(h, target)), e)
        else Modules.ModulesAfter(TargetLifecycle(h, target))
    {
      HistoryStep(h, target, Lifecycle(e));
      assert (TargetLifecycle(h, target) + [e])[..|TargetLifecycle(h, target)|] == TargetLifecycle(h, target);
    }

    // ----- File records -----

    predicate FileIoEventMatchesTarget(e: FileIoEvent)
      reads `pendingIrps, `ignoredIrps
    {
      if e.kind == OpEnd then
        (e.irp.Some? && (e.irp.value in pendingIrps || e.irp.value in ignoredIrps)) || e.pid == target
      else e.pid == target
    }

    method CacheFilePath(e: FileIoEvent)
      modifies `paths
      ensures forall p: u64 :: (p in paths <==> p in old(paths) || (Paths.HasPath(e) && Paths.MentionsPointer(e, p)))
      ensures forall p: u64 :: p in paths ==>
        paths[p] == if Paths.HasPath(e) && Paths.MentionsPointer(e, p) then e.path.value else old(paths)[p]
    {
      if !Paths.HasPath(e) {
        return;
      }
      if e.fileObject.Some? {
        paths := paths[e.fileObject.value := e.path.value];
      }
      if e.fileKey.Some? {
        paths := paths[e.fileKey.value := e.path.value];
      }
    }

    method RemoveFilePath(e: FileIoEvent)
      modifies `paths
      ensures forall p: u64 :: p in paths <==> p in old(paths) && !Paths.MentionsPointer(e, p)
      ensures forall p: u64 :: p in paths ==> paths[p] == old(paths)[p]
    {
      if e.fileObject.Some? {
        paths := paths - {e.fileObject.value};
      }
      if e.fileKey.Some? {
        paths := paths - {e.fileKey.value};
      }
    }

    /** The path of the event itself, else the one cached for its file object, else for its file key. */
    method ResolveFilePath(ghost f: seq<FileIoEvent>, e: FileIoEvent)
      returns (path: Option<string>, source: Option<PathSource>)
      requires !Paths.HasPath(e) ==> Paths.Caches(f, target, paths)
      ensures (path, source) == Paths.Resolved(f, target, e)
    {
      hide Paths.Known;
      if Paths.HasPath(e) {
        return e.path, e.pathSource;
      }
      if e.fileObject.Some? && e.fileObject.value in paths {
        return Some(paths[e.fileObject.value]), Some(FileObjectCache);
      }
      if e.fileKey.Some? && e.fileKey.value in paths {
        return Some(paths[e.fileKey.value]), Some(FileKeyCache);
      }
      return None, None;
    }

    /** An OpEnd or close opens no row and gives none another path. */
    lemma NoNewFileRow(f: seq<FileIoEvent>, e: FileIoEvent)
      requires e.kind == OpEnd || e.kind == Close || e.pid != target
      requires FileColumnsMatch(f) && PathCountsMatch(f)
      ensures FileColumnsMatch(f + [e]) && PathCountsMatch(f + [e])
      ensures Irp.RowsAfter(f + [e], target) == Irp.Filled(
        Irp.RowsAfter(f, target), Irp.Settles(f, target, e), e, Irp.AcceptedCount(f + [e], target))
    {
      hide Irp.RowsAfter, Irp.RowStarts, Irp.Settles, Irp.AcceptedCount, OpenedEvents, WithPath;
      OpenedStep(f, target, e);
      Irp.RowsStep(f, target, e);
      PathCountKept(f, target, e);
    }

    lemma OpEndKeepsPaths(f: seq<FileIoEvent>, e: FileIoEvent)
      requires (e.kind == OpEnd || e.pid != target) && Paths.Caches(f, target, paths)
      ensures Paths.Caches(f + [e], target, paths)
    {
      forall p: u64 ensures Paths.Known(f + [e], target, p) == Paths.Known(f, target, p) {
        Paths.KnownStep(f, target, e, p);
      }
    }

    /** What the maps say about an OpEnd; a pending row is always in range. */
    lemma KeptDecides(f: seq<FileIoEvent>, e: FileIoEvent)
      requires IrpsMatch(f, rawSequence - 1) && e.kind == OpEnd && Irp.Accepted(f, target, e)
      ensures Irp.AcceptedCount(f + [e], target) == rawSequence
      ensures Irp.Settles(f, target, e) ==
        if e.irp.Some? && e.irp.value in pendingIrps then Some(pendingIrps[e.irp.value]) else None
      ensures e.irp.Some? && e.irp.value in pendingIrps ==>
        pendingIrps[e.irp.value] < |Irp.RowsAfter(f, target)|
    {
      Irp.TracksDecides(f, target, pendingIrps, ignoredIrps, e);
      Irp.CountsStep(f, target, e);
      if e.irp.Some? && e.irp.value in pendingIrps {
        Irp.PendingRowExists(f, target, e.irp.value);
      }
    }

    lemma MatchingIsAccepting(h: seq<Event>, e: FileIoEvent)
      requires TablesMatch(h)
      ensures FileIoEventMatchesTarget(e) <==> Irp.Accepted(FileIoEvents(h), target, e)
    {
      Irp.TracksDecides(FileIoEvents(h), target, pendingIrps, ignoredIrps, e);
    }

    /** Files the OpEnd with the row it answers, swallows it if a close is waiting for it, or counts it. */
    method MergeFileIoCompletion(ghost f: seq<FileIoEvent>, e: FileIoEvent)
      requires e.kind == OpEnd && Irp.Accepted(f, target, e)
      requires FileRowsMatch(f, rawSequence - 1) && Paths.Caches(f, target, paths)
      modifies `fileRows, `pendingIrps, `ignoredIrps, `matchedOpEnds, `unmatchedOpEnds
      ensures FileRowsMatch(f + [e], rawSequence) && Paths.Caches(f + [e], target, paths)
    {
      hide Irp.Kept, Irp.Accepted, Irp.AcceptedCount, Irp.Settles, Irp.RowsAfter, Paths.Caches, FileColumnsMatch,
        PathCountsMatch;
      KeptDecides(f, e);
      NoNewFileRow(f, e);
      OpEndKeepsPaths(f, e);
      Irp.KeptByOpEnd(
        f, target, pendingIrps, ignoredIrps, rawSequence - 1, matchedOpEnds, unmatchedOpEnds, reusedIrps, e);
      if e.irp.None? {
        unmatchedOpEnds := unmatchedOpEnds + 1;
        return;
      }
      var irp := e.irp.value;
      if irp !in pendingIrps {
        if irp in ignoredIrps {
          ignoredIrps := ignoredIrps - {irp};
          return;
        }
        unmatchedOpEnds := unmatchedOpEnds + 1;
        return;
      }
      var row := pendingIrps[irp];
      pendingIrps := pendingIrps - {irp};
      matchedOpEnds := matchedOpEnds + 1;
      var completed := fileRows[row];
      if e.extraInfo.Some? {
        completed := completed.(extraInfo := e.extraInfo);
      }
      if e.ntStatus.Some? {
        completed := completed.(ntStatus := e.ntStatus);
      }
      completed := completed.(completion := Some(Completion(e.pid, e.thread, rawSequence)));
      fileRows := fileRows[row := completed];
    }

    /** The begin pending on a closed IRP will get no completion, and the next OpEnd naming it is the close's. */
    method AbandonPending(ghost f: seq<FileIoEvent>, e: FileIoEvent)
      requires e.kind == Close && e.pid == target
      requires IrpsMatch(f, rawSequence - 1)
      modifies `pendingIrps, `ignoredIrps, `reusedIrps
      ensures IrpsMatch(f + [e], rawSequence)
    {
      hide Irp.Kept;
      Irp.KeptByClose(
        f, target, pendingIrps, ignoredIrps, rawSequence - 1, matchedOpEnds, unmatchedOpEnds, reusedIrps, e);
      if e.irp.None? {
        return;
      }
      var irp := e.irp.value;
      if irp in pendingIrps {
        reusedIrps := reusedIrps + 1;
      }
      pendingIrps := pendingIrps - {irp};
      ignoredIrps := ignoredIrps + {irp};
    }

    method ForgetAfterClose(ghost f: seq<FileIoEvent>, e: FileIoEvent)
      requires e.kind == Close && e.pid == target && Paths.Caches(f, target, paths)
      modifies `paths
      ensures Paths.Caches(f + [e], target, paths)
    {
      hide Paths.Known;
      forall p: u64
        ensures Paths.Known(f + [e], target, p) ==
          if Paths.MentionsPointer(e, p) then None else Paths.Known(f, target, p)
      {
        Paths.KnownStep(f, target, e, p);
      }
      RemoveFilePath(e);
    }

    /** A close gets no row: it abandons the pending begin of its IRP and forgets the path. */
    method IgnoreFileIoClose(ghost f: seq<FileIoEvent>, e: FileIoEvent)
      requires e.kind == Close && e.pid == target
      requires FileRowsMatch(f, rawSequence - 1) && Paths.Caches(f, target, paths)
      modifies `pendingIrps, `ignoredIrps, `reusedIrps, `paths
      ensures FileRowsMatch(f + [e], rawSequence) && Paths.Caches(f + [e], target, paths)
    {
      hide IrpsMatch, PathCountsMatch, FileColumnsMatch, Irp.RowsAfter, Irp.Settles, Irp.AcceptedCount, Paths.Caches;
      NoNewFileRow(f, e);
      AbandonPending(f, e);
      ForgetAfterClose(f, e);
    }

    method PushFileColumns(ghost f: seq<FileIoEvent>, e: FileIoEvent)
      requires Irp.Opens(e, target) && FileColumnsMatch(f)
      modifies `fileTimestamps, `fileThreads, `fileCounts
      ensures FileColumnsMatch(f + [e])
    {
      hide OpenedEvents;
      OpenedStep(f, target, e);
      assert (OpenedEvents(f, target) + [e])[..|OpenedEvents(f, target)|] == OpenedEvents(f, target);
      if e.kind in fileCounts {
        fileCounts := fileCounts[e.kind := fileCounts[e.kind] + 1];
      }
      fileTimestamps := fileTimestamps + [e.timestamp];
      fileThreads := fileThreads + [e.thread];
    }

    /** Appends the row of an opening event and everything kept beside it. */
    method PushFileRow(ghost f: seq<FileIoEvent>, e: FileIoEvent, path: Option<string>, source: Option<PathSource>)
      requires Irp.Opens(e, target) && (path, source) == Paths.Resolved(f, target, e)
      requires FileTableMatches(f)
      modifies `fileRows, `fileTimestamps, `fileThreads, `fileCounts, `pathResolved, `pathUnresolved
      ensures FileTableMatches(f + [e])
    {
      hide FileColumnsMatch, Irp.RowsAfter, Irp.Settles, Irp.AcceptedCount, Irp.RowStarts, Paths.Resolved, WithPath;
      Irp.RowsStep(f, target, e);
      PushFileColumns(f, e);
      WithPathAppend(fileRows, Irp.OpenedRow(f, target, e));
      if path.Some? {
        pathResolved := pathResolved + 1;
      } else {
        pathUnresolved := pathUnresolved + 1;
      }
      var sequence := |fileRows| + 1;
      fileRows := fileRows + [FileIoRow(
        sequence, e.kind, e.pid, e.thread, path, source, e.fileObject, e.fileKey, e.irp,
        e.details, e.extraInfo, e.ntStatus, [], None)];
    }

    /** The new row becomes the one pending on its IRP. */
    method TrackBegin(ghost f: seq<FileIoEvent>, e: FileIoEvent, index: nat)
      requires Irp.Opens(e, target) && index == |Irp.RowStarts(f, target)|
      requires IrpsMatch(f, rawSequence - 1)
      modifies `pendingIrps, `reusedIrps
      ensures IrpsMatch(f + [e], rawSequence)
    {
      hide Irp.Kept, Irp.RowStarts;
      Irp.KeptByBegin(
        f, target, pendingIrps, ignoredIrps, rawSequence - 1, matchedOpEnds, unmatchedOpEnds, reusedIrps, e);
      if e.irp.Some? {
        var irp := e.irp.value;
        if irp in pendingIrps {
          reusedIrps := reusedIrps + 1;
        }
        pendingIrps := pendingIrps[irp := index];
      }
    }

    /** What the path cache holds between the opening of a row and the forgetting a cleanup asks for. */
    ghost predicate CachesWith(f: seq<FileIoEvent>, e: FileIoEvent)
      reads `paths
    {
      forall p: u64 ::
        (if Paths.HasPath(e) && Paths.MentionsPointer(e, p) then e.path else Paths.Known(f, target, p)) ==
        if p in paths then Some(paths[p]) else None
    }

    method ForgetAfterCleanup(ghost f: seq<FileIoEvent>, e: FileIoEvent)
      requires Irp.Opens(e, target) && CachesWith(f, e)
      modifies `paths
      ensures Paths.Caches(f + [e], target, paths)
    {
      hide Paths.Known;
      forall p: u64
        ensures Paths.Known(f + [e], target, p) ==
          if Paths.Forgets(e, target, p) then None
          else if Paths.Reveals(e, target, p) then e.path
          else Paths.Known(f, target, p)
      {
        Paths.KnownStep(f, target, e, p);
      }
      if e.kind == Cleanup {
        RemoveFilePath(e);
      }
    }

    /** Caches and resolves the path of an opening event, and appends its row. */
    method AddFileRow(ghost f: seq<FileIoEvent>, e: FileIoEvent)
      requires Irp.Opens(e, target) && FileTableMatches(f) && Paths.Caches(f, target, paths)
      modifies `fileRows, `fileTimestamps, `fileThreads, `fileCounts, `pathResolved, `pathUnresolved, `paths
      ensures FileTableMatches(f + [e]) && CachesWith(f, e)
    {
      hide FileTableMatches, Paths.Known, Paths.Resolved;
      CacheFilePath(e);
      assert CachesWith(f, e);
      var path, source := ResolveFilePath(f, e);
      PushFileRow(f, e, path, source);
    }

    /** Indexes the row just added for `e` and gives it the stacks parked for it. */
    method IndexFileRow(ghost h: seq<Event>, e: FileIoEvent, index: nat)
      requires Irp.Opens(e, target) && index == |OpenedEvents(FileIoEvents(h), target)|
      requires OtherTablesMatch(h) && FileTableMatches(FileIoEvents(h + [FileIo(e)]))
      modifies `eventIndex, `parked, `lifecycleAddresses, `fileAddresses, `attachments, `stackWalksMatched
      ensures OtherTablesMatch(h + [FileIo(e)])
      ensures Book(parked, attachments) == TakenOut(
        h + [FileIo(e)], target, settings, Book(old(parked), old(attachments)), e.timestamp)
    {
      hide Conserved, IndexMatches, FramesMatch, IdentitiesMatch, FileTableMatches,
        LifecycleColumnsMatch, ParkedWithin, FileIoEvents, TargetLifecycle, StackWalks, OpenedEvents;
      ghost var h' := h + [FileIo(e)];
      HistoryStep(h, target, FileIo(e));
      ghost var indexed := eventIndex.Keys;
      PushFileAddresses(h, e);
      IndexRow(h, FileIo(e), e.timestamp, FileIoTarget(index));
      ValidIdentities(h');
      TakeParked(h', e.timestamp, indexed);
    }

    /** Opens the row of a target file record, forgetting its path again if it is a cleanup. */
    method OpenFileRow(ghost h: seq<Event>, e: FileIoEvent)
      requires Irp.Opens(e, target)
      requires FileRowsMatch(FileIoEvents(h), rawSequence - 1) && Paths.Caches(FileIoEvents(h), target, paths)
      requires OtherTablesMatch(h)
      modifies `fileRows, `fileTimestamps, `fileThreads, `fileCounts, `pathResolved, `pathUnresolved
      modifies `pendingIrps, `reusedIrps, `paths, `eventIndex
      modifies `parked, `lifecycleAddresses, `fileAddresses, `attachments, `stackWalksMatched
      ensures TablesMatch(h + [FileIo(e)])
      ensures Book(parked, attachments) == TakenOut(
        h + [FileIo(e)], target, settings, Book(old(parked), old(attachments)), e.timestamp)
    {
      hide OtherTablesMatch, IrpsMatch, FileTableMatches, CachesWith, Paths.Caches, FileIoEvents, OpenedEvents,
        Irp.RowsAfter;
      ghost var f := FileIoEvents(h);
      HistoryStep(h, target, FileIo(e));
      RowIndex(f);
      var index := |fileRows|;
      AddFileRow(f, e);
      TrackBegin(f, e, index);
      IndexFileRow(h, e, index);
      ForgetAfterCleanup(f, e);
    }

    lemma RowIndex(f: seq<FileIoEvent>)
      requires FileTableMatches(f)
      ensures |fileRows| == |Irp.RowsAfter(f, target)| == |OpenedEvents(f, target)|
    {
      OpenedEventsAreAtTheRowStarts(f, target);
    }

    method ProcessFileIoEvent(e: FileIoEvent)
      requires Valid()
      modifies this
      ensures Valid() && history == old(history) + [FileIo(e)]
    {
      hide OtherTablesMatch, FileRowsMatch, Paths.Caches, Modules.ModulesAfter, FileIoEvents, TargetLifecycle,
        BookOf, TakenOut, Pruned;
      ghost var before := history;
      ghost var f := FileIoEvents(before);
      HistoryStep(before, target, FileIo(e));
      BookOfFileIo(before, target, settings, e);
      MatchingIsAccepting(before, e);
      if !FileIoEventMatchesTarget(e) {
        RejectedFileEvent(before, e);
        Record(before + [FileIo(e)]);
        return;
      }
      rawSequence := rawSequence + 1;
      PruneParkedBefore(before, e.timestamp);
      if e.kind == OpEnd {
        MergeFileIoCompletion(f, e);
        NoNewRowForOthers(before, e);
      } else if e.kind == Close {
        IgnoreFileIoClose(f, e);
        NoNewRowForOthers(before, e);
      } else {
        OpenFileRow(before, e);
      }
      Record(before + [FileIo(e)]);
    }

    lemma NoNewRowForOthers(h: seq<Event>, e: FileIoEvent)
      requires OtherTablesMatch(h) && NewRow(h, target, settings, FileIo(e)).None?
      ensures OtherTablesMatch(h + [FileIo(e)])
    {
      hide Conserved, IndexMatches, FramesMatch, RowsAt, LifecycleColumnsMatch, ParkedWithin;
      HistoryStep(h, target, FileIo(e));
      NoNewRowInIndex(h, FileIo(e));
      NoNewRowForFrames(h, FileIo(e));
    }

    lemma RejectedFileEvent(h: seq<Event>, e: FileIoEvent)
      requires TablesMatch(h) && !FileIoEventMatchesTarget(e)
      ensures TablesMatch(h + [FileIo(e)])
    {
      hide OtherTablesMatch, FileColumnsMatch, PathCountsMatch, Irp.Pending, Irp.Ignored, Irp.AcceptedCount,
        Irp.UnansweringCount, Irp.Fates, Irp.RowsAfter, Irp.RowStarts, Irp.Count;
      ghost var f := FileIoEvents(h);
      HistoryStep(h, target, FileIo(e));
      NoNewRowForOthers(h, e);
      NoNewFileRow(f, e);
      OpEndKeepsPaths(f, e);
      Irp.RejectedEventChangesNothing(
        f, target, pendingIrps, ignoredIrps,
        Irp.Tally(|pendingIrps|, rawSequence, matchedOpEnds, unmatchedOpEnds, reusedIrps), e);
    }

    // ----- The whole trace -----

    /** One decoded record; file records count only if the profile asked for them. */
    method ProcessRecord(e: Event)
      requires Valid()
      modifies this
      ensures Valid()
      ensures history == old(history) + if e.FileIo? && !settings.fileIo then [] else [e]
    {
      match e
      case StackWalk(s) => ProcessStackWalkEvent(s);
      case Lifecycle(l) => ProcessLifecycleEvent(l);
      case FileIo(f) =>
        if settings.fileIo {
          ProcessFileIoEvent(f);
        } else {
          assert history + [] == history;
        }
    }

    /** The figures the summary is made of agree with the history. */
    ghost predicate Reportable()
      reads this
    {
      && IrpsMatch(FileIoEvents(history), rawSequence)
      && PathCountsMatch(FileIoEvents(history))
      && FileColumnsMatch(FileIoEvents(history))
      && LifecycleCountsMatch(ShownLifecycle(history, target, settings))
    }

    method FinalizeLifecycleStacks()
      requires |lifecycleRows| == |lifecycleAddresses| == |lifecycleTimestamps|
      requires lifecycleStats == Modules.StackStats(0, 0, 0)
      modifies `lifecycleRows, `lifecycleStats
      ensures |lifecycleRows| == |old(lifecycleRows)|
      ensures forall i :: 0 <= i < |lifecycleRows| ==> lifecycleRows[i] == old(lifecycleRows)[i].(
        stack := Modules.Finished(lifecycleAddresses[i], modules, lifecycleTimestamps[i]))
      ensures lifecycleStats == Modules.StatsOf(LifecycleStacks(lifecycleRows))
    {
      hide Modules.Finished;
      ghost var done: seq<seq<Frame>> := [];
      for i := 0 to |lifecycleAddresses|
        invariant |lifecycleRows| == |old(lifecycleRows)|
        invariant forall j :: 0 <= j < i ==> lifecycleRows[j] == old(lifecycleRows)[j].(
          stack := Modules.Finished(lifecycleAddresses[j], modules, lifecycleTimestamps[j]))
        invariant forall j :: i <= j < |lifecycleRows| ==> lifecycleRows[j] == old(lifecycleRows)[j]
        invariant |done| == i && forall j :: 0 <= j < i ==> done[j] == lifecycleRows[j].stack
        invariant lifecycleStats == Modules.StatsOf(done)
      {
        var stack, stats := FinalizeStack(lifecycleAddresses[i], modules, lifecycleTimestamps[i], lifecycleStats);
        lifecycleRows := lifecycleRows[i := lifecycleRows[i].(stack := stack)];
        lifecycleStats := stats;
        Modules.StatsStep(done, stack);
        done := done + [stack];
      }
      assert done == LifecycleStacks(lifecycleRows);
    }

    method FinalizeFileStacks()
      requires |fileRows| == |fileAddresses| == |fileTimestamps|
      requires fileStats == Modules.StackStats(0, 0, 0)
      modifies `fileRows, `fileStats
      ensures |fileRows| == |old(fileRows)|
      ensures forall i :: 0 <= i < |fileRows| ==> fileRows[i] == old(fileRows)[i].(
        stack := Modules.Finished(fileAddresses[i], modules, fileTimestamps[i]))
      ensures fileStats == Modules.StatsOf(FileStacks(fileRows))
    {
      hide Modules.Finished;
      ghost var done: seq<seq<Frame>> := [];
      for i := 0 to |fileAddresses|
        invariant |fileRows| == |old(fileRows)|
        invariant forall j :: 0 <= j < i ==> fileRows[j] == old(fileRows)[j].(
          stack := Modules.Finished(fileAddresses[j], modules, fileTimestamps[j]))
        invariant forall j :: i <= j < |fileRows| ==> fileRows[j] == old(fileRows)[j]
        invariant |done| == i && forall j :: 0 <= j < i ==> done[j] == fileRows[j].stack
        invariant fileStats == Modules.StatsOf(done)
      {
        var stack, stats := FinalizeStack(fileAddresses[i], modules, fileTimestamps[i], fileStats);
        fileRows := fileRows[i := fileRows[i].(stack := stack)];
        fileStats := stats;
        Modules.StatsStep(done, stack);
        done := done + [stack];
      }
      assert done == FileStacks(fileRows);
    }

    /** One address list and one timestamp per row. */
    ghost predicate ColumnLengthsMatch()
      reads `lifecycleRows, `lifecycleAddresses, `lifecycleTimestamps, `fileRows, `fileAddresses, `fileTimestamps
    {
      && |lifecycleRows| == |lifecycleAddresses| == |lifecycleTimestamps|
      && |fileRows| == |fileAddresses| == |fileTimestamps|
    }

    lemma ValidColumnLengths()
      requires Valid()
      ensures ColumnLengthsMatch() && Reportable()
      ensures lifecycleStats == fileStats == Modules.StackStats(0, 0, 0)
    {
      hide IrpsMatch, PathCountsMatch, IndexMatches, ParkedWell, StacksConserved, Irp.RowsAfter, Irp.RowStarts,
        Modules.ModulesAfter, FileIoEvents, TargetLifecycle, Paths.Caches, OpenedEvents, FramesOf, RightlyAttached;
      RowIndex(FileIoEvents(history));
      AddressCounts(history);
    }

    /** Resolves the stacks of all rows against the final module table and counts their frames. */
    method FinalizeStacks()
      requires Valid() && ColumnLengthsMatch()
      modifies `lifecycleRows, `fileRows, `lifecycleStats, `fileStats
      ensures Reportable() && ColumnLengthsMatch()
      ensures |lifecycleRows| == |old(lifecycleRows)| && |fileRows| == |old(fileRows)|
      ensures forall i :: 0 <= i < |lifecycleRows| ==> lifecycleRows[i] == old(lifecycleRows)[i].(
        stack := Modules.Finished(lifecycleAddresses[i], modules, lifecycleTimestamps[i]))
      ensures forall i :: 0 <= i < |fileRows| ==> fileRows[i] == old(fileRows)[i].(
        stack := Modules.Finished(fileAddresses[i], modules, fileTimestamps[i]))
      ensures lifecycleStats == Modules.StatsOf(LifecycleStacks(lifecycleRows))
      ensures fileStats == Modules.StatsOf(FileStacks(fileRows))
    {
      hide TablesMatch, ModulesMatch, IrpsMatch, PathCountsMatch, FileColumnsMatch, Modules.Finished;
      ValidColumnLengths();
      FinalizeLifecycleStacks();
      FinalizeFileStacks();
    }

    /** Where every StackWalk record seen so far has gone, and the bounds of the parking lot. */
    lemma StackAccounting()
      requires Valid()
      ensures stackWalksSeen == |StackWalks(history)| == stackWalksMatched + stackWalksDropped + |Bag(parked)|
      ensures |parked| <= MAX_PARKED_TIMESTAMPS
      ensures forall t :: t in parked ==> |parked[t]| <= MAX_PARKED_PER_TIMESTAMP && t !in eventIndex
    {
      hide FileRowsMatch, Paths.Caches, LifecycleColumnsMatch, IndexMatches, FramesMatch, ModulesMatch;
      ConservedNumbers(StackWalks(history), attachments, dropped, parked);
    }

    /** What the row tables and their columns hold, said of the records alone. */
    ghost predicate RowsMatch(lifecycle: seq<LifecycleRow>, files: seq<FileIoRow>)
      reads `history, `modules, `lifecycleAddresses, `lifecycleTimestamps, `fileAddresses, `fileTimestamps
    {
      var shown := ShownLifecycle(history, target, settings);
      var f := FileIoEvents(history);
      var begun := OpenedEvents(f, target);
      var attached := BookOf(history, target, settings).attachments;
      && lifecycle == LifecycleRows(shown) && |lifecycleAddresses| == |lifecycleTimestamps| == |shown|
      && files == Irp.RowsAfter(f, target) && |files| == |fileAddresses| == |fileTimestamps| == |begun|
      && (forall i :: 0 <= i < |shown| ==>
        lifecycleTimestamps[i] == shown[i].timestamp
        && lifecycleAddresses[i] == FramesOf(shown[i].stack, attached, LifecycleTarget(i)))
      && (forall i :: 0 <= i < |begun| ==>
        fileTimestamps[i] == begun[i].timestamp
        && fileAddresses[i] == FramesOf(begun[i].stack, attached, FileIoTarget(i)))
      && modules == Modules.ModulesAfter(TargetLifecycle(history, target))
    }

    lemma RowsOfHistory()
      requires Valid()
      ensures RowsMatch(lifecycleRows, fileRows)
    {
      hide IrpsMatch, PathCountsMatch, IndexMatches, ParkedWell, StacksConserved, Irp.RowsAfter, Irp.RowStarts,
        Modules.ModulesAfter, FileIoEvents, TargetLifecycle, Paths.Caches, OpenedEvents, FramesOf, RightlyAttached,
        BookOf;
      RowIndex(FileIoEvents(history));
    }

    /** Once the stacks are finished, the rows are those to be reported. */
    lemma RowsAreReported(rows: seq<LifecycleRow>, files: seq<FileIoRow>)
      requires RowsMatch(rows, files)
      requires |lifecycleRows| == |rows| == |lifecycleAddresses| == |lifecycleTimestamps|
      requires |fileRows| == |files| == |fileAddresses| == |fileTimestamps|
      requires forall i :: 0 <= i < |lifecycleRows| ==> lifecycleRows[i] == rows[i].(
        stack := Modules.Finished(lifecycleAddresses[i], modules, lifecycleTimestamps[i]))
      requires forall i :: 0 <= i < |fileRows| ==> fileRows[i] == files[i].(
        stack := Modules.Finished(fileAddresses[i], modules, fileTimestamps[i]))
      ensures ReportsLifecycle(lifecycleRows, history, target, settings)
      ensures ReportsFiles(fileRows, history, target, settings)
    {
      hide Irp.RowsAfter, Modules.ModulesAfter, Modules.Finished, FileIoEvents, TargetLifecycle, OpenedEvents,
        FramesOf, BookOf;
    }

    /** Finishes the stacks and the figures, after which the rows are as they are reported. */
    method Report() returns (summary: Summary)
      requires Valid()
      modifies `lifecycleRows, `fileRows, `lifecycleStats, `fileStats
      ensures ReportsLifecycle(lifecycleRows, history, target, settings)
      ensures ReportsFiles(fileRows, history, target, settings)
      ensures Summarises(summary, history, target, settings)
      ensures settings.process ==> summary.process.value.stack == Modules.StatsOf(LifecycleStacks(lifecycleRows))
      ensures settings.fileIo ==> summary.fileIo.value.stack == Modules.StatsOf(FileStacks(fileRows))
    {
      hide Valid, Reportable, RowsMatch, Summarises, ReportsLifecycle, ReportsFiles, Modules.Finished;
      ValidColumnLengths();
      RowsOfHistory();
      ghost var rows, files := lifecycleRows, fileRows;
      FinalizeStacks();
      assert RowsMatch(rows, files) by { hide ColumnLengthsMatch; }
      RowsAreReported(rows, files);
      summary := Finish();
    }

    lemma AddressCounts(h: seq<Event>)
      requires FramesMatch(h)
      ensures |lifecycleAddresses| == |ShownLifecycle(h, target, settings)|
      ensures |fileAddresses| == |OpenedEvents(FileIoEvents(h), target)|
    {
    }

    /** The summary: counts per kind that add up to the rows, and the fates of the requests. */
    method Finish() returns (summary: Summary)
      requires Reportable()
      ensures Summarises(summary, history, target, settings)
      ensures settings.process ==> summary.process.value.stack == lifecycleStats
      ensures settings.fileIo ==> summary.fileIo.value.stack == fileStats
    {
      hide Irp.RowsAfter, Irp.Fates, Irp.Count, FileIoEvents, TargetLifecycle, OpenedEvents, SumOfCounts, WithPath;
      ghost var f := FileIoEvents(history);
      CountedKindsAreAllButTwo();
      OpenedEventsAreAtTheRowStarts(f, target);
      CountsAddUpToTheRows(OpenedEvents(f, target));
      Irp.IncompleteCountIsExact(
        f, target, Irp.Tally(|pendingIrps|, rawSequence, matchedOpEnds, unmatchedOpEnds, reusedIrps));
      var incomplete := |pendingIrps| + reusedIrps;
      summary := Summary(
        if settings.process then Some(LifecycleSummary(lifecycleCounts, lifecycleStats)) else None,
        if settings.fileIo then Some(FileIoSummary(
          fileCounts, fileStats, pathResolved, pathUnresolved, matchedOpEnds, unmatchedOpEnds, incomplete, reusedIrps))
        else None);
    }
  }

  /** The records the processor looks at: file records only if the profile asked for them. */
  function LookedAt(records: seq<Event>, settings: Settings): seq<Event> {
    if records == [] then []
    else
      var e := records[|records| - 1];
      LookedAt(records[..|records| - 1], settings) + if e.FileIo? && !settings.fileIo then [] else [e]
  }

  lemma {:induction false} StackWalksAreLookedAt(records: seq<Event>, settings: Settings)
    ensures StackWalks(LookedAt(records, settings)) == StackWalks(records)
  {
    if records != [] {
      var n := |records| - 1;
      StackWalksAreLookedAt(records[..n], settings);
      var before := LookedAt(records[..n], settings);
      assert (before + [records[n]])[..|before|] == before && before + [] == before;
    }
  }

  /**
   * A whole trace: whatever records arrive, the object ends up with the tables the history functions
   * describe, and each StackWalk record is attached, dropped or parked.
   */
  method ProcessTrace(processor: EtwProcessor, records: seq<Event>)
    requires processor.Valid() && processor.history == []
    modifies processor
    ensures processor.Valid() && processor.history == LookedAt(records, processor.settings)
    ensures processor.stackWalksSeen == |StackWalks(records)|
    ensures |StackWalks(records)| ==
      processor.stackWalksMatched + processor.stackWalksDropped + |Bag(processor.parked)|
  {
    hide EtwProcessor.TablesMatch, EtwProcessor.ModulesMatch;
    for i := 0 to |records|
      invariant processor.Valid() && processor.history == LookedAt(records[..i], processor.settings)
    {
      processor.ProcessRecord(records[i]);
      assert records[..i + 1][..i] == records[..i];
    }
    assert records[..|records|] == records;
    StackWalksAreLookedAt(records, processor.settings);
    processor.StackAccounting();
  }

  /**
   * From the records of a trace to its report: exactly the rows the records call for, each with its stack,
   * and the figures about them.
   */
  method PostProcessTrace(target: nat, settings: Settings, records: seq<Event>)
    returns (summary: Summary, lifecycle: seq<LifecycleRow>, fileIo: seq<FileIoRow>)
    ensures var h := LookedAt(records, settings);
      && ReportsLifecycle(lifecycle, h, target, settings)
      && ReportsFiles(fileIo, h, target, settings)
      && Summarises(summary, h, target, settings)
    ensures settings.process ==> summary.process.value.stack == Modules.StatsOf(LifecycleStacks(lifecycle))
    ensures settings.fileIo ==> summary.fileIo.value.stack == Modules.StatsOf(FileStacks(fileIo))
  {
    hide EtwProcessor.Valid, Summarises, ReportsLifecycle, ReportsFiles, LookedAt;
    var processor := new EtwProcessor(target, settings);
    ProcessTrace(processor, records);
    summary := processor.Report();
    lifecycle, fileIo := processor.lifecycleRows, processor.fileRows;
  }
}
