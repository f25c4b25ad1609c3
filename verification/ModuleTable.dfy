/** The module table of the trace processor and the resolution of stack addresses against it. */
module ModuleTable {
  import opened Wrappers
  import opened EtwEvents

  datatype ModuleInterval = ModuleInterval(
    base: u64, size: u64, name: string, loadedAt: int, unloadedAt: Option<int>)

  function SaturatingAdd(a: u64, b: u64): u64 {
    if a + b < U64_LIMIT then a + b else U64_LIMIT - 1
  }

  predicate ContainsAt(m: ModuleInterval, address: u64, timestamp: int) {
    && m.base <= address < SaturatingAdd(m.base, m.size)
    && m.loadedAt <= timestamp
    && (m.unloadedAt.Some? ==> timestamp <= m.unloadedAt.value)
  }

  /** Index of the module to blame for `address`: of those containing it, the last with the latest load. */
  function Owner(modules: seq<ModuleInterval>, address: u64, timestamp: int): (owner: Option<nat>)
    ensures owner.Some? ==> owner.value < |modules| && ContainsAt(modules[owner.value], address, timestamp)
  {
    if modules == [] then None
    else
      var n := |modules| - 1;
      var earlier := Owner(modules[..n], address, timestamp);
      if !ContainsAt(modules[n], address, timestamp) then earlier
      else if earlier.Some? && modules[earlier.value].loadedAt > modules[n].loadedAt then earlier
      else Some(n)
  }

  /** `Owner` picks exactly the containing module that no other containing module outranks. */
  lemma {:induction false} OwnerIsTheLatest(modules: seq<ModuleInterval>, address: u64, timestamp: int, i: nat)
    requires i < |modules|
    ensures Owner(modules, address, timestamp) == Some(i) <==>
      && ContainsAt(modules[i], address, timestamp)
      && forall j :: 0 <= j < |modules| && ContainsAt(modules[j], address, timestamp) ==>
        modules[j].loadedAt < modules[i].loadedAt || (modules[j].loadedAt == modules[i].loadedAt && j <= i)
  {
    var n := |modules| - 1;
    var earlier := Owner(modules[..n], address, timestamp);
    if i < n {
      OwnerIsTheLatest(modules[..n], address, timestamp, i);
    }
    if earlier.Some? {
      OwnerIsTheLatest(modules[..n], address, timestamp, earlier.value);
    } else {
      UnownedIsUncontained(modules[..n], address, timestamp);
    }
  }

  lemma {:induction false} UnownedIsUncontained(modules: seq<ModuleInterval>, address: u64, timestamp: int)
    ensures Owner(modules, address, timestamp).None? <==>
      forall j :: 0 <= j < |modules| ==> !ContainsAt(modules[j], address, timestamp)
  {
    if modules != [] {
      UnownedIsUncontained(modules[..|modules| - 1], address, timestamp);
    }
  }

  function Resolve(address: u64, modules: seq<ModuleInterval>, timestamp: int): Frame {
    match Owner(modules, address, timestamp)
    case Some(i) => InModule(modules[i].name, address - modules[i].base)
    case None => Unknown(address)
  }

  function ResolveAll(addresses: seq<u64>, modules: seq<ModuleInterval>, timestamp: int): (frames: seq<Frame>)
    ensures |frames| == |addresses|
  {
    seq(|addresses|, i requires 0 <= i < |addresses| => Resolve(addresses[i], modules, timestamp))
  }

  /** The saturated module end never lets an address outside the module's size through. */
  lemma ResolvedFrameIsInsideItsModule(address: u64, modules: seq<ModuleInterval>, timestamp: int)
    ensures match Owner(modules, address, timestamp)
      case Some(i) =>
        && Resolve(address, modules, timestamp) == InModule(modules[i].name, address - modules[i].base)
        && 0 <= address - modules[i].base < modules[i].size
        && modules[i].base + (address - modules[i].base) == address
      case None => Resolve(address, modules, timestamp) == Unknown(address)
  {
  }

  /**
   * A module contains an address from its load to its unload, both included, and saturation only ever
   * costs the last address of the 64-bit space.
   */
  lemma ContainsExactly(m: ModuleInterval, address: u64, timestamp: int)
    ensures ContainsAt(m, address, timestamp) <==>
      && m.base <= address < m.base + m.size
      && (m.base + m.size < U64_LIMIT || address != U64_LIMIT - 1)
      && m.loadedAt <= timestamp
      && (m.unloadedAt == None || timestamp <= m.unloadedAt.value)
  {
  }

  // ----- The table after a history of lifecycle events -----

  function HexDigit(n: nat): char
    requires n < 16
  {
    "0123456789abcdef"[n]
  }

  function Hex(n: nat): string {
    if n < 16 then [HexDigit(n)] else Hex(n / 16) + [HexDigit(n % 16)]
  }

  function Loaded(e: LifecycleEvent): ModuleInterval
    requires e.imageBase.Some? && e.imageSize.Some?
  {
    ModuleInterval(
      e.imageBase.value, e.imageSize.value,
      if e.imagePath.Some? then e.imagePath.value else "image_" + Hex(e.imageBase.value),
      e.timestamp, None)
  }

  predicate Unloads(m: ModuleInterval, base: u64, size: Option<u64>) {
    m.base == base && m.unloadedAt.None? && (size.Some? ==> size.value == m.size)
  }

  /** The youngest still loaded module at `base`, of the given size if one is given. */
  function Youngest(modules: seq<ModuleInterval>, base: u64, size: Option<u64>): (at: Option<nat>)
    ensures at.Some? ==> at.value < |modules| && Unloads(modules[at.value], base, size)
    ensures at.Some? ==> forall i :: at.value < i < |modules| ==> !Unloads(modules[i], base, size)
    ensures at.None? ==> forall i :: 0 <= i < |modules| ==> !Unloads(modules[i], base, size)
  {
    if modules == [] then None
    else
      var n := |modules| - 1;
      if Unloads(modules[n], base, size) then Some(n) else Youngest(modules[..n], base, size)
  }

  function AfterUnload(modules: seq<ModuleInterval>, timestamp: int, base: u64,
      size: Option<u64>): seq<ModuleInterval> {
    match Youngest(modules, base, size)
    case None => modules
    case Some(i) => modules[i := modules[i].(unloadedAt := Some(timestamp))]
  }

  function AfterEvent(modules: seq<ModuleInterval>, e: LifecycleEvent): seq<ModuleInterval> {
    if e.kind == ImageLoad && e.imageBase.Some? && e.imageSize.Some? then modules + [Loaded(e)]
    else if e.kind == ImageUnload && e.imageBase.Some? then
      AfterUnload(modules, e.timestamp, e.imageBase.value, e.imageSize)
    else modules
  }

  function ModulesAfter(events: seq<LifecycleEvent>): seq<ModuleInterval> {
    if events == [] then []
    else
      var n := |events| - 1;
      AfterEvent(ModulesAfter(events[..n]), events[n])
  }

  /** Appending a module loaded later than `timestamp` does not change who owns an address then. */
  lemma OwnerIgnoresLaterLoad(modules: seq<ModuleInterval>, m: ModuleInterval, address: u64, timestamp: int)
    requires timestamp < m.loadedAt
    ensures Owner(modules + [m], address, timestamp) == Owner(modules, address, timestamp)
  {
    assert (modules + [m])[..|modules|] == modules;
  }

  /** Nor does unloading a module later than `timestamp`. */
  lemma {:induction false} OwnerIgnoresLaterUnload(
    modules: seq<ModuleInterval>, i: nat, unloadedAt: int, address: u64, timestamp: int)
    requires i < |modules| && modules[i].unloadedAt.None? && timestamp < unloadedAt
    ensures Owner(modules[i := modules[i].(unloadedAt := Some(unloadedAt))], address, timestamp) ==
      Owner(modules, address, timestamp)
  {
    var n := |modules| - 1;
    var changed := modules[i := modules[i].(unloadedAt := Some(unloadedAt))];
    if i < n {
      OwnerIgnoresLaterUnload(modules[..n], i, unloadedAt, address, timestamp);
      assert changed[..n] == modules[..n][i := modules[i].(unloadedAt := Some(unloadedAt))];
    } else {
      assert changed[..n] == modules[..n];
    }
  }

  lemma LaterEventKeepsResolution(
    modules: seq<ModuleInterval>, e: LifecycleEvent, address: u64, timestamp: int)
    requires timestamp < e.timestamp
    ensures Resolve(address, AfterEvent(modules, e), timestamp) == Resolve(address, modules, timestamp)
  {
    if e.kind == ImageLoad && e.imageBase.Some? && e.imageSize.Some? {
      OwnerIgnoresLaterLoad(modules, Loaded(e), address, timestamp);
    } else if e.kind == ImageUnload && e.imageBase.Some? {
      var at := Youngest(modules, e.imageBase.value, e.imageSize);
      if at.Some? {
        OwnerIgnoresLaterUnload(modules, at.value, e.timestamp, address, timestamp);
      }
    }
  }

  /**
   * Resolving at the end is as good as resolving at once: if only later-stamped events follow the
   * first `seen` ones, they do not change how an address resolves at `timestamp`.
   */
  lemma {:induction false} DeferredResolutionIsOnline(
    events: seq<LifecycleEvent>, seen: nat, address: u64, timestamp: int)
    requires seen <= |events|
    requires forall i :: seen <= i < |events| ==> timestamp < events[i].timestamp
    ensures Resolve(address, ModulesAfter(events), timestamp) ==
      Resolve(address, ModulesAfter(events[..seen]), timestamp)
    decreases |events|
  {
    if seen == |events| {
      assert events[..seen] == events;
    } else {
      var last, earlier := events[|events| - 1], events[..|events| - 1];
      assert earlier[..seen] == events[..seen];
      DeferredResolutionIsOnline(earlier, seen, address, timestamp);
      LaterEventKeepsResolution(ModulesAfter(earlier), last, address, timestamp);
      assert ModulesAfter(events) == AfterEvent(ModulesAfter(earlier), last);
    }
  }

  predicate Nondecreasing(events: seq<LifecycleEvent>) {
    forall i, j :: 0 <= i < j < |events| ==> events[i].timestamp <= events[j].timestamp
  }

  /** How many events have a timestamp of at most `timestamp`, on an ordered history. */
  function SeenBy(events: seq<LifecycleEvent>, timestamp: int): (seen: nat)
    requires Nondecreasing(events)
    ensures seen <= |events|
    ensures forall i :: 0 <= i < seen ==> events[i].timestamp <= timestamp
    ensures forall i :: seen <= i < |events| ==> timestamp < events[i].timestamp
  {
    if events == [] then 0
    else
      var n := |events| - 1;
      if events[n].timestamp <= timestamp then |events| else SeenBy(events[..n], timestamp)
  }

  /** On an ordered trace, the final table resolves a whole stack as the table of its own moment did. */
  lemma OrderedTraceResolvesOnline(events: seq<LifecycleEvent>, addresses: seq<u64>, timestamp: int)
    requires Nondecreasing(events)
    ensures ResolveAll(addresses, ModulesAfter(events), timestamp) ==
      ResolveAll(addresses, ModulesAfter(events[..SeenBy(events, timestamp)]), timestamp)
  {
    forall i | 0 <= i < |addresses|
      ensures Resolve(addresses[i], ModulesAfter(events), timestamp) ==
        Resolve(addresses[i], ModulesAfter(events[..SeenBy(events, timestamp)]), timestamp)
    {
      DeferredResolutionIsOnline(events, SeenBy(events, timestamp), addresses[i], timestamp);
    }
  }

  // ----- Finished stacks -----

  function Reversed(frames: seq<Frame>): (r: seq<Frame>)
    ensures |r| == |frames|
    ensures forall i :: 0 <= i < |frames| ==> r[i] == frames[|frames| - 1 - i]
  {
    seq(|frames|, i requires 0 <= i < |frames| => frames[|frames| - 1 - i])
  }

  /** The frames of a row in the order in which they are written: outermost first. */
  function Finished(addresses: seq<u64>, modules: seq<ModuleInterval>, timestamp: int): (frames: seq<Frame>)
    ensures |frames| == |addresses|
  {
    Reversed(ResolveAll(addresses, modules, timestamp))
  }

  /** How many frames lie inside a module. */
  function Inside(frames: seq<Frame>): (n: nat)
    ensures n <= |frames|
  {
    if frames == [] then 0
    else Inside(frames[..|frames| - 1]) + if frames[|frames| - 1].InModule? then 1 else 0
  }

  datatype StackStats = StackStats(total: nat, resolved: nat, unresolved: nat)

  /** The frame counts of a table of stacks. */
  function StatsOf(stacks: seq<seq<Frame>>): (stats: StackStats)
    ensures stats.total == stats.resolved + stats.unresolved
  {
    if stacks == [] then StackStats(0, 0, 0)
    else
      var last := stacks[|stacks| - 1];
      var before := StatsOf(stacks[..|stacks| - 1]);
      StackStats(before.total + |last|, before.resolved + Inside(last), before.unresolved + |last| - Inside(last))
  }

  lemma {:induction false} InsideAppend(frames: seq<Frame>, frame: Frame)
    ensures Inside(frames + [frame]) == Inside(frames) + if frame.InModule? then 1 else 0
    ensures Inside([frame] + frames) == Inside(frames) + if frame.InModule? then 1 else 0
  {
    assert (frames + [frame])[..|frames|] == frames;
    if frames != [] {
      var n := |frames| - 1;
      InsideAppend(frames[..n], frame);
      assert ([frame] + frames)[..|frames|] == [frame] + frames[..n];
    } else {
      assert [frame] + frames == [frame];
      assert [frame][..0] == [];
    }
  }

  lemma {:induction false} ReversalKeepsInside(frames: seq<Frame>)
    ensures Inside(Reversed(frames)) == Inside(frames)
  {
    if frames != [] {
      var n := |frames| - 1;
      ReversalKeepsInside(frames[..n]);
      assert Reversed(frames) == [frames[n]] + Reversed(frames[..n]);
      InsideAppend(Reversed(frames[..n]), frames[n]);
    }
  }

  lemma StatsStep(stacks: seq<seq<Frame>>, stack: seq<Frame>)
    ensures StatsOf(stacks + [stack]) == StackStats(
      StatsOf(stacks).total + |stack|, StatsOf(stacks).resolved + Inside(stack),
      StatsOf(stacks).unresolved + |stack| - Inside(stack))
  {
    assert (stacks + [stack])[..|stacks|] == stacks;
  }
}
