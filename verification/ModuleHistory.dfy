/**
 * What addresses resolve to, said of the load and unload events themselves.
 *
 * An unload ends the youngest load it matches that no earlier unload has ended.  Nothing here mentions
 * the module table.
 */
module ModuleHistory {
  import opened Wrappers
  import opened EtwEvents
  import opened ModuleTable

  predicate IsLoad(e: LifecycleEvent) {
    e.kind == ImageLoad && e.imageBase.Some? && e.imageSize.Some?
  }

  /** The unload names the load's base, and its size if it names one. */
  predicate Matches(unload: LifecycleEvent, load: LifecycleEvent) {
    && unload.kind == ImageUnload && IsLoad(load) && unload.imageBase == load.imageBase
    && (unload.imageSize.Some? ==> unload.imageSize == load.imageSize)
  }

  /** The event at `u` is the unload that ends the load at `l`. */
  ghost predicate Ends(events: seq<LifecycleEvent>, u: nat, l: nat)
    decreases u
  {
    && l < u < |events| && Matches(events[u], events[l])
    && (forall k: nat :: l < k < u ==> !Ends(events, k, l))
    && (forall m: nat :: l < m < u && Matches(events[u], events[m]) ==>
          exists k: nat :: m < k < u && Ends(events, k, m))
  }

  /** The module loaded by the event at `l` is there at the time, which may be that of its unload. */
  ghost predicate IsThere(events: seq<LifecycleEvent>, l: nat, timestamp: int) {
    && l < |events| && IsLoad(events[l]) && events[l].timestamp <= timestamp
    && forall u: nat :: Ends(events, u, l) ==> timestamp <= events[u].timestamp
  }

  /** The module's addresses: all of its size, but never the last of the 64-bit space. */
  predicate Covers(e: LifecycleEvent, address: u64) {
    && IsLoad(e) && e.imageBase.value <= address < e.imageBase.value + e.imageSize.value
    && (e.imageBase.value + e.imageSize.value < U64_LIMIT || address != U64_LIMIT - 1)
  }

  ghost predicate Holds(events: seq<LifecycleEvent>, l: nat, address: u64, timestamp: int) {
    IsThere(events, l, timestamp) && Covers(events[l], address)
  }

  /** Of the modules that hold the address at the time, this one was loaded last. */
  ghost predicate Owns(events: seq<LifecycleEvent>, l: nat, address: u64, timestamp: int) {
    && Holds(events, l, address, timestamp)
    && forall k: nat :: Holds(events, k, address, timestamp) ==>
      events[k].timestamp < events[l].timestamp || (events[k].timestamp == events[l].timestamp && k <= l)
  }

  /** The frame names the module that owns the address and the offset in it, or no module holds it. */
  ghost predicate IsFrameOf(events: seq<LifecycleEvent>, address: u64, timestamp: int, frame: Frame) {
    match frame
    case Unknown(a) => a == address && forall l: nat :: !Holds(events, l, address, timestamp)
    case InModule(name, offset) => exists l: nat ::
      && Owns(events, l, address, timestamp)
      && events[l].imageBase.value + offset == address
      && name == (match events[l].imagePath case Some(path) => path
                  case None => "image_" + Hex(events[l].imageBase.value))
  }

  // ----- The table lists the loads -----

  /** The positions of the loads. */
  function Loads(events: seq<LifecycleEvent>): (loads: seq<nat>)
    ensures forall i :: 0 <= i < |loads| ==> loads[i] < |events| && IsLoad(events[loads[i]])
    ensures forall i, j :: 0 <= i < j < |loads| ==> loads[i] < loads[j]
    ensures forall l: nat :: l < |events| && IsLoad(events[l]) ==> l in loads
  {
    if events == [] then []
    else
      var n := |events| - 1;
      var earlier := Loads(events[..n]);
      assert forall l: nat :: l < n ==> events[..n][l] == events[l];
      earlier + if IsLoad(events[n]) then [n] else []
  }

  /** The module is the one loaded at `l`, ended if and when an unload has ended it. */
  ghost predicate Shows(m: ModuleInterval, events: seq<LifecycleEvent>, l: nat) {
    && l < |events| && IsLoad(events[l])
    && m.base == events[l].imageBase.value && m.size == events[l].imageSize.value
    && m.loadedAt == events[l].timestamp && m.name == Loaded(events[l]).name
    && (m.unloadedAt.None? ==> forall u: nat :: !Ends(events, u, l))
    && (m.unloadedAt.Some? ==> exists u: nat :: Ends(events, u, l) && events[u].timestamp == m.unloadedAt.value)
  }

  lemma {:induction false} EndsOnce(events: seq<LifecycleEvent>, u: nat, v: nat, l: nat)
    requires Ends(events, u, l) && Ends(events, v, l)
    ensures u == v
  {
  }

  /** What ended before an event is added stays as it was. */
  lemma {:induction false} EndsOfPrefix(events: seq<LifecycleEvent>, n: nat, u: nat, l: nat)
    requires u < n <= |events|
    ensures Ends(events[..n], u, l) <==> Ends(events, u, l)
    decreases u
  {
    forall k: nat, m: nat | k < u
      ensures Ends(events[..n], k, m) <==> Ends(events, k, m)
    {
      EndsOfPrefix(events, n, k, m);
    }
  }

  /** The whole table, load by load. */
  ghost predicate ListsLoads(modules: seq<ModuleInterval>, events: seq<LifecycleEvent>) {
    |modules| == |Loads(events)| && forall i :: 0 <= i < |modules| ==> Shows(modules[i], events, Loads(events)[i])
  }

  lemma {:induction false} ShowsStill(m: ModuleInterval, events: seq<LifecycleEvent>, l: nat)
    requires events != [] && Shows(m, events[..|events| - 1], l) && !Ends(events, |events| - 1, l)
    ensures Shows(m, events, l)
  {
    var n := |events| - 1;
    forall u: nat | u < n
      ensures Ends(events[..n], u, l) <==> Ends(events, u, l)
    {
      EndsOfPrefix(events, n, u, l);
    }
  }

  lemma {:induction false} ShowsEnded(m: ModuleInterval, events: seq<LifecycleEvent>, l: nat)
    requires events != [] && Shows(m, events[..|events| - 1], l) && Ends(events, |events| - 1, l)
    ensures Shows(m.(unloadedAt := Some(events[|events| - 1].timestamp)), events, l)
  {
  }

  lemma {:induction false} TableListsLoads(events: seq<LifecycleEvent>)
    ensures ListsLoads(ModulesAfter(events), events)
  {
    if events != [] {
      var n := |events| - 1;
      TableListsLoads(events[..n]);
      if IsLoad(events[n]) {
        LoadIsListed(events);
      } else if events[n].kind == ImageUnload && events[n].imageBase.Some? {
        UnloadIsListed(events);
      } else {
        forall i | 0 <= i < |ModulesAfter(events)|
          ensures Shows(ModulesAfter(events)[i], events, Loads(events)[i])
        {
          ShowsStill(ModulesAfter(events)[i], events, Loads(events)[i]);
        }
      }
    }
  }

  lemma {:induction false} LoadIsListed(events: seq<LifecycleEvent>)
    requires events != [] && IsLoad(events[|events| - 1])
    requires ListsLoads(ModulesAfter(events[..|events| - 1]), events[..|events| - 1])
    ensures ListsLoads(ModulesAfter(events), events)
  {
    var n := |events| - 1;
    var before := ModulesAfter(events[..n]);
    assert Shows(Loaded(events[n]), events, n);
    forall i | 0 <= i < |before|
      ensures Shows(ModulesAfter(events)[i], events, Loads(events)[i])
    {
      ShowsStill(before[i], events, Loads(events)[i]);
    }
  }

  lemma {:induction false} UnloadIsListed(events: seq<LifecycleEvent>)
    requires events != [] && events[|events| - 1].kind == ImageUnload && events[|events| - 1].imageBase.Some?
    requires ListsLoads(ModulesAfter(events[..|events| - 1]), events[..|events| - 1])
    ensures ListsLoads(ModulesAfter(events), events)
  {
    var n, e := |events| - 1, events[|events| - 1];
    var before := ModulesAfter(events[..n]);
    var at := Youngest(before, e.imageBase.value, e.imageSize);
    assert Loads(events) == Loads(events[..n]);
    forall i | 0 <= i < |before|
      ensures Shows(ModulesAfter(events)[i], events, Loads(events)[i])
    {
      EndsTheYoungest(events, before, i);
      if at == Some(i) {
        ShowsEnded(before[i], events, Loads(events)[i]);
      } else {
        ShowsStill(before[i], events, Loads(events)[i]);
      }
    }
  }

  ghost predicate EndedBefore(events: seq<LifecycleEvent>, n: nat, l: nat) {
    exists k: nat :: k < n && Ends(events, k, l)
  }

  /** Each module of the table can be unloaded by the last event exactly if it matches and is not ended yet. */
  ghost predicate CanEnd(events: seq<LifecycleEvent>, before: seq<ModuleInterval>, loads: seq<nat>)
    requires events != [] && events[|events| - 1].imageBase.Some?
  {
    var n, e := |events| - 1, events[|events| - 1];
    && |before| == |loads|
    && (forall j :: 0 <= j < |loads| ==> loads[j] < n)
    && (forall j :: 0 <= j < |loads| ==> Unloads(before[j], e.imageBase.value, e.imageSize)
                                         == (Matches(e, events[loads[j]]) && !EndedBefore(events, n, loads[j])))
  }

  /** The last event ends a load exactly if the table's module for it is the youngest that matches. */
  lemma {:induction false} EndsTheYoungest(events: seq<LifecycleEvent>, before: seq<ModuleInterval>, i: nat)
    requires events != [] && ListsLoads(before, events[..|events| - 1]) && i < |before|
    requires events[|events| - 1].kind == ImageUnload && events[|events| - 1].imageBase.Some?
    ensures var n, e := |events| - 1, events[|events| - 1];
      Ends(events, n, Loads(events[..n])[i]) == (Youngest(before, e.imageBase.value, e.imageSize) == Some(i))
  {
    var n, e, loads := |events| - 1, events[|events| - 1], Loads(events[..|events| - 1]);
    hide Ends, Unloads, Shows, EndedBefore, Matches, Loads;
    forall j | 0 <= j < |before|
      ensures Unloads(before[j], e.imageBase.value, e.imageSize)
        == (Matches(e, events[loads[j]]) && !EndedBefore(events, n, loads[j]))
    {
      StillLoaded(events, before[j], loads[j]);
    }
    LastEnds(events, loads[i]);
    forall m: nat | m < n && Matches(e, events[m])
      ensures m in loads
    {
      MatchesAreLoads(e, events[m]);
      assert events[..n][m] == events[m];
    }
    YoungestIsLast(events, before, loads, i);
  }

  lemma {:induction false} YoungestIsLast(events: seq<LifecycleEvent>, before: seq<ModuleInterval>, loads: seq<nat>,
      i: nat)
    requires events != [] && events[|events| - 1].imageBase.Some? && CanEnd(events, before, loads) && i < |loads|
    requires forall a, b :: 0 <= a < b < |loads| ==> loads[a] < loads[b]
    requires forall m: nat :: m < |events| - 1 && Matches(events[|events| - 1], events[m]) ==> m in loads
    ensures var n, e := |events| - 1, events[|events| - 1];
      (Youngest(before, e.imageBase.value, e.imageSize) == Some(i)) ==
      (Matches(e, events[loads[i]]) && !EndedBefore(events, n, loads[i])
       && forall m: nat :: loads[i] < m < n && Matches(e, events[m]) ==> EndedBefore(events, n, m))
  {
    hide Ends, Unloads, EndedBefore, Matches, Youngest;
    var n, e := |events| - 1, events[|events| - 1];
    if Youngest(before, e.imageBase.value, e.imageSize) == Some(i) {
      forall m: nat | loads[i] < m < n && Matches(e, events[m])
        ensures EndedBefore(events, n, m)
      {
        var j :| 0 <= j < |loads| && loads[j] == m;
        assert !Unloads(before[j], e.imageBase.value, e.imageSize);
      }
    }
  }

  lemma MatchesAreLoads(unload: LifecycleEvent, load: LifecycleEvent)
    requires Matches(unload, load)
    ensures IsLoad(load)
  {
  }

  lemma {:induction false} LastEnds(events: seq<LifecycleEvent>, l: nat)
    requires events != [] && l < |events| - 1
    ensures var n := |events| - 1;
      Ends(events, n, l) == (Matches(events[n], events[l]) && !EndedBefore(events, n, l)
        && forall m: nat :: l < m < n && Matches(events[n], events[m]) ==> EndedBefore(events, n, m))
  {
  }

  lemma {:induction false} StillLoaded(events: seq<LifecycleEvent>, m: ModuleInterval, l: nat)
    requires events != [] && Shows(m, events[..|events| - 1], l)
    requires events[|events| - 1].kind == ImageUnload && events[|events| - 1].imageBase.Some?
    ensures var e := events[|events| - 1];
      Unloads(m, e.imageBase.value, e.imageSize) == (Matches(e, events[l]) && !EndedBefore(events, |events| - 1, l))
  {
    var n := |events| - 1;
    forall k: nat | k < n
      ensures Ends(events[..n], k, l) <==> Ends(events, k, l)
    {
      EndsOfPrefix(events, n, k, l);
    }
    assert events[l] == events[..n][l];
    if m.unloadedAt.Some? {
      var u: nat :| Ends(events[..n], u, l) && events[..n][u].timestamp == m.unloadedAt.value;
      assert Ends(events, u, l);
    }
    assert m.unloadedAt.None? <==> !EndedBefore(events, n, l);
  }

  // ----- What addresses resolve to -----

  lemma {:induction false} ContainsIsHolding(m: ModuleInterval, events: seq<LifecycleEvent>, l: nat, address: u64,
      timestamp: int)
    requires Shows(m, events, l)
    ensures ContainsAt(m, address, timestamp) <==> Holds(events, l, address, timestamp)
    ensures m.base == events[l].imageBase.value && m.name == Loaded(events[l]).name
    ensures m.loadedAt == events[l].timestamp
  {
    ContainsExactly(m, address, timestamp);
    hide ContainsAt;
    if m.unloadedAt.Some? {
      var u: nat :| Ends(events, u, l) && events[u].timestamp == m.unloadedAt.value;
      forall v: nat | Ends(events, v, l) ensures v == u { EndsOnce(events, u, v, l); }
    }
  }

  /**
   * An address resolves to the module that owns it at the time, by the loads and unloads alone: one whose
   * load is not after the time and which no unload has ended before it; without such a module it stays bare.
   */
  lemma {:induction false} ResolvesToItsOwner(events: seq<LifecycleEvent>, address: u64, timestamp: int)
    ensures IsFrameOf(events, address, timestamp, Resolve(address, ModulesAfter(events), timestamp))
  {
    hide ContainsAt, ModulesAfter, Holds, Ends, Shows, Loads;
    var modules, loads := ModulesAfter(events), Loads(events);
    TableListsLoads(events);
    forall i | 0 <= i < |modules|
      ensures ContainsAt(modules[i], address, timestamp) <==> Holds(events, loads[i], address, timestamp)
      ensures modules[i].base == events[loads[i]].imageBase.value && modules[i].name == Loaded(events[loads[i]]).name
      ensures modules[i].loadedAt == events[loads[i]].timestamp
    {
      ContainsIsHolding(modules[i], events, loads[i], address, timestamp);
    }
    HoldersAreLoads(events, address, timestamp);
    var owner := Owner(modules, address, timestamp);
    if owner.Some? {
      OwnerIsTheLatest(modules, address, timestamp, owner.value);
      forall k: nat | Holds(events, k, address, timestamp)
        ensures events[k].timestamp < events[loads[owner.value]].timestamp
          || (events[k].timestamp == events[loads[owner.value]].timestamp && k <= loads[owner.value])
      {
        var j :| 0 <= j < |loads| && loads[j] == k;
        assert ContainsAt(modules[j], address, timestamp);
      }
      assert Owns(events, loads[owner.value], address, timestamp);
    } else {
      UnownedIsUncontained(modules, address, timestamp);
      forall l: nat
        ensures !Holds(events, l, address, timestamp)
      {
        if l in loads {
          var j :| 0 <= j < |loads| && loads[j] == l;
          assert !ContainsAt(modules[j], address, timestamp);
        }
      }
    }
  }

  lemma {:induction false} HoldersAreLoads(events: seq<LifecycleEvent>, address: u64, timestamp: int)
    ensures forall l: nat :: Holds(events, l, address, timestamp) ==>
      l < |events| && IsLoad(events[l]) && l in Loads(events)
  {
  }

  /** An address all of whose modules come later or were ended before the time belongs to none. */
  lemma EndedModulesOwnNothing(events: seq<LifecycleEvent>, address: u64, timestamp: int)
    requires forall l: nat :: l < |events| && Covers(events[l], address) ==>
      events[l].timestamp > timestamp || exists u: nat :: Ends(events, u, l) && events[u].timestamp < timestamp
    ensures Resolve(address, ModulesAfter(events), timestamp) == Unknown(address)
  {
    ResolvesToItsOwner(events, address, timestamp);
    hide Resolve, ModulesAfter, Ends;
  }
}
