/** Bags of parked StackWalk events, and what appending frames to a row does. */
module StackParking {
  import opened EtwEvents

  const MAX_PARKED_TIMESTAMPS: nat := 4096
  const MAX_PARKED_PER_TIMESTAMP: nat := 32

  type Parked = map<int, seq<StackWalkEvent>>

  lemma {:induction false} Least(keys: set<int>) returns (least: int)
    requires keys != {}
    ensures least in keys && forall j :: j in keys ==> least <= j
  {
    assert (forall k :: k !in keys) ==> keys == {};
    least :| least in keys;
    if keys != {least} {
      var other := Least(keys - {least});
      assert forall j :: j in keys ==> j == least || j in keys - {least};
      if other < least {
        least := other;
      }
    }
  }

  ghost function Oldest(parked: Parked): (k: int)
    requires parked != map[]
    ensures k in parked && forall j :: j in parked ==> k <= j
  {
    assert parked.Keys != {};
    assert exists k :: k in parked.Keys && forall j :: j in parked.Keys ==> k <= j by {
      var least := Least(parked.Keys);
    }
    var k :| k in parked.Keys && forall j :: j in parked.Keys ==> k <= j;
    k
  }

  /** Every parked event, with its multiplicity. */
  ghost function Bag(parked: Parked): multiset<StackWalkEvent>
    decreases |parked|
  {
    if parked == map[] then multiset{}
    else
      var k := Oldest(parked);
      multiset(parked[k]) + Bag(parked - {k})
  }

  lemma BagOfOldest(parked: Parked)
    requires |parked| > 0
    ensures Bag(parked) == multiset(parked[Oldest(parked)]) + Bag(parked - {Oldest(parked)})
  {
  }

  lemma {:induction false} BagRemove(parked: Parked, k: int)
    requires k in parked
    ensures Bag(parked) == multiset(parked[k]) + Bag(parked - {k})
    decreases |parked|
  {
    var o := Oldest(parked);
    BagOfOldest(parked);
    hide Bag;
    if o != k {
      BagRemove(parked - {o}, k);
      BagRemove(parked - {k}, o);
      assert parked - {o} - {k} == parked - {k} - {o};
    }
  }

  lemma BagPut(parked: Parked, k: int, stacks: seq<StackWalkEvent>)
    ensures Bag(parked[k := stacks]) == Bag(parked - {k}) + multiset(stacks)
  {
    BagRemove(parked[k := stacks], k);
    assert parked[k := stacks] - {k} == parked - {k};
  }

  function ParkedUnder(parked: Parked, k: int): seq<StackWalkEvent> {
    if k in parked then parked[k] else []
  }

  /** Parking one more event adds exactly that event. */
  lemma BagGrow(parked: Parked, k: int, stack: StackWalkEvent)
    ensures Bag(parked[k := ParkedUnder(parked, k) + [stack]]) == Bag(parked) + multiset{stack}
  {
    BagPut(parked, k, ParkedUnder(parked, k) + [stack]);
    if k in parked {
      BagRemove(parked, k);
    } else {
      assert parked - {k} == parked;
    }
  }

  lemma KeysGrow(parked: Parked, k: int, stacks: seq<StackWalkEvent>)
    ensures |parked[k := stacks]| == if k in parked then |parked| else |parked| + 1
  {
    assert parked[k := stacks].Keys == parked.Keys + {k};
  }

  /** Frames with the non-null, not yet present addresses of `source` appended. */
  function Appended(frames: seq<u64>, source: seq<u64>): seq<u64>
    decreases |source|
  {
    if source == [] then frames
    else
      var n := |source| - 1;
      var before := Appended(frames, source[..n]);
      if source[n] != 0 && source[n] !in before then before + [source[n]] else before
  }

  ghost predicate NoDuplicates(s: seq<u64>) {
    forall i, j :: 0 <= i < j < |s| ==> s[i] != s[j]
  }

  /** Appending keeps the old frames, adds exactly the missing non-null addresses, each once. */
  lemma {:induction false} AppendedAddsEachMissingAddressOnce(frames: seq<u64>, source: seq<u64>)
    ensures frames <= Appended(frames, source)
    ensures forall a :: a in Appended(frames, source) <==> a in frames || (a in source && a != 0)
    ensures NoDuplicates(Appended(frames, source)[|frames|..])
    ensures forall i :: |frames| <= i < |Appended(frames, source)| ==> Appended(frames, source)[i] !in frames
    decreases |source|
  {
    if source != [] {
      var n := |source| - 1;
      AppendedAddsEachMissingAddressOnce(frames, source[..n]);
      assert source == source[..n] + [source[n]];
      var before := Appended(frames, source[..n]);
      forall a ensures a in Appended(frames, source) <==> a in frames || (a in source && a != 0) {
      }
      assert NoDuplicates((before + [source[n]])[|frames|..]) || source[n] in before by {
        assert (before + [source[n]])[|frames|..] == before[|frames|..] + [source[n]];
      }
    }
  }

  /** A StackWalk event given to a row. */
  datatype Attachment = Attachment(target: StackTarget, stack: StackWalkEvent)

  function Stacks(attachments: seq<Attachment>): (stacks: seq<StackWalkEvent>)
    ensures |stacks| == |attachments|
  {
    seq(|attachments|, i requires 0 <= i < |attachments| => attachments[i].stack)
  }

  /** The addresses of a row: its own, then those of the stacks attached to it, in order. */
  function FramesOf(own: seq<u64>, attachments: seq<Attachment>, target: StackTarget): seq<u64> {
    if attachments == [] then own
    else
      var n := |attachments| - 1;
      var before := FramesOf(own, attachments[..n], target);
      if attachments[n].target == target then Appended(before, attachments[n].stack.addresses) else before
  }

  lemma FramesStep(own: seq<u64>, attachments: seq<Attachment>, a: Attachment, target: StackTarget)
    ensures FramesOf(own, attachments + [a], target) ==
      if a.target == target then Appended(FramesOf(own, attachments, target), a.stack.addresses)
      else FramesOf(own, attachments, target)
  {
    assert (attachments + [a])[..|attachments|] == attachments;
  }

  /** The address stands in a stack attached to the row. */
  ghost predicate IsAttached(attachments: seq<Attachment>, target: StackTarget, a: u64) {
    exists i :: 0 <= i < |attachments| && attachments[i].target == target && a in attachments[i].stack.addresses
  }

  /** A row keeps its own addresses in front, and adds exactly the non-null ones of the stacks attached to it, once. */
  lemma {:induction false} FramesAreOwnAndAttached(own: seq<u64>, attachments: seq<Attachment>, target: StackTarget)
    ensures own <= FramesOf(own, attachments, target)
    ensures forall a :: a in FramesOf(own, attachments, target) <==>
      a in own || (a != 0 && IsAttached(attachments, target, a))
    ensures forall i, j :: |own| <= i < |FramesOf(own, attachments, target)| && 0 <= j < i ==>
      FramesOf(own, attachments, target)[j] != FramesOf(own, attachments, target)[i]
    decreases |attachments|
  {
    if attachments != [] {
      var n := |attachments| - 1;
      var before := FramesOf(own, attachments[..n], target);
      FramesAreOwnAndAttached(own, attachments[..n], target);
      assert forall a :: IsAttached(attachments, target, a) <==>
        IsAttached(attachments[..n], target, a)
        || (attachments[n].target == target && a in attachments[n].stack.addresses);
      AppendedAddsEachMissingAddressOnce(before, attachments[n].stack.addresses);
    }
  }

  lemma FramesUntouched(own: seq<u64>, attachments: seq<Attachment>, target: StackTarget)
    requires forall i :: 0 <= i < |attachments| ==> attachments[i].target != target
    ensures FramesOf(own, attachments, target) == own
  {
  }

  /** Every StackWalk event is attached, dropped, parked, or still in hand, each exactly once. */
  ghost predicate Conserved(
    walks: seq<StackWalkEvent>, attachments: seq<Attachment>, dropped: seq<StackWalkEvent>,
    parked: Parked, inHand: multiset<StackWalkEvent>)
  {
    multiset(walks) == multiset(Stacks(attachments)) + multiset(dropped) + Bag(parked) + inHand
  }

  lemma ConservedByDropping(
    walks: seq<StackWalkEvent>, attachments: seq<Attachment>, dropped: seq<StackWalkEvent>,
    parked: Parked, stack: StackWalkEvent)
    requires Conserved(walks, attachments, dropped, parked, multiset{stack})
    ensures Conserved(walks, attachments, dropped + [stack], parked, multiset{})
  {
  }

  lemma ConservedByDroppingParked(
    walks: seq<StackWalkEvent>, attachments: seq<Attachment>, dropped: seq<StackWalkEvent>,
    parked: Parked, k: int, inHand: multiset<StackWalkEvent>)
    requires k in parked && Conserved(walks, attachments, dropped, parked, inHand)
    ensures Conserved(walks, attachments, dropped + parked[k], parked - {k}, inHand)
  {
    BagRemove(parked, k);
  }

  lemma ConservedByTakingOut(
    walks: seq<StackWalkEvent>, attachments: seq<Attachment>, dropped: seq<StackWalkEvent>,
    parked: Parked, k: int)
    requires k in parked && Conserved(walks, attachments, dropped, parked, multiset{})
    ensures Conserved(walks, attachments, dropped, parked - {k}, multiset(parked[k]))
  {
    BagRemove(parked, k);
  }

  lemma ConservedByParking(
    walks: seq<StackWalkEvent>, attachments: seq<Attachment>, dropped: seq<StackWalkEvent>,
    parked: Parked, stack: StackWalkEvent)
    requires Conserved(walks, attachments, dropped, parked, multiset{stack})
    ensures Conserved(walks, attachments, dropped,
                      parked[stack.timestamp := ParkedUnder(parked, stack.timestamp) + [stack]], multiset{})
  {
    BagGrow(parked, stack.timestamp, stack);
  }

  lemma ConservedByAttaching(
    walks: seq<StackWalkEvent>, attachments: seq<Attachment>, dropped: seq<StackWalkEvent>,
    parked: Parked, a: Attachment, rest: seq<StackWalkEvent>)
    requires Conserved(walks, attachments, dropped, parked, multiset([a.stack] + rest))
    ensures Conserved(walks, attachments + [a], dropped, parked, multiset(rest))
  {
    assert Stacks(attachments + [a]) == Stacks(attachments) + [a.stack];
    assert multiset([a.stack] + rest) == multiset{a.stack} + multiset(rest);
  }

  lemma ConservedByAttachingTheLast(
    walks: seq<StackWalkEvent>, attachments: seq<Attachment>, dropped: seq<StackWalkEvent>,
    parked: Parked, a: Attachment)
    requires Conserved(walks, attachments, dropped, parked, multiset{a.stack})
    ensures Conserved(walks, attachments + [a], dropped, parked, multiset{})
  {
    assert [a.stack] + [] == [a.stack];
    ConservedByAttaching(walks, attachments, dropped, parked, a, []);
  }

  lemma ConservedOnArrival(
    walks: seq<StackWalkEvent>, attachments: seq<Attachment>, dropped: seq<StackWalkEvent>,
    parked: Parked, stack: StackWalkEvent)
    requires Conserved(walks, attachments, dropped, parked, multiset{})
    ensures Conserved(walks + [stack], attachments, dropped, parked, multiset{stack})
  {
  }

  /** The counters follow: as many events as were seen are attached, dropped or parked. */
  lemma ConservedNumbers(
    walks: seq<StackWalkEvent>, attachments: seq<Attachment>, dropped: seq<StackWalkEvent>, parked: Parked)
    requires Conserved(walks, attachments, dropped, parked, multiset{})
    ensures |walks| == |attachments| + |dropped| + |Bag(parked)|
  {
    assert |multiset(walks)| == |walks|;
    assert |multiset(Stacks(attachments))| == |attachments|;
  }

  ghost predicate ParkedAt(timestamp: int, stacks: seq<StackWalkEvent>, target: nat) {
    && 0 < |stacks| <= MAX_PARKED_PER_TIMESTAMP
    && (forall i :: 0 <= i < |stacks| ==> stacks[i].timestamp == timestamp && stacks[i].process == target)
  }

  /** The bounds of the parking lot; nothing is parked for a timestamp that has rows. */
  ghost predicate ParkedWithin(parked: Parked, indexed: set<int>, target: nat) {
    && |parked| <= MAX_PARKED_TIMESTAMPS
    && (forall timestamp :: timestamp in parked ==>
      timestamp !in indexed && ParkedAt(timestamp, parked[timestamp], target))
  }

  lemma ParkedWithinAfterRemoval(parked: Parked, indexed: set<int>, target: nat, k: int)
    requires ParkedWithin(parked, indexed, target)
    ensures ParkedWithin(parked - {k}, indexed, target)
    ensures ParkedWithin(parked - {k}, indexed + {k}, target)
    ensures |parked - {k}| == if k in parked then |parked| - 1 else |parked|
  {
    assert (parked - {k}).Keys == parked.Keys - {k};
  }

  lemma ParkedWithinAfterParking(parked: Parked, indexed: set<int>, target: nat, stack: StackWalkEvent)
    requires ParkedWithin(parked, indexed, target)
    requires stack.process == target && stack.timestamp !in indexed
    requires |ParkedUnder(parked, stack.timestamp)| < MAX_PARKED_PER_TIMESTAMP
    requires stack.timestamp in parked || |parked| < MAX_PARKED_TIMESTAMPS
    ensures ParkedWithin(parked[stack.timestamp := ParkedUnder(parked, stack.timestamp) + [stack]], indexed, target)
  {
    var more := ParkedUnder(parked, stack.timestamp) + [stack];
    KeysGrow(parked, stack.timestamp, more);
    assert ParkedAt(stack.timestamp, more, target);
  }
}
