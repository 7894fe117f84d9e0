/**
 The hybrid logical clock, and runs of any number of nodes that read their wall
 clocks, stamp events and receive each other's stamps. Wall clocks are arbitrary:
 they may disagree, stand still or step backwards.
*/
module Hlc {
  import opened Prelude

  datatype Stamp = Stamp(physicalTime: int, logicalCounter: int)

  class HybridLogicalClock {
    var lastPhysicalTime: int
    var logicalCounter: int

    ghost function Contents(): Stamp
      reads this
    {
      Stamp(lastPhysicalTime, logicalCounter)
    }

    constructor (physical: int)
      ensures Contents() == Initial(physical)
    {
      lastPhysicalTime := physical;
      logicalCounter := 0;
    }

    method Now(physical: int) returns (stamp: Stamp)
      modifies this
      ensures stamp == Contents() == Ticked(old(Contents()), physical)
    {
      if physical > lastPhysicalTime {
        lastPhysicalTime := physical;
        logicalCounter := 0;
      } else {
        logicalCounter := logicalCounter + 1;
      }
      stamp := Stamp(lastPhysicalTime, logicalCounter);
    }

    method Update(physical: int, remote: Stamp) returns (stamp: Stamp)
      modifies this
      ensures stamp == Contents() == Merged(old(Contents()), physical, remote)
    {
      var maxPhysical := Max(Max(physical, lastPhysicalTime), remote.physicalTime);
      if maxPhysical == lastPhysicalTime && maxPhysical == remote.physicalTime {
        logicalCounter := Max(logicalCounter, remote.logicalCounter) + 1;
      } else if maxPhysical == lastPhysicalTime {
        logicalCounter := logicalCounter + 1;
      } else if maxPhysical == remote.physicalTime {
        logicalCounter := remote.logicalCounter + 1;
      } else {
        logicalCounter := 0;
      }
      lastPhysicalTime := maxPhysical;
      stamp := Stamp(lastPhysicalTime, logicalCounter);
    }
  }

  function Initial(physical: int): Stamp {
    Stamp(physical, 0)
  }

  function Ticked(s: Stamp, physical: int): Stamp {
    if physical > s.physicalTime then Stamp(physical, 0) else s.(logicalCounter := s.logicalCounter + 1)
  }

  function Merged(s: Stamp, physical: int, remote: Stamp): Stamp {
    var time := Max(Max(physical, s.physicalTime), remote.physicalTime);
    var counter :=
      if time == s.physicalTime == remote.physicalTime then Max(s.logicalCounter, remote.logicalCounter) + 1
      else if time == s.physicalTime then s.logicalCounter + 1
      else if time == remote.physicalTime then remote.logicalCounter + 1
      else 0;
    Stamp(time, counter)
  }

  // ------------------------------------------------------------------
  // The order of stamps
  // ------------------------------------------------------------------

  function Compare(a: Stamp, b: Stamp): int {
    if a.physicalTime != b.physicalTime then a.physicalTime - b.physicalTime
    else a.logicalCounter - b.logicalCounter
  }

  /** `Compare` is a strict total order: the sign flips with the arguments, only
      equal stamps compare as 0, and being less is transitive. */
  lemma CompareIsTotalOrder(a: Stamp, b: Stamp, c: Stamp)
    ensures Compare(a, b) == -Compare(b, a)
    ensures Compare(a, b) == 0 <==> a == b
    ensures Compare(a, b) < 0 && Compare(b, c) < 0 ==> Compare(a, c) < 0
    ensures Compare(a, b) < 0 <==>
            a.physicalTime < b.physicalTime || (a.physicalTime == b.physicalTime && a.logicalCounter < b.logicalCounter)
  {
  }

  // ------------------------------------------------------------------
  // Runs of many nodes
  // ------------------------------------------------------------------

  /** `reading` is what the node's wall clock showed; `source` is the event whose stamp was received. */
  datatype Event =
    | Create(node: nat, reading: int)
    | Tick(node: nat, reading: int)
    | Receive(node: nat, reading: int, source: nat)

  /** The latest event before `i` on the given node, or -1. */
  function LatestOn(run: seq<Event>, node: nat, i: nat): (j: int)
    requires i <= |run|
    ensures -1 <= j < i
    ensures j >= 0 ==> run[j].node == node
    ensures forall m :: j < m < i ==> run[m].node != node
  {
    if i == 0 then -1
    else if run[i - 1].node == node then i - 1
    else LatestOn(run, node, i - 1)
  }

  function Previous(run: seq<Event>, i: nat): int
    requires i < |run|
  {
    LatestOn(run, run[i].node, i)
  }

  /** A clock is created once, before it is used, and what is received was issued by an earlier event. */
  predicate WellFormedAt(run: seq<Event>, i: nat)
    requires i < |run|
  {
    && (run[i].Create? <==> Previous(run, i) == -1)
    && (run[i].Receive? ==> run[i].source < i && !run[run[i].source].Create?)
  }

  ghost predicate WellFormed(run: seq<Event>) {
    forall i {:trigger WellFormedAt(run, i)} :: 0 <= i < |run| ==> WellFormedAt(run, i)
  }

  /** The content of the node's clock after event `i`, which is the stamp that a `Tick` or `Receive` issues. */
  ghost function StampOf(run: seq<Event>, i: nat): Stamp
    requires WellFormed(run) && i < |run|
  {
    assert WellFormedAt(run, i);
    match run[i]
    case Create(_, reading) => Initial(reading)
    case Tick(_, reading) => Ticked(StampOf(run, Previous(run, i)), reading)
    case Receive(_, reading, source) => Merged(StampOf(run, Previous(run, i)), reading, StampOf(run, source))
  }

  /** `i` directly precedes `j`: on the same node, or by a received stamp. */
  predicate Precedes(run: seq<Event>, i: nat, j: nat)
    requires j < |run|
  {
    Previous(run, j) == i || (run[j].Receive? && run[j].source == i)
  }

  /** The causal past of an event, itself included. */
  ghost function Past(run: seq<Event>, i: nat): set<nat>
    requires WellFormed(run) && i < |run|
  {
    assert WellFormedAt(run, i);
    match run[i]
    case Create(_, _) => {i}
    case Tick(_, _) => {i} + Past(run, Previous(run, i))
    case Receive(_, _, source) => {i} + Past(run, Previous(run, i)) + Past(run, source)
  }

  /** A path of direct precedence. */
  ghost predicate CausalChain(run: seq<Event>, chain: seq<nat>) {
    && (forall m :: 0 <= m < |chain| ==> chain[m] < |run|)
    && (forall m :: 0 < m < |chain| ==> Precedes(run, chain[m - 1], chain[m]))
  }

  // ------------------------------------------------------------------
  // Causality
  // ------------------------------------------------------------------

  lemma DirectPredecessorIsSmaller(run: seq<Event>, i: nat, j: nat)
    requires WellFormed(run) && j < |run| && Precedes(run, i, j)
    ensures i < j && Compare(StampOf(run, i), StampOf(run, j)) < 0
  {
    assert WellFormedAt(run, j);
  }

  /** Happening before implies a smaller stamp. */
  lemma {:induction false} CausalityIsOrdered(run: seq<Event>, i: nat, j: nat)
    requires WellFormed(run) && j < |run| && i in Past(run, j)
    ensures i <= j
    ensures i != j ==> Compare(StampOf(run, i), StampOf(run, j)) < 0
    decreases j
  {
    assert WellFormedAt(run, j);
    if i != j {
      var previous := Previous(run, j);
      var k: nat := if i in Past(run, previous) then previous else run[j].source;
      CausalityIsOrdered(run, i, k);
      DirectPredecessorIsSmaller(run, k, j);
    }
  }

  /** The causal past of an event is exactly what a chain of direct precedence reaches it from. */
  lemma {:induction false} PastHasChain(run: seq<Event>, i: nat, j: nat) returns (chain: seq<nat>)
    requires WellFormed(run) && j < |run| && i in Past(run, j)
    ensures CausalChain(run, chain) && chain != [] && chain[0] == i && chain[|chain| - 1] == j
    decreases j
  {
    assert WellFormedAt(run, j);
    if i == j {
      chain := [i];
    } else {
      var previous := Previous(run, j);
      var k: nat := if i in Past(run, previous) then previous else run[j].source;
      var init := PastHasChain(run, i, k);
      chain := init + [j];
    }
  }

  lemma {:induction false} ChainIsInPast(run: seq<Event>, chain: seq<nat>)
    requires WellFormed(run) && CausalChain(run, chain) && chain != []
    ensures chain[0] in Past(run, chain[|chain| - 1])
  {
    if |chain| > 1 {
      var init, last := chain[..|chain| - 1], chain[|chain| - 1];
      assert WellFormedAt(run, last);
      assert Precedes(run, init[|init| - 1], last);
      ChainIsInPast(run, init);
    }
  }

  /** The events of one node are causally ordered, so its stamps strictly
      increase whatever its wall clock does. */
  lemma {:induction false} NodeStampsIncrease(run: seq<Event>, i: nat, j: nat)
    requires WellFormed(run) && i < j < |run| && run[i].node == run[j].node
    ensures i in Past(run, j)
    ensures Compare(StampOf(run, i), StampOf(run, j)) < 0
    decreases j
  {
    assert WellFormedAt(run, j);
    var previous := Previous(run, j);
    if i != previous {
      NodeStampsIncrease(run, i, previous);
    } else {
      SelfInPast(run, i);
    }
    CausalityIsOrdered(run, i, j);
  }

  lemma SelfInPast(run: seq<Event>, i: nat)
    requires WellFormed(run) && i < |run|
    ensures i in Past(run, i)
  {
  }

  // ------------------------------------------------------------------
  // What the two components of a stamp mean
  // ------------------------------------------------------------------

  /** The physical time of a stamp is the maximum of all wall-clock readings in its causal past. */
  lemma {:induction false} TimeIsMaximalReading(run: seq<Event>, i: nat)
    requires WellFormed(run) && i < |run|
    ensures forall j <- Past(run, i) :: j < |run| && run[j].reading <= StampOf(run, i).physicalTime
    ensures exists j <- Past(run, i) :: j < |run| && run[j].reading == StampOf(run, i).physicalTime
    decreases i
  {
    assert WellFormedAt(run, i);
    SelfInPast(run, i);
    if !run[i].Create? {
      TimeIsMaximalReading(run, Previous(run, i));
      if run[i].Receive? {
        TimeIsMaximalReading(run, run[i].source);
      }
    }
  }

  /** A causal chain that ends in the event, counts from 0 up to the event's
      counter, and shares its physical time. */
  ghost predicate Witnesses(run: seq<Event>, chain: seq<nat>, i: nat)
    requires WellFormed(run) && i < |run|
  {
    && chain != [] && chain[|chain| - 1] == i
    && CausalChain(run, chain)
    && |chain| == StampOf(run, i).logicalCounter + 1
    && forall m :: 0 <= m < |chain| ==> StampOf(run, chain[m]) == Stamp(StampOf(run, i).physicalTime, m)
  }

  lemma ExtendWitness(run: seq<Event>, chain: seq<nat>, k: nat, i: nat)
    requires WellFormed(run) && k < i < |run| && Witnesses(run, chain, k) && Precedes(run, k, i)
    requires StampOf(run, i) == Stamp(StampOf(run, k).physicalTime, StampOf(run, k).logicalCounter + 1)
    ensures Witnesses(run, chain + [i], i)
  {
  }

  /** In every run, a counter of `k` is witnessed by a causal chain of `k + 1` events. */
  lemma {:induction false} CounterHasWitnessChain(run: seq<Event>, i: nat) returns (chain: seq<nat>)
    requires WellFormed(run) && i < |run|
    ensures Witnesses(run, chain, i)
    decreases i
  {
    assert WellFormedAt(run, i);
    var stamp := StampOf(run, i);
    if stamp == Stamp(stamp.physicalTime, 0) {
      chain := [i];
    } else {
      var k: nat := Previous(run, i);
      if run[i].Receive? && StampOf(run, k) != Stamp(stamp.physicalTime, stamp.logicalCounter - 1) {
        k := run[i].source;
      }
      chain := CounterHasWitnessChain(run, k);
      CounterIsNatural(run, k);
      ExtendWitness(run, chain, k, i);
      chain := chain + [i];
    }
  }

  lemma {:induction false} CounterIsNatural(run: seq<Event>, i: nat)
    requires WellFormed(run) && i < |run|
    ensures StampOf(run, i).logicalCounter >= 0
    decreases i
  {
    assert WellFormedAt(run, i);
    if !run[i].Create? {
      CounterIsNatural(run, Previous(run, i));
      if run[i].Receive? {
        CounterIsNatural(run, run[i].source);
      }
    }
  }
}
