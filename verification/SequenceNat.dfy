/**
 The sequence-number NAT: three atomic counters that renumber the packets of
 the browser so that injected packets find room between them.

 The module has three layers.
  1. The class, whose two calls are each three atomic accesses.
  2. The concurrent machine, where every atomic access is a step of its own and
     any number of calls is in flight.
  3. Call-level runs, where each call finishes before the next one starts.
*/
module SeqNat {
  import opened Prelude

  /** The values of the three atomics. */
  datatype Registers = Registers(delta: u32, wire: u32, browser: u32)

  const FRESH := Registers(0, 0, 0)

  /** The law the counters are meant to obey between calls. */
  predicate Balanced(r: Registers) {
    r.wire == r.browser + r.delta
  }

  // ------------------------------------------------------------------
  // The class
  // ------------------------------------------------------------------

  class AtomicU32 {
    var value: u32

    constructor (v: u32)
      ensures value == v
    {
      value := v;
    }

    method Load() returns (v: u32)
      ensures v == value
    {
      v := value;
    }

    method FetchMax(v: u32) returns (prev: u32)
      modifies this
      ensures prev == old(value)
      ensures value == Max(old(value), v)
    {
      prev := value;
      value := Max(prev, v);
    }

    method FetchAdd(v: u32) returns (prev: u32)
      modifies this
      ensures prev == old(value)
      ensures value == Wrap(old(value) + v)
    {
      prev := value;
      value := Wrap(prev + v);
    }
  }

  class SequenceNat {
    const deltaOffset: AtomicU32
    const highestWireSeq: AtomicU32
    const highestBrowserSeq: AtomicU32

    ghost const Repr: set<object>

    ghost predicate Valid() {
      && Repr == {deltaOffset, highestWireSeq, highestBrowserSeq}
      && deltaOffset != highestWireSeq
      && deltaOffset != highestBrowserSeq
      && highestWireSeq != highestBrowserSeq
    }

    ghost function Contents(): Registers
      reads deltaOffset, highestWireSeq, highestBrowserSeq
    {
      Registers(deltaOffset.value, highestWireSeq.value, highestBrowserSeq.value)
    }

    constructor ()
      ensures Valid() && fresh(Repr)
      ensures Contents() == FRESH && Balanced(Contents())
    {
      deltaOffset := new AtomicU32(0);
      highestWireSeq := new AtomicU32(0);
      highestBrowserSeq := new AtomicU32(0);
      Repr := {deltaOffset, highestWireSeq, highestBrowserSeq};
    }

    method TransformBrowserOutbound(browserSeq: u32) returns (wireSeq: u32)
      requires Valid()
      modifies Repr
      ensures (Contents(), wireSeq) == Transform(old(Contents()), browserSeq)
    {
      var _ := highestBrowserSeq.FetchMax(browserSeq);
      var delta := deltaOffset.Load();
      wireSeq := Wrap(browserSeq + delta);
      var _ := highestWireSeq.FetchMax(wireSeq);
    }

    method AllocateInjectedOutbound() returns (wireSeq: u32)
      requires Valid()
      modifies Repr
      ensures (Contents(), wireSeq) == Allocate(old(Contents()))
    {
      var prevDelta := deltaOffset.FetchAdd(1);
      var currentBrowser: int := highestBrowserSeq.Load();
      wireSeq := Wrap(currentBrowser + prevDelta + 1);
      var _ := highestWireSeq.FetchMax(wireSeq);
    }

    method TranslateWireToBrowser(wireSeq: u32) returns (browserSeq: Option<u32>)
      ensures browserSeq == Translate(Contents(), wireSeq)
    {
      var delta := deltaOffset.Load();
      browserSeq := if wireSeq >= delta then Some(wireSeq - delta) else None;
    }
  }

  // ------------------------------------------------------------------
  // What one whole call does
  // ------------------------------------------------------------------

  function Transform(r: Registers, number: u32): (Registers, u32) {
    var wire := Wrap(number + r.delta);
    (Registers(r.delta, Max(r.wire, wire), Max(r.browser, number)), wire)
  }

  function Allocate(r: Registers): (Registers, u32) {
    var wire := Wrap(r.browser + r.delta + 1);
    (Registers(Wrap(r.delta + 1), Max(r.wire, wire), r.browser), wire)
  }

  function Translate(r: Registers, wire: u32): Option<u32> {
    if wire >= r.delta then Some(wire - r.delta) else None
  }

  // ------------------------------------------------------------------
  // The concurrent machine
  // ------------------------------------------------------------------

  /** Where a call stands, with the values it holds in its local variables. */
  datatype Phase =
    | BrowserRaised(number: u32)  // transform: highest browser number raised, delta not read yet
    | DeltaTaken(prev: u32)    // allocation: delta incremented, browser number not read yet
    | WireComputed(wire: u32)  // either call: about to raise the highest wire number
    | Returned(wire: u32)

  datatype System = System(regs: Registers, calls: map<nat, Phase>)

  const START := System(FRESH, map[])

  /** Where a run may begin: balanced registers, such as the fresh ones, and no calls yet. */
  predicate Initial(s: System) {
    s.calls == map[] && Balanced(s.regs)
  }

  /** One atomic access of the call named `id`. */
  datatype Event =
    | StartTransform(id: nat, number: u32)
    | StartAllocate(id: nat)
    | LoadAndCompute(id: nat)
    | StoreWire(id: nat)

  /** An event that the state of its call does not allow changes nothing. */
  function Step(s: System, e: Event): System {
    match e
    case StartTransform(id, number) =>
      if id in s.calls then s
      else System(s.regs.(browser := Max(s.regs.browser, number)), s.calls[id := BrowserRaised(number)])
    case StartAllocate(id) =>
      if id in s.calls then s
      else System(s.regs.(delta := Wrap(s.regs.delta + 1)), s.calls[id := DeltaTaken(s.regs.delta)])
    case LoadAndCompute(id) =>
      if id !in s.calls then s
      else (
        match s.calls[id]
        case BrowserRaised(number) => s.(calls := s.calls[id := WireComputed(Wrap(number + s.regs.delta))])
        case DeltaTaken(prev) => s.(calls := s.calls[id := WireComputed(Wrap(s.regs.browser + prev + 1))])
        case _ => s)
    case StoreWire(id) =>
      if id !in s.calls || !s.calls[id].WireComputed? then s
      else
        var wire := s.calls[id].wire;
        System(s.regs.(wire := Max(s.regs.wire, wire)), s.calls[id := Returned(wire)])
  }

  function Exec(s: System, es: seq<Event>): System
    decreases es
  {
    if es == [] then s else Exec(Step(s, es[0]), es[1..])
  }

  /** The next access keeps `highest_browser + delta` below 2^32. */
  predicate Room(s: System, e: Event) {
    match e
    case StartTransform(id, number) => Max(s.regs.browser, number) + s.regs.delta < U32_SIZE
    case StartAllocate(id) => s.regs.browser + s.regs.delta + 1 < U32_SIZE
    case _ => true
  }

  predicate RoomThroughout(s: System, es: seq<Event>)
    decreases es
  {
    es == [] || (Room(s, es[0]) && RoomThroughout(Step(s, es[0]), es[1..]))
  }

  predicate Quiescent(s: System) {
    forall id <- s.calls :: s.calls[id].Returned?
  }

  /** What a call may still do to the wire register never exceeds browser + delta. */
  predicate Bounded(r: Registers, p: Phase) {
    match p
    case BrowserRaised(number) => number <= r.browser
    case DeltaTaken(prev) => prev < r.delta
    case WireComputed(wire) => wire <= r.browser + r.delta
    case Returned(wire) => wire <= r.wire
  }

  /** The call will store `browser + delta` itself, unless another call first takes over that duty. */
  predicate Owes(r: Registers, p: Phase) {
    match p
    case BrowserRaised(number) => number == r.browser
    case DeltaTaken(prev) => prev + 1 == r.delta
    case WireComputed(wire) => wire == r.browser + r.delta
    case Returned(wire) => false
  }

  ghost predicate Inv(s: System) {
    && s.regs.browser + s.regs.delta < U32_SIZE
    && s.regs.wire <= s.regs.browser + s.regs.delta
    && (forall id <- s.calls :: Bounded(s.regs, s.calls[id]))
    && (Balanced(s.regs) || exists id <- s.calls :: Owes(s.regs, s.calls[id]))
  }

  lemma StepKeepsInv(s: System, e: Event)
    requires Inv(s) && Room(s, e)
    ensures Inv(Step(s, e))
  {
    var t := Step(s, e);
    if t != s {
      assert forall id <- s.calls :: id != e.id ==> t.calls[id] == s.calls[id];
      if e.StartTransform? && e.number >= s.regs.browser {
        assert Owes(t.regs, t.calls[e.id]);
      } else if e.StartAllocate? {
        assert Owes(t.regs, t.calls[e.id]);
      } else if !Balanced(s.regs) {
        var id :| id in s.calls && Owes(s.regs, s.calls[id]);
        assert id == e.id || Owes(t.regs, t.calls[id]);
        assert Balanced(t.regs) || Owes(t.regs, t.calls[id]);
      }
    }
  }

  lemma {:induction false} ExecKeepsInv(s: System, es: seq<Event>)
    requires Inv(s) && RoomThroughout(s, es)
    ensures Inv(Exec(s, es))
    decreases es
  {
    if es != [] {
      StepKeepsInv(s, es[0]);
      ExecKeepsInv(Step(s, es[0]), es[1..]);
    }
  }

  lemma {:induction false} ExecConcat(s: System, es: seq<Event>, fs: seq<Event>)
    ensures Exec(s, es + fs) == Exec(Exec(s, es), fs)
    ensures RoomThroughout(s, es + fs) <==> RoomThroughout(s, es) && RoomThroughout(Exec(s, es), fs)
    decreases es
  {
    if es == [] {
      assert es + fs == fs;
    } else {
      assert (es + fs)[1..] == es[1..] + fs;
      ExecConcat(Step(s, es[0]), es[1..], fs);
    }
  }

  lemma InvAtRest(s: System)
    requires Inv(s)
    ensures s.regs.wire <= s.regs.browser + s.regs.delta
    ensures Quiescent(s) ==> Balanced(s.regs)
  {
  }

  /** From the fresh registers, or any balanced ones: in every reachable state the wire register is
      at most `browser + delta`, and the two are equal as soon as no call is in flight. */
  lemma QuiescenceRestoresBalance(s: System, es: seq<Event>)
    requires Initial(s) && RoomThroughout(s, es)
    ensures var t := Exec(s, es);
            && t.regs.wire <= t.regs.browser + t.regs.delta
            && (Quiescent(t) ==> Balanced(t.regs))
  {
    ExecKeepsInv(s, es);
    InvAtRest(Exec(s, es));
  }

  /** Three accesses of one call, with nothing in between, are the whole call. */
  lemma UninterruptedCall(s: System, id: nat, number: u32)
    requires id !in s.calls
    ensures var t := Exec(s, [StartTransform(id, number), LoadAndCompute(id), StoreWire(id)]);
            t.regs == Transform(s.regs, number).0 && t.calls == s.calls[id := Returned(Transform(s.regs, number).1)]
    ensures var t := Exec(s, [StartAllocate(id), LoadAndCompute(id), StoreWire(id)]);
            t.regs == Allocate(s.regs).0 && t.calls == s.calls[id := Returned(Allocate(s.regs).1)]
  {
    ExecThree(s, StartTransform(id, number), LoadAndCompute(id), StoreWire(id));
    ExecThree(s, StartAllocate(id), LoadAndCompute(id), StoreWire(id));
  }

  lemma ExecCons(s: System, e: Event, es: seq<Event>)
    ensures Exec(s, [e] + es) == Exec(Step(s, e), es)
    ensures RoomThroughout(s, [e] + es) <==> Room(s, e) && RoomThroughout(Step(s, e), es)
  {
    assert ([e] + es)[1..] == es;
  }

  lemma ExecThree(s: System, a: Event, b: Event, c: Event)
    ensures Exec(s, [a, b, c]) == Step(Step(Step(s, a), b), c)
    ensures Room(s, a) && Room(Step(s, a), b) && Room(Step(Step(s, a), b), c) ==> RoomThroughout(s, [a, b, c])
  {
    ExecCons(Step(Step(s, a), b), c, []);
    ExecCons(Step(s, a), b, [c]);
    ExecCons(s, a, [b, c]);
    assert [a] + [b, c] == [a, b, c] && [b] + [c] == [b, c] && [c] + [] == [c];
  }

  /** Wire numbers are not unique when a transform overlaps an allocation: the
      browser number is raised, an allocation runs, and only then delta is read. */
  lemma OverlapDuplicatesWireNumber()
    ensures var es := [StartTransform(0, 10), StartAllocate(1), LoadAndCompute(1), StoreWire(1), LoadAndCompute(0), StoreWire(0)];
            && RoomThroughout(START, es)
            && Exec(START, es).calls == map[0 := Returned(11), 1 := Returned(11)]
  {
    var first := [StartTransform(0, 10), StartAllocate(1), LoadAndCompute(1)];
    var second := [StoreWire(1), LoadAndCompute(0), StoreWire(0)];
    var mid := Exec(START, first);
    ExecThree(START, first[0], first[1], first[2]);
    ExecThree(mid, second[0], second[1], second[2]);
    ExecConcat(START, first, second);
    assert first + second == [StartTransform(0, 10), StartAllocate(1), LoadAndCompute(1), StoreWire(1), LoadAndCompute(0), StoreWire(0)];
  }

  /** The same through the other overlap: an allocation takes its delta, a transform raises the
      browser number and reads the new delta, and only then the allocation reads the browser number. */
  lemma OtherOverlapDuplicatesWireNumber()
    ensures var es := [StartAllocate(0), StartTransform(1, 10), LoadAndCompute(1), StoreWire(1), LoadAndCompute(0), StoreWire(0)];
            && RoomThroughout(START, es)
            && Exec(START, es).calls == map[0 := Returned(11), 1 := Returned(11)]
  {
    var first := [StartAllocate(0), StartTransform(1, 10), LoadAndCompute(1)];
    var second := [StoreWire(1), LoadAndCompute(0), StoreWire(0)];
    var mid := Exec(START, first);
    ExecThree(START, first[0], first[1], first[2]);
    ExecThree(mid, second[0], second[1], second[2]);
    ExecConcat(START, first, second);
    assert first + second == [StartAllocate(0), StartTransform(1, 10), LoadAndCompute(1), StoreWire(1), LoadAndCompute(0), StoreWire(0)];
  }

  // ------------------------------------------------------------------
  // Overlaps that keep wire numbers unique
  // ------------------------------------------------------------------

  /** A transform starts with a new highest browser number and while no allocation still has to read
      the browser number; an allocation starts while no transform still has to read delta. Other
      overlaps, of calls of one kind and of calls that only have to store, are free. */
  predicate Exclusive(s: System, e: Event) {
    match e
    case StartTransform(id, number) =>
      id !in s.calls ==> s.regs.browser < number && forall c <- s.calls :: !s.calls[c].DeltaTaken?
    case StartAllocate(id) =>
      id !in s.calls ==> forall c <- s.calls :: !s.calls[c].BrowserRaised?
    case _ => true
  }

  predicate ExclusiveThroughout(s: System, es: seq<Event>)
    decreases es
  {
    es == [] || (Exclusive(s, es[0]) && ExclusiveThroughout(Step(s, es[0]), es[1..]))
  }

  /** The wire number that a call has computed, or would compute now. */
  function Promised(r: Registers, p: Phase): int {
    match p
    case BrowserRaised(number) => number + r.delta
    case DeltaTaken(prev) => r.browser + prev + 1
    case WireComputed(wire) => wire
    case Returned(wire) => wire
  }

  ghost predicate DistinctPromises(s: System) {
    forall a <- s.calls, b <- s.calls :: a != b ==> Promised(s.regs, s.calls[a]) != Promised(s.regs, s.calls[b])
  }

  predicate PromisesBelow(s: System) {
    && s.regs.browser + s.regs.delta < U32_SIZE
    && forall c <- s.calls :: 0 <= Promised(s.regs, s.calls[c]) <= s.regs.browser + s.regs.delta
  }

  /** Under the discipline, no step changes what another call will compute, and a new call computes more. */
  lemma StepKeepsPromises(s: System, e: Event, c: nat)
    requires PromisesBelow(s) && Room(s, e) && Exclusive(s, e) && c in Step(s, e).calls
    ensures var t := Step(s, e);
            if c in s.calls then Promised(t.regs, t.calls[c]) == Promised(s.regs, s.calls[c])
            else c == e.id && Promised(t.regs, t.calls[c]) == t.regs.browser + t.regs.delta > s.regs.browser + s.regs.delta
  {
  }

  lemma StepKeepsDistinct(s: System, e: Event)
    requires PromisesBelow(s) && DistinctPromises(s) && Room(s, e) && Exclusive(s, e)
    ensures PromisesBelow(Step(s, e)) && DistinctPromises(Step(s, e))
  {
    var t := Step(s, e);
    forall c | c in t.calls ensures 0 <= Promised(t.regs, t.calls[c]) <= t.regs.browser + t.regs.delta {
      StepKeepsPromises(s, e, c);
    }
    forall a, b | a in t.calls && b in t.calls && a != b
      ensures Promised(t.regs, t.calls[a]) != Promised(t.regs, t.calls[b])
    {
      StepKeepsPromises(s, e, a);
      StepKeepsPromises(s, e, b);
    }
  }

  lemma {:induction false} ExecKeepsDistinct(s: System, es: seq<Event>)
    requires PromisesBelow(s) && DistinctPromises(s) && RoomThroughout(s, es) && ExclusiveThroughout(s, es)
    ensures PromisesBelow(Exec(s, es)) && DistinctPromises(Exec(s, es))
    decreases es
  {
    if es != [] {
      StepKeepsDistinct(s, es[0]);
      ExecKeepsDistinct(Step(s, es[0]), es[1..]);
    }
  }

  predicate HasWire(p: Phase) {
    p.WireComputed? || p.Returned?
  }

  /** In every interleaving in which no transform that still has to read delta overlaps an
      allocation that still has to read the browser number, wire numbers are pairwise distinct. */
  lemma DisciplinedWiresAreDistinct(s: System, es: seq<Event>)
    requires Initial(s) && RoomThroughout(s, es) && ExclusiveThroughout(s, es)
    ensures var t := Exec(s, es);
            forall a <- t.calls, b <- t.calls :: a != b && HasWire(t.calls[a]) && HasWire(t.calls[b]) ==>
              t.calls[a].wire != t.calls[b].wire
  {
    ExecKeepsDistinct(s, es);
    var t := Exec(s, es);
    forall a, b | a in t.calls && b in t.calls && a != b && HasWire(t.calls[a]) && HasWire(t.calls[b])
      ensures t.calls[a].wire != t.calls[b].wire
    {
      assert Promised(t.regs, t.calls[a]) != Promised(t.regs, t.calls[b]);
    }
  }

  // ------------------------------------------------------------------
  // Exactly when wire numbers are distinct
  // ------------------------------------------------------------------

  ghost predicate DistinctWires(s: System) {
    forall a <- s.calls, b <- s.calls :: a != b && HasWire(s.calls[a]) && HasWire(s.calls[b]) ==>
      s.calls[a].wire != s.calls[b].wire
  }

  predicate NoStarts(es: seq<Event>) {
    forall i :: 0 <= i < |es| ==> !es[i].StartTransform? && !es[i].StartAllocate?
  }

  /** No access but a first one changes what any call will compute. */
  lemma FinishKeepsPromises(s: System, e: Event)
    requires Inv(s) && !e.StartTransform? && !e.StartAllocate?
    ensures Inv(Step(s, e)) && Step(s, e).calls.Keys == s.calls.Keys
    ensures forall c <- s.calls :: Promised(Step(s, e).regs, Step(s, e).calls[c]) == Promised(s.regs, s.calls[c])
  {
    StepKeepsInv(s, e);
  }

  lemma {:induction false} FinishingKeepsPromises(s: System, es: seq<Event>)
    requires Inv(s) && NoStarts(es)
    ensures Exec(s, es).calls.Keys == s.calls.Keys
    ensures forall c <- s.calls :: Promised(Exec(s, es).regs, Exec(s, es).calls[c]) == Promised(s.regs, s.calls[c])
    decreases es
  {
    if es != [] {
      FinishKeepsPromises(s, es[0]);
      FinishingKeepsPromises(Step(s, es[0]), es[1..]);
    }
  }

  lemma PromisesAreWires(s: System)
    requires Quiescent(s)
    ensures DistinctPromises(s) <==> DistinctWires(s)
  {
    forall a, b | a in s.calls && b in s.calls
      ensures HasWire(s.calls[a]) && Promised(s.regs, s.calls[a]) == s.calls[a].wire
    {
    }
  }

  /** Once the last call has started, its wire numbers and all others are settled: when all calls
      have returned, they are pairwise distinct exactly if the promises were then. */
  lemma WiresAreDistinctIff(s: System, es: seq<Event>, finish: seq<Event>)
    requires Initial(s) && RoomThroughout(s, es) && NoStarts(finish)
    requires Quiescent(Exec(s, es + finish))
    ensures DistinctWires(Exec(s, es + finish)) <==> DistinctPromises(Exec(s, es))
  {
    var last, end := Exec(s, es), Exec(s, es + finish);
    ExecConcat(s, es, finish);
    ExecKeepsInv(s, es);
    FinishingKeepsPromises(last, finish);
    PromisesAreWires(end);
    SamePromises(last, end);
  }

  lemma SamePromises(s: System, t: System)
    requires t.calls.Keys == s.calls.Keys
    requires forall c <- s.calls :: Promised(t.regs, t.calls[c]) == Promised(s.regs, s.calls[c])
    ensures DistinctPromises(s) <==> DistinctPromises(t)
  {
  }

  /** How far a first access moves the promise of a call that has not read yet what it changes. */
  function Shift(s: System, e: Event, p: Phase): nat {
    match e
    case StartTransform(_, number) => if p.DeltaTaken? && number > s.regs.browser then number - s.regs.browser else 0
    case StartAllocate(_) => if p.BrowserRaised? then 1 else 0
    case _ => 0
  }

  /** What a new call will compute. */
  function NewPromise(s: System, e: Event): int
    requires e.StartTransform? || e.StartAllocate?
  {
    if e.StartTransform? then e.number + s.regs.delta else s.regs.browser + s.regs.delta + 1
  }

  /** After its shift, the promise of call `c` is none of the others' and not that of the new call. */
  ghost predicate StaysApart(s: System, e: Event, c: nat)
    requires c in s.calls && (e.StartTransform? || e.StartAllocate?)
  {
    var promise := Promised(s.regs, s.calls[c]) + Shift(s, e, s.calls[c]);
    && promise != NewPromise(s, e)
    && forall d <- s.calls :: d != c && Shift(s, e, s.calls[d]) == 0 ==> promise != Promised(s.regs, s.calls[d])
  }

  /** A start keeps the promises of any number of calls distinct exactly if every call stays apart:
      this can be read off the calls in flight before the start. */
  lemma StartKeepsDistinctIff(s: System, e: Event)
    requires DistinctPromises(s) && (e.StartTransform? || e.StartAllocate?) && e.id !in s.calls
    requires e.StartAllocate? ==> s.regs.delta < U32_MAX
    ensures DistinctPromises(Step(s, e)) <==> forall c <- s.calls :: StaysApart(s, e, c)
  {
    var t := Step(s, e);
    NewCallPromises(s, e);
    if DistinctPromises(t) {
      forall c | c in s.calls ensures StaysApart(s, e, c) {
        DistinctIsApart(s, e, c);
      }
    }
    if forall c <- s.calls :: StaysApart(s, e, c) {
      forall a, b | a in t.calls && b in t.calls && a != b
        ensures Promised(t.regs, t.calls[a]) != Promised(t.regs, t.calls[b])
      {
        ApartIsDistinct(s, e, a, b);
      }
    }
  }

  lemma DistinctIsApart(s: System, e: Event, c: nat)
    requires DistinctPromises(Step(s, e)) && (e.StartTransform? || e.StartAllocate?) && e.id !in s.calls
    requires (e.StartAllocate? ==> s.regs.delta < U32_MAX) && c in s.calls
    ensures StaysApart(s, e, c)
  {
    NewCallPromises(s, e);
    OldCallShifts(s, e, c);
    forall d | d in s.calls && d != c && Shift(s, e, s.calls[d]) == 0
      ensures Promised(s.regs, s.calls[c]) + Shift(s, e, s.calls[c]) != Promised(s.regs, s.calls[d])
    {
      OldCallShifts(s, e, d);
    }
  }

  lemma ApartIsDistinct(s: System, e: Event, a: nat, b: nat)
    requires DistinctPromises(s) && (e.StartTransform? || e.StartAllocate?) && e.id !in s.calls
    requires (e.StartAllocate? ==> s.regs.delta < U32_MAX) && forall c <- s.calls :: StaysApart(s, e, c)
    requires a in Step(s, e).calls && b in Step(s, e).calls && a != b
    ensures var t := Step(s, e);
            Promised(t.regs, t.calls[a]) != Promised(t.regs, t.calls[b])
  {
    NewCallPromises(s, e);
    if a in s.calls {
      assert StaysApart(s, e, a);
      OldCallShifts(s, e, a);
    }
    if b in s.calls {
      assert StaysApart(s, e, b);
      OldCallShifts(s, e, b);
    }
  }

  lemma NewCallPromises(s: System, e: Event)
    requires (e.StartTransform? || e.StartAllocate?) && e.id !in s.calls
    ensures var t := Step(s, e);
            e.id in t.calls && t.calls.Keys == s.calls.Keys + {e.id} && Promised(t.regs, t.calls[e.id]) == NewPromise(s, e)
  {
  }

  lemma OldCallShifts(s: System, e: Event, c: nat)
    requires (e.StartTransform? || e.StartAllocate?) && e.id !in s.calls && c in s.calls
    requires e.StartAllocate? ==> s.regs.delta < U32_MAX
    ensures var t := Step(s, e);
            Promised(t.regs, t.calls[c]) == Promised(s.regs, s.calls[c]) + Shift(s, e, s.calls[c])
  {
  }

  /** Beside one other call, with the newest browser number or delta, a start with a new highest
      browser number, or of an allocation, keeps them distinct exactly under the discipline. */
  lemma PairIsDistinctIffExclusive(s: System, e: Event, c: nat)
    requires Inv(s) && s.calls.Keys == {c} && Owes(s.regs, s.calls[c])
    requires (e.StartTransform? || e.StartAllocate?) && e.id != c && (e.StartTransform? ==> s.regs.browser < e.number)
    requires e.StartAllocate? ==> s.regs.delta < U32_MAX
    ensures DistinctPromises(Step(s, e)) <==> Exclusive(s, e)
  {
    StartKeepsDistinctIff(s, e);
    assert s.calls[c].DeltaTaken? || s.calls[c].BrowserRaised? || s.calls[c].WireComputed?;
    assert (forall d <- s.calls :: StaysApart(s, e, d)) <==> StaysApart(s, e, c);
  }

  // ------------------------------------------------------------------
  // Call-level runs
  // ------------------------------------------------------------------

  datatype Op = FromBrowser(number: u32) | Inject

  function Call(r: Registers, op: Op): (Registers, u32) {
    match op
    case FromBrowser(number) => Transform(r, number)
    case Inject => Allocate(r)
  }

  function After(r: Registers, ops: seq<Op>): Registers
    decreases ops
  {
    if ops == [] then r else After(Call(r, ops[0]).0, ops[1..])
  }

  /** The wire numbers that a run of calls hands out, in order. */
  function Wires(r: Registers, ops: seq<Op>): seq<u32>
    decreases ops
  {
    if ops == [] then [] else [Call(r, ops[0]).1] + Wires(Call(r, ops[0]).0, ops[1..])
  }

  /** The call keeps `highest_browser + delta` below 2^32. */
  predicate CallHasRoom(r: Registers, op: Op) {
    match op
    case FromBrowser(number) => Max(r.browser, number) + r.delta < U32_SIZE
    case Inject => r.browser + r.delta + 1 < U32_SIZE
  }

  predicate CallsHaveRoom(r: Registers, ops: seq<Op>)
    decreases ops
  {
    ops == [] || (CallHasRoom(r, ops[0]) && CallsHaveRoom(Call(r, ops[0]).0, ops[1..]))
  }

  /** Each browser number is above all the browser numbers before it. */
  predicate Ascending(r: Registers, ops: seq<Op>)
    decreases ops
  {
    ops == [] || ((ops[0].FromBrowser? ==> r.browser < ops[0].number) && Ascending(Call(r, ops[0]).0, ops[1..]))
  }

  function Injections(ops: seq<Op>): nat {
    if ops == [] then 0 else (if ops[0].Inject? then 1 else 0) + Injections(ops[1..])
  }

  /** A whole call keeps the balance exactly when it has room: the one way to lose it is 32-bit overflow. */
  lemma BalanceSurvivesIffRoom(r: Registers, op: Op)
    requires Balanced(r)
    ensures Balanced(Call(r, op).0) <==> CallHasRoom(r, op)
  {
  }

  /** A call hands out a number above everything issued before, except when a
      browser number does not exceed the highest one seen. */
  lemma CallIsFreshIff(r: Registers, op: Op)
    requires Balanced(r) && CallHasRoom(r, op)
    ensures Call(r, op).1 > r.wire <==> (op.FromBrowser? ==> op.number > r.browser)
    ensures Call(r, op).1 > r.wire ==> Call(r, op).1 == Call(r, op).0.wire
  {
  }

  lemma {:induction false} WiresIncrease(r: Registers, ops: seq<Op>)
    requires Balanced(r) && CallsHaveRoom(r, ops) && Ascending(r, ops)
    ensures |Wires(r, ops)| == |ops|
    ensures forall i :: 0 <= i < |ops| ==> r.wire < Wires(r, ops)[i]
    ensures forall i, j :: 0 <= i < j < |ops| ==> Wires(r, ops)[i] < Wires(r, ops)[j]
    decreases ops
  {
    if ops != [] {
      CallIsFreshIff(r, ops[0]);
      BalanceSurvivesIffRoom(r, ops[0]);
      WiresIncrease(Call(r, ops[0]).0, ops[1..]);
    }
  }

  lemma {:induction false} DeltaCountsInjections(r: Registers, ops: seq<Op>)
    requires CallsHaveRoom(r, ops)
    ensures After(r, ops).delta == r.delta + Injections(ops)
    decreases ops
  {
    if ops != [] {
      DeltaCountsInjections(Call(r, ops[0]).0, ops[1..]);
    }
  }

  /** Translating a browser packet's wire number back after any further calls is
      off by exactly the injections made since, and fails once they outnumber
      the browser number. */
  lemma TranslateDrifts(r: Registers, number: u32, later: seq<Op>)
    requires CallHasRoom(r, FromBrowser(number))
    requires CallsHaveRoom(Transform(r, number).0, later)
    ensures var (sent, wire) := Transform(r, number);
            var k := Injections(later);
            Translate(After(sent, later), wire) == if k <= number then Some(number - k) else None
  {
    var (sent, wire) := Transform(r, number);
    assert wire == number + r.delta;
    DeltaCountsInjections(sent, later);
  }
}
