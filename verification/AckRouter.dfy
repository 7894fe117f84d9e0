/**
 The ACK router, and the router composed with the sequence NAT: every packet is
 registered under the wire number it was issued, and an ACK gives it back.
*/
module AckRouting {
  import opened Prelude
  import opened SeqNat

  datatype Origin = Browser | SubClient(clientId: string, idempotencyKey: string)

  datatype PendingRequest = PendingRequest(origin: Origin, createdAt: nat, originalBrowserSeq: Option<u32>)

  type Table = map<u32, PendingRequest>

  /** Age of a request; a clock that reads earlier than the creation gives age 0. */
  function Age(now: nat, createdAt: nat): nat {
    if now < createdAt then 0 else now - createdAt
  }

  class AckRouter {
    var pendingTable: Table

    constructor ()
      ensures pendingTable == map[]
    {
      pendingTable := map[];
    }

    method RegisterRequest(wireSeq: u32, origin: Origin, originalBrowserSeq: Option<u32>, now: nat)
      modifies this
      ensures pendingTable == old(pendingTable)[wireSeq := PendingRequest(origin, now, originalBrowserSeq)]
    {
      pendingTable := pendingTable[wireSeq := PendingRequest(origin, now, originalBrowserSeq)];
    }

    method ResolveAck(wireSeq: u32) returns (request: Option<PendingRequest>)
      modifies this
      ensures request == Resolve(old(pendingTable), wireSeq)
      ensures pendingTable == old(pendingTable) - {wireSeq}
    {
      if wireSeq in pendingTable {
        request := Some(pendingTable[wireSeq]);
        pendingTable := pendingTable - {wireSeq};
      } else {
        request := None;
      }
    }

    method CleanupStaleRequests(timeout: nat, now: nat)
      modifies this
      ensures forall w :: w in pendingTable <==>
                          w in old(pendingTable) && timeout > 0 && now < old(pendingTable)[w].createdAt + timeout
      ensures forall w <- pendingTable :: pendingTable[w] == old(pendingTable)[w]
    {
      pendingTable := Retain(pendingTable, now, timeout);
    }
  }

  function Resolve(table: Table, wire: u32): Option<PendingRequest> {
    if wire in table then Some(table[wire]) else None
  }

  function Retain(table: Table, now: nat, timeout: nat): Table {
    map w | w in table && Age(now, table[w].createdAt) < timeout :: table[w]
  }

  // ------------------------------------------------------------------
  // NAT and router together
  // ------------------------------------------------------------------

  datatype Proxy = Proxy(regs: Registers, table: Table)

  datatype Event =
    | SendBrowser(number: u32, now: nat)
    | SendInjected(clientId: string, idempotencyKey: string, now: nat)
    | Ack(wire: u32)
    | Cleanup(timeout: nat, now: nat)

  predicate IsSend(e: Event) {
    e.SendBrowser? || e.SendInjected?
  }

  /** The NAT call that a packet makes. */
  function OpOf(e: Event): Op
    requires IsSend(e)
  {
    if e.SendBrowser? then FromBrowser(e.number) else Inject
  }

  /** What the sender of a packet expects its ACK to carry. */
  function RequestOf(e: Event): PendingRequest
    requires IsSend(e)
  {
    match e
    case SendBrowser(number, now) => PendingRequest(Browser, now, Some(number))
    case SendInjected(id, key, now) => PendingRequest(SubClient(id, key), now, None)
  }

  function Advance(p: Proxy, e: Event): Proxy {
    match e
    case Ack(wire) => p.(table := p.table - {wire})
    case Cleanup(timeout, now) => p.(table := Retain(p.table, now, timeout))
    case _ =>
      var (regs, wire) := Call(p.regs, OpOf(e));
      Proxy(regs, p.table[wire := RequestOf(e)])
  }

  /** The proxy after the first `n` events. */
  function At(es: seq<Event>, n: nat): Proxy
    requires n <= |es|
  {
    if n == 0 then Proxy(FRESH, map[]) else Advance(At(es, n - 1), es[n - 1])
  }

  /** The wire number that the packet sent at event `i` is issued. */
  function WireOf(es: seq<Event>, i: nat): u32
    requires i < |es| && IsSend(es[i])
  {
    Call(At(es, i).regs, OpOf(es[i])).1
  }

  /** A send has room below 2^32, and its browser number is above all before it. */
  predicate OrderlyAt(es: seq<Event>, i: nat)
    requires i < |es|
  {
    IsSend(es[i]) ==>
      && CallHasRoom(At(es, i).regs, OpOf(es[i]))
      && (es[i].SendBrowser? ==> At(es, i).regs.browser < es[i].number)
  }

  ghost predicate Orderly(es: seq<Event>) {
    forall i {:trigger OrderlyAt(es, i)} :: 0 <= i < |es| ==> OrderlyAt(es, i)
  }

  lemma {:induction false} StaysBalanced(es: seq<Event>, n: nat)
    requires Orderly(es) && n <= |es|
    ensures Balanced(At(es, n).regs)
  {
    if n > 0 {
      StaysBalanced(es, n - 1);
      assert OrderlyAt(es, n - 1);
      if IsSend(es[n - 1]) {
        BalanceSurvivesIffRoom(At(es, n - 1).regs, OpOf(es[n - 1]));
      }
    }
  }

  /** A packet sent at `i` is below the wire mark from then on; one sent at or after `n` is above the mark at `n`. */
  lemma {:induction false} MarkSeparates(es: seq<Event>, i: nat, n: nat)
    requires Orderly(es) && i < |es| && IsSend(es[i]) && n <= |es|
    ensures i < n ==> WireOf(es, i) <= At(es, n).regs.wire
    ensures n <= i ==> At(es, n).regs.wire < WireOf(es, i)
    decreases if i < n then n - i else i - n
  {
    if i + 1 < n {
      MarkSeparates(es, i, n - 1);
    } else if n < i {
      MarkSeparates(es, i, n + 1);
    } else {
      StaysBalanced(es, i);
      assert OrderlyAt(es, i);
      CallIsFreshIff(At(es, i).regs, OpOf(es[i]));
    }
  }

  /** Both kinds of packet draw from one strictly increasing line of wire numbers. */
  lemma WireNumbersIncrease(es: seq<Event>, i: nat, j: nat)
    requires Orderly(es) && i < j < |es| && IsSend(es[i]) && IsSend(es[j])
    ensures WireOf(es, i) < WireOf(es, j)
  {
    MarkSeparates(es, i, j);
    MarkSeparates(es, j, j);
  }

  /** No ACK for the packet sent at `i` came before event `n`, and every cleanup came less than its timeout after it. */
  ghost predicate Awaiting(es: seq<Event>, i: nat, n: nat)
    requires i < n <= |es| && IsSend(es[i])
  {
    forall m :: i < m < n ==>
      && es[m] != Ack(WireOf(es, i))
      && (es[m].Cleanup? ==> es[m].timeout > 0 && es[m].now < es[i].now + es[m].timeout)
  }

  lemma AwaitingUnfolds(es: seq<Event>, i: nat, n: nat)
    requires i + 1 < n <= |es| && IsSend(es[i])
    ensures Awaiting(es, i, n) <==>
            && Awaiting(es, i, n - 1)
            && es[n - 1] != Ack(WireOf(es, i))
            && (es[n - 1].Cleanup? ==> es[n - 1].timeout > 0 && es[n - 1].now < es[i].now + es[n - 1].timeout)
  {
  }

  lemma {:induction false} TableHoldsExactlyAwaiting(es: seq<Event>, i: nat, n: nat)
    requires Orderly(es) && i < n <= |es| && IsSend(es[i])
    ensures Resolve(At(es, n).table, WireOf(es, i)) == if Awaiting(es, i, n) then Some(RequestOf(es[i])) else None
    decreases n
  {
    if i + 1 < n {
      TableHoldsExactlyAwaiting(es, i, n - 1);
      if IsSend(es[n - 1]) {
        WireNumbersIncrease(es, i, n - 1);
      }
      AwaitingUnfolds(es, i, n);
    }
  }

  /** An ACK for the packet sent at `i` resolves to that packet's own origin and
      browser number, unless an earlier ACK took it or a cleanup dropped it. */
  lemma AckReturnsItsOrigin(es: seq<Event>, i: nat, j: nat)
    requires Orderly(es) && i < j < |es| && IsSend(es[i]) && es[j] == Ack(WireOf(es, i))
    ensures var request := Resolve(At(es, j).table, es[j].wire);
            && (request.Some? <==> Awaiting(es, i, j))
            && (request.Some? ==> request.value.createdAt == es[i].now)
            && (request.Some? && es[i].SendBrowser? ==>
                  request.value.origin == Browser && request.value.originalBrowserSeq == Some(es[i].number))
            && (request.Some? && es[i].SendInjected? ==>
                  && request.value.origin == SubClient(es[i].clientId, es[i].idempotencyKey)
                  && request.value.originalBrowserSeq == None)
  {
    TableHoldsExactlyAwaiting(es, i, j);
  }

  /** The injected packets among the first `n` events. */
  function InjectedBefore(es: seq<Event>, n: nat): nat
    requires n <= |es|
  {
    if n == 0 then 0 else InjectedBefore(es, n - 1) + if es[n - 1].SendInjected? then 1 else 0
  }

  /** The greatest browser number among the first `n` events, or 0. */
  function BrowserBefore(es: seq<Event>, n: nat): nat
    requires n <= |es|
  {
    if n == 0 then 0
    else if es[n - 1].SendBrowser? then Max(es[n - 1].number, BrowserBefore(es, n - 1))
    else BrowserBefore(es, n - 1)
  }

  lemma {:induction false} RegistersCountPackets(es: seq<Event>, n: nat)
    requires Orderly(es) && n <= |es|
    ensures At(es, n).regs.delta == InjectedBefore(es, n) && At(es, n).regs.browser == BrowserBefore(es, n)
  {
    if n > 0 {
      RegistersCountPackets(es, n - 1);
      assert OrderlyAt(es, n - 1);
    }
  }

  /** The wire number of a packet: a browser packet keeps its own number, moved by the packets
      injected before it; an injected one follows the greatest browser number, moved likewise. */
  lemma WireNumberMeans(es: seq<Event>, i: nat)
    requires Orderly(es) && i < |es| && IsSend(es[i])
    ensures WireOf(es, i) == InjectedBefore(es, i) + if es[i].SendBrowser? then es[i].number else BrowserBefore(es, i) + 1
  {
    RegistersCountPackets(es, i);
    assert OrderlyAt(es, i);
  }

  /** An ACK that resolves answers a packet that was sent before it. */
  lemma {:induction false} OnlySentPacketsResolve(es: seq<Event>, n: nat, wire: u32)
    requires n <= |es| && Resolve(At(es, n).table, wire).Some?
    ensures exists i :: 0 <= i < n && IsSend(es[i]) && WireOf(es, i) == wire
  {
    if n > 0 {
      if IsSend(es[n - 1]) && WireOf(es, n - 1) == wire {
      } else {
        OnlySentPacketsResolve(es, n - 1, wire);
      }
    }
  }

  /** Each wire number is resolved at most once, whatever the order of ACKs and cleanups. */
  lemma ResolvedAtMostOnce(es: seq<Event>, j: nat, k: nat, wire: u32)
    requires Orderly(es) && j < k < |es| && es[j] == Ack(wire) == es[k]
    requires Resolve(At(es, j).table, wire).Some?
    ensures Resolve(At(es, k).table, wire) == None
  {
    OnlySentPacketsResolve(es, j, wire);
    var i :| 0 <= i < j && IsSend(es[i]) && WireOf(es, i) == wire;
    TableHoldsExactlyAwaiting(es, i, k);
    assert !Awaiting(es, i, k);
  }
}
