/**
 The request multiplexer of the CDP session: numbered requests on a WebSocket that may
 fail, close and be replaced at any moment. The state holds what the client keeps and
 what its environment keeps for it: the promises, the running timers and the sockets.
*/
module Cdp {
  import opened Prelude

  /** What settled a promise. */
  datatype Cause = Result | RemoteError | TimedOut | WriteFailed | ConnectionClosed | ClientDestroyed

  datatype Promise = Unsettled | Settled(cause: Cause)

  datatype Socket = Connecting | Open | Closing | Closed

  /** `Cancelled`: cleared by `destroy`, but still not null. */
  datatype ReconnectTimer = Null | Armed | Cancelled

  /** The requests: what the client keeps of them, their promises and their running timers. */
  datatype Requests = Requests(seqId: nat, pending: map<nat, string>, promises: map<nat, Promise>, timers: set<nat>)

  /** The connection: the client's flags, all sockets ever made, the `connect` calls that wait
      for the page URL and the `send` calls that wait for `connect`. */
  datatype Link = Link(
    isConnecting: bool,
    reconnectTimer: ReconnectTimer,
    isDestroyed: bool,
    ws: Option<nat>,
    sockets: seq<Socket>,
    fetching: nat,
    waiting: seq<string>)

  datatype Client = Client(requests: Requests, link: Link)

  const NO_REQUESTS := Requests(1, map[], map[], {})
  const START := Client(NO_REQUESTS, Link(false, Null, false, None, [], 0, []))

  // ------------------------------------------------------------------
  // The class
  // ------------------------------------------------------------------

  class CdpSessionClient {
    var seqId: nat
    var pendingRequests: map<nat, string>
    var isConnecting: bool
    var reconnectTimer: ReconnectTimer
    var isDestroyed: bool
    var ws: Option<nat>
    // The environment's side.
    var promises: map<nat, Promise>
    var timers: set<nat>
    var sockets: seq<Socket>
    var fetching: nat
    var waiting: seq<string>

    ghost function Kept(): Requests
      reads this
    {
      Requests(seqId, pendingRequests, promises, timers)
    }

    ghost function Connection(): Link
      reads this
    {
      Link(isConnecting, reconnectTimer, isDestroyed, ws, sockets, fetching, waiting)
    }

    ghost function Contents(): Client
      reads this
    {
      Client(Kept(), Connection())
    }

    constructor ()
      ensures Contents() == START
    {
      seqId, pendingRequests, isConnecting, reconnectTimer := 1, map[], false, Null;
      isDestroyed, ws, promises, timers := false, None, map[], {};
      sockets, fetching, waiting := [], 0, [];
    }

    /** `connect`, up to its wait for the page URL. */
    method Connect()
      modifies this`isConnecting, this`fetching
      ensures Connection() == Connected(old(Connection()))
    {
      if isDestroyed || (ws.Some? && ws.value < |sockets| && sockets[ws.value].Open?) {
        return;
      }
      if isConnecting {
        return;
      }
      isConnecting := true;
      fetching := fetching + 1;
    }

    /** The page URL arrives, or its fetch fails; `connect` goes on. */
    method OnFetched(ok: bool)
      requires fetching > 0
      modifies this`fetching, this`sockets, this`ws, this`isConnecting, this`reconnectTimer
      ensures Contents() == Step(old(Contents()), if ok then FetchSucceeds else FetchFails)
    {
      fetching := fetching - 1;
      if ok {
        ws := Some(|sockets|);
        sockets := sockets + [Connecting];
      } else {
        isConnecting := false;
        ScheduleReconnect();
      }
    }

    method OnOpen(socket: nat)
      requires socket < |sockets| && sockets[socket].Connecting?
      modifies this`sockets, this`isConnecting
      ensures Contents() == Step(old(Contents()), SocketOpens(socket))
    {
      sockets := sockets[socket := Open];
      isConnecting := false;
    }

    method OnError(socket: nat)
      modifies this`isConnecting
      ensures Contents() == Step(old(Contents()), SocketFails(socket))
    {
      isConnecting := false;
    }

    method OnReconnectTimer()
      requires reconnectTimer == Armed
      modifies this`reconnectTimer, this`isConnecting, this`fetching
      ensures Contents() == Step(old(Contents()), ReconnectFires)
    {
      reconnectTimer := Null;
      Connect();
    }

    /** `send`, up to its wait for `connect`, or to its promise. */
    method Send(name: string)
      modifies this
      ensures Contents() == Step(old(Contents()), Event.Send(name))
    {
      if ws.Some? && ws.value < |sockets| && sockets[ws.value].Open? {
        Issue(name);
      } else {
        Connect();
        waiting := waiting + [name];
      }
    }

    /** A waiting `send` goes on; if there is still no connection it throws, and no request exists. */
    method ResumeSend(i: nat)
      requires i < |waiting|
      modifies this
      ensures Contents() == Step(old(Contents()), SendResumes(i))
    {
      var name := waiting[i];
      waiting := waiting[..i] + waiting[i + 1..];
      if ws.Some? && ws.value < |sockets| && sockets[ws.value].Open? {
        Issue(name);
      }
    }

    method Issue(name: string)
      modifies this`seqId, this`promises, this`timers, this`pendingRequests
      ensures Kept() == Issued(old(Kept()), name)
    {
      var id := seqId;
      seqId := seqId + 1;
      promises := promises[id := Unsettled];
      timers := timers + {id};
      pendingRequests := pendingRequests[id := name];
    }

    /** Resolving or rejecting a promise; only the first time counts. */
    method Settle(id: nat, cause: Cause)
      modifies this`promises
      ensures promises == WithSettled(old(promises), id, cause)
    {
      if id in promises && promises[id].Unsettled? {
        promises := promises[id := Settled(cause)];
      }
    }

    method OnMessage(id: Option<nat>, isError: bool)
      modifies this`pendingRequests, this`timers, this`promises
      ensures Contents() == Step(old(Contents()), Message(id, isError))
    {
      if id.Some? && id.value in pendingRequests {
        pendingRequests := pendingRequests - {id.value};
        timers := timers - {id.value};
        Settle(id.value, if isError then RemoteError else Result);
      }
    }

    method OnTimeout(id: nat)
      requires id in timers
      modifies this`pendingRequests, this`timers, this`promises
      ensures Contents() == Step(old(Contents()), TimerFires(id))
    {
      timers := timers - {id};
      if id in pendingRequests {
        pendingRequests := pendingRequests - {id};
        Settle(id, TimedOut);
      }
    }

    /** The error callback of `ws.send`; it does not look whether the request is still pending. */
    method OnWriteError(id: nat)
      requires id in promises
      modifies this`pendingRequests, this`timers, this`promises
      ensures Contents() == Step(old(Contents()), WriteError(id))
    {
      timers := timers - {id};
      pendingRequests := pendingRequests - {id};
      Settle(id, WriteFailed);
    }

    method OnClose(socket: nat)
      requires socket < |sockets|
      modifies this
      ensures Contents() == Step(old(Contents()), SocketClosed(socket))
    {
      sockets := sockets[socket := Closed];
      isConnecting := false;
      ws := None;
      RejectAllPending(ConnectionClosed);
      ScheduleReconnect();
    }

    method ScheduleReconnect()
      modifies this`reconnectTimer
      ensures Connection() == ReconnectScheduled(old(Connection()))
    {
      if isDestroyed || reconnectTimer != Null {
        return;
      }
      reconnectTimer := Armed;
    }

    method RejectAllPending(cause: Cause)
      modifies this`pendingRequests, this`timers, this`promises
      ensures Kept() == AllRejected(old(Kept()), cause)
    {
      var ids := pendingRequests.Keys;
      while ids != {}
        invariant ids <= pendingRequests.Keys
        invariant pendingRequests == old(pendingRequests)
        invariant timers == old(timers) - (pendingRequests.Keys - ids)
        invariant promises == SettledAll(old(promises), pendingRequests.Keys - ids, cause)
        decreases ids
      {
        var id :| id in ids;
        SettleOneMore(old(promises), pendingRequests.Keys - ids, id, cause);
        assert pendingRequests.Keys - (ids - {id}) == (pendingRequests.Keys - ids) + {id};
        timers := timers - {id};
        Settle(id, cause);
        ids := ids - {id};
      }
      assert pendingRequests.Keys - {} == pendingRequests.Keys;
      pendingRequests := map[];
    }

    method Destroy()
      modifies this
      ensures Contents() == Step(old(Contents()), Event.Destroy)
    {
      isDestroyed := true;
      if reconnectTimer != Null {
        reconnectTimer := Cancelled;
      }
      RejectAllPending(ClientDestroyed);
      if ws.Some? {
        CloseSocket(ws.value);
        ws := None;
      }
    }

    method CloseSocket(socket: nat)
      modifies this`sockets
      ensures sockets == ClosingSocket(old(sockets), socket)
    {
      if socket < |sockets| && !sockets[socket].Closed? {
        sockets := sockets[socket := Closing];
      }
    }
  }

  // ------------------------------------------------------------------
  // The steps of the protocol
  // ------------------------------------------------------------------

  datatype Event =
    | Send(name: string)
    | SendResumes(call: nat)
    | CallConnect
    | FetchSucceeds
    | FetchFails
    | SocketOpens(socket: nat)
    | SocketCloses(socket: nat)   // the closing handshake starts
    | SocketClosed(socket: nat)   // the close event
    | SocketFails(socket: nat)    // the error event
    | Message(id: Option<nat>, isError: bool)
    | TimerFires(request: nat)
    | WriteError(request: nat)
    | ReconnectFires
    | Destroy

  predicate Usable(l: Link) {
    l.ws.Some? && l.ws.value < |l.sockets| && l.sockets[l.ws.value].Open?
  }

  function Connected(l: Link): Link {
    if l.isDestroyed || Usable(l) || l.isConnecting then l
    else l.(isConnecting := true, fetching := l.fetching + 1)
  }

  function ReconnectScheduled(l: Link): Link {
    if l.isDestroyed || l.reconnectTimer != Null then l else l.(reconnectTimer := Armed)
  }

  function ClosingSocket(sockets: seq<Socket>, s: nat): seq<Socket> {
    if s >= |sockets| || sockets[s].Closed? then sockets else sockets[s := Closing]
  }

  function Issued(r: Requests, name: string): Requests {
    Requests(r.seqId + 1, r.pending[r.seqId := name], r.promises[r.seqId := Unsettled], r.timers + {r.seqId})
  }

  /** A promise keeps its first settlement. */
  function WithSettled(promises: map<nat, Promise>, id: nat, cause: Cause): map<nat, Promise> {
    if id in promises && promises[id].Unsettled? then promises[id := Settled(cause)] else promises
  }

  function SettledAll(promises: map<nat, Promise>, ids: set<nat>, cause: Cause): map<nat, Promise> {
    map id | id in promises :: if id in ids && promises[id].Unsettled? then Settled(cause) else promises[id]
  }

  lemma SettleOneMore(promises: map<nat, Promise>, ids: set<nat>, id: nat, cause: Cause)
    ensures WithSettled(SettledAll(promises, ids, cause), id, cause) == SettledAll(promises, ids + {id}, cause)
  {
  }

  function Finished(r: Requests, id: nat, cause: Cause): Requests {
    Requests(r.seqId, r.pending - {id}, WithSettled(r.promises, id, cause), r.timers - {id})
  }

  function AllRejected(r: Requests, cause: Cause): Requests {
    Requests(r.seqId, map[], SettledAll(r.promises, r.pending.Keys, cause), r.timers - r.pending.Keys)
  }

  /** What an event does to the connection; no request is looked at. An event that the state does not allow does nothing. */
  function LinkStep(l: Link, e: Event): Link {
    match e
    case Send(name) => if Usable(l) then l else Connected(l).(waiting := l.waiting + [name])
    case SendResumes(i) =>
      if i >= |l.waiting| then l else l.(waiting := l.waiting[..i] + l.waiting[i + 1..])
    case CallConnect => Connected(l)
    case FetchSucceeds =>
      if l.fetching == 0 then l
      else l.(fetching := l.fetching - 1, sockets := l.sockets + [Connecting], ws := Some(|l.sockets|))
    case FetchFails =>
      if l.fetching == 0 then l
      else ReconnectScheduled(l.(fetching := l.fetching - 1, isConnecting := false))
    case SocketOpens(s) =>
      if s >= |l.sockets| || !l.sockets[s].Connecting? then l
      else l.(sockets := l.sockets[s := Open], isConnecting := false)
    case SocketCloses(s) => l.(sockets := ClosingSocket(l.sockets, s))
    case SocketClosed(s) =>
      if s >= |l.sockets| then l
      else ReconnectScheduled(l.(sockets := l.sockets[s := Closed], isConnecting := false, ws := None))
    case SocketFails(s) => l.(isConnecting := false)
    case ReconnectFires => if l.reconnectTimer != Armed then l else Connected(l.(reconnectTimer := Null))
    case Destroy =>
      l.(isDestroyed := true,
         reconnectTimer := if l.reconnectTimer == Null then Null else Cancelled,
         ws := None,
         sockets := if l.ws.Some? then ClosingSocket(l.sockets, l.ws.value) else l.sockets)
    case _ => l
  }

  /** What an event does to the requests, given the connection before it. */
  function RequestStep(r: Requests, l: Link, e: Event): Requests {
    match e
    case Send(name) => if Usable(l) then Issued(r, name) else r
    case SendResumes(i) => if i < |l.waiting| && Usable(l) then Issued(r, l.waiting[i]) else r
    case SocketClosed(s) => if s < |l.sockets| then AllRejected(r, ConnectionClosed) else r
    case Message(id, isError) =>
      if id.None? || id.value !in r.pending then r
      else Finished(r, id.value, if isError then RemoteError else Result)
    case TimerFires(id) =>
      if id !in r.timers then r
      else if id in r.pending then Finished(r, id, TimedOut)
      else r.(timers := r.timers - {id})
    case WriteError(id) => if id !in r.promises then r else Finished(r, id, WriteFailed)
    case Destroy => AllRejected(r, ClientDestroyed)
    case _ => r
  }

  function Step(c: Client, e: Event): Client {
    Client(RequestStep(c.requests, c.link, e), LinkStep(c.link, e))
  }

  /** The client after the first `n` events. */
  function At(es: seq<Event>, n: nat): Client
    requires n <= |es|
  {
    if n == 0 then START else Step(At(es, n - 1), es[n - 1])
  }

  // ------------------------------------------------------------------
  // Pending means unsettled
  // ------------------------------------------------------------------

  /** Exactly the ids below `seqId` have been issued; an issued id is pending, with
      its timer running, exactly as long as its promise is unsettled. */
  ghost predicate Inv(r: Requests) {
    && r.seqId >= 1
    && (forall id :: id in r.promises <==> 1 <= id < r.seqId)
    && (forall id :: id in r.pending <==> id in r.promises && r.promises[id].Unsettled?)
    && r.timers == r.pending.Keys
  }

  lemma IssueKeepsInv(r: Requests, name: string)
    requires Inv(r)
    ensures Inv(Issued(r, name))
  {
    assert Issued(r, name).timers == Issued(r, name).pending.Keys;
  }

  lemma FinishKeepsInv(r: Requests, id: nat, cause: Cause)
    requires Inv(r)
    ensures Inv(Finished(r, id, cause))
  {
    assert Finished(r, id, cause).timers == Finished(r, id, cause).pending.Keys;
  }

  lemma RejectKeepsInv(r: Requests, cause: Cause)
    requires Inv(r)
    ensures Inv(AllRejected(r, cause))
  {
    assert AllRejected(r, cause).timers == {};
  }

  lemma StepKeepsInv(r: Requests, l: Link, e: Event)
    requires Inv(r)
    ensures Inv(RequestStep(r, l, e))
  {
    match e
    case Send(name) => IssueKeepsInv(r, name);
    case SendResumes(i) =>
      if i < |l.waiting| {
        IssueKeepsInv(r, l.waiting[i]);
      }
    case SocketClosed(s) => RejectKeepsInv(r, ConnectionClosed);
    case Message(id, isError) =>
      if id.Some? {
        FinishKeepsInv(r, id.value, if isError then RemoteError else Result);
      }
    case TimerFires(id) => FinishKeepsInv(r, id, TimedOut);
    case WriteError(id) => FinishKeepsInv(r, id, WriteFailed);
    case Destroy => RejectKeepsInv(r, ClientDestroyed);
    case _ =>
  }

  /** The requests after the first `n` events. */
  function RequestsAt(es: seq<Event>, n: nat): Requests
    requires n <= |es|
  {
    At(es, n).requests
  }

  /** In every interleaving, an id below `seqId` is pending exactly when its promise is unsettled. */
  lemma {:induction false} PendingIffUnsettled(es: seq<Event>, n: nat)
    requires n <= |es|
    ensures Inv(RequestsAt(es, n))
  {
    if n > 0 {
      PendingIffUnsettled(es, n - 1);
      StepKeepsInv(RequestsAt(es, n - 1), At(es, n - 1).link, es[n - 1]);
    }
  }

  /** Every issued promise is settled. */
  ghost predicate AllSettled(r: Requests) {
    && r.pending == map[] && r.timers == {}
    && forall id :: 1 <= id < r.seqId ==> id in r.promises && r.promises[id].Settled?
  }

  /** After a close event or `destroy`, nothing is pending and every issued promise is settled. */
  lemma NothingPendingAfterTeardown(es: seq<Event>, n: nat)
    requires n < |es|
    requires es[n].Destroy? || (es[n].SocketClosed? && es[n].socket < |At(es, n).link.sockets|)
    ensures AllSettled(RequestsAt(es, n + 1))
  {
    PendingIffUnsettled(es, n);
    RejectKeepsInv(RequestsAt(es, n), if es[n].Destroy? then ClientDestroyed else ConnectionClosed);
  }

  // ------------------------------------------------------------------
  // Each request settles once, for a reason of its own
  // ------------------------------------------------------------------

  /** The events that may settle request `id`, and what they settle it with. */
  predicate Justifies(e: Event, id: nat, cause: Cause) {
    match cause
    case Result => e == Message(Some(id), false)
    case RemoteError => e == Message(Some(id), true)
    case TimedOut => e == TimerFires(id)
    case WriteFailed => e == WriteError(id)
    case ConnectionClosed => e.SocketClosed?
    case ClientDestroyed => e.Destroy?
  }

  /** How the promise of a request stands; `None` before it is issued. */
  function StatusOf(r: Requests, id: nat): Option<Promise> {
    if id in r.promises then Some(r.promises[id]) else None
  }

  /** How one event may change one request: from nothing to unsettled, under the number
      `seqId`; from unsettled to settled, by a justifying event; and no further. */
  predicate Progress(before: Option<Promise>, after: Option<Promise>, e: Event, id: nat, seqId: nat) {
    match before
    case None => after == None || (after == Some(Unsettled) && id == seqId)
    case Some(Unsettled) => after == before || (after.Some? && after.value.Settled? && Justifies(e, id, after.value.cause))
    case Some(Settled(_)) => after == before
  }

  lemma FinishMakesProgress(r: Requests, id: nat, cause: Cause, e: Event, other: nat)
    requires Justifies(e, id, cause)
    ensures Progress(StatusOf(r, other), StatusOf(Finished(r, id, cause), other), e, other, r.seqId)
  {
  }

  lemma StepMakesProgress(r: Requests, l: Link, e: Event, id: nat)
    requires Inv(r)
    ensures Progress(StatusOf(r, id), StatusOf(RequestStep(r, l, e), id), e, id, r.seqId)
  {
    match e
    case Message(i, isError) =>
      if i.Some? {
        FinishMakesProgress(r, i.value, if isError then RemoteError else Result, e, id);
      }
    case TimerFires(i) => FinishMakesProgress(r, i, TimedOut, e, id);
    case WriteError(i) => FinishMakesProgress(r, i, WriteFailed, e, id);
    case _ =>
  }

  function StatusAt(es: seq<Event>, n: nat, id: nat): Option<Promise>
    requires n <= |es|
  {
    StatusOf(RequestsAt(es, n), id)
  }

  lemma EventMakesProgress(es: seq<Event>, n: nat, id: nat)
    requires n < |es|
    ensures Progress(StatusAt(es, n, id), StatusAt(es, n + 1, id), es[n], id, RequestsAt(es, n).seqId)
  {
    PendingIffUnsettled(es, n);
    StepMakesProgress(RequestsAt(es, n), At(es, n).link, es[n], id);
  }

  predicate IsSettled(status: Option<Promise>) {
    status.Some? && status.value.Settled?
  }

  lemma EventKeepsSettlement(es: seq<Event>, n: nat, id: nat)
    requires n < |es| && IsSettled(StatusAt(es, n, id))
    ensures StatusAt(es, n + 1, id) == StatusAt(es, n, id)
  {
    EventMakesProgress(es, n, id);
  }

  lemma {:induction false} SettlementIsFinal(es: seq<Event>, id: nat, m: nat, n: nat)
    requires m <= n <= |es| && IsSettled(StatusAt(es, m, id))
    ensures StatusAt(es, n, id) == StatusAt(es, m, id)
    decreases n
  {
    if m < n {
      SettlementIsFinal(es, id, m, n - 1);
      EventKeepsSettlement(es, n - 1, id);
    }
  }

  /** In every interleaving, a settled request was settled by exactly one event: before it the
      promise was unsettled, the event is its own response, timer or write error or a teardown,
      and from then on the settlement never changes. */
  lemma {:induction false} SettlesExactlyOnce(es: seq<Event>, id: nat, n: nat) returns (j: nat)
    requires n <= |es| && IsSettled(StatusAt(es, n, id))
    ensures j < n && StatusAt(es, j, id) == Some(Unsettled)
    ensures Justifies(es[j], id, StatusAt(es, n, id).value.cause)
    ensures forall m :: 0 <= m <= j ==> !IsSettled(StatusAt(es, m, id))
    ensures forall m :: j < m <= n ==> StatusAt(es, m, id) == StatusAt(es, n, id)
    decreases n
  {
    EventMakesProgress(es, n - 1, id);
    if IsSettled(StatusAt(es, n - 1, id)) {
      j := SettlesExactlyOnce(es, id, n - 1);
    } else {
      j := n - 1;
      forall m | 0 <= m <= j ensures !IsSettled(StatusAt(es, m, id)) {
        if IsSettled(StatusAt(es, m, id)) {
          SettlementIsFinal(es, id, m, j);
        }
      }
    }
  }

  /** No id is ever issued twice: once issued, it stays below `seqId`, where every id is issued. */
  lemma {:induction false} IdsAreNeverReused(es: seq<Event>, id: nat, m: nat, n: nat)
    requires m <= n <= |es| && StatusAt(es, m, id).Some?
    ensures StatusAt(es, n, id).Some? && id < RequestsAt(es, n).seqId
    decreases n
  {
    PendingIffUnsettled(es, n);
    if m < n {
      IdsAreNeverReused(es, id, m, n - 1);
      EventMakesProgress(es, n - 1, id);
    }
  }

  /** A response to a pending request settles that request with that response, and no other. */
  lemma ResponseReachesItsRequest(es: seq<Event>, n: nat, id: nat, isError: bool, other: nat)
    requires n < |es| && es[n] == Message(Some(id), isError) && id in RequestsAt(es, n).pending
    ensures StatusAt(es, n + 1, id) == Some(Settled(if isError then RemoteError else Result))
    ensures other != id ==> StatusAt(es, n + 1, other) == StatusAt(es, n, other)
  {
    PendingIffUnsettled(es, n);
  }

  // ------------------------------------------------------------------
  // The connection
  // ------------------------------------------------------------------

  /** The current socket is not known to be closed. */
  predicate HasLiveSocket(l: Link) {
    l.ws.Some? && l.ws.value < |l.sockets| && !l.sockets[l.ws.value].Closed?
  }

  /** Nothing has been tried yet. */
  predicate Untried(l: Link) {
    l.ws == None && l.sockets == [] && l.fetching == 0 && l.reconnectTimer == Null && !l.isConnecting
  }

  predicate KeepsTrying(l: Link) {
    l.isDestroyed || (
      && l.reconnectTimer != Cancelled
      && (l.isConnecting ==> l.fetching > 0 || HasLiveSocket(l))
      && (Untried(l) || l.fetching > 0 || HasLiveSocket(l) || l.reconnectTimer == Armed))
  }

  lemma StepKeepsTrying(l: Link, e: Event)
    requires KeepsTrying(l)
    ensures KeepsTrying(LinkStep(l, e))
  {
  }

  /** The client is never stuck: in every interleaving, once it has tried to connect and until it is
      destroyed, it has a socket that has not closed, a fetch of the page URL under way, or the
      reconnect timer running. */
  lemma {:induction false} NeverStuck(es: seq<Event>, n: nat)
    requires n <= |es|
    ensures KeepsTrying(At(es, n).link)
  {
    if n > 0 {
      NeverStuck(es, n - 1);
      StepKeepsTrying(At(es, n - 1).link, es[n - 1]);
    }
  }

  /** The socket events that end the connecting state, whichever socket they are of. */
  function FlagCleared(es: seq<Event>, n: nat): nat
    requires n <= |es|
  {
    if n == 0 then 0
    else FlagCleared(es, n - 1) + if ClearsFlag(es[n - 1]) then 1 else 0
  }

  predicate ClearsFlag(e: Event) {
    e.SocketOpens? || e.SocketClosed? || e.SocketFails?
  }

  lemma StepBoundsFetches(l: Link, e: Event, k: nat)
    requires l.fetching <= k + if l.isConnecting then 1 else 0
    ensures var t := LinkStep(l, e);
            t.fetching <= (if ClearsFlag(e) then k + 1 else k) + if t.isConnecting then 1 else 0
  {
  }

  /** At most one fetch of the page URL is under way, and one more for each of these events. */
  lemma {:induction false} FetchesAreBounded(es: seq<Event>, n: nat)
    requires n <= |es|
    ensures var l := At(es, n).link;
            l.fetching <= FlagCleared(es, n) + if l.isConnecting then 1 else 0
  {
    if n > 0 {
      FetchesAreBounded(es, n - 1);
      StepBoundsFetches(At(es, n - 1).link, es[n - 1], FlagCleared(es, n - 1));
    }
  }

  /** Behind a failed fetch, or the opening, error or close of a socket, the next `connect` starts a
      fetch, unless the client is connected or destroyed. */
  lemma ConnectRetries(c: Client, e: Event)
    requires match e
             case FetchFails => c.link.fetching > 0
             case SocketOpens(s) => s < |c.link.sockets| && c.link.sockets[s].Connecting?
             case SocketClosed(s) => s < |c.link.sockets|
             case SocketFails(_) => true
             case _ => false
    ensures var d := Step(c, e);
            Step(d, CallConnect).link.fetching == d.link.fetching + if d.link.isDestroyed || Usable(d.link) then 0 else 1
  {
  }

  /** The close event of any socket, current or not, takes the client offline: no request is issued
      until a new socket is made. */
  lemma {:induction false} CloseDisconnects(c: Client, s: nat, es: seq<Event>, n: nat)
    requires s < |c.link.sockets| && n <= |es| && forall i :: 0 <= i < |es| ==> !es[i].FetchSucceeds?
    ensures var d := Step(c, SocketClosed(s));
            && RunFrom(d, es[..n]).link.ws == None
            && RunFrom(d, es[..n]).requests.seqId == d.requests.seqId
  {
    var d := Step(c, SocketClosed(s));
    if n > 0 {
      CloseDisconnects(c, s, es, n - 1);
      RunFromLast(d, es[..n]);
      assert es[..n][..n - 1] == es[..n - 1];
      StaysOffline(RunFrom(d, es[..n - 1]), es[n - 1]);
    }
  }

  lemma StaysOffline(c: Client, e: Event)
    requires c.link.ws == None && !e.FetchSucceeds?
    ensures Step(c, e).link.ws == None && Step(c, e).requests.seqId == c.requests.seqId
  {
  }

  lemma {:induction false} RunFromLast(c: Client, es: seq<Event>)
    requires es != []
    ensures RunFrom(c, es) == Step(RunFrom(c, es[..|es| - 1]), es[|es| - 1])
    decreases |es|
  {
    if |es| > 1 {
      RunFromLast(Step(c, es[0]), es[1..]);
      assert es[1..][..|es| - 2] == es[..|es| - 1][1..];
    }
  }

  // ------------------------------------------------------------------
  // After destroy
  // ------------------------------------------------------------------

  function RunFrom(c: Client, es: seq<Event>): Client
    decreases |es|
  {
    if es == [] then c else RunFrom(Step(c, es[0]), es[1..])
  }

  /** Destroyed, without a connection, and with nothing under way that could make one. */
  predicate Silenced(l: Link) {
    l.isDestroyed && l.ws == None && l.fetching == 0 && l.reconnectTimer != Armed
  }

  lemma StepStaysSilenced(c: Client, e: Event)
    requires Silenced(c.link)
    ensures Silenced(Step(c, e).link) && Step(c, e).requests.seqId == c.requests.seqId
  {
  }

  lemma {:induction false} RunStaysSilenced(c: Client, es: seq<Event>)
    requires Silenced(c.link)
    ensures Silenced(RunFrom(c, es).link) && RunFrom(c, es).requests.seqId == c.requests.seqId
    decreases |es|
  {
    if es != [] {
      StepStaysSilenced(c, es[0]);
      RunStaysSilenced(Step(c, es[0]), es[1..]);
    }
  }

  lemma RunThree(c: Client, x: Event, y: Event, z: Event)
    ensures RunFrom(c, [x, y, z]) == Step(Step(Step(c, x), y), z)
  {
    assert [x, y, z][1..] == [y, z] && [y, z][1..] == [z] && [z][1..] == [];
    assert RunFrom(Step(c, x), [y, z]) == RunFrom(Step(Step(c, x), y), [z]);
  }

  lemma LateFetchConnects(d: Client)
    requires d.link.fetching > 0
    ensures RunFrom(d, [FetchSucceeds, SocketOpens(|d.link.sockets|), Send("")]).requests.seqId > d.requests.seqId
  {
    var n := |d.link.sockets|;
    var fetched := Step(d, FetchSucceeds);
    assert fetched.link.ws == Some(n) && fetched.link.sockets[n] == Connecting;
    var usable := Step(fetched, SocketOpens(n));
    assert Usable(usable.link);
    RunThree(d, FetchSucceeds, SocketOpens(n), Send(""));
  }

  /** A destroyed client never issues a request again, whatever happens, unless a fetch of the page
      URL was under way: its socket is still made, and if it opens, requests go out. */
  lemma DestroyedClientSendsIff(c: Client)
    ensures var d := Step(c, Destroy);
            (exists es {:trigger RunFrom(d, es)} :: RunFrom(d, es).requests.seqId > d.requests.seqId)
            <==> c.link.fetching > 0
  {
    var d := Step(c, Destroy);
    if c.link.fetching > 0 {
      LateFetchConnects(d);
    } else {
      forall es ensures RunFrom(d, es).requests.seqId == d.requests.seqId {
        RunStaysSilenced(d, es);
      }
    }
  }
}
