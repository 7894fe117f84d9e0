/**
 The queue and the store as one interleaved machine. The worker's write is made of store
 calls: the missing stubs and `addMessage` when it starts, and, if the media must be
 downloaded, the second half of `addMessage` when it ends. Between any two steps of the
 queue, anyone else may call the store, also while a write waits for its download.
*/
module LiveGateway {
  import opened Prelude
  import opened Records
  import opened Storage
  import opened Arrival
  import opened Gateway
  import Q = QueueWriter

  /** `own` is the place, among the store's suspended additions, of the one the worker waits for. */
  datatype System = System(queue: Q.Engine<Task>, store: Store, own: Option<nat>)

  datatype Move = Queue(ev: Q.Event<Task>) | Live(call: Event)

  /** The task whose write is in flight. */
  function Current(q: Q.Engine<Task>): Option<Task> {
    if q.workers == [] || q.workers[0].Scheduled? then None else Some(q.workers[0].task)
  }

  predicate Ends(q: Q.Engine<Task>, ev: Q.Event<Task>) {
    ev.WriteEnds? && Q.Enabled(q, ev)
  }

  /** The task whose write an event starts. */
  function Begun(q: Q.Engine<Task>, ev: Q.Event<Task>): Option<Task> {
    if (ev.WriteEnds? || ev.RunScheduled?) && Q.Enabled(q, ev) then Current(Q.Step(q, ev)) else None
  }

  /** The store calls at the start of a write. */
  function BeginCalls(env: Env, s: Store, task: Task): seq<Event> {
    Stubs(env, s, task) + [AddMessage(Built(env, task), env.now)]
  }

  function Stubs(env: Env, s: Store, task: Task): seq<Event> {
    (if ConversationOf(task) in s.conversations then [] else [SaveConversations([StubConversation(env, task)])])
    + (if Built(env, task).senderId in s.contacts then [] else [SaveContacts([SyntheticContact(Built(env, task), env.now)])])
  }

  /** The store calls at the end of the write in flight. */
  function EndCalls(env: Env, y: System): seq<Event> {
    if y.own.None? || Current(y.queue).None? then []
    else [MediaArrives(y.own.value, DownloadOf(env, Built(env, Current(y.queue).value)), env.now)]
  }

  function DownloadOf(env: Env, m: Message): string {
    env.download(TextOr(m.fields, "mediaUrl", ""))
  }

  /** The end of the worker's download is not for others to decide. */
  predicate Allowed(y: System, e: Event) {
    !(e.MediaArrives? && y.own == Some(e.call))
  }

  function CallsAtEnd(env: Env, y: System, ev: Q.Event<Task>): seq<Event> {
    if Ends(y.queue, ev) then EndCalls(env, y) else []
  }

  /** The store calls that a move makes. */
  function Calls(env: Env, y: System, move: Move): seq<Event> {
    match move
    case Live(e) => if Allowed(y, e) then [e] else []
    case Queue(ev) =>
      var ends := CallsAtEnd(env, y, ev);
      ends + (if Begun(y.queue, ev).None? then [] else BeginCalls(env, Exec(y.store, ends), Begun(y.queue, ev).value))
  }

  function OwnAfter(env: Env, y: System, move: Move): Option<nat> {
    match move
    case Live(e) =>
      if e.MediaArrives? && y.own.Some? && e.call < y.own.value then Some(y.own.value - 1) else y.own
    case Queue(ev) =>
      if Begun(y.queue, ev).Some? then
        (if NeedsDownload(Built(env, Begun(y.queue, ev).value))
         then Some(|Exec(y.store, CallsAtEnd(env, y, ev)).downloading|) else None)
      else if Ends(y.queue, ev) then None
      else y.own
  }

  function Next(env: Env, y: System, move: Move): System {
    System(if move.Queue? then Q.Step(y.queue, move.ev) else y.queue,
           Exec(y.store, Calls(env, y, move)),
           OwnAfter(env, y, move))
  }

  function Run(env: Env, y: System, moves: seq<Move>): System
    decreases moves
  {
    if moves == [] then y else Run(env, Next(env, y, moves[0]), moves[1..])
  }

  lemma {:induction false} RunConcat(env: Env, y: System, a: seq<Move>, b: seq<Move>)
    ensures Run(env, y, a + b) == Run(env, Run(env, y, a), b)
    decreases a
  {
    if a == [] {
      assert a + b == b;
    } else {
      assert (a + b)[1..] == a[1..] + b;
      RunConcat(env, Next(env, y, a[0]), a[1..], b);
    }
  }

  // ------------------------------------------------------------------
  // The store's side of a run
  // ------------------------------------------------------------------

  /** All store calls of a run. */
  function History(env: Env, y: System, moves: seq<Move>): seq<Event>
    decreases moves
  {
    if moves == [] then [] else Calls(env, y, moves[0]) + History(env, Next(env, y, moves[0]), moves[1..])
  }

  function ArrivalsBy(env: Env, y: System, moves: seq<Move>, live: bool): seq<Message>
    decreases moves
  {
    if moves == [] then []
    else
      (if moves[0].Live? == live then Arrivals(y.store, Calls(env, y, moves[0])) else [])
      + ArrivalsBy(env, Next(env, y, moves[0]), moves[1..], live)
  }

  lemma {:induction false} ExecConcat(s: Store, a: seq<Event>, b: seq<Event>)
    ensures Exec(s, a + b) == Exec(Exec(s, a), b)
    decreases a
  {
    if a == [] {
      assert a + b == b;
    } else {
      assert (a + b)[1..] == a[1..] + b;
      ExecConcat(Step(s, a[0]), a[1..], b);
    }
  }

  lemma {:induction false} ArrivalsConcat(s: Store, a: seq<Event>, b: seq<Event>)
    ensures Arrivals(s, a + b) == Arrivals(s, a) + Arrivals(Exec(s, a), b)
  {
    if b == [] {
      assert a + b == a;
    } else {
      var init := b[..|b| - 1];
      assert (a + b)[..|a + b| - 1] == a + init;
      ArrivalsConcat(s, a, init);
      ExecConcat(s, a, init);
      Regroup(Arrivals(s, a), Arrivals(Exec(s, a), init), Arrives(Exec(Exec(s, a), init), b[|b| - 1]));
    }
  }

  lemma OneCall(s: Store, e: Event)
    ensures Exec(s, [e]) == Step(s, e) && Arrivals(s, [e]) == Arrives(s, e)
  {
    assert [e][..0] == [] && [e][1..] == [];
    assert Exec(s, [e]) == Exec(Step(s, e), []);
    assert Arrivals(s, [e]) == Arrivals(s, []) + Arrives(Exec(s, []), e);
  }

  lemma {:induction false} HistoryLeads(env: Env, y: System, moves: seq<Move>)
    ensures Run(env, y, moves).store == Exec(y.store, History(env, y, moves))
    decreases moves
  {
    if moves != [] {
      var t := Next(env, y, moves[0]);
      HistoryLeads(env, t, moves[1..]);
      ExecConcat(y.store, Calls(env, y, moves[0]), History(env, t, moves[1..]));
    }
  }

  /** The arrivals of a run are those of the worker and those of the others. */
  lemma {:induction false} HistoryArrivals(env: Env, y: System, moves: seq<Move>, m: Message)
    ensures m in Arrivals(y.store, History(env, y, moves)) <==>
            m in ArrivalsBy(env, y, moves, true) || m in ArrivalsBy(env, y, moves, false)
    decreases moves
  {
    if moves != [] {
      var t := Next(env, y, moves[0]);
      HistoryArrivals(env, t, moves[1..], m);
      ArrivalsConcat(y.store, Calls(env, y, moves[0]), History(env, t, moves[1..]));
    }
  }

  // ------------------------------------------------------------------
  // What the worker's calls bring
  // ------------------------------------------------------------------

  predicate SavesOnly(es: seq<Event>) {
    forall i :: 0 <= i < |es| ==> es[i].SaveConversations? || es[i].SaveContacts?
  }

  lemma {:induction false} SavesBringNothing(s: Store, es: seq<Event>)
    requires SavesOnly(es)
    ensures Arrivals(s, es) == [] && Exec(s, es).downloading == s.downloading
  {
    if es != [] {
      var init, last := es[..|es| - 1], es[|es| - 1];
      assert last == es[|es| - 1];
      SavesBringNothing(s, init);
      ExecLast(s, es);
      SaveBringsNothing(Exec(s, init), last);
    }
  }

  lemma SaveBringsNothing(s: Store, e: Event)
    requires e.SaveConversations? || e.SaveContacts?
    ensures Arrives(s, e) == [] && Step(s, e).downloading == s.downloading
  {
  }

  lemma AddBrings(s: Store, m: Message, now: int)
    requires WithSender(m) == m
    ensures Arrives(s, AddMessage(m, now)) == (if NeedsDownload(m) then [] else [m])
    ensures Step(s, AddMessage(m, now)).downloading == s.downloading + if NeedsDownload(m) then [m] else []
  {
  }

  lemma StubsAreSaves(env: Env, s: Store, task: Task)
    ensures SavesOnly(Stubs(env, s, task))
  {
  }

  /** A write that needs no download brings its record at once; another one starts to wait. */
  lemma BeginBrings(env: Env, s: Store, task: Task)
    ensures var m := Built(env, task);
            && Arrivals(s, BeginCalls(env, s, task)) == (if NeedsDownload(m) then [] else [Final(env, task)])
            && Exec(s, BeginCalls(env, s, task)).downloading == s.downloading + if NeedsDownload(m) then [m] else []
  {
    var m, stubs := Built(env, task), Stubs(env, s, task);
    var add := AddMessage(m, env.now);
    StubsAreSaves(env, s, task);
    SavesBringNothing(s, stubs);
    ArrivalsConcat(s, stubs, [add]);
    ExecConcat(s, stubs, [add]);
    OneCall(Exec(s, stubs), add);
    BuiltHasSender(env, task);
    AddBrings(Exec(s, stubs), m, env.now);
    NotDownloadedIsFinal(env, task);
  }

  lemma ExecAtMostOne(s: Store, es: seq<Event>)
    requires |es| <= 1
    ensures Exec(s, es) == if es == [] then s else Step(s, es[0])
  {
    if es != [] {
      assert Exec(s, es) == Exec(Step(s, es[0]), []);
    }
  }

  lemma ConversationStubMakes(env: Env, s: Store, task: Task)
    ensures Exec(s, if ConversationOf(task) in s.conversations then [] else [SaveConversations([StubConversation(env, task)])])
            == WithConversation(env, s, task)
  {
    ExecAtMostOne(s, if ConversationOf(task) in s.conversations then [] else [SaveConversations([StubConversation(env, task)])]);
    SaveOneConversation(s, StubConversation(env, task));
  }

  lemma ContactStubMakes(s: Store, m: Message, now: int)
    requires m.senderId != ""
    ensures Exec(s, if m.senderId in s.contacts then [] else [SaveContacts([SyntheticContact(m, now)])]) == WithContact(s, m, now)
  {
    ExecAtMostOne(s, if m.senderId in s.contacts then [] else [SaveContacts([SyntheticContact(m, now)])]);
    SaveOneContact(s, SyntheticContact(m, now));
  }

  lemma StubsMakeReady(env: Env, s: Store, task: Task)
    ensures Exec(s, Stubs(env, s, task)) == Ready(env, s, task)
  {
    var m, t := Built(env, task), WithConversation(env, s, task);
    ConversationStubMakes(env, s, task);
    ContactStubMakes(t, m, env.now);
    ExecConcat(s, if ConversationOf(task) in s.conversations then [] else [SaveConversations([StubConversation(env, task)])],
               if m.senderId in s.contacts then [] else [SaveContacts([SyntheticContact(m, env.now)])]);
  }

  lemma BeginMakes(env: Env, s: Store, task: Task)
    ensures Exec(s, BeginCalls(env, s, task)) == Step(Ready(env, s, task), AddMessage(Built(env, task), env.now))
  {
    var add := AddMessage(Built(env, task), env.now);
    StubsMakeReady(env, s, task);
    ExecConcat(s, Stubs(env, s, task), [add]);
    ExecAtMostOne(Ready(env, s, task), [add]);
  }

  lemma ReadyDownloadsNothing(env: Env, s: Store, task: Task)
    ensures Ready(env, s, task).downloading == s.downloading
  {
  }

  lemma AddedIsStored(env: Env, ready: Store, task: Task)
    ensures var m := Built(env, task);
            var t := Step(ready, AddMessage(m, env.now));
            Stored(ready, Final(env, task), env.now) ==
            if NeedsDownload(m) then Step(t, MediaArrives(|ready.downloading|, DownloadOf(env, m), env.now)) else t
  {
    BuiltHasSender(env, task);
    AddOneMessage(ready, Built(env, task), DownloadOf(env, Built(env, task)), env.now);
  }

  /** With nothing in between, the store calls of a write make the whole write. */
  lemma UndisturbedWriteIsWhole(env: Env, s: Store, task: Task)
    ensures var begun, m := Exec(s, BeginCalls(env, s, task)), Built(env, task);
            Write(env, s, task) ==
            if NeedsDownload(m) then Step(begun, MediaArrives(|s.downloading|, DownloadOf(env, m), env.now)) else begun
  {
    BeginMakes(env, s, task);
    ReadyDownloadsNothing(env, s, task);
    AddedIsStored(env, Ready(env, s, task), task);
  }

  lemma BuiltHasSender(env: Env, task: Task)
    ensures WithSender(Built(env, task)) == Built(env, task)
  {
  }

  lemma NotDownloadedIsFinal(env: Env, task: Task)
    ensures !NeedsDownload(Built(env, task)) ==> Final(env, task) == Built(env, task)
  {
  }

  /** The worker's own addition is where `own` says, exactly while the write in flight waits for a download. */
  predicate Placed(env: Env, y: System) {
    match Current(y.queue)
    case None => y.own == None
    case Some(task) =>
      && (NeedsDownload(Built(env, task)) <==> y.own.Some?)
      && (y.own.Some? ==> y.own.value < |y.store.downloading| && y.store.downloading[y.own.value] == Built(env, task))
  }

  /** The record that the write in flight has brought already. */
  function Early(env: Env, y: System): seq<Message> {
    if Current(y.queue).Some? && y.own.None? then [Final(env, Current(y.queue).value)] else []
  }

  lemma EndBrings(env: Env, y: System)
    requires Placed(env, y) && Current(y.queue).Some?
    ensures Early(env, y) + Arrivals(y.store, EndCalls(env, y)) == [Final(env, Current(y.queue).value)]
  {
    var task := Current(y.queue).value;
    if y.own.Some? {
      OneCall(y.store, EndCalls(env, y)[0]);
      DownloadedIsFinal(env, y.store, y.own.value, task);
    }
  }

  lemma DownloadedIsFinal(env: Env, s: Store, i: nat, task: Task)
    requires i < |s.downloading| && s.downloading[i] == Built(env, task) && NeedsDownload(Built(env, task))
    ensures Arrives(s, MediaArrives(i, DownloadOf(env, Built(env, task)), env.now)) == [Final(env, task)]
  {
  }

  // ------------------------------------------------------------------
  // Every move
  // ------------------------------------------------------------------

  /** The task whose write an event ends is the one in flight. */
  lemma EndsCurrent(q: Q.Engine<Task>, ev: Q.Event<Task>)
    requires Q.SingleWorker(q)
    ensures Ends(q, ev) ==> Current(q).Some?
    ensures Writes(q, ev) == if Ends(q, ev) && ev.ok then [Current(q).value] else []
    ensures Q.SingleWorker(Q.Step(q, ev))
    ensures Begun(q, ev).Some? ==> Current(Q.Step(q, ev)) == Begun(q, ev) && (Ends(q, ev) || Current(q).None?)
    ensures Begun(q, ev).None? ==> Current(Q.Step(q, ev)) == if Ends(q, ev) then None else Current(q)
  {
    Q.StepKeepsSingleWorker(q, ev);
  }

  lemma QueueMoveStaysPlaced(env: Env, y: System, ev: Q.Event<Task>)
    requires Q.SingleWorker(y.queue) && Placed(env, y)
    ensures Placed(env, Next(env, y, Queue(ev))) && Q.SingleWorker(Next(env, y, Queue(ev)).queue)
  {
    EndsCurrent(y.queue, ev);
    var ends := CallsAtEnd(env, y, ev);
    var s := Exec(y.store, ends);
    if Begun(y.queue, ev).Some? {
      BeginBrings(env, s, Begun(y.queue, ev).value);
      ExecConcat(y.store, ends, BeginCalls(env, s, Begun(y.queue, ev).value));
    } else {
      assert ends + [] == ends;
    }
  }

  /** What a move of the queue brings, with what the write in flight brought before, is what it
      writes, with what the next write in flight has brought. */
  lemma QueueMoveBrings(env: Env, y: System, ev: Q.Event<Task>)
    requires Q.SingleWorker(y.queue) && Placed(env, y) && (ev.WriteEnds? ==> ev.ok)
    ensures Early(env, y) + Arrivals(y.store, Calls(env, y, Queue(ev))) ==
            Finals(env, Writes(y.queue, ev)) + Early(env, Next(env, y, Queue(ev)))
  {
    EndsCurrent(y.queue, ev);
    var ends := CallsAtEnd(env, y, ev);
    var begins := if Begun(y.queue, ev).None? then [] else BeginCalls(env, Exec(y.store, ends), Begun(y.queue, ev).value);
    ArrivalsConcat(y.store, ends, begins);
    QueueMoveEnds(env, y, ev);
    QueueMoveBegins(env, y, ev);
    Regroup(Early(env, y), Arrivals(y.store, ends), Arrivals(Exec(y.store, ends), begins));
    Regroup(Finals(env, Writes(y.queue, ev)), EarlyKept(env, y, ev), Arrivals(Exec(y.store, ends), begins));
  }

  /** What the write in flight has brought, if the event does not end it. */
  function EarlyKept(env: Env, y: System, ev: Q.Event<Task>): seq<Message> {
    if Ends(y.queue, ev) then [] else Early(env, y)
  }

  lemma FinalsOfOne(env: Env, task: Task)
    ensures Finals(env, [task]) == [Final(env, task)]
  {
    assert [task][..0] == [];
    assert Finals(env, [task]) == Finals(env, []) + [Final(env, task)];
  }

  lemma QueueMoveEnds(env: Env, y: System, ev: Q.Event<Task>)
    requires Q.SingleWorker(y.queue) && Placed(env, y) && (ev.WriteEnds? ==> ev.ok)
    ensures Early(env, y) + Arrivals(y.store, CallsAtEnd(env, y, ev)) ==
            Finals(env, Writes(y.queue, ev)) + EarlyKept(env, y, ev)
  {
    EndsCurrent(y.queue, ev);
    if Ends(y.queue, ev) {
      EndBrings(env, y);
      FinalsOfOne(env, Current(y.queue).value);
    }
  }

  lemma QueueMoveBegins(env: Env, y: System, ev: Q.Event<Task>)
    requires Q.SingleWorker(y.queue) && Placed(env, y) && (ev.WriteEnds? ==> ev.ok)
    ensures var s := Exec(y.store, CallsAtEnd(env, y, ev));
            var begins := if Begun(y.queue, ev).None? then [] else BeginCalls(env, s, Begun(y.queue, ev).value);
            EarlyKept(env, y, ev) + Arrivals(s, begins) == Early(env, Next(env, y, Queue(ev)))
  {
    EndsCurrent(y.queue, ev);
    EarlyAfter(env, y, ev);
    if Begun(y.queue, ev).Some? {
      BeginBrings(env, Exec(y.store, CallsAtEnd(env, y, ev)), Begun(y.queue, ev).value);
    }
  }

  /** Right after a move of the queue, the write in flight has brought its record if it was not
      just begun and had, or was just begun and needs no download. */
  lemma EarlyAfter(env: Env, y: System, ev: Q.Event<Task>)
    requires Q.SingleWorker(y.queue) && Placed(env, y) && (ev.WriteEnds? ==> ev.ok)
    ensures Early(env, Next(env, y, Queue(ev))) ==
            if Begun(y.queue, ev).None? then EarlyKept(env, y, ev)
            else if NeedsDownload(Built(env, Begun(y.queue, ev).value)) then []
            else [Final(env, Begun(y.queue, ev).value)]
    ensures Begun(y.queue, ev).Some? ==> EarlyKept(env, y, ev) == []
  {
    EndsCurrent(y.queue, ev);
  }

  lemma LiveMoveStaysPlaced(env: Env, y: System, e: Event)
    requires Placed(env, y)
    ensures Placed(env, Next(env, y, Live(e))) && Early(env, Next(env, y, Live(e))) == Early(env, y)
  {
    if Allowed(y, e) {
      OneCall(y.store, e);
      LiveCallMovesPlaces(y.store, e);
      if y.own.Some? {
        PlaceMoves(y.store.downloading, e, y.own.value, Step(y.store, e).downloading);
      }
    }
  }

  predicate PlacesMove(d: seq<Message>, e: Event, d': seq<Message>) {
    if e.MediaArrives? && e.call < |d| then d' == d[..e.call] + d[e.call + 1..]
    else |d| <= |d'| && d'[..|d|] == d
  }

  lemma PlaceMoves(d: seq<Message>, e: Event, own: nat, d': seq<Message>)
    requires PlacesMove(d, e, d') && own < |d| && !(e.MediaArrives? && e.call == own)
    ensures var own' := if e.MediaArrives? && e.call < own then own - 1 else own;
            own' < |d'| && d'[own'] == d[own]
  {
    if e.MediaArrives? && e.call < |d| {
      assert e.call < own ==> d'[own - 1] == d[e.call + 1..][own - 1 - e.call];
    } else {
      assert d'[own] == d'[..|d|][own];
    }
  }

  /** A live call only adds at the end of the suspended additions, or takes one out. */
  lemma LiveCallMovesPlaces(s: Store, e: Event)
    ensures PlacesMove(s.downloading, e, Step(s, e).downloading)
  {
  }

  // ------------------------------------------------------------------
  // Every run
  // ------------------------------------------------------------------

  function QueueEvents(moves: seq<Move>): seq<Q.Event<Task>> {
    if moves == [] then [] else (if moves[0].Queue? then [moves[0].ev] else []) + QueueEvents(moves[1..])
  }

  predicate NoWriteFails(moves: seq<Move>) {
    forall i :: 0 <= i < |moves| && moves[i].Queue? && moves[i].ev.WriteEnds? ==> moves[i].ev.ok
  }

  lemma {:induction false} FinalsConcat(env: Env, a: seq<Task>, b: seq<Task>)
    ensures Finals(env, a + b) == Finals(env, a) + Finals(env, b)
  {
    if b == [] {
      assert a + b == a;
    } else {
      var init := b[..|b| - 1];
      assert (a + b)[..|a + b| - 1] == a + init;
      FinalsConcat(env, a, init);
      Regroup(Finals(env, a), Finals(env, init), [Final(env, b[|b| - 1])]);
    }
  }

  lemma QueueEventFirst(q: Q.Engine<Task>, ev: Q.Event<Task>, es: seq<Q.Event<Task>>)
    ensures Q.Exec(q, [ev] + es) == Q.Exec(Q.Step(q, ev), es)
    ensures Written(q, [ev] + es) == Writes(q, ev) + Written(Q.Step(q, ev), es)
  {
    assert ([ev] + es)[1..] == es;
  }

  lemma {:induction false} QueueRunsAlong(env: Env, y: System, moves: seq<Move>)
    ensures Run(env, y, moves).queue == Q.Exec(y.queue, QueueEvents(moves))
    decreases moves
  {
    if moves != [] {
      var t, rest := Next(env, y, moves[0]), moves[1..];
      QueueRunsAlong(env, t, rest);
      if moves[0].Queue? {
        QueueEventFirst(y.queue, moves[0].ev, QueueEvents(rest));
      } else {
        assert [] + QueueEvents(rest) == QueueEvents(rest);
      }
    }
  }

  /** What the worker brings in a run is what the queue writes, in the same order, and what the
      write in flight at the end has brought already. */
  lemma {:induction false} WorkerBringsWritten(env: Env, y: System, moves: seq<Move>)
    requires Q.SingleWorker(y.queue) && Placed(env, y) && NoWriteFails(moves)
    ensures var z := Run(env, y, moves);
            Early(env, y) + ArrivalsBy(env, y, moves, false) ==
            Finals(env, Written(y.queue, QueueEvents(moves))) + Early(env, z)
    decreases moves
  {
    if moves != [] {
      var t, rest := Next(env, y, moves[0]), moves[1..];
      if moves[0].Queue? {
        QueueMoveStaysPlaced(env, y, moves[0].ev);
        WorkerBringsWritten(env, t, rest);
        QueueMoveBrings(env, y, moves[0].ev);
        QueueEventFirst(y.queue, moves[0].ev, QueueEvents(rest));
        FinalsConcat(env, Writes(y.queue, moves[0].ev), Written(t.queue, QueueEvents(rest)));
        Q.Transfer(Early(env, y), Arrivals(y.store, Calls(env, y, moves[0])), Finals(env, Writes(y.queue, moves[0].ev)),
                   Early(env, t), ArrivalsBy(env, t, rest, false),
                   Finals(env, Written(t.queue, QueueEvents(rest))), Early(env, Run(env, y, moves)));
      } else {
        LiveMoveStaysPlaced(env, y, moves[0].call);
        WorkerBringsWritten(env, t, rest);
        assert [] + QueueEvents(rest) == QueueEvents(rest);
        assert [] + ArrivalsBy(env, t, rest, false) == ArrivalsBy(env, t, rest, false);
      }
    } else {
      assert Early(env, y) + [] == [] + Early(env, y);
    }
  }

  predicate NoLiveSwap(moves: seq<Move>) {
    forall i :: 0 <= i < |moves| && moves[i].Live? ==> !moves[i].call.CommitSwap?
  }

  lemma {:induction false} HistoryHasNoSwap(env: Env, y: System, moves: seq<Move>)
    requires NoLiveSwap(moves)
    ensures NoSwap(History(env, y, moves))
    decreases moves
  {
    if moves != [] {
      HistoryHasNoSwap(env, Next(env, y, moves[0]), moves[1..]);
      CallsHaveNoSwap(env, y, moves[0]);
    }
  }

  lemma NoSwapConcat(a: seq<Event>, b: seq<Event>)
    requires NoSwap(a) && NoSwap(b)
    ensures NoSwap(a + b)
  {
  }

  lemma CallsHaveNoSwap(env: Env, y: System, move: Move)
    requires move.Live? ==> !move.call.CommitSwap?
    ensures NoSwap(Calls(env, y, move))
  {
    if move.Queue? {
      var ends := CallsAtEnd(env, y, move.ev);
      if Begun(y.queue, move.ev).Some? {
        BeginsHaveNoSwap(env, Exec(y.store, ends), Begun(y.queue, move.ev).value);
        NoSwapConcat(ends, BeginCalls(env, Exec(y.store, ends), Begun(y.queue, move.ev).value));
      }
    }
  }

  lemma BeginsHaveNoSwap(env: Env, s: Store, task: Task)
    ensures NoSwap(BeginCalls(env, s, task))
  {
    StubsAreSaves(env, s, task);
    NoSwapConcat(Stubs(env, s, task), [AddMessage(Built(env, task), env.now)]);
  }
}
