/**
 The conversation key in every interleaving of the queue with other calls. A write puts its
 conversation first and may then wait for a download; a swap in between can take the
 conversation away, and the resumed write stores its message all the same.
*/
module LiveKeys {
  import opened Prelude
  import opened Storage
  import opened Staging
  import opened Gateway
  import opened LiveGateway
  import Q = QueueWriter

  // ------------------------------------------------------------------
  // The worker's calls
  // ------------------------------------------------------------------

  lemma StepKeepsConversationKeys(s: Store, e: Event)
    requires !e.CommitSwap?
    ensures s.conversations.Keys <= Step(s, e).conversations.Keys
  {
    if e.SaveConversations? {
      PutKeepsConversations(s.conversations, e.convs);
    }
  }

  lemma {:induction false} SavesKeepConversations(s: Store, es: seq<Event>)
    requires ConversationsKnown(s) && SavesOnly(es)
    ensures ConversationsKnown(Exec(s, es)) && s.conversations.Keys <= Exec(s, es).conversations.Keys
    decreases es
  {
    if es != [] {
      SaveBringsNothing(s, es[0]);
      StepKeepsConversationsIff(s, es[0]);
      StepKeepsConversationKeys(s, es[0]);
      SavesKeepConversations(Step(s, es[0]), es[1..]);
    }
  }

  lemma StubsHouse(env: Env, s: Store, task: Task)
    requires ConversationsKnown(s)
    ensures var t := Exec(s, Stubs(env, s, task));
            ConversationsKnown(t) && ConversationOf(task) in t.conversations
  {
    StubsAreSaves(env, s, task);
    SavesKeepConversations(s, Stubs(env, s, task));
    if ConversationOf(task) !in s.conversations {
      FirstStubHouses(env, s, task);
    }
  }

  lemma FirstStubHouses(env: Env, s: Store, task: Task)
    requires ConversationsKnown(s) && ConversationOf(task) !in s.conversations
    ensures ConversationOf(task) in Exec(s, Stubs(env, s, task)).conversations
  {
    var stubs, stub := Stubs(env, s, task), StubConversation(env, task);
    StubsAreSaves(env, s, task);
    assert stubs[0] == SaveConversations([stub]);
    SaveOneConversation(s, stub);
    assert Exec(s, stubs) == Exec(Step(s, stubs[0]), stubs[1..]);
    SaveBringsNothing(s, stubs[0]);
    StepKeepsConversationsIff(s, stubs[0]);
    SavesKeepConversations(Step(s, stubs[0]), stubs[1..]);
  }

  /** The start of a write keeps the conversation key, and houses its record. */
  lemma BeginKeeps(env: Env, s: Store, task: Task)
    requires ConversationsKnown(s)
    ensures var t := Exec(s, BeginCalls(env, s, task));
            ConversationsKnown(t) && ConversationOf(task) in t.conversations
  {
    var stubs, add := Stubs(env, s, task), AddMessage(Built(env, task), env.now);
    var ready := Exec(s, stubs);
    StubsHouse(env, s, task);
    ExecConcat(s, stubs, [add]);
    OneCall(ready, add);
    BuiltHasSender(env, task);
    AddBrings(ready, Built(env, task), env.now);
    BuiltIsHoused(env, ready, task);
    StepKeepsConversationsIff(ready, add);
    StepKeepsConversationKeys(ready, add);
  }

  lemma BuiltIsHoused(env: Env, s: Store, task: Task)
    requires ConversationOf(task) in s.conversations
    ensures Houses(s, Built(env, task)) && Houses(s, Final(env, task))
  {
  }

  // ------------------------------------------------------------------
  // The end of a write
  // ------------------------------------------------------------------

  /** The end of a write that waited for its download keeps the conversation key exactly when its
      conversation is still there, or a newer record keeps its message out. */
  lemma EndKeepsIff(env: Env, y: System)
    requires Placed(env, y) && y.own.Some? && ConversationsKnown(y.store)
    ensures ConversationsKnown(Exec(y.store, EndCalls(env, y))) <==>
            Houses(y.store, Final(env, Current(y.queue).value))
  {
    var task := Current(y.queue).value;
    var end := EndCalls(env, y)[0];
    OneCall(y.store, end);
    DownloadedIsFinal(env, y.store, y.own.value, task);
    StepKeepsConversationsIff(y.store, end);
  }

  /** The conversation of the write that waits for its download exists. */
  predicate Housed(y: System) {
    y.own.Some? && Current(y.queue).Some? ==> ConversationOf(Current(y.queue).value) in y.store.conversations
  }

  /** Every message has its conversation, and so will the one in flight. */
  ghost predicate Keyed(env: Env, y: System) {
    Q.SingleWorker(y.queue) && Placed(env, y) && ConversationsKnown(y.store) && Housed(y)
  }

  lemma EndsKeep(env: Env, y: System, ev: Q.Event<Task>)
    requires Keyed(env, y)
    ensures ConversationsKnown(Exec(y.store, CallsAtEnd(env, y, ev)))
  {
    if Ends(y.queue, ev) && y.own.Some? {
      EndKeepsIff(env, y);
      BuiltIsHoused(env, y.store, Current(y.queue).value);
    }
  }

  /** The queue itself never breaks the conversation key, whatever it does and however its writes end. */
  lemma QueueMoveKeeps(env: Env, y: System, ev: Q.Event<Task>)
    requires Keyed(env, y)
    ensures Keyed(env, Next(env, y, Queue(ev)))
  {
    EndsCurrent(y.queue, ev);
    QueueMoveStaysPlaced(env, y, ev);
    EndsKeep(env, y, ev);
    var ends := CallsAtEnd(env, y, ev);
    if Begun(y.queue, ev).Some? {
      var task := Begun(y.queue, ev).value;
      BeginKeeps(env, Exec(y.store, ends), task);
      ExecConcat(y.store, ends, BeginCalls(env, Exec(y.store, ends), task));
    } else {
      assert ends + [] == ends;
    }
  }

  // ------------------------------------------------------------------
  // Other calls
  // ------------------------------------------------------------------

  /** The call orphans no message; and if it is a swap, the staged conversations contain that of
      the write that waits for its download. */
  ghost predicate LiveCallIsSafe(y: System, e: Event) {
    Allowed(y, e) ==>
      && StepIsSafe(y.store, e)
      && (e.CommitSwap? && y.own.Some? && Current(y.queue).Some? ==>
            ConversationOf(Current(y.queue).value) in y.store.stagingConversations)
  }

  lemma LiveMoveKeepsIff(env: Env, y: System, e: Event)
    requires Keyed(env, y)
    ensures Keyed(env, Next(env, y, Live(e))) <==> LiveCallIsSafe(y, e)
  {
    LiveMoveStaysPlaced(env, y, e);
    if Allowed(y, e) {
      OneCall(y.store, e);
      StepKeepsConversationsIff(y.store, e);
      if e.CommitSwap? {
        SwapShares(y.store, e.now);
      } else {
        StepKeepsConversationKeys(y.store, e);
      }
    }
  }

  // ------------------------------------------------------------------
  // Every run
  // ------------------------------------------------------------------

  ghost predicate KeyedThroughout(env: Env, y: System, moves: seq<Move>)
    decreases moves
  {
    Keyed(env, y) && (moves != [] ==> KeyedThroughout(env, Next(env, y, moves[0]), moves[1..]))
  }

  ghost predicate LiveCallsAreSafe(env: Env, y: System, moves: seq<Move>)
    decreases moves
  {
    moves == [] || (
      && (moves[0].Live? ==> LiveCallIsSafe(y, moves[0].call))
      && LiveCallsAreSafe(env, Next(env, y, moves[0]), moves[1..]))
  }

  /** In every interleaving, with swaps, downloads in flight and failing writes: every message has its
      conversation at every moment, and so will the one in flight, exactly when the other calls are safe. */
  lemma {:induction false} ConversationKeyIsKept(env: Env, y: System, moves: seq<Move>)
    requires Keyed(env, y)
    ensures KeyedThroughout(env, y, moves) <==> LiveCallsAreSafe(env, y, moves)
    decreases moves
  {
    if moves != [] {
      var t := Next(env, y, moves[0]);
      if moves[0].Live? {
        LiveMoveKeepsIff(env, y, moves[0].call);
      } else {
        QueueMoveKeeps(env, y, moves[0].ev);
      }
      if Keyed(env, t) {
        ConversationKeyIsKept(env, t, moves[1..]);
      }
    }
  }

  // ------------------------------------------------------------------
  // A swap during a download
  // ------------------------------------------------------------------

  lemma FlightStarts(env: Env, y: System, task: Task)
    requires y.queue == Q.Idle() && y.own == None
    ensures var q := Q.Step(Q.Step(y.queue, Q.EnqueueRealtime(task)), Q.RunScheduled(0));
            q == Q.Engine([], [], true, [Q.WritingRealtime(task)])
  {
  }

  /** A write that has begun on an empty queue waits for its download. */
  ghost predicate Waiting(env: Env, y: System, task: Task) {
    && y.queue == Q.Engine([], [], true, [Q.WritingRealtime(task)])
    && Placed(env, y) && y.own.Some?
  }

  lemma WaitBegins(env: Env, y: System, task: Task)
    requires y.queue == Q.Idle() && y.own == None && NeedsDownload(Built(env, task))
    ensures var z := Next(env, Next(env, y, Queue(Q.EnqueueRealtime(task))), Queue(Q.RunScheduled(0)));
            Waiting(env, z, task) && z.store == Exec(y.store, BeginCalls(env, y.store, task))
  {
    var queued := Next(env, y, Queue(Q.EnqueueRealtime(task)));
    FlightStarts(env, y, task);
    QueueMoveStaysPlaced(env, y, Q.EnqueueRealtime(task));
    QueueMoveStaysPlaced(env, queued, Q.RunScheduled(0));
    assert Calls(env, y, Queue(Q.EnqueueRealtime(task))) == [];
    assert queued.store == y.store && queued.own == None;
    assert [] + BeginCalls(env, y.store, task) == BeginCalls(env, y.store, task);
  }

  lemma {:induction false} SavesStageNothing(s: Store, es: seq<Event>)
    requires NothingStaged(s) && forall i :: 0 <= i < |es| ==> es[i].SaveConversations? || es[i].SaveContacts? || es[i].AddMessage?
    ensures Exec(s, es).stagingMessages == [] && Exec(s, es).stagingConversations == map[]
    decreases es
  {
    if es != [] {
      SaveStagesNothing(s, es[0]);
      SavesStageNothing(Step(s, es[0]), es[1..]);
    }
  }

  lemma SaveStagesNothing(s: Store, e: Event)
    requires NothingStaged(s) && (e.SaveConversations? || e.SaveContacts? || e.AddMessage?)
    ensures NothingStaged(Step(s, e))
  {
    if e.SaveConversations? {
      NoSwapSharesNothing(s, e);
    }
  }

  lemma BeginStagesNothing(env: Env, s: Store, task: Task)
    requires NothingStaged(s)
    ensures var t := Exec(s, BeginCalls(env, s, task));
            t.stagingMessages == [] && t.stagingConversations == map[]
  {
    StubsAreSaves(env, s, task);
    SavesStageNothing(s, BeginCalls(env, s, task));
  }

  /** A swap of nothing leaves no message and no conversation. */
  lemma EmptySwap(s: Store, now: int)
    requires s.stagingMessages == [] && s.stagingConversations == map[]
    ensures Step(s, CommitSwap(now)).messages == [] && Step(s, CommitSwap(now)).conversations == map[]
  {
  }

  lemma EndOrphans(env: Env, y: System, task: Task)
    requires Waiting(env, y, task) && y.store.messages == [] && y.store.conversations == map[]
    ensures !ConversationsKnown(Next(env, y, Queue(Q.WriteEnds(0, true))).store)
  {
    var ends := EndCalls(env, y);
    EndKeepsIff(env, y);
    assert Q.Step(y.queue, Q.WriteEnds(0, true)).workers == [];
    assert ends + [] == ends;
  }

  /** A swap during the download of a write orphans its message: the write has put its conversation,
      the swap drops it, and the resumed write stores the message. */
  lemma SwapDuringDownloadOrphans(env: Env, y: System, task: Task, now: int)
    requires y.queue == Q.Idle() && y.own == None && NothingStaged(y.store)
    requires NeedsDownload(Built(env, task))
    ensures var moves :=
              [Queue(Q.EnqueueRealtime(task)), Queue(Q.RunScheduled(0)), Live(CommitSwap(now)), Queue(Q.WriteEnds(0, true))];
            !ConversationsKnown(Run(env, y, moves).store)
  {
    var begun := Next(env, Next(env, y, Queue(Q.EnqueueRealtime(task))), Queue(Q.RunScheduled(0)));
    var swapped := Next(env, begun, Live(CommitSwap(now)));
    WaitBegins(env, y, task);
    BeginStagesNothing(env, y.store, task);
    LiveMoveStaysPlaced(env, begun, CommitSwap(now));
    OneCall(begun.store, CommitSwap(now));
    EmptySwap(begun.store, now);
    EndOrphans(env, swapped, task);
    RunOfFour(env, y, Queue(Q.EnqueueRealtime(task)), Queue(Q.RunScheduled(0)), Live(CommitSwap(now)), Queue(Q.WriteEnds(0, true)));
  }

  lemma RunOfFour(env: Env, y: System, a: Move, b: Move, c: Move, d: Move)
    ensures Run(env, y, [a, b, c, d]) == Next(env, Next(env, Next(env, Next(env, y, a), b), c), d)
  {
    RunOfTwo(env, y, a, b);
    RunOfTwo(env, Next(env, Next(env, y, a), b), c, d);
    RunConcat(env, y, [a, b], [c, d]);
    assert [a, b] + [c, d] == [a, b, c, d];
  }

  lemma RunOfTwo(env: Env, y: System, a: Move, b: Move)
    ensures Run(env, y, [a, b]) == Next(env, Next(env, y, a), b)
  {
    RunOfOne(env, y, a);
    RunOfOne(env, Next(env, y, a), b);
    RunConcat(env, y, [a], [b]);
    assert [a] + [b] == [a, b];
  }

  lemma RunOfOne(env: Env, y: System, a: Move)
    ensures Run(env, y, [a]) == Next(env, y, a)
  {
    assert [a][1..] == [];
    assert Run(env, y, [a]) == Run(env, Next(env, y, a), []);
  }
}
