/**
 What becomes of everything that is enqueued and everything that arrives live, in every
 interleaving of the two: from any moment on, also with a write in flight, and so from
 the last swap of a run on.
*/
module LiveTraffic {
  import opened Records
  import opened Storage
  import opened Arrival
  import opened Gateway
  import opened LiveGateway
  import Q = QueueWriter

  // ------------------------------------------------------------------
  // What the queue still owes
  // ------------------------------------------------------------------

  predicate InFlight<T>(e: Q.Engine<T>) {
    e.workers != [] && !e.workers[0].Scheduled?
  }

  /** The tier of the write in flight. */
  predicate InFlightIsRealtime<T>(e: Q.Engine<T>)
    requires InFlight(e)
  {
    !e.workers[0].WritingBulk?
  }

  /** What the engine still has of a tier, without the write in flight if its record has arrived already. */
  function Owing<T>(e: Q.Engine<T>, arrived: bool, realtime: bool): seq<T>
    requires arrived ==> InFlight(e)
  {
    if arrived && InFlightIsRealtime(e) == realtime then Q.Remaining(e, realtime)[1..] else Q.Remaining(e, realtime)
  }

  lemma RemainingStartsInFlight<T>(e: Q.Engine<T>)
    requires InFlight(e)
    ensures var r := Q.Remaining(e, InFlightIsRealtime(e));
            r != [] && r[0] == e.workers[0].task
  {
  }

  lemma OneWriteCounts<T>(e: Q.Engine<T>, ev: Q.Event<T>)
    requires ev.WriteEnds? ==> ev.ok
    ensures multiset(Writes(e, ev)) == multiset(Q.Tasks(Q.Finishes(e, ev, true))) + multiset(Q.Tasks(Q.Finishes(e, ev, false)))
  {
    if ev.WriteEnds? && Q.Enabled(e, ev) {
      match e.workers[ev.worker]
      case WritingBulk(task, rest) =>
        assert Q.Tasks(Q.Finishes(e, ev, true)) == [] && Q.Tasks(Q.Finishes(e, ev, false)) == [task];
      case WritingUrgent(task, _, _) =>
        assert Q.Tasks(Q.Finishes(e, ev, false)) == [] && Q.Tasks(Q.Finishes(e, ev, true)) == [task];
      case WritingRealtime(task) =>
        assert Q.Tasks(Q.Finishes(e, ev, false)) == [] && Q.Tasks(Q.Finishes(e, ev, true)) == [task];
      case _ =>
    }
  }

  /** Every write of a run finishes one task of one tier. */
  lemma {:induction false} WritesCount<T>(e: Q.Engine<T>, es: seq<Q.Event<T>>)
    requires Q.NoWriteFails(es)
    ensures multiset(Written(e, es)) ==
            multiset(Q.Tasks(Q.Finished(e, es, true))) + multiset(Q.Tasks(Q.Finished(e, es, false)))
    decreases es
  {
    if es != [] {
      var t := Q.Step(e, es[0]);
      WritesCount(t, es[1..]);
      OneWriteCounts(e, es[0]);
      Q.TasksConcat(Q.Finishes(e, es[0], true), Q.Finished(t, es[1..], true));
      Q.TasksConcat(Q.Finishes(e, es[0], false), Q.Finished(t, es[1..], false));
    }
  }

  lemma OtherEventKeepsFlight<T>(e: Q.Engine<T>, ev: Q.Event<T>)
    requires Q.SingleWorker(e) && InFlight(e) && Writes(e, ev) == [] && (ev.WriteEnds? ==> ev.ok)
    ensures Q.SingleWorker(Q.Step(e, ev)) && Q.Step(e, ev).workers == e.workers
  {
  }

  /** The first write that ends is the one in flight. */
  lemma {:induction false} FirstWritten<T>(e: Q.Engine<T>, es: seq<Q.Event<T>>)
    requires Q.SingleWorker(e) && InFlight(e) && Q.NoWriteFails(es) && !Q.Exec(e, es).isProcessing
    ensures Written(e, es) != [] && Written(e, es)[0] == e.workers[0].task
    decreases es
  {
    assert es != [];
    if Writes(e, es[0]) == [] {
      OtherEventKeepsFlight(e, es[0]);
      FirstWritten(Q.Step(e, es[0]), es[1..]);
    }
  }

  /** When a run comes to rest, each tier has been written: what there was of it, and what was enqueued. */
  lemma TierIsWritten<T>(e: Q.Engine<T>, es: seq<Q.Event<T>>, realtime: bool)
    requires Q.SingleWorker(e) && !Q.Exec(e, es).isProcessing
    ensures Q.Tasks(Q.Finished(e, es, realtime)) == Q.Remaining(e, realtime) + Q.Enqueued(es, realtime)
  {
    Q.TierIsConserved(e, es, realtime);
    Q.ExecKeepsSingleWorker(e, es);
    assert Q.Remaining(Q.Exec(e, es), realtime) == [];
  }

  /** All that the queue still owes the store when a run starts, and what is enqueued in the run. */
  function Owed<T>(e: Q.Engine<T>, arrived: bool, es: seq<Q.Event<T>>): seq<T>
    requires arrived ==> InFlight(e)
  {
    (Owing(e, arrived, true) + Q.Enqueued(es, true)) + (Owing(e, arrived, false) + Q.Enqueued(es, false))
  }

  lemma WithoutFirst<T>(s: seq<T>, more: seq<T>)
    requires s != []
    ensures multiset(s + more) == multiset{s[0]} + multiset(s[1..] + more)
  {
    assert s + more == [s[0]] + (s[1..] + more);
  }

  /** A common head is taken from the whole and from one of its parts. */
  lemma TakeHead<T>(whole: seq<T>, part: seq<T>, more: seq<T>, rest: multiset<T>)
    requires whole != [] && part != [] && whole[0] == part[0] && multiset(whole) == multiset(part + more) + rest
    ensures multiset(whole[1..]) == multiset(part[1..] + more) + rest
  {
    WithoutFirst(whole, []);
    assert whole + [] == whole && whole[1..] + [] == whole[1..];
    WithoutFirst(part, more);
    CancelOne(whole[0], multiset(whole[1..]), multiset(part[1..] + more) + rest);
  }

  lemma CancelOne<T>(x: T, a: multiset<T>, b: multiset<T>)
    requires multiset{x} + a == multiset{x} + b
    ensures a == b
  {
    forall y ensures a[y] == b[y] {
      assert (multiset{x} + a)[y] == (multiset{x} + b)[y];
    }
  }

  lemma AllIsWritten<T>(e: Q.Engine<T>, es: seq<Q.Event<T>>)
    requires Q.SingleWorker(e) && Q.NoWriteFails(es) && !Q.Exec(e, es).isProcessing
    ensures multiset(Written(e, es)) ==
            multiset(Q.Remaining(e, true) + Q.Enqueued(es, true)) + multiset(Q.Remaining(e, false) + Q.Enqueued(es, false))
  {
    WritesCount(e, es);
    TierIsWritten(e, es, true);
    TierIsWritten(e, es, false);
  }

  /** What is written in a run that comes to rest, after the record that has arrived already, is what was owed. */
  lemma WrittenIsOwed<T>(e: Q.Engine<T>, arrived: bool, es: seq<Q.Event<T>>)
    requires Q.SingleWorker(e) && Q.NoWriteFails(es) && !Q.Exec(e, es).isProcessing && (arrived ==> InFlight(e))
    ensures arrived ==> Written(e, es) != []
    ensures multiset(if arrived then Written(e, es)[1..] else Written(e, es)) == multiset(Owed(e, arrived, es))
  {
    AllIsWritten(e, es);
    if arrived {
      var tier := InFlightIsRealtime(e);
      FirstWritten(e, es);
      RemainingStartsInFlight(e);
      TakeHead(Written(e, es), Q.Remaining(e, tier), Q.Enqueued(es, tier),
               multiset(Q.Remaining(e, !tier) + Q.Enqueued(es, !tier)));
      OwedWithout(e, es);
    }
  }

  lemma OwedWithout<T>(e: Q.Engine<T>, es: seq<Q.Event<T>>)
    requires InFlight(e) && Q.Remaining(e, InFlightIsRealtime(e)) != []
    ensures var tier := InFlightIsRealtime(e);
            multiset(Owed(e, true, es)) ==
            multiset(Q.Remaining(e, tier)[1..] + Q.Enqueued(es, tier)) + multiset(Q.Remaining(e, !tier) + Q.Enqueued(es, !tier))
  {
  }

  // ------------------------------------------------------------------
  // What the worker brings
  // ------------------------------------------------------------------

  /** A system in which a run may start at any moment, also with a write in flight. */
  ghost predicate Sound(env: Env, y: System) {
    Q.SingleWorker(y.queue) && Placed(env, y) && Consistent(y.store)
  }

  lemma FinalsTail(env: Env, tasks: seq<Task>)
    requires tasks != []
    ensures Finals(env, tasks) == [Final(env, tasks[0])] + Finals(env, tasks[1..])
  {
    assert [tasks[0]] + tasks[1..] == tasks;
    FinalsConcat(env, [tasks[0]], tasks[1..]);
    FinalsOfOne(env, tasks[0]);
  }

  lemma SameMembers<T>(a: seq<T>, b: seq<T>)
    requires multiset(a) == multiset(b)
    ensures forall x :: x in a <==> x in b
  {
    forall x ensures x in a <==> x in b {
      assert x in a <==> x in multiset(a);
      assert x in b <==> x in multiset(b);
    }
  }

  /** Whether the record of the write in flight has arrived. */
  predicate HasArrived(y: System) {
    InFlight(y.queue) && y.own.None?
  }

  lemma BroughtIsWritten(env: Env, y: System, moves: seq<Move>)
    requires Q.SingleWorker(y.queue) && Placed(env, y) && NoWriteFails(moves)
    requires !Run(env, y, moves).queue.isProcessing
    ensures var written := Written(y.queue, QueueEvents(moves));
            && (HasArrived(y) ==> written != [])
            && ArrivalsBy(env, y, moves, false) == Finals(env, if HasArrived(y) then written[1..] else written)
  {
    var es := QueueEvents(moves);
    QueueRunsAlong(env, y, moves);
    NoQueueWriteFails(moves);
    Q.ExecKeepsSingleWorker(y.queue, es);
    WorkerBringsWritten(env, y, moves);
    NothingEarly(env, Run(env, y, moves));
    if HasArrived(y) {
      FirstWritten(y.queue, es);
      FinalsTail(env, Written(y.queue, es));
      SameTail(Final(env, y.queue.workers[0].task), ArrivalsBy(env, y, moves, false), Finals(env, Written(y.queue, es)[1..]));
    } else {
      assert [] + ArrivalsBy(env, y, moves, false) == ArrivalsBy(env, y, moves, false);
    }
  }

  lemma SameTail<T>(x: T, a: seq<T>, b: seq<T>)
    requires [x] + a == ([x] + b) + []
    ensures a == b
  {
    assert ([x] + a)[1..] == a && (([x] + b) + [])[1..] == b;
  }

  lemma NothingEarly(env: Env, y: System)
    requires Q.SingleWorker(y.queue) && !y.queue.isProcessing
    ensures Early(env, y) == []
  {
  }

  lemma {:induction false} NoQueueWriteFails(moves: seq<Move>)
    requires NoWriteFails(moves)
    ensures Q.NoWriteFails(QueueEvents(moves))
  {
    if moves != [] {
      NoQueueWriteFails(moves[1..]);
    }
  }

  /** The records that the worker owes the store in a run. */
  function OwedRecords(env: Env, y: System, moves: seq<Move>): seq<Message> {
    Finals(env, Owed(y.queue, HasArrived(y), QueueEvents(moves)))
  }

  /** In a run that comes to rest, the worker brings exactly what it owes. */
  lemma WorkerBringsOwed(env: Env, y: System, moves: seq<Move>)
    requires Q.SingleWorker(y.queue) && Placed(env, y) && NoWriteFails(moves)
    requires !Run(env, y, moves).queue.isProcessing
    ensures forall m :: m in ArrivalsBy(env, y, moves, false) <==> m in OwedRecords(env, y, moves)
  {
    var es, arrived := QueueEvents(moves), HasArrived(y);
    var written := Written(y.queue, es);
    BroughtIsWritten(env, y, moves);
    QueueRunsAlong(env, y, moves);
    NoQueueWriteFails(moves);
    WrittenIsOwed(y.queue, arrived, es);
    SameMembers(if arrived then written[1..] else written, Owed(y.queue, arrived, es));
    SameTasksSameFinals(env, if arrived then written[1..] else written, Owed(y.queue, arrived, es));
  }

  lemma ArrivalsAre(env: Env, y: System, moves: seq<Move>)
    requires Q.SingleWorker(y.queue) && Placed(env, y) && NoWriteFails(moves)
    requires !Run(env, y, moves).queue.isProcessing
    ensures forall m :: m in OwedRecords(env, y, moves) + ArrivalsBy(env, y, moves, true) <==>
                        m in Arrivals(y.store, History(env, y, moves))
  {
    WorkerBringsOwed(env, y, moves);
    forall m {
      HistoryArrivals(env, y, moves, m);
    }
  }

  lemma ArrivalsPopulated(env: Env, y: System, moves: seq<Move>)
    requires Q.SingleWorker(y.queue) && Placed(env, y) && NoWriteFails(moves)
    requires !Run(env, y, moves).queue.isProcessing
    requires AllPopulated(ArrivalsBy(env, y, moves, true))
    ensures AllPopulated(Arrivals(y.store, History(env, y, moves)))
  {
    var all := Arrivals(y.store, History(env, y, moves));
    FinalsArePopulated(env, Owed(y.queue, HasArrived(y), QueueEvents(moves)));
    WorkerBringsOwed(env, y, moves);
    forall i | 0 <= i < |all| ensures Populated(all[i]) {
      HistoryArrivals(env, y, moves, all[i]);
    }
  }

  // ------------------------------------------------------------------
  // The table
  // ------------------------------------------------------------------

  /** End to end, with live traffic: from any moment on, also with a write in flight, and in every
      interleaving of the queue's steps with any other calls but a swap, also while a write waits for
      its download: once the queue is at rest, the table holds for each id the latest of what it held,
      everything that was or became enqueued on either tier, and everything that arrived live. */
  lemma LiveTrafficConverges(env: Env, y: System, moves: seq<Move>, id: string)
    requires Sound(env, y) && AllWithin(y.store.messages)
    requires NoWriteFails(moves) && NoLiveSwap(moves) && !Run(env, y, moves).queue.isProcessing
    requires AllPopulated(ArrivalsBy(env, y, moves, true))
    requires NoTopTies(y.store.messages, OwedRecords(env, y, moves) + ArrivalsBy(env, y, moves, true))
    ensures var z := Run(env, y, moves).store;
            && Lookup(z.messages, id) ==
               Latest(y.store.messages + (OwedRecords(env, y, moves) + ArrivalsBy(env, y, moves, true)), id)
            && Consistent(z)
  {
    var calls := History(env, y, moves);
    var all := OwedRecords(env, y, moves) + ArrivalsBy(env, y, moves, true);
    HistoryLeads(env, y, moves);
    HistoryHasNoSwap(env, y, moves);
    AlwaysConsistent(y.store, calls);
    ArrivalsAre(env, y, moves);
    ArrivalsPopulated(env, y, moves);
    TableHoldsLatest(y.store, calls, id);
    LatestIgnoresOrder(y.store.messages, all, Arrivals(y.store, calls), id);
  }

  /** From a queue at rest, what is owed is what is enqueued. */
  lemma AtRestOnlyEnqueuedIsOwed(env: Env, y: System, moves: seq<Move>)
    requires y.queue.workers == [] && y.queue.realtime == [] && y.queue.bulk == []
    ensures OwedRecords(env, y, moves) ==
            Finals(env, Q.Enqueued(QueueEvents(moves), true) + Q.Enqueued(QueueEvents(moves), false))
  {
    var es := QueueEvents(moves);
    assert [] + Q.Enqueued(es, true) == Q.Enqueued(es, true) && [] + Q.Enqueued(es, false) == Q.Enqueued(es, false);
  }

  // ------------------------------------------------------------------
  // Runs with swaps
  // ------------------------------------------------------------------

  lemma MoveStaysSound(env: Env, y: System, move: Move)
    requires Sound(env, y)
    ensures Sound(env, Next(env, y, move))
  {
    AlwaysConsistent(y.store, Calls(env, y, move));
    if move.Queue? {
      QueueMoveStaysPlaced(env, y, move.ev);
    } else {
      LiveMoveStaysPlaced(env, y, move.call);
    }
  }

  /** Any run, with swaps and failing writes, leaves a system from which the rest can be followed. */
  lemma {:induction false} RunStaysSound(env: Env, y: System, moves: seq<Move>)
    requires Sound(env, y)
    ensures Sound(env, Run(env, y, moves))
    decreases moves
  {
    if moves != [] {
      MoveStaysSound(env, y, moves[0]);
      RunStaysSound(env, Next(env, y, moves[0]), moves[1..]);
    }
  }

  /** In a run with any swaps, the table holds at rest for each id the latest of what it held right
      after the last of them, what was owed then or enqueued since, and what arrived live since. */
  lemma TrafficConvergesSinceSwap(env: Env, y: System, before: seq<Move>, since: seq<Move>, id: string)
    requires Sound(env, y)
    requires var m := Run(env, y, before);
             && AllWithin(m.store.messages)
             && NoWriteFails(since) && NoLiveSwap(since) && !Run(env, m, since).queue.isProcessing
             && AllPopulated(ArrivalsBy(env, m, since, true))
             && NoTopTies(m.store.messages, OwedRecords(env, m, since) + ArrivalsBy(env, m, since, true))
    ensures var m := Run(env, y, before);
            var z := Run(env, y, before + since).store;
            && Lookup(z.messages, id) ==
               Latest(m.store.messages + (OwedRecords(env, m, since) + ArrivalsBy(env, m, since, true)), id)
            && Consistent(z)
  {
    RunStaysSound(env, y, before);
    RunConcat(env, y, before, since);
    LiveTrafficConverges(env, Run(env, y, before), since, id);
  }
}
