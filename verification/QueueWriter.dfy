/**
 The single-writer queue: two priority tiers drained by one asynchronous worker on a
 cooperative event loop. The code between two `await`s runs without interruption, so
 it is one step here; a worker is what a suspended or scheduled call remembers.
 Any number of workers can exist in a state; that there is at most one is proved.
*/
module QueueWriter {
  import opened Prelude

  const MICRO_BATCH_SIZE: nat := 500

  /** Where a call of the batch loop waits, with the tasks it has taken from the queues. */
  datatype Worker<T> =
    | Scheduled                                      // queued to start at the next turn of the loop
    | WritingRealtime(task: T)                       // realtime drain
    | WritingUrgent(task: T, next: T, rest: seq<T>)  // realtime task served before bulk task `next`
    | WritingBulk(task: T, rest: seq<T>)             // `rest` is what remains of the micro-batch

  datatype Engine<T> = Engine(realtime: seq<T>, bulk: seq<T>, isProcessing: bool, workers: seq<Worker<T>>)

  // ------------------------------------------------------------------
  // The class
  // ------------------------------------------------------------------

  class SingleWriterQueueEngine<T> {
    var tier1RealtimeQueue: seq<T>
    var tier2BulkQueue: seq<T>
    var isProcessing: bool
    /** The event loop's view: the calls of `processNextBatch` that are scheduled or suspended. */
    var workers: seq<Worker<T>>

    ghost function Contents(): Engine<T>
      reads this
    {
      Engine(tier1RealtimeQueue, tier2BulkQueue, isProcessing, workers)
    }

    constructor ()
      ensures Contents() == Idle()
    {
      tier1RealtimeQueue, tier2BulkQueue, isProcessing, workers := [], [], false, [];
    }

    method EnqueueRealtime(task: T)
      modifies this
      ensures Contents() == Step(old(Contents()), Event.EnqueueRealtime(task))
    {
      tier1RealtimeQueue := tier1RealtimeQueue + [task];
      TriggerProcessing();
    }

    method EnqueueBulkBatch(tasks: seq<T>)
      modifies this
      ensures Contents() == Step(old(Contents()), EnqueueBulk(tasks))
    {
      for i := 0 to |tasks|
        invariant Contents() == old(Contents()).(bulk := old(tier2BulkQueue) + tasks[..i])
      {
        tier2BulkQueue := tier2BulkQueue + [tasks[i]];
      }
      TriggerProcessing();
    }

    method TriggerProcessing()
      modifies this
      ensures Contents() == Trigger(old(Contents()))
    {
      if !isProcessing {
        isProcessing := true;
        workers := workers + [Scheduled];
      }
    }

    /** The 100 ms interval. */
    method Tick()
      modifies this
      ensures Contents() == Step(old(Contents()), Event.Tick)
    {
      if |tier1RealtimeQueue| > 0 || |tier2BulkQueue| > 0 {
        TriggerProcessing();
      }
    }

    /** A scheduled call starts and runs up to its first write. */
    method RunScheduled(i: nat)
      requires i < |workers| && workers[i].Scheduled?
      modifies this
      ensures Contents() == Step(old(Contents()), Event.RunScheduled(i))
    {
      DrainOrTakeBatch(i);
    }

    /** The write that worker `i` waits for ends, with success or with an exception;
        the worker runs on to its next write or to its end. */
    method WriteEnds(i: nat, ok: bool)
      requires i < |workers| && !workers[i].Scheduled?
      modifies this
      ensures Contents() == Step(old(Contents()), Event.WriteEnds(i, ok))
    {
      if !ok {
        LeaveBatch(i);
      } else {
        match workers[i]
        case WritingRealtime(_) => DrainOrTakeBatch(i);
        case WritingUrgent(_, next, rest) => workers := workers[i := WritingBulk(next, rest)];
        case WritingBulk(_, rest) => ServeBatch(i, rest);
      }
    }

    /** The head of the drain loop, and the batch after it. */
    method DrainOrTakeBatch(i: nat)
      requires i < |workers|
      modifies this
      ensures Contents() == Drained(old(Contents()), i)
    {
      if |tier1RealtimeQueue| > 0 {
        workers := workers[i := WritingRealtime(tier1RealtimeQueue[0])];
        tier1RealtimeQueue := tier1RealtimeQueue[1..];
      } else if |tier2BulkQueue| > 0 {
        var microBatchSize := Min(MICRO_BATCH_SIZE, |tier2BulkQueue|);
        var batch := tier2BulkQueue[..microBatchSize];
        tier2BulkQueue := tier2BulkQueue[microBatchSize..];
        ServeBatch(i, batch);
      } else {
        LeaveBatch(i);
      }
    }

    /** The head of the batch loop. */
    method ServeBatch(i: nat, batch: seq<T>)
      requires i < |workers|
      modifies this
      ensures Contents() == Served(old(Contents()), i, batch)
    {
      if batch == [] {
        LeaveBatch(i);
      } else if |tier1RealtimeQueue| > 0 {
        workers := workers[i := WritingUrgent(tier1RealtimeQueue[0], batch[0], batch[1..])];
        tier1RealtimeQueue := tier1RealtimeQueue[1..];
      } else {
        workers := workers[i := WritingBulk(batch[0], batch[1..])];
      }
    }

    /** The `finally` block. */
    method LeaveBatch(i: nat)
      requires i < |workers|
      modifies this
      ensures Contents() == Left(old(Contents()), i)
    {
      if |tier1RealtimeQueue| > 0 || |tier2BulkQueue| > 0 {
        workers := workers[i := Scheduled];
      } else {
        isProcessing := false;
        workers := workers[..i] + workers[i + 1..];
      }
    }
  }

  // ------------------------------------------------------------------
  // The steps of the event loop
  // ------------------------------------------------------------------

  datatype Event<T> =
    | EnqueueRealtime(task: T)
    | EnqueueBulk(tasks: seq<T>)
    | Tick
    | RunScheduled(worker: nat)
    | WriteEnds(worker: nat, ok: bool)

  function Idle<T>(): Engine<T> {
    Engine([], [], false, [])
  }

  predicate HasWork<T>(e: Engine<T>) {
    |e.realtime| > 0 || |e.bulk| > 0
  }

  function Trigger<T>(e: Engine<T>): Engine<T> {
    if e.isProcessing then e else e.(isProcessing := true, workers := e.workers + [Scheduled])
  }

  function Left<T>(e: Engine<T>, i: nat): Engine<T>
    requires i < |e.workers|
  {
    if HasWork(e) then e.(workers := e.workers[i := Scheduled])
    else e.(isProcessing := false, workers := e.workers[..i] + e.workers[i + 1..])
  }

  function Served<T>(e: Engine<T>, i: nat, batch: seq<T>): Engine<T>
    requires i < |e.workers|
  {
    if batch == [] then Left(e, i)
    else if |e.realtime| > 0 then
      e.(realtime := e.realtime[1..], workers := e.workers[i := WritingUrgent(e.realtime[0], batch[0], batch[1..])])
    else e.(workers := e.workers[i := WritingBulk(batch[0], batch[1..])])
  }

  function Drained<T>(e: Engine<T>, i: nat): Engine<T>
    requires i < |e.workers|
  {
    if |e.realtime| > 0 then
      e.(realtime := e.realtime[1..], workers := e.workers[i := WritingRealtime(e.realtime[0])])
    else if |e.bulk| > 0 then
      var n := Min(MICRO_BATCH_SIZE, |e.bulk|);
      Served(e.(bulk := e.bulk[n..]), i, e.bulk[..n])
    else Left(e, i)
  }

  predicate Enabled<T>(e: Engine<T>, ev: Event<T>) {
    match ev
    case RunScheduled(i) => i < |e.workers| && e.workers[i].Scheduled?
    case WriteEnds(i, _) => i < |e.workers| && !e.workers[i].Scheduled?
    case _ => true
  }

  /** An event that is not enabled changes nothing. */
  function Step<T>(e: Engine<T>, ev: Event<T>): Engine<T> {
    if !Enabled(e, ev) then e
    else
      match ev
      case EnqueueRealtime(task) => Trigger(e.(realtime := e.realtime + [task]))
      case EnqueueBulk(tasks) => Trigger(e.(bulk := e.bulk + tasks))
      case Tick => if HasWork(e) then Trigger(e) else e
      case RunScheduled(i) => Drained(e, i)
      case WriteEnds(i, ok) =>
        if !ok then Left(e, i)
        else
          match e.workers[i]
          case WritingRealtime(_) => Drained(e, i)
          case WritingUrgent(_, next, rest) => e.(workers := e.workers[i := WritingBulk(next, rest)])
          case WritingBulk(_, rest) => Served(e, i, rest)
  }

  function Exec<T>(e: Engine<T>, es: seq<Event<T>>): Engine<T>
    decreases es
  {
    if es == [] then e else Exec(Step(e, es[0]), es[1..])
  }

  // ------------------------------------------------------------------
  // One worker, and no lost wake-up
  // ------------------------------------------------------------------

  predicate SingleWorker<T>(e: Engine<T>) {
    && |e.workers| <= 1
    && (e.isProcessing <==> |e.workers| == 1)
    && (HasWork(e) ==> |e.workers| == 1)
  }

  lemma StepKeepsSingleWorker<T>(e: Engine<T>, ev: Event<T>)
    requires SingleWorker(e)
    ensures SingleWorker(Step(e, ev))
  {
  }

  lemma {:induction false} ExecKeepsSingleWorker<T>(e: Engine<T>, es: seq<Event<T>>)
    requires SingleWorker(e)
    ensures SingleWorker(Exec(e, es))
    decreases es
  {
    if es != [] {
      StepKeepsSingleWorker(e, es[0]);
      ExecKeepsSingleWorker(Step(e, es[0]), es[1..]);
    }
  }

  /** In every interleaving, even with failing writes, at most one worker is scheduled or
      running, exactly when `isProcessing` is set, and a non-empty queue has a live worker. */
  lemma AlwaysOneWriter<T>(es: seq<Event<T>>)
    ensures SingleWorker(Exec(Idle(), es))
  {
    ExecKeepsSingleWorker<T>(Idle(), es);
  }

  /** The interval never does anything: whenever there is work, a worker is alive. */
  lemma TickChangesNothing<T>(es: seq<Event<T>>)
    ensures Step(Exec(Idle(), es), Event.Tick) == Exec(Idle(), es)
  {
    AlwaysOneWriter(es);
  }

  // ------------------------------------------------------------------
  // Nothing lost, duplicated or reordered
  // ------------------------------------------------------------------

  datatype Outcome = Written | Failed | Dropped

  datatype Record<T> = Record(task: T, outcome: Outcome)

  function Enqueues<T>(ev: Event<T>, realtime: bool): seq<T> {
    match ev
    case EnqueueRealtime(task) => if realtime then [task] else []
    case EnqueueBulk(tasks) => if realtime then [] else tasks
    case _ => []
  }

  /** The tasks given to a tier, in order. */
  function Enqueued<T>(es: seq<Event<T>>, realtime: bool): seq<T> {
    if es == [] then [] else Enqueues(es[0], realtime) + Enqueued(es[1..], realtime)
  }

  function AllDropped<T>(tasks: seq<T>): seq<Record<T>> {
    seq(|tasks|, i requires 0 <= i < |tasks| => Record(tasks[i], Dropped))
  }

  /** The tasks of a tier that an event finishes: its write ended, or its batch was abandoned. */
  function Finishes<T>(e: Engine<T>, ev: Event<T>, realtime: bool): seq<Record<T>> {
    if !ev.WriteEnds? || !Enabled(e, ev) then []
    else
      var outcome := if ev.ok then Written else Failed;
      match e.workers[ev.worker]
      case WritingRealtime(task) => if realtime then [Record(task, outcome)] else []
      case WritingUrgent(task, next, rest) =>
        if realtime then [Record(task, outcome)] else if ev.ok then [] else AllDropped([next] + rest)
      case WritingBulk(task, rest) =>
        if realtime then [] else [Record(task, outcome)] + if ev.ok then [] else AllDropped(rest)
  }

  function Finished<T>(e: Engine<T>, es: seq<Event<T>>, realtime: bool): seq<Record<T>>
    decreases es
  {
    if es == [] then [] else Finishes(e, es[0], realtime) + Finished(Step(e, es[0]), es[1..], realtime)
  }

  function Tasks<T>(records: seq<Record<T>>): seq<T> {
    seq(|records|, i requires 0 <= i < |records| => records[i].task)
  }

  /** In flight, then the remainder of the batch. */
  function HeldBy<T>(w: Worker<T>, realtime: bool): seq<T> {
    match w
    case Scheduled => []
    case WritingRealtime(task) => if realtime then [task] else []
    case WritingUrgent(task, next, rest) => if realtime then [task] else [next] + rest
    case WritingBulk(task, rest) => if realtime then [] else [task] + rest
  }

  function Held<T>(e: Engine<T>, realtime: bool): seq<T> {
    if e.workers == [] then [] else HeldBy(e.workers[0], realtime)
  }

  /** With nothing urgent, a scheduled worker takes the whole bulk tier, or the first 500 tasks of it. */
  lemma BatchIsTaken<T>(e: Engine<T>, i: nat)
    requires i < |e.workers| && e.workers[i].Scheduled? && e.realtime == [] && e.bulk != []
    ensures var t := Step(e, Event.RunScheduled(i));
            && |t.workers| == |e.workers|
            && HeldBy(t.workers[i], false) + t.bulk == e.bulk
            && |HeldBy(t.workers[i], false)| == (if |e.bulk| <= 500 then |e.bulk| else 500)
  {
    var n := Min(MICRO_BATCH_SIZE, |e.bulk|);
    assert e.bulk[..n] + e.bulk[n..] == e.bulk;
  }

  /** No worker holds more than 500 bulk tasks. */
  predicate BatchesAreSmall<T>(workers: seq<Worker<T>>) {
    forall i :: 0 <= i < |workers| ==> |HeldBy(workers[i], false)| <= 500
  }

  lemma ServedKeepsBatchesSmall<T>(e: Engine<T>, i: nat, batch: seq<T>)
    requires i < |e.workers| && BatchesAreSmall(e.workers) && |batch| <= 500
    ensures BatchesAreSmall(Served(e, i, batch).workers)
  {
  }

  lemma DrainedKeepsBatchesSmall<T>(e: Engine<T>, i: nat)
    requires i < |e.workers| && BatchesAreSmall(e.workers)
    ensures BatchesAreSmall(Drained(e, i).workers)
  {
    if e.realtime == [] && e.bulk != [] {
      var n := Min(MICRO_BATCH_SIZE, |e.bulk|);
      ServedKeepsBatchesSmall(e.(bulk := e.bulk[n..]), i, e.bulk[..n]);
    }
  }

  lemma StepKeepsBatchesSmall<T>(e: Engine<T>, ev: Event<T>)
    requires BatchesAreSmall(e.workers)
    ensures BatchesAreSmall(Step(e, ev).workers)
  {
    match ev
    case RunScheduled(i) =>
      if i < |e.workers| {
        DrainedKeepsBatchesSmall(e, i);
      }
    case WriteEnds(i, _) =>
      if i < |e.workers| {
        assert |HeldBy(e.workers[i], false)| <= 500;
        DrainedKeepsBatchesSmall(e, i);
        ServedKeepsBatchesSmall(e, i, []);
        if e.workers[i].WritingBulk? {
          ServedKeepsBatchesSmall(e, i, e.workers[i].rest);
        }
      }
    case _ =>
  }

  /** However much is enqueued at once: in every run, no worker ever holds more than 500 bulk tasks. */
  lemma {:induction false} BatchesStaySmall<T>(e: Engine<T>, es: seq<Event<T>>)
    requires BatchesAreSmall(e.workers)
    ensures BatchesAreSmall(Exec(e, es).workers)
    decreases es
  {
    if es != [] {
      StepKeepsBatchesSmall(e, es[0]);
      BatchesStaySmall(Step(e, es[0]), es[1..]);
    }
  }

  function Queue<T>(e: Engine<T>, realtime: bool): seq<T> {
    if realtime then e.realtime else e.bulk
  }

  /** What the engine still has of a tier: in flight, left in the batch, queued. */
  function Remaining<T>(e: Engine<T>, realtime: bool): seq<T> {
    Held(e, realtime) + Queue(e, realtime)
  }

  lemma LeftKeepsQueue<T>(e: Engine<T>, realtime: bool)
    requires |e.workers| == 1
    ensures Remaining(Left(e, 0), realtime) == Queue(e, realtime)
  {
  }

  lemma HeadAndTail<T>(s: seq<T>)
    requires s != []
    ensures [s[0]] + s[1..] == s
  {
  }

  lemma ServedKeepsBatch<T>(e: Engine<T>, batch: seq<T>, realtime: bool)
    requires |e.workers| == 1
    ensures Remaining(Served(e, 0, batch), realtime) == (if realtime then [] else batch) + Queue(e, realtime)
  {
    if batch == [] {
      LeftKeepsQueue(e, realtime);
    } else {
      HeadAndTail(batch);
      if |e.realtime| > 0 {
        HeadAndTail(e.realtime);
        assert Held(Served(e, 0, batch), realtime) == if realtime then [e.realtime[0]] else batch;
      } else {
        assert Held(Served(e, 0, batch), realtime) == if realtime then [] else batch;
      }
    }
  }

  lemma DrainedKeepsQueue<T>(e: Engine<T>, realtime: bool)
    requires |e.workers| == 1
    ensures Remaining(Drained(e, 0), realtime) == Queue(e, realtime)
  {
    if |e.realtime| > 0 {
      HeadAndTail(e.realtime);
      assert Held(Drained(e, 0), realtime) == if realtime then [e.realtime[0]] else [];
    } else if |e.bulk| > 0 {
      var n := Min(MICRO_BATCH_SIZE, |e.bulk|);
      ServedKeepsBatch(e.(bulk := e.bulk[n..]), e.bulk[..n], realtime);
      assert e.bulk[..n] + e.bulk[n..] == e.bulk;
    } else {
      LeftKeepsQueue(e, realtime);
    }
  }

  /** The end of a write gives back exactly the records of what the worker lets go. */
  lemma WorkerLetsGo<T>(e: Engine<T>, ok: bool, realtime: bool)
    requires |e.workers| == 1 && !e.workers[0].Scheduled?
    ensures HeldBy(e.workers[0], realtime)
            == Tasks(Finishes(e, WriteEnds(0, ok), realtime)) + HeldAfter(e.workers[0], ok, realtime)
  {
  }

  lemma WriteEndKeepsRest<T>(e: Engine<T>, ok: bool, realtime: bool)
    requires |e.workers| == 1 && !e.workers[0].Scheduled?
    ensures Remaining(Step(e, WriteEnds(0, ok)), realtime)
            == HeldAfter(e.workers[0], ok, realtime) + Queue(e, realtime)
  {
    if !ok {
      LeftKeepsQueue(e, realtime);
    } else {
      match e.workers[0]
      case WritingRealtime(_) => DrainedKeepsQueue(e, realtime);
      case WritingUrgent(_, next, rest) =>
      case WritingBulk(_, rest) => ServedKeepsBatch(e, rest, realtime);
    }
  }

  lemma WriteEndConserves<T>(e: Engine<T>, ok: bool, realtime: bool)
    requires |e.workers| == 1 && !e.workers[0].Scheduled?
    ensures var ev := WriteEnds(0, ok);
            Remaining(e, realtime) == Tasks(Finishes(e, ev, realtime)) + Remaining(Step(e, ev), realtime)
  {
    WorkerLetsGo(e, ok, realtime);
    WriteEndKeepsRest(e, ok, realtime);
    Regroup(Tasks(Finishes(e, WriteEnds(0, ok), realtime)), HeldAfter(e.workers[0], ok, realtime), Queue(e, realtime));
  }

  lemma Regroup<T>(a: seq<T>, b: seq<T>, c: seq<T>)
    ensures (a + b) + c == a + (b + c)
  {
  }

  /** What the worker still holds of a tier right after its write ends. */
  function HeldAfter<T>(w: Worker<T>, ok: bool, realtime: bool): seq<T> {
    if !ok || realtime then []
    else
      match w
      case WritingUrgent(_, next, rest) => [next] + rest
      case WritingBulk(_, rest) => rest
      case _ => []
  }

  /** Either nothing comes in, and what was there splits into what goes out and what stays; or
      nothing goes out, and what comes in is added. */
  lemma Balance<T>(before: seq<T>, into: seq<T>, out: seq<T>, after: seq<T>)
    requires (into == [] && before == out + after) || (out == [] && after == before + into)
    ensures before + into == out + after
  {
    assert before + [] == before && [] + after == after;
  }

  lemma OtherStepConserves<T>(e: Engine<T>, ev: Event<T>, realtime: bool)
    requires SingleWorker(e) && !(ev.WriteEnds? && Enabled(e, ev))
    ensures Tasks(Finishes(e, ev, realtime)) == []
    ensures Remaining(Step(e, ev), realtime) == Remaining(e, realtime) + Enqueues(ev, realtime)
  {
    if ev.RunScheduled? && Enabled(e, ev) {
      ScheduledConserves(e, realtime);
      assert Remaining(e, realtime) + [] == Remaining(e, realtime);
    } else {
      EnqueueConserves(e, ev, realtime);
    }
  }

  lemma StepConserves<T>(e: Engine<T>, ev: Event<T>, realtime: bool)
    requires SingleWorker(e)
    ensures Remaining(e, realtime) + Enqueues(ev, realtime)
            == Tasks(Finishes(e, ev, realtime)) + Remaining(Step(e, ev), realtime)
  {
    if ev.WriteEnds? && Enabled(e, ev) {
      WriteEndConserves(e, ev.ok, realtime);
    } else {
      OtherStepConserves(e, ev, realtime);
    }
    Balance(Remaining(e, realtime), Enqueues(ev, realtime),
            Tasks(Finishes(e, ev, realtime)), Remaining(Step(e, ev), realtime));
  }

  lemma ScheduledConserves<T>(e: Engine<T>, realtime: bool)
    requires |e.workers| == 1 && e.workers[0].Scheduled?
    ensures Remaining(Step(e, RunScheduled(0)), realtime) == Remaining(e, realtime)
  {
    DrainedKeepsQueue(e, realtime);
  }

  lemma EnqueueConserves<T>(e: Engine<T>, ev: Event<T>, realtime: bool)
    requires SingleWorker(e) && (Enabled(e, ev) ==> !ev.WriteEnds? && !ev.RunScheduled?)
    ensures Remaining(Step(e, ev), realtime) == Remaining(e, realtime) + Enqueues(ev, realtime)
  {
    assert Held(Step(e, ev), realtime) == Held(e, realtime);
    assert Queue(Step(e, ev), realtime) == Queue(e, realtime) + Enqueues(ev, realtime);
  }

  /** For each tier, in every interleaving and with any writes failing: the tasks finished, then
      those in flight and left in the batch, then those queued, are the tasks enqueued, in order. */
  lemma {:induction false} TierIsConserved<T>(e: Engine<T>, es: seq<Event<T>>, realtime: bool)
    requires SingleWorker(e)
    ensures Remaining(e, realtime) + Enqueued(es, realtime)
            == Tasks(Finished(e, es, realtime)) + Remaining(Exec(e, es), realtime)
    decreases es
  {
    if es != [] {
      var t := Step(e, es[0]);
      StepKeepsSingleWorker(e, es[0]);
      StepConserves(e, es[0], realtime);
      TierIsConserved(t, es[1..], realtime);
      TasksConcat(Finishes(e, es[0], realtime), Finished(t, es[1..], realtime));
      Transfer(Remaining(e, realtime), Enqueues(es[0], realtime), Tasks(Finishes(e, es[0], realtime)),
               Remaining(t, realtime), Enqueued(es[1..], realtime), Tasks(Finished(t, es[1..], realtime)),
               Remaining(Exec(t, es[1..]), realtime));
    }
  }

  /** Two conserving steps in a row conserve. */
  lemma Transfer<T>(x: seq<T>, in1: seq<T>, out1: seq<T>, y: seq<T>, in2: seq<T>, out2: seq<T>, z: seq<T>)
    requires x + in1 == out1 + y && y + in2 == out2 + z
    ensures x + (in1 + in2) == (out1 + out2) + z
  {
    calc {
      x + (in1 + in2);
      (x + in1) + in2;
      out1 + (y + in2);
      (out1 + out2) + z;
    }
  }

  lemma TasksConcat<T>(a: seq<Record<T>>, b: seq<Record<T>>)
    ensures Tasks(a + b) == Tasks(a) + Tasks(b)
  {
  }

  ghost predicate NoWriteFails<T>(es: seq<Event<T>>) {
    forall ev <- es :: ev.WriteEnds? ==> ev.ok
  }

  /** A task is lost only by a failing write. */
  lemma {:induction false} WithoutFailuresAllIsWritten<T>(e: Engine<T>, es: seq<Event<T>>, realtime: bool)
    requires NoWriteFails(es)
    ensures forall r <- Finished(e, es, realtime) :: r.outcome == Written
    decreases es
  {
    if es != [] {
      WithoutFailuresAllIsWritten(Step(e, es[0]), es[1..], realtime);
    }
  }

  /** When the engine comes to rest after writes that all succeeded, each tier has
      been written completely and in the order it was enqueued. */
  lemma AtRestAllIsWritten<T>(es: seq<Event<T>>, realtime: bool)
    requires NoWriteFails(es) && !Exec(Idle(), es).isProcessing
    ensures Tasks(Finished(Idle(), es, realtime)) == Enqueued(es, realtime)
    ensures forall r <- Finished(Idle(), es, realtime) :: r.outcome == Written
  {
    AlwaysOneWriter(es);
    TierIsConserved(Idle(), es, realtime);
    assert Remaining<T>(Idle(), realtime) + Enqueued(es, realtime) == Enqueued(es, realtime);
    WithoutFailuresAllIsWritten(Idle(), es, realtime);
  }

  // ------------------------------------------------------------------
  // The worker comes to rest
  // ------------------------------------------------------------------

  /** Tasks enqueued but not finished. */
  function Outstanding<T>(e: Engine<T>): nat {
    |Remaining(e, true)| + |Remaining(e, false)|
  }

  /** The next segment of the only worker; `ok` is how its write ends, if it waits for one. */
  function WorkerSegment<T>(e: Engine<T>, ok: bool): Engine<T> {
    if e.workers == [] then e
    else if e.workers[0].Scheduled? then Step(e, RunScheduled(0))
    else Step(e, WriteEnds(0, ok))
  }

  function WorkerSegments<T>(e: Engine<T>, oks: seq<bool>): Engine<T>
    decreases oks
  {
    if oks == [] then e else WorkerSegments(WorkerSegment(e, oks[0]), oks[1..])
  }

  function Pending<T>(e: Engine<T>): nat {
    2 * Outstanding(e) + if e.workers != [] && e.workers[0].Scheduled? then 1 else 0
  }

  lemma SegmentMakesProgress<T>(e: Engine<T>, ok: bool)
    requires SingleWorker(e) && e.workers != []
    ensures Pending(WorkerSegment(e, ok)) < Pending(e)
  {
    if e.workers[0].Scheduled? {
      DrainedKeepsQueue(e, true);
      DrainedKeepsQueue(e, false);
    } else {
      WriteEndShrinks(e, ok);
    }
  }

  lemma WriteEndShrinks<T>(e: Engine<T>, ok: bool)
    requires |e.workers| == 1 && !e.workers[0].Scheduled?
    ensures Outstanding(Step(e, WriteEnds(0, ok))) < Outstanding(e)
  {
    var ev := WriteEnds(0, ok);
    WriteEndConserves(e, ok, true);
    WriteEndConserves(e, ok, false);
    assert |Finishes(e, ev, true)| + |Finishes(e, ev, false)| > 0;
  }

  /** With nothing new enqueued, the worker drains both tiers and stops within two
      segments a task and one more, however its writes end. */
  lemma {:induction false} WorkerComesToRest<T>(e: Engine<T>, oks: seq<bool>)
    requires SingleWorker(e) && |oks| >= Pending(e)
    ensures WorkerSegments(e, oks) == Idle()
    decreases oks
  {
    if e.workers == [] {
      RestIsStable(e, oks);
    } else {
      StepKeepsSingleWorker(e, RunScheduled(0));
      SegmentKeepsSingleWorker(e, oks[0]);
      SegmentMakesProgress(e, oks[0]);
      WorkerComesToRest(WorkerSegment(e, oks[0]), oks[1..]);
    }
  }

  lemma SegmentKeepsSingleWorker<T>(e: Engine<T>, ok: bool)
    requires SingleWorker(e)
    ensures SingleWorker(WorkerSegment(e, ok))
  {
  }

  lemma {:induction false} RestIsStable<T>(e: Engine<T>, oks: seq<bool>)
    requires SingleWorker(e) && e.workers == []
    ensures WorkerSegments(e, oks) == e == Idle()
    decreases oks
  {
    if oks != [] {
      RestIsStable(e, oks[1..]);
    }
  }

  // ------------------------------------------------------------------
  // Realtime latency
  // ------------------------------------------------------------------

  /** The realtime task whose write an event starts. */
  function Starts<T>(e: Engine<T>, ev: Event<T>): seq<T> {
    if |Step(e, ev).realtime| < |e.realtime| then e.realtime[..1] else []
  }

  function Started<T>(e: Engine<T>, es: seq<Event<T>>): seq<T>
    decreases es
  {
    if es == [] then [] else Starts(e, es[0]) + Started(Step(e, es[0]), es[1..])
  }

  /** Whether an event ends a bulk write. */
  predicate EndsBulkWrite<T>(e: Engine<T>, ev: Event<T>) {
    ev.WriteEnds? && Enabled(e, ev) && e.workers[ev.worker].WritingBulk?
  }

  function BulkWritesEnded<T>(e: Engine<T>, es: seq<Event<T>>): nat
    decreases es
  {
    if es == [] then 0
    else (if EndsBulkWrite(e, es[0]) then 1 else 0) + BulkWritesEnded(Step(e, es[0]), es[1..])
  }

  predicate InBatch<T>(e: Engine<T>) {
    e.workers != [] && (e.workers[0].WritingUrgent? || e.workers[0].WritingBulk?)
  }

  /** Realtime writes start in queue order. */
  lemma {:induction false} StartsAreFifo<T>(e: Engine<T>, es: seq<Event<T>>)
    ensures e.realtime + Enqueued(es, true) == Started(e, es) + Exec(e, es).realtime
    decreases es
  {
    if es != [] {
      var t := Step(e, es[0]);
      StartsTakeTheHead(e, es[0]);
      StartsAreFifo(t, es[1..]);
      Transfer(e.realtime, Enqueues(es[0], true), Starts(e, es[0]),
               t.realtime, Enqueued(es[1..], true), Started(t, es[1..]), Exec(t, es[1..]).realtime);
    }
  }

  lemma StartsTakeTheHead<T>(e: Engine<T>, ev: Event<T>)
    ensures e.realtime + Enqueues(ev, true) == Starts(e, ev) + Step(e, ev).realtime
  {
    assert |e.realtime| > 0 ==> e.realtime == e.realtime[..1] + e.realtime[1..];
  }

  /** With `k` realtime tasks ahead of it, a realtime task that has not started yet has
      seen at most `k + 1` bulk writes end, and none if the worker was not in a batch. */
  lemma {:induction false} WaitsForFewBulkWrites<T>(e: Engine<T>, es: seq<Event<T>>, k: nat)
    requires SingleWorker(e) && k < |e.realtime|
    requires |Started(e, es)| <= k
    ensures BulkWritesEnded(e, es) <= if InBatch(e) then k + 1 else 0
    decreases es
  {
    if es != [] {
      var t := Step(e, es[0]);
      StepKeepsSingleWorker(e, es[0]);
      WaitsForFewBulkWrites(t, es[1..], k - |Starts(e, es[0])|);
    }
  }

  /** A realtime task enqueued behind `k` others has started by the time `k + 2` bulk writes
      have ended, that is, at most `k + 1` end before it starts, wherever in a batch it arrives,
      across batch boundaries, and whatever is enqueued meanwhile. */
  lemma RealtimeLatency<T>(before: seq<Event<T>>, task: T, after: seq<Event<T>>)
    ensures var e := Exec(Idle(), before);
            var k := |e.realtime|;
            var t := Step(e, EnqueueRealtime(task));
            && (BulkWritesEnded(t, after) > k + 1 ==> |Started(t, after)| > k)
            && (|Started(t, after)| > k ==> Started(t, after)[k] == task)
  {
    AlwaysOneWriter(before);
    var e := Exec(Idle(), before);
    var k := |e.realtime|;
    var t := Step(e, EnqueueRealtime(task));
    StepKeepsSingleWorker(e, EnqueueRealtime(task));
    StartsAreFifo(t, after);
    if |Started(t, after)| <= k {
      WaitsForFewBulkWrites(t, after, k);
    } else {
      assert (Started(t, after) + Exec(t, after).realtime)[k] == t.realtime[k];
    }
  }

  /** Whether an event ends a segment of a worker: its wait for the loop or for a write is over. */
  predicate RunsWorker<T>(e: Engine<T>, ev: Event<T>) {
    (ev.RunScheduled? || ev.WriteEnds?) && Enabled(e, ev)
  }

  function SegmentsRun<T>(e: Engine<T>, es: seq<Event<T>>): nat
    decreases es
  {
    if es == [] then 0
    else (if RunsWorker(e, es[0]) then 1 else 0) + SegmentsRun(Step(e, es[0]), es[1..])
  }

  /** How many segments the worker needs at most to start a waiting realtime task. */
  function Delay<T>(e: Engine<T>): nat {
    if e.workers == [] then 0
    else
      match e.workers[0]
      case Scheduled => 1
      case WritingRealtime(_) => 2
      case WritingUrgent(_, _, _) => 3
      case WritingBulk(_, _) => 2
  }

  lemma SegmentStartsOrNears<T>(e: Engine<T>, ev: Event<T>)
    requires SingleWorker(e) && |e.realtime| > 0
    ensures RunsWorker(e, ev) ==> Starts(e, ev) != [] || Delay(Step(e, ev)) < Delay(e)
    ensures !RunsWorker(e, ev) ==> Starts(e, ev) == [] && Delay(Step(e, ev)) == Delay(e)
    ensures |Starts(e, ev)| <= 1 && 1 <= Delay(e)
  {
  }

  lemma {:induction false} WaitsForFewSegments<T>(e: Engine<T>, es: seq<Event<T>>, k: nat)
    requires SingleWorker(e) && k < |e.realtime| && |Started(e, es)| <= k
    ensures SegmentsRun(e, es) < Delay(e) + 3 * k
    decreases es
  {
    SegmentStartsOrNears(e, Event.Tick);
    if es != [] {
      var t := Step(e, es[0]);
      StepKeepsSingleWorker(e, es[0]);
      SegmentStartsOrNears(e, es[0]);
      StartsTakeTheHead(e, es[0]);
      WaitsForFewSegments(t, es[1..], k - |Starts(e, es[0])|);
    }
  }

  /** Liveness: a realtime task enqueued behind `k` others has started after at most `3 * (k + 1)`
      segments of the worker, whatever is enqueued meanwhile and however writes end. */
  lemma RealtimeStarts<T>(before: seq<Event<T>>, task: T, after: seq<Event<T>>)
    ensures var e := Exec(Idle(), before);
            var k := |e.realtime|;
            var t := Step(e, EnqueueRealtime(task));
            SegmentsRun(t, after) >= 3 * (k + 1) ==> |Started(t, after)| > k && Started(t, after)[k] == task
  {
    RealtimeLatency(before, task, after);
    AlwaysOneWriter(before);
    var e := Exec(Idle(), before);
    var t := Step(e, EnqueueRealtime(task));
    StepKeepsSingleWorker(e, EnqueueRealtime(task));
    if |Started(t, after)| <= |e.realtime| {
      WaitsForFewSegments(t, after, |e.realtime|);
    }
  }
}
