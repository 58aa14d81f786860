/** What the protocol guarantees over whole runs, and where the source falls short of it. */
module ProtocolTheorems {
  import opened Records
  import opened Streams
  import opened Protocol
  import opened ProtocolInvariant

  // FIFO: the ids are 1, 2, 3, ... in order, each in exactly one place.

  function Ids(records: seq<Record>): (ids: seq<nat>)
    ensures |ids| == |records| && forall i | 0 <= i < |records| :: ids[i] == records[i].sequence
  {
    seq(|records|, i requires 0 <= i < |records| => records[i].sequence)
  }

  function OneTo(n: nat): (ids: seq<nat>)
    ensures |ids| == n && forall i | 0 <= i < n :: ids[i] == i + 1
  {
    seq(n, i => i + 1)
  }

  /** The record between its dequeue and the raise of the processed counter. */
  function InHand(s: State): seq<Record> {
    if (s.worker.Fanning? || s.worker.Counting?) && s.history.fanOuts != []
    then [s.history.fanOuts[|s.history.fanOuts| - 1].record]
    else InFlight(s.worker)
  }

  /** Whenever no producer holds the queue mutex, the processed records, then the one in the
      worker's hands, then the queued ones are exactly the admitted records, and their ids are
      1, 2, ..., queued. At all times the ring is sound and processed never passes queued. */
  lemma QueueIsFifo(states: seq<State>, steps: seq<Step>, i: nat)
    requires IsRun(states, steps) && i < |states|
    ensures RingIsSound(states[i]) && states[i].processed <= states[i].queued
    ensures states[i].processed <= |states[i].history.fanOuts|
    ensures !states[i].mutex.HeldBy? ==>
              var s := states[i];
              var all := Fanned(s.history.fanOuts[..s.processed]) + InHand(s) + Contents(s.queue);
              all == s.history.admitted && Ids(all) == OneTo(s.queued)
  {
    RunInv(states, steps, i);
    var s := states[i];
    if !s.mutex.HeldBy? {
      assert Unpublished(s) == [];
      if s.worker.Fanning? || s.worker.Counting? {
        assert Fanned(s.history.fanOuts) == Fanned(s.history.fanOuts[..s.processed]) + InHand(s);
      } else {
        assert s.history.fanOuts[..s.processed] == s.history.fanOuts;
      }
      var all := Fanned(s.history.fanOuts[..s.processed]) + InHand(s) + Contents(s.queue);
      assert all == s.history.admitted;
      assert Ids(all) == OneTo(s.queued);
    }
  }

  // Histories only grow.

  lemma StepGrowsHistory(s: State, step: Step)
    requires Inv(s) && Enabled(s, step)
    ensures s.history.admitted <= Next(s, step).history.admitted
    ensures Names(s.streams) <= Names(Next(s, step).streams)
  {
    match step
    case ByProducer(p, call, millis) =>
      ProducerKeepsFrame(s, p, call, millis);
      ProducerAppends(s, p, call, millis);
    case ByWorker(choice) =>
      WorkerKeepsFrame(s, choice);
      WorkerKeepsAdmission(s, choice);
    case SpuriousWake =>
    case ByFlusher(_, _) =>
    case ByControl(order) => ControlKeepsNames(s, order);
  }

  function Names(table: seq<Stream>): (names: seq<string>)
    ensures |names| == |table| && forall i | 0 <= i < |table| :: names[i] == table[i].name
  {
    seq(|table|, i requires 0 <= i < |table| => table[i].name)
  }

  lemma ControlKeepsNames(s: State, order: Order)
    requires ControlCanStep(s, order) && Lifecycle(s)
    ensures Names(s.streams) <= Names(ControlStep(s, order).streams)
    ensures ControlStep(s, order).history.admitted == s.history.admitted
  {
    ControlIsOutsider(s, order);
    match order
    case Start =>
    case Shutdown =>
    case Continue(_) =>
    case AddStream(_, _) =>
    case Configure(_) =>
  }

  lemma ProducerAppends(s: State, p: Thread, call: Call, millis: int64)
    requires ProducersAreSane(s) && p in s.producers
    ensures s.history.admitted <= ProducerStep(s, p, call, millis).history.admitted
  {
    match s.producers[p] { case Idle => case Running(_) => case Contended => case Testing(_) => case Full =>
                           case FullReleased => case Accepted(_) => case Numbered(_) => case Copied =>
                           case Published => case Released => case Returning(_) => }
  }

  /** Along a run nothing admitted is ever taken back, and the stream table is append-only with
      at most eight pairwise distinct names. */
  lemma {:induction false} RunGrowsHistory(states: seq<State>, steps: seq<Step>, i: nat, j: nat)
    requires IsRun(states, steps) && i <= j < |states|
    ensures states[i].history.admitted <= states[j].history.admitted
    ensures Names(states[i].streams) <= Names(states[j].streams) && WellFormed(states[j].streams)
    decreases j
  {
    RunInv(states, steps, j);
    if i < j {
      RunGrowsHistory(states, steps, i, j - 1);
      RunGrowsOnce(states, steps, j - 1);
      PrefixesCompose(states[i].history.admitted, states[j - 1].history.admitted, states[j].history.admitted);
      PrefixesCompose(Names(states[i].streams), Names(states[j - 1].streams), Names(states[j].streams));
    }
  }

  lemma RunGrowsOnce(states: seq<State>, steps: seq<Step>, i: nat)
    requires IsRun(states, steps) && i < |steps|
    ensures states[i].history.admitted <= states[i + 1].history.admitted
    ensures Names(states[i].streams) <= Names(states[i + 1].streams)
  {
    RunInv(states, steps, i);
    assert StepAt(states, steps, i);
    StepGrowsHistory(states[i], steps[i]);
  }

  lemma PrefixesCompose<T>(a: seq<T>, b: seq<T>, c: seq<T>)
    requires a <= b && b <= c
    ensures a <= c
  {
  }

  // Delivery.

  /** Every callback log is the list of passes, in order, filtered by the bounds the stream had at
      each pass, and nothing else; the passes are the admitted records in order. A pass visits the
      streams in the order of registration: while it is in progress, exactly the streams before the
      next one have seen it. */
  lemma DeliveryIsComplete(states: seq<State>, steps: seq<Step>, i: nat, j: nat)
    requires IsRun(states, steps) && i < |states| && j < |states[i].streams|
    ensures var s, h := states[i], states[i].history;
            && |h.logs| == |s.streams|
            && Fanned(h.fanOuts) <= h.admitted
            && (if s.worker.Fanning? && s.worker.next <= j
                then h.fanOuts != []
                     && h.logs[j] == ExpectedLog(h.fanOuts[..|h.fanOuts| - 1], j, s.config.capacities)
                else h.logs[j] == ExpectedLog(h.fanOuts, j, s.config.capacities))
  {
    RunInv(states, steps, i);
    var s := states[i];
    assert s.history.logs[j] == ExpectedLog(Visited(s, j), j, s.config.capacities);
    assert Fanned(s.history.fanOuts) == s.history.admitted[..|s.history.fanOuts|];
  }

  lemma {:induction false} ExpectedLogHasPass(fanOuts: seq<FanOut>, j: nat, caps: Capacities, k: nat)
    requires k < |fanOuts| && j < |fanOuts[k].table| && Accepts(fanOuts[k].table[j], fanOuts[k].record.level)
    ensures Delivery(fanOuts[k].record, LineOf(fanOuts[k], caps)) in ExpectedLog(fanOuts, j, caps)
  {
    if k < |fanOuts| - 1 {
      ExpectedLogHasPass(fanOuts[..|fanOuts| - 1], j, caps, k);
    }
  }

  /** The record has been handed to every stream that was registered and accepting at its pass. */
  ghost predicate Delivered(s: State, record: Record) {
    exists k | 0 <= k < |s.history.fanOuts| ::
      && s.history.fanOuts[k].record == record
      && (forall j | 0 <= j < |s.history.fanOuts[k].table| &&
                     Accepts(s.history.fanOuts[k].table[j], record.level) ::
            && j < |s.history.logs|
            && Delivery(record, LineOf(s.history.fanOuts[k], s.config.capacities)) in s.history.logs[j])
  }

  lemma ProcessedIsDelivered(s: State, k: nat)
    requires Inv(s) && k < s.processed
    ensures k < |s.history.admitted| && Delivered(s, s.history.admitted[k])
  {
    var f := s.history.fanOuts[k];
    assert Fanned(s.history.fanOuts)[k] == f.record;
    forall j | 0 <= j < |f.table| && Accepts(f.table[j], f.record.level)
      ensures j < |s.history.logs| && Delivery(f.record, LineOf(f, s.config.capacities)) in s.history.logs[j]
    {
      var visited := Visited(s, j);
      assert visited[k] == f;
      ExpectedLogHasPass(visited, j, s.config.capacities, k);
    }
  }

  /** A flush that took its snapshot at step i and is about to return OK in state j has waited for
      every record whose number had been taken at the snapshot, including one whose producer had
      not yet raised the count. */
  lemma FlushCoversSnapshot(states: seq<State>, steps: seq<Step>, i: nat, j: nat, f: Thread)
    requires IsRun(states, steps) && i < j < |states| && f in states[i].flushers
    requires states[i].flushers[f].Snapshotting? && steps[i].ByFlusher? && steps[i].thread == f
    requires forall k | i < k < j :: f in states[k].flushers && states[k].flushers[f].Awaiting?
    requires f in states[j].flushers && states[j].flushers[f].Flushed?
    ensures forall record | record in states[i].history.admitted :: Delivered(states[j], record)
  {
    SnapshotIsKept(states, steps, i, j, f);
    RunInv(states, steps, i);
    RunInv(states, steps, j);
    RunGrowsHistory(states, steps, i, j);
    forall record | record in states[i].history.admitted
      ensures Delivered(states[j], record)
    {
      var k :| 0 <= k < |states[i].history.admitted| && states[i].history.admitted[k] == record;
      ProcessedIsDelivered(states[j], k);
    }
  }

  lemma {:induction false} SnapshotIsKept(states: seq<State>, steps: seq<Step>, i: nat, j: nat, f: Thread)
    requires IsRun(states, steps) && i < j < |states| && f in states[i].flushers
    requires states[i].flushers[f].Snapshotting? && steps[i].ByFlusher? && steps[i].thread == f
    requires forall k | i < k < j :: f in states[k].flushers && states[k].flushers[f].Awaiting?
    requires f in states[j].flushers && (states[j].flushers[f].Awaiting? || states[j].flushers[f].Flushed?)
    ensures states[j].flushers[f].target == states[i].queued
    decreases j
  {
    if i + 1 == j {
      assert StepAt(states, steps, i);
    } else {
      SnapshotIsKept(states, steps, i, j - 1, f);
      RunKeepsTarget(states, steps, j - 1, f);
    }
  }

  lemma RunKeepsTarget(states: seq<State>, steps: seq<Step>, i: nat, f: Thread)
    requires IsRun(states, steps) && i < |steps| && f in states[i].flushers && states[i].flushers[f].Awaiting?
    ensures var s' := states[i + 1];
            && f in s'.flushers
            && (s'.flushers[f].Awaiting? || s'.flushers[f].Flushed? ==>
                  s'.flushers[f].target == states[i].flushers[f].target)
  {
    RunInv(states, steps, i);
    assert StepAt(states, steps, i);
    TargetIsKept(states[i], steps[i], f);
  }

  lemma TargetIsKept(s: State, step: Step, f: Thread)
    requires Inv(s) && Enabled(s, step) && f in s.flushers && s.flushers[f].Awaiting?
    ensures var s' := Next(s, step);
            && f in s'.flushers
            && (s'.flushers[f].Awaiting? || s'.flushers[f].Flushed? ==> s'.flushers[f].target == s.flushers[f].target)
  {
    match step
    case ByProducer(p, call, millis) => ProducerKeepsFrame(s, p, call, millis);
    case ByWorker(choice) => WorkerKeepsFrame(s, choice);
    case SpuriousWake =>
    case ByFlusher(_, _) =>
    case ByControl(order) => ControlIsOutsider(s, order);
  }

  // Wakeups.

  /** When every producer has sent its signal and none holds the mutex, a worker blocked on the
      condition has an empty queue. */
  lemma BlockedWorkerMeansEmptyQueue(states: seq<State>, steps: seq<Step>, i: nat)
    requires IsRun(states, steps) && i < |states|
    requires states[i].worker.Parked?
    ensures states[i].queue.count > 0 ==>
              exists p | p in states[i].producers :: OwesSignal(states[i].producers[p])
    ensures (forall p | p in states[i].producers :: states[i].producers[p].Idle?) ==>
              states[i].queue.count == 0
  {
    RunInv(states, steps, i);
  }

  // Draining.

  /** A worker that got its buffers ends only with shutdown requested; when it sees that, the
      queue is empty, nothing is in its hands and everything numbered has been processed. */
  lemma WorkerLeavesDrained(states: seq<State>, steps: seq<Step>, i: nat)
    requires IsRun(states, steps) && i < |states|
    ensures Ending(states[i].worker) ==> states[i].shutdown
    ensures states[i].worker.Leaving? ==>
              var s := states[i];
              && s.queue.count == 0 && s.processed == s.queued
              && Fanned(s.history.fanOuts) == s.history.admitted
  {
    RunInv(states, steps, i);
    var s := states[i];
    if s.worker.Leaving? {
      assert s.mutex.HeldByWorker?;
      assert Fanned(s.history.fanOuts) == s.history.admitted;
    }
  }

  // Accounting.

  /** With no producer inside a call, the statuses returned so far account for the counters. */
  lemma AdmissionIsAccounted(states: seq<State>, steps: seq<Step>, i: nat)
    requires IsRun(states, steps) && i < |states|
    requires forall p | p in states[i].producers :: states[i].producers[p].Idle?
    ensures var s := states[i];
            && s.history.answers[Ok] == s.queued == |s.history.admitted|
            && s.history.answers[Busy] == s.droppedBusy
            && s.history.answers[QueueFull] == s.droppedFull
  {
    RunInv(states, steps, i);
    var s := states[i];
    assert Owing(s.producers, Ok) == {};
    assert Owing(s.producers, Busy) == {};
    assert Owing(s.producers, QueueFull) == {};
  }

  /** The drop totals mirrored by one worker strictly increase and never pass the counter; the
      last look of an ending worker leaves the mirror equal to the counter it read. */
  lemma DropsAreMirrored(states: seq<State>, steps: seq<Step>, i: nat)
    requires IsRun(states, steps) && i < |states|
    ensures var s := states[i];
            && MirrorsTotal(s.history.busyReports, s.lastBusy, s.droppedBusy)
            && MirrorsTotal(s.history.fullReports, s.lastFull, s.droppedFull)
    ensures i < |steps| && steps[i].ByWorker? && states[i].worker.FinalBusy? ==>
              states[i + 1].lastBusy == states[i].droppedBusy == states[i + 1].droppedBusy
    ensures i < |steps| && steps[i].ByWorker? && states[i].worker.FinalFull? ==>
              states[i + 1].lastFull == states[i].droppedFull == states[i + 1].droppedFull
  {
    RunInv(states, steps, i);
    var s := states[i];
    MirroringGrows(s.history.busyReports, s.lastBusy, s.droppedBusy);
    MirroringGrows(s.history.fullReports, s.lastFull, s.droppedFull);
    if i < |steps| {
      assert StepAt(states, steps, i);
    }
  }

  // Producers are wait-free.

  /** How many of its own steps a producer still needs. */
  function Remaining(pc: Producer): nat {
    match pc
    case Idle => 0
    case Returning(_) => 1
    case Contended => 2
    case FullReleased => 2
    case Full => 3
    case Released => 2
    case Published => 3
    case Copied => 4
    case Numbered(_) => 5
    case Accepted(_) => 6
    case Testing(_) => 7
    case Running(_) => 8
  }

  lemma ProducerAdvances(s: State, p: Thread, call: Call, millis: int64)
    requires ProducersAreSane(s) && p in s.producers && !s.producers[p].Idle?
    ensures var s' := ProducerStep(s, p, call, millis);
            p in s'.producers && Remaining(s'.producers[p]) < Remaining(s.producers[p])
  {
  }

  /** The own steps of a producer in a stretch of a run. */
  function OwnSteps(steps: seq<Step>, p: Thread, i: nat, j: nat): nat
    requires i <= j <= |steps|
  {
    if i == j then 0
    else OwnSteps(steps, p, i, j - 1) + if steps[j - 1].ByProducer? && steps[j - 1].thread == p then 1 else 0
  }

  /** One step of the whole system, as one producer sees it. */
  lemma RunMovesProducer(states: seq<State>, steps: seq<Step>, i: nat, p: Thread)
    requires IsRun(states, steps) && i < |steps| && p in states[i].producers
    ensures p in states[i + 1].producers
    ensures var own := steps[i].ByProducer? && steps[i].thread == p;
            && (!own ==> states[i + 1].producers[p] == states[i].producers[p])
            && (own && !states[i].producers[p].Idle? ==>
                  Remaining(states[i + 1].producers[p]) < Remaining(states[i].producers[p]))
  {
    RunInv(states, steps, i);
    assert StepAt(states, steps, i);
    var s := states[i];
    if steps[i].ByProducer? && steps[i].thread == p {
      ProducerMovesMutex(s, p, steps[i].call, steps[i].millis);
      if !s.producers[p].Idle? {
        ProducerAdvances(s, p, steps[i].call, steps[i].millis);
      }
    } else {
      OthersLeaveProducer(s, steps[i], p);
    }
  }

  /** In any run, between two moments of one call its producer has taken at most eight steps, with
      the first one at most nine: after them the call has returned, whatever the other threads do.
      No step of a producer ever waits (ProducerAlwaysSteps). */
  lemma {:induction false} CallsReturn(states: seq<State>, steps: seq<Step>, i: nat, j: nat, p: Thread)
    requires IsRun(states, steps) && i <= j < |states| && p in states[i].producers
    requires forall m | i <= m < j :: p in states[m].producers ==> !states[m].producers[p].Idle?
    ensures p in states[j].producers
    ensures OwnSteps(steps, p, i, j) + Remaining(states[j].producers[p]) <= Remaining(states[i].producers[p]) <= 8
    decreases j
  {
    if i < j {
      CallsReturn(states, steps, i, j - 1, p);
      RunMovesProducer(states, steps, j - 1, p);
    }
  }

  /** Whatever the other threads hold or do, a producer's next step can be taken: the run goes on with it. */
  lemma ProducerAlwaysSteps(states: seq<State>, steps: seq<Step>, p: Thread, call: Call, millis: int64)
    requires IsRun(states, steps) && p in states[|steps|].producers
    ensures exists s' :: IsRun(states + [s'], steps + [ByProducer(p, call, millis)])
  {
    RunsExtend(states, steps, ByProducer(p, call, millis));
  }

  lemma OthersLeaveProducer(s: State, step: Step, p: Thread)
    requires Inv(s) && Enabled(s, step) && p in s.producers && !(step.ByProducer? && step.thread == p)
    ensures p in Next(s, step).producers && Next(s, step).producers[p] == s.producers[p]
  {
    match step
    case ByProducer(q, call, millis) => ProducerMovesMutex(s, q, call, millis);
    case ByWorker(choice) => WorkerKeepsFrame(s, choice);
    case SpuriousWake =>
    case ByFlusher(_, _) =>
    case ByControl(order) => ControlIsOutsider(s, order);
  }
}
