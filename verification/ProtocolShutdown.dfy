/** Shutdown over whole runs: when the worker wakes, when it ends, and what it leaves behind. */
module ProtocolShutdown {
  import opened Records
  import opened Protocol
  import opened ProtocolInvariant
  import opened ProtocolTheorems

  // The shutdown signal.

  /** The step takes a blocked worker out of its wait. */
  predicate Wakes(s: State, step: Step) {
    && s.worker.Parked?
    && match step
       case ByProducer(p, _, _) => p in s.producers && s.producers[p].Released?
       case SpuriousWake => true
       case ByControl(order) => order.Continue? && s.control.Raised?
       case _ => false
  }

  lemma StepKeepsSleep(s: State, step: Step)
    requires Inv(s) && Enabled(s, step) && s.shutdown && Next(s, step).shutdown
    ensures GoingToSleep(Next(s, step).worker) <==> GoingToSleep(s.worker) && !Wakes(s, step)
  {
    match step
    case ByProducer(p, call, millis) => ProducerMovesMutex(s, p, call, millis);
    case ByWorker(choice) => WorkerKeepsSleep(s, choice);
    case SpuriousWake =>
    case ByFlusher(_, _) =>
    case ByControl(order) => ControlKeepsSleep(s, order);
  }

  lemma ControlKeepsSleep(s: State, order: Order)
    requires ControlCanStep(s, order) && Lifecycle(s) && s.shutdown && ControlStep(s, order).shutdown
    ensures GoingToSleep(ControlStep(s, order).worker) <==> GoingToSleep(s.worker) && !Wakes(s, ByControl(order))
  {
    if order.Continue? {
      match s.control { case Starting => case Created => case Raised => case Signalled => case Joining =>
                        case Joined => }
    }
  }

  lemma SignalFindsWorker(s: State, order: Order)
    requires ControlCanStep(s, order) && order.Continue? && s.control.Raised?
    ensures GoingToSleep(ControlStep(s, order).worker) <==> s.worker.Parking?
  {
  }

  ghost predicate NothingWakes(states: seq<State>, steps: seq<Step>, k: nat, i: nat) {
    forall m | k < m < i && m < |states| && m < |steps| :: !Wakes(states[m], steps[m])
  }

  /** The shutdown signal is sent at step k. From then on, for as long as shutdown stays requested,
      the worker is asleep exactly if the signal found it between its test and its wait and nothing
      has woken it since. */
  lemma {:induction false} ShutdownSleepsIff(states: seq<State>, steps: seq<Step>, k: nat, i: nat)
    requires IsRun(states, steps) && k < i < |states|
    requires states[k].control.Raised? && steps[k].ByControl? && steps[k].order.Continue?
    requires forall m | k <= m <= i :: states[m].shutdown
    ensures GoingToSleep(states[i].worker) <==> states[k].worker.Parking? && NothingWakes(states, steps, k, i)
    decreases i
  {
    if k == i - 1 {
      assert StepAt(states, steps, k);
      SignalFindsWorker(states[k], steps[k].order);
    } else {
      ShutdownSleepsIff(states, steps, k, i - 1);
      RunKeepsSleep(states, steps, i - 1);
    }
  }

  lemma RunKeepsSleep(states: seq<State>, steps: seq<Step>, i: nat)
    requires IsRun(states, steps) && i < |steps| && states[i].shutdown && states[i + 1].shutdown
    ensures GoingToSleep(states[i + 1].worker) <==> GoingToSleep(states[i].worker) && !Wakes(states[i], steps[i])
  {
    RunInv(states, steps, i);
    assert StepAt(states, steps, i);
    StepKeepsSleep(states[i], steps[i]);
  }

  // Closing down: what is in the queue.

  /** The producer is past its check of the flag and may still add a record. */
  predicate Committed(pc: Producer) {
    pc.Running? || pc.Testing? || pc.Accepted? || pc.Numbered? || pc.Copied?
  }

  ghost predicate NoneCommitted(s: State) {
    forall p | p in s.producers :: !Committed(s.producers[p])
  }

  /** Shutdown is requested, no producer is past its check, and an ending worker left nothing. */
  ghost predicate Closing(s: State) {
    s.shutdown && NoneCommitted(s) && (Ending(s.worker) ==> s.queue.count == 0)
  }

  /** Once no producer is committed, none will be, and the queue only shrinks. */
  lemma ProducerStaysUncommitted(s: State, p: Thread, call: Call, millis: int64)
    requires ProducersAreSane(s) && p in s.producers && s.shutdown && NoneCommitted(s)
    ensures var s' := ProducerStep(s, p, call, millis);
            NoneCommitted(s') && s'.queue.count == s.queue.count && s'.queued == s.queued
  {
    TouchedQueue(s, p, millis);
    ProducerCounts(s, p, call, millis);
    assert !Committed(NextPc(s, p, call, millis));
  }

  lemma StepKeepsClosing(s: State, step: Step)
    requires Inv(s) && Enabled(s, step) && Closing(s) && Next(s, step).shutdown
    ensures Closing(Next(s, step))
    ensures Next(s, step).queue.count <= s.queue.count && Next(s, step).queued == s.queued
  {
    match step
    case ByProducer(p, call, millis) =>
      ProducerStaysUncommitted(s, p, call, millis);
      ProducerMovesMutex(s, p, call, millis);
    case ByWorker(choice) =>
      WorkerKeepsFrame(s, choice);
      WorkerMovesQueue(s, choice);
      WorkerEndsEmpty(s, choice);
    case SpuriousWake =>
    case ByFlusher(_, _) =>
    case ByControl(order) => ControlIsOutsider(s, order);
  }

  lemma WorkerEndsEmpty(s: State, choice: Choice)
    requires WorkerCanStep(s) && WorkerIsSane(s)
    ensures Ending(WorkerStep(s, choice).worker) ==> Ending(s.worker) || (s.worker.Taking? && s.queue.count == 0)
  {
  }

  /** If at some moment shutdown is requested and no producer is past its check, then as soon as a
      worker that got its buffers has ended, the queue is empty and stays so, whatever the other
      threads do, until the logger is started again. */
  lemma {:induction false} ClosingQueueEmpties(states: seq<State>, steps: seq<Step>, k: nat, i: nat)
    requires IsRun(states, steps) && k <= i < |states| && Closing(states[k])
    requires forall m | k <= m <= i :: states[m].shutdown
    ensures Closing(states[i]) && states[i].queue.count <= states[k].queue.count
    ensures states[i].queued == states[k].queued
    ensures (exists m | k <= m <= i :: Ending(states[m].worker)) ==> states[i].queue.count == 0
    decreases i
  {
    if k < i {
      ClosingQueueEmpties(states, steps, k, i - 1);
      RunKeepsClosing(states, steps, i - 1);
    }
  }

  lemma RunKeepsClosing(states: seq<State>, steps: seq<Step>, i: nat)
    requires IsRun(states, steps) && i < |steps| && Closing(states[i]) && states[i + 1].shutdown
    ensures Closing(states[i + 1])
    ensures states[i + 1].queue.count <= states[i].queue.count && states[i + 1].queued == states[i].queued
  {
    RunInv(states, steps, i);
    assert StepAt(states, steps, i);
    StepKeepsClosing(states[i], steps[i]);
  }

  /** As the caller sees it: shutdown() is called when no enqueue call is past its check. */
  lemma QuietShutdownEmpties(states: seq<State>, steps: seq<Step>, k: nat, i: nat)
    requires IsRun(states, steps) && k < i < |states| && steps[k] == ByControl(Shutdown)
    requires NoneCommitted(states[k]) && !Ending(states[k].worker)
    requires forall m | k < m <= i :: states[m].shutdown
    requires exists m | k < m <= i :: Ending(states[m].worker)
    ensures states[i].queue.count == 0
  {
    assert StepAt(states, steps, k);
    ClosingQueueEmpties(states, steps, k + 1, i);
  }

  // What a worker that is gone leaves behind, whatever the producers do.

  predicate Gone(w: Worker) {
    Ending(w) || w.Exited? || w.Absent?
  }

  predicate TakesNumber(s: State, step: Step) {
    step.ByProducer? && step.thread in s.producers && s.producers[step.thread].Accepted?
  }

  function Taken(states: seq<State>, steps: seq<Step>, k: nat, i: nat): (n: nat)
    requires k <= i <= |steps| && i <= |states|
    ensures n == 0 <==> forall m | k <= m < i :: !TakesNumber(states[m], steps[m])
  {
    if k == i then 0 else Taken(states, steps, k, i - 1) + OneIf(TakesNumber(states[i - 1], steps[i - 1]))
  }

  function OneIf(b: bool): nat {
    if b then 1 else 0
  }

  lemma GoneStep(s: State, step: Step)
    requires Inv(s) && Enabled(s, step) && Gone(s.worker) && Gone(Next(s, step).worker)
    ensures Next(s, step).processed == s.processed
    ensures Next(s, step).queued == s.queued + OneIf(TakesNumber(s, step))
  {
    match step
    case ByProducer(p, call, millis) =>
      ProducerKeepsFrame(s, p, call, millis);
      ProducerCounts(s, p, call, millis);
    case ByWorker(choice) => WorkerKeepsFrame(s, choice);
    case SpuriousWake =>
    case ByFlusher(_, _) =>
    case ByControl(order) => ControlIsOutsider(s, order);
  }

  /** While the worker is gone nothing is processed, and queued counts the numbers taken. */
  lemma {:induction false} GoneWorkerBacklog(states: seq<State>, steps: seq<Step>, k: nat, i: nat)
    requires IsRun(states, steps) && k <= i < |states|
    requires forall m | k <= m <= i :: Gone(states[m].worker)
    ensures states[i].processed == states[k].processed
    ensures states[i].queued == states[k].queued + Taken(states, steps, k, i)
    decreases i
  {
    if k < i {
      GoneWorkerBacklog(states, steps, k, i - 1);
      RunCountsTaken(states, steps, i - 1);
    }
  }

  lemma RunCountsTaken(states: seq<State>, steps: seq<Step>, i: nat)
    requires IsRun(states, steps) && i < |steps| && Gone(states[i].worker) && Gone(states[i + 1].worker)
    ensures states[i + 1].processed == states[i].processed
    ensures states[i + 1].queued == states[i].queued + OneIf(TakesNumber(states[i], steps[i]))
  {
    RunInv(states, steps, i);
    assert StepAt(states, steps, i);
    GoneStep(states[i], steps[i]);
  }

  lemma GoneWorkerQueue(states: seq<State>, steps: seq<Step>, i: nat)
    requires IsRun(states, steps) && i < |states| && Gone(states[i].worker) && states[i].mutex.Free?
    ensures states[i].queue.count == states[i].queued - states[i].processed
  {
    RunInv(states, steps, i);
    var s := states[i];
    assert |s.history.admitted| == |Fanned(s.history.fanOuts)| + |Contents(s.queue)|;
  }

  /** The worker decides to leave at step k. While no new one is started, the queue is empty (with no
      producer in the lock) if and only if no sequence number has been taken after that step. */
  lemma DrainedQueueIsEmptyIff(states: seq<State>, steps: seq<Step>, k: nat, i: nat)
    requires IsRun(states, steps) && k < i < |states|
    requires steps[k].ByWorker? && !states[k].worker.Leaving? && states[k + 1].worker.Leaving?
    requires forall m | k < m <= i :: Gone(states[m].worker)
    requires states[i].mutex.Free?
    ensures states[i].queue.count == Taken(states, steps, k + 1, i)
    ensures states[i].queue.count == 0 <==> forall m | k < m < i :: !TakesNumber(states[m], steps[m])
  {
    WorkerLeavesDrained(states, steps, k + 1);
    GoneWorkerBacklog(states, steps, k + 1, i);
    GoneWorkerQueue(states, steps, i);
  }

  /** The worker fails to get its buffers at step k and drains nothing: the queue is empty if and only
      if everything taken so far had been processed and no number has been taken since. */
  lemma UndrainedQueueIsEmptyIff(states: seq<State>, steps: seq<Step>, k: nat, i: nat)
    requires IsRun(states, steps) && k < i < |states|
    requires steps[k].ByWorker? && states[k].worker.Spawned? && states[k + 1].worker == Exited(false)
    requires forall m | k < m <= i :: Gone(states[m].worker)
    requires states[i].mutex.Free?
    ensures states[i].queue.count == states[k].queued - states[k].processed + Taken(states, steps, k + 1, i)
    ensures states[i].queue.count == 0 <==>
            && states[k].queued == states[k].processed
            && forall m | k < m < i :: !TakesNumber(states[m], steps[m])
  {
    assert StepAt(states, steps, k);
    FailingKeepsCounters(states[k], steps[k].choice);
    GoneWorkerBacklog(states, steps, k + 1, i);
    QueueIsFifo(states, steps, k);
    GoneWorkerQueue(states, steps, i);
  }

  lemma FailingKeepsCounters(s: State, choice: Choice)
    requires WorkerCanStep(s) && WorkerIsSane(s) && s.worker.Spawned?
    ensures WorkerStep(s, choice).queued == s.queued && WorkerStep(s, choice).processed == s.processed
  {
  }
}
