/** Draining after shutdown: it ends, and it processes exactly the backlog. */
module ProtocolDrain {
  import opened Streams
  import opened Protocol
  import opened ProtocolInvariant
  import opened ProtocolTheorems
  import opened ProtocolShutdown

  // A measure that every step of an awake worker lowers after shutdown.

  /** Steps to the top of the loop or, with an empty queue, to the end of the thread. */
  function Distance(w: Worker): nat {
    match w
    case Absent => 0
    case Exited(_) => 0
    case FinalFull => 1
    case FinalBusy => 2
    case Leaving => 3
    case Taking => 4
    case Checking => 5
    case Seeking => 6
    case Woken => 6
    case Parked => 7
    case Parking => 8
    case Spawned => 7
    case Counting => 7
    case Fanning(next) => if next <= MAX_STREAMS then MAX_STREAMS - next + 8 else 8
    case Rendering(_) => MAX_STREAMS + 9
    case ReportFull(_) => MAX_STREAMS + 10
    case ReportBusy(_) => MAX_STREAMS + 11
    case Dequeued(_) => MAX_STREAMS + 12
  }

  function Rank(s: State): nat {
    s.queue.count * (MAX_STREAMS + 9) + Distance(s.worker)
  }

  lemma AwakeWorkerDescends(s: State, choice: Choice)
    requires WorkerCanStep(s) && WorkerIsSane(s) && s.shutdown && !GoingToSleep(s.worker)
    requires |s.streams| <= MAX_STREAMS
    ensures Rank(WorkerStep(s, choice)) < Rank(s)
  {
    WorkerKeepsFrame(s, choice);
    WorkerMovesQueue(s, choice);
  }

  /** A worker that is neither asleep nor joined. */
  predicate Awake(w: Worker) {
    !w.Absent? && !GoingToSleep(w)
  }

  /** It has passed the allocation of its buffers. */
  predicate HasBuffers(w: Worker) {
    !w.Spawned? && (w.Exited? ==> w.drained)
  }

  lemma AwakeWorkerStaysAwake(s: State, choice: Choice)
    requires WorkerCanStep(s) && WorkerIsSane(s) && s.shutdown && Awake(s.worker)
    ensures Awake(WorkerStep(s, choice).worker)
    ensures HasBuffers(s.worker) ==> HasBuffers(WorkerStep(s, choice).worker)
  {
  }

  lemma BacklogBalance(s: State)
    requires Inv(s) && NoneCommitted(s)
    ensures s.queued - s.processed == s.queue.count + |InHand(s)|
  {
    assert Unpublished(s) == [];
    assert |s.history.admitted| ==
           |Fanned(s.history.fanOuts)| + |InFlight(s.worker)| + |Contents(s.queue)| + |Unpublished(s)|;
  }

  // Draining in any interleaving.

  lemma OthersKeepRank(s: State, step: Step)
    requires Inv(s) && Enabled(s, step) && !step.ByWorker? && Closing(s) && Next(s, step).shutdown
    requires Awake(s.worker) || s.worker.Absent?
    ensures var s' := Next(s, step);
            && (s'.worker == s.worker || (s.worker.Exited? && s'.worker.Absent?))
            && Rank(s') <= Rank(s) && s'.processed == s.processed
  {
    StepKeepsClosing(s, step);
    match step
    case ByProducer(p, call, millis) =>
      ProducerMovesMutex(s, p, call, millis);
      ProducerKeepsFrame(s, p, call, millis);
    case SpuriousWake =>
    case ByFlusher(_, _) =>
    case ByControl(order) =>
      ControlIsOutsider(s, order);
      ControlKeepsAwake(s, order);
  }

  lemma ControlKeepsAwake(s: State, order: Order)
    requires ControlCanStep(s, order) && Lifecycle(s) && s.shutdown && ControlStep(s, order).shutdown
    requires !GoingToSleep(s.worker)
    ensures var w := ControlStep(s, order).worker; w == s.worker || (s.worker.Exited? && w.Absent?)
  {
    if order.Continue? {
      match s.control { case Starting => case Created => case Raised => case Signalled => case Joining =>
                        case Joined => }
    }
  }

  function WorkerSteps(steps: seq<Step>, k: nat, i: nat): nat
    requires k <= i <= |steps|
  {
    if k == i then 0 else WorkerSteps(steps, k, i - 1) + if steps[i - 1].ByWorker? then 1 else 0
  }

  lemma RunDescends(states: seq<State>, steps: seq<Step>, i: nat)
    requires IsRun(states, steps) && i < |steps| && Closing(states[i]) && states[i + 1].shutdown
    requires Awake(states[i].worker) || states[i].worker.Absent?
    ensures var w, w' := states[i].worker, states[i + 1].worker;
            && (Awake(w') || w'.Absent?) && (w.Absent? ==> w'.Absent?) && (w'.Absent? ==> w.Absent? || w.Exited?)
            && (HasBuffers(w) ==> HasBuffers(w'))
    ensures Rank(states[i + 1]) + (if steps[i].ByWorker? then 1 else 0) <= Rank(states[i])
  {
    RunInv(states, steps, i);
    assert StepAt(states, steps, i);
    var s := states[i];
    if steps[i].ByWorker? {
      AwakeWorkerDescends(s, steps[i].choice);
      AwakeWorkerStaysAwake(s, steps[i].choice);
    } else {
      OthersKeepRank(s, steps[i]);
    }
  }

  /** Draining ends in every interleaving: once shutdown is requested, no producer is past its check
      and the worker is awake, the worker takes at most Rank steps, whatever the others do. */
  lemma {:induction false} DrainIsBounded(states: seq<State>, steps: seq<Step>, k: nat, i: nat)
    requires IsRun(states, steps) && k <= i < |states| && Closing(states[k]) && Awake(states[k].worker)
    requires forall m | k <= m <= i :: states[m].shutdown
    ensures Closing(states[i]) && states[i].queued == states[k].queued
    ensures Awake(states[i].worker) || states[i].worker.Absent?
    ensures HasBuffers(states[k].worker) ==> HasBuffers(states[i].worker)
    ensures WorkerSteps(steps, k, i) + Rank(states[i]) <= Rank(states[k])
    decreases i
  {
    if k < i {
      DrainIsBounded(states, steps, k, i - 1);
      RunDescends(states, steps, i - 1);
      RunKeepsClosing(states, steps, i - 1);
    }
  }

  /** And it processes exactly the backlog: when the worker has returned, the queue is empty,
      everything numbered is processed, and that was the queued records and the one in its hands. */
  lemma DrainProcessesBacklog(states: seq<State>, steps: seq<Step>, k: nat, i: nat)
    requires IsRun(states, steps) && k <= i < |states| && Closing(states[k]) && Awake(states[k].worker)
    requires HasBuffers(states[k].worker)
    requires forall m | k <= m <= i :: states[m].shutdown
    requires states[i].worker.Exited?
    ensures states[i].worker.drained && states[i].queue.count == 0
    ensures states[i].processed == states[i].queued == states[k].queued
    ensures states[i].processed - states[k].processed == states[k].queue.count + |InHand(states[k])|
  {
    DrainIsBounded(states, steps, k, i);
    RunInv(states, steps, k);
    RunInv(states, steps, i);
    BacklogBalance(states[k]);
    BacklogBalance(states[i]);
  }

  /** Until then it never waits for anything but a producer inside the queue lock, which never waits
      itself (ProtocolTheorems.CallsReturn). */
  lemma AwakeWorkerWaitsForProducer(states: seq<State>, steps: seq<Step>, i: nat)
    requires IsRun(states, steps) && i < |states|
    requires Awake(states[i].worker) && !states[i].worker.Exited? && !WorkerCanStep(states[i])
    ensures states[i].mutex.HeldBy? && states[i].mutex.producer in states[i].producers
    ensures ProducerHolds(states[i].producers[states[i].mutex.producer])
  {
    RunInv(states, steps, i);
  }

  // The promise of shutdown.

  lemma EndedStep(s: State, step: Step)
    requires Inv(s) && Enabled(s, step) && s.shutdown && Next(s, step).shutdown
    requires Ending(s.worker) || s.worker.Absent?
    ensures Ending(Next(s, step).worker) || Next(s, step).worker.Absent?
  {
    match step
    case ByProducer(p, call, millis) => ProducerMovesMutex(s, p, call, millis);
    case ByWorker(choice) =>
    case SpuriousWake =>
    case ByFlusher(_, _) =>
    case ByControl(order) => ControlKeepsAwake(s, order);
  }

  lemma RunKeepsEnded(states: seq<State>, steps: seq<Step>, i: nat)
    requires IsRun(states, steps) && i < |steps| && states[i].shutdown && states[i + 1].shutdown
    requires Ending(states[i].worker) || states[i].worker.Absent?
    ensures Ending(states[i + 1].worker) || states[i + 1].worker.Absent?
  {
    RunInv(states, steps, i);
    assert StepAt(states, steps, i);
    EndedStep(states[i], steps[i]);
  }

  lemma {:induction false} EndedStays(states: seq<State>, steps: seq<Step>, m: nat, i: nat)
    requires IsRun(states, steps) && m <= i < |states| && Ending(states[m].worker)
    requires forall k | m <= k <= i :: states[k].shutdown
    ensures Ending(states[i].worker) || states[i].worker.Absent?
    decreases i
  {
    if m < i {
      EndedStays(states, steps, m, i - 1);
      RunKeepsEnded(states, steps, i - 1);
    }
  }

  /** shutdown() drains everything if it is called when no enqueue call is past its check: once a worker
      that got its buffers has ended, every record ever numbered has been processed and handed to every
      stream that was registered and accepting at its pass. */
  lemma QuietShutdownDelivers(states: seq<State>, steps: seq<Step>, k: nat, i: nat)
    requires IsRun(states, steps) && k < i < |states| && steps[k] == ByControl(Shutdown)
    requires NoneCommitted(states[k]) && !Ending(states[k].worker)
    requires forall m | k < m <= i :: states[m].shutdown
    requires exists m | k < m <= i :: Ending(states[m].worker)
    ensures states[i].queue.count == 0 && states[i].processed == states[i].queued == |states[i].history.admitted|
    ensures forall record | record in states[i].history.admitted :: Delivered(states[i], record)
  {
    QuietShutdownEmpties(states, steps, k, i);
    var m :| k < m <= i && Ending(states[m].worker);
    EndedStays(states, steps, m, i);
    assert StepAt(states, steps, k);
    ClosingQueueEmpties(states, steps, k + 1, i);
    RunInv(states, steps, i);
    EverythingDelivered(states[i]);
  }

  lemma EverythingDelivered(s: State)
    requires Inv(s) && NoneCommitted(s) && s.queue.count == 0 && (Ending(s.worker) || s.worker.Absent?)
    ensures s.processed == s.queued == |s.history.admitted|
    ensures forall record | record in s.history.admitted :: Delivered(s, record)
  {
    BacklogBalance(s);
    forall record | record in s.history.admitted
      ensures Delivered(s, record)
    {
      var k :| 0 <= k < |s.history.admitted| && s.history.admitted[k] == record;
      ProcessedIsDelivered(s, k);
    }
  }
}
