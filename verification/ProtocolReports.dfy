/** When the worker looks at the drop counters: on every turn, before it renders. */
module ProtocolReports {
  import opened Records
  import opened Protocol
  import opened ProtocolInvariant

  /** The worker and the totals it has mirrored. */
  predicate SameWorker(s: State, s': State) {
    s.worker == s'.worker && s.lastBusy == s'.lastBusy && s.lastFull == s'.lastFull
  }

  predicate BetweenLooks(w: Worker) {
    w.ReportFull? || w.Rendering? || w.FinalFull? || w == Exited(true)
  }

  /** At these places only the worker itself moves the worker and its totals. */
  lemma ControlLeavesWorker(s: State, order: Order)
    requires Lifecycle(s) && ControlCanStep(s, order) && BetweenLooks(ControlStep(s, order).worker)
    ensures SameWorker(s, ControlStep(s, order))
  {
    match order
    case Start =>
    case Shutdown =>
    case Continue(_) =>
      match s.control { case Starting => case Created => case Raised => case Signalled => case Joining =>
                        case Joined => case Ready => }
    case AddStream(_, _) =>
    case Configure(_) =>
  }

  lemma {:induction false} OthersLeaveWorker(s: State, step: Step)
    requires Lifecycle(s) && Sane(s) && Enabled(s, step) && !step.ByWorker? && BetweenLooks(Next(s, step).worker)
    ensures SameWorker(s, Next(s, step))
  {
    match step
    case ByProducer(p, call, millis) => ProducerKeepsFrame(s, p, call, millis);
    case SpuriousWake =>
    case ByFlusher(_, _) =>
    case ByControl(order) => ControlLeavesWorker(s, order);
  }

  /** A look at a counter leaves the total it read. */
  lemma BusyLook(s: State, choice: Choice)
    requires MirrorSound(s) && WorkerCanStep(s) && WorkerIsSane(s) && WorkerStep(s, choice).worker.ReportFull?
    ensures s.worker == ReportBusy(WorkerStep(s, choice).worker.item)
    ensures WorkerStep(s, choice).lastBusy == s.droppedBusy
  {
  }

  lemma FullLook(s: State, choice: Choice)
    requires MirrorSound(s) && WorkerCanStep(s) && WorkerIsSane(s) && WorkerStep(s, choice).worker.Rendering?
    ensures s.worker == ReportFull(Some(WorkerStep(s, choice).worker.record))
    ensures WorkerStep(s, choice).lastFull == s.droppedFull && WorkerStep(s, choice).lastBusy == s.lastBusy
  {
  }

  lemma FinalLook(s: State, choice: Choice)
    requires MirrorSound(s) && WorkerCanStep(s) && WorkerIsSane(s)
    ensures WorkerStep(s, choice).worker.FinalFull? ==>
              s.worker.FinalBusy? && WorkerStep(s, choice).lastBusy == s.droppedBusy
    ensures WorkerStep(s, choice).worker == Exited(true) ==>
              && s.worker.FinalFull?
              && WorkerStep(s, choice).lastFull == s.droppedFull && WorkerStep(s, choice).lastBusy == s.lastBusy
  {
  }

  predicate MirrorSound(s: State) {
    s.lastBusy <= s.droppedBusy && s.lastFull <= s.droppedFull
  }

  /** How the worker comes to stand where it does. */
  lemma {:induction false} LookAt(states: seq<State>, steps: seq<Step>, i: nat)
    requires IsRun(states, steps) && i < |steps| && BetweenLooks(states[i + 1].worker)
    ensures !steps[i].ByWorker? ==> SameWorker(states[i], states[i + 1])
    ensures steps[i].ByWorker? && states[i + 1].worker.ReportFull? ==>
              && states[i].worker == ReportBusy(states[i + 1].worker.item)
              && states[i + 1].lastBusy == states[i].droppedBusy
    ensures steps[i].ByWorker? && states[i + 1].worker.Rendering? ==>
              && states[i].worker == ReportFull(Some(states[i + 1].worker.record))
              && states[i + 1].lastFull == states[i].droppedFull && states[i + 1].lastBusy == states[i].lastBusy
    ensures steps[i].ByWorker? && states[i + 1].worker.FinalFull? ==>
              states[i].worker.FinalBusy? && states[i + 1].lastBusy == states[i].droppedBusy
    ensures steps[i].ByWorker? && states[i + 1].worker == Exited(true) ==>
              && states[i].worker.FinalFull?
              && states[i + 1].lastFull == states[i].droppedFull && states[i + 1].lastBusy == states[i].lastBusy
  {
    RunInv(states, steps, i);
    assert StepAt(states, steps, i);
    if steps[i].ByWorker? {
      FinalLook(states[i], steps[i].choice);
      if states[i + 1].worker.ReportFull? {
        BusyLook(states[i], steps[i].choice);
      } else if states[i + 1].worker.Rendering? {
        FullLook(states[i], steps[i].choice);
      }
    } else {
      OthersLeaveWorker(states[i], steps[i]);
    }
  }

  lemma NotAtFirst(states: seq<State>, steps: seq<Step>)
    requires IsRun(states, steps)
    ensures !BetweenLooks(states[0].worker)
  {
  }

  lemma {:induction false} BusyWasRead(states: seq<State>, steps: seq<Step>, j: nat) returns (k: nat)
    requires IsRun(states, steps) && j < |states| && states[j].worker.ReportFull?
    ensures k < j && steps[k].ByWorker? && states[k].worker == ReportBusy(states[j].worker.item)
    ensures states[j].lastBusy == states[k].droppedBusy
    ensures forall l | k < l <= j :: states[l].worker == states[j].worker
  {
    NotAtFirst(states, steps);
    LookAt(states, steps, j - 1);
    k := j - 1;
    if !steps[j - 1].ByWorker? {
      k := BusyWasRead(states, steps, j - 1);
    }
  }

  /** Before every pass, and after the dequeue of its record, the worker reads both drop counters; what it
      has mirrored by then are the totals it read there. */
  lemma {:induction false} PassFollowsLooks(states: seq<State>, steps: seq<Step>, j: nat) returns (k: nat, l: nat)
    requires IsRun(states, steps) && j < |states| && states[j].worker.Rendering?
    ensures k < l < j && steps[k].ByWorker? && steps[l].ByWorker?
    ensures states[k].worker == ReportBusy(Some(states[j].worker.record))
    ensures states[j].lastBusy == states[k].droppedBusy && states[j].lastFull == states[l].droppedFull
    ensures forall m | k < m <= l :: states[m].worker == ReportFull(Some(states[j].worker.record))
    ensures forall m | l < m <= j :: states[m].worker == states[j].worker
  {
    NotAtFirst(states, steps);
    LookAt(states, steps, j - 1);
    if steps[j - 1].ByWorker? {
      k := BusyWasRead(states, steps, j - 1);
      l := j - 1;
    } else {
      k, l := PassFollowsLooks(states, steps, j - 1);
    }
  }

  lemma {:induction false} FinalBusyWasRead(states: seq<State>, steps: seq<Step>, j: nat) returns (k: nat)
    requires IsRun(states, steps) && j < |states| && states[j].worker.FinalFull?
    ensures k < j && steps[k].ByWorker? && states[k].worker.FinalBusy?
    ensures states[j].lastBusy == states[k].droppedBusy
    ensures forall l | k < l <= j :: states[l].worker.FinalFull?
  {
    NotAtFirst(states, steps);
    LookAt(states, steps, j - 1);
    k := j - 1;
    if !steps[j - 1].ByWorker? {
      k := FinalBusyWasRead(states, steps, j - 1);
    }
  }

  /** A worker that has drained the queue reads both counters once more before it ends. */
  lemma {:induction false} EndFollowsLooks(states: seq<State>, steps: seq<Step>, j: nat) returns (k: nat, l: nat)
    requires IsRun(states, steps) && j < |states| && states[j].worker == Exited(true)
    ensures k < l < j && steps[k].ByWorker? && steps[l].ByWorker?
    ensures states[k].worker.FinalBusy? && states[l].worker.FinalFull?
    ensures states[j].lastBusy == states[k].droppedBusy && states[j].lastFull == states[l].droppedFull
    ensures forall m | l < m <= j :: states[m].worker == Exited(true)
  {
    NotAtFirst(states, steps);
    LookAt(states, steps, j - 1);
    if steps[j - 1].ByWorker? {
      k := FinalBusyWasRead(states, steps, j - 1);
      l := j - 1;
    } else {
      k, l := EndFollowsLooks(states, steps, j - 1);
    }
  }
}
