/** What a flush promises, from the step that enters it to the one before it returns. */
module ProtocolFlush {
  import opened Records
  import opened Protocol
  import opened ProtocolInvariant
  import opened ProtocolTheorems

  predicate IsFlushStep(step: Step, f: Thread) {
    step.ByFlusher? && step.thread == f
  }

  /** Only its own steps move a flusher. */
  lemma RunMovesFlusher(states: seq<State>, steps: seq<Step>, m: nat, f: Thread)
    requires IsRun(states, steps) && m < |steps| && f in states[m].flushers
    ensures f in states[m + 1].flushers
    ensures states[m + 1].flushers[f] ==
            if IsFlushStep(steps[m], f) then NextFlusher(states[m], f, steps[m].giveUp) else states[m].flushers[f]
  {
    RunInv(states, steps, m);
    assert StepAt(states, steps, m);
    match steps[m]
    case ByProducer(p, call, millis) => ProducerKeepsFrame(states[m], p, call, millis);
    case ByWorker(choice) => WorkerKeepsFrame(states[m], choice);
    case SpuriousWake =>
    case ByFlusher(_, _) =>
    case ByControl(order) => ControlIsOutsider(states[m], order);
  }

  lemma RunCountsUp(states: seq<State>, steps: seq<Step>, i: nat, j: nat)
    requires IsRun(states, steps) && i <= j < |states|
    ensures states[i].queued <= states[j].queued
  {
    RunInv(states, steps, i);
    RunInv(states, steps, j);
    RunGrowsHistory(states, steps, i, j);
  }

  /** The flush that f enters at step i is still going on in state j. */
  ghost predicate IsFlush(states: seq<State>, steps: seq<Step>, i: nat, j: nat, f: Thread) {
    && IsRun(states, steps) && i < j < |states|
    && f in states[i].flushers && states[i].flushers[f].Resting? && IsFlushStep(steps[i], f)
    && forall k | i < k <= j :: f in states[k].flushers && !states[k].flushers[f].Resting?
  }

  /** Where a flush of a running logger can be. */
  predicate OnStartedPath(pc: Flusher, queued: nat) {
    match pc
    case Snapshotting => true
    case Awaiting(target) => queued <= target
    case Flushed(target) => queued <= target
    case FlushFailed(status) => status == InternalError
    case _ => false
  }

  lemma {:induction false} StartedFlushPath(states: seq<State>, steps: seq<Step>, i: nat, j: nat, f: Thread)
    requires IsFlush(states, steps, i, j, f) && states[i].started
    ensures OnStartedPath(states[j].flushers[f], states[i].queued)
    decreases j
  {
    RunMovesFlusher(states, steps, j - 1, f);
    if i < j - 1 {
      StartedFlushPath(states, steps, i, j - 1, f);
      RunCountsUp(states, steps, i, j - 1);
    }
  }

  /** A flush that is entered while the logger runs returns OK only after every record numbered before
      its entry, published or not, has been handed to every accepting stream; the only other answer is
      that it timed out. It never takes an empty queue for an answer. */
  lemma FlushDelivers(states: seq<State>, steps: seq<Step>, i: nat, j: nat, f: Thread)
    requires IsFlush(states, steps, i, j, f) && states[i].started
    ensures !states[j].flushers[f].ReadingCount? && !states[j].flushers[f].FlushedIdle?
    ensures states[j].flushers[f].FlushFailed? ==> states[j].flushers[f].status == InternalError
    ensures states[j].flushers[f].Flushed? ==>
              forall record | record in states[i].history.admitted :: Delivered(states[j], record)
  {
    StartedFlushPath(states, steps, i, j, f);
    RunInv(states, steps, i);
    RunInv(states, steps, j);
    RunGrowsHistory(states, steps, i, j);
    if states[j].flushers[f].Flushed? {
      forall record | record in states[i].history.admitted
        ensures Delivered(states[j], record)
      {
        var k :| 0 <= k < |states[i].history.admitted| && states[i].history.admitted[k] == record;
        ProcessedIsDelivered(states[j], k);
      }
    }
  }

  /** A flush that is entered while no worker runs reads the queue's count once and answers by it: OK if
      it was empty, NOT_RUNNING if not. */
  lemma {:induction false} IdleFlushAnswers(states: seq<State>, steps: seq<Step>, i: nat, j: nat, f: Thread)
    requires IsFlush(states, steps, i, j, f) && !states[i].started
    ensures var pc := states[j].flushers[f];
            || pc.ReadingCount?
            || exists k | i < k < j ::
                 && IsFlushStep(steps[k], f) && states[k].flushers[f].ReadingCount?
                 && pc == if states[k].queue.count == 0 then FlushedIdle else FlushFailed(NotRunning)
    decreases j
  {
    RunMovesFlusher(states, steps, j - 1, f);
    if i < j - 1 {
      IdleFlushAnswers(states, steps, i, j - 1, f);
    }
  }

  /** A flush gives up only while it is still behind. */
  lemma FlushGivesUpBehind(states: seq<State>, steps: seq<Step>, m: nat, f: Thread)
    requires IsRun(states, steps) && m < |steps| && f in states[m].flushers && states[m].flushers[f].Awaiting?
    requires IsFlushStep(steps[m], f)
    ensures f in states[m + 1].flushers
    ensures states[m + 1].flushers[f].Flushed? <==> states[m].processed >= states[m].flushers[f].target
    ensures states[m + 1].flushers[f].FlushFailed? ==> steps[m].giveUp
  {
    RunMovesFlusher(states, steps, m, f);
  }

  /** A flush ends exactly at its own next step once it has its answer. */
  lemma FlushReturnsIff(states: seq<State>, steps: seq<Step>, m: nat, f: Thread)
    requires IsRun(states, steps) && m < |steps| && f in states[m].flushers && !states[m].flushers[f].Resting?
    ensures f in states[m + 1].flushers
    ensures var pc := states[m].flushers[f];
            states[m + 1].flushers[f].Resting? <==>
            IsFlushStep(steps[m], f) && (pc.Flushed? || pc.FlushedIdle? || pc.FlushFailed?)
  {
    RunMovesFlusher(states, steps, m, f);
  }
}
