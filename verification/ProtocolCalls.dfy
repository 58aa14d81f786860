/** What one logging call answers, and why, however the other threads move meanwhile. */
module ProtocolCalls {
  import opened Records
  import opened Protocol
  import opened ProtocolInvariant
  import opened ProtocolDelivery
  import opened Validation

  predicate IsCallStep(step: Step, p: Thread) {
    step.ByProducer? && step.thread == p
  }

  /** Only its own steps move a producer. */
  lemma RunMovesProducer(states: seq<State>, steps: seq<Step>, m: nat, p: Thread)
    requires IsRun(states, steps) && m < |steps| && p in states[m].producers
    ensures Sane(states[m]) && p in states[m + 1].producers
    ensures states[m + 1].producers[p] ==
            if IsCallStep(steps[m], p) then NextPc(states[m], p, steps[m].call, steps[m].millis)
            else states[m].producers[p]
  {
    RunInv(states, steps, m);
    assert StepAt(states, steps, m);
    match steps[m]
    case ByProducer(_, _, _) =>
    case ByWorker(choice) => WorkerKeepsFrame(states[m], choice);
    case SpuriousWake =>
    case ByFlusher(_, _) =>
    case ByControl(order) => ControlIsOutsider(states[m], order);
  }

  /** The call that p makes at step i, under these capacities, is still going on in state j. */
  ghost predicate IsCall(states: seq<State>, steps: seq<Step>, i: nat, j: nat, p: Thread,
                         caps: Capacities, call: Call)
  {
    && IsRun(states, steps) && states[0].config.capacities == caps
    && i < j < |states|
    && p in states[i].producers && states[i].producers[p].Idle? && IsCallStep(steps[i], p) && steps[i].call == call
    && forall k | i < k <= j :: p in states[k].producers && !states[k].producers[p].Idle?
  }

  /** Between i and j, p tried the lock, and this is whether it was free. */
  ghost predicate Tried(states: seq<State>, steps: seq<Step>, i: nat, j: nat, p: Thread, free: bool)
    requires j < |states| && |states| == |steps| + 1
  {
    exists k | i < k < j ::
      && IsCallStep(steps[k], p) && p in states[k].producers && states[k].producers[p].Running?
      && states[k].mutex.Free? == free
  }

  /** Between i and j, p compared the count inside the lock, and this is whether there was room. */
  ghost predicate Looked(states: seq<State>, steps: seq<Step>, i: nat, j: nat, p: Thread, room: bool)
    requires j < |states| && |states| == |steps| + 1
  {
    exists k | i < k < j ::
      && IsCallStep(steps[k], p) && p in states[k].producers && states[k].producers[p].Testing?
      && (states[k].queue.count < |states[k].queue.slots|) == room
  }

  /** The step from s to s' admits what the call stands for, under the next number. */
  predicate Takes(caps: Capacities, call: Call, s: State, s': State, millis: int64)
    requires caps.Valid() && CallStatus(caps, call) == Ok
  {
    && s'.queued == s.queued + 1
    && s'.history.admitted == s.history.admitted + [Admitted(caps, call, s.queued + 1, millis)]
  }

  ghost predicate Took(states: seq<State>, steps: seq<Step>, i: nat, j: nat, p: Thread, caps: Capacities, call: Call)
    requires j < |states| && |states| == |steps| + 1
    requires caps.Valid() && CallStatus(caps, call) == Ok
  {
    exists k | i < k < j :: IsCallStep(steps[k], p) && Takes(caps, call, states[k], states[k + 1], steps[k].millis)
  }

  /** The order of the checks, each on the state that the call found when it came to it. */
  ghost predicate Answers(states: seq<State>, steps: seq<Step>, i: nat, j: nat, p: Thread,
                          caps: Capacities, call: Call, status: Status)
    requires j < |states| && |states| == |steps| + 1 && i < |steps| && caps.Valid()
  {
    if CallStatus(caps, call) != Ok then status == CallStatus(caps, call)
    else if states[i].shutdown then status == NotRunning
    else
      match status
      case Busy => Tried(states, steps, i, j, p, false)
      case QueueFull => Tried(states, steps, i, j, p, true) && Looked(states, steps, i, j, p, false)
      case Ok =>
        && Tried(states, steps, i, j, p, true) && Looked(states, steps, i, j, p, true)
        && Took(states, steps, i, j, p, caps, call)
      case _ => false
  }

  /** What has happened once the call stands at pc. */
  ghost predicate OnPath(states: seq<State>, steps: seq<Step>, i: nat, j: nat, p: Thread,
                         caps: Capacities, call: Call, pc: Producer)
    requires j < |states| && |states| == |steps| + 1 && i < |steps| && caps.Valid()
  {
    if pc.Returning? then Answers(states, steps, i, j, p, caps, call, pc.status)
    else
      && CallStatus(caps, call) == Ok && !states[i].shutdown
      && (DraftOf(pc).Some? ==> pc.draft == Admitted(caps, call, 0, 0))
      && (pc.Contended? ==> Tried(states, steps, i, j, p, false))
      && (!pc.Running? && !pc.Contended? ==> Tried(states, steps, i, j, p, true))
      && (pc.Full? || pc.FullReleased? ==> Looked(states, steps, i, j, p, false))
      && (pc.Accepted? || pc.Numbered? || pc.Copied? || pc.Published? || pc.Released? ==>
            Looked(states, steps, i, j, p, true))
      && (pc.Numbered? || pc.Copied? || pc.Published? || pc.Released? ==> Took(states, steps, i, j, p, caps, call))
  }

  lemma PathGrows(states: seq<State>, steps: seq<Step>, i: nat, j: nat, p: Thread, caps: Capacities, call: Call)
    requires j + 1 < |states| && |states| == |steps| + 1 && i < |steps| && caps.Valid()
    ensures forall free :: Tried(states, steps, i, j, p, free) ==> Tried(states, steps, i, j + 1, p, free)
    ensures forall room :: Looked(states, steps, i, j, p, room) ==> Looked(states, steps, i, j + 1, p, room)
    ensures CallStatus(caps, call) == Ok && Took(states, steps, i, j, p, caps, call) ==>
              Took(states, steps, i, j + 1, p, caps, call)
  {
  }

  // The call's own steps.

  lemma TryAdvances(states: seq<State>, steps: seq<Step>, i: nat, j: nat, p: Thread, caps: Capacities, call: Call)
    requires IsRun(states, steps) && caps.Valid() && i < j < |steps| && Sane(states[j])
    requires IsCallStep(steps[j], p) && p in states[j].producers && states[j].producers[p].Running?
    requires states[j].config.capacities == caps
    requires OnPath(states, steps, i, j, p, caps, call, states[j].producers[p])
    ensures var next := NextPc(states[j], p, steps[j].call, steps[j].millis);
            OnPath(states, steps, i, j + 1, p, caps, call, next)
  {
    assert Tried(states, steps, i, j + 1, p, states[j].mutex.Free?);
  }

  lemma LookAdvances(states: seq<State>, steps: seq<Step>, i: nat, j: nat, p: Thread, caps: Capacities, call: Call)
    requires IsRun(states, steps) && caps.Valid() && i < j < |steps| && Sane(states[j])
    requires IsCallStep(steps[j], p) && p in states[j].producers && states[j].producers[p].Testing?
    requires states[j].config.capacities == caps
    requires OnPath(states, steps, i, j, p, caps, call, states[j].producers[p])
    ensures var next := NextPc(states[j], p, steps[j].call, steps[j].millis);
            OnPath(states, steps, i, j + 1, p, caps, call, next)
  {
    PathGrows(states, steps, i, j, p, caps, call);
    assert Looked(states, steps, i, j + 1, p, states[j].queue.count < |states[j].queue.slots|);
  }

  lemma TakeAdvances(states: seq<State>, steps: seq<Step>, i: nat, j: nat, p: Thread, caps: Capacities, call: Call)
    requires IsRun(states, steps) && caps.Valid() && i < j < |steps| && Sane(states[j])
    requires IsCallStep(steps[j], p) && p in states[j].producers && states[j].producers[p].Accepted?
    requires states[j].config.capacities == caps
    requires OnPath(states, steps, i, j, p, caps, call, states[j].producers[p])
    ensures var next := NextPc(states[j], p, steps[j].call, steps[j].millis);
            OnPath(states, steps, i, j + 1, p, caps, call, next)
  {
    PathGrows(states, steps, i, j, p, caps, call);
    assert StepAt(states, steps, j);
    assert Takes(caps, call, states[j], states[j + 1], steps[j].millis);
    assert Took(states, steps, i, j + 1, p, caps, call);
  }

  lemma PathAdvances(states: seq<State>, steps: seq<Step>, i: nat, j: nat, p: Thread, caps: Capacities, call: Call)
    requires IsRun(states, steps) && caps.Valid() && i < j < |steps| && Sane(states[j])
    requires IsCallStep(steps[j], p) && p in states[j].producers && !states[j].producers[p].Idle?
    requires states[j].config.capacities == caps
    requires OnPath(states, steps, i, j, p, caps, call, states[j].producers[p])
    ensures var next := NextPc(states[j], p, steps[j].call, steps[j].millis);
            next.Idle? || OnPath(states, steps, i, j + 1, p, caps, call, next)
  {
    var pc := states[j].producers[p];
    if pc.Running? {
      TryAdvances(states, steps, i, j, p, caps, call);
    } else if pc.Testing? {
      LookAdvances(states, steps, i, j, p, caps, call);
    } else if pc.Accepted? {
      TakeAdvances(states, steps, i, j, p, caps, call);
    } else {
      PathGrows(states, steps, i, j, p, caps, call);
    }
  }

  lemma {:induction false} CallPath(states: seq<State>, steps: seq<Step>, i: nat, j: nat, p: Thread,
                                    caps: Capacities, call: Call)
    requires IsCall(states, steps, i, j, p, caps, call)
    ensures OnPath(states, steps, i, j, p, caps, call, states[j].producers[p])
    decreases j
  {
    RunMovesProducer(states, steps, j - 1, p);
    CapacitiesStay(states, steps, j - 1);
    if i < j - 1 {
      CallPath(states, steps, i, j - 1, p, caps, call);
      if IsCallStep(steps[j - 1], p) {
        PathAdvances(states, steps, i, j - 1, p, caps, call);
      } else {
        PathGrows(states, steps, i, j - 1, p, caps, call);
      }
    }
  }

  /** A call answers what its checks found, in the order of the source: a refusal of the arguments,
      NOT_RUNNING if the logger was shut down as the call began, BUSY if the lock was taken when it
      tried, QUEUE_FULL if the queue had no room when it looked, and otherwise OK, having admitted the
      record that the call stands for under the next number. */
  lemma CallAnswers(states: seq<State>, steps: seq<Step>, i: nat, j: nat, p: Thread, caps: Capacities, call: Call)
    requires IsCall(states, steps, i, j, p, caps, call) && states[j].producers[p].Returning?
    ensures caps.Valid() && Answers(states, steps, i, j, p, caps, call, states[j].producers[p].status)
  {
    CallPath(states, steps, i, j, p, caps, call);
  }
}
