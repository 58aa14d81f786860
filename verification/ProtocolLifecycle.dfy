/** What the control thread's calls leave behind over whole runs. */
module ProtocolLifecycle {
  import opened Records
  import opened Protocol
  import opened ProtocolInvariant
  import opened Streams
  import opened Config
  import opened Overrides
  import opened BootstrapRoundTrip
  import ConfigurationLaws

  /** The two parts of the state that only the control thread writes. */
  predicate SameSwitches(s: State, t: State) {
    s.shutdown == t.shutdown && s.started == t.started
  }

  lemma OthersKeepSwitches(s: State, step: Step)
    requires Sane(s) && Enabled(s, step) && !step.ByControl?
    ensures SameSwitches(s, Next(s, step))
  {
    match step
    case ByProducer(p, call, millis) => ProducerKeepsFrame(s, p, call, millis);
    case ByWorker(choice) => WorkerKeepsFrame(s, choice);
    case SpuriousWake =>
    case ByFlusher(_, _) =>
  }

  /** A call of start that gets past its checks. */
  predicate Opens(s: State, step: Step) {
    step == ByControl(Start) && !s.started && s.streams != []
  }

  predicate Closes(step: Step) {
    step == ByControl(Shutdown)
  }

  /** The thread has been created, and start says so. */
  predicate Launches(s: State, step: Step) {
    step.ByControl? && step.order.Continue? && s.control.Created?
  }

  /** The thread has been joined, and shutdown says so. */
  predicate Lands(s: State, step: Step) {
    step.ByControl? && step.order.Continue? && s.control.Joined?
  }

  lemma ControlMovesSwitches(s: State, order: Order)
    requires ControlCanStep(s, order)
    ensures var s', step := ControlStep(s, order), ByControl(order);
            && s'.shutdown == (if Closes(step) then true else if Opens(s, step) then false else s.shutdown)
            && s'.started == if Launches(s, step) then true else if Lands(s, step) then false else s.started
  {
    match order { case Start => case Shutdown => case Continue(_) => case AddStream(_, _) => case Configure(_) => }
  }

  lemma SwitchesMove(states: seq<State>, steps: seq<Step>, m: nat)
    requires IsRun(states, steps) && m < |steps|
    ensures states[m + 1].shutdown ==
            if Closes(steps[m]) then true else if Opens(states[m], steps[m]) then false else states[m].shutdown
    ensures states[m + 1].started ==
            if Launches(states[m], steps[m]) then true
            else if Lands(states[m], steps[m]) then false else states[m].started
  {
    assert StepAt(states, steps, m);
    if steps[m].ByControl? {
      ControlMovesSwitches(states[m], steps[m].order);
    } else {
      OthersKeepSwitches(states[m], steps[m]);
    }
  }

  /** The order at step k shut the logger down, and no start has opened it again by j. */
  ghost predicate ClosedSince(states: seq<State>, steps: seq<Step>, k: nat, j: nat)
    requires |states| == |steps| + 1 && k < j < |states|
  {
    Closes(steps[k]) && forall l | k < l < j :: !Opens(states[l], steps[l])
  }

  /** The thread was launched at step k and has not been joined by j. */
  ghost predicate LaunchedSince(states: seq<State>, steps: seq<Step>, k: nat, j: nat)
    requires |states| == |steps| + 1 && k < j < |states|
  {
    Launches(states[k], steps[k]) && forall l | k < l < j :: !Lands(states[l], steps[l])
  }

  /** Producers are turned away exactly between a call of shutdown and the next start that gets past its
      checks; neither a timeout nor a failed thread creation opens or closes the queue. */
  lemma {:induction false} ShutdownIsTheLastOrder(states: seq<State>, steps: seq<Step>, j: nat)
    requires IsRun(states, steps) && j < |states|
    ensures states[j].shutdown <==>
            exists k | 0 <= k < j :: ClosedSince(states, steps, k, j)
  {
    if j > 0 {
      var i := j - 1;
      SwitchesMove(states, steps, i);
      ShutdownIsTheLastOrder(states, steps, i);
      if states[i].shutdown && !Opens(states[i], steps[i]) {
        var k :| 0 <= k < i && ClosedSince(states, steps, k, i);
        assert ClosedSince(states, steps, k, j);
      } else if Closes(steps[i]) {
        assert ClosedSince(states, steps, i, j);
      }
      forall k | 0 <= k < j && ClosedSince(states, steps, k, j)
        ensures states[j].shutdown
      {
        assert k < i ==> ClosedSince(states, steps, k, i);
      }
    }
  }

  /** The logger counts as started exactly from the creation of its thread to the join of it, so a
      shutdown that times out leaves it started, to be shut down again. */
  lemma {:induction false} StartedIsLaunched(states: seq<State>, steps: seq<Step>, j: nat)
    requires IsRun(states, steps) && j < |states|
    ensures states[j].started <==>
            exists k | 0 <= k < j :: LaunchedSince(states, steps, k, j)
  {
    if j > 0 {
      var i := j - 1;
      SwitchesMove(states, steps, i);
      StartedIsLaunched(states, steps, i);
      if states[i].started && !Lands(states[i], steps[i]) {
        var k :| 0 <= k < i && LaunchedSince(states, steps, k, i);
        assert LaunchedSince(states, steps, k, j);
      } else if Launches(states[i], steps[i]) {
        assert LaunchedSince(states, steps, i, j);
      }
      forall k | 0 <= k < j && LaunchedSince(states, steps, k, j)
        ensures states[j].started
      {
        assert k < i ==> LaunchedSince(states, steps, k, i);
      }
    }
  }

  /** No worker ever runs without a stream to write to. */
  ghost predicate HasStreams(s: State) {
    s.started || s.control.Starting? || s.control.Created? || !s.worker.Absent? ==> s.streams != []
  }

  lemma StepKeepsStreams(s: State, step: Step)
    requires Inv(s) && Sane(s) && Enabled(s, step) && HasStreams(s)
    ensures HasStreams(Next(s, step))
  {
    match step
    case ByProducer(p, call, millis) => ProducerKeepsFrame(s, p, call, millis);
    case ByWorker(choice) => WorkerKeepsFrame(s, choice);
    case SpuriousWake =>
    case ByFlusher(_, _) =>
    case ByControl(order) =>
      match order { case Start => case Shutdown => case Continue(_) => case AddStream(_, _) => case Configure(_) => }
  }

  lemma {:induction false} StartedHasStreams(states: seq<State>, steps: seq<Step>, j: nat)
    requires IsRun(states, steps) && j < |states|
    ensures HasStreams(states[j])
  {
    if j > 0 {
      StartedHasStreams(states, steps, j - 1);
      RunInv(states, steps, j - 1);
      assert StepAt(states, steps, j - 1);
      StepKeepsStreams(states[j - 1], steps[j - 1]);
    }
  }

  // Reconfiguration.

  /** A call of configure that is taken. */
  predicate Retunes(s: State, step: Step) {
    step.ByControl? && step.order.Configure? && ConfigureStatus(s.config, step.order.request) == Ok
  }

  lemma OthersKeepSettings(s: State, step: Step)
    requires Sane(s) && Enabled(s, step) && !step.ByControl?
    ensures Next(s, step).config == s.config && Next(s, step).streams == s.streams
  {
    match step
    case ByProducer(p, call, millis) => ProducerKeepsFrame(s, p, call, millis);
    case ByWorker(choice) => WorkerKeepsFrame(s, choice);
    case SpuriousWake =>
    case ByFlusher(_, _) =>
  }

  lemma ControlMovesSettings(s: State, order: Order)
    requires ControlCanStep(s, order)
    ensures var s', step := ControlStep(s, order), ByControl(order);
            if Retunes(s, step)
            then
              && s'.config == Configured(s.config, order.request)
              && s'.streams == TunedTable(order.request.levels, s.streams)
            else s'.config == s.config && s.streams <= s'.streams
  {
    match order { case Start => case Shutdown => case Continue(_) => case AddStream(_, _) => case Configure(_) => }
  }

  /** What one step does to the settings and to the streams registered before it. */
  lemma SettingsMove(states: seq<State>, steps: seq<Step>, m: nat)
    requires IsRun(states, steps) && m < |steps|
    ensures Retunes(states[m], steps[m]) ==>
              && states[m + 1].config == Configured(states[m].config, steps[m].order.request)
              && states[m + 1].streams == TunedTable(steps[m].order.request.levels, states[m].streams)
    ensures !Retunes(states[m], steps[m]) ==>
              states[m + 1].config == states[m].config && states[m].streams <= states[m + 1].streams
  {
    assert StepAt(states, steps, m);
    if steps[m].ByControl? {
      ControlMovesSettings(states[m], steps[m].order);
    } else {
      OthersKeepSettings(states[m], steps[m]);
    }
  }

  /** Between two reconfigurations the settings and the registered streams stay as they are. */
  lemma {:induction false} SettingsStay(states: seq<State>, steps: seq<Step>, i: nat, j: nat)
    requires IsRun(states, steps) && i <= j < |states|
    requires forall l | i <= l < j :: !Retunes(states[l], steps[l])
    ensures states[j].config == states[i].config && states[i].streams <= states[j].streams
    decreases j
  {
    if i < j {
      SettingsStay(states, steps, i, j - 1);
      SettingsMove(states, steps, j - 1);
    }
  }

  /** A reconfiguration lasts until the next one: the configuration is the requested one, every built-in
      stream that was registered has the requested bounds of its sink, and every other one its own. */
  lemma ReconfigurationLasts(states: seq<State>, steps: seq<Step>, i: nat, j: nat, n: nat)
    requires IsRun(states, steps) && i < j < |states| && Retunes(states[i], steps[i]) && n < |states[i].streams|
    requires forall l | i < l < j :: !Retunes(states[l], steps[l])
    ensures states[j].config == Configured(states[i].config, steps[i].order.request)
    ensures n < |states[j].streams| && states[j].streams[n].name == states[i].streams[n].name
    ensures var before, now, levels := states[i].streams[n], states[j].streams[n], states[j].config.levels;
            && (forall sink | now.name == SectionOf(LevelSetting(sink, Minimum)) ::
                  now.minimum == LevelOf(levels, sink, Minimum) && now.maximum == LevelOf(levels, sink, Maximum))
            && ((forall sink :: now.name != SectionOf(LevelSetting(sink, Minimum))) ==> now == before)
  {
    SettingsMove(states, steps, i);
    SettingsStay(states, steps, i + 1, j);
    var levels, before := steps[i].order.request.levels, states[i].streams[n];
    assert states[j].streams[n] == states[i + 1].streams[n] == Tuned(levels, before);
    forall sink | before.name == SectionOf(LevelSetting(sink, Minimum))
      ensures Tuned(levels, before).minimum == LevelOf(levels, sink, Minimum)
      ensures Tuned(levels, before).maximum == LevelOf(levels, sink, Maximum)
    {
      ConfigurationLaws.SinkIsRetuned(levels, before, sink);
    }
    if forall sink :: before.name != SectionOf(LevelSetting(sink, Minimum)) {
      ConfigurationLaws.OtherStreamsKeepBounds(levels, before);
    }
  }

  /** When a call can move on: start, shutdown and configure follow one another, a shutdown waits for the
      worker's end or for its timeout, and streams can be added whenever the worker writes to none. */
  lemma OrderExtendsIff(states: seq<State>, steps: seq<Step>, order: Order)
    requires IsRun(states, steps)
    ensures var s := states[|steps|];
            (exists s' :: IsRun(states + [s'], steps + [ByControl(order)])) <==>
            match order
            case AddStream(_, _) => !s.worker.Fanning?
            case Configure(_) => s.control.Ready? && !s.worker.Fanning?
            case Continue(succeeds) => !s.control.Ready? && !(s.control.Joining? && succeeds && !s.worker.Exited?)
            case _ => s.control.Ready?
  {
    var s, step := states[|steps|], ByControl(order);
    if Enabled(s, step) {
      RunsExtend(states, steps, step);
    }
    forall s' | IsRun(states + [s'], steps + [step])
      ensures Enabled(s, step)
    {
      assert StepAt(states + [s'], steps + [step], |steps|);
    }
  }
}
