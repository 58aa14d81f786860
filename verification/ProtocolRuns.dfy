/** Concrete runs that show what shutdown does not guarantee. */
module ProtocolRuns {
  import opened Records
  import opened Streams
  import opened Config
  import opened Protocol
  import opened ProtocolInvariant
  import Render

  // Reachable states.

  ghost predicate Reachable(s: State) {
    exists states, steps :: IsRun(states, steps) && states[|steps|] == s
  }

  lemma ReachNext(s: State, step: Step)
    requires Reachable(s) && Enabled(s, step)
    ensures Sane(s) && Reachable(Next(s, step))
  {
    var states, steps :| IsRun(states, steps) && states[|steps|] == s;
    RunsExtend(states, steps, step);
    var states', steps' := states + [Next(s, step)], steps + [step];
    assert IsRun(states', steps') && states'[|steps'|] == Next(s, step);
  }

  const SIZES := Capacities(4, 16, 16, 2, 8, 8)
  const SETTINGS := Config(
    "service", "environment", "0.0.0", SIZES, Render.JsonFormat, false, ".", "prefix", "backup", "",
    Levels(0, 2, 3, 5, 0, 5, 4, 5), "127.0.0.1", 5514)

  /** A new logger with one stream, and one thread that may log. */
  function Fresh(): State {
    State(
      SETTINGS, Queue(seq(4, _ => Record(0, 0, 0, "", "", [])), 0, 0, 0), Free, 0, 0, 0, 0, false, false,
      [Stream("custom", 0, 5)], map[0 := Idle], Absent, 0, 0, map[], Ready,
      History([], [], [[]], multiset{}, [], [], []))
  }

  lemma FreshIsReachable()
    ensures Reachable(Fresh())
  {
    var s := Fresh();
    assert s.history.logs == seq(|s.streams|, _ => []);
    assert Initial(s);
    var states: seq<State>, steps: seq<Step> := [s], [];
    assert IsRun(states, steps) && states[|steps|] == s;
  }

  const GRANTED := ByWorker(Choice(true, "", Ok))
  const ONWARD := ByControl(Continue(true))

  /** start() on the fresh logger, up to the worker's first look at the queue. */
  function Started(): State {
    Fresh().(control := Ready, started := true, worker := Checking, mutex := HeldByWorker)
  }

  function Spawning(): State {
    Fresh().(control := Ready, started := true, worker := Spawned)
  }

  /** start() on a logger that has never run. */
  lemma StartSpawns(s: State)
    requires Reachable(s) && s.control.Ready? && !s.started && !s.shutdown && |s.streams| > 0
    requires s.lastBusy == s.lastFull == 0 && s.history.busyReports == s.history.fullReports == []
    ensures Reachable(s.(started := true, worker := Spawned))
  {
    ReachNext(s, ByControl(Start));
    var s1 := Next(s, ByControl(Start));
    assert s1 == s.(control := Starting);
    ReachNext(s1, ONWARD);
    var s2 := Next(s1, ONWARD);
    assert s2 == s.(control := Created, worker := Spawned);
    ReachNext(s2, ONWARD);
    assert Next(s2, ONWARD) == s.(started := true, worker := Spawned);
  }

  lemma SpawningIsReachable()
    ensures Reachable(Spawning())
  {
    FreshIsReachable();
    StartSpawns(Fresh());
    assert Fresh().(started := true, worker := Spawned) == Spawning();
  }

  lemma StartedIsReachable()
    ensures Reachable(Started())
  {
    SpawningIsReachable();
    var s0 := Spawning();
    ReachNext(s0, GRANTED);
    var s1 := Next(s0, GRANTED);
    assert s1 == s0.(worker := Seeking);
    ReachNext(s1, GRANTED);
    assert Next(s1, GRANTED) == Started();
  }

  /** The shutdown flag and its signal both fall between the worker's test and its wait. */
  function Missed(): State {
    var s := Started();
    s.(worker := Parking, control := Signalled, shutdown := true)
  }

  lemma MissedIsReachable()
    ensures Reachable(Missed())
  {
    StartedIsReachable();
    var s0 := Started();
    ReachNext(s0, GRANTED);
    var s1 := Next(s0, GRANTED);
    assert s1 == s0.(worker := Parking);
    ReachNext(s1, ByControl(Shutdown));
    var s2 := Next(s1, ByControl(Shutdown));
    assert s2 == s1.(control := Raised, shutdown := true);
    ReachNext(s2, ONWARD);
    assert Next(s2, ONWARD) == Missed();
  }

  /** Shutdown wakeups can be lost: a run on which shutdown has been requested and signalled, no
      signal is pending, and yet the worker is blocked while the control thread waits to join it. */
  lemma ShutdownSignalCanBeLost()
    ensures exists s :: Reachable(s) && s.shutdown && s.control.Joining? && s.worker.Parked? &&
                        (forall p | p in s.producers :: s.producers[p].Idle?)
  {
    MissedIsReachable();
    var s0 := Missed();
    ReachNext(s0, ONWARD);
    var s1 := Next(s0, ONWARD);
    assert s1 == s0.(control := Joining);
    ReachNext(s1, GRANTED);
    assert Next(s1, GRANTED) == s1.(worker := Parked, mutex := Free);
  }

  const CALL := Call(2, Some("m"), None, NullFields(0))

  /** One step of the only producer. */
  lemma ProducerGoes(s: State)
    requires Reachable(s) && 0 in s.producers
    ensures Sane(s) && Reachable(ProducerStep(s, 0, CALL, 0))
  {
    ReachNext(s, ByProducer(0, CALL, 0));
  }

  function WithProducer(s: State, pc: Producer): State {
    s.(producers := s.producers[0 := pc])
  }

  /** A call passes its check of the shutdown flag. */
  lemma CallPasses(s: State) returns (draft: Record)
    requires Reachable(s) && 0 in s.producers && s.producers[0].Idle? && !s.shutdown
    ensures Reachable(WithProducer(s, Running(draft)))
  {
    ProducerGoes(s);
    assert CALL.fields == NullFields(0);
    draft := NextPc(s, 0, CALL, 0).draft;
    assert ProducerStep(s, 0, CALL, 0) == WithProducer(s, Running(draft));
  }

  /** shutdown() sets the flag and signals a worker that is not waiting. */
  lemma ShutdownSignals(s: State)
    requires Reachable(s) && s.control.Ready? && !s.worker.Parked?
    ensures Reachable(s.(shutdown := true, control := Signalled))
  {
    ReachNext(s, ByControl(Shutdown));
    var s1 := Next(s, ByControl(Shutdown));
    assert s1 == s.(control := Raised, shutdown := true);
    ReachNext(s1, ONWARD);
    assert Next(s1, ONWARD) == s.(shutdown := true, control := Signalled);
  }

  /** shutdown() called while a producer is past its check of the flag. */
  function Passed(draft: Record): State {
    var s := Started();
    s.(producers := map[0 := Running(draft)], shutdown := true, control := Signalled)
  }

  lemma PassedIsReachable() returns (draft: Record)
    ensures Reachable(Passed(draft))
  {
    StartedIsReachable();
    draft := CallPasses(Started());
    var s := WithProducer(Started(), Running(draft));
    ShutdownSignals(s);
    assert s.producers == map[0 := Running(draft)];
    assert s.(shutdown := true, control := Signalled) == Passed(draft);
  }

  /** The worker finds nothing to do and returns before that producer goes on. */
  function Overtaken(draft: Record): State {
    Passed(draft).(control := Joining, worker := Exited(true), mutex := Free)
  }

  lemma OvertakenIsReachable() returns (draft: Record)
    ensures Reachable(Overtaken(draft))
  {
    draft := PassedIsReachable();
    var s0 := Passed(draft);
    ReachNext(s0, ONWARD);
    var s1 := Next(s0, ONWARD);
    assert s1 == s0.(control := Joining);
    ReachNext(s1, GRANTED);
    var s2 := Next(s1, GRANTED);
    assert s2 == s1.(worker := Taking);
    ReachNext(s2, GRANTED);
    var s3 := Next(s2, GRANTED);
    assert s3 == s1.(worker := Leaving);
    LeavingIsShort(s3);
    assert s3.(worker := Exited(true), mutex := Free) == Overtaken(draft);
  }

  lemma LeavingIsShort(s: State)
    requires Reachable(s) && s.worker.Leaving? && s.droppedBusy == s.lastBusy && s.droppedFull == s.lastFull
    ensures Reachable(s.(worker := Exited(true), mutex := Free))
  {
    ReachNext(s, GRANTED);
    var s1 := Next(s, GRANTED);
    assert s1 == s.(worker := FinalBusy, mutex := Free);
    ReachNext(s1, GRANTED);
    var s2 := Next(s1, GRANTED);
    assert s2 == s1.(worker := FinalFull);
    ReachNext(s2, GRANTED);
    assert Next(s2, GRANTED) == s.(worker := Exited(true), mutex := Free);
  }

  /** The control thread joins a worker that has returned, and shutdown() returns. */
  lemma JoinReturns(s: State)
    requires Reachable(s) && s.control.Joining? && s.worker.Exited?
    ensures Reachable(s.(control := Ready, started := false, worker := Absent))
  {
    ReachNext(s, ONWARD);
    var s1 := Next(s, ONWARD);
    assert s1 == s.(control := Joined, worker := Absent);
    ReachNext(s1, ONWARD);
    assert Next(s1, ONWARD) == s.(control := Ready, started := false, worker := Absent);
  }

  /** Shutdown can return OK and leave a record behind: a producer that passed its check before
      the flag was set publishes after the worker is gone. ProtocolShutdown.DrainedQueueIsEmptyIff says
      exactly when. */
  lemma ShutdownCanLeaveRecord()
    ensures exists s :: Reachable(s) && s.shutdown && s.control.Ready? && !s.started && s.worker.Absent? &&
                        s.mutex.Free? && s.queue.count == 1
  {
    var draft := OvertakenIsReachable();
    var s := Overtaken(draft);
    JoinReturns(s);
    var t := AdmissionAlone(s.(control := Ready, started := false, worker := Absent), draft);
    assert Reachable(t);
  }

  /** A worker that got no buffers: the record of a call that returned before shutdown was even
      requested is still there after shutdown() has returned. */
  lemma FailedWorkerLeavesRecord()
    ensures exists s :: Reachable(s) && s.worker == Exited(false) && !s.shutdown && s.queue.count == 1
    ensures exists s :: Reachable(s) && s.shutdown && s.control.Ready? && !s.started && s.worker.Absent? &&
                        s.queue.count == 1 && forall p | p in s.producers :: s.producers[p].Idle?
  {
    var s := RecordBesideFailedWorker();
    ShutdownSignals(s);
    var s1 := s.(shutdown := true, control := Signalled);
    ReachNext(s1, ONWARD);
    var s2 := Next(s1, ONWARD);
    assert s2 == s1.(control := Joining);
    JoinReturns(s2);
    assert Reachable(s2.(control := Ready, started := false, worker := Absent));
  }

  lemma RecordBesideFailedWorker() returns (s: State)
    ensures Reachable(s) && s.worker == Exited(false) && !s.shutdown && s.started && s.control.Ready?
    ensures s.queue.count == 1 && s.producers.Keys == {0} && s.producers[0].Idle?
  {
    FailureIsReachable();
    s := Spawning().(worker := Exited(false));
    var draft := CallPasses(s);
    s := AdmissionAlone(WithProducer(s, Running(draft)), draft);
    s := ReturningAlone(s);
  }

  lemma FailureIsReachable()
    ensures Reachable(Spawning().(worker := Exited(false)))
  {
    SpawningIsReachable();
    ReachNext(Spawning(), ByWorker(Choice(false, "", Ok)));
  }

  lemma ReturningAlone(s: State) returns (t: State)
    requires Reachable(s) && 0 in s.producers && s.producers[0].Released? && !s.worker.Parked?
    ensures Reachable(t) && t == WithProducer(s, Idle).(history := t.history)
  {
    ProducerGoes(s);
    t := ProducerStep(s, 0, CALL, 0);
    assert t == WithProducer(s, Returning(Ok));
    ProducerGoes(t);
    t := ProducerStep(t, 0, CALL, 0);
    assert t.producers == s.producers[0 := Idle];
  }

  lemma LockingAlone(s: State, draft: Record)
    requires Reachable(s) && 0 in s.producers && s.producers[0] == Running(draft) && s.mutex.Free?
    ensures Reachable(WithProducer(s, Testing(draft)).(mutex := HeldBy(0)))
  {
    ProducerGoes(s);
    assert ProducerStep(s, 0, CALL, 0) == WithProducer(s, Testing(draft)).(mutex := HeldBy(0));
  }

  lemma TestingAlone(s: State, draft: Record)
    requires Reachable(s) && 0 in s.producers && s.producers[0] == Testing(draft)
    requires s.queue.count < s.config.capacities.slots
    ensures Reachable(WithProducer(s, Accepted(draft)))
  {
    ProducerGoes(s);
    assert ProducerStep(s, 0, CALL, 0) == WithProducer(s, Accepted(draft));
  }

  /** Everything but what an admission changes. */
  predicate SameButQueue(s: State, t: State) {
    && t == s.(queue := t.queue, queued := t.queued, producers := t.producers, history := t.history)
    && t.producers.Keys == s.producers.Keys
  }

  lemma NumberingAlone(s: State, draft: Record) returns (t: State)
    requires Reachable(s) && 0 in s.producers && s.producers[0] == Accepted(draft)
    ensures Reachable(t) && 0 in t.producers && t.producers[0].Numbered?
    ensures SameButQueue(s, t) && t.queue == s.queue
  {
    ProducerGoes(s);
    t := ProducerStep(s, 0, CALL, 0);
  }

  lemma CopyingAlone(s: State) returns (t: State)
    requires Reachable(s) && 0 in s.producers && s.producers[0].Numbered?
    ensures Reachable(t) && 0 in t.producers && t.producers[0].Copied?
    ensures SameButQueue(s, t) && t.queue.count == s.queue.count
  {
    ProducerGoes(s);
    t := ProducerStep(s, 0, CALL, 0);
  }

  lemma CountingAlone(s: State) returns (t: State)
    requires Reachable(s) && 0 in s.producers && s.producers[0].Copied?
    ensures Reachable(t) && 0 in t.producers && t.producers[0].Published?
    ensures SameButQueue(s, t) && t.queue.count == s.queue.count + 1
  {
    ProducerGoes(s);
    t := ProducerStep(s, 0, CALL, 0);
  }

  lemma UnlockingAlone(s: State) returns (t: State)
    requires Reachable(s) && 0 in s.producers && s.producers[0].Published?
    ensures Reachable(t) && t == WithProducer(s, Released).(mutex := Free)
  {
    ProducerGoes(s);
    t := ProducerStep(s, 0, CALL, 0);
  }

  /** The rest of a call that has passed its check, with nobody in its way. */
  lemma AdmissionAlone(s: State, draft: Record) returns (t: State)
    requires Reachable(s) && 0 in s.producers && s.producers[0] == Running(draft)
    requires s.mutex.Free? && s.queue.count < s.config.capacities.slots
    ensures Reachable(t) && 0 in t.producers && t.producers[0].Released?
    ensures SameButQueue(s, t) && t.queue.count == s.queue.count + 1
  {
    LockingAlone(s, draft);
    var s1 := WithProducer(s, Testing(draft)).(mutex := HeldBy(0));
    TestingAlone(s1, draft);
    t := NumberingAlone(WithProducer(s1, Accepted(draft)), draft);
    t := PublishingAlone(t);
  }

  lemma PublishingAlone(s: State) returns (t: State)
    requires Reachable(s) && 0 in s.producers && s.producers[0].Numbered? && s.mutex == HeldBy(0)
    ensures Reachable(t) && 0 in t.producers && t.producers[0].Released?
    ensures SameButQueue(s.(mutex := Free), t) && t.queue.count == s.queue.count + 1
  {
    t := CopyingAlone(s);
    t := CountingAlone(t);
    t := UnlockingAlone(t);
  }
}
