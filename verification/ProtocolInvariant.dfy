/** What every step of the protocol keeps, and hence what holds in every state of every run. */
module ProtocolInvariant {
  import opened Records
  import opened Ring
  import opened Streams
  import opened Config
  import opened Protocol

  // 1. The queue mutex.

  predicate ProducerHolds(pc: Producer) {
    pc.Testing? || pc.Full? || pc.Accepted? || pc.Numbered? || pc.Copied? || pc.Published?
  }

  predicate WorkerHolds(w: Worker) {
    w.Checking? || w.Parking? || w.Taking? || w.Dequeued? || w.Leaving?
  }

  ghost predicate Exclusion(s: State) {
    && (s.mutex.HeldByWorker? <==> WorkerHolds(s.worker))
    && (s.mutex.HeldBy? ==> s.mutex.producer in s.producers)
    && (forall p | p in s.producers :: ProducerHolds(s.producers[p]) <==> s.mutex == HeldBy(p))
  }

  // 2. The ring.

  /** The producer holds the mutex and has room for a record it has not counted yet. */
  predicate MovesRecord(pc: Producer) {
    pc.Accepted? || pc.Numbered? || pc.Copied?
  }

  ghost predicate RingIsSound(s: State) {
    var q := s.queue;
    && s.config.capacities.slots == |q.slots|
    && q.head < |q.slots| && q.count <= |q.slots|
    && q.tail == Wrap(q.head + q.count, |q.slots|)
    && (forall p | p in s.producers && MovesRecord(s.producers[p]) ::
          q.count < |q.slots|)
  }

  // 3. Conservation: every admitted record is in exactly one place, in order.

  function Fanned(fanOuts: seq<FanOut>): (records: seq<Record>)
    ensures |records| == |fanOuts|
    ensures forall i | 0 <= i < |fanOuts| :: records[i] == fanOuts[i].record
  {
    seq(|fanOuts|, i requires 0 <= i < |fanOuts| => fanOuts[i].record)
  }

  function InFlight(w: Worker): seq<Record> {
    match w
    case Dequeued(Some(r)) => [r]
    case ReportBusy(Some(r)) => [r]
    case ReportFull(Some(r)) => [r]
    case Rendering(r) => [r]
    case _ => []
  }

  /** The record of a producer that has a number but has not raised the count. */
  function Unpublished(s: State): seq<Record>
    requires s.mutex.HeldBy? ==> s.mutex.producer in s.producers
    requires s.queue.tail < |s.queue.slots|
  {
    if !s.mutex.HeldBy? then []
    else match s.producers[s.mutex.producer]
      case Numbered(r) => [r]
      case Copied => [s.queue.slots[s.queue.tail]]
      case _ => []
  }

  ghost predicate Conserved(s: State)
    requires Exclusion(s) && RingIsSound(s)
  {
    && Fanned(s.history.fanOuts) + InFlight(s.worker) + Contents(s.queue) + Unpublished(s) == s.history.admitted
    && |s.history.admitted| == s.queued
    && (forall k | 0 <= k < s.queued :: s.history.admitted[k].sequence == k + 1)
    && s.processed + (if s.worker.Fanning? || s.worker.Counting? then 1 else 0) == |s.history.fanOuts|
  }

  // 4. The callback logs.

  /** The log that stream `j` should have after the given passes: each pass that found it
      registered and accepting adds one delivery. */
  function ExpectedLog(fanOuts: seq<FanOut>, j: nat, caps: Capacities): seq<Delivery> {
    if fanOuts == [] then []
    else
      var f := fanOuts[|fanOuts| - 1];
      ExpectedLog(fanOuts[..|fanOuts| - 1], j, caps)
      + if j < |f.table| && Accepts(f.table[j], f.record.level) then [Delivery(f.record, LineOf(f, caps))] else []
  }

  /** The passes that have visited stream `j`: the one in progress counts once it is past `j`. */
  function Visited(s: State, j: nat): seq<FanOut> {
    var fs := s.history.fanOuts;
    if s.worker.Fanning? && s.worker.next <= j && fs != [] then fs[..|fs| - 1] else fs
  }

  ghost predicate Logged(s: State) {
    && WellFormed(s.streams)
    && |s.history.logs| == |s.streams|
    && (forall j | 0 <= j < |s.streams| ::
          s.history.logs[j] == ExpectedLog(Visited(s, j), j, s.config.capacities))
    && (forall k | 0 <= k < |s.history.fanOuts| :: |s.history.fanOuts[k].table| <= |s.streams|)
    && (s.worker.Fanning? ==>
          && s.history.fanOuts != [] && s.worker.next <= |s.streams|
          && s.history.fanOuts[|s.history.fanOuts| - 1].table == s.streams)
  }

  // 5. Wakeups.

  predicate OwesSignal(pc: Producer) {
    pc.Published? || pc.Released?
  }

  ghost predicate NoLostWakeup(s: State) {
    s.worker.Parked? && s.queue.count > 0 ==> exists p | p in s.producers :: OwesSignal(s.producers[p])
  }

  // 6. Start and shutdown.

  predicate Ending(w: Worker) {
    w.Leaving? || w.FinalBusy? || w.FinalFull? || (w.Exited? && w.drained)
  }

  predicate GoingToSleep(w: Worker) {
    w.Parking? || w.Parked?
  }

  ghost predicate Lifecycle(s: State) {
    && (s.control.Starting? ==> !s.started && s.worker.Absent?)
    && (s.control.Created? ==> !s.started && !s.worker.Absent?)
    && (s.control.Joined? ==> s.started && s.worker.Absent?)
    && (s.control.Joining? ==> s.started)
    && (s.control.Ready? || s.control.Raised? || s.control.Signalled? || s.control.Joining? ==>
          (s.started <==> !s.worker.Absent?))
    && (s.control.Raised? || s.control.Signalled? || s.control.Joining? || s.control.Joined? ==> s.shutdown)
    && (Ending(s.worker) ==> s.shutdown)
    && (s.worker.Leaving? || s.worker.Parking? ==> s.queue.count == 0)
    && (s.control.Starting? || s.control.Created? ==> !s.shutdown)
  }

  // 7. Flush targets.

  ghost predicate FlushesAreSound(s: State) {
    forall f | f in s.flushers ::
      && (s.flushers[f].Awaiting? ==> s.flushers[f].target <= s.queued)
      && (s.flushers[f].Flushed? ==> s.flushers[f].target <= s.processed && s.flushers[f].target <= s.queued)
  }

  // 8. Admission accounting.

  /** The status a producer in the middle of a call is bound to return and has already counted. */
  function Due(pc: Producer): Option<Status> {
    match pc
    case Numbered(_) => Some(Ok)
    case Copied => Some(Ok)
    case Published => Some(Ok)
    case Released => Some(Ok)
    case Returning(status) => Some(status)
    case _ => None
  }

  function Owing(producers: map<Thread, Producer>, status: Status): set<Thread> {
    set p | p in producers && Due(producers[p]) == Some(status)
  }

  ghost predicate Accounted(s: State) {
    && s.queued == s.history.answers[Ok] + |Owing(s.producers, Ok)|
    && s.droppedBusy == s.history.answers[Busy] + |Owing(s.producers, Busy)|
    && s.droppedFull == s.history.answers[QueueFull] + |Owing(s.producers, QueueFull)|
  }

  // 9. Mirrored drop totals.

  ghost predicate MirrorsTotal(reports: seq<nat>, last: nat, total: nat) {
    && (forall i | 0 <= i < |reports| :: 0 < reports[i])
    && (forall i, j | 0 <= i < j < |reports| :: reports[i] < reports[j])
    && last == (if reports == [] then 0 else reports[|reports| - 1])
    && last <= total
  }

  ghost predicate Mirroring(s: State) {
    && MirrorsTotal(s.history.busyReports, s.lastBusy, s.droppedBusy)
    && MirrorsTotal(s.history.fullReports, s.lastFull, s.droppedFull)
  }

  ghost predicate Inv(s: State) {
    && s.config.capacities.Valid()
    && Exclusion(s) && RingIsSound(s) && Conserved(s)
    && Logged(s) && NoLostWakeup(s) && Lifecycle(s)
    && FlushesAreSound(s) && Accounted(s) && Mirroring(s)
  }

  lemma InitialInv(s: State)
    requires Initial(s)
    ensures Inv(s)
  {
    assert Owing(s.producers, Ok) == {};
    assert Owing(s.producers, Busy) == {};
    assert Owing(s.producers, QueueFull) == {};
  }

  // Step by step: first the mutex, the ring and the life cycle.

  /** How one producer step may move the mutex. */
  predicate MutexMove(before: Mutex, after: Mutex, p: Thread, pc: Producer, pc': Producer) {
    if ProducerHolds(pc) then after == if ProducerHolds(pc') then before else Free
    else if ProducerHolds(pc') then before.Free? && after == HeldBy(p)
    else after == before
  }

  lemma ProducerMovesMutex(s: State, p: Thread, call: Call, millis: int64)
    requires ProducersAreSane(s) && p in s.producers
    ensures var s' := ProducerStep(s, p, call, millis);
            && p in s'.producers && s'.producers == s.producers[p := s'.producers[p]]
            && MutexMove(s.mutex, s'.mutex, p, s.producers[p], s'.producers[p])
            && s'.worker == (if s.producers[p].Released? && s.worker.Parked? then Woken else s.worker)
  {
    match s.producers[p] { case Idle => case Running(_) => case Contended => case Testing(_) => case Full =>
                           case FullReleased => case Accepted(_) => case Numbered(_) => case Copied =>
                           case Published => case Released => case Returning(_) => }
  }

  /** What producer steps leave alone. */
  ghost predicate ProducerFrame(s: State, s': State) {
    s' == s.(producers := s'.producers, mutex := s'.mutex, queue := s'.queue, queued := s'.queued,
             droppedBusy := s'.droppedBusy, droppedFull := s'.droppedFull,
             worker := s'.worker, history := s'.history)
  }

  ghost predicate ProducerHistoryFrame(s: State, s': State) {
    && s'.history.fanOuts == s.history.fanOuts && s'.history.logs == s.history.logs
    && s'.history.busyReports == s.history.busyReports && s'.history.fullReports == s.history.fullReports
    && (s'.worker == s.worker || (s.worker.Parked? && s'.worker.Woken?))
  }

  ghost predicate ProducerQueueFrame(s: State, s': State, pc: Producer) {
    && |s'.queue.slots| == |s.queue.slots| && s'.queue.head == s.queue.head
    && (if pc.Copied?
        then s'.queue.count == s.queue.count + 1 && s'.queue.tail == Wrap(s.queue.tail + 1, |s.queue.slots|)
        else s'.queue.count == s.queue.count && s'.queue.tail == s.queue.tail)
    && s.queued <= s'.queued && s.droppedBusy <= s'.droppedBusy && s.droppedFull <= s'.droppedFull
  }

  lemma ProducerKeepsFrame(s: State, p: Thread, call: Call, millis: int64)
    requires ProducersAreSane(s) && p in s.producers
    ensures ProducerFrame(s, ProducerStep(s, p, call, millis))
  {
  }

  lemma ProducerKeepsLists(s: State, p: Thread, call: Call, millis: int64)
    requires ProducersAreSane(s) && p in s.producers
    ensures var h, h' := s.history, ProducerStep(s, p, call, millis).history;
            && h'.fanOuts == h.fanOuts && h'.logs == h.logs
            && h'.busyReports == h.busyReports && h'.fullReports == h.fullReports
  {
    match s.producers[p] { case Idle => case Running(_) => case Contended => case Testing(_) => case Full =>
                           case FullReleased => case Accepted(_) => case Numbered(_) => case Copied =>
                           case Published => case Released => case Returning(_) => }
  }

  lemma ProducerKeepsHistory(s: State, p: Thread, call: Call, millis: int64)
    requires ProducersAreSane(s) && p in s.producers
    ensures ProducerHistoryFrame(s, ProducerStep(s, p, call, millis))
  {
    ProducerKeepsLists(s, p, call, millis);
  }

  lemma TouchedQueue(s: State, p: Thread, millis: int64)
    requires ProducersAreSane(s) && p in s.producers
    ensures var q, q' := s.queue, Touched(s, p, millis).queue;
            if s.producers[p].Numbered? then q' == q.(slots := q.slots[q.tail := s.producers[p].record])
            else if s.producers[p].Copied? then q' == q.(tail := Wrap(q.tail + 1, |q.slots|), count := q.count + 1)
            else q' == q
  {
    if s.producers[p].Copied? {
      WrapIsModulo(s.queue.tail + 1, |s.queue.slots|);
    }
  }

  lemma TouchedCounters(s: State, p: Thread, millis: int64)
    requires ProducersAreSane(s) && p in s.producers
    ensures var s' := Touched(s, p, millis);
            s.queued <= s'.queued && s.droppedBusy <= s'.droppedBusy && s.droppedFull <= s'.droppedFull
  {
  }

  lemma ProducerMovesQueue(s: State, p: Thread, call: Call, millis: int64)
    requires ProducersAreSane(s) && p in s.producers
    ensures ProducerQueueFrame(s, ProducerStep(s, p, call, millis), s.producers[p])
  {
    TouchedQueue(s, p, millis);
    TouchedCounters(s, p, millis);
  }

  /** A producer that will hold a number tests the count first and goes on in order. */
  lemma ProducerTestsFirst(s: State, s': State, p: Thread, call: Call, millis: int64)
    requires ProducersAreSane(s) && p in s.producers && s' == ProducerStep(s, p, call, millis) && p in s'.producers
    ensures s'.producers[p].Accepted? ==> s.producers[p].Testing? && s.queue.count < |s.queue.slots|
    ensures s'.producers[p].Numbered? ==> s.producers[p].Accepted?
    ensures s'.producers[p].Copied? ==> s.producers[p].Numbered?
  {
  }

  lemma MoveKeepsExclusion(s: State, s': State, p: Thread)
    requires Exclusion(s) && p in s.producers && p in s'.producers
    requires s'.producers == s.producers[p := s'.producers[p]]
    requires MutexMove(s.mutex, s'.mutex, p, s.producers[p], s'.producers[p])
    requires WorkerHolds(s'.worker) == WorkerHolds(s.worker)
    ensures Exclusion(s')
  {
  }

  lemma ProducerKeepsExclusion(s: State, p: Thread, call: Call, millis: int64)
    requires ProducersAreSane(s) && p in s.producers && Exclusion(s)
    ensures Exclusion(ProducerStep(s, p, call, millis))
  {
    ProducerMovesMutex(s, p, call, millis);
    MoveKeepsExclusion(s, ProducerStep(s, p, call, millis), p);
  }

  /** What worker steps leave alone. */
  ghost predicate WorkerFrame(s: State, s': State) {
    s' == s.(mutex := s'.mutex, queue := s'.queue, processed := s'.processed, worker := s'.worker,
             lastBusy := s'.lastBusy, lastFull := s'.lastFull, history := s'.history)
  }

  lemma WorkerKeepsFrame(s: State, choice: Choice)
    requires WorkerCanStep(s) && WorkerIsSane(s)
    ensures WorkerFrame(s, WorkerStep(s, choice))
  {
  }

  lemma WorkerMovesMutex(s: State, choice: Choice)
    requires WorkerCanStep(s) && WorkerIsSane(s) && (s.mutex.HeldByWorker? <==> WorkerHolds(s.worker))
    ensures var s' := WorkerStep(s, choice);
            && (s'.mutex.HeldByWorker? <==> WorkerHolds(s'.worker))
            && (s'.mutex == s.mutex || (!s.mutex.HeldBy? && !s'.mutex.HeldBy?))
  {
    WorkedMutex(s, choice);
  }

  lemma WorkedMutex(s: State, choice: Choice)
    requires WorkerCanStep(s) && WorkerIsSane(s)
    ensures Worked(s, choice).mutex ==
            if s.worker.Seeking? || s.worker.Woken? then HeldByWorker
            else if s.worker.Parking? || s.worker.Dequeued? || s.worker.Leaving? then Free
            else s.mutex
  {
  }

  lemma WorkerKeepsExclusion(s: State, choice: Choice)
    requires WorkerCanStep(s) && WorkerIsSane(s) && Exclusion(s)
    ensures Exclusion(WorkerStep(s, choice))
  {
    WorkerKeepsFrame(s, choice);
    WorkerMovesMutex(s, choice);
  }

  lemma CountKeepsRing(s: State, s': State, p: Thread)
    requires Exclusion(s) && RingIsSound(s) && Exclusion(s') && p in s.producers && p in s'.producers
    requires s'.producers == s.producers[p := s'.producers[p]]
    requires s'.config == s.config && ProducerQueueFrame(s, s', s.producers[p])
    requires s'.producers[p].Accepted? ==> s.producers[p].Testing? && s.queue.count < |s.queue.slots|
    requires s'.producers[p].Numbered? ==> s.producers[p].Accepted?
    requires s'.producers[p].Copied? ==> s.producers[p].Numbered?
    ensures RingIsSound(s')
  {
    forall r | r in s'.producers && MovesRecord(s'.producers[r])
      ensures s'.queue.count < |s'.queue.slots|
    {
      assert MovesRecord(s.producers[r]) || s'.producers[p].Accepted?;
      assert s'.mutex == HeldBy(r);
      assert s.producers[p].Copied? ==> s.mutex == HeldBy(p);
    }
  }

  lemma ProducerKeepsRing(s: State, p: Thread, call: Call, millis: int64)
    requires ProducersAreSane(s) && p in s.producers && Exclusion(s) && RingIsSound(s)
    ensures RingIsSound(ProducerStep(s, p, call, millis))
  {
    var s' := ProducerStep(s, p, call, millis);
    ProducerMovesMutex(s, p, call, millis);
    ProducerKeepsFrame(s, p, call, millis);
    ProducerMovesQueue(s, p, call, millis);
    ProducerTestsFirst(s, s', p, call, millis);
    MoveKeepsExclusion(s, s', p);
    CountKeepsRing(s, s', p);
  }

  lemma WorkerMovesQueue(s: State, choice: Choice)
    requires WorkerCanStep(s) && WorkerIsSane(s)
    ensures WorkerStep(s, choice).queue ==
            if s.worker.Taking? && s.queue.count > 0
            then s.queue.(head := Wrap(s.queue.head + 1, |s.queue.slots|), count := s.queue.count - 1)
            else s.queue
  {
    WrapIsModulo(s.queue.head + 1, |s.queue.slots|);
  }

  lemma WorkerKeepsRing(s: State, choice: Choice)
    requires WorkerCanStep(s) && WorkerIsSane(s) && RingIsSound(s)
    ensures RingIsSound(WorkerStep(s, choice))
  {
    WorkerKeepsFrame(s, choice);
    WorkerMovesQueue(s, choice);
  }

  lemma ProducerKeepsLifecycle(s: State, p: Thread, call: Call, millis: int64)
    requires ProducersAreSane(s) && p in s.producers && Exclusion(s) && Lifecycle(s)
    ensures Lifecycle(ProducerStep(s, p, call, millis))
  {
    ProducerKeepsFrame(s, p, call, millis);
    ProducerKeepsHistory(s, p, call, millis);
    ProducerMovesQueue(s, p, call, millis);
    assert s.producers[p].Copied? ==> s.mutex == HeldBy(p);
  }

  lemma WorkerKeepsPhase(s: State, choice: Choice)
    requires WorkerCanStep(s) && WorkerIsSane(s)
    requires s.worker.Leaving? || s.worker.Parking? ==> s.queue.count == 0
    requires Ending(s.worker) ==> s.shutdown
    ensures var s' := WorkerStep(s, choice);
            && !s'.worker.Absent? && !s.worker.Absent?
            && (Ending(s'.worker) ==> s.shutdown)
            && (s'.worker.Leaving? || s'.worker.Parking? ==> s'.queue.count == 0)
  {
  }

  lemma WorkerKeepsSleep(s: State, choice: Choice)
    requires WorkerCanStep(s) && WorkerIsSane(s)
    ensures var s' := WorkerStep(s, choice);
            && (GoingToSleep(s'.worker) ==> GoingToSleep(s.worker) || !s.shutdown)
            && (GoingToSleep(s.worker) ==> GoingToSleep(s'.worker))
  {
  }

  lemma WorkerKeepsLifecycle(s: State, choice: Choice)
    requires WorkerCanStep(s) && WorkerIsSane(s) && Lifecycle(s)
    ensures Lifecycle(WorkerStep(s, choice))
  {
    WorkerKeepsFrame(s, choice);
    WorkerKeepsPhase(s, choice);
    WorkerKeepsSleep(s, choice);
  }

  lemma ControlKeepsLifecycle(s: State, order: Order)
    requires ControlCanStep(s, order) && Lifecycle(s)
    ensures Lifecycle(ControlStep(s, order))
  {
    match order
    case Start =>
    case Shutdown =>
    case Continue(_) =>
    case AddStream(_, _) =>
    case Configure(_) =>
  }

  // Conservation.

  /** Nothing that the conservation law reads has changed. */
  ghost predicate SameBooks(s: State, s': State) {
    && s'.queue == s.queue && s'.queued == s.queued && s'.processed == s.processed
    && s'.history.admitted == s.history.admitted && s'.history.fanOuts == s.history.fanOuts
    && InFlight(s'.worker) == InFlight(s.worker)
    && (s'.worker.Fanning? || s'.worker.Counting? <==> s.worker.Fanning? || s.worker.Counting?)
  }

  lemma SameBooksConserve(s: State, s': State)
    requires Exclusion(s) && RingIsSound(s) && Conserved(s) && Exclusion(s') && RingIsSound(s')
    requires SameBooks(s, s') && Unpublished(s) == Unpublished(s')
    ensures Conserved(s')
  {
  }

  lemma ProducerKeepsBooks(s: State, p: Thread, call: Call, millis: int64)
    requires ProducersAreSane(s) && p in s.producers && !MovesRecord(s.producers[p])
    ensures SameBooks(s, ProducerStep(s, p, call, millis))
  {
    match s.producers[p] { case Idle => case Running(_) => case Contended => case Testing(_) => case Full =>
                           case FullReleased => case Accepted(_) => case Numbered(_) => case Copied =>
                           case Published => case Released => case Returning(_) => }
  }

  /** Unless the producer is moving its record, none is pending before or after. */
  lemma ProducerHasNoPending(s: State, s': State, p: Thread)
    requires Exclusion(s) && RingIsSound(s) && Exclusion(s') && RingIsSound(s')
    requires p in s.producers && p in s'.producers && s'.producers == s.producers[p := s'.producers[p]]
    requires MutexMove(s.mutex, s'.mutex, p, s.producers[p], s'.producers[p])
    requires s'.queue == s.queue
    requires !MovesRecord(s.producers[p]) && !s'.producers[p].Numbered? && !s'.producers[p].Copied?
    ensures Unpublished(s') == Unpublished(s)
  {
  }

  lemma NumberingConserves(s: State, s': State, p: Thread, record: Record)
    requires Exclusion(s) && RingIsSound(s) && Conserved(s) && Exclusion(s') && RingIsSound(s')
    requires p in s.producers && s.producers[p].Accepted?
    requires record.sequence == s.queued + 1
    requires s' == s.(producers := s.producers[p := Numbered(record)], queued := s.queued + 1,
                      history := s.history.(admitted := s.history.admitted + [record]))
    ensures Conserved(s')
  {
    assert s.mutex == HeldBy(p);
    assert Unpublished(s) == [] && Unpublished(s') == [record];
  }

  lemma CopyingConserves(s: State, s': State, p: Thread)
    requires Exclusion(s) && RingIsSound(s) && Conserved(s) && Exclusion(s') && RingIsSound(s')
    requires p in s.producers && s.producers[p].Numbered?
    requires s' == s.(producers := s.producers[p := Copied],
                      queue := s.queue.(slots := s.queue.slots[s.queue.tail := s.producers[p].record]))
    ensures Conserved(s')
  {
    var q := s.queue;
    assert s.mutex == HeldBy(p);
    WriteBehindWindow(q.slots, q.head, q.count, s.producers[p].record);
    assert Contents(s'.queue) == Contents(q);
    assert Unpublished(s') == Unpublished(s);
  }

  lemma PublishingConserves(s: State, s': State, p: Thread)
    requires Exclusion(s) && RingIsSound(s) && Conserved(s) && Exclusion(s') && RingIsSound(s')
    requires p in s.producers && s.producers[p].Copied?
    requires s' == s.(producers := s.producers[p := Published],
                      queue := s.queue.(tail := s'.queue.tail, count := s.queue.count + 1))
    ensures Conserved(s')
  {
    var q := s.queue;
    assert s.mutex == HeldBy(p);
    GrowWindow(q.slots, q.head, q.count);
    assert Contents(s'.queue) == Contents(q) + Unpublished(s);
    assert Unpublished(s') == [];
  }

  lemma MovingProducerConserves(s: State, p: Thread, call: Call, millis: int64)
    requires ProducersAreSane(s) && p in s.producers && Exclusion(s) && RingIsSound(s) && Conserved(s)
    requires Exclusion(ProducerStep(s, p, call, millis)) && RingIsSound(ProducerStep(s, p, call, millis))
    requires MovesRecord(s.producers[p])
    ensures Conserved(ProducerStep(s, p, call, millis))
  {
    var s' := ProducerStep(s, p, call, millis);
    match s.producers[p]
    case Accepted(draft) => NumberingConserves(s, s', p, draft.(sequence := s.queued + 1, millis := millis));
    case Numbered(_) => CopyingConserves(s, s', p);
    case Copied => PublishingConserves(s, s', p);
  }

  lemma ProducerConserves(s: State, p: Thread, call: Call, millis: int64)
    requires ProducersAreSane(s) && p in s.producers && Exclusion(s) && RingIsSound(s) && Conserved(s)
    ensures Exclusion(ProducerStep(s, p, call, millis)) && RingIsSound(ProducerStep(s, p, call, millis))
    ensures Conserved(ProducerStep(s, p, call, millis))
  {
    var s' := ProducerStep(s, p, call, millis);
    ProducerKeepsExclusion(s, p, call, millis);
    ProducerKeepsRing(s, p, call, millis);
    if MovesRecord(s.producers[p]) {
      MovingProducerConserves(s, p, call, millis);
    } else {
      ProducerMovesMutex(s, p, call, millis);
      ProducerTestsFirst(s, s', p, call, millis);
      ProducerKeepsBooks(s, p, call, millis);
      ProducerHasNoPending(s, s', p);
      SameBooksConserve(s, s');
    }
  }

  lemma WorkerKeepsItem(s: State, choice: Choice)
    requires WorkerCanStep(s) && WorkerIsSane(s)
    requires !(s.worker.Taking? && s.queue.count > 0) && !s.worker.Rendering? && !s.worker.Counting?
    ensures var w := WorkerStep(s, choice).worker;
            && InFlight(w) == InFlight(s.worker)
            && (w.Fanning? || w.Counting? <==> s.worker.Fanning? || s.worker.Counting?)
  {
  }

  lemma WorkerKeepsBooks(s: State, choice: Choice)
    requires WorkerCanStep(s) && WorkerIsSane(s)
    requires !(s.worker.Taking? && s.queue.count > 0) && !s.worker.Rendering? && !s.worker.Counting?
    ensures SameBooks(s, WorkerStep(s, choice))
  {
    WorkerKeepsItem(s, choice);
  }

  /** No producer is between number and count while the worker has the mutex or takes it. */
  lemma WorkerHasNoPending(s: State, s': State)
    requires Exclusion(s) && RingIsSound(s) && Exclusion(s') && RingIsSound(s')
    requires s'.producers == s.producers && s'.queue.slots == s.queue.slots && s'.queue.tail == s.queue.tail
    requires s'.mutex == s.mutex || (!s.mutex.HeldBy? && !s'.mutex.HeldBy?)
    ensures Unpublished(s') == Unpublished(s)
  {
  }

  lemma TakingConserves(s: State, choice: Choice)
    requires WorkerCanStep(s) && WorkerIsSane(s) && Exclusion(s) && RingIsSound(s) && Conserved(s)
    requires s.worker.Taking? && s.queue.count > 0
    requires Exclusion(WorkerStep(s, choice)) && RingIsSound(WorkerStep(s, choice))
    requires Unpublished(WorkerStep(s, choice)) == Unpublished(s)
    ensures Conserved(WorkerStep(s, choice))
  {
    var q := s.queue;
    var s' := WorkerStep(s, choice);
    ShrinkWindow(q.slots, q.head, q.count);
    WorkerMovesQueue(s, choice);
    assert s'.worker == Dequeued(Some(q.slots[q.head]));
    assert Contents(q) == InFlight(s'.worker) + Contents(s'.queue);
  }

  lemma RenderingConserves(s: State, choice: Choice)
    requires WorkerCanStep(s) && WorkerIsSane(s) && Exclusion(s) && RingIsSound(s) && Conserved(s)
    requires s.worker.Rendering? || s.worker.Counting?
    requires Exclusion(WorkerStep(s, choice)) && RingIsSound(WorkerStep(s, choice))
    requires Unpublished(WorkerStep(s, choice)) == Unpublished(s)
    ensures Conserved(WorkerStep(s, choice))
  {
    var s' := WorkerStep(s, choice);
    if s.worker.Rendering? {
      assert Fanned(s'.history.fanOuts) == Fanned(s.history.fanOuts) + InFlight(s.worker);
    }
  }

  lemma WorkerConserves(s: State, choice: Choice)
    requires WorkerCanStep(s) && WorkerIsSane(s) && Exclusion(s) && RingIsSound(s) && Conserved(s)
    ensures Exclusion(WorkerStep(s, choice)) && RingIsSound(WorkerStep(s, choice))
    ensures Conserved(WorkerStep(s, choice))
  {
    var s' := WorkerStep(s, choice);
    WorkerKeepsExclusion(s, choice);
    WorkerKeepsRing(s, choice);
    WorkerKeepsFrame(s, choice);
    WorkerMovesQueue(s, choice);
    WorkerMovesMutex(s, choice);
    WorkerHasNoPending(s, s');
    if s.worker.Taking? && s.queue.count > 0 {
      TakingConserves(s, choice);
    } else if s.worker.Rendering? || s.worker.Counting? {
      RenderingConserves(s, choice);
    } else {
      WorkerKeepsBooks(s, choice);
      SameBooksConserve(s, s');
    }
  }

  // The callback logs.

  lemma ProducerKeepsLogs(s: State, p: Thread, call: Call, millis: int64)
    requires ProducersAreSane(s) && p in s.producers && Logged(s)
    ensures Logged(ProducerStep(s, p, call, millis))
  {
    ProducerKeepsFrame(s, p, call, millis);
    ProducerKeepsHistory(s, p, call, millis);
    var s' := ProducerStep(s, p, call, millis);
    forall j | 0 <= j < |s.streams|
      ensures Visited(s', j) == Visited(s, j)
    {
    }
  }

  /** Starting a pass shows it to no stream yet. */
  lemma RenderingKeepsLogs(s: State, s': State, f: FanOut)
    requires Logged(s) && s.worker.Rendering?
    requires f.table == s.streams
    requires s' == s.(worker := Fanning(0), history := s.history.(fanOuts := s.history.fanOuts + [f]))
    ensures Logged(s')
  {
    forall j | 0 <= j < |s.streams|
      ensures Visited(s', j) == Visited(s, j)
    {
    }
  }

  /** Visiting a stream gives it exactly what the pass owes it, and touches no other log. */
  lemma VisitKeepsLogs(s: State, s': State, status: Status)
    requires Logged(s) && s.worker.Fanning? && s.worker.next < |s.streams|
    requires var f := s.history.fanOuts[|s.history.fanOuts| - 1];
             s' == s.(worker := Fanning(s.worker.next + 1), history := Deliver(s, s.worker.next, f, status))
    ensures Logged(s')
  {
    var n, fs := s.worker.next, s.history.fanOuts;
    assert s'.history.fanOuts == fs;
    VisitedLog(s, s', status);
    forall j | 0 <= j < |s.streams| && j != n
      ensures s'.history.logs[j] == ExpectedLog(Visited(s', j), j, s.config.capacities)
    {
      assert Visited(s', j) == Visited(s, j) && s'.history.logs[j] == s.history.logs[j];
    }
  }

  lemma VisitedLog(s: State, s': State, status: Status)
    requires Logged(s) && s.worker.Fanning? && s.worker.next < |s.streams|
    requires var f := s.history.fanOuts[|s.history.fanOuts| - 1];
             s' == s.(worker := Fanning(s.worker.next + 1), history := Deliver(s, s.worker.next, f, status))
    ensures var n := s.worker.next;
            |s'.history.logs| == |s.streams|
            && s'.history.logs[n] == ExpectedLog(Visited(s', n), n, s.config.capacities)
  {
    var n, fs := s.worker.next, s.history.fanOuts;
    assert Visited(s, n) == fs[..|fs| - 1] && Visited(s', n) == fs;
  }

  /** Steps that neither start a pass nor visit a stream. */
  lemma NothingLogged(s: State, s': State)
    requires Logged(s) && s'.streams == s.streams && s'.config.capacities == s.config.capacities
    requires s'.history.logs == s.history.logs && s'.history.fanOuts == s.history.fanOuts
    requires !s'.worker.Fanning? && (s.worker.Fanning? ==> s.worker.next == |s.streams|)
    ensures Logged(s')
  {
    forall j | 0 <= j < |s.streams|
      ensures Visited(s', j) == Visited(s, j)
    {
    }
  }

  lemma WorkerKeepsLogs(s: State, choice: Choice)
    requires WorkerCanStep(s) && WorkerIsSane(s) && Logged(s)
    ensures Logged(WorkerStep(s, choice))
  {
    if s.worker.Rendering? {
      var f := FanOut(s.worker.record, RenderSettings(s.config), choice.stamp, s.streams);
      RenderingKeepsLogs(s, WorkerStep(s, choice), f);
    } else if s.worker.Fanning? && s.worker.next < |s.streams| {
      VisitKeepsLogs(s, WorkerStep(s, choice), choice.status);
    } else {
      WorkerKeepsFrame(s, choice);
      QuietWorkerKeepsLogs(s, choice);
      NothingLogged(s, WorkerStep(s, choice));
    }
  }

  lemma QuietWorkerKeepsLogs(s: State, choice: Choice)
    requires WorkerCanStep(s) && WorkerIsSane(s)
    requires !s.worker.Rendering? && !(s.worker.Fanning? && s.worker.next < |s.streams|)
    ensures var s' := WorkerStep(s, choice);
            && s'.history.logs == s.history.logs && s'.history.fanOuts == s.history.fanOuts
            && !s'.worker.Fanning?
  {
    QuietWorkerKeepsLists(s, choice);
    assert !NextWorker(s, choice).Fanning?;
  }

  lemma QuietWorkerKeepsLists(s: State, choice: Choice)
    requires WorkerCanStep(s) && WorkerIsSane(s)
    requires !s.worker.Rendering? && !(s.worker.Fanning? && s.worker.next < |s.streams|)
    ensures var h, h' := s.history, Worked(s, choice).history; h'.logs == h.logs && h'.fanOuts == h.fanOuts
  {
  }

  lemma {:induction false} UnregisteredStreamExpectsNothing(fanOuts: seq<FanOut>, j: nat, caps: Capacities)
    requires forall k | 0 <= k < |fanOuts| :: |fanOuts[k].table| <= j
    ensures ExpectedLog(fanOuts, j, caps) == []
  {
    if fanOuts != [] {
      UnregisteredStreamExpectsNothing(fanOuts[..|fanOuts| - 1], j, caps);
    }
  }

  lemma ControlKeepsLogs(s: State, order: Order)
    requires ControlCanStep(s, order) && Logged(s) && Lifecycle(s)
    ensures Logged(ControlStep(s, order))
  {
    match order
    case Start => SameLogs(s, ControlStep(s, order));
    case Shutdown => SameLogs(s, ControlStep(s, order));
    case Continue(_) =>
      ContinuingKeepsLists(s, order);
      SameLogs(s, ControlStep(s, order));
    case AddStream(stream, hasWrite) => RegistrationKeepsLogs(s, stream, hasWrite);
    case Configure(request) =>
      TableStaysWellFormed(s.streams, Stream("", 0, 0), false, request.levels);
      SameLogs(s, ControlStep(s, order));
  }

  lemma SameVisited(s: State, s': State, j: nat)
    requires s'.history.fanOuts == s.history.fanOuts
    requires s'.worker == s.worker || (!s'.worker.Fanning? && !s.worker.Fanning?)
    ensures Visited(s', j) == Visited(s, j)
  {
  }

  lemma SameLogs(s: State, s': State)
    requires Logged(s) && WellFormed(s'.streams) && |s'.streams| == |s.streams|
    requires s'.config.capacities == s.config.capacities
    requires s'.history.logs == s.history.logs && s'.history.fanOuts == s.history.fanOuts
    requires (s'.worker == s.worker && s'.streams == s.streams) || (!s'.worker.Fanning? && !s.worker.Fanning?)
    ensures Logged(s')
  {
    forall j | 0 <= j < |s'.streams|
      ensures s'.history.logs[j] == ExpectedLog(Visited(s', j), j, s'.config.capacities)
    {
      SameVisited(s, s', j);
    }
  }

  lemma ContinuingKeepsLists(s: State, order: Order)
    requires ControlCanStep(s, order) && order.Continue? && Lifecycle(s)
    ensures var s' := ControlStep(s, order);
            && s'.config == s.config && s'.streams == s.streams
            && s'.history.logs == s.history.logs && s'.history.fanOuts == s.history.fanOuts
            && (s'.worker == s.worker || (!s'.worker.Fanning? && !s.worker.Fanning?))
  {
    match s.control { case Starting => case Created => case Raised => case Signalled => case Joining => case Joined => }
  }

  lemma RegistrationKeepsLogs(s: State, stream: Stream, hasWrite: bool)
    requires ControlCanStep(s, AddStream(stream, hasWrite)) && Logged(s)
    ensures Logged(ControlStep(s, AddStream(stream, hasWrite)))
  {
    var s' := ControlStep(s, AddStream(stream, hasWrite));
    TableStaysWellFormed(s.streams, stream, hasWrite, s.config.levels);
    UnregisteredStreamExpectsNothing(s.history.fanOuts, |s.streams|, s.config.capacities);
    forall j | 0 <= j < |s.streams|
      ensures s'.history.logs[j] == s.history.logs[j] && Visited(s', j) == Visited(s, j)
    {
    }
  }

  // Wakeups.

  lemma ProducerKeepsWakeup(s: State, p: Thread, call: Call, millis: int64)
    requires ProducersAreSane(s) && p in s.producers && NoLostWakeup(s)
    ensures NoLostWakeup(ProducerStep(s, p, call, millis))
  {
    var s' := ProducerStep(s, p, call, millis);
    ProducerMovesMutex(s, p, call, millis);
    ProducerMovesQueue(s, p, call, millis);
    SignallersGoOn(s, s', p, call, millis);
    if s'.worker.Parked? && s'.queue.count > 0 {
      if !OwesSignal(s'.producers[p]) {
        var r :| r in s.producers && OwesSignal(s.producers[r]);
        assert r != p && s'.producers[r] == s.producers[r];
      }
    }
  }

  /** A producer that raises the count, or owes a signal and does not send it, owes one afterwards. */
  lemma SignallersGoOn(s: State, s': State, p: Thread, call: Call, millis: int64)
    requires ProducersAreSane(s) && p in s.producers && s' == ProducerStep(s, p, call, millis) && p in s'.producers
    ensures s.producers[p].Copied? || s.producers[p].Published? ==> OwesSignal(s'.producers[p])
    ensures s.producers[p].Released? ==> !s'.worker.Parked?
  {
  }

  lemma WorkerKeepsWakeup(s: State, choice: Choice)
    requires WorkerCanStep(s) && WorkerIsSane(s) && Exclusion(s) && NoLostWakeup(s)
    requires s.worker.Parking? ==> s.queue.count == 0
    ensures NoLostWakeup(WorkerStep(s, choice))
  {
    WorkerKeepsFrame(s, choice);
    WorkerMovesQueue(s, choice);
    WorkerParksOnlyFromParking(s, choice);
  }

  lemma WorkerParksOnlyFromParking(s: State, choice: Choice)
    requires WorkerCanStep(s) && WorkerIsSane(s)
    ensures WorkerStep(s, choice).worker.Parked? ==> s.worker.Parking?
  {
  }

  // Accounting.

  lemma {:induction false} OneMemberMoves(before: set<Thread>, after: set<Thread>, p: Thread)
    requires after - {p} == before - {p}
    ensures |after| - (if p in after then 1 else 0) == |before| - (if p in before then 1 else 0)
  {
    if p in before {
      assert |before - {p}| == |before| - 1;
    } else {
      assert before - {p} == before;
    }
    if p in after {
      assert |after - {p}| == |after| - 1;
    } else {
      assert after - {p} == after;
    }
  }

  function OwesOne(pc: Producer, status: Status): nat {
    if Due(pc) == Some(status) then 1 else 0
  }

  lemma OwingMoves(before: map<Thread, Producer>, p: Thread, pc: Producer, status: Status)
    requires p in before
    ensures |Owing(before[p := pc], status)| - OwesOne(pc, status) ==
            |Owing(before, status)| - OwesOne(before[p], status)
  {
    OneMemberMoves(Owing(before, status), Owing(before[p := pc], status), p);
  }

  lemma ProducerCounts(s: State, p: Thread, call: Call, millis: int64)
    requires ProducersAreSane(s) && p in s.producers
    ensures var s' := ProducerStep(s, p, call, millis);
            && s'.queued == s.queued + (if s.producers[p].Accepted? then 1 else 0)
            && s'.droppedBusy == s.droppedBusy + (if s.producers[p].Contended? then 1 else 0)
            && s'.droppedFull == s.droppedFull + (if s.producers[p].FullReleased? then 1 else 0)
  {
    match s.producers[p] { case Idle => case Running(_) => case Contended => case Testing(_) => case Full =>
                           case FullReleased => case Accepted(_) => case Numbered(_) => case Copied =>
                           case Published => case Released => case Returning(_) => }
  }

  lemma ProducerAnswers(s: State, p: Thread, call: Call, millis: int64)
    requires ProducersAreSane(s) && p in s.producers
    ensures ProducerStep(s, p, call, millis).history.answers ==
            s.history.answers + if s.producers[p].Returning? then multiset{s.producers[p].status} else multiset{}
  {
  }

  /** A producer becomes bound to a counted status exactly at the step that counts it. */
  lemma ProducerBinds(s: State, p: Thread, call: Call, millis: int64)
    requires ProducersAreSane(s) && p in s.producers && p in ProducerStep(s, p, call, millis).producers
    ensures var due, due' := Due(s.producers[p]), Due(ProducerStep(s, p, call, millis).producers[p]);
            && (s.producers[p].Returning? ==> due'.None?)
            && (s.producers[p].Accepted? ==> due.None? && due' == Some(Ok))
            && (s.producers[p].Contended? ==> due.None? && due' == Some(Busy))
            && (s.producers[p].FullReleased? ==> due.None? && due' == Some(QueueFull))
  {
  }

  predicate Counts(pc: Producer) {
    pc.Returning? || pc.Accepted? || pc.Contended? || pc.FullReleased?
  }

  lemma ProducerStaysBound(s: State, p: Thread, call: Call, millis: int64)
    requires ProducersAreSane(s) && p in s.producers && p in ProducerStep(s, p, call, millis).producers
    requires !Counts(s.producers[p])
    ensures var due, due' := Due(s.producers[p]), Due(ProducerStep(s, p, call, millis).producers[p]);
            due' == due || (due.None? && due'.Some? && due'.value !in {Ok, Busy, QueueFull})
  {
  }

  lemma ProducerKeepsAccounts(s: State, p: Thread, call: Call, millis: int64)
    requires ProducersAreSane(s) && p in s.producers && Accounted(s)
    ensures Accounted(ProducerStep(s, p, call, millis))
  {
    var s' := ProducerStep(s, p, call, millis);
    ProducerMovesMutex(s, p, call, millis);
    ProducerCounts(s, p, call, millis);
    ProducerAnswers(s, p, call, millis);
    ProducerBinds(s, p, call, millis);
    if !Counts(s.producers[p]) {
      ProducerStaysBound(s, p, call, millis);
    }
    AccountsMove(s, s', p);
  }

  lemma AccountsMove(s: State, s': State, p: Thread)
    requires p in s.producers && p in s'.producers && s'.producers == s.producers[p := s'.producers[p]]
    requires Accounted(s)
    requires var pc, due, due' := s.producers[p], Due(s.producers[p]), Due(s'.producers[p]);
             && s'.queued == s.queued + (if pc.Accepted? then 1 else 0)
             && s'.droppedBusy == s.droppedBusy + (if pc.Contended? then 1 else 0)
             && s'.droppedFull == s.droppedFull + (if pc.FullReleased? then 1 else 0)
             && s'.history.answers == s.history.answers + (if pc.Returning? then multiset{pc.status} else multiset{})
             && (pc.Returning? ==> due'.None?)
             && (pc.Accepted? ==> due.None? && due' == Some(Ok))
             && (pc.Contended? ==> due.None? && due' == Some(Busy))
             && (pc.FullReleased? ==> due.None? && due' == Some(QueueFull))
             && (!Counts(pc) ==>
                   due' == due || (due.None? && due'.Some? && due'.value !in {Ok, Busy, QueueFull}))
    ensures Accounted(s')
  {
    OwingMoves(s.producers, p, s'.producers[p], Ok);
    OwingMoves(s.producers, p, s'.producers[p], Busy);
    OwingMoves(s.producers, p, s'.producers[p], QueueFull);
  }

  // Mirrored drop totals, and what the worker leaves alone in the history.

  lemma MirroringGrows(reports: seq<nat>, last: nat, total: nat)
    requires MirrorsTotal(reports, last, total)
    ensures MirrorsTotal(Mirrored(reports, last, total).0, Mirrored(reports, last, total).1, total)
    ensures Mirrored(reports, last, total).1 == total
  {
  }

  /** Only the two report steps of each total touch it. */
  lemma WorkerMirrorsBusy(s: State, choice: Choice)
    requires WorkerCanStep(s) && WorkerIsSane(s)
    ensures var h, s' := s.history, Worked(s, choice);
            (s'.history.busyReports, s'.lastBusy) ==
            if s.worker.ReportBusy? || s.worker.FinalBusy? then Mirrored(h.busyReports, s.lastBusy, s.droppedBusy)
            else (h.busyReports, s.lastBusy)
  {
  }

  lemma WorkerMirrorsFull(s: State, choice: Choice)
    requires WorkerCanStep(s) && WorkerIsSane(s)
    ensures var h, s' := s.history, Worked(s, choice);
            (s'.history.fullReports, s'.lastFull) ==
            if s.worker.ReportFull? || s.worker.FinalFull? then Mirrored(h.fullReports, s.lastFull, s.droppedFull)
            else (h.fullReports, s.lastFull)
  {
  }

  lemma WorkerKeepsMirroring(s: State, choice: Choice)
    requires WorkerCanStep(s) && WorkerIsSane(s) && Mirroring(s)
    ensures Mirroring(WorkerStep(s, choice))
  {
    WorkerKeepsFrame(s, choice);
    WorkerMirrorsBusy(s, choice);
    WorkerMirrorsFull(s, choice);
    MirroringGrows(s.history.busyReports, s.lastBusy, s.droppedBusy);
    MirroringGrows(s.history.fullReports, s.lastFull, s.droppedFull);
  }

  lemma WorkerKeepsAdmission(s: State, choice: Choice)
    requires WorkerCanStep(s) && WorkerIsSane(s)
    ensures WorkerStep(s, choice).history.admitted == s.history.admitted
    ensures WorkerStep(s, choice).history.answers == s.history.answers
  {
  }

  lemma WorkerOnlyCountsUp(s: State, choice: Choice)
    requires WorkerCanStep(s) && WorkerIsSane(s)
    ensures s.processed <= WorkerStep(s, choice).processed
  {
  }

  // All together.

  lemma ProducerKeepsInv(s: State, p: Thread, call: Call, millis: int64)
    requires Inv(s) && p in s.producers
    ensures Inv(ProducerStep(s, p, call, millis))
  {
    ProducerKeepsFrame(s, p, call, millis);
    ProducerKeepsHistory(s, p, call, millis);
    ProducerMovesQueue(s, p, call, millis);
    ProducerConserves(s, p, call, millis);
    ProducerKeepsLogs(s, p, call, millis);
    ProducerKeepsWakeup(s, p, call, millis);
    ProducerKeepsLifecycle(s, p, call, millis);
    ProducerKeepsAccounts(s, p, call, millis);
  }

  lemma WorkerKeepsInv(s: State, choice: Choice)
    requires Inv(s) && WorkerCanStep(s)
    ensures Inv(WorkerStep(s, choice))
  {
    WorkerKeepsFrame(s, choice);
    WorkerConserves(s, choice);
    WorkerKeepsLogs(s, choice);
    WorkerKeepsWakeup(s, choice);
    WorkerKeepsLifecycle(s, choice);
    WorkerKeepsMirroring(s, choice);
    WorkerKeepsAdmission(s, choice);
    WorkerOnlyCountsUp(s, choice);
  }

  /** What spurious wakeups, flushers and the control thread leave alone. */
  ghost predicate OutsiderFrame(s: State, s': State) {
    && s'.config.capacities == s.config.capacities
    && s'.queue == s.queue && s'.mutex == s.mutex && s'.producers == s.producers
    && s'.queued == s.queued && s'.processed == s.processed
    && s'.droppedBusy == s.droppedBusy && s'.droppedFull == s.droppedFull
    && s'.history.admitted == s.history.admitted && s'.history.fanOuts == s.history.fanOuts
    && s'.history.answers == s.history.answers
    && InFlight(s'.worker) == InFlight(s.worker) && WorkerHolds(s'.worker) == WorkerHolds(s.worker)
    && (s'.worker.Fanning? || s'.worker.Counting? <==> s.worker.Fanning? || s.worker.Counting?)
    && (s'.worker.Parked? ==> s.worker.Parked?)
  }

  lemma OutsiderKeepsInv(s: State, s': State)
    requires Inv(s) && OutsiderFrame(s, s')
    requires Logged(s') && Lifecycle(s') && FlushesAreSound(s') && Mirroring(s')
    ensures Inv(s')
  {
    assert Exclusion(s') && RingIsSound(s');
    assert Unpublished(s') == Unpublished(s);
    assert Conserved(s');
    assert Accounted(s');
  }

  lemma ControlIsOutsider(s: State, order: Order)
    requires ControlCanStep(s, order) && Lifecycle(s)
    ensures OutsiderFrame(s, ControlStep(s, order))
    ensures ControlStep(s, order).flushers == s.flushers
  {
    match order
    case Start =>
    case Shutdown =>
    case Continue(_) => ContinuingIsOutsider(s, order);
    case AddStream(_, _) =>
    case Configure(_) =>
  }

  lemma ContinuingIsOutsider(s: State, order: Order)
    requires ControlCanStep(s, order) && order.Continue? && Lifecycle(s)
    ensures OutsiderFrame(s, ControlStep(s, order))
    ensures ControlStep(s, order).flushers == s.flushers
  {
    match s.control { case Starting => case Created => case Raised => case Signalled => case Joining => case Joined => }
  }

  lemma ControlMirrors(s: State, order: Order)
    requires ControlCanStep(s, order)
    ensures var s' := ControlStep(s, order);
            && s'.droppedBusy == s.droppedBusy && s'.droppedFull == s.droppedFull
            && ((&& s'.lastBusy == s.lastBusy && s'.lastFull == s.lastFull
                 && s'.history.busyReports == s.history.busyReports && s'.history.fullReports == s.history.fullReports)
                || (s'.lastBusy == s'.lastFull == 0 && s'.history.busyReports == s'.history.fullReports == []))
  {
    if order.Continue? {
      match s.control { case Starting => case Created => case Raised => case Signalled => case Joining =>
                        case Joined => }
    }
  }

  lemma ControlKeepsMirroring(s: State, s': State)
    requires Mirroring(s) && s'.droppedBusy == s.droppedBusy && s'.droppedFull == s.droppedFull
    requires (&& s'.lastBusy == s.lastBusy && s'.lastFull == s.lastFull
              && s'.history.busyReports == s.history.busyReports && s'.history.fullReports == s.history.fullReports)
             || (s'.lastBusy == s'.lastFull == 0 && s'.history.busyReports == s'.history.fullReports == [])
    ensures Mirroring(s')
  {
  }

  lemma ControlKeepsInv(s: State, order: Order)
    requires Inv(s) && ControlCanStep(s, order)
    ensures Inv(ControlStep(s, order))
  {
    ControlIsOutsider(s, order);
    ControlKeepsLogs(s, order);
    ControlKeepsLifecycle(s, order);
    ControlMirrors(s, order);
    ControlKeepsMirroring(s, ControlStep(s, order));
    OutsiderKeepsInv(s, ControlStep(s, order));
  }

  lemma FlusherKeepsInv(s: State, f: Thread, giveUp: bool)
    requires Inv(s) && f in s.flushers
    ensures Inv(FlusherStep(s, f, giveUp))
  {
    var s' := FlusherStep(s, f, giveUp);
    assert forall j | 0 <= j < |s.streams| :: Visited(s', j) == Visited(s, j);
    OutsiderKeepsInv(s, s');
  }

  lemma WakeKeepsInv(s: State)
    requires Inv(s)
    ensures Inv(Wake(s))
  {
    assert forall j | 0 <= j < |s.streams| :: Visited(Wake(s), j) == Visited(s, j);
    OutsiderKeepsInv(s, Wake(s));
  }

  /** Every enabled step of every thread keeps the invariant. */
  lemma StepKeepsInv(s: State, step: Step)
    requires Inv(s) && Enabled(s, step)
    ensures Inv(Next(s, step))
  {
    match step
    case ByProducer(p, call, millis) => ProducerKeepsInv(s, p, call, millis);
    case ByWorker(choice) => WorkerKeepsInv(s, choice);
    case SpuriousWake => WakeKeepsInv(s);
    case ByFlusher(f, giveUp) => FlusherKeepsInv(s, f, giveUp);
    case ByControl(order) => ControlKeepsInv(s, order);
  }

  lemma RunKeepsInv(states: seq<State>, steps: seq<Step>, i: nat)
    requires IsRun(states, steps) && i < |steps| && Inv(states[i])
    ensures Inv(states[i + 1])
  {
    assert StepAt(states, steps, i);
    StepKeepsInv(states[i], steps[i]);
  }

  /** Every state of every run satisfies the invariant. */
  lemma {:induction false} RunInv(states: seq<State>, steps: seq<Step>, i: nat)
    requires IsRun(states, steps) && i < |states|
    ensures Inv(states[i])
  {
    if i == 0 {
      InitialInv(states[0]);
    } else {
      RunInv(states, steps, i - 1);
      RunKeepsInv(states, steps, i - 1);
    }
  }

  /** The side condition in the definition of a run forbids nothing: any enabled step extends it. */
  lemma RunsExtend(states: seq<State>, steps: seq<Step>, step: Step)
    requires IsRun(states, steps) && Enabled(states[|steps|], step)
    ensures Sane(states[|steps|])
    ensures IsRun(states + [Next(states[|steps|], step)], steps + [step])
  {
    RunInv(states, steps, |steps|);
    var states', steps' := states + [Next(states[|steps|], step)], steps + [step];
    forall i | 0 <= i < |steps'|
      ensures StepAt(states', steps', i)
    {
      if i < |steps| {
        assert StepAt(states, steps, i);
        assert states'[i] == states[i] && states'[i + 1] == states[i + 1] && steps'[i] == steps[i];
      }
    }
  }
}
