/** The concurrent logger as a state machine. Each step is one access to shared state by one thread:
    a mutex operation, an atomic operation, one read or write of a plain field, or a
    lock-protected write that no other thread can observe half done. Threads interleave freely. */
module Protocol {
  import opened Records
  import opened Ring
  import opened Streams
  import opened Config
  import Render
  import Validation

  type Thread = nat

  datatype Mutex = Free | HeldBy(producer: Thread) | HeldByWorker

  /** Where a producer stands in mp_logger_enqueue_record. */
  datatype Producer =
    | Idle
    | Running(draft: Record)     // valid call, shutdown flag seen clear; next: trylock
    | Contended                  // trylock failed; owes the busy counter
    | Testing(draft: Record)     // holds the mutex; next: compare the count
    | Full                       // holds the mutex; the queue has no room
    | FullReleased               // owes the full counter
    | Accepted(draft: Record)    // holds the mutex; next: take a sequence number
    | Numbered(record: Record)   // holds the mutex; next: fill the slot
    | Copied                     // holds the mutex; next: move the tail, raise the count
    | Published                  // holds the mutex; next: unlock
    | Released                   // owes the condition signal
    | Returning(status: Status)

  /** Where the worker stands in mp_logger_worker_main. */
  datatype Worker =
    | Absent                     // never created, or joined
    | Spawned                    // next: allocate the scratch buffers
    | Seeking                    // top of the loop; next: lock
    | Checking                   // holds the mutex; next: the wait condition
    | Parking                    // holds the mutex; about to wait
    | Parked                     // waiting on the condition, mutex released
    | Woken                      // leaving the wait; next: relock
    | Taking                     // holds the mutex; the wait loop is over
    | Dequeued(item: Option<Record>)    // holds the mutex; next: unlock
    | ReportBusy(item: Option<Record>)
    | ReportFull(item: Option<Record>)
    | Rendering(record: Record)  // next: lock the stream mutex and render
    | Fanning(next: nat)         // holds the stream mutex; next stream to visit
    | Counting                   // stream mutex released; owes the processed counter
    | Leaving                    // holds the mutex; queue empty and shutdown seen
    | FinalBusy
    | FinalFull
    | Exited(drained: bool)      // thread function returned; not drained after a failed allocation

  datatype Flusher =
    | Resting
    | ReadingCount               // worker_started was clear
    | Snapshotting               // worker_started was set
    | Awaiting(target: nat)
    | Flushed(target: nat)       // about to return OK from the started path
    | FlushedIdle                // about to return OK: not started, queue seen empty
    | FlushFailed(status: Status)

  /** Where the control thread stands in start and shutdown. */
  datatype Control =
    | Ready
    | Starting                   // flag cleared; next: create the thread
    | Created                    // thread created; next: set worker_started
    | Raised                     // shutdown flag set; owes the signal
    | Signalled                  // next: read worker_started
    | Joining
    | Joined                     // next: clear worker_started

  datatype Queue = Queue(slots: seq<Record>, head: nat, tail: nat, count: nat)

  /** One pass of the worker over the stream table, with everything the line depends on. */
  datatype FanOut = FanOut(record: Record, settings: Render.Settings, stamp: string, table: seq<Stream>)

  /** One callback invocation. */
  datatype Delivery = Delivery(record: Record, line: string)

  datatype Failure = Failure(stream: string, status: Status)

  /** What the program does not store but the theorems speak about. */
  datatype History = History(
    admitted: seq<Record>,         // records in the order their numbers were taken
    fanOuts: seq<FanOut>,          // worker passes in order
    logs: seq<seq<Delivery>>,      // callbacks of each registered stream
    answers: multiset<Status>,     // statuses returned by enqueue calls
    busyReports: seq<nat>,         // drop totals mirrored to the backup log by the current worker
    fullReports: seq<nat>,
    failures: seq<Failure>)        // failed writes mirrored to the backup log

  datatype State = State(
    config: Config,
    queue: Queue,
    mutex: Mutex,
    queued: nat, processed: nat, droppedBusy: nat, droppedFull: nat,
    shutdown: bool, started: bool,
    streams: seq<Stream>,
    producers: map<Thread, Producer>,
    worker: Worker, lastBusy: nat, lastFull: nat,
    flushers: map<Thread, Flusher>,
    control: Control,
    history: History)

  function Contents(q: Queue): seq<Record>
    requires q.head < |q.slots| && q.count <= |q.slots|
  {
    Window(q.slots, q.head, q.count)
  }

  // Producers. Every step is enabled in every state: no producer ever blocks.

  /** Validation reads only the call and the fixed capacities, so the record the call will become
      is settled here, all but its number and its time. */
  function Begin(s: State, call: Call): (pc: Producer)
    requires s.config.capacities.Valid()
    ensures pc.Running? || (pc.Returning? && pc.status !in {Ok, Busy, QueueFull})
  {
    Validation.CallStatusRange(s.config.capacities, call);
    var status := Validation.CallStatus(s.config.capacities, call);
    if status != Ok then Returning(status)
    else if s.shutdown then Returning(NotRunning)
    else Running(Validation.Admitted(s.config.capacities, call, 0, 0))
  }

  function Wake(s: State): State {
    if s.worker.Parked? then s.(worker := Woken) else s
  }

  predicate ProducersAreSane(s: State) {
    s.config.capacities.Valid() && s.config.capacities.slots == |s.queue.slots| && s.queue.tail < |s.queue.slots|
  }

  /** Where the producer goes. */
  function NextPc(s: State, p: Thread, call: Call, millis: int64): Producer
    requires p in s.producers && ProducersAreSane(s)
  {
    match s.producers[p]
    case Idle => Begin(s, call)
    case Running(draft) => if s.mutex.Free? then Testing(draft) else Contended
    case Contended => Returning(Busy)
    case Testing(draft) => if s.queue.count >= s.config.capacities.slots then Full else Accepted(draft)
    case Full => FullReleased
    case FullReleased => Returning(QueueFull)
    case Accepted(draft) => Numbered(draft.(sequence := s.queued + 1, millis := millis))
    case Numbered(_) => Copied
    case Copied => Published
    case Published => Released
    case Released => Returning(Ok)
    case Returning(_) => Idle
  }

  /** What the producer does to the shared state on the way. */
  function Touched(s: State, p: Thread, millis: int64): State
    requires p in s.producers && ProducersAreSane(s)
  {
    match s.producers[p]
    case Running(_) => if s.mutex.Free? then s.(mutex := HeldBy(p)) else s
    case Contended => s.(droppedBusy := s.droppedBusy + 1)
    case Full => s.(mutex := Free)
    case FullReleased => s.(droppedFull := s.droppedFull + 1)
    case Accepted(draft) =>
      s.(queued := s.queued + 1,
         history := s.history.(
           admitted := s.history.admitted + [draft.(sequence := s.queued + 1, millis := millis)]))
    case Numbered(record) => s.(queue := s.queue.(slots := s.queue.slots[s.queue.tail := record]))
    case Copied =>
      s.(queue := s.queue.(tail := (s.queue.tail + 1) % s.config.capacities.slots, count := s.queue.count + 1))
    case Published => s.(mutex := Free)
    case Released => Wake(s)
    case Returning(status) => s.(history := s.history.(answers := s.history.answers + multiset{status}))
    case _ => s
  }

  function ProducerStep(s: State, p: Thread, call: Call, millis: int64): State
    requires p in s.producers && ProducersAreSane(s)
  {
    Touched(s, p, millis).(producers := s.producers[p := NextPc(s, p, call, millis)])
  }

  // The worker.

  predicate WorkerCanStep(s: State) {
    match s.worker
    case Absent => false
    case Exited(_) => false
    case Parked => false
    case Seeking => s.mutex.Free?
    case Woken => s.mutex.Free?
    case _ => true
  }

  /** A drop total that has grown since the last look is mirrored and remembered. */
  function Mirrored(reports: seq<nat>, last: nat, current: nat): (seq<nat>, nat) {
    if current > last then (reports + [current], current) else (reports, last)
  }

  function WithBusyReport(s: State): State {
    var (reports, last) := Mirrored(s.history.busyReports, s.lastBusy, s.droppedBusy);
    s.(lastBusy := last, history := s.history.(busyReports := reports))
  }

  function WithFullReport(s: State): State {
    var (reports, last) := Mirrored(s.history.fullReports, s.lastFull, s.droppedFull);
    s.(lastFull := last, history := s.history.(fullReports := reports))
  }

  /** The line handed to the callbacks: the logical line cut to the render buffer. */
  function LineOf(f: FanOut, caps: Capacities): string {
    Cut(Render.Line(f.settings, f.record, f.stamp), Render.RenderCapacity(caps))
  }

  function Deliver(s: State, j: nat, f: FanOut, status: Status): History
    requires j < |s.history.logs| && j < |s.streams|
  {
    if !Accepts(s.streams[j], f.record.level) then s.history
    else
      var logs := s.history.logs[j := s.history.logs[j] + [Delivery(f.record, LineOf(f, s.config.capacities))]];
      s.history.(
        logs := logs,
        failures := s.history.failures + if status == Ok then [] else [Failure(s.streams[j].name, status)])
  }

  /** What the environment decides at a worker step. */
  datatype Choice = Choice(buffers: bool, stamp: string, status: Status)

  predicate WorkerIsSane(s: State) {
    && |s.history.logs| == |s.streams|
    && s.config.capacities.slots == |s.queue.slots|
    && s.queue.head < |s.queue.slots| && s.queue.count <= |s.queue.slots|
    && (s.worker.Fanning? ==> s.history.fanOuts != [] && s.worker.next <= |s.streams|)
  }

  /** Where the worker goes. */
  function NextWorker(s: State, choice: Choice): Worker
    requires WorkerCanStep(s) && WorkerIsSane(s)
  {
    match s.worker
    case Spawned => if choice.buffers then Seeking else Exited(false)
    case Seeking => Checking
    case Woken => Checking
    case Checking => if s.queue.count == 0 && !s.shutdown then Parking else Taking
    case Parking => Parked
    case Taking =>
      if s.queue.count > 0 then Dequeued(Some(s.queue.slots[s.queue.head]))
      else if s.shutdown then Leaving
      else Dequeued(None)
    case Dequeued(item) => ReportBusy(item)
    case ReportBusy(item) => ReportFull(item)
    case ReportFull(item) => if item.Some? then Rendering(item.value) else Seeking
    case Rendering(_) => Fanning(0)
    case Fanning(next) => if next == |s.streams| then Counting else Fanning(next + 1)
    case Counting => Seeking
    case Leaving => FinalBusy
    case FinalBusy => FinalFull
    case FinalFull => Exited(true)
  }

  /** What the worker does to the shared state on the way. */
  function Worked(s: State, choice: Choice): State
    requires WorkerCanStep(s) && WorkerIsSane(s)
  {
    match s.worker
    case Seeking => s.(mutex := HeldByWorker)
    case Woken => s.(mutex := HeldByWorker)
    case Parking => s.(mutex := Free)
    case Taking =>
      if s.queue.count == 0 then s
      else s.(queue := s.queue.(head := (s.queue.head + 1) % s.config.capacities.slots, count := s.queue.count - 1))
    case Dequeued(_) => s.(mutex := Free)
    case ReportBusy(_) => WithBusyReport(s)
    case ReportFull(_) => WithFullReport(s)
    case Rendering(record) =>
      var f := FanOut(record, RenderSettings(s.config), choice.stamp, s.streams);
      s.(history := s.history.(fanOuts := s.history.fanOuts + [f]))
    case Fanning(next) =>
      if next == |s.streams| then s
      else s.(history := Deliver(s, next, s.history.fanOuts[|s.history.fanOuts| - 1], choice.status))
    case Counting => s.(processed := s.processed + 1)
    case Leaving => s.(mutex := Free)
    case FinalBusy => WithBusyReport(s)
    case FinalFull => WithFullReport(s)
    case _ => s
  }

  function WorkerStep(s: State, choice: Choice): State
    requires WorkerCanStep(s) && WorkerIsSane(s)
  {
    Worked(s, choice).(worker := NextWorker(s, choice))
  }

  // Flushers.

  function NextFlusher(s: State, f: Thread, giveUp: bool): Flusher
    requires f in s.flushers
  {
    match s.flushers[f]
    case Resting => if s.started then Snapshotting else ReadingCount
    case ReadingCount => if s.queue.count == 0 then FlushedIdle else FlushFailed(NotRunning)
    case Snapshotting => Awaiting(s.queued)
    case Awaiting(target) =>
      if s.processed >= target then Flushed(target)
      else if giveUp then FlushFailed(InternalError)
      else Awaiting(target)
    case Flushed(_) => Resting
    case FlushedIdle => Resting
    case FlushFailed(_) => Resting
  }

  function FlusherStep(s: State, f: Thread, giveUp: bool): State
    requires f in s.flushers
  {
    s.(flushers := s.flushers[f := NextFlusher(s, f, giveUp)])
  }

  // The control thread: start, shutdown, add_stream, configure.

  datatype Order =
    | Start
    | Shutdown
    | Continue(succeeds: bool)   // the next access of the call in progress; it may fail or time out
    | AddStream(stream: Stream, hasWrite: bool)
    | Configure(request: Config)

  predicate StreamMutexIsFree(s: State) {
    !s.worker.Fanning?
  }

  predicate ControlCanStep(s: State, order: Order) {
    match order
    case Start => s.control.Ready?
    case Shutdown => s.control.Ready?
    case Continue(succeeds) => !s.control.Ready? && (s.control.Joining? && succeeds ==> s.worker.Exited?)
    case AddStream(_, _) => StreamMutexIsFree(s)
    case Configure(_) => s.control.Ready? && StreamMutexIsFree(s)
  }

  function ControlStep(s: State, order: Order): State
    requires ControlCanStep(s, order)
  {
    match order
    case Start =>
      if s.started || |s.streams| == 0 then s else s.(control := Starting, shutdown := false)
    case Shutdown => s.(control := Raised, shutdown := true)
    case Continue(succeeds) =>
      (match s.control
       case Starting =>
         if succeeds
         then s.(control := Created, worker := Spawned, lastBusy := 0, lastFull := 0,
                 history := s.history.(busyReports := [], fullReports := []))
         else s.(control := Ready)
       case Created => s.(control := Ready, started := true)
       case Raised => Wake(s.(control := Signalled))
       case Signalled => s.(control := if s.started then Joining else Ready)
       case Joining => if succeeds then s.(control := Joined, worker := Absent) else s.(control := Ready)
       case Joined => s.(control := Ready, started := false)
       case Ready => s)
    case AddStream(stream, hasWrite) =>
      if AddStatus(s.streams, stream, hasWrite) != Ok then s
      else s.(streams := Added(s.streams, stream, hasWrite), history := s.history.(logs := s.history.logs + [[]]))
    case Configure(request) =>
      if ConfigureStatus(s.config, request) != Ok then s
      else s.(config := Configured(s.config, request), streams := TunedTable(request.levels, s.streams))
  }

  // The whole system.

  datatype Step =
    | ByProducer(thread: Thread, call: Call, millis: int64)
    | ByWorker(choice: Choice)
    | SpuriousWake
    | ByFlusher(thread: Thread, giveUp: bool)
    | ByControl(order: Order)

  predicate Enabled(s: State, step: Step) {
    match step
    case ByProducer(p, _, _) => p in s.producers
    case ByWorker(_) => WorkerCanStep(s)
    case SpuriousWake => s.worker.Parked?
    case ByFlusher(f, _) => f in s.flushers
    case ByControl(order) => ControlCanStep(s, order)
  }

  /** Facts without which a step would index out of bounds. They hold in every state a run reaches
      (ProtocolInvariant.RunsExtend), so they forbid no step. */
  predicate Sane(s: State) {
    ProducersAreSane(s) && WorkerIsSane(s)
  }

  function Next(s: State, step: Step): State
    requires Sane(s) && Enabled(s, step)
  {
    match step
    case ByProducer(p, call, millis) => ProducerStep(s, p, call, millis)
    case ByWorker(choice) => WorkerStep(s, choice)
    case SpuriousWake => Wake(s)
    case ByFlusher(f, giveUp) => FlusherStep(s, f, giveUp)
    case ByControl(order) => ControlStep(s, order)
  }

  /** A freshly created logger: some streams may be registered already, nothing has been logged. */
  ghost predicate Initial(s: State) {
    && s.config.capacities.Valid()
    && |s.queue.slots| == s.config.capacities.slots
    && s.queue.head == s.queue.tail == s.queue.count == 0
    && s.mutex.Free?
    && s.queued == s.processed == s.droppedBusy == s.droppedFull == 0
    && !s.shutdown && !s.started
    && WellFormed(s.streams)
    && (forall p | p in s.producers :: s.producers[p].Idle?)
    && s.worker.Absent? && s.lastBusy == s.lastFull == 0
    && (forall f | f in s.flushers :: s.flushers[f].Resting?)
    && s.control.Ready?
    && s.history == History([], [], seq(|s.streams|, _ => []), multiset{}, [], [], [])
  }

  /** The i-th step leads from the i-th state to the next. */
  ghost predicate StepAt(states: seq<State>, steps: seq<Step>, i: nat)
    requires i < |steps| && |states| == |steps| + 1
  {
    Sane(states[i]) && Enabled(states[i], steps[i]) && states[i + 1] == Next(states[i], steps[i])
  }

  /** A run: the first state is initial and every step leads from one state to the next. */
  ghost predicate IsRun(states: seq<State>, steps: seq<Step>) {
    && |states| == |steps| + 1
    && Initial(states[0])
    && forall i | 0 <= i < |steps| :: StepAt(states, steps, i)
  }
}
