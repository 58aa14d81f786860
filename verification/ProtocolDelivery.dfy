/** What arrives at the streams: the rendered form of calls that were made, and nothing else. */
module ProtocolDelivery {
  import opened Records
  import opened Streams
  import opened Protocol
  import opened ProtocolInvariant
  import opened ProtocolTheorems
  import opened Config
  import CallLaw
  import Validation
  import Render
  import Json
  import JsonParseBack
  import JsonUtf8
  import Utf8

  /** A record without what admission adds to the call: its number and its time. */
  function Stem(r: Record): Record {
    r.(sequence := 0, millis := 0)
  }

  function DraftOf(pc: Producer): Option<Record> {
    match pc
    case Running(draft) => Some(draft)
    case Testing(draft) => Some(draft)
    case Accepted(draft) => Some(draft)
    case _ => None
  }

  ghost predicate IsDraft(s: State, stem: Record) {
    exists p | p in s.producers :: DraftOf(s.producers[p]).Some? && Stem(DraftOf(s.producers[p]).value) == stem
  }

  ghost predicate IsAdmitted(s: State, stem: Record) {
    exists k | 0 <= k < |s.history.admitted| :: Stem(s.history.admitted[k]) == stem
  }

  /** The step begins a valid call, and this is the record it stands for. */
  predicate Begins(s: State, step: Step, stem: Record) {
    && step.ByProducer? && step.thread in s.producers && s.producers[step.thread].Idle?
    && s.config.capacities.Valid() && Validation.CallStatus(s.config.capacities, step.call) == Ok
    && stem == Validation.Admitted(s.config.capacities, step.call, 0, 0)
  }

  lemma ProducerKeepsStems(s: State, p: Thread, call: Call, millis: int64, stem: Record)
    requires ProducersAreSane(s) && p in s.producers
    requires IsDraft(ProducerStep(s, p, call, millis), stem)
    ensures IsDraft(s, stem) || Begins(s, ByProducer(p, call, millis), stem)
  {
    var s' := ProducerStep(s, p, call, millis);
    var r :| r in s'.producers && DraftOf(s'.producers[r]).Some? && Stem(DraftOf(s'.producers[r]).value) == stem;
    assert r in s.producers;
    if r == p {
      DraftGoesOn(s, p, call, millis);
    } else {
      assert s'.producers[r] == s.producers[r];
    }
  }

  lemma DraftGoesOn(s: State, p: Thread, call: Call, millis: int64)
    requires ProducersAreSane(s) && p in s.producers && DraftOf(NextPc(s, p, call, millis)).Some?
    ensures var draft := DraftOf(NextPc(s, p, call, millis)).value;
            DraftOf(s.producers[p]) == Some(draft) || Begins(s, ByProducer(p, call, millis), Stem(draft))
  {
  }

  lemma ProducerAdmitsDraft(s: State, p: Thread, call: Call, millis: int64, stem: Record)
    requires ProducersAreSane(s) && p in s.producers
    requires IsAdmitted(ProducerStep(s, p, call, millis), stem)
    ensures IsAdmitted(s, stem) || IsDraft(s, stem)
  {
    var s' := ProducerStep(s, p, call, millis);
    var k :| 0 <= k < |s'.history.admitted| && Stem(s'.history.admitted[k]) == stem;
    AdmittedGrowsByDraft(s, p, call, millis);
    if k < |s.history.admitted| {
      assert s.history.admitted[k] == s'.history.admitted[k];
    }
  }

  lemma AdmittedGrowsByDraft(s: State, p: Thread, call: Call, millis: int64)
    requires ProducersAreSane(s) && p in s.producers
    ensures var a, a' := s.history.admitted, ProducerStep(s, p, call, millis).history.admitted;
            if s.producers[p].Accepted?
            then |a'| == |a| + 1 && a == a'[..|a|] && Stem(a'[|a|]) == Stem(s.producers[p].draft)
            else a' == a
  {
    match s.producers[p] { case Idle => case Running(_) => case Contended => case Testing(_) => case Full =>
                           case FullReleased => case Accepted(_) => case Numbered(_) => case Copied =>
                           case Published => case Released => case Returning(_) => }
  }

  ghost predicate Known(s: State, stem: Record) {
    IsDraft(s, stem) || IsAdmitted(s, stem)
  }

  lemma StepKeepsStems(s: State, step: Step, stem: Record)
    requires Inv(s) && Enabled(s, step) && Known(Next(s, step), stem)
    ensures Known(s, stem) || Begins(s, step, stem)
  {
    match step
    case ByProducer(p, call, millis) =>
      if IsDraft(ProducerStep(s, p, call, millis), stem) {
        ProducerKeepsStems(s, p, call, millis, stem);
      } else {
        ProducerAdmitsDraft(s, p, call, millis, stem);
      }
    case ByWorker(choice) =>
      WorkerKeepsFrame(s, choice);
      WorkerKeepsAdmission(s, choice);
    case SpuriousWake =>
    case ByFlusher(_, _) =>
    case ByControl(order) => ControlIsOutsider(s, order);
  }

  lemma RunKeepsStems(states: seq<State>, steps: seq<Step>, i: nat, stem: Record)
    requires IsRun(states, steps) && i < |steps| && Known(states[i + 1], stem)
    ensures Known(states[i], stem) || Begins(states[i], steps[i], stem)
  {
    RunInv(states, steps, i);
    assert StepAt(states, steps, i);
    StepKeepsStems(states[i], steps[i], stem);
  }

  /** Whatever is being admitted or was admitted began with a valid call in this run. */
  lemma {:induction false} StemsBegin(states: seq<State>, steps: seq<Step>, i: nat, stem: Record) returns (m: nat)
    requires IsRun(states, steps) && i < |states| && Known(states[i], stem)
    ensures m < i && Begins(states[m], steps[m], stem)
  {
    if i == 0 {
      assert false;
    } else if Begins(states[i - 1], steps[i - 1], stem) {
      m := i - 1;
    } else {
      RunKeepsStems(states, steps, i - 1, stem);
      m := StemsBegin(states, steps, i - 1, stem);
    }
  }

  lemma {:induction false} CapacitiesStay(states: seq<State>, steps: seq<Step>, i: nat)
    requires IsRun(states, steps) && i < |states|
    ensures states[i].config.capacities == states[0].config.capacities
  {
    if i > 0 {
      CapacitiesStay(states, steps, i - 1);
      RunKeepsCapacities(states, steps, i - 1);
    }
  }

  lemma RunKeepsCapacities(states: seq<State>, steps: seq<Step>, i: nat)
    requires IsRun(states, steps) && i < |steps|
    ensures states[i + 1].config.capacities == states[i].config.capacities
  {
    RunInv(states, steps, i);
    assert StepAt(states, steps, i);
    var s := states[i];
    match steps[i]
    case ByProducer(p, call, millis) => ProducerKeepsFrame(s, p, call, millis);
    case ByWorker(choice) => WorkerKeepsFrame(s, choice);
    case SpuriousWake =>
    case ByFlusher(_, _) =>
    case ByControl(order) => ControlIsOutsider(s, order);
  }

  /** The record is the stored form of a call that began at some step of the run. */
  ghost predicate StandsForCall(states: seq<State>, steps: seq<Step>, m: nat, r: Record) {
    && m < |steps| && m < |states| && steps[m].ByProducer? && states[m].config.capacities.Valid()
    && Validation.CallStatus(states[m].config.capacities, steps[m].call) == Ok
    && r == Validation.Admitted(states[m].config.capacities, steps[m].call, r.sequence, r.millis)
  }

  lemma AdmittedStandsForCall(states: seq<State>, steps: seq<Step>, i: nat, r: Record) returns (m: nat)
    requires IsRun(states, steps) && i < |states| && r in states[i].history.admitted
    ensures m < i && StandsForCall(states, steps, m, r)
  {
    var k :| 0 <= k < |states[i].history.admitted| && states[i].history.admitted[k] == r;
    assert IsAdmitted(states[i], Stem(r));
    m := StemsBegin(states, steps, i, Stem(r));
  }

  lemma {:induction false} ExpectedLogIsPasses(fanOuts: seq<FanOut>, j: nat, caps: Capacities, d: Delivery)
    returns (f: FanOut)
    requires d in ExpectedLog(fanOuts, j, caps)
    ensures f in fanOuts && j < |f.table| && Accepts(f.table[j], f.record.level)
    ensures d == Delivery(f.record, LineOf(f, caps))
  {
    var last := fanOuts[|fanOuts| - 1];
    if d in ExpectedLog(fanOuts[..|fanOuts| - 1], j, caps) {
      f := ExpectedLogIsPasses(fanOuts[..|fanOuts| - 1], j, caps, d);
    } else {
      f := last;
    }
  }

  lemma PassIsOfAdmitted(states: seq<State>, steps: seq<Step>, i: nat, j: nat, d: Delivery)
    returns (f: FanOut, x: nat)
    requires IsRun(states, steps) && i < |states| && j < |states[i].streams| && j < |states[i].history.logs|
    requires d in states[i].history.logs[j]
    ensures x < |states[i].history.fanOuts| && states[i].history.fanOuts[x] == f
    ensures f.record == d.record && f.record in states[i].history.admitted
    ensures j < |f.table| && Accepts(f.table[j], d.record.level)
    ensures d.line == LineOf(f, states[i].config.capacities)
  {
    DeliveryIsComplete(states, steps, i, j);
    var s, h := states[i], states[i].history;
    if s.worker.Fanning? && s.worker.next <= j {
      f := ExpectedLogIsPasses(h.fanOuts[..|h.fanOuts| - 1], j, s.config.capacities, d);
    } else {
      f := ExpectedLogIsPasses(h.fanOuts, j, s.config.capacities, d);
    }
    x :| 0 <= x < |h.fanOuts| && h.fanOuts[x] == f;
    assert Fanned(h.fanOuts)[x] == f.record;
  }

  /** The pass was made at step k, under the configuration of that moment. */
  ghost predicate PassAt(states: seq<State>, steps: seq<Step>, k: nat, f: FanOut) {
    && k < |steps| && k < |states| && steps[k].ByWorker?
    && states[k].worker.Rendering? && f.record == states[k].worker.record
    && f.settings.service == states[k].config.serviceName
    && f.settings.environment == states[k].config.environmentName
    && f.settings.format == states[k].config.format
    && f.settings.pretty == states[k].config.pretty
    && f.stamp == steps[k].choice.stamp && f.table == states[k].streams
  }

  lemma RunAddsPass(states: seq<State>, steps: seq<Step>, m: nat)
    requires IsRun(states, steps) && m < |steps|
    ensures var a, b := states[m].history.fanOuts, states[m + 1].history.fanOuts;
            b == a || (|b| == |a| + 1 && a == b[..|a|] && PassAt(states, steps, m, b[|a|]))
  {
    RunInv(states, steps, m);
    assert StepAt(states, steps, m);
    var s := states[m];
    match steps[m]
    case ByProducer(p, call, millis) => ProducerKeepsLists(s, p, call, millis);
    case ByWorker(choice) => WorkerAddsPass(s, choice);
    case SpuriousWake =>
    case ByFlusher(_, _) =>
    case ByControl(order) => ControlIsOutsider(s, order);
  }

  lemma WorkerAddsPass(s: State, choice: Choice)
    requires WorkerCanStep(s) && WorkerIsSane(s)
    ensures var a, b := s.history.fanOuts, WorkerStep(s, choice).history.fanOuts;
            if s.worker.Rendering?
            then b == a + [FanOut(s.worker.record, RenderSettings(s.config), choice.stamp, s.streams)]
            else b == a
  {
  }

  lemma {:induction false} PassesHaveBegun(states: seq<State>, steps: seq<Step>, i: nat, x: nat) returns (k: nat)
    requires IsRun(states, steps) && i < |states| && x < |states[i].history.fanOuts|
    ensures k < i && PassAt(states, steps, k, states[i].history.fanOuts[x])
  {
    if i == 0 {
      assert false;
    } else {
      RunAddsPass(states, steps, i - 1);
      if x < |states[i - 1].history.fanOuts| {
        k := PassesHaveBegun(states, steps, i - 1, x);
      } else {
        k := i - 1;
      }
    }
  }

  lemma ValidKeysAreAscii(fields: seq<Field>)
    requires forall x | 0 <= x < |fields| :: Validation.IsValidKey(fields[x].key)
    ensures JsonUtf8.AsciiFieldKeys(fields)
  {
  }

  /** Every line a stream ever received, in any run, is the rendering, cut to the render buffer, of a
      valid call that some producer made at an earlier step m, under the names, the format and the
      punctuation that the logger was configured with at the worker's pass, step k. A JSON line that was
      not cut parses to an object that says what the caller passed; one that was cut does not parse.
      An uncut one is well encoded exactly if its texts are. */
  lemma DeliveriesAreCalls(states: seq<State>, steps: seq<Step>, i: nat, j: nat, d: Delivery)
    returns (m: nat, k: nat, f: FanOut)
    requires IsRun(states, steps) && i < |states| && j < |states[i].streams| && j < |states[i].history.logs|
    requires d in states[i].history.logs[j]
    ensures m < i && StandsForCall(states, steps, m, d.record)
    ensures k < i && PassAt(states, steps, k, f) && f.record == d.record
    ensures j < |f.table| && Accepts(f.table[j], d.record.level)
    ensures var caps := states[i].config.capacities;
            var config, call := states[k].config, steps[m].call;
            var line := Render.Line(f.settings, d.record, f.stamp);
            && caps == states[m].config.capacities
            && d.line == Cut(line, Render.RenderCapacity(caps))
            && (config.format.JsonFormat? && JsonParseBack.FloatsPrint(d.record) ==>
                  var json := Json.ParseJson(d.line);
                  && (json.Some? <==> |line| < Render.RenderCapacity(caps))
                  && (json.Some? ==>
                        && json.value.Object?
                        && CallLaw.SaysCall(json.value.members, caps, call, d.record.sequence, f.stamp,
                                            config.serviceName, config.environmentName)))
            && (config.format.JsonFormat? && JsonParseBack.FloatsPrint(d.record) && Utf8.AllAscii(f.stamp) ==>
                  (JsonUtf8.IsJsonText(d.line) <==>
                   |line| < Render.RenderCapacity(caps) && JsonUtf8.TextsAreUtf8(f.settings, d.record)))
    ensures var fields := d.record.fields;
            && (forall x | 0 <= x < |fields| :: Validation.IsValidKey(fields[x].key))
            && (forall x, y | 0 <= x < y < |fields| :: fields[x].key != fields[y].key)
  {
    var x;
    f, x := PassIsOfAdmitted(states, steps, i, j, d);
    k := PassesHaveBegun(states, steps, i, x);
    m := AdmittedStandsForCall(states, steps, i, d.record);
    CapacitiesStay(states, steps, i);
    CapacitiesStay(states, steps, m);
    LineSaysWhatItShould(states[m].config.capacities, steps[m].call, d.record, f);
  }

  lemma LineSaysWhatItShould(caps: Capacities, call: Call, record: Record, f: FanOut)
    requires caps.Valid() && Validation.CallStatus(caps, call) == Ok
    requires record == Validation.Admitted(caps, call, record.sequence, record.millis) && f.record == record
    ensures var line := Render.Line(f.settings, record, f.stamp);
            var json := Json.ParseJson(LineOf(f, caps));
            && (f.settings.format.JsonFormat? && JsonParseBack.FloatsPrint(record) ==>
                  && (json.Some? <==> |line| < Render.RenderCapacity(caps))
                  && (json.Some? ==>
                        && json.value.Object?
                        && CallLaw.SaysCall(json.value.members, caps, call, record.sequence, f.stamp,
                                            f.settings.service, f.settings.environment)))
            && (f.settings.format.JsonFormat? && JsonParseBack.FloatsPrint(record) && Utf8.AllAscii(f.stamp) ==>
                  (JsonUtf8.IsJsonText(LineOf(f, caps)) <==>
                   |line| < Render.RenderCapacity(caps) && JsonUtf8.TextsAreUtf8(f.settings, record)))
    ensures var fields := record.fields;
            && (forall x | 0 <= x < |fields| :: Validation.IsValidKey(fields[x].key))
            && (forall x, y | 0 <= x < y < |fields| :: fields[x].key != fields[y].key)
  {
    Validation.AdmittedFieldsAreDistinct(caps, call, record.sequence, record.millis);
    if f.settings.format.JsonFormat? && JsonParseBack.FloatsPrint(record) {
      CallLaw.LineSaysCall(caps, call, record.sequence, record.millis, f.stamp, f.settings,
                           Render.RenderCapacity(caps));
      if Utf8.AllAscii(f.stamp) {
        ValidKeysAreAscii(record.fields);
        JsonUtf8.SinkGetsJsonIff(f.settings, record, f.stamp, Render.RenderCapacity(caps));
      }
    }
  }

  // Failed writes.

  /** A step adds a failure to the backup log exactly if it is a visit of an accepting stream whose write
      did not return OK, and the entry names that stream and that status. */
  lemma FailuresAreMirrored(states: seq<State>, steps: seq<Step>, m: nat)
    requires IsRun(states, steps) && m < |steps|
    ensures var s, a, b := states[m], states[m].history.failures, states[m + 1].history.failures;
            var w := s.worker;
            if && steps[m].ByWorker? && w.Fanning? && w.next < |s.streams| && s.history.fanOuts != []
               && Accepts(s.streams[w.next], s.history.fanOuts[|s.history.fanOuts| - 1].record.level)
               && steps[m].choice.status != Ok
            then b == a + [Failure(s.streams[w.next].name, steps[m].choice.status)]
            else b == a
  {
    RunInv(states, steps, m);
    assert StepAt(states, steps, m);
    var s := states[m];
    match steps[m]
    case ByProducer(p, call, millis) => ProducerKeepsFailures(s, p, call, millis);
    case ByWorker(choice) => WorkerMirrorsFailure(s, choice);
    case SpuriousWake =>
    case ByFlusher(_, _) =>
    case ByControl(order) => ControlKeepsFailures(s, order);
  }

  lemma ProducerKeepsFailures(s: State, p: Thread, call: Call, millis: int64)
    requires ProducersAreSane(s) && p in s.producers
    ensures ProducerStep(s, p, call, millis).history.failures == s.history.failures
  {
  }

  lemma ControlKeepsFailures(s: State, order: Order)
    requires ControlCanStep(s, order)
    ensures ControlStep(s, order).history.failures == s.history.failures
  {
  }

  lemma WorkerMirrorsFailure(s: State, choice: Choice)
    requires WorkerCanStep(s) && WorkerIsSane(s)
    ensures var w := s.worker;
            WorkerStep(s, choice).history.failures ==
            if && w.Fanning? && w.next < |s.streams|
               && Accepts(s.streams[w.next], s.history.fanOuts[|s.history.fanOuts| - 1].record.level)
               && choice.status != Ok
            then s.history.failures + [Failure(s.streams[w.next].name, choice.status)]
            else s.history.failures
  {
    if s.worker.Fanning? && s.worker.next < |s.streams| {
      DeliveryMirrorsFailure(s, choice);
    } else {
      WorkerKeepsFailures(s, choice);
    }
  }

  lemma DeliveryMirrorsFailure(s: State, choice: Choice)
    requires WorkerCanStep(s) && WorkerIsSane(s) && s.worker.Fanning? && s.worker.next < |s.streams|
    ensures WorkerStep(s, choice).history.failures ==
            if Accepts(s.streams[s.worker.next], s.history.fanOuts[|s.history.fanOuts| - 1].record.level)
               && choice.status != Ok
            then s.history.failures + [Failure(s.streams[s.worker.next].name, choice.status)]
            else s.history.failures
  {
  }

  lemma WorkerKeepsFailures(s: State, choice: Choice)
    requires WorkerCanStep(s) && WorkerIsSane(s) && (s.worker.Fanning? ==> s.worker.next == |s.streams|)
    ensures WorkerStep(s, choice).history.failures == s.history.failures
  {
  }
}
