/** From the call to the line: what the JSON line of an admitted call says, in terms of the arguments. */
module CallLaw {
  import opened Records
  import opened Json
  import opened JsonParseBack
  import Decimal
  import Overrides
  import Render
  import Validation

  const LEVEL_NAMES: seq<string> := ["TRACE", "DEBUG", "INFO", "WARNING", "ERROR", "FATAL"]

  /** The text denotes the integer. */
  predicate Denotes(text: string, n: int) {
    var digits := if n < 0 && text != "" && text[0] == '-' then text[1..] else text;
    && digits != "" && Decimal.AllDigits(digits)
    && (n < 0 <==> text[0] == '-')
    && Decimal.Value(digits) == if n < 0 then -n else n
  }

  /** The JSON value says what the caller passed. */
  predicate SaysArgument(json: Json, argument: Argument) {
    match argument
    case StringArgument(None) => json == Str("")
    case StringArgument(Some(text)) => json == Str(text)
    case BoolArgument(flag) => json == Bool(flag)
    case SignedArgument(n) => json.Number? && Denotes(json.text, n)
    case UnsignedArgument(n) => json.Number? && Denotes(json.text, n)
    case DoubleArgument(double) => double.Finite? && json == Number(double.digits)
    case UnknownArgument => false
  }

  predicate SaysLevel(json: Json, level: int) {
    json == Str(if InEnum(level) then LEVEL_NAMES[level] else "UNKNOWN")
  }

  /** The beginning of the text that fits a buffer of `capacity` bytes. */
  predicate SaysPrefix(json: Json, text: string, capacity: nat) {
    json.Str? && json.text <= text && |json.text| == if |text| < capacity then |text| else capacity - 1
  }

  predicate HasContext(call: Call) {
    call.context.Some? && call.context.value != ""
  }

  function FieldList(call: Call): seq<FieldArgument> {
    if call.fields.Fields? then call.fields.fields else []
  }

  /** How many members come before the fields. */
  function HeadSize(call: Call): nat {
    if HasContext(call) then 7 else 6
  }

  predicate SaysHead(pairs: seq<(string, Json)>, caps: Capacities, call: Call, sequence: nat, stamp: string,
                     service: string, environment: string)
    requires |pairs| >= HeadSize(call) && call.message.Some?
  {
    && pairs[0] == ("ts", Str(stamp))
    && pairs[1].0 == "level" && SaysLevel(pairs[1].1, call.level)
    && pairs[2] == ("service", Str(service))
    && pairs[3] == ("environment", Str(environment))
    && pairs[4].0 == "sequence_id" && pairs[4].1.Str? && Denotes(pairs[4].1.text, sequence)
    && pairs[5].0 == "message" && SaysPrefix(pairs[5].1, call.message.value, caps.message)
    && (HasContext(call) ==> pairs[6].0 == "context" && SaysPrefix(pairs[6].1, call.context.value, caps.context))
  }

  predicate SaysField(pair: (string, Json), field: FieldArgument) {
    Some(pair.0) == field.key && SaysArgument(pair.1, field.value)
  }

  predicate SaysFields(pairs: seq<(string, Json)>, fields: seq<FieldArgument>) {
    |pairs| == |fields| && forall i | 0 <= i < |fields| :: SaysField(pairs[i], fields[i])
  }

  /** The members of the object, in order, against the arguments of the call. */
  predicate SaysCall(pairs: seq<(string, Json)>, caps: Capacities, call: Call, sequence: nat, stamp: string,
                     service: string, environment: string)
  {
    && call.message.Some? && |pairs| >= HeadSize(call)
    && SaysHead(pairs, caps, call, sequence, stamp, service, environment)
    && SaysFields(pairs[HeadSize(call)..], FieldList(call))
  }

  lemma PrintDenotes(n: int)
    ensures Denotes(Decimal.PrintSigned(n), n)
  {
    var digits := Decimal.Print(if n < 0 then -n else n);
    Decimal.ValueOfPrint(if n < 0 then -n else n);
    assert Decimal.IsDigit(digits[0]);
    if n < 0 {
      assert Decimal.PrintSigned(n)[1..] == digits;
    }
  }

  lemma ValueSaysArgument(argument: Argument)
    requires !argument.UnknownArgument? && (argument.DoubleArgument? ==> argument.double.Finite?)
    ensures SaysArgument(JsonOf(Validation.StoredValue(argument)), argument)
  {
    match argument
    case SignedArgument(n) => PrintDenotes(n);
    case UnsignedArgument(n) => PrintDenotes(n);
    case _ =>
  }

  /** The built-in members of an admitted call. */
  lemma HeadSaysCall(caps: Capacities, call: Call, sequence: nat, millis: int64, stamp: string,
                     service: string, environment: string)
    requires caps.Valid() && Validation.CallStatus(caps, call) == Ok
    ensures var record := Validation.Admitted(caps, call, sequence, millis);
            var pairs := [("ts", Str(stamp))] + BuiltinPairs(service, environment, record);
            && SaysLevel(pairs[1].1, call.level)
            && pairs[4].1.Str? && Denotes(pairs[4].1.text, sequence)
            && SaysPrefix(pairs[5].1, call.message.value, caps.message)
            && (HasContext(call) <==> record.context != "")
            && (HasContext(call) ==> SaysPrefix(Str(record.context), call.context.value, caps.context))
  {
    PrintDenotes(sequence);
  }

  lemma FieldsSayCall(caps: Capacities, call: Call, sequence: nat, millis: int64)
    requires caps.Valid() && Validation.CallStatus(caps, call) == Ok
    ensures SaysFields(FieldPairs(Validation.Admitted(caps, call, sequence, millis).fields), FieldList(call))
  {
    Validation.AcceptedFieldsAreStorable(caps, call);
    var pairs := FieldPairs(Validation.Admitted(caps, call, sequence, millis).fields);
    forall i | 0 <= i < |pairs|
      ensures SaysField(pairs[i], FieldList(call)[i])
    {
      ValueSaysArgument(FieldList(call)[i].value);
    }
  }

  /** What the parsed line of an admitted call says is what the caller passed. */
  lemma RecordSaysCall(caps: Capacities, call: Call, sequence: nat, millis: int64, stamp: string,
                       service: string, environment: string)
    requires caps.Valid() && Validation.CallStatus(caps, call) == Ok
    ensures SaysCall(RecordPairs(service, environment, Validation.Admitted(caps, call, sequence, millis), stamp),
                     caps, call, sequence, stamp, service, environment)
  {
    HeadSaysCall(caps, call, sequence, millis, stamp, service, environment);
    FieldsSayCall(caps, call, sequence, millis);
    PairsInOrder(service, environment, Validation.Admitted(caps, call, sequence, millis), stamp);
  }

  lemma PairsInOrder(service: string, environment: string, record: Record, stamp: string)
    ensures var pairs := RecordPairs(service, environment, record, stamp);
            var builtins := [("ts", Str(stamp))] + BuiltinPairs(service, environment, record);
            var head := if record.context != "" then 7 else 6;
            && |pairs| >= head
            && (forall i | 0 <= i < 6 :: pairs[i] == builtins[i])
            && (record.context != "" ==> pairs[6] == ("context", Str(record.context)))
            && pairs[head..] == FieldPairs(record.fields)
  {
    var builtins := [("ts", Str(stamp))] + BuiltinPairs(service, environment, record);
    var fields := FieldPairs(record.fields);
    assert RecordPairs(service, environment, record, stamp) == builtins + ContextPairs(record.context) + fields;
  }

  /** The JSON line of a valid call, as long as it is not cut, parses to an object that says what the
      caller passed: the level by name, message and context up to the size of their buffers, and each
      field under its key with its value, a NULL string as the empty one. */
  lemma LineSaysCall(caps: Capacities, call: Call, sequence: nat, millis: int64, stamp: string,
                     settings: Render.Settings, capacity: nat)
    requires caps.Valid() && Validation.CallStatus(caps, call) == Ok && settings.format.JsonFormat? && capacity > 0
    requires FloatsPrint(Validation.Admitted(caps, call, sequence, millis))
    ensures var line := Render.Line(settings, Validation.Admitted(caps, call, sequence, millis), stamp);
            var json := ParseJson(Cut(line, capacity));
            && (json.Some? <==> |line| < capacity)
            && (json.Some? ==>
                  && json.value.Object?
                  && SaysCall(json.value.members, caps, call, sequence, stamp, settings.service, settings.environment))
  {
    var record := Validation.Admitted(caps, call, sequence, millis);
    BoundedJsonParsesIff(settings, record, stamp, capacity);
    RecordSaysCall(caps, call, sequence, millis, stamp, settings.service, settings.environment);
  }

  lemma FirstDiffers(a: string, b: string)
    requires a != "" && b != "" && Overrides.ToLower(a[0]) != Overrides.ToLower(b[0])
    ensures !Overrides.SameIgnoringCase(a, b)
  {
  }

  lemma NamesMatchTokens()
    ensures Overrides.SameIgnoringCase("TRACE", "trace") && Overrides.SameIgnoringCase("DEBUG", "debug")
    ensures Overrides.SameIgnoringCase("INFO", "info") && Overrides.SameIgnoringCase("WARNING", "warning")
    ensures Overrides.SameIgnoringCase("ERROR", "error") && Overrides.SameIgnoringCase("FATAL", "fatal")
  {
  }

  lemma LevelTokenIsFirst(level: int)
    requires InEnum(level)
    ensures Overrides.ParseLevel(LEVEL_NAMES[level]) == Some(level)
  {
    NamesMatchTokens();
    if level == 1 {
      FirstDiffers("DEBUG", "trace");
    } else if level == 4 {
      FirstDiffers("ERROR", "trace");
      FirstDiffers("ERROR", "debug");
    } else if level == 5 {
      FirstDiffers("FATAL", "trace");
      FirstDiffers("FATAL", "debug");
      FirstDiffers("FATAL", "error");
    }
  }

  /** The names that lines carry are those the configuration understands. */
  lemma LevelNamesAreUnderstood(level: int)
    requires InEnum(level)
    ensures Overrides.ParseLevel(Render.LevelName(level)) == Some(level)
  {
    LevelTokenIsFirst(level);
    assert Render.LevelName(level) == LEVEL_NAMES[level];
  }
}
