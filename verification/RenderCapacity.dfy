/** How much room the render buffer leaves: the capacity formula of mp_logger_create against the
    length of the rendered line. */
module RenderCapacityBound {
  import opened Records
  import opened Render
  import Config
  import Decimal
  import Json
  import JsonParseBack
  import Validation

  /** Characters that escaping adds. */
  function Gain(format: Format, s: string): nat {
    |Escaped(format, s)| - |s|
  }

  function ValueGain(format: Format, value: Value): nat {
    if value.Text? then Gain(format, value.text) else 0
  }

  function FieldsGain(format: Format, fields: seq<Field>): nat {
    if fields == [] then 0 else ValueGain(format, fields[0].value) + FieldsGain(format, fields[1..])
  }

  /** The timestamp text is escaped in JSON only. */
  function LineGain(settings: Settings, record: Record, stamp: string): nat {
    var f := settings.format;
    (if f.JsonFormat? then Gain(f, stamp) else 0) + Gain(f, settings.service) + Gain(f, settings.environment)
    + Gain(f, record.message) + Gain(f, record.context) + FieldsGain(f, record.fields)
  }

  predicate FieldFits(caps: Capacities, field: Field) {
    && |field.key| < caps.key && (forall i | 0 <= i < |field.key| :: Validation.IsKeyChar(field.key[i]))
    && (field.value.Text? ==> |field.value.text| < caps.value)
    && JsonParseBack.PrintsAsNumber(field.value)
  }

  /** What creation, configuration and admission guarantee of the parts of a line. */
  predicate PartsFit(caps: Capacities, settings: Settings, record: Record, stamp: string) {
    && caps.Valid()
    && |settings.service| < 64 && |settings.environment| < 64 && |stamp| < 32
    && record.sequence < TWO_64
    && |record.message| < caps.message && |record.context| < caps.context
    && |record.fields| <= caps.fields
    && (forall i | 0 <= i < |record.fields| :: FieldFits(caps, record.fields[i]))
  }

  /** Room that every field leaves unused in its share of the buffer. */
  function FieldSpare(format: Format, caps: Capacities): nat {
    match format
    case JsonFormat => Min(58, 35 + caps.value)
    case TextFormat => Min(62, 39 + caps.value)
  }

  /** Room that remains whatever is logged, as long as escaping adds nothing. */
  function Spare(format: Format, caps: Capacities): nat {
    (if format.JsonFormat? then 95 else 131) + caps.fields * FieldSpare(format, caps)
  }

  // Lengths of trails.

  lemma {:induction false} TrailAppends(marks: Punctuation, a: seq<Member>, b: seq<Member>)
    ensures |Trail(marks, a + b)| == |Trail(marks, a)| + |Trail(marks, b)|
  {
    if a == [] {
      assert a + b == b;
    } else {
      assert (a + b)[1..] == a[1..] + b;
      TrailAppends(marks, a[1..], b);
    }
  }

  lemma TrailOfOne(marks: Punctuation, m: Member)
    ensures |Trail(marks, [m])| ==
            |marks.separator| + 2 * |marks.quote| + |marks.colon| + |m.key| + |m.value|
  {
    assert [m][1..] == [];
  }

  lemma FieldLength(settings: Settings, caps: Capacities, field: Field)
    requires FieldFits(caps, field) && caps.Valid()
    ensures var f := settings.format;
            |Trail(Marks(settings), [FieldMember(f, field)])| + FieldSpare(f, caps)
            <= caps.key + caps.value + NUMBER_TEXT_CAPACITY + ValueGain(f, field.value)
  {
    var f := settings.format;
    TrailOfOne(Marks(settings), FieldMember(f, field));
    JsonParseBack.PlainKeyIsUnescaped(field.key);
    match field.value
    case Text(text) => assert |ValueText(f, field.value)| == |text| + Gain(f, text) + 2;
    case Flag(_) =>
    case Signed(n) => Decimal.SixtyFourBitLength(n);
    case Unsigned(n) => Decimal.SixtyFourBitLength(n);
    case Float(_) =>
  }

  lemma {:induction false} FieldsLength(settings: Settings, caps: Capacities, fields: seq<Field>)
    requires caps.Valid() && forall i | 0 <= i < |fields| :: FieldFits(caps, fields[i])
    ensures var f := settings.format;
            |Trail(Marks(settings), FieldMembers(f, fields))| + |fields| * FieldSpare(f, caps)
            <= |fields| * (caps.key + caps.value + NUMBER_TEXT_CAPACITY) + FieldsGain(f, fields)
  {
    if fields != [] {
      var f := settings.format;
      FieldLength(settings, caps, fields[0]);
      FieldsLength(settings, caps, fields[1..]);
      assert FieldMembers(f, fields) == [FieldMember(f, fields[0])] + FieldMembers(f, fields[1..]);
      TrailAppends(Marks(settings), [FieldMember(f, fields[0])], FieldMembers(f, fields[1..]));
      OneMoreShare(|fields|, FieldSpare(f, caps));
      OneMoreShare(|fields|, caps.key + caps.value + NUMBER_TEXT_CAPACITY);
    }
  }

  lemma OneMoreShare(n: nat, share: nat)
    requires n > 0
    ensures n * share == (n - 1) * share + share
  {
  }

  lemma UnusedShares(n: nat, total: nat, spare: nat, share: nat)
    requires n <= total && spare <= share
    ensures n * share - n * spare <= total * share - total * spare
  {
    assert (total - n) * (share - spare) >= 0;
    assert (total - n) * (share - spare) == total * share - total * spare - n * share + n * spare;
  }

  /** Punctuation around one member. */
  function Frame(settings: Settings): nat {
    |Marks(settings).separator| + 2 * |Marks(settings).quote| + |Marks(settings).colon|
  }

  /** Exactly how long the part before the fields is. */
  lemma BuiltinsLength(settings: Settings, record: Record, level: Member)
    requires |level.key| == 5
    ensures var f := settings.format;
            |Trail(Marks(settings), [level] + Builtins(settings, record) + ContextMembers(f, record.context))|
            + (if record.context == "" then Frame(settings) + 9 else 0)
            == 6 * Frame(settings) + |level.value| + 58 + |Decimal.Print(record.sequence)|
               + |settings.service| + |settings.environment| + |record.message| + |record.context|
               + Gain(f, settings.service) + Gain(f, settings.environment)
               + Gain(f, record.message) + Gain(f, record.context)
  {
    var f := settings.format;
    var marks := Marks(settings);
    var b := Builtins(settings, record);
    TrailAppends(marks, [level] + b, ContextMembers(f, record.context));
    TrailAppends(marks, [level], b);
    TrailOfOne(marks, level);
    assert b == [b[0]] + [b[1]] + [b[2]] + [b[3]];
    TrailAppends(marks, [b[0]] + [b[1]] + [b[2]], [b[3]]);
    TrailAppends(marks, [b[0]] + [b[1]], [b[2]]);
    TrailAppends(marks, [b[0]], [b[1]]);
    TrailOfOne(marks, b[0]);
    TrailOfOne(marks, b[1]);
    TrailOfOne(marks, b[2]);
    TrailOfOne(marks, b[3]);
    TrailOfOne(marks, Member("context", Quoted(f, record.context)));
  }

  lemma LaterLength(settings: Settings, record: Record, level: Member, caps: Capacities)
    requires caps.Valid() && record.sequence < TWO_64 && |level.key| == 5
    requires |record.fields| <= caps.fields
    requires forall i | 0 <= i < |record.fields| :: FieldFits(caps, record.fields[i])
    ensures var f := settings.format;
            |Trail(Marks(settings), [level] + LaterMembers(settings, record))| + caps.fields * FieldSpare(f, caps)
            <= 6 * Frame(settings) + |level.value| + 78
               + |settings.service| + |settings.environment| + |record.message| + |record.context|
               + Gain(f, settings.service) + Gain(f, settings.environment)
               + Gain(f, record.message) + Gain(f, record.context) + FieldsGain(f, record.fields)
               + caps.fields * (caps.key + caps.value + NUMBER_TEXT_CAPACITY)
  {
    var f := settings.format;
    var head := [level] + Builtins(settings, record) + ContextMembers(f, record.context);
    LaterInOrder(settings, record, level);
    TrailAppends(Marks(settings), head, FieldMembers(f, record.fields));
    BuiltinsLength(settings, record, level);
    Decimal.SixtyFourBitLength(record.sequence);
    FieldsLength(settings, caps, record.fields);
    UnusedShares(|record.fields|, caps.fields, FieldSpare(f, caps), caps.key + caps.value + NUMBER_TEXT_CAPACITY);
  }

  /** The bound: the line, the spare room and the terminator fit, up to what escaping adds. */
  lemma LineLength(caps: Capacities, settings: Settings, record: Record, stamp: string)
    requires PartsFit(caps, settings, record, stamp)
    ensures |Line(settings, record, stamp)| + Spare(settings.format, caps) + 1
            <= RenderCapacity(caps) + LineGain(settings, record, stamp)
  {
    assert |LevelName(record.level)| <= 7;
    match settings.format
    case JsonFormat =>
      var level := JsonParseBack.LevelMember(record);
      LevelNameIsPlain(record.level);
      LaterLength(settings, record, level, caps);
      assert |JsonLine(settings, record, stamp)| ==
             2 + |MemberText(Marks(settings), Member("ts", Quoted(JsonFormat, stamp)))|
             + |Trail(Marks(settings), [level] + LaterMembers(settings, record))|;
    case TextFormat =>
      LaterLength(settings, record, Member("level", LevelName(record.level)), caps);
  }

  /** What creation, configuration and admission guarantee, with the C library's part assumed: the
      parts of every admitted call fit. */
  lemma AdmittedPartsFit(config: Config.Config, call: Call, sequence: nat, millis: int64, stamp: string)
    requires config.capacities.Valid() && Config.NamesFit(config)
    requires Validation.CallStatus(config.capacities, call) == Ok && sequence < TWO_64 && |stamp| < 32
    requires JsonParseBack.FloatsPrint(Validation.Admitted(config.capacities, call, sequence, millis))
    ensures PartsFit(config.capacities, Config.RenderSettings(config),
                     Validation.Admitted(config.capacities, call, sequence, millis), stamp)
  {
    var caps := config.capacities;
    var record := Validation.Admitted(caps, call, sequence, millis);
    Validation.AdmittedFieldsAreDistinct(caps, call, sequence, millis);
    forall i | 0 <= i < |record.fields|
      ensures FieldFits(caps, record.fields[i])
    {
      assert Validation.IsValidKey(record.fields[i].key);
    }
  }

  /** So no admitted call is cut if escaping adds no more than the spare room. */
  lemma AdmittedCallFits(config: Config.Config, call: Call, sequence: nat, millis: int64, stamp: string)
    requires config.capacities.Valid() && Config.NamesFit(config)
    requires Validation.CallStatus(config.capacities, call) == Ok && sequence < TWO_64 && |stamp| < 32
    requires JsonParseBack.FloatsPrint(Validation.Admitted(config.capacities, call, sequence, millis))
    requires var record := Validation.Admitted(config.capacities, call, sequence, millis);
             LineGain(Config.RenderSettings(config), record, stamp) <= Spare(config.format, config.capacities)
    ensures var record := Validation.Admitted(config.capacities, call, sequence, millis);
            var line := Line(Config.RenderSettings(config), record, stamp);
            Cut(line, RenderCapacity(config.capacities)) == line
  {
    AdmittedPartsFit(config, call, sequence, millis, stamp);
    SmallGainFits(config.capacities, Config.RenderSettings(config),
                  Validation.Admitted(config.capacities, call, sequence, millis), stamp);
  }

  lemma LevelNameIsPlain(level: int)
    ensures Escaped(JsonFormat, LevelName(level)) == LevelName(level)
  {
    JsonParseBack.PlainKeyIsUnescaped(LevelName(level));
  }

  /** Nothing is truncated as long as escaping adds no more than the spare room; in particular
      nothing is truncated when there is nothing to escape. */
  lemma SmallGainFits(caps: Capacities, settings: Settings, record: Record, stamp: string)
    requires PartsFit(caps, settings, record, stamp)
    requires LineGain(settings, record, stamp) <= Spare(settings.format, caps)
    ensures |Line(settings, record, stamp)| < RenderCapacity(caps)
    ensures Cut(Line(settings, record, stamp), RenderCapacity(caps)) == Line(settings, record, stamp)
  {
    LineLength(caps, settings, record, stamp);
  }

  // Beyond the bound lines are cut.

  function Repeat(c: char, n: nat): (s: string)
    ensures |s| == n && forall i | 0 <= i < n :: s[i] == c
  {
    seq(n, _ => c)
  }

  lemma {:induction false} ControlCharsGrowSixfold(n: nat)
    ensures |Escaped(JsonFormat, Repeat(1 as char, n))| == 6 * n
  {
    if n > 0 {
      assert Repeat(1 as char, n)[1..] == Repeat(1 as char, n - 1);
      ControlCharsGrowSixfold(n - 1);
    }
  }

  lemma LineHoldsContext(settings: Settings, record: Record, stamp: string)
    requires settings.format.JsonFormat? && record.context != ""
    ensures |JsonLine(settings, record, stamp)| >= |Escaped(JsonFormat, record.context)|
  {
    var level := JsonParseBack.LevelMember(record);
    var c := ContextMembers(JsonFormat, record.context);
    LaterInOrder(settings, record, level);
    TrailAppends(Marks(settings), [level] + Builtins(settings, record) + c, FieldMembers(JsonFormat, record.fields));
    TrailAppends(Marks(settings), [level] + Builtins(settings, record), c);
    TrailOfOne(Marks(settings), c[0]);
  }

  const DEFAULT_SIZES := Capacities(1024, 512, 1024, 8, 32, 128)

  /** Under the default sizes an admissible context of control characters overflows the buffer, and
      what the sinks then receive is not JSON. BoundedJsonParsesIff says exactly when this happens. */
  lemma EscapesCanTruncate(settings: Settings, stamp: string)
    requires settings.format.JsonFormat? && |settings.service| < 64 && |settings.environment| < 64 && |stamp| < 32
    ensures var record := Record(1, 0, 2, "m", Repeat(1 as char, 1023), []);
            && PartsFit(DEFAULT_SIZES, settings, record, stamp)
            && Json.ParseJson(Cut(Line(settings, record, stamp), RenderCapacity(DEFAULT_SIZES))) == None
  {
    var record := Record(1, 0, 2, "m", Repeat(1 as char, 1023), []);
    ControlCharsGrowSixfold(1023);
    LineHoldsContext(settings, record, stamp);
    JsonParseBack.BoundedJsonParsesIff(settings, record, stamp, RenderCapacity(DEFAULT_SIZES));
  }
}
