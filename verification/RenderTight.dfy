/** The spare room of RenderCapacityBound is exact: some line of parts that fit leaves no more. */
module RenderTight {
  import opened Records
  import opened Render
  import opened RenderCapacityBound
  import Decimal
  import Json
  import JsonParseBack

  lemma {:induction false} PlainTextHasNoGain(format: Format, n: nat)
    ensures Escaped(format, Repeat('a', n)) == Repeat('a', n) && Gain(format, Repeat('a', n)) == 0
  {
    if n > 0 {
      assert Repeat('a', n)[1..] == Repeat('a', n - 1);
      PlainTextHasNoGain(format, n - 1);
      assert Escape(format, 'a') == "a";
      assert "a" + Repeat('a', n - 1) == Repeat('a', n);
    }
  }

  /** The longest field: a full string, or a 24-character number where that is longer. */
  function FullField(caps: Capacities): Field
    requires caps.Valid()
  {
    Field(Repeat('a', caps.key - 1),
          if caps.value >= 23 then Text(Repeat('a', caps.value - 1)) else Float(Repeat('1', 24)))
  }

  function FullFields(caps: Capacities, n: nat): (fields: seq<Field>)
    requires caps.Valid()
    ensures |fields| == n && forall i | 0 <= i < n :: fields[i] == FullField(caps)
  {
    seq(n, _ => FullField(caps))
  }

  /** The longest of everything, and nothing to escape: full names, the wider punctuation, full texts,
      a 20-digit number. */
  predicate IsFull(caps: Capacities, settings: Settings, record: Record, stamp: string) {
    var f := settings.format;
    && caps.Valid() && settings.pretty
    && |settings.service| == 63 && |settings.environment| == 63 && |stamp| == 31
    && |record.message| == caps.message - 1 && |record.context| == caps.context - 1
    && record.level == 3 && |Decimal.Print(record.sequence)| == 20
    && record.fields == FullFields(caps, caps.fields)
    && Gain(f, settings.service) == 0 && Gain(f, settings.environment) == 0 && Gain(f, stamp) == 0
    && Gain(f, record.message) == 0 && Gain(f, record.context) == 0
  }

  lemma TwentyDigits() returns (n: nat)
    ensures n < TWO_64 && |Decimal.Print(n)| == 20
  {
    n := Decimal.Power10(19);
    Decimal.PowersAreLong(19);
    assert Decimal.Power10(5) == 100_000;
    assert Decimal.Power10(10) == 10_000_000_000;
    assert Decimal.Power10(15) == 1_000_000_000_000_000;
  }

  lemma PlainText(format: Format, n: nat) returns (s: string)
    ensures |s| == n && Gain(format, s) == 0
  {
    s := Repeat('a', n);
    PlainTextHasNoGain(format, n);
  }

  lemma LongNumberFits()
    ensures Json.IsNumber(Repeat('1', 24))
  {
    var digits := Repeat('1', 24);
    assert Decimal.AllDigits(digits) && digits[0] == '1';
    JsonParseBack.DigitsRun(digits);
    assert digits[24..] == "";
  }

  lemma FullFieldFits(caps: Capacities)
    requires caps.Valid()
    ensures FieldFits(caps, FullField(caps))
  {
    LongNumberFits();
  }

  lemma FullValueLength(format: Format, caps: Capacities)
    requires caps.Valid()
    ensures |ValueText(format, FullField(caps).value)| == if caps.value >= 23 then caps.value + 1 else 24
    ensures ValueGain(format, FullField(caps).value) == 0
  {
    if caps.value >= 23 {
      var text := Repeat('a', caps.value - 1);
      PlainTextHasNoGain(format, caps.value - 1);
      assert FullField(caps).value == Text(text);
    } else {
      assert FullField(caps).value == Float(Repeat('1', 24));
    }
  }

  lemma FullKeyLength(format: Format, caps: Capacities)
    requires caps.Valid()
    ensures |FieldKey(format, FullField(caps).key)| == caps.key - 1
  {
    PlainTextHasNoGain(format, caps.key - 1);
  }

  lemma FullFieldLength(settings: Settings, caps: Capacities)
    requires caps.Valid() && settings.pretty
    ensures |Trail(Marks(settings), [FieldMember(settings.format, FullField(caps))])|
            + FieldSpare(settings.format, caps) ==
            caps.key + caps.value + NUMBER_TEXT_CAPACITY
  {
    var member := FieldMember(settings.format, FullField(caps));
    FullKeyLength(settings.format, caps);
    FullValueLength(settings.format, caps);
    TrailOfOne(Marks(settings), member);
    FrameLength(settings);
    assert |member.key| == caps.key - 1 && |member.value| == if caps.value >= 23 then caps.value + 1 else 24;
  }

  lemma FrameLength(settings: Settings)
    requires settings.pretty
    ensures Frame(settings) == if settings.format.JsonFormat? then 6 else 2
  {
  }

  lemma {:induction false} FullFieldsLength(settings: Settings, caps: Capacities, n: nat)
    requires caps.Valid() && settings.pretty
    ensures var f := settings.format;
            && |Trail(Marks(settings), FieldMembers(f, FullFields(caps, n)))| + n * FieldSpare(f, caps) ==
               n * (caps.key + caps.value + NUMBER_TEXT_CAPACITY)
            && FieldsGain(f, FullFields(caps, n)) == 0
  {
    var f, fields := settings.format, FullFields(caps, n);
    if n > 0 {
      var member := FieldMember(f, FullField(caps));
      assert fields[1..] == FullFields(caps, n - 1);
      assert FieldMembers(f, fields) == [member] + FieldMembers(f, fields[1..]);
      TrailAppends(Marks(settings), [member], FieldMembers(f, fields[1..]));
      FullFieldLength(settings, caps);
      FullFieldsLength(settings, caps, n - 1);
      FullValueLength(f, caps);
      OneMoreShare(n, FieldSpare(f, caps));
      OneMoreShare(n, caps.key + caps.value + NUMBER_TEXT_CAPACITY);
    }
  }

  /** The members after the timestamp take all the room they can. */
  lemma FullLaterLength(caps: Capacities, settings: Settings, record: Record, stamp: string, level: Member)
    requires IsFull(caps, settings, record, stamp) && |level.key| == 5
    ensures |Trail(Marks(settings), [level] + LaterMembers(settings, record))|
            + caps.fields * FieldSpare(settings.format, caps) ==
            6 * Frame(settings) + |level.value| + 202 + caps.message + caps.context
            + caps.fields * (caps.key + caps.value + NUMBER_TEXT_CAPACITY)
  {
    var f := settings.format;
    BuiltinsLength(settings, record, level);
    FullFieldsLength(settings, caps, caps.fields);
    LaterInOrder(settings, record, level);
    TrailAppends(Marks(settings), [level] + Builtins(settings, record) + ContextMembers(f, record.context),
                 FieldMembers(f, record.fields));
  }

  lemma FullLineLength(caps: Capacities, settings: Settings, record: Record, stamp: string)
    requires IsFull(caps, settings, record, stamp)
    ensures |Line(settings, record, stamp)| + Spare(settings.format, caps) + 1 == RenderCapacity(caps)
  {
    FrameLength(settings);
    match settings.format
    case JsonFormat =>
      var level := JsonParseBack.LevelMember(record);
      assert |level.value| == 9 by {
        LevelNameIsPlain(3);
      }
      FullLaterLength(caps, settings, record, stamp, level);
      assert |JsonLine(settings, record, stamp)| ==
             2 + |MemberText(Marks(settings), Member("ts", Quoted(JsonFormat, stamp)))|
             + |Trail(Marks(settings), [level] + LaterMembers(settings, record))|;
    case TextFormat =>
      FullLaterLength(caps, settings, record, stamp, Member("level", LevelName(3)));
  }

  lemma FullPartsFit(caps: Capacities, settings: Settings, record: Record, stamp: string)
    requires IsFull(caps, settings, record, stamp) && record.sequence < TWO_64
    ensures PartsFit(caps, settings, record, stamp) && LineGain(settings, record, stamp) == 0
  {
    FullFieldFits(caps);
    FullFieldsLength(settings, caps, caps.fields);
  }

  /** In both formats and for all sizes, some line of parts that fit and need no escaping leaves exactly
      the spare room, so no larger constant would do. */
  lemma SpareIsTight(format: Format, caps: Capacities)
    requires caps.Valid()
    ensures exists settings: Settings, record, stamp ::
              && settings.format == format
              && PartsFit(caps, settings, record, stamp) && LineGain(settings, record, stamp) == 0
              && |Line(settings, record, stamp)| + Spare(format, caps) + 1 == RenderCapacity(caps)
  {
    var name := PlainText(format, 63);
    var stamp := PlainText(format, 31);
    var message := PlainText(format, caps.message - 1);
    var context := PlainText(format, caps.context - 1);
    var sequence := TwentyDigits();
    var settings := Settings(name, name, format, true);
    var record := Record(sequence, 0, 3, message, context, FullFields(caps, caps.fields));
    FullLineLength(caps, settings, record, stamp);
    FullPartsFit(caps, settings, record, stamp);
    assert settings.format == format;
  }
}
