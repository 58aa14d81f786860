/** When a rendered JSON line is a JSON text also as RFC 8259, section 8.1 asks: encoded in UTF-8. All
    characters that the grammar looks at are ASCII, so the parser of module Json reads the bytes of a
    well-formed text as it would read its characters. */
module JsonUtf8 {
  import opened Sequences
  import opened Records
  import opened Render
  import opened Utf8
  import opened JsonParseBack
  import Decimal
  import Json
  import Validation

  // Escaping leaves the encoding alone.

  lemma EscapeOfAscii(c: char)
    ensures IsAscii(c) ==> AllAscii(JsonEscape(c))
    ensures !IsAscii(c) ==> JsonEscape(c) == [c]
  {
    assert forall d | 0 <= d < 16 :: IsAscii(HexDigit(d));
  }

  /** The bytes before the first ASCII character. */
  function AsciiAt(s: string): (n: nat)
    ensures n <= |s| && (n < |s| ==> IsAscii(s[n]))
    ensures forall i | 0 <= i < n :: !IsAscii(s[i])
  {
    if s == "" || IsAscii(s[0]) then 0 else 1 + AsciiAt(s[1..])
  }

  lemma {:induction false} EscapedKeepsRun(run: string, rest: string)
    requires forall i | 0 <= i < |run| :: !IsAscii(run[i])
    ensures Escaped(JsonFormat, run + rest) == run + Escaped(JsonFormat, rest)
  {
    if run == "" {
      assert run + rest == rest && "" + Escaped(JsonFormat, rest) == Escaped(JsonFormat, rest);
    } else {
      EscapeOfAscii(run[0]);
      EscapedKeepsRun(run[1..], rest);
      HeadFirst(run, rest);
      EscapedFirst(run[0], run[1..] + rest);
      HeadFirst(run, Escaped(JsonFormat, rest));
    }
  }

  lemma EscapedFirst(c: char, rest: string)
    ensures Escaped(JsonFormat, [c] + rest) == JsonEscape(c) + Escaped(JsonFormat, rest)
  {
    assert ([c] + rest)[1..] == rest;
  }

  lemma EscapedStartsAscii(s: string)
    requires s == "" || IsAscii(s[0])
    ensures Escaped(JsonFormat, s) == "" || IsAscii(Escaped(JsonFormat, s)[0])
  {
    if s != "" {
      EscapeOfAscii(s[0]);
    }
  }

  lemma {:induction false} EscapedIsUtf8Iff(s: string)
    ensures IsUtf8(Escaped(JsonFormat, s)) <==> IsUtf8(s)
    decreases |s|
  {
    var n := AsciiAt(s);
    var run, rest := s[..n], s[n..];
    assert s == run + rest;
    EscapedKeepsRun(run, rest);
    EscapedStartsAscii(rest);
    SplitsAtAscii(run, rest);
    SplitsAtAscii(run, Escaped(JsonFormat, rest));
    if rest != "" {
      EscapeOfAscii(rest[0]);
      AsciiFirst(JsonEscape(rest[0]), Escaped(JsonFormat, rest[1..]));
      AsciiFirst([rest[0]], rest[1..]);
      assert rest == [rest[0]] + rest[1..];
      EscapedIsUtf8Iff(rest[1..]);
    }
  }

  lemma QuotedIsUtf8Iff(s: string)
    ensures IsUtf8(Quoted(JsonFormat, s)) <==> IsUtf8(s)
  {
    EscapedIsUtf8Iff(s);
    SplitsAtAscii(Escaped(JsonFormat, s), "\"");
    AsciiIsUtf8("\"");
    AsciiFirst("\"", Escaped(JsonFormat, s) + "\"");
    assert Quoted(JsonFormat, s) == "\"" + (Escaped(JsonFormat, s) + "\"");
  }

  // Members and lines.

  predicate AsciiMarks(marks: Punctuation) {
    AllAscii(marks.separator) && AllAscii(marks.quote) && AllAscii(marks.colon) && marks.separator != ""
  }

  predicate AsciiKeys(members: seq<Member>) {
    forall i | 0 <= i < |members| :: AllAscii(members[i].key)
  }

  predicate Utf8Values(members: seq<Member>) {
    forall i | 0 <= i < |members| :: IsUtf8(members[i].value)
  }

  lemma MemberIsUtf8Iff(marks: Punctuation, m: Member, rest: string)
    requires AsciiMarks(marks) && AllAscii(m.key) && (rest == "" || IsAscii(rest[0]))
    ensures IsUtf8(MemberText(marks, m) + rest) <==> IsUtf8(m.value) && IsUtf8(rest)
  {
    var head := marks.quote + m.key + marks.quote + marks.colon;
    assert MemberText(marks, m) + rest == head + (m.value + rest);
    AsciiFirst(head, m.value + rest);
    SplitsAtAscii(m.value, rest);
  }

  lemma TrailStartsAscii(marks: Punctuation, members: seq<Member>)
    requires AsciiMarks(marks)
    ensures IsAscii((Trail(marks, members) + "}")[0])
  {
    if members != [] {
      assert Trail(marks, members)[0] == marks.separator[0];
    }
  }

  lemma {:induction false} TrailIsUtf8Iff(marks: Punctuation, members: seq<Member>)
    requires AsciiMarks(marks) && AsciiKeys(members)
    ensures IsUtf8(Trail(marks, members) + "}") <==> Utf8Values(members)
  {
    if members == [] {
      AsciiIsUtf8("}");
      assert "" + "}" == "}";
    } else {
      var m, later := members[0], members[1..];
      var rest := Trail(marks, later) + "}";
      TrailIsUtf8Iff(marks, later);
      TrailStartsAscii(marks, later);
      assert Trail(marks, members) + "}" == marks.separator + (MemberText(marks, m) + rest);
      AsciiFirst(marks.separator, MemberText(marks, m) + rest);
      MemberIsUtf8Iff(marks, m, rest);
      FirstValue(members);
    }
  }

  lemma FirstValue(members: seq<Member>)
    requires members != []
    ensures Utf8Values(members) <==> IsUtf8(members[0].value) && Utf8Values(members[1..])
  {
    assert forall i | 1 <= i < |members| :: members[i] == members[1..][i - 1];
  }

  lemma ValuesAppend(a: seq<Member>, b: seq<Member>)
    ensures Utf8Values(a + b) <==> Utf8Values(a) && Utf8Values(b)
    ensures AsciiKeys(a + b) <==> AsciiKeys(a) && AsciiKeys(b)
  {
    assert forall i | 0 <= i < |a| :: (a + b)[i] == a[i];
    assert forall i | 0 <= i < |b| :: (a + b)[|a| + i] == b[i];
  }

  /** The texts that callers supply are well formed as the record holds them. */
  predicate TextsAreUtf8(settings: Settings, record: Record) {
    && IsUtf8(settings.service) && IsUtf8(settings.environment)
    && IsUtf8(record.message) && IsUtf8(record.context)
    && forall i | 0 <= i < |record.fields| && record.fields[i].value.Text? :: IsUtf8(record.fields[i].value.text)
  }

  lemma PlainValueIsAscii(value: Value)
    requires PrintsAsNumber(value) && !value.Text?
    ensures AllAscii(ValueText(JsonFormat, value))
  {
    match value
    case Flag(_) =>
    case Signed(n) => NumberIsAscii(n);
    case Unsigned(n) => NumberIsAscii(n);
    case Float(digits) =>
      NumbersHaveNumberChars(digits);
      assert forall i | 0 <= i < |digits| :: Json.IsNumberChar(digits[i]);
  }

  lemma NumberIsAscii(n: int)
    ensures AllAscii(Decimal.PrintSigned(n))
  {
    var digits := Decimal.Print(if n < 0 then -n else n);
    assert forall i | 0 <= i < |digits| :: Decimal.IsDigit(digits[i]);
  }

  predicate AsciiFieldKeys(fields: seq<Field>) {
    forall i | 0 <= i < |fields| :: AllKeyChars(fields[i].key)
  }

  lemma KeyCharsAreAscii(key: string)
    requires AllKeyChars(key)
    ensures AllAscii(key)
  {
  }

  lemma FieldIsUtf8Iff(field: Field)
    requires AllKeyChars(field.key) && PrintsAsNumber(field.value)
    ensures AllAscii(FieldMember(JsonFormat, field).key)
    ensures IsUtf8(FieldMember(JsonFormat, field).value) <==> (field.value.Text? ==> IsUtf8(field.value.text))
  {
    PlainKeyIsUnescaped(field.key);
    KeyCharsAreAscii(field.key);
    if field.value.Text? {
      QuotedIsUtf8Iff(field.value.text);
    } else {
      PlainValueIsAscii(field.value);
      AsciiIsUtf8(FieldMember(JsonFormat, field).value);
    }
  }

  lemma FieldsAreUtf8Iff(fields: seq<Field>)
    requires AsciiFieldKeys(fields) && forall i | 0 <= i < |fields| :: PrintsAsNumber(fields[i].value)
    ensures var members := FieldMembers(JsonFormat, fields);
            && AsciiKeys(members)
            && (Utf8Values(members) <==>
                forall i | 0 <= i < |fields| && fields[i].value.Text? :: IsUtf8(fields[i].value.text))
  {
    var members := FieldMembers(JsonFormat, fields);
    forall i | 0 <= i < |fields|
      ensures AllAscii(members[i].key)
      ensures IsUtf8(members[i].value) <==> (fields[i].value.Text? ==> IsUtf8(fields[i].value.text))
    {
      FieldIsUtf8Iff(fields[i]);
    }
  }

  lemma BuiltinKeysAreAscii()
    ensures AllAscii("level") && AllAscii("service") && AllAscii("environment")
    ensures AllAscii("sequence_id") && AllAscii("message")
  {
    BuiltinKeysAreKeys();
    KeyCharsAreAscii("level");
    KeyCharsAreAscii("service");
    KeyCharsAreAscii("environment");
    KeyCharsAreAscii("sequence_id");
    KeyCharsAreAscii("message");
  }

  lemma BuiltinsAreUtf8Iff(settings: Settings, record: Record)
    requires settings.format.JsonFormat?
    ensures var members := [LevelMember(record)] + Builtins(settings, record);
            && AsciiKeys(members)
            && (Utf8Values(members) <==>
                IsUtf8(settings.service) && IsUtf8(settings.environment) && IsUtf8(record.message))
  {
    var level, b := LevelMember(record), Builtins(settings, record);
    BuiltinKeysAreAscii();
    LevelIsUtf8(record.level);
    SequenceIsUtf8(record.sequence);
    QuotedIsUtf8Iff(settings.service);
    QuotedIsUtf8Iff(settings.environment);
    QuotedIsUtf8Iff(record.message);
    ValuesAppend([level], b);
    FourValues(b);
  }

  lemma FourValues(members: seq<Member>)
    requires |members| == 4
    ensures Utf8Values(members) <==>
            IsUtf8(members[0].value) && IsUtf8(members[1].value) && IsUtf8(members[2].value) && IsUtf8(members[3].value)
  {
  }

  lemma LevelNameIsAscii(level: int)
    ensures AllAscii(LevelName(level))
  {
  }

  lemma LevelIsUtf8(level: int)
    ensures IsUtf8(Quoted(JsonFormat, LevelName(level)))
  {
    LevelNameIsAscii(level);
    AsciiIsUtf8(LevelName(level));
    QuotedIsUtf8Iff(LevelName(level));
  }

  lemma SequenceIsUtf8(n: nat)
    ensures IsUtf8("\"" + Decimal.Print(n) + "\"")
  {
    var text := "\"" + Decimal.Print(n) + "\"";
    NumberIsAscii(n);
    assert Decimal.PrintSigned(n) == Decimal.Print(n);
    forall i | 0 <= i < |text|
      ensures IsAscii(text[i])
    {
      if 0 < i < |text| - 1 {
        assert text[i] == Decimal.Print(n)[i - 1];
      }
    }
    AsciiIsUtf8(text);
  }

  lemma ContextIsUtf8Iff(context: string)
    ensures var members := ContextMembers(JsonFormat, context);
            AsciiKeys(members) && (Utf8Values(members) <==> IsUtf8(context))
  {
    var members := ContextMembers(JsonFormat, context);
    if context != "" {
      QuotedIsUtf8Iff(context);
      assert AllAscii("context");
      assert members[0] == Member("context", Quoted(JsonFormat, context));
    }
  }

  /** A whole line is UTF-8 exactly if the texts in it are. */
  lemma LineIsUtf8Iff(settings: Settings, record: Record, stamp: string)
    requires settings.format.JsonFormat? && FloatsPrint(record) && AsciiFieldKeys(record.fields) && AllAscii(stamp)
    ensures IsUtf8(JsonLine(settings, record, stamp)) <==> TextsAreUtf8(settings, record)
  {
    var members := [LevelMember(record)] + LaterMembers(settings, record);
    MembersAreUtf8Iff(settings, record);
    TrailIsUtf8Iff(Marks(settings), members);
    HeadIsUtf8(Marks(settings), stamp, members);
    LineInParts(settings, record, stamp);
  }

  lemma LineInParts(settings: Settings, record: Record, stamp: string)
    ensures JsonLine(settings, record, stamp) ==
            "{" + (MemberText(Marks(settings), Member("ts", Quoted(JsonFormat, stamp)))
                   + (Trail(Marks(settings), [LevelMember(record)] + LaterMembers(settings, record)) + "}"))
  {
    var head := MemberText(Marks(settings), Member("ts", Quoted(JsonFormat, stamp)));
    var trail := Trail(Marks(settings), [LevelMember(record)] + LaterMembers(settings, record));
    Associate("{", head, trail);
    Associate("{", head + trail, "}");
    Associate(head, trail, "}");
  }

  lemma MembersAreUtf8Iff(settings: Settings, record: Record)
    requires settings.format.JsonFormat? && FloatsPrint(record) && AsciiFieldKeys(record.fields)
    ensures var members := [LevelMember(record)] + LaterMembers(settings, record);
            AsciiKeys(members) && (Utf8Values(members) <==> TextsAreUtf8(settings, record))
  {
    var builtins := [LevelMember(record)] + Builtins(settings, record);
    var context := ContextMembers(JsonFormat, record.context);
    var fields := FieldMembers(JsonFormat, record.fields);
    BuiltinsAreUtf8Iff(settings, record);
    ContextIsUtf8Iff(record.context);
    FieldsAreUtf8Iff(record.fields);
    ValuesAppend(builtins, context);
    ValuesAppend(builtins + context, fields);
    LaterInOrder(settings, record, LevelMember(record));
  }

  lemma HeadIsUtf8(marks: Punctuation, stamp: string, members: seq<Member>)
    requires AsciiMarks(marks) && AllAscii(stamp)
    ensures var rest := Trail(marks, members) + "}";
            IsUtf8("{" + (MemberText(marks, Member("ts", Quoted(JsonFormat, stamp))) + rest)) <==> IsUtf8(rest)
  {
    var rest := Trail(marks, members) + "}";
    var ts := Member("ts", Quoted(JsonFormat, stamp));
    AsciiIsUtf8(stamp);
    QuotedIsUtf8Iff(stamp);
    TrailStartsAscii(marks, members);
    MemberIsUtf8Iff(marks, ts, rest);
    AsciiFirst("{", MemberText(marks, ts) + rest);
  }

  /** A JSON text: well-formed UTF-8 that follows the grammar. */
  predicate IsJsonText(bytes: string) {
    IsUtf8(bytes) && Json.ParseJson(bytes).Some?
  }

  /** What a sink receives is a JSON text exactly if nothing was cut off and the texts in it are UTF-8;
      it then means exactly the record. */
  lemma SinkGetsJsonIff(settings: Settings, record: Record, stamp: string, capacity: nat)
    requires settings.format.JsonFormat? && FloatsPrint(record) && AsciiFieldKeys(record.fields) && AllAscii(stamp)
    requires capacity > 0
    ensures var line := JsonLine(settings, record, stamp);
            && (IsJsonText(Cut(line, capacity)) <==> |line| < capacity && TextsAreUtf8(settings, record))
            && (IsJsonText(Cut(line, capacity)) ==>
                  Json.ParseJson(Cut(line, capacity)) ==
                  Some(Json.Object(RecordPairs(settings.service, settings.environment, record, stamp))))
  {
    BoundedJsonParsesIff(settings, record, stamp, capacity);
    LineIsUtf8Iff(settings, record, stamp);
    if |JsonLine(settings, record, stamp)| < capacity {
      assert Cut(JsonLine(settings, record, stamp), capacity) == JsonLine(settings, record, stamp);
    }
  }

  // From the caller's side: the cut at admission.

  function Ascii(n: nat): (s: string)
    ensures |s| == n && AllAscii(s)
  {
    seq(n, i => 'a')
  }

  /** A message that fills the buffer but for the last byte of its last character. */
  function SplitMessage(caps: Capacities): string
    requires caps.Valid()
  {
    Ascii(caps.message - 2) + [0xC3 as char, 0xA9 as char]
  }

  /** For every size a well-formed message can be admitted as one that is not, so that the line of a
      caller who logs UTF-8 is no JSON text although it is not cut. CutIsUtf8Iff says when. */
  lemma AdmissionCanSplitCharacter(caps: Capacities, sequence: nat, millis: int64)
    requires caps.Valid()
    ensures var call := Call(2, Some(SplitMessage(caps)), None, NullFields(0));
            && IsUtf8(SplitMessage(caps))
            && Validation.CallStatus(caps, call) == Ok
            && !IsUtf8(Validation.Admitted(caps, call, sequence, millis).message)
  {
    var tail := [0xC3 as char, 0xA9 as char];
    AsciiFirst(Ascii(caps.message - 2), tail);
    assert tail[2..] == "";
    assert IsUtf8(tail);
    CutIsUtf8Iff(SplitMessage(caps), caps.message);
    assert SplitMessage(caps)[caps.message - 1] == tail[1];
  }
}
