/** The JSON rendering parses back to exactly the record. */
module JsonParseBack {
  import opened Sequences
  import opened Records
  import opened Decimal
  import opened Json
  import opened Render
  import Validation

  // What the parse should give.

  function JsonOf(value: Value): Json {
    match value
    case Text(text) => Str(text)
    case Flag(flag) => Bool(flag)
    case Signed(n) => Number(PrintSigned(n))
    case Unsigned(n) => Number(Print(n))
    case Float(digits) => Number(digits)
  }

  function FieldPairs(fields: seq<Field>): (pairs: seq<(string, Json)>)
    ensures |pairs| == |fields|
    ensures forall i | 0 <= i < |fields| :: pairs[i] == (fields[i].key, JsonOf(fields[i].value))
  {
    seq(|fields|, i requires 0 <= i < |fields| => (fields[i].key, JsonOf(fields[i].value)))
  }

  function BuiltinPairs(service: string, environment: string, record: Record): seq<(string, Json)> {
    [ ("level", Str(LevelName(record.level))),
      ("service", Str(service)),
      ("environment", Str(environment)),
      ("sequence_id", Str(Print(record.sequence))),
      ("message", Str(record.message)) ]
  }

  function ContextPairs(context: string): seq<(string, Json)> {
    if context == "" then [] else [("context", Str(context))]
  }

  /** The members of a record's object, in order. Neither the format nor the pretty setting occurs. */
  function RecordPairs(service: string, environment: string, record: Record, stamp: string): seq<(string, Json)> {
    [("ts", Str(stamp))] + LaterPairs(service, environment, record)
  }

  function LaterPairs(service: string, environment: string, record: Record): seq<(string, Json)> {
    BuiltinPairs(service, environment, record) + ContextPairs(record.context) + FieldPairs(record.fields)
  }

  /** A finite double prints as a JSON number of at most 24 characters under "%.17g". */
  predicate PrintsAsNumber(value: Value) {
    value.Float? ==> IsNumber(value.digits) && |value.digits| <= 24
  }

  predicate FloatsPrint(record: Record) {
    forall i | 0 <= i < |record.fields| :: PrintsAsNumber(record.fields[i].value)
  }

  // Regrouping of concatenations.

  lemma AfterHead(c: char, s: string)
    ensures ([c] + s)[0] == c && ([c] + s)[1..] == s
  {
  }

  lemma RegroupLine(a: string, b: string, c: string, d: string)
    ensures a + b + c + d == a + (b + (c + d))
  {
  }

  lemma RegroupMember(q: string, key: string, pad: string, value: string, rest: string)
    ensures q + key + q + (":" + pad) + value + rest == q + (key + q + (":" + (pad + (value + rest))))
  {
  }

  lemma RegroupTrail(pad: string, m: string, trail: string, end: string)
    ensures ("," + pad) + m + trail + end == "," + (pad + (m + (trail + end)))
  {
  }

  // Strings.

  lemma EscapedCharParses(c: char, rest: string)
    ensures JsonEscape(c)[0] != '\"'
    ensures ParseChar(JsonEscape(c) + rest) == Some((c, rest))
  {
    var e := JsonEscape(c);
    assert (e + rest)[0] == e[0];
    assert (e + rest)[|e|..] == rest;
    if c == '\\' || c == '\"' || c == '\n' || c == '\r' || c == '\t' {
      assert (e + rest)[1] == e[1];
    } else if c < ' ' {
      assert e[1] == 'u' && (e + rest)[1] == e[1];
      assert (e + rest)[2..6] == e[2..6];
      ControlCodeParses(c);
    }
  }

  lemma ControlCodeParses(c: char)
    requires c < ' ' && c !in {'\n', '\r', '\t'}
    ensures |JsonEscape(c)| == 6 && HexCode(JsonEscape(c)[2..6]) == Some(c as nat)
  {
    var e := JsonEscape(c);
    assert e[2] == '0' && e[3] == '0';
    HexDigitParses(c as nat / 16);
    HexDigitParses(c as nat % 16);
    assert e[2..6] == ['0', '0', e[4], e[5]];
  }

  lemma HexDigitParses(d: nat)
    requires d < 16
    ensures HexValue(HexDigit(d)) == Some(d)
  {
  }

  /** Escaping loses nothing: the parser reads the original string back. */
  lemma {:induction false} EscapedParses(v: string, rest: string)
    ensures ParseChars(Escaped(JsonFormat, v) + "\"" + rest) == Some((v, rest))
  {
    var s := Escaped(JsonFormat, v) + "\"" + rest;
    if v == "" {
      assert s[0] == '\"' && s[1..] == rest;
    } else {
      var tail := Escaped(JsonFormat, v[1..]) + "\"" + rest;
      assert s == JsonEscape(v[0]) + tail;
      assert s[0] == JsonEscape(v[0])[0];
      EscapedCharParses(v[0], tail);
      EscapedParses(v[1..], rest);
      assert [v[0]] + v[1..] == v;
    }
  }

  lemma {:induction false} PlainKeyIsUnescaped(key: string)
    requires forall i | 0 <= i < |key| :: Validation.IsKeyChar(key[i])
    ensures Escaped(JsonFormat, key) == key
  {
    if key != "" {
      PlainKeyIsUnescaped(key[1..]);
      assert [key[0]] + key[1..] == key;
    }
  }

  // Numbers.

  lemma {:induction false} DigitsRun(s: string)
    requires AllDigits(s)
    ensures DigitRun(s) == |s|
  {
    if s != "" {
      DigitsRun(s[1..]);
    }
  }

  lemma IntegersAreNumbers(n: int)
    ensures IsNumber(PrintSigned(n))
  {
    var digits := Print(if n < 0 then -n else n);
    DigitsRun(digits);
    assert digits[|digits|..] == "";
    if n < 0 {
      assert PrintSigned(n)[1..] == digits;
    }
  }

  lemma {:induction false} DigitsAreNumberChars(s: string, i: nat)
    requires i < DigitRun(s)
    ensures IsNumberChar(s[i])
  {
    if i > 0 {
      DigitsAreNumberChars(s[1..], i - 1);
    }
  }

  lemma ExponentHasNumberChars(s: string)
    requires IsExponent(s)
    ensures forall i | 0 <= i < |s| :: IsNumberChar(s[i])
  {
    if s != "" {
      var signed := |s| > 1 && (s[1] == '+' || s[1] == '-');
      var from := if signed then 2 else 1;
      forall i | from <= i < |s|
        ensures IsNumberChar(s[i])
      {
        DigitsAreNumberChars(s[from..], i - from);
      }
    }
  }

  lemma FractionHasNumberChars(s: string)
    requires IsFraction(s)
    ensures forall i | 0 <= i < |s| :: IsNumberChar(s[i])
  {
    if s != "" && s[0] == '.' {
      var n := 1 + DigitRun(s[1..]);
      ExponentHasNumberChars(s[n..]);
      forall i | 0 <= i < |s|
        ensures IsNumberChar(s[i])
      {
        if 1 <= i < n {
          DigitsAreNumberChars(s[1..], i - 1);
        } else if n <= i {
          assert s[i] == s[n..][i - n];
        }
      }
    } else {
      ExponentHasNumberChars(s);
    }
  }

  lemma NumbersHaveNumberChars(s: string)
    requires IsNumber(s)
    ensures s != "" && forall i | 0 <= i < |s| :: IsNumberChar(s[i])
    ensures s[0] == '-' || IsDigit(s[0])
  {
    var from := if s[0] == '-' then 1 else 0;
    var t := s[from..];
    var n := DigitRun(t);
    FractionHasNumberChars(t[n..]);
    forall i | 0 <= i < |s|
      ensures IsNumberChar(s[i])
    {
      if i >= from {
        if i - from < n {
          DigitsAreNumberChars(t, i - from);
        } else {
          assert s[i] == t[n..][i - from - n];
        }
      }
    }
    assert IsDigit(t[0]);
  }

  lemma {:induction false} NumberRunStops(s: string, rest: string)
    requires forall i | 0 <= i < |s| :: IsNumberChar(s[i])
    requires rest != "" && !IsNumberChar(rest[0])
    ensures NumberRun(s + rest) == |s|
  {
    if s == "" {
      assert s + rest == rest;
    } else {
      NumberRunStops(s[1..], rest);
      assert (s + rest)[1..] == s[1..] + rest;
    }
  }

  // Values.

  /** What can follow a value in the rendered object. */
  predicate Stops(rest: string) {
    rest != "" && (rest[0] == ',' || rest[0] == '}')
  }

  lemma NumberParses(text: string, rest: string)
    requires IsNumber(text) && Stops(rest)
    ensures ParseValue(text + rest) == Some((Number(text), rest))
  {
    NumbersHaveNumberChars(text);
    NumberRunStops(text, rest);
    assert (text + rest)[..|text|] == text && (text + rest)[|text|..] == rest;
    assert (text + rest)[0] == text[0];
  }

  lemma QuotedParses(v: string, rest: string)
    ensures ParseValue(Quoted(JsonFormat, v) + rest) == Some((Str(v), rest))
  {
    var s := Quoted(JsonFormat, v) + rest;
    EscapedParses(v, rest);
    assert s[0] == '\"';
    assert s[1..] == Escaped(JsonFormat, v) + "\"" + rest;
  }

  lemma ValueParses(value: Value, rest: string)
    requires PrintsAsNumber(value) && Stops(rest)
    ensures ParseValue(ValueText(JsonFormat, value) + rest) == Some((JsonOf(value), rest))
    ensures ValueText(JsonFormat, value) != "" && !IsWs(ValueText(JsonFormat, value)[0])
  {
    match value
    case Text(text) => QuotedParses(text, rest);
    case Flag(flag) =>
      var word := if flag then "true" else "false";
      assert (word + rest)[0] == word[0];
      assert word <= word + rest && (word + rest)[|word|..] == rest;
    case Signed(n) =>
      IntegersAreNumbers(n);
      NumbersHaveNumberChars(PrintSigned(n));
      NumberParses(PrintSigned(n), rest);
    case Unsigned(n) =>
      IntegersAreNumbers(n);
      NumbersHaveNumberChars(Print(n));
      NumberParses(Print(n), rest);
    case Float(digits) =>
      NumbersHaveNumberChars(digits);
      NumberParses(digits, rest);
  }

  // Members.

  /** The rendered member stands for this key and value, whatever follows. */
  ghost predicate StandsFor(m: Member, pair: (string, Json)) {
    && m.value != "" && !IsWs(m.value[0])
    && (forall rest :: ParseChars(m.key + "\"" + rest) == Some((pair.0, rest)))
    && (forall rest | Stops(rest) :: ParseValue(m.value + rest) == Some((pair.1, rest)))
  }

  lemma SkipOneSpace(pad: string, s: string)
    requires pad == "" || pad == " "
    requires s != "" && !IsWs(s[0])
    ensures SkipWs(pad + s) == s
  {
    if pad == "" {
      assert pad + s == s;
    } else {
      assert (pad + s)[0] == ' ' && (pad + s)[1..] == s;
    }
  }

  predicate JsonMarks(marks: Punctuation) {
    && marks.quote == "\""
    && (marks.colon == ":" || marks.colon == ": ")
    && (marks.separator == "," || marks.separator == ", ")
  }

  lemma MemberParses(marks: Punctuation, m: Member, pair: (string, Json), rest: string)
    requires JsonMarks(marks) && StandsFor(m, pair) && Stops(rest)
    ensures ParseMember(MemberText(marks, m) + rest) == Some((pair, rest))
  {
    var pad := if marks.colon == ":" then "" else " ";
    assert marks.colon == ":" + pad;
    var afterColon := pad + (m.value + rest);
    RegroupMember(marks.quote, m.key, pad, m.value, rest);
    AfterHead('\"', m.key + "\"" + (":" + afterColon));
    AfterHead(':', afterColon);
    assert ParseChars(m.key + "\"" + (":" + afterColon)) == Some((pair.0, ":" + afterColon));
    assert (m.value + rest)[0] == m.value[0];
    SkipOneSpace(pad, m.value + rest);
    assert ParseValue(m.value + rest) == Some((pair.1, rest));
  }

  /** After a member, a further trail leads to the next member. */
  lemma NextMember(marks: Punctuation, m: Member, members: seq<Member>)
    requires JsonMarks(marks)
    ensures var later := MemberText(marks, m) + (Trail(marks, members) + "}");
            var rest := Trail(marks, [m] + members) + "}";
            rest != "" && rest[0] == ',' && SkipWs(rest[1..]) == later
  {
    var pad := if marks.separator == "," then "" else " ";
    assert marks.separator == "," + pad;
    var later := MemberText(marks, m) + (Trail(marks, members) + "}");
    assert ([m] + members)[1..] == members;
    RegroupTrail(pad, MemberText(marks, m), Trail(marks, members), "}");
    AfterHead(',', pad + later);
    assert later[0] == '\"';
    SkipOneSpace(pad, later);
  }

  /** The last member. */
  lemma LastParses(marks: Punctuation, m: Member, pair: (string, Json))
    requires JsonMarks(marks) && StandsFor(m, pair)
    ensures ParseMembers(MemberText(marks, m) + "}") == Some(([pair], ""))
  {
    assert "}"[1..] == "";
    MemberParses(marks, m, pair, "}");
  }

  /** A member with more to come. */
  lemma MemberThenTrail(marks: Punctuation, m: Member, pair: (string, Json), next: Member, members: seq<Member>)
    requires JsonMarks(marks) && StandsFor(m, pair)
    ensures var later := ParseMembers(MemberText(marks, next) + (Trail(marks, members) + "}"));
            ParseMembers(MemberText(marks, m) + (Trail(marks, [next] + members) + "}")) ==
            if later.None? then None else Some(([pair] + later.value.0, later.value.1))
  {
    NextMember(marks, next, members);
    MemberParses(marks, m, pair, Trail(marks, [next] + members) + "}");
  }

  /** A trail of members, up to the closing brace. */
  lemma {:induction false} TrailParses(marks: Punctuation, m: Member, pair: (string, Json),
                                       members: seq<Member>, pairs: seq<(string, Json)>)
    requires JsonMarks(marks) && StandsFor(m, pair)
    requires |members| == |pairs| && forall i | 0 <= i < |members| :: StandsFor(members[i], pairs[i])
    ensures ParseMembers(MemberText(marks, m) + (Trail(marks, members) + "}")) == Some(([pair] + pairs, ""))
    decreases |members|
  {
    if members == [] {
      LastParses(marks, m, pair);
      assert "" + "}" == "}" && [pair] + pairs == [pair];
    } else {
      HeadAndTail(members);
      HeadAndTail(pairs);
      MemberThenTrail(marks, m, pair, members[0], members[1..]);
      TrailParses(marks, members[0], pairs[0], members[1..], pairs[1..]);
    }
  }

  // The whole line.

  predicate AllKeyChars(key: string) {
    forall i | 0 <= i < |key| :: Validation.IsKeyChar(key[i])
  }

  lemma BuiltinKeysAreKeys()
    ensures AllKeyChars("level") && AllKeyChars("service") && AllKeyChars("environment")
    ensures AllKeyChars("sequence_id") && AllKeyChars("message")
  {
  }

  lemma StringMemberStands(key: string, text: string)
    requires AllKeyChars(key)
    ensures StandsFor(Member(key, Quoted(JsonFormat, text)), (key, Str(text)))
  {
    PlainKeyIsUnescaped(key);
    forall rest
      ensures ParseChars(key + "\"" + rest) == Some((key, rest))
    {
      EscapedParses(key, rest);
    }
    forall rest | Stops(rest)
      ensures ParseValue(Quoted(JsonFormat, text) + rest) == Some((Str(text), rest))
    {
      QuotedParses(text, rest);
    }
  }

  lemma FieldMemberStands(field: Field)
    requires PrintsAsNumber(field.value)
    ensures StandsFor(FieldMember(JsonFormat, field), (field.key, JsonOf(field.value)))
  {
    ValueParses(field.value, "}");
    forall rest
      ensures ParseChars(Escaped(JsonFormat, field.key) + "\"" + rest) == Some((field.key, rest))
    {
      EscapedParses(field.key, rest);
    }
    forall rest | Stops(rest)
      ensures ParseValue(ValueText(JsonFormat, field.value) + rest) == Some((JsonOf(field.value), rest))
    {
      ValueParses(field.value, rest);
    }
  }

  lemma DigitsNeedNoEscape(s: string)
    requires AllDigits(s)
    ensures Escaped(JsonFormat, s) == s
  {
    forall i | 0 <= i < |s| ensures Validation.IsKeyChar(s[i]) {
      assert IsDigit(s[i]);
    }
    PlainKeyIsUnescaped(s);
  }

  function LevelMember(record: Record): Member {
    Member("level", Quoted(JsonFormat, LevelName(record.level)))
  }

  lemma BuiltinMembersStand(settings: Settings, record: Record)
    requires settings.format.JsonFormat?
    ensures AllStand([LevelMember(record)] + Builtins(settings, record),
                     BuiltinPairs(settings.service, settings.environment, record))
  {
    BuiltinKeysAreKeys();
    DigitsNeedNoEscape(Print(record.sequence));
    StringMemberStands("level", LevelName(record.level));
    StringMemberStands("service", settings.service);
    StringMemberStands("environment", settings.environment);
    StringMemberStands("sequence_id", Print(record.sequence));
    StringMemberStands("message", record.message);
  }

  lemma FieldMembersStand(fields: seq<Field>)
    requires forall i | 0 <= i < |fields| :: PrintsAsNumber(fields[i].value)
    ensures forall i | 0 <= i < |fields| :: StandsFor(FieldMembers(JsonFormat, fields)[i], FieldPairs(fields)[i])
  {
    forall i | 0 <= i < |fields|
      ensures StandsFor(FieldMembers(JsonFormat, fields)[i], FieldPairs(fields)[i])
    {
      FieldMemberStands(fields[i]);
    }
  }

  ghost predicate AllStand(members: seq<Member>, pairs: seq<(string, Json)>) {
    |members| == |pairs| && forall i | 0 <= i < |members| :: StandsFor(members[i], pairs[i])
  }

  lemma StandTogether(a: seq<Member>, p: seq<(string, Json)>, b: seq<Member>, q: seq<(string, Json)>)
    requires AllStand(a, p) && AllStand(b, q)
    ensures AllStand(a + b, p + q)
  {
  }

  lemma LaterMembersStand(settings: Settings, record: Record)
    requires settings.format.JsonFormat? && FloatsPrint(record)
    ensures AllStand([LevelMember(record)] + LaterMembers(settings, record),
                     LaterPairs(settings.service, settings.environment, record))
  {
    BuiltinMembersStand(settings, record);
    StringMemberStands("context", record.context);
    FieldMembersStand(record.fields);
    var builtins := BuiltinPairs(settings.service, settings.environment, record);
    StandTogether([LevelMember(record)] + Builtins(settings, record), builtins,
                  ContextMembers(JsonFormat, record.context), ContextPairs(record.context));
    StandTogether([LevelMember(record)] + Builtins(settings, record) + ContextMembers(JsonFormat, record.context),
                  builtins + ContextPairs(record.context),
                  FieldMembers(JsonFormat, record.fields), FieldPairs(record.fields));
    LaterInOrder(settings, record, LevelMember(record));
  }

  /** Braces around a trail of members that stand for some pairs make one object of those pairs. */
  lemma BracesMakeObject(marks: Punctuation, m: Member, pair: (string, Json), members: seq<Member>,
                         pairs: seq<(string, Json)>)
    requires JsonMarks(marks) && StandsFor(m, pair) && AllStand(members, pairs)
    ensures ParseValue("{" + MemberText(marks, m) + Trail(marks, members) + "}")
         == Some((Object([pair] + pairs), ""))
  {
    var body := MemberText(marks, m) + (Trail(marks, members) + "}");
    RegroupLine("{", MemberText(marks, m), Trail(marks, members), "}");
    AfterHead('{', body);
    assert body[0] == '\"';
    TrailParses(marks, m, pair, members, pairs);
  }

  lemma LineIsOneObject(settings: Settings, record: Record, stamp: string)
    requires settings.format.JsonFormat? && FloatsPrint(record)
    ensures JsonLine(settings, record, stamp)[0] == '{'
    ensures ParseValue(JsonLine(settings, record, stamp)) ==
            Some((Object(RecordPairs(settings.service, settings.environment, record, stamp)), ""))
  {
    StringMemberStands("ts", stamp);
    LaterMembersStand(settings, record);
    BracesMakeObject(Marks(settings), Member("ts", Quoted(JsonFormat, stamp)), ("ts", Str(stamp)),
                     [LevelMember(record)] + LaterMembers(settings, record),
                     LaterPairs(settings.service, settings.environment, record));
  }

  /** The untruncated JSON line is a JSON text whose value is one object: the built-in members, the
      context only if it is not empty, then the fields, typed and in order. The pretty setting
      makes no difference. */
  lemma JsonParsesBack(settings: Settings, record: Record, stamp: string)
    requires settings.format.JsonFormat? && FloatsPrint(record)
    ensures ParseJson(JsonLine(settings, record, stamp)) ==
            Some(Object(RecordPairs(settings.service, settings.environment, record, stamp)))
  {
    LineIsOneObject(settings, record, stamp);
  }

  lemma {:induction false} WholeObjectParses(line: string, pairs: seq<(string, Json)>)
    requires line != "" && line[0] == '{' && ParseValue(line) == Some((Object(pairs), ""))
    ensures ParseJson(line) == Some(Object(pairs))
  {
    assert SkipWs(line) == line;
  }

  /** One object, cut to a buffer. */
  lemma {:induction false} CutObjectParses(line: string, pairs: seq<(string, Json)>, capacity: nat)
    requires line != "" && line[0] == '{' && ParseValue(line) == Some((Object(pairs), "")) && capacity > 0
    ensures ParseJson(Cut(line, capacity)) == if |line| < capacity then Some(Object(pairs)) else None
  {
    if |line| < capacity {
      assert Cut(line, capacity) == line;
      WholeObjectParses(line, pairs);
    } else {
      NoPrefixParses(line, capacity - 1);
    }
  }

  /** What a sink receives parses if and only if nothing was cut off. */
  lemma BoundedJsonParsesIff(settings: Settings, record: Record, stamp: string, capacity: nat)
    requires settings.format.JsonFormat? && FloatsPrint(record) && capacity > 0
    ensures var line := JsonLine(settings, record, stamp);
            ParseJson(Cut(line, capacity)) ==
            if |line| < capacity then Some(Object(RecordPairs(settings.service, settings.environment, record, stamp)))
            else None
  {
    LineIsOneObject(settings, record, stamp);
    CutObjectParses(JsonLine(settings, record, stamp),
                    RecordPairs(settings.service, settings.environment, record, stamp), capacity);
  }

  /** Integers are recovered, not just their spelling. */
  lemma IntegersAreRecovered(n: int, m: int)
    requires PrintSigned(n) == PrintSigned(m)
    ensures n == m
  {
    ValueOfPrint(if n < 0 then -n else n);
    ValueOfPrint(if m < 0 then -m else m);
    assert n < 0 <==> PrintSigned(n)[0] == '-' by {
      assert n >= 0 ==> IsDigit(Print(n)[0]);
    }
    assert m < 0 <==> PrintSigned(m)[0] == '-' by {
      assert m >= 0 ==> IsDigit(Print(m)[0]);
    }
    if n < 0 {
      assert PrintSigned(n)[1..] == Print(-n) && PrintSigned(m)[1..] == Print(-m);
    }
  }

  /** The built-in members and the context come first, under reserved names. */
  lemma NamesInOrder(service: string, environment: string, record: Record, stamp: string)
    ensures var pairs := RecordPairs(service, environment, record, stamp);
            var n := |pairs| - |record.fields|;
            && 0 <= n <= |Validation.RESERVED_KEYS|
            && (forall i | 0 <= i < n :: pairs[i].0 == Validation.RESERVED_KEYS[i])
            && (forall i | n <= i < |pairs| :: pairs[i].0 == record.fields[i - n].key)
  {
  }

  lemma ReservedKeysAreDistinct()
    ensures forall i, j | 0 <= i < j < |Validation.RESERVED_KEYS| ::
              Validation.RESERVED_KEYS[i] != Validation.RESERVED_KEYS[j]
  {
  }

  /** The object of an admitted record has pairwise distinct member names. */
  lemma MemberNamesAreDistinct(caps: Capacities, call: Call, sequence: nat, millis: int64,
                               service: string, environment: string, stamp: string)
    requires caps.Valid() && Validation.CallStatus(caps, call) == Ok
    ensures var pairs := RecordPairs(service, environment, Validation.Admitted(caps, call, sequence, millis), stamp);
            forall i, j | 0 <= i < j < |pairs| :: pairs[i].0 != pairs[j].0
  {
    Validation.AdmittedFieldsAreDistinct(caps, call, sequence, millis);
    var record := Validation.Admitted(caps, call, sequence, millis);
    var pairs := RecordPairs(service, environment, record, stamp);
    var n := |pairs| - |record.fields|;
    NamesInOrder(service, environment, record, stamp);
    ReservedKeysAreDistinct();
    forall i, j | 0 <= i < j < |pairs|
      ensures pairs[i].0 != pairs[j].0
    {
      if n <= j {
        assert Validation.IsValidKey(record.fields[j - n].key);
      }
    }
  }

  /** Exactly the names of the members that are not fields are reserved. */
  lemma ReservedAreTheOthers(service: string, environment: string, record: Record, stamp: string, key: string)
    requires record.context != "" && record.fields == []
    ensures key in Validation.RESERVED_KEYS <==>
            exists i | 0 <= i < |RecordPairs(service, environment, record, stamp)| ::
              RecordPairs(service, environment, record, stamp)[i].0 == key
  {
    var pairs := RecordPairs(service, environment, record, stamp);
    NamesInOrder(service, environment, record, stamp);
    assert |pairs| == |Validation.RESERVED_KEYS|;
    if key in Validation.RESERVED_KEYS {
      var i :| 0 <= i < |Validation.RESERVED_KEYS| && Validation.RESERVED_KEYS[i] == key;
      assert pairs[i].0 == key;
    }
  }
}
