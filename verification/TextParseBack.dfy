/** The text rendering stays on one line and can be read back. */
module TextParseBack {
  import opened Sequences
  import opened Records
  import opened Decimal
  import opened Render
  import opened Scanning
  import Json
  import JsonParseBack
  import Validation

  // No control characters.

  predicate Printable(s: string) {
    forall i | 0 <= i < |s| :: 32 <= s[i] as int && s[i] as int != 127
  }

  lemma {:induction false} EscapedIsPrintable(s: string)
    ensures Printable(Escaped(TextFormat, s))
  {
    if s != "" {
      EscapedIsPrintable(s[1..]);
    }
  }

  predicate ValidKeys(record: Record) {
    forall i | 0 <= i < |record.fields| :: Validation.IsValidKey(record.fields[i].key)
  }

  lemma ValueIsPrintable(value: Value)
    requires JsonParseBack.PrintsAsNumber(value)
    ensures Printable(ValueText(TextFormat, value))
  {
    match value
    case Text(text) => EscapedIsPrintable(text);
    case Flag(_) =>
    case Signed(n) =>
      JsonParseBack.IntegersAreNumbers(n);
      JsonParseBack.NumbersHaveNumberChars(PrintSigned(n));
    case Unsigned(n) =>
    case Float(digits) => JsonParseBack.NumbersHaveNumberChars(digits);
  }

  lemma {:induction false} TrailIsPrintable(marks: Punctuation, members: seq<Member>)
    requires marks == Punctuation(" ", "", "=")
    requires forall i | 0 <= i < |members| :: Printable(members[i].key) && Printable(members[i].value)
    ensures Printable(Trail(marks, members))
  {
    if members != [] {
      TrailIsPrintable(marks, members[1..]);
      assert Printable(members[0].key) && Printable(members[0].value);
    }
  }

  predicate AllPrintable(members: seq<Member>) {
    forall i | 0 <= i < |members| :: Printable(members[i].key) && Printable(members[i].value)
  }

  lemma PrintableAppend(a: seq<Member>, b: seq<Member>)
    requires AllPrintable(a) && AllPrintable(b)
    ensures AllPrintable(a + b)
  {
  }

  lemma BuiltinsArePrintable(settings: Settings, record: Record)
    requires settings.format.TextFormat?
    ensures AllPrintable(Builtins(settings, record))
  {
    QuotedIsPrintable(settings.service);
    QuotedIsPrintable(settings.environment);
    QuotedIsPrintable(record.message);
    NumberIsPrintable(record.sequence);
    var b := Builtins(settings, record);
    assert Printable(b[0].key) && Printable(b[1].key) && Printable(b[2].key) && Printable(b[3].key);
  }

  lemma QuotedIsPrintable(text: string)
    ensures Printable(Quoted(TextFormat, text))
  {
    EscapedIsPrintable(text);
  }

  lemma NumberIsPrintable(n: nat)
    ensures Printable("\"" + Print(n) + "\"")
  {
    assert forall i | 0 <= i < |Print(n)| :: IsDigit(Print(n)[i]);
  }

  lemma FieldsArePrintable(record: Record)
    requires JsonParseBack.FloatsPrint(record) && ValidKeys(record)
    ensures AllPrintable(FieldMembers(TextFormat, record.fields))
  {
    forall i | 0 <= i < |record.fields|
      ensures Printable(FieldMembers(TextFormat, record.fields)[i].key)
      ensures Printable(FieldMembers(TextFormat, record.fields)[i].value)
    {
      assert Validation.IsValidKey(record.fields[i].key);
      ValueIsPrintable(record.fields[i].value);
    }
  }

  lemma MembersArePrintable(settings: Settings, record: Record)
    requires settings.format.TextFormat? && JsonParseBack.FloatsPrint(record) && ValidKeys(record)
    ensures AllPrintable(LaterMembers(settings, record))
  {
    var context := ContextMembers(TextFormat, record.context);
    BuiltinsArePrintable(settings, record);
    EscapedIsPrintable(record.context);
    FieldsArePrintable(record);
    PrintableAppend(Builtins(settings, record), context);
    PrintableAppend(Builtins(settings, record) + context, FieldMembers(TextFormat, record.fields));
  }

  /** No text line, cut or whole, holds a control character, so no record can forge a second line. */
  lemma TextHasNoControl(settings: Settings, record: Record, stamp: string, capacity: nat)
    requires settings.format.TextFormat? && JsonParseBack.FloatsPrint(record) && ValidKeys(record)
    requires Printable(stamp) && capacity > 0
    ensures Printable(TextLine(settings, record, stamp))
    ensures Printable(Cut(Line(settings, record, stamp), capacity))
  {
    var level := Member("level", LevelName(record.level));
    MembersArePrintable(settings, record);
    TrailIsPrintable(Marks(settings), [level] + LaterMembers(settings, record));
  }

  // A reader for text lines.

  datatype TextValue = Quotation(text: string) | Bare(text: string)

  function Unescape(c: char): Option<char> {
    match c
    case '\\' => Some('\\')
    case '\"' => Some('\"')
    case 'n' => Some('\n')
    case 'r' => Some('\r')
    case 't' => Some('\t')
    case _ => None
  }

  /** The rest of a quotation after its opening mark. */
  function ReadQuotation(s: string): (r: Option<(string, string)>)
    ensures r.Some? ==> |r.value.1| < |s|
  {
    if s == "" then None
    else if s[0] == '\"' then Some(("", s[1..]))
    else if s[0] == '\\' then
      if |s| < 2 || Unescape(s[1]).None? then None
      else
        var more := ReadQuotation(s[2..]);
        if more.None? then None else Some(([Unescape(s[1]).value] + more.value.0, more.value.1))
    else
      var more := ReadQuotation(s[1..]);
      if more.None? then None else Some(([s[0]] + more.value.0, more.value.1))
  }

  function ReadValue(s: string): (r: Option<(TextValue, string)>)
    ensures r.Some? ==> |r.value.1| <= |s|
  {
    if s != "" && s[0] == '\"' then
      var body := ReadQuotation(s[1..]);
      if body.None? then None else Some((Quotation(body.value.0), body.value.1))
    else Some((Bare(s[..Find(s, ' ')]), s[Find(s, ' ')..]))
  }

  /** A sequence of " key=value". */
  function ReadPairs(s: string): Option<seq<(string, TextValue)>>
    decreases |s|
  {
    if s == "" then Some([])
    else if s[0] != ' ' then None
    else
      var t := s[1..];
      var n := Find(t, '=');
      if n == |t| then None
      else
        var value := ReadValue(t[n + 1..]);
        if value.None? then None
        else
          var more := ReadPairs(value.value.1);
          if more.None? then None else Some([(t[..n], value.value.0)] + more.value)
  }

  datatype Reading = Reading(stamp: string, pairs: seq<(string, TextValue)>)

  function ReadLine(s: string): Option<Reading> {
    var n := Find(s, ' ');
    var pairs := ReadPairs(s[n..]);
    if pairs.None? then None else Some(Reading(s[..n], pairs.value))
  }

  /** Message, context and fields out of the pairs. A sixth pair named "context" is the context:
      no field can have that name, because it is reserved. */
  function Contents(pairs: seq<(string, TextValue)>): (string, string, seq<(string, TextValue)>)
    requires |pairs| >= 5
  {
    if |pairs| > 5 && pairs[5].0 == "context" then (pairs[4].1.text, pairs[5].1.text, pairs[6..])
    else (pairs[4].1.text, "", pairs[5..])
  }

  // Reading back.

  /** No control characters but the three that have escapes. */
  predicate Legible(s: string) {
    forall i | 0 <= i < |s| :: IsControl(s[i]) ==> s[i] in {'\n', '\r', '\t'}
  }

  lemma {:induction false} QuotationReads(v: string, rest: string)
    requires Legible(v)
    ensures ReadQuotation(Escaped(TextFormat, v) + "\"" + rest) == Some((v, rest))
  {
    if v == "" {
      ConsTail('\"', rest);
      assert Escaped(TextFormat, v) + "\"" + rest == ['\"'] + rest;
    } else {
      var tail := Escaped(TextFormat, v[1..]) + "\"" + rest;
      EscapeReads(v[0], tail);
      assert Escaped(TextFormat, v) + "\"" + rest == TextEscape(v[0]) + tail;
      QuotationReads(v[1..], rest);
      HeadAndTail(v);
    }
  }

  function Prefixed(c: char, r: Option<(string, string)>): Option<(string, string)> {
    if r.None? then None else Some(([c] + r.value.0, r.value.1))
  }

  lemma PairEscapeReads(c: char, e: char, tail: string)
    requires Unescape(e) == Some(c)
    ensures ReadQuotation(['\\', e] + tail) ==
            Prefixed(c, ReadQuotation(tail))
  {
    TakeAndDrop(['\\', e], tail);
  }

  lemma PlainCharReads(c: char, tail: string)
    requires c != '\"' && c != '\\'
    ensures ReadQuotation([c] + tail) ==
            Prefixed(c, ReadQuotation(tail))
  {
    ConsTail(c, tail);
  }

  lemma EscapeReads(c: char, tail: string)
    requires Legible([c])
    ensures ReadQuotation(TextEscape(c) + tail) ==
            Prefixed(c, ReadQuotation(tail))
  {
    if |TextEscape(c)| == 2 {
      assert TextEscape(c) == ['\\', TextEscape(c)[1]];
      PairEscapeReads(c, TextEscape(c)[1], tail);
    } else {
      assert Legible([c]) && [c][0] == c;
      PlainCharReads(c, tail);
    }
  }

  function TextOf(value: Value): TextValue {
    match value
    case Text(text) => Quotation(text)
    case _ => Bare(ValueText(TextFormat, value))
  }

  predicate LegibleValue(value: Value) {
    value.Text? ==> Legible(value.text)
  }

  predicate Ends(rest: string) {
    rest == "" || rest[0] == ' '
  }

  /** The member reads as this pair, whatever well-formed text follows. */
  ghost predicate ReadsAs(m: Member, pair: (string, TextValue)) {
    && m.key == pair.0 && !Occurs(m.key, '=')
    && forall rest | Ends(rest) :: ReadValue(m.value + rest) == Some((pair.1, rest))
  }

  lemma QuotedReads(v: string, rest: string)
    requires Legible(v)
    ensures ReadValue(Quoted(TextFormat, v) + rest) == Some((Quotation(v), rest))
  {
    var s := Quoted(TextFormat, v) + rest;
    QuotationReads(v, rest);
    assert s[0] == '\"';
    assert s[1..] == Escaped(TextFormat, v) + "\"" + rest;
  }

  lemma BareReads(word: string, rest: string)
    requires word != "" && word[0] != '\"' && !Occurs(word, ' ') && Ends(rest)
    ensures ReadValue(word + rest) == Some((Bare(word), rest))
  {
    FindSkips(word, rest, ' ');
    assert (word + rest)[0] == word[0];
    assert (word + rest)[..|word|] == word && (word + rest)[|word|..] == rest;
  }

  lemma NumbersAreBare(text: string)
    requires Json.IsNumber(text)
    ensures text != "" && text[0] != '\"' && !Occurs(text, ' ')
  {
    JsonParseBack.NumbersHaveNumberChars(text);
  }

  lemma ValueReads(value: Value, rest: string)
    requires JsonParseBack.PrintsAsNumber(value) && LegibleValue(value) && Ends(rest)
    ensures ReadValue(ValueText(TextFormat, value) + rest) == Some((TextOf(value), rest))
  {
    match value
    case Text(text) => QuotedReads(text, rest);
    case Flag(flag) => BareReads(if flag then "true" else "false", rest);
    case Signed(n) =>
      JsonParseBack.IntegersAreNumbers(n);
      NumbersAreBare(PrintSigned(n));
      BareReads(PrintSigned(n), rest);
    case Unsigned(n) =>
      JsonParseBack.IntegersAreNumbers(n);
      NumbersAreBare(PrintSigned(n));
      BareReads(Print(n), rest);
    case Float(digits) =>
      NumbersAreBare(digits);
      BareReads(digits, rest);
  }

  lemma KeysHaveNoEquals(key: string)
    requires forall i | 0 <= i < |key| :: Validation.IsKeyChar(key[i])
    ensures !Occurs(key, '=')
  {
  }

  lemma QuotedMemberReads(key: string, text: string)
    requires Legible(text) && forall i | 0 <= i < |key| :: Validation.IsKeyChar(key[i])
    ensures ReadsAs(Member(key, Quoted(TextFormat, text)), (key, Quotation(text)))
  {
    KeysHaveNoEquals(key);
    forall rest | Ends(rest)
      ensures ReadValue(Quoted(TextFormat, text) + rest) == Some((Quotation(text), rest))
    {
      QuotedReads(text, rest);
    }
  }

  lemma FieldReads(field: Field)
    requires Validation.IsValidKey(field.key)
    requires JsonParseBack.PrintsAsNumber(field.value) && LegibleValue(field.value)
    ensures ReadsAs(FieldMember(TextFormat, field), (field.key, TextOf(field.value)))
  {
    KeysHaveNoEquals(field.key);
    forall rest | Ends(rest)
      ensures ReadValue(ValueText(TextFormat, field.value) + rest) == Some((TextOf(field.value), rest))
    {
      ValueReads(field.value, rest);
    }
  }

  lemma LevelReads(level: int)
    ensures ReadsAs(Member("level", LevelName(level)), ("level", Bare(LevelName(level))))
  {
    var name := LevelName(level);
    forall rest | Ends(rest)
      ensures ReadValue(name + rest) == Some((Bare(name), rest))
    {
      BareReads(name, rest);
    }
  }

  lemma RegroupPair(key: string, value: string, rest: string)
    ensures " " + ("" + key + "" + "=" + value) + rest == " " + (key + ("=" + (value + rest)))
  {
  }

  /** One member, and whatever comes after it. */
  lemma PairReads(m: Member, pair: (string, TextValue), rest: string)
    requires ReadsAs(m, pair) && Ends(rest)
    ensures var text := " " + MemberText(Punctuation(" ", "", "="), m) + rest;
            && ReadPairs(text) == (if ReadPairs(rest).Some? then Some([pair] + ReadPairs(rest).value) else None)
            && Ends(text)
  {
    RegroupPair(m.key, m.value, rest);
    var t := m.key + ("=" + (m.value + rest));
    JsonParseBack.AfterHead(' ', t);
    FindSkips(m.key, "=" + (m.value + rest), '=');
    AroundSeparator(m.key, '=', m.value + rest);
  }

  lemma {:induction false} TrailReads(members: seq<Member>, pairs: seq<(string, TextValue)>)
    requires |members| == |pairs| && forall i | 0 <= i < |members| :: ReadsAs(members[i], pairs[i])
    ensures ReadPairs(Trail(Punctuation(" ", "", "="), members)) == Some(pairs)
    ensures Ends(Trail(Punctuation(" ", "", "="), members))
  {
    var marks := Punctuation(" ", "", "=");
    if members != [] {
      TrailReads(members[1..], pairs[1..]);
      assert ReadsAs(members[0], pairs[0]);
      PairReads(members[0], pairs[0], Trail(marks, members[1..]));
      HeadAndTail(pairs);
    }
  }

  // The whole line.

  function BuiltinTexts(settings: Settings, record: Record): seq<(string, TextValue)> {
    [ ("level", Bare(LevelName(record.level))),
      ("service", Quotation(settings.service)),
      ("environment", Quotation(settings.environment)),
      ("sequence_id", Quotation(Print(record.sequence))),
      ("message", Quotation(record.message)) ]
  }

  function ContextTexts(context: string): seq<(string, TextValue)> {
    if context == "" then [] else [("context", Quotation(context))]
  }

  function FieldTexts(fields: seq<Field>): (pairs: seq<(string, TextValue)>)
    ensures |pairs| == |fields|
    ensures forall i | 0 <= i < |fields| :: pairs[i] == (fields[i].key, TextOf(fields[i].value))
  {
    seq(|fields|, i requires 0 <= i < |fields| => (fields[i].key, TextOf(fields[i].value)))
  }

  function LineTexts(settings: Settings, record: Record): seq<(string, TextValue)> {
    BuiltinTexts(settings, record) + ContextTexts(record.context) + FieldTexts(record.fields)
  }

  predicate LegibleRecord(settings: Settings, record: Record) {
    && Legible(settings.service) && Legible(settings.environment)
    && Legible(record.message) && Legible(record.context)
    && forall i | 0 <= i < |record.fields| :: LegibleValue(record.fields[i].value)
  }

  ghost predicate AllRead(members: seq<Member>, pairs: seq<(string, TextValue)>) {
    |members| == |pairs| && forall i | 0 <= i < |members| :: ReadsAs(members[i], pairs[i])
  }

  lemma ReadTogether(a: seq<Member>, p: seq<(string, TextValue)>, b: seq<Member>, q: seq<(string, TextValue)>)
    requires AllRead(a, p) && AllRead(b, q)
    ensures AllRead(a + b, p + q)
  {
  }

  lemma {:induction false} DigitsNeedNoEscape(s: string)
    requires AllDigits(s)
    ensures Escaped(TextFormat, s) == s
  {
    if s != "" {
      var c := s[0];
      assert IsDigit(c);
      assert Escape(TextFormat, c) == [c];
      DigitsNeedNoEscape(s[1..]);
      assert [s[0]] + s[1..] == s;
    }
  }

  lemma BuiltinsRead(settings: Settings, record: Record)
    requires settings.format.TextFormat? && LegibleRecord(settings, record)
    ensures AllRead([Member("level", LevelName(record.level))] + Builtins(settings, record),
                    BuiltinTexts(settings, record))
  {
    LevelReads(record.level);
    QuotedMemberReads("service", settings.service);
    QuotedMemberReads("environment", settings.environment);
    var digits := Print(record.sequence);
    DigitsNeedNoEscape(digits);
    assert Legible(digits) by {
      assert forall i | 0 <= i < |digits| :: IsDigit(digits[i]);
    }
    QuotedMemberReads("sequence_id", digits);
    QuotedMemberReads("message", record.message);
  }

  lemma LaterReads(settings: Settings, record: Record)
    requires settings.format.TextFormat? && LegibleRecord(settings, record)
    requires JsonParseBack.FloatsPrint(record) && ValidKeys(record)
    ensures AllRead([Member("level", LevelName(record.level))] + LaterMembers(settings, record),
                    LineTexts(settings, record))
  {
    var level := Member("level", LevelName(record.level));
    BuiltinsRead(settings, record);
    QuotedMemberReads("context", record.context);
    forall i | 0 <= i < |record.fields|
      ensures ReadsAs(FieldMembers(TextFormat, record.fields)[i], FieldTexts(record.fields)[i])
    {
      FieldReads(record.fields[i]);
    }
    ReadTogether([level] + Builtins(settings, record), BuiltinTexts(settings, record),
                 ContextMembers(TextFormat, record.context), ContextTexts(record.context));
    ReadTogether([level] + Builtins(settings, record) + ContextMembers(TextFormat, record.context),
                 BuiltinTexts(settings, record) + ContextTexts(record.context),
                 FieldMembers(TextFormat, record.fields), FieldTexts(record.fields));
    LaterInOrder(settings, record, level);
  }

  /** A whole text line reads back as the timestamp, the built-in values, the context only if it is
      not empty, and the fields in order. */
  lemma TextReadsBack(settings: Settings, record: Record, stamp: string)
    requires settings.format.TextFormat? && LegibleRecord(settings, record)
    requires JsonParseBack.FloatsPrint(record) && ValidKeys(record) && !Occurs(stamp, ' ')
    ensures ReadLine(TextLine(settings, record, stamp)) == Some(Reading(stamp, LineTexts(settings, record)))
  {
    var members := [Member("level", LevelName(record.level))] + LaterMembers(settings, record);
    var trail := Trail(Marks(settings), members);
    LaterReads(settings, record);
    TrailReads(members, LineTexts(settings, record));
    FindSkips(stamp, trail, ' ');
    assert (stamp + trail)[..|stamp|] == stamp && (stamp + trail)[|stamp|..] == trail;
  }

  /** In particular message, context and fields are recovered, although the line does not say
      whether its sixth pair is a context or a field. */
  lemma TextContentsAreRecovered(settings: Settings, record: Record, stamp: string)
    requires settings.format.TextFormat? && LegibleRecord(settings, record)
    requires JsonParseBack.FloatsPrint(record) && ValidKeys(record) && !Occurs(stamp, ' ')
    ensures var reading := ReadLine(TextLine(settings, record, stamp));
            && reading.Some? && |reading.value.pairs| >= 5
            && Contents(reading.value.pairs) == (record.message, record.context, FieldTexts(record.fields))
  {
    TextReadsBack(settings, record, stamp);
    var pairs := LineTexts(settings, record);
    if record.context == "" {
      assert pairs[5..] == FieldTexts(record.fields);
      if record.fields != [] {
        assert pairs[5].0 == record.fields[0].key;
        assert Validation.IsValidKey(record.fields[0].key);
        assert "context" in Validation.RESERVED_KEYS by {
          assert Validation.RESERVED_KEYS[6] == "context";
        }
      }
    } else {
      assert pairs[6..] == FieldTexts(record.fields);
    }
  }

  // Texts that are not legible: what is read back in their place.

  function MaskedChar(c: char): char {
    if IsControl(c) && c !in {'\n', '\r', '\t'} then '?' else c
  }

  function Masked(s: string): (m: string)
    ensures |m| == |s| && forall i | 0 <= i < |s| :: m[i] == MaskedChar(s[i])
  {
    seq(|s|, i requires 0 <= i < |s| => MaskedChar(s[i]))
  }

  lemma MaskedIsLegible(s: string)
    ensures Legible(Masked(s))
    ensures Masked(s) == s <==> Legible(s)
  {
    if Masked(s) == s {
      assert forall i | 0 <= i < |s| :: s[i] == MaskedChar(s[i]);
    }
  }

  /** The escaper writes a text and its masked form alike. */
  lemma {:induction false} MaskedEscapesAlike(s: string)
    ensures Escaped(TextFormat, Masked(s)) == Escaped(TextFormat, s)
  {
    if s != "" {
      assert Masked(s)[1..] == Masked(s[1..]);
      MaskedEscapesAlike(s[1..]);
    }
  }

  function MaskedValue(value: Value): Value {
    if value.Text? then Text(Masked(value.text)) else value
  }

  function MaskedFields(fields: seq<Field>): (masked: seq<Field>)
    ensures |masked| == |fields|
    ensures forall i | 0 <= i < |fields| :: masked[i] == Field(fields[i].key, MaskedValue(fields[i].value))
  {
    seq(|fields|, i requires 0 <= i < |fields| => Field(fields[i].key, MaskedValue(fields[i].value)))
  }

  function MaskedRecord(record: Record): Record {
    record.(message := Masked(record.message), context := Masked(record.context), fields := MaskedFields(record.fields))
  }

  function MaskedSettings(settings: Settings): Settings {
    settings.(service := Masked(settings.service), environment := Masked(settings.environment))
  }

  lemma MaskedFieldsWriteAlike(fields: seq<Field>)
    ensures FieldMembers(TextFormat, MaskedFields(fields)) == FieldMembers(TextFormat, fields)
  {
    forall i | 0 <= i < |fields|
      ensures FieldMember(TextFormat, MaskedFields(fields)[i]) == FieldMember(TextFormat, fields[i])
    {
      if fields[i].value.Text? {
        MaskedEscapesAlike(fields[i].value.text);
      }
    }
  }

  lemma MaskedWritesAlike(settings: Settings, record: Record, stamp: string)
    requires settings.format.TextFormat?
    ensures TextLine(MaskedSettings(settings), MaskedRecord(record), stamp) == TextLine(settings, record, stamp)
  {
    MaskedEscapesAlike(settings.service);
    MaskedEscapesAlike(settings.environment);
    MaskedEscapesAlike(record.message);
    MaskedEscapesAlike(record.context);
    MaskedFieldsWriteAlike(record.fields);
    assert Builtins(MaskedSettings(settings), MaskedRecord(record)) == Builtins(settings, record);
    assert ContextMembers(TextFormat, Masked(record.context)) == ContextMembers(TextFormat, record.context);
  }

  lemma MaskedIsLegibleRecord(settings: Settings, record: Record)
    requires JsonParseBack.FloatsPrint(record) && ValidKeys(record)
    ensures LegibleRecord(MaskedSettings(settings), MaskedRecord(record))
    ensures JsonParseBack.FloatsPrint(MaskedRecord(record)) && ValidKeys(MaskedRecord(record))
  {
    MaskedIsLegible(settings.service);
    MaskedIsLegible(settings.environment);
    MaskedIsLegible(record.message);
    MaskedIsLegible(record.context);
    forall i | 0 <= i < |record.fields|
      ensures LegibleValue(MaskedFields(record.fields)[i].value)
    {
      if record.fields[i].value.Text? {
        MaskedIsLegible(record.fields[i].value.text);
      }
    }
  }

  predicate LegibleContents(record: Record) {
    && Legible(record.message) && Legible(record.context)
    && forall i | 0 <= i < |record.fields| :: LegibleValue(record.fields[i].value)
  }

  lemma MaskedFieldsIff(fields: seq<Field>)
    ensures FieldTexts(MaskedFields(fields)) == FieldTexts(fields) <==>
            forall i | 0 <= i < |fields| :: LegibleValue(fields[i].value)
  {
    var a, b := FieldTexts(MaskedFields(fields)), FieldTexts(fields);
    forall i | 0 <= i < |fields|
      ensures a[i] == b[i] <==> LegibleValue(fields[i].value)
    {
      if fields[i].value.Text? {
        MaskedIsLegible(fields[i].value.text);
      }
    }
  }

  lemma MaskedContentsIff(record: Record)
    ensures Masked(record.message) == record.message && Masked(record.context) == record.context
            && FieldTexts(MaskedFields(record.fields)) == FieldTexts(record.fields)
            <==> LegibleContents(record)
  {
    MaskedIsLegible(record.message);
    MaskedIsLegible(record.context);
    MaskedFieldsIff(record.fields);
  }

  /** For every record: what is read back is message, context and fields with each control character
      other than newline, carriage return and tab replaced by a question mark; so they are recovered
      exactly if they hold none. */
  lemma TextContentsAreRecoveredIff(settings: Settings, record: Record, stamp: string)
    requires settings.format.TextFormat?
    requires JsonParseBack.FloatsPrint(record) && ValidKeys(record) && !Occurs(stamp, ' ')
    ensures var reading := ReadLine(TextLine(settings, record, stamp));
            && reading.Some? && |reading.value.pairs| >= 5
            && Contents(reading.value.pairs) ==
               (Masked(record.message), Masked(record.context), FieldTexts(MaskedFields(record.fields)))
            && (Contents(reading.value.pairs) == (record.message, record.context, FieldTexts(record.fields)) <==>
                LegibleContents(record))
  {
    MaskedWritesAlike(settings, record, stamp);
    MaskedIsLegibleRecord(settings, record);
    TextContentsAreRecovered(MaskedSettings(settings), MaskedRecord(record), stamp);
    MaskedContentsIff(record);
  }
}
