/** The line that mp_logger_render_record means to produce, as a pure function of the record,
    the output settings, and the timestamp text that the C library gives for the record's time. */
module Render {
  import opened Records
  import Decimal

  datatype Format = TextFormat | JsonFormat

  datatype Settings = Settings(service: string, environment: string, format: Format, pretty: bool)

  function LevelName(level: int): string {
    match level
    case 0 => "TRACE"
    case 1 => "DEBUG"
    case 2 => "INFO"
    case 3 => "WARNING"
    case 4 => "ERROR"
    case 5 => "FATAL"
    case _ => "UNKNOWN"
  }

  // Escaping works character by character.

  function HexDigit(d: nat): char
    requires d < 16
  {
    "0123456789abcdef"[d]
  }

  function JsonEscape(c: char): (e: string)
    ensures |e| >= 1
  {
    if c == '\\' then "\\\\"
    else if c == '\"' then "\\\""
    else if c == '\n' then "\\n"
    else if c == '\r' then "\\r"
    else if c == '\t' then "\\t"
    else if c < ' ' then "\\u00" + [HexDigit(c as int / 16), HexDigit(c as int % 16)]
    else [c]
  }

  /** iscntrl in the C locale. */
  predicate IsControl(c: char) {
    c < ' ' || c as int == 127
  }

  function TextEscape(c: char): (e: string)
    ensures |e| >= 1
  {
    if c == '\\' then "\\\\"
    else if c == '\"' then "\\\""
    else if c == '\n' then "\\n"
    else if c == '\r' then "\\r"
    else if c == '\t' then "\\t"
    else if IsControl(c) then "?"
    else [c]
  }

  function Escape(format: Format, c: char): (e: string)
    ensures |e| >= 1
  {
    match format
    case JsonFormat => JsonEscape(c)
    case TextFormat => TextEscape(c)
  }

  /** Each character takes the shortest form that both formats agree on. */
  lemma EscapeForms(c: char)
    ensures |JsonEscape(c)| == if c in {'\\', '\"', '\n', '\r', '\t'} then 2 else if c as int < 32 then 6 else 1
    ensures |TextEscape(c)| == if c in {'\\', '\"', '\n', '\r', '\t'} then 2 else 1
  {
  }

  function Escaped(format: Format, s: string): (e: string)
    ensures |e| >= |s|
  {
    if s == "" then "" else Escape(format, s[0]) + Escaped(format, s[1..])
  }

  lemma {:induction false} EscapedSnoc(format: Format, s: string, c: char)
    ensures Escaped(format, s + [c]) == Escaped(format, s) + Escape(format, c)
  {
    if s == "" {
      assert s + [c] == [c] && [c][1..] == "";
    } else {
      assert (s + [c])[1..] == s[1..] + [c];
      EscapedSnoc(format, s[1..], c);
    }
  }

  function Quoted(format: Format, s: string): string {
    "\"" + Escaped(format, s) + "\""
  }

  function ValueText(format: Format, value: Value): string {
    match value
    case Text(text) => Quoted(format, text)
    case Flag(flag) => if flag then "true" else "false"
    case Signed(n) => Decimal.PrintSigned(n)
    case Unsigned(n) => Decimal.Print(n)
    case Float(digits) => digits
  }

  // Both formats write a list of members and differ in the punctuation only.

  datatype Member = Member(key: string, value: string)

  datatype Punctuation = Punctuation(separator: string, quote: string, colon: string)

  function Marks(settings: Settings): Punctuation {
    match settings.format
    case TextFormat => Punctuation(" ", "", "=")
    case JsonFormat => if settings.pretty then Punctuation(", ", "\"", ": ") else Punctuation(",", "\"", ":")
  }

  function MemberText(marks: Punctuation, m: Member): string {
    marks.quote + m.key + marks.quote + marks.colon + m.value
  }

  /** Every member preceded by a separator. */
  function Trail(marks: Punctuation, members: seq<Member>): string {
    if members == [] then ""
    else marks.separator + MemberText(marks, members[0]) + Trail(marks, members[1..])
  }

  lemma {:induction false} TrailSnoc(marks: Punctuation, members: seq<Member>, m: Member)
    ensures Trail(marks, members + [m]) == Trail(marks, members) + (marks.separator + MemberText(marks, m))
  {
    if members == [] {
      assert ([] + [m])[1..] == [];
    } else {
      assert (members + [m])[1..] == members[1..] + [m];
      TrailSnoc(marks, members[1..], m);
    }
  }

  /** The key of a user field; JSON output escapes it, text output copies it. */
  function FieldKey(format: Format, key: string): string {
    match format
    case JsonFormat => Escaped(JsonFormat, key)
    case TextFormat => key
  }

  function FieldMember(format: Format, field: Field): Member {
    Member(FieldKey(format, field.key), ValueText(format, field.value))
  }

  function FieldMembers(format: Format, fields: seq<Field>): (members: seq<Member>)
    ensures |members| == |fields|
    ensures forall i | 0 <= i < |fields| :: members[i] == FieldMember(format, fields[i])
  {
    seq(|fields|, i requires 0 <= i < |fields| => FieldMember(format, fields[i]))
  }

  function Builtins(settings: Settings, record: Record): seq<Member> {
    var f := settings.format;
    [ Member("service", Quoted(f, settings.service)),
      Member("environment", Quoted(f, settings.environment)),
      Member("sequence_id", "\"" + Decimal.Print(record.sequence) + "\""),
      Member("message", Quoted(f, record.message)) ]
  }

  /** An empty context is left out. */
  function ContextMembers(format: Format, context: string): seq<Member> {
    if context == "" then [] else [Member("context", Quoted(format, context))]
  }

  /** The members after the timestamp and the level, which the two formats write alike. */
  function LaterMembers(settings: Settings, record: Record): seq<Member> {
    Builtins(settings, record)
    + ContextMembers(settings.format, record.context)
    + FieldMembers(settings.format, record.fields)
  }

  lemma LaterInOrder(settings: Settings, record: Record, level: Member)
    ensures [level] + Builtins(settings, record) + ContextMembers(settings.format, record.context)
            + FieldMembers(settings.format, record.fields)
         == [level] + LaterMembers(settings, record)
  {
  }

  function JsonLine(settings: Settings, record: Record, stamp: string): string {
    var marks := Marks(settings);
    "{" + MemberText(marks, Member("ts", Quoted(JsonFormat, stamp)))
    + Trail(marks, [Member("level", Quoted(JsonFormat, LevelName(record.level)))] + LaterMembers(settings, record))
    + "}"
  }

  function TextLine(settings: Settings, record: Record, stamp: string): string {
    stamp + Trail(Marks(settings), [Member("level", LevelName(record.level))] + LaterMembers(settings, record))
  }

  /** The full logical line, before any truncation. */
  function Line(settings: Settings, record: Record, stamp: string): string {
    match settings.format
    case JsonFormat => JsonLine(settings, record, stamp)
    case TextFormat => TextLine(settings, record, stamp)
  }

  const RENDER_PADDING: nat := 384
  const NUMBER_TEXT_CAPACITY: nat := 64

  function RenderCapacity(caps: Capacities): (n: nat)
    ensures n > 0
  {
    caps.message + caps.context + caps.fields * (caps.key + caps.value + NUMBER_TEXT_CAPACITY) + RENDER_PADDING
  }
}
