/** What the pretty setting adds to a JSON line, told apart by a scan that knows where the strings are. */
module JsonSpacing {
  import opened Records
  import opened Render
  import opened Sequences
  import Decimal
  import JsonParseBack

  /** Between tokens, in a string, or behind a backslash in a string. */
  datatype Place = Between | Inside | Escaping

  function Move(place: Place, c: char): Place {
    match place
    case Between => if c == '\"' then Inside else Between
    case Inside => if c == '\"' then Between else if c == '\\' then Escaping else Inside
    case Escaping => Inside
  }

  function Moved(place: Place, s: string): Place
    decreases s
  {
    if s == "" then place else Moved(Move(place, s[0]), s[1..])
  }

  /** The text without the whitespace between tokens. */
  function Squeezed(place: Place, s: string): (t: string)
    ensures |t| <= |s|
    decreases s
  {
    if s == "" then ""
    else
      var later := Squeezed(Move(place, s[0]), s[1..]);
      if place == Between && s[0] == ' ' then later else [s[0]] + later
  }

  lemma {:induction false} SqueezedAppend(place: Place, a: string, b: string)
    ensures Moved(place, a + b) == Moved(Moved(place, a), b)
    ensures Squeezed(place, a + b) == Squeezed(place, a) + Squeezed(Moved(place, a), b)
    decreases a
  {
    if a == "" {
      assert a + b == b;
    } else {
      TailOfAppend(a, b);
      var next := Move(place, a[0]);
      SqueezedAppend(next, a[1..], b);
      Associate([a[0]], Squeezed(next, a[1..]), Squeezed(Moved(next, a[1..]), b));
    }
  }

  /** A text without spaces that starts and ends at the same place. */
  ghost predicate Tight(place: Place, s: string) {
    Squeezed(place, s) == s && Moved(place, s) == place
  }

  lemma TightAppend(place: Place, a: string, b: string)
    requires Tight(place, a) && Tight(place, b)
    ensures Tight(place, a + b)
  {
    SqueezedAppend(place, a, b);
  }

  /** Printed from a character of its own: no quote, no space and no backslash. */
  predicate IsMark(c: char) {
    c != '\"' && c != ' ' && c != '\\'
  }

  lemma {:induction false} MarksAreTight(s: string)
    requires forall i | 0 <= i < |s| :: IsMark(s[i])
    ensures Tight(Between, s)
  {
    if s != "" {
      MarksAreTight(s[1..]);
      HeadAndTail(s);
    }
  }

  /** A backslash takes the next character with it. */
  lemma {:induction false} PairIsTight(c: char, rest: string)
    requires Tight(Inside, rest)
    ensures Tight(Inside, ['\\', c] + rest)
  {
    ConsTail('\\', [c] + rest);
    ConsTail(c, rest);
    assert ['\\', c] + rest == ['\\'] + ([c] + rest);
    assert Squeezed(Escaping, [c] + rest) == [c] + rest && Moved(Escaping, [c] + rest) == Inside;
  }

  lemma {:induction false} EscapeIsTight(c: char)
    ensures Tight(Inside, JsonEscape(c))
  {
    var e := JsonEscape(c);
    EscapeForms(c);
    if |e| == 1 {
      PlainIsTight(e);
    } else {
      var rest := e[2..];
      assert e == ['\\', e[1]] + rest;
      PlainIsTight(rest);
      PairIsTight(e[1], rest);
    }
  }

  lemma {:induction false} PlainIsTight(s: string)
    requires forall i | 0 <= i < |s| :: s[i] != '\"' && s[i] != '\\'
    ensures Tight(Inside, s)
  {
    if s != "" {
      PlainIsTight(s[1..]);
      HeadAndTail(s);
    }
  }

  lemma {:induction false} EscapedIsTight(s: string)
    ensures Tight(Inside, Escaped(JsonFormat, s))
  {
    if s != "" {
      EscapeIsTight(s[0]);
      EscapedIsTight(s[1..]);
      TightAppend(Inside, JsonEscape(s[0]), Escaped(JsonFormat, s[1..]));
    }
  }

  lemma {:induction false} InQuotes(s: string)
    requires Tight(Inside, s)
    ensures Tight(Between, "\"" + s + "\"")
  {
    var quote := "\"";
    assert quote[1..] == "";
    SqueezedAppend(Between, quote + s, quote);
    SqueezedAppend(Between, quote, s);
    assert Moved(Between, quote) == Inside && Moved(Inside, quote) == Between;
    assert Squeezed(Between, quote) == quote && Squeezed(Inside, quote) == quote;
  }

  lemma ValueIsTight(value: Value)
    requires JsonParseBack.PrintsAsNumber(value)
    ensures Tight(Between, ValueText(JsonFormat, value))
  {
    match value
    case Text(text) =>
      EscapedIsTight(text);
      InQuotes(Escaped(JsonFormat, text));
    case Flag(flag) =>
      MarksAreTight(if flag then "true" else "false");
    case Signed(n) =>
      MarksAreTight(Decimal.PrintSigned(n));
    case Unsigned(n) =>
      MarksAreTight(Decimal.Print(n));
    case Float(digits) =>
      JsonParseBack.NumbersHaveNumberChars(digits);
      MarksAreTight(digits);
  }

  // A line is put together from parts that each squeeze to their compact form.

  ghost predicate SqueezesTo(s: string, t: string) {
    Squeezed(Between, s) == t && Moved(Between, s) == Between
  }

  lemma PartsSqueeze(a: string, b: string, s: string, t: string)
    requires SqueezesTo(a, s) && SqueezesTo(b, t)
    ensures SqueezesTo(a + b, s + t)
  {
    SqueezedAppend(Between, a, b);
  }

  const COMPACT := Punctuation(",", "\"", ":")
  const PRETTY := Punctuation(", ", "\"", ": ")

  lemma MarksSqueeze(marks: Punctuation)
    requires marks in {COMPACT, PRETTY}
    ensures SqueezesTo(marks.separator, ",") && SqueezesTo(marks.colon, ":")
  {
    assert ","[1..] == "" && ":"[1..] == "" && " "[1..] == "";
    assert ", "[1..] == " " && ": "[1..] == " ";
    assert SqueezesTo(" ", "");
  }

  /** The key fit for a string, the value fit to stand between tokens. */
  ghost predicate TightMember(m: Member) {
    Tight(Inside, m.key) && Tight(Between, m.value)
  }

  lemma {:induction false} MemberSqueezes(marks: Punctuation, m: Member)
    requires marks in {COMPACT, PRETTY} && TightMember(m)
    ensures SqueezesTo(MemberText(marks, m), MemberText(COMPACT, m))
  {
    MarksSqueeze(marks);
    InQuotes(m.key);
    var name := "\"" + m.key + "\"";
    PartsSqueeze(name, marks.colon, name, ":");
    PartsSqueeze(name + marks.colon, m.value, name + ":", m.value);
  }

  lemma {:induction false} TrailSqueezes(marks: Punctuation, members: seq<Member>)
    requires marks in {COMPACT, PRETTY} && AllTight(members)
    ensures SqueezesTo(Trail(marks, members), Trail(COMPACT, members))
  {
    if members != [] {
      MarksSqueeze(marks);
      MemberSqueezes(marks, members[0]);
      TrailSqueezes(marks, members[1..]);
      var text, compact := MemberText(marks, members[0]), MemberText(COMPACT, members[0]);
      PartsSqueeze(marks.separator, text, ",", compact);
      PartsSqueeze(marks.separator + text, Trail(marks, members[1..]), "," + compact, Trail(COMPACT, members[1..]));
    }
  }

  lemma {:induction false} NameIsTight(name: string, value: string)
    requires forall i | 0 <= i < |name| :: IsMark(name[i])
    requires Tight(Between, value)
    ensures TightMember(Member(name, value))
  {
    PlainIsTight(name);
  }

  lemma {:induction false} QuotedIsTight(s: string)
    ensures Tight(Between, Quoted(JsonFormat, s))
  {
    EscapedIsTight(s);
    InQuotes(Escaped(JsonFormat, s));
  }

  lemma {:induction false} NumberIsTight(n: nat)
    ensures Tight(Between, "\"" + Decimal.Print(n) + "\"")
  {
    PlainIsTight(Decimal.Print(n));
    InQuotes(Decimal.Print(n));
  }

  ghost predicate AllTight(members: seq<Member>) {
    forall i | 0 <= i < |members| :: TightMember(members[i])
  }

  lemma AllTightAppend(a: seq<Member>, b: seq<Member>)
    requires AllTight(a) && AllTight(b)
    ensures AllTight(a + b)
  {
  }

  lemma {:induction false} BuiltinsAreTight(settings: Settings, record: Record)
    requires settings.format.JsonFormat?
    ensures AllTight(Builtins(settings, record))
  {
    QuotedIsTight(settings.service);
    QuotedIsTight(settings.environment);
    QuotedIsTight(record.message);
    NumberIsTight(record.sequence);
    forall i | 0 <= i < 4
      ensures TightMember(Builtins(settings, record)[i])
    {
      var m := Builtins(settings, record)[i];
      NameIsTight(m.key, m.value);
    }
  }

  lemma {:induction false} ContextIsTight(context: string)
    ensures AllTight(ContextMembers(JsonFormat, context))
  {
    QuotedIsTight(context);
    NameIsTight("context", Quoted(JsonFormat, context));
  }

  lemma {:induction false} FieldsAreTight(fields: seq<Field>)
    requires forall i | 0 <= i < |fields| :: JsonParseBack.PrintsAsNumber(fields[i].value)
    ensures AllTight(FieldMembers(JsonFormat, fields))
  {
    forall i | 0 <= i < |fields|
      ensures TightMember(FieldMembers(JsonFormat, fields)[i])
    {
      EscapedIsTight(fields[i].key);
      ValueIsTight(fields[i].value);
    }
  }

  lemma {:induction false} LaterAreTight(settings: Settings, record: Record)
    requires settings.format.JsonFormat? && JsonParseBack.FloatsPrint(record)
    ensures AllTight(LaterMembers(settings, record))
  {
    BuiltinsAreTight(settings, record);
    ContextIsTight(record.context);
    FieldsAreTight(record.fields);
    var context := ContextMembers(JsonFormat, record.context);
    AllTightAppend(Builtins(settings, record), context);
    AllTightAppend(Builtins(settings, record) + context, FieldMembers(JsonFormat, record.fields));
  }

  /** Either setting gives a line that squeezes to the compact line: pretty output adds spaces between
      tokens and nothing else, and compact output has none to lose. */
  lemma {:induction false} LineSqueezes(settings: Settings, record: Record, stamp: string)
    requires settings.format.JsonFormat? && JsonParseBack.FloatsPrint(record)
    ensures Squeezed(Between, JsonLine(settings, record, stamp)) ==
            JsonLine(settings.(pretty := false), record, stamp)
  {
    var marks := Marks(settings);
    var first := Member("ts", Quoted(JsonFormat, stamp));
    QuotedIsTight(stamp);
    NameIsTight("ts", first.value);
    var level := Member("level", Quoted(JsonFormat, LevelName(record.level)));
    QuotedIsTight(LevelName(record.level));
    NameIsTight("level", level.value);
    LaterAreTight(settings, record);
    var members := [level] + LaterMembers(settings, record);
    assert members == [level] + LaterMembers(settings.(pretty := false), record);
    MemberSqueezes(marks, first);
    TrailSqueezes(marks, members);
    var open, close := "{", "}";
    MarksAreTight(open);
    MarksAreTight(close);
    var text, compact := MemberText(marks, first), MemberText(COMPACT, first);
    PartsSqueeze(open, text, open, compact);
    PartsSqueeze(open + text, Trail(marks, members), open + compact, Trail(COMPACT, members));
    PartsSqueeze(open + text + Trail(marks, members), close, open + compact + Trail(COMPACT, members), close);
  }

  lemma {:induction false} TrailSpaces(members: seq<Member>)
    ensures |Trail(PRETTY, members)| == |Trail(COMPACT, members)| + 2 * |members|
  {
    if members != [] {
      TrailSpaces(members[1..]);
      assert |MemberText(PRETTY, members[0])| == |MemberText(COMPACT, members[0])| + 1;
    }
  }

  /** How many spaces that is: one behind every colon and one behind every comma between members. */
  lemma PrettySpaces(settings: Settings, record: Record, stamp: string)
    requires settings.format.JsonFormat? && settings.pretty
    ensures |JsonLine(settings, record, stamp)| ==
            |JsonLine(settings.(pretty := false), record, stamp)|
            + 2 * |JsonParseBack.RecordPairs(settings.service, settings.environment, record, stamp)| - 1
  {
    var level := Member("level", Quoted(JsonFormat, LevelName(record.level)));
    var members := [level] + LaterMembers(settings, record);
    assert members == [level] + LaterMembers(settings.(pretty := false), record);
    TrailSpaces(members);
    var first := Member("ts", Quoted(JsonFormat, stamp));
    assert |MemberText(PRETTY, first)| == |MemberText(COMPACT, first)| + 1;
  }
}
