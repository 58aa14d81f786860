/** A parser for JSON texts, following the grammar of RFC 8259. It takes exactly the texts of the grammar.
    In one point the value it gives is not the one denoted: the two \u escapes of a surrogate pair, which
    the renderer never writes, are read as one replacement character each. */
module Json {
  import opened Sequences
  import opened Records
  import opened Decimal

  datatype Json =
    | Null
    | Bool(flag: bool)
    | Number(text: string)
    | Str(text: string)
    | Array(elements: seq<Json>)
    | Object(members: seq<(string, Json)>)

  // Section 2: whitespace.

  predicate IsWs(c: char) {
    c == ' ' || c == '\t' || c == '\n' || c == '\r'
  }

  function SkipWs(s: string): (r: string)
    ensures |r| <= |s|
    ensures r != "" ==> !IsWs(r[0])
  {
    if s != "" && IsWs(s[0]) then SkipWs(s[1..]) else s
  }

  // Section 7: strings.

  function HexValue(c: char): Option<nat> {
    if '0' <= c <= '9' then Some(c as int - '0' as int)
    else if 'a' <= c <= 'f' then Some(c as int - 'a' as int + 10)
    else if 'A' <= c <= 'F' then Some(c as int - 'A' as int + 10)
    else None
  }

  function HexCode(s: string): (code: Option<nat>)
    requires |s| == 4
    ensures code.Some? ==> code.value < 0x10000
  {
    var a, b, c, d := HexValue(s[0]), HexValue(s[1]), HexValue(s[2]), HexValue(s[3]);
    if a.Some? && b.Some? && c.Some? && d.Some?
    then Some(((a.value * 16 + b.value) * 16 + c.value) * 16 + d.value) else None
  }

  /** The character with this code, or a replacement for half of a surrogate pair. */
  function CodeUnit(code: nat): char
    requires code < 0x10000
  {
    if code < 0xD800 || 0xE000 <= code then code as char else 0xFFFD as char
  }

  /** One character of a string: unescaped, or one of the escapes. */
  function ParseChar(s: string): (r: Option<(char, string)>)
    requires s != ""
    ensures r.Some? ==> |r.value.1| < |s|
  {
    if s[0] != '\\' then (if s[0] < ' ' then None else Some((s[0], s[1..])))
    else if |s| < 2 then None
    else match s[1]
      case '\"' => Some(('\"', s[2..]))
      case '\\' => Some(('\\', s[2..]))
      case '/' => Some(('/', s[2..]))
      case 'b' => Some((8 as char, s[2..]))
      case 'f' => Some((12 as char, s[2..]))
      case 'n' => Some(('\n', s[2..]))
      case 'r' => Some(('\r', s[2..]))
      case 't' => Some(('\t', s[2..]))
      case 'u' =>
        if |s| < 6 then None
        else
          var code := HexCode(s[2..6]);
          if code.None? then None else Some((CodeUnit(code.value), s[6..]))
      case _ => None
  }

  /** The rest of a string after its opening quotation mark. */
  function ParseChars(s: string): (r: Option<(string, string)>)
    ensures r.Some? ==> |r.value.1| < |s|
    decreases |s|
  {
    if s == "" then None
    else if s[0] == '\"' then Some(("", s[1..]))
    else
      var c := ParseChar(s);
      if c.None? then None
      else
        var more := ParseChars(c.value.1);
        if more.None? then None else Some(([c.value.0] + more.value.0, more.value.1))
  }

  // Section 6: numbers.

  function DigitRun(s: string): (n: nat)
    ensures n <= |s|
  {
    if s != "" && IsDigit(s[0]) then 1 + DigitRun(s[1..]) else 0
  }

  predicate IsExponent(s: string) {
    s == "" ||
    ((s[0] == 'e' || s[0] == 'E') &&
     var digits := if |s| > 1 && (s[1] == '+' || s[1] == '-') then s[2..] else s[1..];
     digits != "" && DigitRun(digits) == |digits|)
  }

  predicate IsFraction(s: string) {
    if s != "" && s[0] == '.' then DigitRun(s[1..]) > 0 && IsExponent(s[1 + DigitRun(s[1..])..]) else IsExponent(s)
  }

  predicate IsNumber(s: string) {
    var t := if s != "" && s[0] == '-' then s[1..] else s;
    var n := DigitRun(t);
    n > 0 && (t[0] == '0' ==> n == 1) && IsFraction(t[n..])
  }

  predicate IsNumberChar(c: char) {
    IsDigit(c) || c == '-' || c == '+' || c == '.' || c == 'e' || c == 'E'
  }

  function NumberRun(s: string): (n: nat)
    ensures n <= |s|
  {
    if s != "" && IsNumberChar(s[0]) then 1 + NumberRun(s[1..]) else 0
  }

  /** No number can be followed by a number character, so a number is the longest run of them. */
  function ParseNumber(s: string): (r: Option<(Json, string)>)
    ensures r.Some? ==> |r.value.1| < |s|
  {
    var n := NumberRun(s);
    if IsNumber(s[..n]) then Some((Number(s[..n]), s[n..])) else None
  }

  // Sections 3 to 5: values, objects, arrays.

  function ParseLiteral(s: string, literal: string, value: Json): (r: Option<(Json, string)>)
    requires literal != ""
    ensures r.Some? ==> |r.value.1| < |s|
  {
    if literal <= s then Some((value, s[|literal|..])) else None
  }

  function ParseValue(s: string): (r: Option<(Json, string)>)
    ensures r.Some? ==> |r.value.1| < |s|
    decreases |s|, 0
  {
    if s == "" then None
    else match s[0]
      case '\"' =>
        var body := ParseChars(s[1..]);
        if body.None? then None else Some((Str(body.value.0), body.value.1))
      case '{' =>
        var t := SkipWs(s[1..]);
        if t != "" && t[0] == '}' then Some((Object([]), t[1..]))
        else
          var members := ParseMembers(t);
          if members.None? then None else Some((Object(members.value.0), members.value.1))
      case '[' =>
        var t := SkipWs(s[1..]);
        if t != "" && t[0] == ']' then Some((Array([]), t[1..]))
        else
          var elements := ParseElements(t);
          if elements.None? then None else Some((Array(elements.value.0), elements.value.1))
      case 't' => ParseLiteral(s, "true", Bool(true))
      case 'f' => ParseLiteral(s, "false", Bool(false))
      case 'n' => ParseLiteral(s, "null", Null)
      case _ => ParseNumber(s)
  }

  /** string ws : ws value */
  function ParseMember(s: string): (r: Option<((string, Json), string)>)
    ensures r.Some? ==> |r.value.1| < |s|
    decreases |s|, 0
  {
    if s == "" || s[0] != '\"' then None
    else
      var key := ParseChars(s[1..]);
      if key.None? then None
      else
        var t := SkipWs(key.value.1);
        if t == "" || t[0] != ':' then None
        else
          var value := ParseValue(SkipWs(t[1..]));
          if value.None? then None else Some(((key.value.0, value.value.0), value.value.1))
  }

  /** member *( , member ) } */
  function ParseMembers(s: string): (r: Option<(seq<(string, Json)>, string)>)
    ensures r.Some? ==> |r.value.1| < |s|
    decreases |s|, 1
  {
    var first := ParseMember(s);
    if first.None? then None
    else
      var t := SkipWs(first.value.1);
      if t == "" then None
      else if t[0] == '}' then Some(([first.value.0], t[1..]))
      else if t[0] == ',' then
        var more := ParseMembers(SkipWs(t[1..]));
        if more.None? then None else Some(([first.value.0] + more.value.0, more.value.1))
      else None
  }

  /** value *( , value ) ] */
  function ParseElements(s: string): (r: Option<(seq<Json>, string)>)
    ensures r.Some? ==> |r.value.1| < |s|
    decreases |s|, 1
  {
    var first := ParseValue(s);
    if first.None? then None
    else
      var t := SkipWs(first.value.1);
      if t == "" then None
      else if t[0] == ']' then Some(([first.value.0], t[1..]))
      else if t[0] == ',' then
        var more := ParseElements(SkipWs(t[1..]));
        if more.None? then None else Some(([first.value.0] + more.value.0, more.value.1))
      else None
  }

  /** A JSON text is a single value with optional whitespace around it. */
  function ParseJson(s: string): Option<Json> {
    var value := ParseValue(SkipWs(s));
    if value.Some? && SkipWs(value.value.1) == "" then Some(value.value.0) else None
  }

  // A parse does not change when more text follows.

  lemma {:induction false} SkipWsExtends(s: string, more: string)
    requires SkipWs(s) != ""
    ensures SkipWs(s + more) == SkipWs(s) + more
  {
    assert (s + more)[0] == s[0];
    if IsWs(s[0]) {
      SkipWsExtends(s[1..], more);
      assert (s + more)[1..] == s[1..] + more;
    }
  }

  lemma {:induction false} ParseCharsExtends(s: string, more: string)
    requires ParseChars(s).Some?
    ensures ParseChars(s + more) == Some((ParseChars(s).value.0, ParseChars(s).value.1 + more))
    decreases |s|
  {
    assert (s + more)[0] == s[0];
    if s[0] == '\"' {
      assert (s + more)[1..] == s[1..] + more;
    } else {
      ParseCharExtends(s, more);
      ParseCharsExtends(ParseChar(s).value.1, more);
    }
  }

  lemma ParseCharExtends(s: string, more: string)
    requires s != "" && ParseChar(s).Some?
    ensures ParseChar(s + more) == Some((ParseChar(s).value.0, ParseChar(s).value.1 + more))
  {
    assert (s + more)[0] == s[0];
    assert (s + more)[1..] == s[1..] + more;
    if s[0] == '\\' {
      assert (s + more)[1] == s[1];
      assert (s + more)[2..] == s[2..] + more;
      if s[1] == 'u' {
        assert (s + more)[2..6] == s[2..6];
        assert (s + more)[6..] == s[6..] + more;
      }
    }
  }

  lemma {:induction false} NumberRunExtends(s: string, more: string)
    requires NumberRun(s) < |s|
    ensures NumberRun(s + more) == NumberRun(s)
  {
    assert (s + more)[0] == s[0];
    if IsNumberChar(s[0]) {
      NumberRunExtends(s[1..], more);
      assert (s + more)[1..] == s[1..] + more;
    }
  }

  /** The value has been read to its end, so what follows does not matter. Only a number that
      reaches the end of the text could still grow. */
  predicate Settled(r: Option<(Json, string)>) {
    r.Some? && (r.value.1 != "" || !r.value.0.Number?)
  }

  lemma {:induction false} ParseValueExtends(s: string, more: string)
    requires Settled(ParseValue(s))
    ensures ParseValue(s + more) == Some((ParseValue(s).value.0, ParseValue(s).value.1 + more))
    decreases |s|, 0
  {
    TailOfAppend(s, more);
    match s[0]
    case '\"' => ParseCharsExtends(s[1..], more);
    case '{' =>
      var t := SkipWs(s[1..]);
      SkipWsExtends(s[1..], more);
      TailOfAppend(t, more);
      if t[0] != '}' {
        ParseMembersExtends(t, more);
      }
    case '[' =>
      var t := SkipWs(s[1..]);
      SkipWsExtends(s[1..], more);
      TailOfAppend(t, more);
      if t[0] != ']' {
        ParseElementsExtends(t, more);
      }
    case 't' => LiteralExtends(s, "true", more);
    case 'f' => LiteralExtends(s, "false", more);
    case 'n' => LiteralExtends(s, "null", more);
    case _ =>
      var n := NumberRun(s);
      NumberRunExtends(s, more);
      PartsOfAppend(s, n, more);
  }

  lemma LiteralExtends(s: string, literal: string, more: string)
    requires literal <= s
    ensures literal <= s + more && (s + more)[|literal|..] == s[|literal|..] + more
  {
  }

  lemma {:induction false} ParseMemberExtends(s: string, more: string)
    requires ParseMember(s).Some? && ParseMember(s).value.1 != ""
    ensures ParseMember(s + more) == Some((ParseMember(s).value.0, ParseMember(s).value.1 + more))
    decreases |s|, 0
  {
    assert (s + more)[0] == s[0];
    assert (s + more)[1..] == s[1..] + more;
    ParseCharsExtends(s[1..], more);
    var key := ParseChars(s[1..]).value;
    SkipWsExtends(key.1, more);
    var t := SkipWs(key.1);
    TailOfAppend(t, more);
    SkipWsExtends(t[1..], more);
    ParseValueExtends(SkipWs(t[1..]), more);
  }

  lemma {:induction false} ParseMembersExtends(s: string, more: string)
    requires ParseMembers(s).Some?
    ensures ParseMembers(s + more) == Some((ParseMembers(s).value.0, ParseMembers(s).value.1 + more))
    decreases |s|, 1
  {
    ParseMemberExtends(s, more);
    var first := ParseMember(s).value;
    SkipWsExtends(first.1, more);
    var t := SkipWs(first.1);
    TailOfAppend(t, more);
    if t[0] == ',' {
      SkipWsExtends(t[1..], more);
      ParseMembersExtends(SkipWs(t[1..]), more);
    }
  }

  lemma {:induction false} ParseElementsExtends(s: string, more: string)
    requires ParseElements(s).Some?
    ensures ParseElements(s + more) == Some((ParseElements(s).value.0, ParseElements(s).value.1 + more))
    decreases |s|, 1
  {
    ParseValueExtends(s, more);
    var first := ParseValue(s).value;
    SkipWsExtends(first.1, more);
    var t := SkipWs(first.1);
    TailOfAppend(t, more);
    if t[0] == ',' {
      SkipWsExtends(t[1..], more);
      ParseElementsExtends(SkipWs(t[1..]), more);
    }
  }

  lemma ObjectGoesOn(p: string, more: string)
    requires p != "" && p[0] == '{' && more != "" && ParseValue(p).Some?
    ensures ParseValue(p + more).Some? && ParseValue(p + more).value.1 != ""
  {
    ParseValueExtends(p, more);
  }

  /** If a text is one object and nothing else, no proper prefix of it is a JSON text. */
  lemma NoPrefixParses(s: string, n: nat)
    requires s != "" && s[0] == '{' && n < |s|
    requires ParseValue(s).Some? && ParseValue(s).value.1 == ""
    ensures ParseJson(s[..n]) == None
  {
    var p, more := s[..n], s[n..];
    assert p + more == s;
    if n > 0 {
      assert p[0] == '{' && SkipWs(p) == p;
      assert ParseValue(p).None? by {
        if ParseValue(p).Some? {
          ObjectGoesOn(p, more);
        }
      }
    }
  }
}
