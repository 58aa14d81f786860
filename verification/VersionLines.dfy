/** The lines that the version passes tell apart, described by what they are made of. */
module VersionLines {
  import opened Records
  import opened Scanning
  import opened Sequences
  import opened Trimming
  import opened VersionFile

  /** A heading: a character that is no whitespace, no colon up to the last one, whitespace behind it. */
  ghost predicate HeaderShape(line: string, head: string, tail: string) {
    && line == head + ":" + tail
    && head != "" && !IsSpace(head[0]) && ':' !in head[1..]
    && AllSpace(tail)
  }

  lemma ShapeIsHeader(line: string, head: string, tail: string)
    requires HeaderShape(line, head, tail)
    ensures IsHeader(line)
  {
    AroundSeparator(head, ':', tail);
    assert forall i | 0 <= i < |head| - 1 :: line[1..][i] == head[1..][i];
    FindIs(line[1..], ':', |head| - 1);
  }

  lemma HeaderIff(line: string)
    ensures IsHeader(line) <==> exists head, tail :: HeaderShape(line, head, tail)
  {
    if IsHeader(line) {
      var n := 1 + Find(line[1..], ':');
      SplitAt(line, n);
      assert line[..n][1..] == line[1..][..n - 1];
      assert HeaderShape(line, line[..n], line[n + 1..]);
    }
    if head, tail :| HeaderShape(line, head, tail) {
      ShapeIsHeader(line, head, tail);
    }
  }

  /** The reader skips whitespace, and whitespace before a number sign. */
  ghost predicate IgnoredShape(line: string, pad: string, rest: string) {
    line == pad + rest && AllSpace(pad) && (rest == "" || rest[0] == '#')
  }

  lemma IgnoredIff(line: string)
    ensures IsIgnored(line) <==> exists pad, rest :: IgnoredShape(line, pad, rest)
  {
    if IsIgnored(line) {
      var pad := LeftPart(line);
      assert IgnoredShape(line, pad, TrimLeft(line));
    }
    if pad, rest :| IgnoredShape(line, pad, rest) {
      LeftSkips(pad, rest);
    }
  }

  lemma {:induction false} LeftSkips(pad: string, rest: string)
    requires AllSpace(pad) && (rest == "" || rest[0] == '#')
    ensures TrimLeft(pad + rest) == rest
  {
    if pad == "" {
      assert pad + rest == rest;
    } else {
      TailOfAppend(pad, rest);
      LeftSkips(pad[1..], rest);
    }
  }

  function Unignored(lines: seq<string>): seq<string> {
    if lines == [] then []
    else (if IsIgnored(lines[0]) then [] else [lines[0]]) + Unignored(lines[1..])
  }

  /** The reader takes the first of the root lines that the writer would replace, comments aside. */
  lemma {:induction false} FoundIsFirst(lines: seq<string>, inRoot: bool)
    ensures var versions := RootVersions(Unignored(lines), inRoot);
            Found(lines, inRoot) == if versions == [] then None else Some(ValueOf(versions[0]))
    decreases |lines|
  {
    if lines != [] {
      var line, rest := lines[0], lines[1..];
      if IsIgnored(line) {
        FoundIsFirst(rest, inRoot);
        assert [] + Unignored(rest) == Unignored(rest);
      } else {
        ConsTail(line, Unignored(rest));
        FoundIsFirst(rest, inRoot && !IsHeader(line));
      }
    }
  }

  /** A quotation mark or nothing. */
  predicate IsQuote(q: string) {
    q == "" || q == "\""
  }

  lemma QuotesDrop(open: string, value: string, close: string)
    requires IsQuote(open) && IsQuote(close)
    requires value != "" && value[0] != '\"' && value[|value| - 1] != '\"'
    ensures DropQuotes(open + value + close) == value
  {
    var s := open + value + close;
    Associate(open, value, close);
    var t := if s[0] == '\"' then s[1..] else s;
    assert t == value + close;
    TakeAndDrop(value, close);
  }

  /** A version line however it is spaced, and with or without its quotation marks. */
  lemma SpacedVersionIsRead(a: string, b: string, c: string, open: string, value: string, close: string, d: string)
    requires AllSpace(a) && AllSpace(b) && AllSpace(c) && AllSpace(d) && IsQuote(open) && IsQuote(close)
    requires value != "" && Trimmed(value) && value[0] != '\"' && value[|value| - 1] != '\"'
    ensures var line := (a + TARGET_KEY + b) + ":" + (c + (open + value + close) + d);
            Key(line) == TARGET_KEY && ValueOf(line) == value
  {
    var before, quoted := a + TARGET_KEY + b, open + value + close;
    var behind := c + quoted + d;
    var line := before + ":" + behind;
    AroundSeparator(before, ':', behind);
    NoColon(a, b);
    FindIs(line, ':', |before|);
    TrimmedIsFixed(TARGET_KEY);
    TrimIsUnique(a, TARGET_KEY, b);
    QuotedIsTrimmed(open, value, close);
    TrimIsUnique(c, quoted, d);
    QuotesDrop(open, value, close);
  }

  lemma NoColon(a: string, b: string)
    requires AllSpace(a) && AllSpace(b)
    ensures ':' !in a + TARGET_KEY + b
  {
    assert ':' !in TARGET_KEY;
  }

  lemma QuotedIsTrimmed(open: string, value: string, close: string)
    requires IsQuote(open) && IsQuote(close) && value != "" && Trimmed(value)
    ensures Trimmed(open + value + close)
  {
  }
}
