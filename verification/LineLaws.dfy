/** What the loader makes of a file and its lines, described by what the text is made of. */
module LineLaws {
  import opened Records
  import opened Scanning
  import opened Sequences
  import opened Trimming
  import opened ConfigText
  import opened Bootstrap
  import Decimal
  import VersionLines

  // Chunks.

  function Flat(chunks: seq<string>): string {
    if chunks == [] then "" else chunks[0] + Flat(chunks[1..])
  }

  /** A chunk ends with its only newline, or because the buffer is full, or because the text ends. */
  ghost predicate IsChunk(chunk: string, last: bool) {
    && chunk != "" && |chunk| <= 511
    && '\n' !in chunk[..|chunk| - 1]
    && (chunk[|chunk| - 1] == '\n' || |chunk| == 511 || last)
  }

  lemma {:induction false} FirstIsChunk(text: string)
    requires text != ""
    ensures var n := ChunkLength(text); IsChunk(text[..n], n == |text|)
  {
    var n := ChunkLength(text);
    assert forall i | 0 <= i < n - 1 :: text[..n][..n - 1][i] == text[i];
  }

  /** Every byte of the file reaches the loader, in order, in pieces that end where fgets ends them. */
  lemma {:induction false} ChunksCover(text: string)
    ensures var chunks := Chunks(text);
            && Flat(chunks) == text
            && forall i | 0 <= i < |chunks| :: IsChunk(chunks[i], i == |chunks| - 1)
    decreases |text|
  {
    if text != "" {
      var n := ChunkLength(text);
      var chunk, rest := text[..n], text[n..];
      FirstIsChunk(text);
      ChunksCover(rest);
      assert text == chunk + rest;
      var chunks := [chunk] + Chunks(rest);
      ConsTail(chunk, Chunks(rest));
      assert rest != "" ==> Chunks(rest) != [];
      assert forall i | 1 <= i < |chunks| :: chunks[i] == Chunks(rest)[i - 1];
    }
  }

  // Quotes.

  /** Between two equal quotation marks. */
  predicate Wraps(s: string, mark: char, inside: string) {
    mark in {'\"', '\''} && s == [mark] + inside + [mark]
  }

  lemma UnquotedIs(s: string)
    ensures (exists mark, inside :: Wraps(s, mark, inside) && Unquoted(s) == inside)
            || (Unquoted(s) == s && forall mark, inside :: !Wraps(s, mark, inside))
  {
    if IsWrapped(s) {
      assert s == [s[0]] + s[1..|s| - 1] + [s[|s| - 1]];
      assert Wraps(s, s[0], s[1..|s| - 1]);
    }
  }

  // Versions.

  predicate IsRun(s: string) {
    s != "" && Decimal.AllDigits(s)
  }

  ghost predicate VersionShape(v: string, a: string, b: string, c: string) {
    v == a + "." + (b + "." + c) && IsRun(a) && IsRun(b) && IsRun(c)
  }

  lemma {:induction false} JoinOfThree(a: string, b: string, c: string)
    ensures Join([a, b, c], '.') == a + "." + (b + "." + c)
  {
    assert [a, b, c][1..] == [b, c] && [b, c][1..] == [c];
    assert Join([b, c], '.') == b + "." + c;
  }

  lemma {:induction false} ShapeSplits(a: string, b: string, c: string)
    requires IsRun(a) && IsRun(b) && IsRun(c)
    ensures SplitOn(a + "." + (b + "." + c), '.') == [a, b, c]
  {
    JoinOfThree(a, b, c);
    SplitOfJoin([a, b, c], '.');
  }

  lemma {:induction false} SplitHasShape(v: string)
    requires IsVersion(v)
    ensures var parts := SplitOn(v, '.'); VersionShape(v, parts[0], parts[1], parts[2])
  {
    var parts := SplitOn(v, '.');
    JoinOfSplit(v, '.');
    assert parts == [parts[0], parts[1], parts[2]];
    JoinOfThree(parts[0], parts[1], parts[2]);
  }

  /** A version is three runs of digits joined by dots. */
  lemma VersionIff(v: string)
    ensures IsVersion(v) <==> exists a, b, c :: VersionShape(v, a, b, c)
  {
    if IsVersion(v) {
      SplitHasShape(v);
      var parts := SplitOn(v, '.');
      assert VersionShape(v, parts[0], parts[1], parts[2]);
    }
    if a, b, c :| VersionShape(v, a, b, c) {
      ShapeSplits(a, b, c);
    }
  }

  // Lines.

  /** The loader skips exactly the lines that the version reader skips. */
  lemma SkippedIff(chunk: string)
    ensures Classified(chunk) == Skip <==> exists pad, rest :: VersionLines.IgnoredShape(chunk, pad, rest)
  {
    VersionLines.IgnoredIff(chunk);
    var text := TrimLeft(chunk);
    TrimLeftSplits(chunk);
    TrimRightSplits(text);
  }

  /** What a line with a colon means: `before` is what stands before its first colon, `behind` the
      rest. A line with no value is a heading, even if it has no name either. */
  lemma LineMeans(chunk: string, before: string, behind: string)
    requires Trim(chunk) == before + ":" + behind && |Trim(chunk)| < 512
    requires ':' !in before && (before == "" || before[0] != '#')
    ensures var value := Unquoted(TrimTo(behind, 256));
            Classified(chunk) ==
            if value == "" then Heading(TrimTo(TrimTo(before, 64), 32))
            else if Trim(before) == "" then Bad
            else Pair(TrimTo(before, 64), value)
  {
    var line := Trim(chunk);
    AroundSeparator(before, ':', behind);
    FindIs(line, ':', |before|);
    assert Cut(line, 512) == line;
    assert line[0] == if before == "" then ':' else before[0];
  }

  /** A line without a colon is bad. */
  lemma NoColonIsBad(chunk: string)
    requires ':' !in chunk && Classified(chunk) != Skip
    ensures Classified(chunk) == Bad
  {
    TrimLeftSplits(chunk);
    TrimRightSplits(TrimLeft(chunk));
    var line := TrimTo(chunk, LINE_CAPACITY);
    assert forall i | 0 <= i < |line| :: line[i] in chunk;
  }
}
