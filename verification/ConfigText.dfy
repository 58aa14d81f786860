/** The scanning loops of the configuration code, on character buffers. */
module ConfigText {
  import opened Sequences
  import opened Records
  import opened CStrings
  import opened Scanning
  import opened Trimming
  import opened Decimal

  // Trimming.

  lemma TrimLeftAt(s: string, start: nat)
    requires start <= |s| && (start < |s| ==> !IsSpace(s[start])) && forall i | 0 <= i < start :: IsSpace(s[i])
    ensures TrimLeft(s) == s[start..]
  {
    if start > 0 {
      assert s[1..][start - 1..] == s[start..];
      TrimLeftAt(s[1..], start - 1);
    }
  }

  lemma TrimRightAt(s: string, end: nat)
    requires end <= |s| && (end > 0 ==> !IsSpace(s[end - 1])) && forall i | end <= i < |s| :: IsSpace(s[i])
    ensures TrimRight(s) == s[..end]
    decreases |s|
  {
    if end < |s| {
      assert s[..|s| - 1][..end] == s[..end];
      TrimRightAt(s[..|s| - 1], end);
    }
  }

  /** The two scans of mp_logger_copy_trimmed: where the trimmed text starts and ends. */
  method TrimBounds(src: array<char>, offset: nat, ghost s: string) returns (start: nat, end: nat)
    requires TextIn(src[..], offset, s)
    ensures start <= end <= |s| && Trim(s) == s[start..end]
  {
    TextAsArray(src, offset, s);
    start := 0;
    while src[offset + start] != '\0' && IsSpace(src[offset + start])
      invariant start <= |s| && forall i | 0 <= i < start :: IsSpace(s[i])
      decreases |s| - start
    {
      start := start + 1;
    }
    TrimLeftAt(s, start);
    end := StrLen(src, offset, s);
    while end > start && IsSpace(src[offset + end - 1])
      invariant start <= end <= |s| && forall i | end <= i < |s| :: IsSpace(s[i])
    {
      assert src[offset + (end - 1)] == s[end - 1];
      end := end - 1;
    }
    assert end > start ==> src[offset + (end - 1)] == s[end - 1];
    TrimRightAt(s[start..], end - start);
    assert s[start..][..end - start] == s[start..end];
  }

  /** mp_logger_copy_trimmed. The two buffers may be the same: the move is a memmove. */
  method CopyTrimmed(dest: array<char>, at: nat, capacity: nat, src: array<char>, offset: nat, ghost s: string)
    requires at + capacity <= dest.Length && TextIn(src[..], offset, s)
    modifies dest
    ensures capacity == 0 ==> dest[..] == old(dest[..])
    ensures capacity > 0 ==> TextIn(dest[..], at, TrimTo(s, capacity))
    ensures forall x | 0 <= x < dest.Length && !(at <= x < at + capacity) :: dest[x] == old(dest[x])
  {
    if capacity == 0 {
      return;
    }
    var start, end := TrimBounds(src, offset, s);
    TextAsArray(src, offset, s);
    var length := end - start;
    if length >= capacity {
      length := capacity - 1;
    }
    if length > 0 {
      forall j | 0 <= j < length {
        dest[at + j] := src[offset + start + j];
      }
    }
    dest[at + length] := '\0';
    ghost var text := s[start..start + length];
    assert TrimTo(s, capacity) == text;
    assert forall j | 0 <= j < length :: dest[at + j] == text[j];
  }

  lemma TextAsArray(buffer: array<char>, offset: nat, s: string)
    requires TextIn(buffer[..], offset, s)
    ensures offset + |s| < buffer.Length && buffer[offset + |s|] == '\0'
    ensures forall j | 0 <= j < |s| :: buffer[offset + j] == s[j]
    ensures forall j | 0 <= j < |s| :: s[j] != '\0'
  {
  }

  lemma IsTextIn(buffer: array<char>, s: string)
    requires |s| < buffer.Length && NulFree(s) && buffer[|s|] == '\0'
    requires forall j | 0 <= j < |s| :: buffer[j] == s[j]
    ensures TextIn(buffer[..], 0, s)
  {
  }

  // Quotes.

  predicate IsWrapped(s: string) {
    |s| >= 2 && ((s[0] == '\"' && s[|s| - 1] == '\"') || (s[0] == '\'' && s[|s| - 1] == '\''))
  }

  function Unquoted(s: string): string {
    if IsWrapped(s) then s[1..|s| - 1] else s
  }

  /** mp_logger_unquote_scalar, in place. */
  method UnquoteScalar(value: array<char>, ghost s: string)
    requires TextIn(value[..], 0, s)
    modifies value
    ensures TextIn(value[..], 0, Unquoted(s))
  {
    TextAsArray(value, 0, s);
    assert forall j | 0 <= j < |s| :: value[0 + j] == value[j];
    var length := StrLen(value, 0, s);
    assert length >= 2 ==> value[0] == s[0] && value[length - 1] == s[length - 1];
    if length >= 2 && ((value[0] == '\"' && value[length - 1] == '\"')
                       || (value[0] == '\'' && value[length - 1] == '\'')) {
      assert Unquoted(s) == s[1..length - 1];
      forall k | 0 <= k < length - 2 {
        value[k] := value[k + 1];
      }
      value[length - 2] := '\0';
      IsTextIn(value, s[1..length - 1]);
    } else {
      assert Unquoted(s) == s;
    }
  }

  // Separators.

  /** strchr on a buffer. */
  method FindChar(buffer: array<char>, cursor: nat, c: char, ghost rest: string) returns (n: nat)
    requires TextIn(buffer[..], cursor, rest) && c != '\0'
    ensures n == Find(rest, c)
  {
    TextAsArray(buffer, cursor, rest);
    n := 0;
    while buffer[cursor + n] != '\0' && buffer[cursor + n] != c
      invariant n <= |rest| && forall i | 0 <= i < n :: rest[i] != c
      decreases |rest| - n
    {
      n := n + 1;
    }
    FindIs(rest, c, n);
  }

  /** Cutting a buffer at a separator leaves the piece before it and the text after it. */
  lemma CutLeavesPieces(before: seq<char>, after: seq<char>, cursor: nat, rest: string, n: nat)
    requires TextIn(before, cursor, rest) && n < |rest| && |before| == |after|
    requires after == before[cursor + n := '\0']
    ensures TextIn(after, cursor, rest[..n]) && TextIn(after, cursor + n + 1, rest[n + 1..])
  {
  }

  /** Finds the next separator and, if there is one, overwrites it with a terminator. */
  method CutPiece(buffer: array<char>, cursor: nat, c: char, ghost rest: string) returns (n: nat, found: bool)
    requires TextIn(buffer[..], cursor, rest) && c != '\0'
    modifies buffer
    ensures n == Find(rest, c) && found == (n < |rest|)
    ensures TextIn(buffer[..], cursor, rest[..n])
    ensures found ==> TextIn(buffer[..], cursor + n + 1, rest[n + 1..])
  {
    TextAsArray(buffer, cursor, rest);
    n := FindChar(buffer, cursor, c, rest);
    found := buffer[cursor + n] == c;
    if found {
      CutLeavesPieces(buffer[..], buffer[..][cursor + n := '\0'], cursor, rest, n);
      buffer[cursor + n] := '\0';
    } else {
      assert rest[..n] == rest;
    }
  }

  // Versions.

  /** MAJOR.MINOR.HOTFIX, each a non-empty run of digits. */
  predicate IsVersion(v: string) {
    var parts := SplitOn(v, '.');
    |parts| == 3 && forall i | 0 <= i < 3 :: parts[i] != "" && AllDigits(parts[i])
  }

  predicate Component(s: string) {
    s != "" && AllDigits(s)
  }

  /** How far the scan has come: whole components, then a run of digits since `start`. */
  ghost predicate Scanned(value: string, parts: seq<string>, start: nat, index: nat) {
    && start <= index <= |value|
    && SplitOn(value, '.') == parts + SplitOn(value[start..], '.')
    && (forall i | 0 <= i < |parts| :: Component(parts[i]))
    && (forall i | start <= i < index :: IsDigit(value[i]))
  }

  lemma {:induction false} DotSplits(value: string, start: nat, index: nat)
    requires start <= index < |value| && value[index] == '.' && forall i | start <= i < index :: value[i] != '.'
    ensures SplitOn(value[start..], '.') == [value[start..index]] + SplitOn(value[index + 1..], '.')
  {
    var rest := value[start..];
    FindIs(rest, '.', index - start);
    SplitUnfolds(rest, '.');
    assert rest[..index - start] == value[start..index];
    assert rest[index - start + 1..] == value[index + 1..];
  }

  lemma {:induction false} DotEndsComponent(value: string, parts: seq<string>, start: nat, index: nat)
    requires Scanned(value, parts, start, index) && index < |value| && value[index] == '.'
    ensures start == index ==> !IsVersion(value)
    ensures start < index ==> Scanned(value, parts + [value[start..index]], index + 1, index + 1)
  {
    var part, later := value[start..index], SplitOn(value[index + 1..], '.');
    DotSplits(value, start, index);
    Associate(parts, [part], later);
    assert SplitOn(value, '.') == parts + [part] + later;
    if start == index {
      assert SplitOn(value, '.')[|parts|] == "";
    } else {
      assert forall i | 0 <= i < |part| :: part[i] == value[start + i];
      assert Component(part);
      assert forall i | 0 <= i < |parts| :: (parts + [part])[i] == parts[i];
    }
  }

  /** A character that is neither a digit nor a dot spoils the component it stands in. */
  lemma BadCharacter(value: string, parts: seq<string>, start: nat, index: nat)
    requires Scanned(value, parts, start, index) && index < |value|
    requires value[index] != '.' && !IsDigit(value[index])
    ensures !IsVersion(value)
  {
    var rest := value[start..];
    var n := Find(rest, '.');
    assert rest[index - start] == value[index];
    assert n > index - start;
    var part := SplitOn(rest, '.')[0];
    assert part == rest[..n] && part[index - start] == value[index];
    assert SplitOn(value, '.')[|parts|] == part;
  }

  lemma EndOfVersion(value: string, parts: seq<string>, start: nat)
    requires Scanned(value, parts, start, |value|)
    ensures IsVersion(value) <==> start < |value| && |parts| == 2
  {
    var rest := value[start..];
    FindIs(rest, '.', |rest|);
    assert SplitOn(value, '.') == parts + [rest];
    assert SplitOn(value, '.')[|parts|] == rest;
    assert forall i | 0 <= i < |parts| :: SplitOn(value, '.')[i] == parts[i];
  }

  lemma DigitGoesOn(value: string, parts: seq<string>, start: nat, index: nat)
    requires Scanned(value, parts, start, index) && index < |value| && IsDigit(value[index])
    ensures Scanned(value, parts, start, index + 1)
  {
  }

  lemma ScanBegins(value: string)
    ensures Scanned(value, [], 0, 0)
    ensures value == "" ==> !IsVersion(value)
  {
    assert value[0..] == value;
    assert [] + SplitOn(value, '.') == SplitOn(value, '.');
  }

  /** mp_logger_is_build_version_valid. */
  method IsBuildVersionValid(value: string) returns (valid: bool)
    ensures valid <==> IsVersion(value)
  {
    ScanBegins(value);
    if value == "" {
      return false;
    }
    var componentCount := 0;
    var sawDigit := false;
    var index := 0;
    ghost var start := 0;
    ghost var parts: seq<string> := [];
    while index < |value|
      invariant Scanned(value, parts, start, index)
      invariant |parts| == componentCount && sawDigit == (start < index)
    {
      if IsDigit(value[index]) {
        DigitGoesOn(value, parts, start, index);
        sawDigit := true;
      } else if value[index] == '.' {
        DotEndsComponent(value, parts, start, index);
        if !sawDigit {
          return false;
        }
        parts := parts + [value[start..index]];
        start := index + 1;
        componentCount := componentCount + 1;
        sawDigit := false;
      } else {
        BadCharacter(value, parts, start, index);
        return false;
      }
      index := index + 1;
    }
    EndOfVersion(value, parts, start);
    valid := sawDigit && componentCount == 2;
  }
}
