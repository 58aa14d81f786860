/** Well-formed UTF-8, by the byte sequences of RFC 3629, section 4. */
module Utf8 {
  import opened Records

  predicate IsAscii(c: char) {
    c as int < 0x80
  }

  predicate Between(c: char, low: int, high: int) {
    low <= c as int <= high
  }

  /** A byte that only continues a character. */
  predicate IsContinuation(c: char) {
    Between(c, 0x80, 0xBF)
  }

  predicate Continues(s: string, from: nat, to: nat) {
    to <= |s| && forall i | from <= i < to :: IsContinuation(s[i])
  }

  /** The length of the character at the start, or 0 if there is no well-formed one. */
  function CharLength(s: string): (n: nat)
    requires s != ""
    ensures n <= |s|
  {
    var c := s[0];
    if IsAscii(c) then 1
    else if Between(c, 0xC2, 0xDF) && Continues(s, 1, 2) then 2
    else if Between(c, 0xE0, 0xEF) && Continues(s, 1, 3)
            && (c as int == 0xE0 ==> Between(s[1], 0xA0, 0xBF))
            && (c as int == 0xED ==> Between(s[1], 0x80, 0x9F)) then 3
    else if Between(c, 0xF0, 0xF4) && Continues(s, 1, 4)
            && (c as int == 0xF0 ==> Between(s[1], 0x90, 0xBF))
            && (c as int == 0xF4 ==> Between(s[1], 0x80, 0x8F)) then 4
    else 0
  }

  predicate IsUtf8(s: string)
    decreases |s|
  {
    s == "" || (CharLength(s) > 0 && IsUtf8(s[CharLength(s)..]))
  }

  predicate AllAscii(s: string) {
    forall i | 0 <= i < |s| :: IsAscii(s[i])
  }

  /** An ASCII character, or the end, cannot be part of the character before it. */
  lemma CharStopsAtAscii(a: string, b: string)
    requires a != "" && (b == "" || IsAscii(b[0]))
    ensures CharLength(a + b) == CharLength(a)
  {
    var s := a + b;
    assert s[0] == a[0];
    assert forall i | 0 <= i < |a| :: s[i] == a[i];
    if |a| < |s| {
      assert s[|a|] == b[0];
    }
  }

  /** Well-formedness splits before an ASCII character. */
  lemma {:induction false} SplitsAtAscii(a: string, b: string)
    requires b == "" || IsAscii(b[0])
    ensures IsUtf8(a + b) <==> IsUtf8(a) && IsUtf8(b)
    decreases |a|
  {
    if a == "" {
      assert a + b == b;
    } else {
      CharStopsAtAscii(a, b);
      var n := CharLength(a);
      if n > 0 {
        assert (a + b)[n..] == a[n..] + b;
        SplitsAtAscii(a[n..], b);
      }
    }
  }

  lemma {:induction false} AsciiFirst(a: string, b: string)
    requires AllAscii(a)
    ensures IsUtf8(a + b) <==> IsUtf8(b)
    decreases |a|
  {
    if a == "" {
      assert a + b == b;
    } else {
      assert (a + b)[1..] == a[1..] + b;
      AsciiFirst(a[1..], b);
    }
  }

  lemma AsciiIsUtf8(s: string)
    requires AllAscii(s)
    ensures IsUtf8(s)
  {
    AsciiFirst(s, "");
    assert s + "" == s;
  }

  /** A character that is cut short is not well formed. */
  lemma ShortCharIsBad(s: string, n: nat)
    requires s != "" && 0 < n < CharLength(s)
    ensures CharLength(s[..n]) == 0 && IsContinuation(s[n])
  {
    assert s[..n][0] == s[0];
  }

  lemma CharIsFirst(s: string, n: nat)
    requires s != "" && 0 < CharLength(s) <= n <= |s|
    ensures CharLength(s[..n]) == CharLength(s) && !IsContinuation(s[0])
  {
    assert forall i | 0 <= i < n :: s[..n][i] == s[i];
  }

  /** Cutting well-formed text leaves well-formed text exactly if the cut falls before a first byte. */
  lemma {:induction false} PrefixIsUtf8Iff(s: string, n: nat)
    requires IsUtf8(s) && n < |s|
    ensures IsUtf8(s[..n]) <==> !IsContinuation(s[n])
    decreases |s|
  {
    var k := CharLength(s);
    CharIsFirst(s, |s|);
    assert s[..|s|] == s;
    if 0 < n < k {
      ShortCharIsBad(s, n);
    } else if n >= k {
      CharIsFirst(s, n);
      assert s[..n][k..] == s[k..][..n - k] && s[k..][n - k] == s[n];
      PrefixIsUtf8Iff(s[k..], n - k);
    }
  }

  /** What a buffer of `capacity` bytes keeps of well-formed text. */
  lemma CutIsUtf8Iff(s: string, capacity: nat)
    requires IsUtf8(s) && capacity > 0
    ensures IsUtf8(Cut(s, capacity)) <==> |s| < capacity || !IsContinuation(s[capacity - 1])
  {
    if |s| < capacity {
      assert Cut(s, capacity) == s;
    } else {
      PrefixIsUtf8Iff(s, capacity - 1);
    }
  }
}
