/** Whitespace trimming as mp_logger_copy_trimmed does it. */
module Trimming {
  import opened Sequences
  import opened Records

  /** isspace in the C locale. */
  predicate IsSpace(c: char) {
    c == ' ' || 9 <= c as int <= 13
  }

  lemma SpaceCharsAre(c: char)
    ensures IsSpace(c) <==> c in [' ', '\t', '\n', 11 as char, 12 as char, '\r']
  {
  }

  function TrimLeft(s: string): string {
    if s != "" && IsSpace(s[0]) then TrimLeft(s[1..]) else s
  }

  function TrimRight(s: string): string {
    if s != "" && IsSpace(s[|s| - 1]) then TrimRight(s[..|s| - 1]) else s
  }

  function Trim(s: string): string {
    TrimRight(TrimLeft(s))
  }

  /** What mp_logger_copy_trimmed leaves in a buffer of `capacity` bytes. */
  function TrimTo(s: string, capacity: nat): string
    requires capacity > 0
  {
    Cut(Trim(s), capacity)
  }

  /** No whitespace at either end. */
  predicate Trimmed(s: string) {
    s != "" ==> !IsSpace(s[0]) && !IsSpace(s[|s| - 1])
  }

  predicate AllSpace(s: string) {
    forall i | 0 <= i < |s| :: IsSpace(s[i])
  }

  lemma {:induction false} TrimLeftSplits(s: string)
    ensures |TrimLeft(s)| <= |s| && TrimLeft(s) == s[|s| - |TrimLeft(s)|..]
    ensures forall i | 0 <= i < |s| - |TrimLeft(s)| :: IsSpace(s[i])
    ensures TrimLeft(s) != "" ==> !IsSpace(TrimLeft(s)[0])
  {
    if s != "" && IsSpace(s[0]) {
      TrimLeftSplits(s[1..]);
      forall i | 0 <= i < |s| - |TrimLeft(s)|
        ensures IsSpace(s[i])
      {
        assert i > 0 ==> s[i] == s[1..][i - 1];
      }
    }
  }

  lemma {:induction false} TrimRightSplits(s: string)
    ensures TrimRight(s) <= s
    ensures forall i | |TrimRight(s)| <= i < |s| :: IsSpace(s[i])
    ensures TrimRight(s) != "" ==> !IsSpace(TrimRight(s)[|TrimRight(s)| - 1])
  {
    if s != "" && IsSpace(s[|s| - 1]) {
      TrimRightSplits(s[..|s| - 1]);
      forall i | |TrimRight(s)| <= i < |s|
        ensures IsSpace(s[i])
      {
        assert i < |s| - 1 ==> s[i] == s[..|s| - 1][i];
      }
    }
  }

  /** Trimming is exactly removing the whitespace around a trimmed core. */
  lemma TrimIsUnique(left: string, core: string, right: string)
    requires AllSpace(left) && AllSpace(right) && Trimmed(core)
    ensures Trim(left + core + right) == core
  {
    var s := left + core + right;
    TrimLeftSplits(s);
    var t := TrimLeft(s);
    var n := |s| - |t|;
    TrimRightSplits(t);
    if core == "" {
      assert forall i | 0 <= i < |s| :: IsSpace(s[i]);
    } else {
      assert s[|left|] == core[0];
      assert n <= |left| && t[0] == s[n];
      assert forall i | 0 <= i < |left| :: s[i] == left[i];
      assert t == core + right;
      assert t[|core| - 1] == core[|core| - 1];
      var r := TrimRight(t);
      assert forall i | |core| <= i < |t| :: t[i] == right[i - |core|];
      assert r == core;
    }
  }

  /** A string with nothing to trim is left alone, so trimming twice is trimming once. */
  lemma TrimIsIdempotent(s: string)
    ensures Trimmed(Trim(s)) && Trim(Trim(s)) == Trim(s)
  {
    TrimLeftSplits(s);
    TrimRightSplits(TrimLeft(s));
    TrimIsUnique("", Trim(s), "");
    assert "" + Trim(s) + "" == Trim(s);
  }

  lemma LeftPart(s: string) returns (left: string)
    ensures s == left + TrimLeft(s) && AllSpace(left)
  {
    TrimLeftSplits(s);
    left := s[..|s| - |TrimLeft(s)|];
  }

  lemma RightPart(s: string) returns (right: string)
    ensures s == TrimRight(s) + right && AllSpace(right)
  {
    TrimRightSplits(s);
    right := s[|TrimRight(s)|..];
  }

  /** Every string is its trimmed core with whitespace around it. */
  lemma TrimParts(s: string) returns (left: string, right: string)
    ensures s == left + Trim(s) + right && AllSpace(left) && AllSpace(right) && Trimmed(Trim(s))
  {
    left := LeftPart(s);
    right := RightPart(TrimLeft(s));
    Associate(left, Trim(s), right);
    TrimIsIdempotent(s);
  }

  lemma SpaceAppends(a: string, b: string)
    requires AllSpace(a) && AllSpace(b)
    ensures AllSpace(a + b)
  {
  }

  /** More whitespace in front or behind makes no difference. */
  lemma TrimSkips(before: string, s: string, behind: string)
    requires AllSpace(before) && AllSpace(behind)
    ensures Trim(before + s + behind) == Trim(s)
  {
    var left, right := TrimParts(s);
    SpaceAppends(before, left);
    SpaceAppends(right, behind);
    TrimIsUnique(before + left, Trim(s), right + behind);
    Rebracket(before, left, Trim(s), right, behind);
  }

  lemma Rebracket(a: string, b: string, c: string, d: string, e: string)
    ensures a + (b + c + d) + e == (a + b) + c + (d + e)
  {
  }

  lemma TrimmedIsFixed(s: string)
    requires Trimmed(s)
    ensures Trim(s) == s
  {
    TrimIsUnique("", s, "");
    assert "" + s + "" == s;
  }

  lemma FixedIffTrimmed(t: string, capacity: nat)
    requires |t| < capacity
    ensures TrimTo(t, capacity) == t <==> Trimmed(t)
  {
    TrimIsIdempotent(t);
    if Trimmed(t) {
      TrimmedIsFixed(t);
    } else {
      TrimLeftSplits(t);
      TrimRightSplits(TrimLeft(t));
      assert Trim(t) != t;
    }
  }

  lemma CutIsTrimmedIff(u: string, capacity: nat)
    requires Trimmed(u) && capacity > 0
    ensures Trimmed(Cut(u, capacity)) <==> |u| < capacity || capacity == 1 || !IsSpace(u[capacity - 2])
  {
    var t := Cut(u, capacity);
    if |u| < capacity {
      assert t == u;
    } else if capacity > 1 {
      assert t[0] == u[0] && t[|t| - 1] == u[capacity - 2];
    }
  }

  /** With truncation the law fails: the cut can leave a space at the end. It holds exactly when
      the cut keeps the trimmed text whole or ends on a character that is not whitespace. */
  lemma TrimToIsIdempotentIff(s: string, capacity: nat)
    requires capacity > 0
    ensures TrimTo(TrimTo(s, capacity), capacity) == TrimTo(s, capacity) <==>
            |Trim(s)| < capacity || capacity == 1 || !IsSpace(Trim(s)[capacity - 2])
  {
    TrimIsIdempotent(s);
    FixedIffTrimmed(TrimTo(s, capacity), capacity);
    CutIsTrimmedIff(Trim(s), capacity);
  }

  lemma TrimToCanLeaveSpace()
    ensures TrimTo(TrimTo("a b", 3), 3) != TrimTo("a b", 3)
  {
    TrimmedIsFixed("a b");
    TrimToIsIdempotentIff("a b", 3);
  }
}
