/** Searching and splitting strings at a separator. */
module Scanning {
  import opened Sequences

  /** strchr: the first position of `c`, or the length if there is none. */
  function Find(s: string, c: char): (n: nat)
    ensures n <= |s|
    ensures n < |s| ==> s[n] == c
    ensures forall i | 0 <= i < n :: s[i] != c
  {
    if s == "" || s[0] == c then 0 else 1 + Find(s[1..], c)
  }

  predicate Occurs(s: string, c: char) {
    exists i | 0 <= i < |s| :: s[i] == c
  }

  lemma FindIs(s: string, c: char, n: nat)
    requires n <= |s| && (n < |s| ==> s[n] == c) && forall i | 0 <= i < n :: s[i] != c
    ensures Find(s, c) == n
  {
  }

  lemma FindSkips(a: string, rest: string, c: char)
    requires !Occurs(a, c) && (rest == "" || rest[0] == c)
    ensures Find(a + rest, c) == |a|
  {
    FindIs(a + rest, c, |a|);
  }

  /** The pieces between the separators; always at least one. */
  function SplitOn(s: string, c: char): (pieces: seq<string>)
    ensures |pieces| >= 1
    decreases |s|
  {
    var n := Find(s, c);
    if n == |s| then [s] else [s[..n]] + SplitOn(s[n + 1..], c)
  }

  function Join(pieces: seq<string>, c: char): string
    requires |pieces| >= 1
  {
    if |pieces| == 1 then pieces[0] else pieces[0] + [c] + Join(pieces[1..], c)
  }

  lemma {:induction false} SplitUnfolds(s: string, c: char)
    ensures SplitOn(s, c) ==
            if Find(s, c) == |s| then [s] else [s[..Find(s, c)]] + SplitOn(s[Find(s, c) + 1..], c)
  {
  }

  lemma {:induction false} SplitFirst(a: string, c: char, rest: string)
    requires !Occurs(a, c)
    ensures SplitOn(a + [c] + rest, c) == [a] + SplitOn(rest, c)
  {
    AroundSeparator(a, c, rest);
    FindSkips(a, [c] + rest, c);
  }

  /** Splitting is the inverse of joining pieces that do not hold the separator. */
  lemma {:induction false} SplitOfJoin(pieces: seq<string>, c: char)
    requires |pieces| >= 1 && forall i | 0 <= i < |pieces| :: !Occurs(pieces[i], c)
    ensures SplitOn(Join(pieces, c), c) == pieces
  {
    if |pieces| == 1 {
      FindIs(pieces[0], c, |pieces[0]|);
    } else {
      SplitFirst(pieces[0], c, Join(pieces[1..], c));
      SplitOfJoin(pieces[1..], c);
      HeadAndTail(pieces);
    }
  }

  lemma {:induction false} JoinFirst(a: string, pieces: seq<string>, c: char)
    requires |pieces| >= 1
    ensures Join([a] + pieces, c) == a + [c] + Join(pieces, c)
  {
    ConsTail(a, pieces);
  }

  lemma {:induction false} JoinOfSplit(s: string, c: char)
    ensures Join(SplitOn(s, c), c) == s
    ensures forall i | 0 <= i < |SplitOn(s, c)| :: !Occurs(SplitOn(s, c)[i], c)
    decreases |s|
  {
    var n := Find(s, c);
    if n < |s| {
      JoinOfSplit(s[n + 1..], c);
      JoinFirst(s[..n], SplitOn(s[n + 1..], c), c);
      SplitAt(s, n);
    }
  }
}
