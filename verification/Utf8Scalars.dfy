/** Well-formed UTF-8 in terms of what it encodes: RFC 3629, section 3, against the byte sequences of
    section 4. */
module Utf8Scalars {
  import opened Sequences
  import opened Utf8

  /** A Unicode code point that is not half of a surrogate pair. */
  predicate IsScalar(n: nat) {
    n < 0xD800 || 0xE000 <= n < 0x11_0000
  }

  function Trailing(n: nat): char {
    (0x80 + n % 64) as char
  }

  function Encode(n: nat): (s: string)
    requires IsScalar(n)
    ensures 1 <= |s| <= 4
  {
    if n < 0x80 then [n as char]
    else if n < 0x800 then [(0xC0 + n / 64) as char, Trailing(n)]
    else if n < 0x1_0000 then [(0xE0 + n / 64 / 64) as char, Trailing(n / 64), Trailing(n)]
    else [(0xF0 + n / 64 / 64 / 64) as char, Trailing(n / 64 / 64), Trailing(n / 64), Trailing(n)]
  }

  ghost predicate AllScalars(scalars: seq<nat>) {
    forall i | 0 <= i < |scalars| :: IsScalar(scalars[i])
  }

  function Encoded(scalars: seq<nat>): string
    requires forall i | 0 <= i < |scalars| :: IsScalar(scalars[i])
  {
    if scalars == [] then "" else Encode(scalars[0]) + Encoded(scalars[1..])
  }

  /** What a trailing byte carries. */
  function Payload(c: char): (n: nat)
    requires IsContinuation(c)
    ensures n < 64 && Trailing(n) == c
  {
    c as int - 0x80
  }

  /** A number grown by one trailing byte. */
  function Grown(n: nat, c: char): (m: nat)
    requires IsContinuation(c)
    ensures m / 64 == n && Trailing(m) == c && n * 64 <= m < n * 64 + 64
  {
    n * 64 + Payload(c)
  }

  /** The scalar at the start of a text. */
  function First(s: string): nat
    requires s != "" && CharLength(s) > 0
  {
    match CharLength(s)
    case 1 => s[0] as int
    case 2 => Grown(s[0] as int - 0xC0, s[1])
    case 3 => Grown(Grown(s[0] as int - 0xE0, s[1]), s[2])
    case _ => Grown(Grown(Grown(s[0] as int - 0xF0, s[1]), s[2]), s[3])
  }

  lemma {:induction false} TwoAreEncoded(s: string)
    requires s != "" && CharLength(s) == 2
    ensures IsScalar(First(s)) && Encode(First(s)) == [s[0], s[1]]
  {
  }

  lemma {:induction false} ThreeAreEncoded(s: string)
    requires s != "" && CharLength(s) == 3
    ensures IsScalar(First(s)) && Encode(First(s)) == [s[0], s[1], s[2]]
  {
    var a := Grown(s[0] as int - 0xE0, s[1]);
    var b := Grown(a, s[2]);
    assert First(s) == b;
    assert 0x20 <= a < 0x400 && (a < 0x360 || 0x380 <= a);
  }

  lemma {:induction false} FourAreEncoded(s: string)
    requires s != "" && CharLength(s) == 4
    ensures IsScalar(First(s)) && Encode(First(s)) == [s[0], s[1], s[2], s[3]]
  {
    var a := Grown(s[0] as int - 0xF0, s[1]);
    var b := Grown(a, s[2]);
    var c := Grown(b, s[3]);
    assert First(s) == c;
    assert 0x10 <= a < 0x110;
  }

  lemma {:induction false} FirstIsEncoded(s: string)
    requires s != "" && CharLength(s) > 0
    ensures IsScalar(First(s)) && Encode(First(s)) == s[..CharLength(s)]
  {
    if CharLength(s) == 2 {
      TwoAreEncoded(s);
    } else if CharLength(s) == 3 {
      ThreeAreEncoded(s);
    } else if CharLength(s) == 4 {
      FourAreEncoded(s);
    }
  }

  /** Only the bytes of the character itself matter. */
  lemma {:induction false} EncodeIsChar(n: nat, rest: string)
    requires IsScalar(n)
    ensures CharLength(Encode(n) + rest) == |Encode(n)|
  {
    var e := Encode(n);
    EncodeAlone(n);
    assert forall i | 0 <= i < |e| :: (e + rest)[i] == e[i];
  }

  lemma {:induction false} EncodeAlone(n: nat)
    requires IsScalar(n)
    ensures CharLength(Encode(n)) == |Encode(n)|
  {
    if 0x800 <= n < 0x1_0000 {
      assert n / 64 / 64 <= 15 && n / 64 / 64 * 4096 <= n < n / 64 / 64 * 4096 + 4096;
    }
  }

  lemma {:induction false} EncodedIsUtf8(scalars: seq<nat>)
    requires AllScalars(scalars)
    ensures IsUtf8(Encoded(scalars))
  {
    if scalars != [] {
      var rest := Encoded(scalars[1..]);
      EncodedIsUtf8(scalars[1..]);
      EncodeIsChar(scalars[0], rest);
      TakeAndDrop(Encode(scalars[0]), rest);
    }
  }

  lemma {:induction false} Utf8IsEncoded(s: string) returns (scalars: seq<nat>)
    requires IsUtf8(s)
    ensures AllScalars(scalars) && Encoded(scalars) == s
    decreases |s|
  {
    if s == "" {
      scalars := [];
    } else {
      var n := CharLength(s);
      var later := Utf8IsEncoded(s[n..]);
      FirstIsEncoded(s);
      scalars := [First(s)] + later;
      ConsTail(First(s), later);
      assert s == s[..n] + s[n..];
    }
  }

  /** A text is UTF-8 exactly if it is the encoding of a sequence of scalars. */
  lemma Utf8Iff(s: string)
    ensures IsUtf8(s) <==> exists scalars :: AllScalars(scalars) && Encoded(scalars) == s
  {
    if IsUtf8(s) {
      var scalars := Utf8IsEncoded(s);
    }
    if scalars :| AllScalars(scalars) && Encoded(scalars) == s {
      EncodedIsUtf8(scalars);
    }
  }
}
