/** NUL-terminated strings inside character buffers. */
module CStrings {
  import opened Records

  /** The buffer holds the C string `s` at `offset`. */
  predicate TextIn(buffer: seq<char>, offset: nat, s: string) {
    && offset + |s| < |buffer|
    && NulFree(s)
    && (forall j | 0 <= j < |s| :: buffer[offset + j] == s[j])
    && buffer[offset + |s|] == '\0'
  }

  /** A buffer position holds at most one C string. */
  lemma TextIsUnique(buffer: seq<char>, offset: nat, s: string, t: string)
    requires TextIn(buffer, offset, s) && TextIn(buffer, offset, t)
    ensures s == t
  {
    if |s| < |t| {
      TextHasNoEnd(buffer, offset, t, |s|);
      assert false;
    } else if |t| < |s| {
      TextHasNoEnd(buffer, offset, s, |t|);
      assert false;
    }
  }

  lemma TextHasNoEnd(buffer: seq<char>, offset: nat, s: string, j: nat)
    requires TextIn(buffer, offset, s) && j < |s|
    ensures buffer[offset + j] != '\0'
  {
    assert buffer[offset + j] == s[j];
  }

  /** mp_logger_copy_truncated into dest[offset..offset + capacity]. */
  method CopyTruncated(dest: array<char>, offset: nat, capacity: nat, src: string) returns (length: nat)
    requires offset + capacity <= dest.Length && NulFree(src)
    modifies dest
    ensures capacity == 0 ==> length == 0 && dest[..] == old(dest[..])
    ensures capacity > 0 ==> length == |Cut(src, capacity)| && TextIn(dest[..], offset, Cut(src, capacity))
    ensures forall x | 0 <= x < dest.Length && !(offset <= x < offset + capacity) :: dest[x] == old(dest[x])
  {
    if capacity == 0 {
      return 0;
    }
    dest[offset] := '\0';
    length := |src|;
    if length >= capacity {
      length := capacity - 1;
    }
    if length > 0 {
      forall j | 0 <= j < length {
        dest[offset + j] := src[j];
      }
    }
    dest[offset + length] := '\0';
  }

  /** strlen, for a buffer known to hold a C string. */
  method StrLen(buffer: array<char>, offset: nat, ghost s: string) returns (length: nat)
    requires TextIn(buffer[..], offset, s)
    ensures length == |s|
  {
    assert forall j | 0 <= j < |s| :: buffer[offset + j] == s[j];
    length := 0;
    while buffer[offset + length] != '\0'
      invariant length <= |s|
      invariant length < |s| ==> buffer[offset + length] == s[length]
      decreases |s| - length
    {
      length := length + 1;
    }
  }

  method ReadText(buffer: array<char>, offset: nat, ghost s: string) returns (text: string)
    requires TextIn(buffer[..], offset, s)
    ensures text == s
  {
    var length := StrLen(buffer, offset, s);
    text := buffer[offset..offset + length];
    assert forall j | 0 <= j < |s| :: text[j] == buffer[..][offset + j];
  }
}
