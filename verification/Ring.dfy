/** The ring discipline of queue_head, queue_tail and queue_count, on sequences. */
module Ring {

  /** An index below 2n brought back below n; WrapIsModulo shows it is the `%` of the source. */
  function Wrap(k: nat, n: nat): nat {
    if k < n then k else k - n
  }

  lemma WrapIsModulo(k: nat, n: nat)
    requires k < 2 * n
    ensures k % n == Wrap(k, n)
  {
    var q := k / n;
    assert k == q * n + k % n;
    assert q < 2 by {
      assert q >= 2 ==> (q - 2) * n >= 0;
    }
    if q == 0 {
      assert q * n == 0;
    } else {
      assert q * n == n;
    }
  }

  /** The `count` elements that start at `head`, wrapping round at the end. */
  function Window<T>(slots: seq<T>, head: nat, count: nat): (w: seq<T>)
    requires head < |slots| && count <= |slots|
    ensures |w| == count
    ensures forall i | 0 <= i < count :: w[i] == slots[Wrap(head + i, |slots|)]
  {
    seq(count, i requires 0 <= i < count => slots[Wrap(head + i, |slots|)])
  }

  /** Writing the slot at the tail leaves the window alone. */
  lemma WriteBehindWindow<T>(slots: seq<T>, head: nat, count: nat, x: T)
    requires head < |slots| && count < |slots|
    ensures Window(slots[Wrap(head + count, |slots|) := x], head, count) == Window(slots, head, count)
  {
  }

  /** Counting the slot at the tail appends it. */
  lemma GrowWindow<T>(slots: seq<T>, head: nat, count: nat)
    requires head < |slots| && count < |slots|
    ensures Window(slots, head, count + 1) ==
            Window(slots, head, count) + [slots[Wrap(head + count, |slots|)]]
  {
  }

  /** Advancing the head drops the first element. */
  lemma ShrinkWindow<T>(slots: seq<T>, head: nat, count: nat)
    requires head < |slots| && 0 < count <= |slots|
    ensures Window(slots, head, count) ==
            [slots[head]] + Window(slots, Wrap(head + 1, |slots|), count - 1)
  {
    var rest := Window(slots, Wrap(head + 1, |slots|), count - 1);
    forall i | 0 < i < count
      ensures Window(slots, head, count)[i] == rest[i - 1]
    {
    }
  }
}
