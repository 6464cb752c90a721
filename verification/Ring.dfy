/** The 64 KB ring that both buffers keep: `len` bytes starting at `head`, modulo the capacity. */
module Ring {
  import opened SeqArith

  const CAPACITY: nat := 65536

  /** The bytes held by a ring. */
  function Slice(b: seq<u8>, head: nat, len: nat): (r: seq<u8>)
    requires |b| == CAPACITY
    ensures |r| == len
  {
    seq(len, i requires 0 <= i < len => b[(head + i) % 65536])
  }

  /** An index relative to an index. */
  lemma Wraps(a: nat, i: nat)
    ensures (a % 65536 + i) % 65536 == (a + i) % 65536
  {}

  /** Storing at the slot behind the last byte appends, as long as there is room. */
  lemma SliceAppend(b: seq<u8>, head: nat, len: nat, x: u8)
    requires |b| == CAPACITY && head < CAPACITY && len < CAPACITY
    ensures Slice(b[(head + len) % 65536 := x], head, len + 1) == Slice(b, head, len) + [x]
  {
    var b' := b[(head + len) % 65536 := x];
    forall i | 0 <= i < len
      ensures Slice(b', head, len + 1)[i] == Slice(b, head, len)[i]
    {
      assert (head + i) % 65536 != (head + len) % 65536;
    }
  }

  /** Moving `head` forward drops bytes from the front. */
  lemma SliceDrop(b: seq<u8>, head: nat, len: nat, n: nat)
    requires |b| == CAPACITY && head < CAPACITY && n <= len
    ensures Slice(b, (head + n) % 65536, len - n) == Slice(b, head, len)[n..]
  {
    var r, r' := Slice(b, head, len), Slice(b, (head + n) % 65536, len - n);
    forall i | 0 <= i < len - n
      ensures r'[i] == r[n + i]
    {
      Wraps(head + n, i);
      assert head + n + i == head + (n + i);
    }
  }
}
