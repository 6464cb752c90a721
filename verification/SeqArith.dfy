/** 32-bit sequence arithmetic (tcb.rs), related to unbounded stream positions.

    Machine words are bounded integers; wrapping is written out.  A stream position `p` (any
    integer; the SYN sits at -1) has the sequence number `SeqAdd(base, p)`, where `base` is the
    initial sequence number plus one. */
module SeqArith {
  type u8 = x: int | 0 <= x < 0x100
  type u16 = x: int | 0 <= x < 0x1_0000
  type u32 = x: int | 0 <= x < 0x1_0000_0000

  datatype Option<+T> = None | Some(value: T)

  function Min(a: int, b: int): int { if a <= b then a else b }

  function Max(a: int, b: int): int { if a <= b then b else a }

  /** `wrapping_add`; `n` may be negative or exceed 32 bits.  The sum wraps only if it leaves the
      range. */
  function SeqAdd(a: u32, n: int): u32 {
    if 0 <= a + n < 0x1_0000_0000 then a + n else (a + n) % 0x1_0000_0000
  }

  /** `wrapping_sub` */
  function SeqSub(a: u32, b: u32): u32 { if a >= b then a - b else a - b + 0x1_0000_0000 }

  predicate SeqLt(a: u32, b: u32) { a != b && SeqSub(b, a) < 0x8000_0000 }

  predicate SeqLe(a: u32, b: u32) { a == b || SeqLt(a, b) }

  predicate AckAcceptable(una: u32, ack: u32, nxt: u32) { SeqLt(una, ack) && SeqLe(ack, nxt) }

  lemma SeqAddAdd(a: u32, m: int, n: int)
    ensures SeqAdd(SeqAdd(a, m), n) == SeqAdd(a, m + n)
  {}

  lemma SeqSubPositions(base: u32, p: int, q: int)
    ensures SeqSub(SeqAdd(base, q), SeqAdd(base, p)) == (q - p) % 0x1_0000_0000
  {}

  lemma SeqAddZero(a: u32)
    ensures SeqAdd(a, 0) == a
  {}

  lemma SeqSubSelf(a: u32)
    ensures SeqSub(a, a) == 0
  {}

  lemma SeqAddSub(a: u32, b: u32)
    ensures SeqAdd(b, SeqSub(a, b)) == a
  {}

  /** Sequence numbers identify positions that are less than 2^32 apart. */
  lemma PositionsInjective(base: u32, p: int, q: int)
    requires -0x1_0000_0000 < p - q < 0x1_0000_0000
    ensures SeqAdd(base, p) == SeqAdd(base, q) <==> p == q
  {}

  /** The wrapping comparison orders positions that are at most 2^31 - 1 apart. */
  lemma SeqLtOrdersPositions(base: u32, p: int, q: int)
    requires -0x8000_0000 < p - q < 0x8000_0000
    ensures SeqLt(SeqAdd(base, p), SeqAdd(base, q)) <==> p < q
    ensures SeqLe(SeqAdd(base, p), SeqAdd(base, q)) <==> p <= q
  {
    SeqSubPositions(base, p, q);
    PositionsInjective(base, p, q);
  }

  /** The horizon is exact: a later position stops looking later at distance 2^31. */
  lemma SeqLtHorizon(base: u32, p: int, q: int)
    requires 0 < q - p < 0x1_0000_0000
    ensures SeqLt(SeqAdd(base, p), SeqAdd(base, q)) <==> q - p < 0x8000_0000
  {
    SeqSubPositions(base, p, q);
    PositionsInjective(base, p, q);
  }

  lemma SeqLeAntisymmetric(a: u32, b: u32)
    requires SeqLe(a, b) && SeqLe(b, a)
    ensures a == b
  {}

  /** Two words are incomparable exactly when they are 2^31 apart. */
  lemma SeqLeTotal(a: u32, b: u32)
    ensures SeqLe(a, b) || SeqLe(b, a) <==> SeqSub(a, b) != 0x8000_0000
  {}

  /** Transitivity holds exactly as long as the outer distance stays below 2^31. */
  lemma SeqLeTransitive(a: u32, b: u32, c: u32)
    requires SeqLe(a, b) && SeqLe(b, c)
    ensures SeqLe(a, c) <==> SeqSub(b, a) + SeqSub(c, b) < 0x8000_0000
  {}

  /** An accepted acknowledgement always lies in the half-open range (una, nxt]. */
  lemma AckAcceptableInRange(una: u32, ack: u32, nxt: u32)
    requires AckAcceptable(una, ack, nxt)
    ensures 0 < SeqSub(ack, una) <= SeqSub(nxt, una)
  {
    SeqSubSplits(una, ack, nxt);
  }

  /** The distances from `una` to `ack` to `nxt` add up, up to one turn. */
  lemma SeqSubSplits(una: u32, ack: u32, nxt: u32)
    ensures var d := SeqSub(ack, una) + SeqSub(nxt, ack);
            SeqSub(nxt, una) == if d < 0x1_0000_0000 then d else d - 0x1_0000_0000
  {}

  /** With less than 2^31 in flight it is accepted exactly then. */
  lemma AckAcceptableFaithful(una: u32, ack: u32, nxt: u32)
    requires SeqSub(nxt, una) < 0x8000_0000
    ensures AckAcceptable(una, ack, nxt) <==> 0 < SeqSub(ack, una) <= SeqSub(nxt, una)
  {
    SeqSubSplits(una, ack, nxt);
  }

  /** The same in positions: the accepted acknowledgement numbers are those of (u, t]. */
  lemma AckPosition(base: u32, u: int, ack: u32, t: int)
    requires 0 <= t - u < 0x8000_0000
    ensures AckAcceptable(SeqAdd(base, u), ack, SeqAdd(base, t))
            <==> exists k :: u < k <= t && ack == SeqAdd(base, k)
  {
    var una, nxt := SeqAdd(base, u), SeqAdd(base, t);
    SeqSubPositions(base, u, t);
    AckAcceptableFaithful(una, ack, nxt);
    if AckAcceptable(una, ack, nxt) {
      var k := u + SeqSub(ack, una);
      SeqAddAdd(base, u, SeqSub(ack, una));
      SeqAddSub(ack, una);
      assert u < k <= t && ack == SeqAdd(base, k);
    }
    forall k | u < k <= t && ack == SeqAdd(base, k) ensures AckAcceptable(una, ack, nxt) {
      SeqSubPositions(base, u, k);
    }
  }
}
