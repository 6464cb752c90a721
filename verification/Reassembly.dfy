/** What the receive buffer delivers (recv_buffer.rs), part one: safety under arbitrary overlap. */
module Reassembly {
  import opened SeqArith
  import opened RecvBuffers
  import Ring

  /** `d`, numbered `s`, is the piece of `stream` at position `q`. */
  ghost predicate SliceAt(base: u32, stream: seq<u8>, s: u32, d: seq<u8>, q: nat) {
    q + |d| <= |stream| && s == SeqAdd(base, q) && d == stream[q..q + |d|]
  }

  ghost predicate IsSlice(base: u32, stream: seq<u8>, s: u32, d: seq<u8>) {
    exists q: nat :: SliceAt(base, stream, s, d, q)
  }

  lemma SliceExtends(base: u32, stream: seq<u8>, stream': seq<u8>, s: u32, d: seq<u8>)
    requires stream <= stream' && IsSlice(base, stream, s, d)
    ensures IsSlice(base, stream', s, d)
  {
    var q: nat :| SliceAt(base, stream, s, d, q);
    assert SliceAt(base, stream', s, d, q);
  }

  /** Everything delivered so far is `read`; the ring continues it, and what is staged are pieces
      of the same stream, stale or not. */
  ghost predicate Consistent(rb: RecvState, base: u32, stream: seq<u8>, read: seq<u8>) {
    && |rb.data| <= Ring.CAPACITY
    && read + rb.data <= stream
    && rb.nxt == SeqAdd(base, |read| + |rb.data|)
    && forall k :: k in rb.ooo ==> rb.ooo[k] != [] && IsSlice(base, stream, k, rb.ooo[k])
  }

  lemma CommitSafe(rb: RecvState, base: u32, stream: seq<u8>, read: seq<u8>, d: seq<u8>)
    requires Consistent(rb, base, stream, read)
    requires SliceAt(base, stream, rb.nxt, d, |read| + |rb.data|)
    ensures Consistent(rb.Commit(d), base, stream, read)
    ensures rb.data <= rb.Commit(d).data
  {
    var p, n := |read| + |rb.data|, Min(|d|, rb.Space());
    SeqAddAdd(base, p, n);
    assert stream[..p + n] == stream[..p] + stream[p..p + |d|][..n];
    assert read + (rb.data + d[..n]) == (read + rb.data) + d[..n];
  }

  lemma {:induction false} DrainSafe(rb: RecvState, base: u32, stream: seq<u8>, read: seq<u8>)
    requires Consistent(rb, base, stream, read) && |stream| < 0x8000_0000
    ensures Consistent(rb.Drain(), base, stream, read)
    ensures rb.data <= rb.Drain().data
    decreases |rb.ooo.Keys|
  {
    if rb.ooo != map[] && MinKey(rb.ooo.Keys) == rb.nxt {
      var d := rb.ooo[rb.nxt];
      var q: nat :| SliceAt(base, stream, rb.nxt, d, q);
      PositionsInjective(base, q, |read| + |rb.data|);
      var rest := rb.(ooo := rb.ooo - {rb.nxt});
      assert rest.ooo.Keys == rb.ooo.Keys - {rb.nxt};
      CommitSafe(rest, base, stream, read, d);
      DrainSafe(rest.Commit(d), base, stream, read);
    }
  }

  lemma TrimDropsCommitted(rb: RecvState, base: u32, p: nat, q: nat, s: u32)
    requires p < 0x8000_0000 && q < 0x8000_0000
    requires rb.nxt == SeqAdd(base, p) && s == SeqAdd(base, q)
    ensures rb.Trim(s) == Max(0, p - q)
  {
    SeqLtOrdersPositions(base, q, p);
    SeqSubPositions(base, q, p);
  }

  lemma SliceSuffix(base: u32, stream: seq<u8>, s: u32, d: seq<u8>, q: nat, n: nat)
    requires SliceAt(base, stream, s, d, q) && n <= |d|
    ensures SliceAt(base, stream, SeqAdd(s, n), d[n..], q + n)
  {
    SeqAddAdd(base, q, n);
  }

  /** Inserting any piece of a stream shorter than 2^31 bytes - duplicated, overlapping, stale,
      staged, or truncated for lack of room - keeps the delivered bytes a prefix of the stream,
      and the next expected position never moves back. */
  lemma InsertSafe(rb: RecvState, base: u32, stream: seq<u8>, read: seq<u8>, s: u32, d: seq<u8>)
    requires Consistent(rb, base, stream, read) && |stream| < 0x8000_0000
    requires IsSlice(base, stream, s, d)
    ensures Consistent(rb.Insert(s, d), base, stream, read)
    ensures rb.data <= rb.Insert(s, d).data
  {
    hide SeqAdd, SeqSub;
    var n := rb.Trim(s);
    if n < |d| {
      var p := |read| + |rb.data|;
      var q: nat :| SliceAt(base, stream, s, d, q);
      TrimDropsCommitted(rb, base, p, q, s);
      SliceSuffix(base, stream, s, d, q, n);
      var s', d' := SeqAdd(s, n), d[n..];
      assert IsSlice(base, stream, s', d');
      if s' == rb.nxt {
        PositionsInjective(base, p, q + n);
        CommitSafe(rb, base, stream, read, d');
        DrainSafe(rb.Commit(d'), base, stream, read);
      }
    }
  }

  lemma ReadSafe(rb: RecvState, base: u32, stream: seq<u8>, read: seq<u8>, n: nat)
    requires Consistent(rb, base, stream, read) && n <= |rb.data|
    ensures Consistent(rb.Read(n), base, stream, read + rb.data[..n])
  {
    assert (read + rb.data[..n]) + rb.data[n..] == read + rb.data;
  }

  lemma ConsistentExtends(rb: RecvState, base: u32, stream: seq<u8>, stream': seq<u8>,
                          read: seq<u8>)
    requires Consistent(rb, base, stream, read) && stream <= stream'
    ensures Consistent(rb, base, stream', read)
  {
    forall k | k in rb.ooo ensures IsSlice(base, stream', k, rb.ooo[k]) {
      SliceExtends(base, stream, stream', k, rb.ooo[k]);
    }
  }

  lemma {:induction false} DrainGrows(rb: RecvState)
    requires |rb.data| <= 65536
    ensures rb.data <= rb.Drain().data && |rb.Drain().data| <= 65536
    ensures |rb.data| == 65536 ==> rb.Drain().data == rb.data && rb.Drain().nxt == rb.nxt
    ensures rb.ooo == map[] ==> rb.Drain() == rb
    decreases |rb.ooo.Keys|
  {
    hide SeqSub;
    if rb.ooo != map[] && MinKey(rb.ooo.Keys) == rb.nxt {
      var rest := rb.(ooo := rb.ooo - {rb.nxt});
      assert rest.ooo.Keys == rb.ooo.Keys - {rb.nxt};
      SeqAddZero(rb.nxt);
      DrainGrows(rest.Commit(rb.ooo[rb.nxt]));
    }
  }

  /** Inserting, in numbers; `done` bytes of the segment lie before the expected number.  A segment of
      which nothing is new changes nothing.  One that reaches the expected number is appended as far
      as the 65536 bytes of the ring allow; if that fills the ring, or nothing is staged, this is
      all that happens.  One that starts later is staged, unless one with its number is. */
  lemma InsertDoes(rb: RecvState, s: u32, d: seq<u8>)
    requires |rb.data| <= 65536 && d != []
    ensures var done, rb' := (rb.nxt - s) % 0x1_0000_0000, rb.Insert(s, d);
            if done >= 0x8000_0000 then
              rb' == if s in rb.ooo then rb else rb.(ooo := rb.ooo[s := d])
            else if done >= |d| then rb' == rb
            else
              var n := Min(|d| - done, 65536 - |rb.data|);
              && rb.data + d[done..done + n] <= rb'.data && |rb'.data| <= 65536
              && (|rb.data| + n == 65536 || rb.ooo == map[] ==>
                    rb'.data == rb.data + d[done..done + n]
                    && rb'.nxt == (rb.nxt + n) % 0x1_0000_0000)
              && (rb.ooo == map[] ==> rb'.ooo == map[])
  {
    hide RecvState.Drain;
    var t := rb.Trim(s);
    TrimIs(rb, s);
    if t < |d| && SeqAdd(s, t) == rb.nxt {
      DrainGrows(rb.Commit(d[t..]));
      var n := Min(|d| - t, 65536 - |rb.data|);
      assert d[t..][..n] == d[t..t + n];
    }
    assert d[0..] == d;
  }

  lemma TrimIs(rb: RecvState, s: u32)
    ensures var done := (rb.nxt - s) % 0x1_0000_0000;
            && rb.Trim(s) == (if done < 0x8000_0000 then done else 0)
            && (done < 0x8000_0000 <==> SeqAdd(s, rb.Trim(s)) == rb.nxt)
            && (done >= 0x8000_0000 ==> SeqAdd(s, 0) == s)
  {}
}
