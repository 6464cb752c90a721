/** What the receive buffer delivers (recv_buffer.rs), part two: completeness.  A stream is cut
    once into segments, which arrive in any order with any duplicates. */
module Completeness {
  import opened SeqArith
  import opened RecvBuffers
  import opened Reassembly
  import Ring

  /** Segment `i` covers the positions from `bounds[i]` to `bounds[i + 1]`. */
  datatype Cut = Cut(base: u32, stream: seq<u8>, bounds: seq<nat>) {
    ghost predicate Valid() {
      && 0 < |bounds| && bounds[0] == 0 && bounds[|bounds| - 1] == |stream|
      && |stream| < 0x8000_0000
      && (forall i, j :: 0 <= i < j < |bounds| ==> bounds[i] < bounds[j])
    }

    function Count(): int { |bounds| - 1 }

    function Key(i: nat): u32
      requires i < |bounds|
    {
      SeqAdd(base, bounds[i])
    }

    ghost function Piece(i: nat): seq<u8>
      requires Valid() && i < Count()
    {
      stream[bounds[i]..bounds[i + 1]]
    }

    /** Segments that can be staged together are numbered in increasing order: within one window the
        sequence space does not wrap between their first bytes. */
    ghost predicate Ordered()
      requires Valid()
    {
      forall i, j :: 1 <= i < j < Count() && Together(i, j) ==> Key(i) < Key(j)
    }

    /** Segment `j` fits the window that is open while the one before `i` is still expected. */
    predicate Together(i: nat, j: nat)
      requires 1 <= i < |bounds| && j + 1 < |bounds|
    {
      bounds[j + 1] <= bounds[i - 1] + Ring.CAPACITY
    }
  }

  function FirstMissing(got: set<nat>, i: nat, count: nat): (r: nat)
    requires i <= count
    ensures i <= r <= count
    ensures forall j :: i <= j < r ==> j in got
    ensures r < count ==> r !in got
    decreases count - i
  {
    if i < count && i in got then FirstMissing(got, i + 1, count) else i
  }

  lemma KeysDistinct(cut: Cut, i: nat, j: nat)
    requires cut.Valid() && i < |cut.bounds| && j < |cut.bounds|
    ensures cut.Key(i) == cut.Key(j) <==> i == j
  {
    PositionsInjective(cut.base, cut.bounds[i], cut.bounds[j]);
  }

  /** The received segments from number `g` on, by sequence number. */
  ghost function Behind(cut: Cut, got: set<nat>, g: nat): map<u32, seq<u8>>
    requires cut.Valid()
    decreases cut.Count() - g
  {
    if g >= cut.Count() then map[]
    else
      var rest := Behind(cut, got, g + 1);
      if g in got then rest[cut.Key(g) := cut.Piece(g)] else rest
  }

  lemma {:induction false} BehindKeys(cut: Cut, got: set<nat>, g: nat, k: u32)
    requires cut.Valid()
    ensures k in Behind(cut, got, g)
            <==> exists i :: i in got && g <= i < cut.Count() && k == cut.Key(i)
    decreases cut.Count() - g
  {
    if g < cut.Count() { BehindKeys(cut, got, g + 1, k); }
  }

  lemma BehindHas(cut: Cut, got: set<nat>, g: nat, i: nat)
    requires cut.Valid() && i < cut.Count()
    ensures cut.Key(i) in Behind(cut, got, g) <==> i in got && g <= i
  {
    BehindKeys(cut, got, g, cut.Key(i));
    if j :| j in got && g <= j < cut.Count() && cut.Key(i) == cut.Key(j) {
      KeysDistinct(cut, i, j);
    }
  }

  lemma {:induction false} BehindGrows(cut: Cut, got: set<nat>, g: nat, i: nat)
    requires cut.Valid() && g <= i < cut.Count()
    ensures Behind(cut, got + {i}, g) == Behind(cut, got, g)[cut.Key(i) := cut.Piece(i)]
    decreases i - g
  {
    if g == i {
      BehindSame(cut, got, got + {i}, g + 1);
    } else {
      BehindGrows(cut, got, g + 1, i);
      KeysDistinct(cut, g, i);
    }
  }

  lemma {:induction false} BehindSame(cut: Cut, got: set<nat>, got': set<nat>, g: nat)
    requires cut.Valid()
    requires forall i :: g <= i ==> (i in got <==> i in got')
    ensures Behind(cut, got, g) == Behind(cut, got', g)
    decreases cut.Count() - g
  {
    if g < cut.Count() { BehindSame(cut, got, got', g + 1); }
  }

  /** Delivered and buffered bytes end exactly at segment `g`. */
  ghost predicate UpTo(rb: RecvState, cut: Cut, read: seq<u8>, g: nat)
    requires cut.Valid()
  {
    && g < |cut.bounds|
    && read + rb.data == cut.stream[..cut.bounds[g]]
    && rb.nxt == cut.Key(g)
  }

  /** Every received segment fitted into the window that was open behind the bytes read. */
  ghost predicate Fits(cut: Cut, got: set<nat>, read: seq<u8>)
    requires cut.Valid()
  {
    forall i :: i in got ==> i < cut.Count() && cut.bounds[i + 1] <= |read| + Ring.CAPACITY
  }

  /** The next expected byte starts the first missing segment, and exactly the received segments
      behind it are staged. */
  ghost predicate Exact(rb: RecvState, cut: Cut, got: set<nat>, read: seq<u8>)
    requires cut.Valid()
  {
    var f := FirstMissing(got, 0, cut.Count());
    UpTo(rb, cut, read, f) && rb.ooo == Behind(cut, got, f) && Fits(cut, got, read)
  }

  lemma CommitWholePiece(rb: RecvState, cut: Cut, read: seq<u8>, g: nat)
    requires cut.Valid() && g < cut.Count() && UpTo(rb, cut, read, g)
    requires cut.bounds[g + 1] <= |read| + Ring.CAPACITY
    ensures UpTo(rb.Commit(cut.Piece(g)), cut, read, g + 1)
  {
    var d := cut.Piece(g);
    assert |d| <= rb.Space();
    assert d[..|d|] == d;
    SeqAddAdd(cut.base, cut.bounds[g], |d|);
    assert read + (rb.data + d) == (read + rb.data) + d;
    assert cut.stream[..cut.bounds[g + 1]] == cut.stream[..cut.bounds[g]] + d;
  }

  /** The map's first key is the first staged segment. */
  lemma StagedHead(cut: Cut, got: set<nat>, read: seq<u8>, g: nat)
    requires cut.Valid() && cut.Ordered() && 1 <= g < cut.Count()
    requires Fits(cut, got, read) && |read| <= cut.bounds[g - 1]
    requires Behind(cut, got, g) != map[]
    ensures MinKey(Behind(cut, got, g).Keys) == cut.Key(g) <==> g in got
  {
    var k := MinKey(Behind(cut, got, g).Keys);
    BehindKeys(cut, got, g, k);
    var i: nat :| i in got && g <= i < cut.Count() && k == cut.Key(i);
    BehindHas(cut, got, g, g);
    KeysDistinct(cut, i, g);
    if g in got && g < i { assert cut.Together(g, i); }
  }

  lemma {:induction false} DrainExact(rb: RecvState, cut: Cut, got: set<nat>, read: seq<u8>, g: nat)
    requires cut.Valid() && cut.Ordered() && Fits(cut, got, read)
    requires 1 <= g < |cut.bounds| && |read| <= cut.bounds[g - 1]
    requires forall j :: 0 <= j < g ==> j in got
    requires UpTo(rb, cut, read, g) && rb.ooo == Behind(cut, got, g)
    ensures Exact(rb.Drain(), cut, got, read)
    decreases cut.Count() - g
  {
    FirstMissingIs(got, 0, cut.Count(), g);
    if g < cut.Count() {
      BehindHas(cut, got, g, g);
      if rb.ooo != map[] { StagedHead(cut, got, read, g); }
      if g in got {
        BehindHas(cut, got, g + 1, g);
        var rest := rb.(ooo := rb.ooo - {rb.nxt});
        assert rest.ooo == Behind(cut, got, g + 1);
        CommitWholePiece(rest, cut, read, g);
        DrainExact(rest.Commit(cut.Piece(g)), cut, got, read, g + 1);
      }
    }
  }

  /** If everything before `g` is there, the first missing segment is not before `g`. */
  lemma {:induction false} FirstMissingIs(got: set<nat>, i: nat, count: nat, g: nat)
    requires i <= g <= count
    requires forall j :: i <= j < g ==> j in got
    ensures FirstMissing(got, i, count) == FirstMissing(got, g, count)
    decreases g - i
  {
    if i < g { FirstMissingIs(got, i + 1, count, g); }
  }

  lemma InsertUntrimmed(rb: RecvState, cut: Cut, i: nat, f: nat)
    requires cut.Valid() && f < |cut.bounds| && i < cut.Count() && rb.nxt == cut.Key(f)
    ensures i < f ==> rb.Insert(cut.Key(i), cut.Piece(i)) == rb
    ensures i == f ==> rb.Insert(cut.Key(i), cut.Piece(i)) == rb.Commit(cut.Piece(i)).Drain()
    ensures i > f ==> rb.Insert(cut.Key(i), cut.Piece(i)) ==
                      if cut.Key(i) in rb.ooo then rb
                      else rb.(ooo := rb.ooo[cut.Key(i) := cut.Piece(i)])
  {
    TrimDropsCommitted(rb, cut.base, cut.bounds[f], cut.bounds[i], cut.Key(i));
    KeysDistinct(cut, i, f);
    if i < f {
      assert cut.bounds[i + 1] <= cut.bounds[f];
    } else {
      assert SeqAdd(cut.Key(i), 0) == cut.Key(i) && cut.Piece(i)[0..] == cut.Piece(i);
    }
  }

  lemma ArriveNext(rb: RecvState, cut: Cut, got: set<nat>, read: seq<u8>, f: nat)
    requires cut.Valid() && cut.Ordered() && Exact(rb, cut, got, read)
    requires f == FirstMissing(got, 0, cut.Count()) < cut.Count()
    requires cut.bounds[f + 1] <= |read| + Ring.CAPACITY
    ensures Exact(rb.Commit(cut.Piece(f)).Drain(), cut, got + {f}, read)
  {
    var next := rb.Commit(cut.Piece(f));
    CommitWholePiece(rb, cut, read, f);
    BehindSame(cut, got, got + {f}, f + 1);
    DrainExact(next, cut, got + {f}, read, f + 1);
  }

  lemma ArriveAhead(rb: RecvState, after: RecvState, cut: Cut, got: set<nat>, read: seq<u8>,
                    f: nat, i: nat)
    requires cut.Valid() && Exact(rb, cut, got, read)
    requires f == FirstMissing(got, 0, cut.Count()) < i < cut.Count()
    requires cut.bounds[i + 1] <= |read| + Ring.CAPACITY
    requires after == if cut.Key(i) in rb.ooo then rb
                      else rb.(ooo := rb.ooo[cut.Key(i) := cut.Piece(i)])
    ensures Exact(after, cut, got + {i}, read)
  {
    BehindHas(cut, got, f, i);
    BehindGrows(cut, got, f, i);
    FirstMissingIs(got + {i}, 0, cut.Count(), f);
    if i in got { assert got + {i} == got; }
  }

  /** The arrival of any segment that fits the window, new or duplicate, keeps `Exact`. */
  lemma ArriveExact(rb: RecvState, cut: Cut, got: set<nat>, read: seq<u8>, i: nat)
    requires cut.Valid() && cut.Ordered() && Exact(rb, cut, got, read)
    requires i < cut.Count() && cut.bounds[i + 1] <= |read| + Ring.CAPACITY
    ensures Exact(rb.Insert(cut.Key(i), cut.Piece(i)), cut, got + {i}, read)
  {
    var f := FirstMissing(got, 0, cut.Count());
    InsertUntrimmed(rb, cut, i, f);
    if i < f {
      assert got + {i} == got;
    } else if i == f {
      ArriveNext(rb, cut, got, read, f);
    } else {
      ArriveAhead(rb, rb.Insert(cut.Key(i), cut.Piece(i)), cut, got, read, f, i);
    }
  }

  /** One thing that happens to the buffer: a segment arrives or the application reads. */
  datatype Arrival = Arrive(i: nat) | Take(n: nat)

  /** The buffer, what was read from it, and the segments that reached it, after a run. */
  datatype Progress = Progress(rb: RecvState, read: seq<u8>, got: set<nat>)

  ghost predicate Admissible(cut: Cut, p: Progress, a: Arrival)
    requires cut.Valid()
  {
    match a
    case Arrive(i) => i < cut.Count() && cut.bounds[i + 1] <= |p.read| + Ring.CAPACITY
    case Take(n) => n <= |p.rb.data|
  }

  ghost function After(cut: Cut, p: Progress, a: Arrival): Progress
    requires cut.Valid() && Admissible(cut, p, a)
  {
    match a
    case Arrive(i) => Progress(p.rb.Insert(cut.Key(i), cut.Piece(i)), p.read, p.got + {i})
    case Take(n) => Progress(p.rb.Read(n), p.read + p.rb.data[..n], p.got)
  }

  ghost predicate Run(cut: Cut, p: Progress, arrivals: seq<Arrival>, p': Progress)
    requires cut.Valid()
    decreases |arrivals|
  {
    if arrivals == [] then p' == p
    else Admissible(cut, p, arrivals[0]) && Run(cut, After(cut, p, arrivals[0]), arrivals[1..], p')
  }

  function Start(cut: Cut): Progress {
    Progress(NewRecvState(SeqAdd(cut.base, -1)), [], {})
  }

  lemma StartExact(cut: Cut)
    requires cut.Valid()
    ensures Exact(Start(cut).rb, cut, {}, [])
  {
    SeqAddAdd(cut.base, -1, 1);
    forall k ensures k !in Behind(cut, {}, 0) { BehindKeys(cut, {}, 0, k); }
  }

  lemma {:induction false} RunExact(cut: Cut, p: Progress, arrivals: seq<Arrival>, p': Progress)
    requires cut.Valid() && cut.Ordered() && Exact(p.rb, cut, p.got, p.read)
    requires Run(cut, p, arrivals, p')
    ensures Exact(p'.rb, cut, p'.got, p'.read)
    decreases |arrivals|
  {
    if arrivals != [] {
      match arrivals[0] {
        case Arrive(i) => ArriveExact(p.rb, cut, p.got, p.read, i);
        case Take(n) => assert p.read + p.rb.data[..n] + p.rb.data[n..] == p.read + p.rb.data;
      }
      RunExact(cut, After(cut, p, arrivals[0]), arrivals[1..], p');
    }
  }

  /** Completeness: whatever arrived in whatever order, with reads in between, the buffer expects
      exactly the first byte of the first missing segment, has delivered everything before it,
      and stages only what lies beyond. */
  lemma ReassemblyComplete(cut: Cut, arrivals: seq<Arrival>, p: Progress)
    requires cut.Valid() && cut.Ordered() && Run(cut, Start(cut), arrivals, p)
    ensures var f := FirstMissing(p.got, 0, cut.Count());
            && p.rb.nxt == cut.Key(f)
            && p.read + p.rb.data == cut.stream[..cut.bounds[f]]
            && (forall k :: k in p.rb.ooo <==>
                  exists i :: i in p.got && f < i < cut.Count() && k == cut.Key(i))
  {
    StartExact(cut);
    RunExact(cut, Start(cut), arrivals, p);
    var f := FirstMissing(p.got, 0, cut.Count());
    forall k
      ensures k in p.rb.ooo <==> exists i :: i in p.got && f < i < cut.Count() && k == cut.Key(i)
    {
      BehindKeys(cut, p.got, f, k);
      if j :| j in p.got && f <= j < cut.Count() && k == cut.Key(j) { assert f < j; }
    }
  }

  /** The readable bytes depend only on which segments arrived. */
  lemma OrderIndependent(cut: Cut, arrivals: seq<Arrival>, p: Progress,
                         arrivals': seq<Arrival>, p': Progress)
    requires cut.Valid() && cut.Ordered()
    requires Run(cut, Start(cut), arrivals, p) && Run(cut, Start(cut), arrivals', p')
    requires p.got == p'.got
    ensures p.rb.nxt == p'.rb.nxt && p.read + p.rb.data == p'.read + p'.rb.data
    ensures p.rb.ooo == p'.rb.ooo
  {
    StartExact(cut);
    RunExact(cut, Start(cut), arrivals, p);
    RunExact(cut, Start(cut), arrivals', p');
  }

  /** All orders of arrival leave the buffer expecting the first missing segment. */
  ghost predicate CompleteInEveryOrder(cut: Cut)
    requires cut.Valid()
  {
    forall arrivals, p :: Run(cut, Start(cut), arrivals, p) ==>
      p.rb.nxt == cut.Key(FirstMissing(p.got, 0, cut.Count()))
  }

  /** Everything before segment `k` has been received and read, and nothing else has arrived. */
  ghost predicate ReadUpTo(cut: Cut, p: Progress, k: nat)
    requires cut.Valid()
  {
    && k < |cut.bounds| && p.rb == RecvState([], cut.Key(k), map[])
    && p.read == cut.stream[..cut.bounds[k]]
    && forall m :: 0 <= m < k ==> m in p.got
  }

  /** Segment `k` arrives and is read at once. */
  lemma ReadNext(cut: Cut, p: Progress, k: nat)
    requires cut.Valid() && ReadUpTo(cut, p, k) && k < cut.Count()
    requires |cut.Piece(k)| <= Ring.CAPACITY
    ensures Admissible(cut, p, Arrive(k))
    ensures var p1 := After(cut, p, Arrive(k));
            && Admissible(cut, p1, Take(|cut.Piece(k)|))
            && ReadUpTo(cut, After(cut, p1, Take(|cut.Piece(k)|)), k + 1)
  {
    InsertUntrimmed(p.rb, cut, k, k);
    CommitWholePiece(p.rb, cut, p.read, k);
    var p1 := After(cut, p, Arrive(k));
    assert p1.rb == p.rb.Commit(cut.Piece(k));
    assert p1.rb.data == cut.Piece(k);
  }

  /** Staging one segment ahead of everything expected. */
  lemma StageAhead(cut: Cut, p: Progress, k: nat, i: nat)
    requires cut.Valid() && k < i < cut.Count() && p.rb.nxt == cut.Key(k)
    requires cut.bounds[i + 1] <= |p.read| + Ring.CAPACITY && cut.Key(i) !in p.rb.ooo
    ensures Admissible(cut, p, Arrive(i))
    ensures After(cut, p, Arrive(i)) ==
            Progress(p.rb.(ooo := p.rb.ooo[cut.Key(i) := cut.Piece(i)]), p.read, p.got + {i})
  {
    InsertUntrimmed(p.rb, cut, i, k);
  }

  /** With `j`, numbered below `i`, staged as well, the drain never reaches `i`. */
  lemma DrainSticks(cut: Cut, p: Progress, i: nat, j: nat)
    requires cut.Valid() && 1 <= i < j < cut.Count() && cut.Key(j) < cut.Key(i)
    requires cut.bounds[i] <= |p.read| + Ring.CAPACITY
    requires UpTo(p.rb, cut, p.read, i - 1) && p.rb.ooo.Keys == {cut.Key(i), cut.Key(j)}
    ensures Admissible(cut, p, Arrive(i - 1))
    ensures After(cut, p, Arrive(i - 1)).rb.nxt == cut.Key(i)
  {
    InsertUntrimmed(p.rb, cut, i - 1, i - 1);
    CommitWholePiece(p.rb, cut, p.read, i - 1);
    assert MinKey(p.rb.ooo.Keys) == cut.Key(j);
  }

  lemma RunNothing(cut: Cut, p: Progress)
    requires cut.Valid()
    ensures Run(cut, p, [], p)
  {}

  lemma ArrivedIs(cut: Cut, p: Progress, i: nat)
    requires cut.Valid() && Admissible(cut, p, Arrive(i))
    ensures After(cut, p, Arrive(i)).got == p.got + {i}
  {}

  lemma RunPrepend(cut: Cut, p: Progress, a: Arrival, rest: seq<Arrival>, p': Progress)
    requires cut.Valid() && Admissible(cut, p, a) && Run(cut, After(cut, p, a), rest, p')
    ensures Run(cut, p, [a] + rest, p')
  {
    assert ([a] + rest)[1..] == rest;
  }

  /** `i` and `j` are staged, then the segment before `i` arrives. */
  lemma StuckBehind(cut: Cut, p: Progress, i: nat, j: nat)
      returns (arrivals: seq<Arrival>, p': Progress)
    requires cut.Valid() && 1 <= i < j < cut.Count() && cut.Key(j) < cut.Key(i)
    requires cut.Together(i, j) && ReadUpTo(cut, p, i - 1)
    ensures Run(cut, p, arrivals, p')
    ensures p'.rb.nxt == cut.Key(i) && forall m :: 0 <= m <= i ==> m in p'.got
  {
    hide After, Run, Admissible;
    StageAhead(cut, p, i - 1, i);
    KeysDistinct(cut, i, j);
    var p1 := After(cut, p, Arrive(i));
    StageAhead(cut, p1, i - 1, j);
    var p2 := After(cut, p1, Arrive(j));
    DrainSticks(cut, p2, i, j);
    p' := After(cut, p2, Arrive(i - 1));
    RunNothing(cut, p');
    RunPrepend(cut, p2, Arrive(i - 1), [], p');
    RunPrepend(cut, p1, Arrive(j), [Arrive(i - 1)] + [], p');
    arrivals := [Arrive(i)] + ([Arrive(j)] + ([Arrive(i - 1)] + []));
    RunPrepend(cut, p, Arrive(i), [Arrive(j)] + ([Arrive(i - 1)] + []), p');
    ArrivedIs(cut, p2, i - 1);
  }

  /** Reading along up to the segment before `i`, then that. */
  lemma {:induction false} ReadThenStuck(cut: Cut, p: Progress, k: nat, i: nat, j: nat)
      returns (arrivals: seq<Arrival>, p': Progress)
    requires cut.Valid() && 1 <= i < j < cut.Count() && cut.Key(j) < cut.Key(i)
    requires cut.Together(i, j) && k < i && ReadUpTo(cut, p, k)
    requires forall m :: 0 <= m < cut.Count() ==> |cut.Piece(m)| <= Ring.CAPACITY
    ensures Run(cut, p, arrivals, p')
    ensures p'.rb.nxt == cut.Key(i) && forall m :: 0 <= m <= i ==> m in p'.got
    decreases i - k
  {
    if k == i - 1 {
      arrivals, p' := StuckBehind(cut, p, i, j);
    } else {
      ReadNext(cut, p, k);
      var p1, take := After(cut, p, Arrive(k)), Take(|cut.Piece(k)|);
      var rest;
      rest, p' := ReadThenStuck(cut, After(cut, p1, take), k + 1, i, j);
      RunPrepend(cut, p1, take, rest, p');
      RunPrepend(cut, p, Arrive(k), [take] + rest, p');
      arrivals := [Arrive(k)] + ([take] + rest);
    }
  }

  /** Two segments that can be staged together in the wrong order: the drain stops short of a segment
      that has arrived. */
  lemma DisorderLosesProgress(cut: Cut, i: nat, j: nat)
    requires cut.Valid() && 1 <= i < j < cut.Count() && cut.Key(j) < cut.Key(i)
    requires forall m :: 0 <= m < cut.Count() ==> |cut.Piece(m)| <= Ring.CAPACITY
    requires cut.Together(i, j)
    ensures !CompleteInEveryOrder(cut)
  {
    StartExact(cut);
    var arrivals, p := ReadThenStuck(cut, Start(cut), 0, i, j);
    FirstMissingIs(p.got, 0, cut.Count(), i + 1);
    KeysDistinct(cut, i, FirstMissing(p.got, 0, cut.Count()));
  }

  /** Exactly when the buffer reassembles regardless of order, for segments that fit the ring: the
      sequence space must not wrap between segments that can be staged together. */
  lemma CompleteIffOrdered(cut: Cut)
    requires cut.Valid()
    requires forall m :: 0 <= m < cut.Count() ==> |cut.Piece(m)| <= Ring.CAPACITY
    ensures CompleteInEveryOrder(cut) <==> cut.Ordered()
  {
    if cut.Ordered() {
      forall arrivals, p | Run(cut, Start(cut), arrivals, p)
        ensures p.rb.nxt == cut.Key(FirstMissing(p.got, 0, cut.Count()))
      {
        ReassemblyComplete(cut, arrivals, p);
      }
    } else {
      var i, j :| 1 <= i < j < cut.Count() && cut.Together(i, j) && !(cut.Key(i) < cut.Key(j));
      KeysDistinct(cut, i, j);
      DisorderLosesProgress(cut, i, j);
    }
  }

  /** A stream that ends before the wrap is ordered; three one-byte segments across it are not. */
  lemma OrderedUnlessWrapping(cut: Cut)
    requires cut.Valid()
    ensures cut.base + |cut.stream| <= 0x1_0000_0000 ==> cut.Ordered()
    ensures var c := Cut(0xFFFF_FFFE, [1, 2, 3], [0, 1, 2, 3]); c.Valid() && !c.Ordered()
  {
    var c := Cut(0xFFFF_FFFE, [1, 2, 3], [0, 1, 2, 3]);
    assert c.Key(1) == 0xFFFF_FFFF && c.Key(2) == 0 && c.Together(1, 2);
  }

  /** Without the fixed cut: when a staged segment is next in line, the drain delivers it exactly if
      no staged key is numerically smaller - neither one from behind the wrap nor a stale one that
      an overlapping segment overtook. */
  lemma DrainDeliversIff(rb: RecvState)
    requires rb.nxt in rb.ooo
    ensures rb.nxt !in rb.Drain().ooo <==> forall k :: k in rb.ooo ==> rb.nxt <= k
  {
    if MinKey(rb.ooo.Keys) == rb.nxt {
      var next := rb.(ooo := rb.ooo - {rb.nxt}).Commit(rb.ooo[rb.nxt]);
      assert next.ooo.Keys == rb.ooo.Keys - {rb.nxt};
      DrainShrinks(next);
    }
  }

  lemma {:induction false} DrainShrinks(rb: RecvState)
    ensures rb.Drain().ooo.Keys <= rb.ooo.Keys
    decreases |rb.ooo.Keys|
  {
    if rb.ooo != map[] && MinKey(rb.ooo.Keys) == rb.nxt {
      var next := rb.(ooo := rb.ooo - {rb.nxt}).Commit(rb.ooo[rb.nxt]);
      assert next.ooo.Keys == rb.ooo.Keys - {rb.nxt};
      DrainShrinks(next);
    }
  }

  /** A staged key that was overtaken stays, and keeps everything staged where it is, for as long as
      the sequence numbers do not wrap. */
  lemma StaleEntryBlocks(rb: RecvState, k: u32, s: u32, d: seq<u8>)
    requires k in rb.ooo && k < rb.nxt && rb.nxt + Ring.CAPACITY < 0x1_0000_0000
    ensures var rb' := rb.Insert(s, d);
            k in rb'.ooo && k < rb'.nxt && rb.ooo.Keys <= rb'.ooo.Keys
  {
    var n := rb.Trim(s);
    if n < |d| && SeqAdd(s, n) == rb.nxt {
      var next := rb.Commit(d[n..]);
      assert next.nxt == rb.nxt + Min(|d[n..]|, rb.Space());
      assert next.Drain() == next;
    }
  }

  /** How a stale key arises: a segment that is committed past the start of a staged one - it overlaps
      it - leaves that entry behind, and with it everything else that is staged. */
  lemma OverlapStrands(rb: RecvState, d: seq<u8>, k: u32)
    requires rb.nxt + Ring.CAPACITY < 0x1_0000_0000 && d != []
    requires forall j :: j in rb.ooo ==> rb.nxt < j
    requires k in rb.ooo && k < rb.Commit(d).nxt
    ensures var rb' := rb.Insert(rb.nxt, d);
            && rb' == rb.Commit(d) && rb'.ooo == rb.ooo && k in rb'.ooo && k < rb'.nxt
  {
    SeqAddZero(rb.nxt);
    assert rb.Trim(rb.nxt) == 0 && d[0..] == d;
    var next := rb.Commit(d);
    assert MinKey(next.ooo.Keys) <= k;
  }

  lemma InsertAhead(rb: RecvState, s: u32, d: seq<u8>)
    requires rb.nxt < s && s - rb.nxt < 0x8000_0000 && d != [] && s !in rb.ooo
    ensures rb.Insert(s, d) == rb.(ooo := rb.ooo[s := d])
  {
    SeqAddZero(s);
    assert rb.Trim(s) == 0 && d[0..] == d;
  }

  /** And it does arise, from nothing but pieces of one stream: bytes 2 and 3 are staged, bytes 0 to 2
      overlap them, byte 4 is staged, byte 3 arrives.  All five bytes have arrived, but the last is not
      delivered: the staged copy of it is stuck. */
  lemma OverlapLosesProgress(stream: seq<u8>)
    requires |stream| == 5
    ensures var rb := NewRecvState(0).Insert(3, stream[2..4]).Insert(1, stream[0..3])
                      .Insert(5, stream[4..5]).Insert(4, stream[3..4]);
            && rb == RecvState(stream[..4], 5, map[3 := stream[2..4], 5 := stream[4..5]])
            && rb.Drain() == rb
  {
    hide SeqAdd, SeqSub, RecvState.Drain;
    FirstThree(stream);
    var rb3 := RecvState(stream[..3], 4, map[3 := stream[2..4], 5 := stream[4..5]]);
    LastOne(rb3, stream);
  }

  lemma FirstThree(stream: seq<u8>)
    requires |stream| == 5
    ensures NewRecvState(0).Insert(3, stream[2..4]).Insert(1, stream[0..3]).Insert(5, stream[4..5])
            == RecvState(stream[..3], 4, map[3 := stream[2..4], 5 := stream[4..5]])
  {
    hide RecvState.Drain, RecvState.Insert;
    var rb0 := NewRecvState(0);
    InsertAhead(rb0, 3, stream[2..4]);
    var rb1 := RecvState([], 1, map[3 := stream[2..4]]);
    assert rb0.Insert(3, stream[2..4]) == rb1;
    OverlapStrands(rb1, stream[0..3], 3);
    assert stream[0..3][..3] == stream[..3] && [] + stream[..3] == stream[..3];
    var rb2 := RecvState(stream[..3], 4, map[3 := stream[2..4]]);
    assert rb1.Insert(1, stream[0..3]) == rb2;
    InsertAhead(rb2, 5, stream[4..5]);
  }

  lemma LastOne(rb3: RecvState, stream: seq<u8>)
    requires |stream| == 5
    requires rb3 == RecvState(stream[..3], 4, map[3 := stream[2..4], 5 := stream[4..5]])
    ensures var rb := rb3.Insert(4, stream[3..4]);
            && rb == RecvState(stream[..4], 5, map[3 := stream[2..4], 5 := stream[4..5]])
            && rb.Drain() == rb
  {
    var rb4 := rb3.Commit(stream[3..4]);
    assert stream[3..4][..1] == stream[3..4] && stream[..3] + stream[3..4] == stream[..4];
    assert rb4 == RecvState(stream[..4], 5, rb3.ooo);
    assert 3 in rb4.ooo && 3 in rb4.ooo.Keys;
    assert MinKey(rb4.ooo.Keys) <= 3;
    assert rb4.Drain() == rb4;
    assert rb3.Trim(4) == 0 && stream[3..4][0..] == stream[3..4];
    assert SeqAdd(4, 0) == 4;
    assert rb3.Insert(4, stream[3..4]) == rb4.Drain();
  }

  /** What starts at the expected byte is committed, whatever is staged. */
  lemma NextIsCommitted(rb: RecvState, d: seq<u8>)
    requires d != []
    ensures rb.Insert(rb.nxt, d) == rb.Commit(d).Drain()
  {
    hide SeqSub, RecvState.Drain, RecvState.Commit;
    SeqAddZero(rb.nxt);
    assert rb.Trim(rb.nxt) == 0 && d[0..] == d;
  }

  /** So the way out of `OverlapLosesProgress` is that the byte is sent again. */
  lemma ResendDelivers(stream: seq<u8>)
    requires |stream| == 5
    ensures var rb := RecvState(stream[..4], 5, map[3 := stream[2..4], 5 := stream[4..5]]);
            rb.Insert(5, stream[4..5]).data == stream
  {
    var rb := RecvState(stream[..4], 5, map[3 := stream[2..4], 5 := stream[4..5]]);
    NextIsCommitted(rb, stream[4..5]);
    var next := rb.Commit(stream[4..5]);
    assert stream[4..5][..1] == stream[4..5] && stream[..4] + stream[4..5] == stream;
    assert 3 in next.ooo.Keys && MinKey(next.ooo.Keys) <= 3;
    assert next.Drain() == next;
  }
}
