/** The window between two connections: nothing is sent that the peer has no room for, so the 64 KB
    receive buffer does what an unbounded one would - except for probes into a closed window. */
module Overrun {
  import opened SeqArith
  import opened TcpHeaders
  import opened RecvBuffers
  import opened ConnectionSpec
  import opened Endpoints
  import opened Reassembly
  import opened SendSide
  import opened Network
  import opened FlowControl
  import opened Agreement
  import opened Lifecycle
  import Ring

  /** Beyond `Careful`: `x` never probes a closed window. */
  ghost predicate WindowRespecting(s: System, m: Move) {
    Careful(s, m) && (m.AtX? && m.ev.Probe? ==> !Probes(s.x.conn))
  }

  /** All of the stream that was transmitted, and - until a FIN was sent - all that may be, fits behind
      what `y` read. */
  ghost predicate FitsWindow(s: System) {
    && s.x.sent <= |s.y.read| + Ring.CAPACITY
    && (!Opening(s.x.conn) && !FinSent(s) ==>
          s.x.una + s.x.conn.tcb.snd.wnd <= |s.y.read| + Ring.CAPACITY)
  }

  ghost predicate Controlled(s: System) {
    Acknowledges(s, false) && FitsWindow(s) && (!FinSent(s) ==> Shape(s.x))
  }

  /** With both `nxt` in step, sending stays inside the window that came with `snd.una`. */
  lemma SendInsideWindow(x: Endpoint, ev: Event)
    requires Inv(x) && !Opening(x.conn) && x.nxt == x.sent && ev.Send?
    ensures Next(x, ev).sent <= Max(x.sent, x.una + x.conn.tcb.snd.wnd)
  {
    hide SeqAdd, SeqSub, ProcessSegment, QueueHolds;
    SeqSubPositions(x.Base(), x.una, x.nxt);
    InFlightWord(x);
    if Outputs(x, ev) != [] {
      FirstTransmission(x, ev, Outputs(x, ev)[0]);
    }
  }

  lemma InFlightWord(x: Endpoint)
    requires Inv(x) && !Opening(x.conn)
    ensures InFlight(x.conn) == x.nxt - x.una
  {
    SeqSubPositions(x.Base(), x.una, x.nxt);
  }

  lemma NothingMoreToSend(x: Endpoint, ev: Event)
    requires Inv(x) && ev.Send? && x.sent == |x.written|
    ensures Next(x, ev).sent == x.sent
  {
    hide SeqAdd, SeqSub, ProcessSegment;
    if Outputs(x, ev) != [] { FirstTransmission(x, ev, Outputs(x, ev)[0]); }
  }

  lemma SentOnlyBySending(x: Endpoint, ev: Event)
    requires !ev.Send? && (ev.Probe? ==> !Probes(x.conn))
    ensures Next(x, ev).sent == x.sent
  {
    hide SeqAdd, SeqSub, ProcessSegment;
    TransmitsIff(x, ev);
  }

  /** Until anything is acknowledged, the whole stream fits the ring. */
  lemma UnacknowledgedFits(x: Endpoint, ev: Event)
    requires Inv(x) && ev.Send? && (Opening(x.conn) || x.una == 0)
    ensures Next(x, ev).sent <= Ring.CAPACITY
  {
    hide SeqAdd, SeqSub, ProcessSegment, QueueHolds;
    if Outputs(x, ev) != [] { FirstTransmission(x, ev, Outputs(x, ev)[0]); }
  }

  lemma SendFits(x: Endpoint, ev: Event)
    requires Inv(x) && Shape(x) && ev.Send?
    ensures var sent' := Next(x, ev).sent;
            sent' <= x.sent || sent' <= Ring.CAPACITY
            || (!Opening(x.conn) && sent' <= x.una + x.conn.tcb.snd.wnd)
  {
    hide Next, QueueHolds, RingHolds, WordsHold, PhaseHolds;
    if Opening(x.conn) || x.una == 0 { UnacknowledgedFits(x, ev); } else { SendInsideWindow(x, ev); }
  }

  lemma FinStays(s: System, ev: Event)
    requires FinSent(s)
    ensures FinSent(After(s, AtX(ev)))
  {
    hide Next, Outputs;
    var b :| b in s.fromX && b.flags.fin;
    assert b in After(s, AtX(ev)).fromX;
  }

  lemma SpeakerFits(s: System, ev: Event)
    requires Controlled(s) && WindowRespecting(s, AtX(ev))
    ensures FitsWindow(After(s, AtX(ev)))
  {
    hide Next, Outputs, Carries, RcvHolds, AckHolds, Shape, BeforeFin;
    CarriedSides(s);
    if FinSent(s) { FinStays(s, ev); }
    if ev.Send? {
      if FinSent(s) { NothingMoreToSend(s.x, ev); } else { SendFits(s.x, ev); }
    } else {
      SentOnlyBySending(s.x, ev);
    }
    if ev.Deliver? { SpeakerHears(s, ev, false); } else { SpeakerLocal(s.x, ev); }
  }

  lemma SpeakerShape(s: System, ev: Event)
    requires Controlled(s) && WindowRespecting(s, AtX(ev))
    ensures var s' := After(s, AtX(ev)); !FinSent(s') ==> Shape(s'.x)
  {
    hide Next, Outputs, Carries, RcvHolds, AckHolds, Shape, BeforeFin;
    CarriedSides(s);
    if FinSent(s) {
      FinStays(s, ev);
    } else if ev.Close? && Transferring(s.x.conn) {
      FinOutputs(s.x, ev);
      assert s.x.conn.BuildFinAck() in Outputs(s.x, ev);
      assert s.x.conn.BuildFinAck() in After(s, AtX(ev)).fromX;
    } else {
      ShapeStep(s.x, ev);
    }
  }

  lemma SpeakerControlled(s: System, ev: Event)
    requires Controlled(s) && WindowRespecting(s, AtX(ev))
    ensures Controlled(After(s, AtX(ev)))
  {
    hide Next, Outputs, Acknowledges, FitsWindow, Shape, FinSent;
    SpeakerShape(s, ev);
    SpeakerFits(s, ev);
    SpeakerAcknowledges(s, ev, false);
  }

  lemma HearerControlled(s: System, ev: Event)
    requires Controlled(s) && WindowRespecting(s, AtY(ev))
    ensures Controlled(After(s, AtY(ev)))
  {
    hide Perform, Acknowledges, Shape;
    HearerAcknowledges(s, ev, false);
    ReadGrows(s.y, ev);
    assert FinSent(s) == FinSent(After(s, AtY(ev)));
  }

  lemma {:induction false} RunControlled(s: System, ms: seq<Move>)
    requires Controlled(s) && AllObey(s, ms, WindowRespecting)
    ensures Controlled(ExecAll(s, ms))
    decreases |ms|
  {
    hide Controlled, After;
    if ms != [] {
      match ms[0] {
        case AtX(ev) => SpeakerControlled(s, ev);
        case AtY(ev) => HearerControlled(s, ev);
      }
      RunControlled(After(s, ms[0]), ms[1..]);
    }
  }

  lemma StartedControlled(s: System)
    requires Started(s)
    ensures Controlled(s)
  {
    StartedAcknowledges(s, false);
  }

  /** Committing, draining and inserting in a buffer without a capacity. */
  function CommitWhole(rb: RecvState, d: seq<u8>): RecvState {
    rb.(data := rb.data + d, nxt := SeqAdd(rb.nxt, |d|))
  }

  function DrainWhole(rb: RecvState): RecvState
    decreases |rb.ooo.Keys|
  {
    if rb.ooo == map[] || MinKey(rb.ooo.Keys) != rb.nxt then rb
    else
      assert (rb.ooo - {rb.nxt}).Keys == rb.ooo.Keys - {rb.nxt};
      DrainWhole(CommitWhole(rb.(ooo := rb.ooo - {rb.nxt}), rb.ooo[rb.nxt]))
  }

  function InsertWhole(rb: RecvState, s: u32, d: seq<u8>): RecvState {
    if rb.Trim(s) >= |d| then rb
    else
      var s', d' := SeqAdd(s, rb.Trim(s)), d[rb.Trim(s)..];
      if s' == rb.nxt then DrainWhole(CommitWhole(rb, d'))
      else if s' in rb.ooo then rb
      else rb.(ooo := rb.ooo[s' := d'])
  }

  lemma CommitIsWholeIff(rb: RecvState, d: seq<u8>)
    requires |rb.data| <= Ring.CAPACITY
    ensures |rb.Commit(d).data| <= Ring.CAPACITY
    ensures |CommitWhole(rb, d).data| <= Ring.CAPACITY ==> rb.Commit(d) == CommitWhole(rb, d)
  {
    assert d[..|d|] == d;
  }

  lemma {:induction false} DrainWholeGrows(rb: RecvState)
    ensures |rb.data| <= |DrainWhole(rb).data|
    decreases |rb.ooo.Keys|
  {
    if rb.ooo != map[] && MinKey(rb.ooo.Keys) == rb.nxt {
      assert (rb.ooo - {rb.nxt}).Keys == rb.ooo.Keys - {rb.nxt};
      DrainWholeGrows(CommitWhole(rb.(ooo := rb.ooo - {rb.nxt}), rb.ooo[rb.nxt]));
    }
  }

  lemma {:induction false} DrainIsWhole(rb: RecvState)
    requires |rb.data| <= Ring.CAPACITY
    ensures |rb.Drain().data| <= Ring.CAPACITY
    ensures |DrainWhole(rb).data| <= Ring.CAPACITY ==> rb.Drain() == DrainWhole(rb)
    decreases |rb.ooo.Keys|
  {
    if rb.ooo != map[] && MinKey(rb.ooo.Keys) == rb.nxt {
      var d, rest := rb.ooo[rb.nxt], rb.(ooo := rb.ooo - {rb.nxt});
      assert rest.ooo.Keys == rb.ooo.Keys - {rb.nxt};
      CommitIsWholeIff(rest, d);
      DrainIsWhole(rest.Commit(d));
      DrainWholeGrows(CommitWhole(rest, d));
    }
  }

  /** The ring does what an unbounded buffer would exactly if what that buffer would hold fits. */
  lemma InsertIsWholeIff(rb: RecvState, s: u32, d: seq<u8>)
    requires |rb.data| <= Ring.CAPACITY
    ensures rb.Insert(s, d) == InsertWhole(rb, s, d)
            <==> |InsertWhole(rb, s, d).data| <= Ring.CAPACITY
  {
    hide SeqAdd, SeqSub;
    var n := rb.Trim(s);
    if n < |d| && SeqAdd(s, n) == rb.nxt {
      var d' := d[n..];
      CommitIsWholeIff(rb, d');
      DrainIsWhole(rb.Commit(d'));
      DrainWholeGrows(CommitWhole(rb, d'));
    }
  }

  lemma {:induction false} DrainWholeInStream(rb: RecvState, base: u32, stream: seq<u8>,
                                              read: seq<u8>)
    requires Consistent(rb, base, stream, read) && |stream| < 0x8000_0000
    requires |stream| <= |read| + Ring.CAPACITY
    ensures |DrainWhole(rb).data| <= Ring.CAPACITY
    decreases |rb.ooo.Keys|
  {
    if rb.ooo != map[] && MinKey(rb.ooo.Keys) == rb.nxt {
      var d, rest := rb.ooo[rb.nxt], rb.(ooo := rb.ooo - {rb.nxt});
      var q: nat :| SliceAt(base, stream, rb.nxt, d, q);
      PositionsInjective(base, q, |read| + |rb.data|);
      assert rest.ooo.Keys == rb.ooo.Keys - {rb.nxt};
      CommitSafe(rest, base, stream, read, d);
      CommitIsWholeIff(rest, d);
      DrainWholeInStream(rest.Commit(d), base, stream, read);
    }
  }

  /** A piece of a stream that ends within a ring length of what was read always fits. */
  lemma InsertFits(rb: RecvState, base: u32, stream: seq<u8>, read: seq<u8>, s: u32, d: seq<u8>)
    requires Consistent(rb, base, stream, read) && |stream| < 0x8000_0000
    requires |stream| <= |read| + Ring.CAPACITY && IsSlice(base, stream, s, d)
    ensures rb.Insert(s, d) == InsertWhole(rb, s, d)
  {
    hide SeqAdd, SeqSub;
    var n := rb.Trim(s);
    InsertIsWholeIff(rb, s, d);
    if n < |d| && SeqAdd(s, n) == rb.nxt {
      var p := |read| + |rb.data|;
      var q: nat :| SliceAt(base, stream, s, d, q);
      TrimDropsCommitted(rb, base, p, q, s);
      SliceSuffix(base, stream, s, d, q, n);
      PositionsInjective(base, p, q + n);
      CommitSafe(rb, base, stream, read, d[n..]);
      CommitIsWholeIff(rb, d[n..]);
      DrainWholeInStream(rb.Commit(d[n..]), base, stream, read);
    }
  }

  /** From `x` to `y`: nothing was transmitted further than a full ring behind what the application
      at `y` has read, and whatever arrives, the receive buffer does what an unbounded one would,
      staged segments included. */
  ghost predicate NeverOverruns(s: System) {
    && s.x.sent <= |s.y.read| + Ring.CAPACITY
    && (s.y.conn.recv.Some? ==>
          forall b :: b in s.fromX && b.payload != [] ==>
            var rb := s.y.conn.recv.value;
            rb.Insert(b.seqNum, b.payload) == InsertWhole(rb, b.seqNum, b.payload))
  }

  lemma ControlledNeverOverruns(s: System)
    requires Controlled(s)
    ensures NeverOverruns(s)
  {
    ReceivedBounded(s);
    if s.y.conn.recv.Some? {
      var rb := s.y.conn.recv.value;
      forall b | b in s.fromX && b.payload != []
        ensures rb.Insert(b.seqNum, b.payload) == InsertWhole(rb, b.seqNum, b.payload)
      {
        InsertFits(rb, s.x.Base(), SentPart(s.x), s.y.read, b.seqNum, b.payload);
      }
    }
  }

  /** Flow control never overruns, in any such run. */
  lemma FlowControlNeverOverruns(s0: System, ms: seq<Move>)
    requires Started(s0) && AllObey(s0, ms, WindowRespecting)
    ensures NeverOverruns(ExecAll(s0, ms))
  {
    StartedControlled(s0);
    RunControlled(s0, ms);
    ControlledNeverOverruns(ExecAll(s0, ms));
  }

  /** The same from `y` to `x`. */
  lemma FlowControlNeverOverrunsBack(s0: System, ms: seq<Move>)
    requires Started(s0) && AllObey(s0, ms, Flip(WindowRespecting))
    ensures NeverOverruns(Mirror(ExecAll(s0, ms)))
  {
    MirrorRun(s0, ms, WindowRespecting);
    FlowControlNeverOverruns(Mirror(s0), MirrorMoves(ms));
  }

  /** A probe always lies at or beyond the edge of the window the sender was offered, which no send
      passes: only reading that the sender has not heard of makes room for it. */
  lemma ProbeOutsideWindow(x: Endpoint, b: Builder)
    requires Inv(x) && b in Outputs(x, Probe)
    ensures b.seqNum == SeqAdd(x.Base(), x.sent) && x.una + x.conn.tcb.snd.wnd <= x.sent
  {
    hide SeqAdd, SeqSub, ProcessSegment;
    FirstTransmission(x, Probe, b);
    TransmitsIff(x, Probe);
  }

  lemma {:induction false} DrainFull(rb: RecvState)
    requires |rb.data| == Ring.CAPACITY
    ensures rb.Drain().data == rb.data
    decreases |rb.ooo.Keys|
  {
    if rb.ooo != map[] && MinKey(rb.ooo.Keys) == rb.nxt {
      var d, rest := rb.ooo[rb.nxt], rb.(ooo := rb.ooo - {rb.nxt});
      assert rest.ooo.Keys == rb.ooo.Keys - {rb.nxt};
      assert rest.Commit(d).data == rb.data;
      DrainFull(rest.Commit(d));
    }
  }

  /** The next byte of the stream meets a full ring. */
  lemma NextByteLost(rb: RecvState, d: seq<u8>)
    requires |rb.data| == Ring.CAPACITY && |d| == 1
    ensures rb.Insert(rb.nxt, d).data == rb.data
    ensures rb.Insert(rb.nxt, d) != InsertWhole(rb, rb.nxt, d)
  {
    hide SeqSub;
    SeqAddZero(rb.nxt);
    assert rb.Trim(rb.nxt) == 0 && d[0..] == d;
    assert rb.Commit(d).data == rb.data;
    DrainFull(rb.Commit(d));
    DrainWholeGrows(CommitWhole(rb, d));
    InsertIsWholeIff(rb, rb.nxt, d);
  }

  /** A byte ahead of what is expected is staged, with or without a capacity. */
  lemma AheadIsStaged(rb: RecvState, base: u32, p: nat, q: nat, d: seq<u8>)
    requires rb.nxt == SeqAdd(base, p) && p < q < 0x8000_0000
    ensures rb.Insert(SeqAdd(base, q), d) == InsertWhole(rb, SeqAdd(base, q), d)
  {
    hide SeqAdd, SeqSub;
    TrimDropsCommitted(rb, base, p, q, SeqAdd(base, q));
    SeqAddZero(SeqAdd(base, q));
    PositionsInjective(base, p, q);
  }

  /** What becomes of a probe that arrives at once: the receive buffer treats it as an unbounded one
      would exactly if its ring is not full; if it is full, the byte is lost. */
  lemma ProbeOverrunsIff(s: System, b: Builder)
    requires Controlled(s) && Lawful(s, AtX(Probe)) && s.y.conn.recv.Some?
    requires b in Outputs(s.x, Probe)
    ensures var rb := s.y.conn.recv.value;
            && (rb.Insert(b.seqNum, b.payload) == InsertWhole(rb, b.seqNum, b.payload)
                <==> |rb.data| < Ring.CAPACITY)
            && (|rb.data| == Ring.CAPACITY ==> rb.Insert(b.seqNum, b.payload).data == rb.data)
  {
    hide Next, Outputs, ClosedProperly, RcvHolds, AckHolds, Shape, SeqAdd, SeqSub;
    ReceivedBounded(s);
    CarriedSides(s);
    var rb, r := s.y.conn.recv.value, s.y.Received();
    ProbeIsNextByte(s.x, b);
    if |rb.data| == Ring.CAPACITY {
      NextByteLost(rb, b.payload);
    } else if r < s.x.sent {
      AheadIsStaged(rb, s.x.Base(), r, s.x.sent, b.payload);
    } else {
      var x' := Next(s.x, Probe);
      assert SliceAt(s.x.Base(), SentPart(x'), b.seqNum, b.payload, s.x.sent);
      ConsistentExtends(rb, s.x.Base(), SentPart(s.x), SentPart(x'), s.y.read);
      InsertFits(rb, s.x.Base(), SentPart(x'), s.y.read, b.seqNum, b.payload);
    }
  }

  lemma ProbeIsNextByte(x: Endpoint, b: Builder)
    requires Inv(x) && b in Outputs(x, Probe)
    ensures |b.payload| == 1 && b.seqNum == SeqAdd(x.Base(), x.sent) && x.sent < |x.written|
    ensures var x' := Next(x, Probe);
            x'.written == x.written && x'.sent == x.sent + 1
            && b.payload == x.written[x.sent..x.sent + 1]
  {
    hide SeqAdd, SeqSub, ProcessSegment;
    FirstTransmission(x, Probe, b);
    NextSegmentIsNextBytes(x, 1);
  }

  /** In particular a probe into a window that is still closed is lost. */
  lemma ProbeIntoFullRingLost(s: System, b: Builder)
    requires Controlled(s) && Lawful(s, AtX(Probe)) && s.y.conn.recv.Some?
    requires b in Outputs(s.x, Probe)
    requires s.x.una == s.x.sent == |s.y.read| + Ring.CAPACITY
    ensures var rb := s.y.conn.recv.value;
            rb.Insert(b.seqNum, b.payload).data == rb.data
            && rb.Insert(b.seqNum, b.payload) != InsertWhole(rb, b.seqNum, b.payload)
  {
    ReceivedBounded(s);
    ProbeOverrunsIff(s, b);
    NxtBounded(s.x);
    UnaReached(s, b);
  }

  lemma UnaReached(s: System, b: Builder)
    requires Controlled(s) && b in Outputs(s.x, Probe)
    ensures s.x.una <= s.y.Received()
  {
    hide SeqAdd, SeqSub, ProcessSegment;
    TransmitsIff(s.x, Probe);
  }
}
