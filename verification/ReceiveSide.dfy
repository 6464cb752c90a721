/** The receive side of one connection: what it has put in order is a prefix of the stream its
    peer's segments are cut from. */
module ReceiveSide {
  import opened SeqArith
  import opened TcpHeaders
  import opened Tcbs
  import opened RecvBuffers
  import opened ConnectionSpec
  import opened Endpoints
  import opened Reassembly
  import SendSide

  /** A segment of a peer whose stream starts at `base`. */
  ghost predicate Speaks(base: u32, stream: seq<u8>, seg: TcpSegment) {
    && (seg.payload != [] ==> IsSlice(base, stream, seg.header.seqNum, seg.payload))
    && (seg.header.flags.syn ==> SeqAdd(seg.header.seqNum, 1) == base)
  }

  ghost predicate Hears(y: Endpoint, base: u32, stream: seq<u8>) {
    match y.conn.recv
    case None => y.read == []
    case Some(rb) =>
      && Consistent(rb, base, stream, y.read)
      && (Opening(y.conn) ==> y.read == [] && rb == RecvState([], base, map[]))
  }

  lemma NewHears(y: Endpoint, base: u32, stream: seq<u8>, irs: u32)
    requires y.read == [] && y.conn.recv == Some(NewRecvState(irs)) && SeqAdd(irs, 1) == base
    ensures Hears(y, base, stream)
  {}

  lemma PayloadHears(y: Endpoint, base: u32, stream: seq<u8>, seg: TcpSegment, c': Conn)
    requires Hears(y, base, stream) && |stream| < 0x8000_0000 && Speaks(base, stream, seg)
    requires y.conn.recv.Some?
    requires c'.recv == TakePayload(y.conn, seg).recv && !Opening(c')
    ensures Hears(Moved(y, c'), base, stream)
    ensures y.Received() <= Moved(y, c').Received()
  {
    if seg.payload != [] {
      InsertSafe(y.conn.recv.value, base, stream, y.read, seg.header.seqNum, seg.payload);
    }
  }

  /** The receive side of `handle_established`. */
  lemma EstablishedReceives(c: Conn, seg: TcpSegment, now: real)
    requires c.tcb.state == Established
    ensures var c' := HandleEstablished(c, seg, now).conn;
            c'.recv == c.recv || c'.recv == TakePayload(c, seg).recv
  {
    hide SeqAdd, SeqSub, AckAcceptable, GrownCwnd, HalvedWindow;
  }

  lemma EstablishedHears(y: Endpoint, base: u32, stream: seq<u8>, seg: TcpSegment, now: real)
    requires SendSide.Inv(y) && y.conn.tcb.state == Established
    requires Hears(y, base, stream) && |stream| < 0x8000_0000 && Speaks(base, stream, seg)
    ensures var y' := Moved(y, HandleEstablished(y.conn, seg, now).conn);
            Hears(y', base, stream) && y.Received() <= y'.Received()
  {
    hide SeqAdd, SeqSub, HandleEstablished, TakePayload, Consistent;
    EstablishedReceives(y.conn, seg, now);
    SendSide.EstablishedOutcome(y.conn, seg, now);
    var r := HandleEstablished(y.conn, seg, now);
    if r.conn.recv == TakePayload(y.conn, seg).recv {
      PayloadHears(y, base, stream, seg, r.conn);
    }
  }

  /** Delivering a segment keeps what was heard a prefix of the peer's stream, and the amount
      never shrinks. */
  lemma DeliverHears(y: Endpoint, base: u32, stream: seq<u8>, seg: TcpSegment, now: real)
    requires SendSide.Inv(y)
    requires Hears(y, base, stream) && |stream| < 0x8000_0000 && Speaks(base, stream, seg)
    ensures var y' := Next(y, Deliver(seg, now));
            Hears(y', base, stream) && y.Received() <= y'.Received()
  {
    hide SeqAdd, SeqSub, ProcessSegment;
    var y' := Moved(y, ProcessSegment(y.conn, seg, now).conn);
    assert Next(y, Deliver(seg, now)) == y';
    if y.conn.tcb.state == Established {
      EstablishedIsProcessed(y.conn, seg, now);
      EstablishedHears(y, base, stream, seg, now);
    } else {
      OthersReceive(y.conn, seg, now);
      if y'.conn.recv != y.conn.recv {
        NewHears(y', base, stream, seg.header.seqNum);
      }
    }
  }

  lemma EstablishedIsProcessed(c: Conn, seg: TcpSegment, now: real)
    requires c.tcb.state == Established
    ensures ProcessSegment(c, seg, now) == HandleEstablished(c, seg, now)
  {}

  /** Outside ESTABLISHED a segment at most starts a new receive buffer. */
  lemma OthersReceive(c: Conn, seg: TcpSegment, now: real)
    requires c.tcb.state != Established
    requires c.recv.None? ==> c.tcb.state in {Listen, SynSent, Closed}
    ensures var c' := ProcessSegment(c, seg, now).conn;
            && (Opening(c') ==> Opening(c))
            && (c'.recv != c.recv ==> c'.recv == Some(NewRecvState(seg.header.seqNum))
                                      && seg.header.flags.syn && Opening(c))
  {
    hide SeqAdd, SeqSub, AckAcceptable, HandleEstablished;
  }

  lemma LocalHears(y: Endpoint, base: u32, stream: seq<u8>, ev: Event)
    requires SendSide.Inv(y) && Proper(y, ev) && !ev.Deliver? && Hears(y, base, stream)
    ensures Hears(Next(y, ev), base, stream)
    ensures Next(y, ev).Received() == y.Received()
  {
    hide SeqAdd, SeqSub, ProcessSegment, Consistent, SendSide.QueueHolds, SendSide.RingHolds;
    var y' := Next(y, ev);
    if ev.Read? && y.conn.recv.Some? {
      var rb := y.conn.recv.value;
      ReadSafe(rb, base, stream, y.read, Min(ev.n, |rb.data|));
    } else {
      assert y'.read == y.read;
    }
  }
}
