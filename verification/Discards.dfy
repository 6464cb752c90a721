/** Exactly which steps make a sender discard bytes, or count a FIN as acknowledged, that the peer does
    not have.  The conditions are on the state and segment before the step. */
module Discards {
  import opened SeqArith
  import opened TcpHeaders
  import opened Tcbs
  import opened ConnectionSpec
  import opened Endpoints
  import opened SendSide
  import opened FlowControl

  lemma CloseDoes(e: Endpoint)
    requires Inv(e) && Transferring(e.conn)
    ensures var x := Next(e, Close);
            && x.conn.tcb.state == (if e.conn.tcb.state == Established then FinWait1 else LastAck)
            && x.nxt == e.nxt + 1 && x.una == e.una && x.sent == e.sent && x.written == e.written
            && x.Discarded() == e.Discarded() && x.Base() == e.Base()
  {
    hide SeqSub, ProcessSegment;
    SeqAddAdd(e.Base(), e.nxt, 1);
    DistancePositions(e.Base(), e.nxt + 1, e.nxt);
  }

  /** The acknowledgement of position `k` in FIN_WAIT_1. */
  lemma FinWait1Ack(x: Endpoint, seg: TcpSegment, now: real, k: int)
    requires Inv(x) && x.conn.tcb.state == FinWait1 && x.una < k <= x.nxt
    requires seg.header.flags.ack && !seg.header.flags.rst && seg.header.ackNum == SeqAdd(x.Base(), k)
    ensures var x' := Next(x, Deliver(seg, now));
            && x'.una == k
            && x'.Discarded() == if k <= |x.written| then k else x.Discarded()
  {
    hide SeqAdd, SeqSub, HandleEstablished, QueueStep;
    var x' := Moved(x, HandleFinWait1(x.conn, seg, now).conn);
    assert Next(x, Deliver(seg, now)) == x';
    AckPosition(x.Base(), x.una, seg.header.ackNum, x.nxt);
    WordsKept(x, x'.conn);
    var k' := AckCarried(x, seg, now, x');
    PositionsInjective(x.Base(), k, k');
  }

  /** Closing, and at once the acknowledgement of the FIN by a peer that has exactly the bytes before
      it: nothing is discarded too early if and only if `AllSent` held on closing. */
  lemma CloseDiscardsIff(e: Endpoint, seg: TcpSegment, now: real)
    requires Inv(e) && e.conn.tcb.state == Established
    requires seg.header.flags.ack && !seg.header.flags.rst
    requires seg.header.ackNum == SeqAdd(e.conn.tcb.snd.nxt, 1)
    ensures Next(Next(e, Close), Deliver(seg, now)).Discarded() <= e.nxt <==> AllSent(e.conn)
  {
    hide Next, Perform, QueueHolds, SeqSub;
    SeqAddAdd(e.Base(), e.nxt, 1);
    StepKeeps(e, Close);
    CloseDoes(e);
    FinWait1Ack(Next(e, Close), seg, now, e.nxt + 1);
    AllSentIff(e);
  }

  /** The position an acceptable acknowledgement names. */
  function Named(x: Endpoint, seg: TcpSegment): int {
    x.una + SeqSub(seg.header.ackNum, x.conn.tcb.snd.una)
  }

  /** Which segments make an established sender discard beyond position `r`, up to which the peer
      has everything: exactly the acceptable acknowledgements of a later position. */
  lemma AckDiscardsIff(x: Endpoint, seg: TcpSegment, now: real, r: nat)
    requires Inv(x) && x.conn.tcb.state == Established && x.Discarded() <= r
    ensures Next(x, Deliver(seg, now)).Discarded() > r
            <==> IsNewAck(x.conn, seg) && !seg.header.flags.rst && Named(x, seg) > r
  {
    hide SeqAdd, SeqSub, HandleEstablished, QueueStep, AckAcceptable;
    var x' := Moved(x, HandleEstablished(x.conn, seg, now).conn);
    assert Next(x, Deliver(seg, now)) == x';
    EstablishedSendSide(x.conn, seg, now);
    if IsNewAck(x.conn, seg) && !seg.header.flags.rst {
      WordsKept(x, x'.conn);
      var k := AckCarried(x, seg, now, x');
      SeqSubPositions(x.Base(), x.una, k);
    }
  }

  /** The same in FIN_WAIT_1, where a position behind everything written discards nothing: so both
      closing with unsent bytes and writing after the close expose the sender. */
  lemma FinWait1DiscardsIff(x: Endpoint, seg: TcpSegment, now: real, r: nat)
    requires Inv(x) && x.conn.tcb.state == FinWait1 && x.Discarded() <= r
    ensures Next(x, Deliver(seg, now)).Discarded() > r
            <==> IsNewAck(x.conn, seg) && !seg.header.flags.rst && r < Named(x, seg) <= |x.written|
  {
    hide SeqAdd, SeqSub, HandleEstablished, QueueStep, AckAcceptable;
    var x' := Moved(x, HandleFinWait1(x.conn, seg, now).conn);
    assert Next(x, Deliver(seg, now)) == x';
    if IsNewAck(x.conn, seg) && !seg.header.flags.rst {
      WordsKept(x, x'.conn);
      var k := AckCarried(x, seg, now, x');
      SeqSubPositions(x.Base(), x.una, k);
    }
  }

  /** What a connection sends before it has seen a SYN acknowledges number 0. */
  lemma EarlySegmentAcksZero(y: Endpoint, ev: Event, b: Builder)
    requires y.conn.recv.None? && y.conn.tcb.rcv.nxt == 0
    requires ev.Send? && b in Outputs(y, ev)
    ensures b.flags.ack && !b.flags.rst && b.ackNum == 0
  {
    hide SeqAdd, SeqSub, ProcessSegment;
  }

  /** Such a segment makes an established sender discard what the peer does not have exactly if the
      byte before number 0 is one that is in flight and the peer lacks. */
  lemma EarlySegmentDiscardsIff(x: Endpoint, seg: TcpSegment, now: real, r: nat)
    requires Inv(x) && x.conn.tcb.state == Established && x.una <= r
    requires |x.written| < 0x8000_0000 && r < 0x8000_0000
    requires seg.header.flags.ack && !seg.header.flags.rst && seg.header.ackNum == 0
    ensures Next(x, Deliver(seg, now)).Discarded() > r <==> r < SeqSub(0, x.Base()) <= x.nxt
  {
    hide Next, SeqAdd, SeqSub, QueueHolds;
    AckDiscardsIff(x, seg, now, r);
    AckPosition(x.Base(), x.una, 0, x.nxt);
    SeqSubPositions(x.Base(), 0, x.una);
    var p: int := SeqSub(0, x.Base());
    SeqAddSub(0, x.Base());
    if x.una < p <= x.nxt {
      SeqSubPositions(x.Base(), x.una, p);
      Small(p - x.una);
    }
    if k :| x.una < k <= x.nxt && 0 == SeqAdd(x.Base(), k) {
      SeqAddZero(x.Base());
      SeqSubPositions(x.Base(), 0, k);
      Small(k);
      SeqSubPositions(x.Base(), x.una, k);
      Small(k - x.una);
    }
  }

  lemma Small(n: int)
    requires 0 <= n < 0x1_0000_0000
    ensures n % 0x1_0000_0000 == n
  {}

  /** The reply of an established connection to a FIN. */
  lemma FinReply(y: Endpoint, fin: TcpSegment, now: real)
    requires y.conn.tcb.state == Established && y.conn.recv.Some?
    requires fin.header.flags.fin && !fin.header.flags.rst && fin.payload == []
    requires AckEstablished(y.conn, fin, now).out.None?
    ensures var out := Outputs(y, Deliver(fin, now));
            && |out| == 1 && out[0].flags == NO_FLAGS.(ack := true)
            && out[0].ackNum == SeqAdd(fin.header.seqNum, 1)
    ensures Next(y, Deliver(fin, now)).Received() == y.Received()
  {
    hide SeqSub, AckEstablished;
    AckPartReceives(y.conn, fin, now);
    SeqAddZero(fin.header.seqNum);
    assert Perform(y.conn, Deliver(fin, now)) == OneOrNone(HandleEstablished(y.conn, fin, now));
  }

  /** A FIN delivered to a peer that has `y.Received()` bytes, and its reply delivered back: `snd.una`
      stays within one of what the peer has exactly if the FIN arrived in order. */
  lemma FinAcknowledgedIff(x: Endpoint, y: Endpoint, fin: TcpSegment, now: real)
    requires Inv(x) && x.conn.tcb.state == FinWait1 && x.una <= |x.written| < 0x8000_0000
    requires x.nxt == |x.written| + 1
    requires y.conn.tcb.state == Established && y.conn.recv.Some?
    requires y.conn.recv.value.nxt == SeqAdd(x.Base(), y.Received()) && y.Received() <= |x.written|
    requires fin.header.flags.fin && !fin.header.flags.rst && fin.payload == []
    requires fin.header.seqNum == SeqAdd(x.Base(), |x.written|)
    requires AckEstablished(y.conn, fin, now).out.None?
    ensures var y' := Next(y, Deliver(fin, now));
            var out := Outputs(y, Deliver(fin, now));
            && |out| == 1
            && (Next(x, Deliver(out[0].Received(), now)).una <= y'.Received() + 1
                <==> fin.header.seqNum == y.conn.recv.value.nxt)
  {
    hide Next, Outputs, SeqAdd, SeqSub, QueueHolds, AckEstablished;
    FinReply(y, fin, now);
    SeqAddAdd(x.Base(), |x.written|, 1);
    var out := Outputs(y, Deliver(fin, now));
    FinWait1Ack(x, out[0].Received(), now, |x.written| + 1);
    PositionsInjective(x.Base(), |x.written|, y.Received());
  }
}
