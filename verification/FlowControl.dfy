/** Acknowledgements between two connections: nothing is discarded before the peer has it.
    Everything is proved for the direction from `x` to `y`; the other direction is the mirror
    image. */
module FlowControl {
  import opened SeqArith
  import opened TcpHeaders
  import opened Tcbs
  import opened ConnectionSpec
  import opened Endpoints
  import opened ReceiveSide
  import opened SendSide
  import opened Network
  import opened Lifecycle
  import Ring

  /** Everything written has been transmitted, and `snd.nxt` stands behind it. */
  predicate AllSent(c: Conn) { c.tcb.snd.nxt == SeqAdd(c.send.una, |c.send.data|) }

  lemma AllSentIff(e: Endpoint)
    requires Inv(e) && Transferring(e.conn)
    ensures AllSent(e.conn) <==> e.nxt == |e.written|
    ensures AllSent(e.conn) ==> e.sent == |e.written|
  {
    SeqAddAdd(e.Base(), e.Discarded(), |e.conn.send.data|);
    PositionsInjective(e.Base(), e.nxt, |e.written|);
  }

  ghost predicate FinSent(s: System) { exists b :: b in s.fromX && b.flags.fin }

  /** No data goes out before the peer's SYN was seen. */
  predicate SendsHeard(c: Conn, ev: Event) {
    ev.Send? && Sends(c, ev.maxPayload) ==> c.recv.Some?
  }

  /** `x` closes when everything it wrote has been transmitted and writes nothing afterwards, and
      `y` sends data only after it has seen the peer's SYN. */
  ghost predicate Careful(s: System, m: Move) {
    && Lawful(s, m)
    && (m.AtX? && m.ev.Close? && Transferring(s.x.conn) ==> AllSent(s.x.conn))
    && (m.AtX? && m.ev.Write? ==> !FinSent(s))
    && (m.AtY? ==> SendsHeard(s.y.conn, m.ev))
  }

  /** A FIN that `y` processes starts at the byte it expects. */
  ghost predicate FinInOrder(s: System, m: Move) {
    m.AtY? && HearsFin(s.y.conn, m.ev) && s.y.conn.recv.Some? ==>
      SeqAdd(m.ev.seg.header.seqNum, |m.ev.seg.payload|) == s.y.conn.recv.value.nxt
  }

  ghost predicate CarefulInOrder(s: System, m: Move) { Careful(s, m) && FinInOrder(s, m) }

  ghost function Rule(strict: bool): (System, Move) -> bool {
    if strict then CarefulInOrder else Careful
  }

  /** The position behind `x`'s FIN, once it may have been acknowledged; otherwise -1.  If FINs are
      processed in order (`strict`), that is not before `y` has everything. */
  ghost function FinEnd(s: System, strict: bool): int {
    if FinSent(s) && (strict ==> s.y.Received() == |s.x.written|) then |s.x.written| + 1 else -1
  }

  /** An acknowledgement names a position the receiver has reached, with a window that ends inside
      the receiver's ring, or the position behind the FIN. */
  ghost predicate AckHolds(base: u32, end: int, y: Endpoint, b: Builder) {
    b.flags.ack ==> exists p: nat :: AckAt(base, end, y, b, p)
  }

  ghost predicate AckAt(base: u32, end: int, y: Endpoint, b: Builder, p: nat) {
    && b.ackNum == SeqAdd(base, p)
    && ((p <= y.Received() && p + b.window <= |y.read| + Ring.CAPACITY) || p == end)
  }

  /** The acknowledgement number of `y` is the receive buffer's until the FIN is processed. */
  ghost predicate RcvHolds(base: u32, end: int, y: Endpoint) {
    y.conn.recv.Some? ==>
      || y.conn.tcb.rcv.nxt == y.conn.recv.value.nxt
      || (end >= 0 && y.conn.tcb.rcv.nxt == SeqAdd(base, end)
          && !Opening(y.conn) && y.conn.tcb.state != Established)
  }

  /** `x` has closed properly or not at all. */
  ghost predicate ClosedProperly(s: System) {
    && (forall b :: b in s.fromX && b.flags.fin ==>
          b.payload == [] && b.seqNum == SeqAdd(s.x.Base(), |s.x.written|))
    && (if FinSent(s) then !BeforeFin(s.x.conn) && s.x.sent == |s.x.written|
        else !FinOut(s.x.conn))
  }

  /** `y` acknowledges what it has, and `x` has discarded no more than that. */
  ghost predicate Acknowledges(s: System, strict: bool) {
    var base, end := s.x.Base(), FinEnd(s, strict);
    && Carries(s.x, s.fromX, s.y) && ClosedProperly(s)
    && RcvHolds(base, end, s.y)
    && (s.y.conn.recv.None? ==> s.y.conn.rtx.entries == [])
    && (forall b :: b in s.fromY ==> AckHolds(base, end, s.y, b))
    && s.x.Discarded() <= s.y.Received()
    && (s.x.una <= s.y.Received() || s.x.una == end)
  }

  lemma ReceivedBounded(s: System)
    requires Carries(s.x, s.fromX, s.y)
    ensures s.y.Received() <= s.x.sent <= |s.x.written| < 0x8000_0000
    ensures s.y.conn.recv.Some? ==>
              s.y.conn.recv.value.nxt == SeqAdd(s.x.Base(), s.y.Received())
  {
    hide SeqAdd;
  }

  lemma EstablishedAcknowledges(c: Conn, seg: TcpSegment, now: real)
    ensures var r := HandleEstablished(c, seg, now);
            r.out.Some? ==> r.out.value.ackNum == r.conn.tcb.rcv.nxt
                            && r.out.value.window == r.conn.CurrentWindow()
                            && r.conn.recv.Some? == c.recv.Some?
  {
    hide SeqAdd, SeqSub, AckAcceptable, GrownCwnd, HalvedWindow;
  }

  lemma DeliverAcknowledges(c: Conn, seg: TcpSegment, now: real)
    requires c.recv.None? ==> c.tcb.state in {Listen, SynSent, Closed}
    ensures var r := ProcessSegment(c, seg, now);
            r.out.Some? && r.out.value.flags.ack ==>
              r.conn.recv.Some? && r.out.value.ackNum == r.conn.tcb.rcv.nxt
              && r.out.value.window == r.conn.CurrentWindow()
  {
    hide SeqAdd, SeqSub, AckAcceptable, HandleEstablished;
    if c.tcb.state == Established { EstablishedAcknowledges(c, seg, now); }
  }

  /** Every segment with the ACK flag carries the current next expected number and window - also
      before the peer's SYN was seen, when that number is still 0. */
  lemma OutputsAcknowledge(y: Endpoint, ev: Event)
    requires Inv(y) && Proper(y, ev)
    ensures forall b :: b in Outputs(y, ev) && b.flags.ack ==>
              var c' := Next(y, ev).conn;
              b.ackNum == c'.tcb.rcv.nxt && b.window == c'.CurrentWindow()
  {
    hide SeqAdd, SeqSub, ProcessSegment, QueueHolds, RingHolds, WordsHold;
    if ev.Deliver? { DeliverAcknowledges(y.conn, ev.seg, ev.now); }
  }

  /** With nothing sent before the peer's SYN, only a connection that has seen it acknowledges. */
  lemma OutputsHeard(y: Endpoint, ev: Event)
    requires Inv(y) && Proper(y, ev) && SendsHeard(y.conn, ev)
    requires y.conn.recv.None? ==> y.conn.rtx.entries == []
    ensures forall b :: b in Outputs(y, ev) && b.flags.ack ==> Next(y, ev).conn.recv.Some?
  {
    hide SeqAdd, SeqSub, ProcessSegment, QueueHolds, RingHolds, WordsHold, Sends;
    if ev.Deliver? { DeliverAcknowledges(y.conn, ev.seg, ev.now); }
    TransmitsIff(y, ev);
  }

  lemma AckPartReceives(c: Conn, seg: TcpSegment, now: real)
    ensures var c' := AckEstablished(c, seg, now).conn;
            c'.recv == c.recv && c'.tcb.rcv == c.tcb.rcv && c'.tcb.state == c.tcb.state
  {
    hide SeqAdd, SeqSub, AckAcceptable, GrownCwnd, HalvedWindow, SaturatingAdd;
  }

  /** What a segment can do to the acknowledgement number. */
  predicate RcvStep(c: Conn, seg: TcpSegment, now: real, c': Conn) {
    || (c'.tcb.rcv.nxt == c.tcb.rcv.nxt && c'.recv == c.recv
        && (Opening(c') ==> Opening(c))
        && (c'.tcb.state == Established ==> c.tcb.state == Established || Opening(c)))
    || (c'.recv.Some? && c'.tcb.rcv.nxt == c'.recv.value.nxt)
    || (HearsFin(c, Deliver(seg, now)) && c'.tcb.rcv.nxt == AfterFin(seg)
        && c'.tcb.state in {CloseWait, Closing, TimeWait})
  }

  lemma EstablishedRcv(c: Conn, seg: TcpSegment, now: real)
    requires c.tcb.state == Established && c.recv.Some?
    ensures RcvStep(c, seg, now, HandleEstablished(c, seg, now).conn)
  {
    hide AckEstablished, AfterFin, ResendsHead;
    AckPartReceives(c, seg, now);
    AckReplies(c, seg, now);
  }

  lemma DeliverRcv(c: Conn, seg: TcpSegment, now: real)
    requires c.recv.None? ==> c.tcb.state in {Listen, SynSent, Closed}
    ensures RcvStep(c, seg, now, ProcessSegment(c, seg, now).conn)
  {
    hide SeqAdd, SeqSub, AckAcceptable, HandleEstablished, AfterFin;
    if c.tcb.state == Established { EstablishedRcv(c, seg, now); }
  }

  /** The acknowledgement number after any event. */
  lemma StepRcv(y: Endpoint, ev: Event, base: u32, end: int)
    requires Inv(y) && Proper(y, ev) && RcvHolds(base, end, y)
    requires HearsFin(y.conn, ev) ==> end >= 0 && AfterFin(ev.seg) == SeqAdd(base, end)
    ensures RcvHolds(base, end, Next(y, ev))
  {
    hide SeqAdd, SeqSub, ProcessSegment, QueueHolds, RingHolds, WordsHold;
    if ev.Deliver? { DeliverRcv(y.conn, ev.seg, ev.now); }
  }

  lemma NewOutputsAckHold(base: u32, end: int, stream: seq<u8>, y: Endpoint, ev: Event)
    requires Inv(y) && Proper(y, ev) && SendsHeard(y.conn, ev)
    requires y.conn.recv.None? ==> y.conn.rtx.entries == []
    requires RcvHolds(base, end, Next(y, ev)) && Hears(Next(y, ev), base, stream)
    ensures forall b :: b in Outputs(y, ev) ==> AckHolds(base, end, Next(y, ev), b)
  {
    hide Perform;
    OutputsAcknowledge(y, ev);
    OutputsHeard(y, ev);
    var y' := Next(y, ev);
    forall b | b in Outputs(y, ev) && b.flags.ack ensures AckHolds(base, end, y', b) {
      if y'.conn.tcb.rcv.nxt == y'.conn.recv.value.nxt {
        assert AckAt(base, end, y', b, y'.Received());
      } else {
        assert AckAt(base, end, y', b, end);
      }
    }
  }

  lemma AckStays(base: u32, end: int, end': int, y: Endpoint, y': Endpoint, b: Builder)
    requires AckHolds(base, end, y, b) && y.Received() <= y'.Received() && |y.read| <= |y'.read|
    requires end == end' || end < 0
    ensures AckHolds(base, end', y', b)
  {
    if b.flags.ack {
      var p: nat :| AckAt(base, end, y, b, p);
      assert AckAt(base, end', y', b, p);
    }
  }

  /** A FIN that `y` processes ends at the position this run allows. */
  lemma HeardFin(s: System, ev: Event, strict: bool)
    requires Acknowledges(s, strict) && Rule(strict)(s, AtY(ev)) && HearsFin(s.y.conn, ev)
    ensures var end := FinEnd(s, strict);
            end >= 0 && AfterFin(ev.seg) == SeqAdd(s.x.Base(), end)
  {
    hide Next, Carries, BeforeFin, FinOut;
    assert Carries(s.x, s.fromX, s.y);
    ReceivedBounded(s);
    StateHasBuffer(s);
    var b :| b in s.fromX && ev.seg == b.Received();
    assert FinSent(s);
    SeqAddAdd(s.x.Base(), |s.x.written|, 1);
    SeqAddZero(b.seqNum);
    PositionsInjective(s.x.Base(), |s.x.written|, s.y.Received());
  }

  lemma StateHasBuffer(s: System)
    requires Carries(s.x, s.fromX, s.y)
    ensures s.y.conn.tcb.state in {Established, FinWait1, FinWait2} ==> s.y.conn.recv.Some?
  {}

  /** A connection that has not heard from its peer queues nothing. */
  lemma QueueStaysEmpty(y: Endpoint, ev: Event)
    requires Inv(y) && Proper(y, ev) && (y.conn.recv.None? ==> y.conn.rtx.entries == [])
    requires SendsHeard(y.conn, ev)
    ensures Next(y, ev).conn.recv.None? ==> Next(y, ev).conn.rtx.entries == []
  {
    hide SeqAdd, SeqSub, ProcessSegment, QueueHolds, RingHolds, WordsHold, Sends;
    TransmitsIff(y, ev);
    if ev.Deliver? { BufferStays(y.conn, ev.seg, ev.now); }
  }

  lemma BufferStays(c: Conn, seg: TcpSegment, now: real)
    requires c.recv.None? ==> c.tcb.state in {Listen, SynSent, Closed}
    ensures var c' := ProcessSegment(c, seg, now).conn;
            c'.recv.None? ==> c.recv.None? && c'.rtx == c.rtx
  {
    hide SeqAdd, SeqSub, AckAcceptable, HandleEstablished;
    if c.tcb.state == Established { EstablishedOutcome(c, seg, now); }
  }

  lemma EndStays(s: System, ev: Event, strict: bool)
    requires Acknowledges(s, strict) && Rule(strict)(s, AtY(ev))
    requires Carries(s.x, s.fromX, Next(s.y, ev)) && s.y.Received() <= Next(s.y, ev).Received()
    ensures var end, end' := FinEnd(s, strict), FinEnd(After(s, AtY(ev)), strict);
            end == end' || end < 0
  {
    hide Next, Carries;
    var s' := After(s, AtY(ev));
    assert s'.x == s.x && s'.fromX == s.fromX && FinSent(s) == FinSent(s');
    ReceivedBounded(s');
  }

  /** `y` moves: what it acknowledged stays acknowledged. */
  lemma HearerAcknowledges(s: System, ev: Event, strict: bool)
    requires Acknowledges(s, strict) && Rule(strict)(s, AtY(ev))
    ensures Acknowledges(After(s, AtY(ev)), strict)
  {
    hide Next, Outputs, Carries, FinEnd, RcvHolds, AckHolds, ClosedProperly, HearsFin;
    StateHasBuffer(s);
    var y', s' := Next(s.y, ev), After(s, AtY(ev));
    var end, end' := FinEnd(s, strict), FinEnd(s', strict);
    HearerMoves(s.x, s.fromX, s.y, ev);
    EndStays(s, ev, strict);
    if HearsFin(s.y.conn, ev) { HeardFin(s, ev, strict); }
    CarriedSides(s);
    CarriedSides(s');
    StepRcv(s.y, ev, s.x.Base(), end);
    RcvWeakens(s.x.Base(), end, end', y');
    HearerAcks(s, ev, strict);
    QueueStaysEmpty(s.y, ev);
    SameClose(s, s');
    UnaStays(s, s', strict);
  }

  lemma SameClose(s: System, s': System)
    requires ClosedProperly(s) && s'.x == s.x && s'.fromX == s.fromX
    ensures ClosedProperly(s')
  {
    assert FinSent(s) == FinSent(s');
  }

  lemma HearerAcks(s: System, ev: Event, strict: bool)
    requires Acknowledges(s, strict) && Rule(strict)(s, AtY(ev))
    requires var s' := After(s, AtY(ev));
             && Carries(s'.x, s'.fromX, s'.y) && s.y.Received() <= s'.y.Received()
             && RcvHolds(s.x.Base(), FinEnd(s', strict), s'.y)
             && (FinEnd(s', strict) == FinEnd(s, strict) || FinEnd(s, strict) < 0)
    ensures var s' := After(s, AtY(ev));
            forall b :: b in s'.fromY ==> AckHolds(s.x.Base(), FinEnd(s', strict), s'.y, b)
  {
    hide Next, Outputs, Carries, FinEnd, RcvHolds, ClosedProperly, AckHolds;
    var y', s' := Next(s.y, ev), After(s, AtY(ev));
    var end, end' := FinEnd(s, strict), FinEnd(s', strict);
    CarriedSides(s);
    CarriedSides(s');
    NewOutputsAckHold(s.x.Base(), end', SentPart(s.x), s.y, ev);
    ReadGrows(s.y, ev);
    forall b | b in s'.fromY ensures AckHolds(s.x.Base(), end', y', b) {
      if b in s.fromY { AckStays(s.x.Base(), end, end', s.y, y', b); }
    }
  }

  lemma UnaStays(s: System, s': System, strict: bool)
    requires Acknowledges(s, strict) && s'.x == s.x && s'.fromX == s.fromX
    requires s.y.Received() <= s'.y.Received() && s'.y.Received() <= |s.x.written|
    ensures s'.x.una <= s'.y.Received() || s'.x.una == FinEnd(s', strict)
  {
    assert FinSent(s) == FinSent(s');
  }

  lemma CarriedSides(s: System)
    requires Carries(s.x, s.fromX, s.y)
    ensures Inv(s.x) && Inv(s.y) && Hears(s.y, s.x.Base(), SentPart(s.x))
    ensures s.y.Received() <= |s.x.written|
  {
    ReceivedBounded(s);
  }

  lemma ReadGrows(y: Endpoint, ev: Event)
    ensures |y.read| <= |Next(y, ev).read|
  {
    hide Perform;
  }

  lemma RcvWeakens(base: u32, end: int, end': int, y: Endpoint)
    requires RcvHolds(base, end, y) && (end == end' || end < 0)
    ensures RcvHolds(base, end', y)
  {}

  /** What a delivered segment does to the send side: nothing, or it moves `una` to the position it
      acknowledges and, until a FIN was sent, takes the window from the same segment.  A position
      beyond what was written discards nothing. */
  ghost predicate AckStep(x: Endpoint, seg: TcpSegment, x': Endpoint) {
    || (x'.una == x.una && x'.Discarded() == x.Discarded() && WindowStays(x, x'))
    || (seg.header.flags.ack && 0 <= x'.una <= x.nxt
        && seg.header.ackNum == SeqAdd(x.Base(), x'.una)
        && x'.Discarded() <= Max(x.Discarded(), x'.una)
        && (x'.una > |x.written| ==> x'.Discarded() == x.Discarded())
        && (Joined(x, x') ==> x'.conn.tcb.snd.wnd == seg.header.window))
  }

  /** Past the handshake, and not past the own FIN. */
  predicate Joined(x: Endpoint, x': Endpoint) { !Opening(x'.conn) && !FinOut(x.conn) }

  predicate WindowStays(x: Endpoint, x': Endpoint) {
    Joined(x, x') ==> !Opening(x.conn) && x'.conn.tcb.snd.wnd == x.conn.tcb.snd.wnd
  }

  lemma EstablishedAckStep(x: Endpoint, seg: TcpSegment, now: real)
    requires Inv(x) && x.conn.tcb.state == Established
    ensures AckStep(x, seg, Moved(x, HandleEstablished(x.conn, seg, now).conn))
  {
    hide SeqAdd, SeqSub, HandleEstablished, QueueStep;
    var x' := Moved(x, HandleEstablished(x.conn, seg, now).conn);
    EstablishedSendSide(x.conn, seg, now);
    if IsNewAck(x.conn, seg) && !seg.header.flags.rst {
      WordsKept(x, x'.conn);
      var k := AckCarried(x, seg, now, x');
    }
  }

  lemma FinWait1AckStep(x: Endpoint, seg: TcpSegment, now: real)
    requires Inv(x) && x.conn.tcb.state == FinWait1
    ensures AckStep(x, seg, Moved(x, HandleFinWait1(x.conn, seg, now).conn))
  {
    hide SeqAdd, SeqSub, QueueStep;
    var x' := Moved(x, HandleFinWait1(x.conn, seg, now).conn);
    if IsNewAck(x.conn, seg) && !seg.header.flags.rst {
      WordsKept(x, x'.conn);
      var k := AckCarried(x, seg, now, x');
    }
  }

  lemma SynReceivedAckStep(x: Endpoint, seg: TcpSegment)
    requires Inv(x) && x.conn.tcb.state == SynReceived
    ensures AckStep(x, seg, Moved(x, HandleSynReceived(x.conn, seg).conn))
  {
    hide SeqAdd, SeqSub;
    var x' := Moved(x, HandleSynReceived(x.conn, seg).conn);
    if x'.conn.tcb.state == Established {
      var k := AckMoves(x, seg.header.ackNum);
      RingAcknowledged(x, seg.header.ackNum, k, x'.conn.send);
    }
  }

  lemma OtherSendSide(c: Conn, seg: TcpSegment, now: real)
    requires c.tcb.state !in {Established, FinWait1, SynReceived}
    requires c.tcb.state == SynSent ==> c.recv.None?
    ensures var c' := ProcessSegment(c, seg, now).conn;
            && c'.send == c.send && c'.tcb.snd.iss == c.tcb.snd.iss
            && ((c'.tcb.snd.una == c.tcb.snd.una
                 && (!Opening(c') && !FinOut(c) ==>
                       !Opening(c) && c'.tcb.snd.wnd == c.tcb.snd.wnd))
                || (IsNewAck(c, seg) && c'.tcb.snd.una == seg.header.ackNum
                    && (!Opening(c') && !FinOut(c) ==> c'.tcb.snd.wnd == seg.header.window)))
  {
    hide SeqAdd, SeqSub, AckAcceptable, HandleEstablished;
  }

  lemma OtherAckStep(x: Endpoint, seg: TcpSegment, now: real)
    requires Inv(x) && x.conn.tcb.state !in {Established, FinWait1, SynReceived}
    ensures AckStep(x, seg, Moved(x, ProcessSegment(x.conn, seg, now).conn))
  {
    hide SeqAdd, SeqSub, ProcessSegment, QueueHolds;
    OtherSendSide(x.conn, seg, now);
    if IsNewAck(x.conn, seg) {
      var k := AckMoves(x, seg.header.ackNum);
    }
  }

  lemma DeliverAckStep(x: Endpoint, seg: TcpSegment, now: real)
    requires Inv(x)
    ensures AckStep(x, seg, Next(x, Deliver(seg, now)))
  {
    hide SeqAdd, SeqSub, HandleEstablished, AckStep;
    assert Next(x, Deliver(seg, now)) == Moved(x, ProcessSegment(x.conn, seg, now).conn);
    match x.conn.tcb.state
    case Established => EstablishedAckStep(x, seg, now);
    case SynReceived => SynReceivedAckStep(x, seg);
    case FinWait1 => FinWait1AckStep(x, seg, now);
    case _ => OtherAckStep(x, seg, now);
  }

  /** A position acknowledged by a segment from `y` is one `y` has reached, or behind the FIN. */
  lemma AcknowledgedPosition(base: u32, end: int, y: Endpoint, b: Builder, k: int)
    requires AckHolds(base, end, y, b) && b.flags.ack && y.Received() < 0x8000_0000
    requires 0 <= k <= 0x8000_0000 && end <= 0x8000_0000 && b.ackNum == SeqAdd(base, k)
    ensures (k <= y.Received() && k + b.window <= |y.read| + Ring.CAPACITY) || k == end
  {
    var p: nat :| AckAt(base, end, y, b, p);
    PositionsInjective(base, p, k);
  }

  /** `x` receives a segment from `y`: the effect on its send side, in positions. */
  lemma SpeakerHears(s: System, ev: Event, strict: bool)
    requires Acknowledges(s, strict) && Rule(strict)(s, AtX(ev)) && ev.Deliver?
    ensures var x', end := Next(s.x, ev), FinEnd(s, strict);
            && (x'.una <= s.y.Received() || x'.una == end) && x'.Discarded() <= s.y.Received()
            && ((x'.una == s.x.una && WindowStays(s.x, x'))
                || x'.una == end
                || (Joined(s.x, x') ==>
                      x'.una + x'.conn.tcb.snd.wnd <= |s.y.read| + Ring.CAPACITY))
  {
    hide Next, Carries, ClosedProperly, RcvHolds, SeqAdd, SeqSub, AckHolds;
    ReceivedBounded(s);
    CarriedSides(s);
    var x', end := Next(s.x, ev), FinEnd(s, strict);
    var b :| b in s.fromY && ev.seg == b.Received();
    DeliverAckStep(s.x, ev.seg, ev.now);
    if !(x'.una == s.x.una && x'.Discarded() == s.x.Discarded() && WindowStays(s.x, x')) {
      NxtBounded(s.x);
      AcknowledgedPosition(s.x.Base(), end, s.y, b, x'.una);
    }
  }

  lemma NxtBounded(x: Endpoint)
    requires Inv(x)
    ensures x.nxt <= x.sent + 1 <= |x.written| + 1
  {}

  lemma SpeakerLocal(x: Endpoint, ev: Event)
    requires Inv(x) && Proper(x, ev) && !ev.Deliver?
    ensures var x' := Next(x, ev);
            && x'.una == x.una && x'.Discarded() == x.Discarded()
            && x'.conn.tcb.snd.wnd == x.conn.tcb.snd.wnd
            && (!Opening(x'.conn) ==> !Opening(x.conn))
  {
    hide SeqAdd, SeqSub, ProcessSegment;
  }

  /** `x` stays properly closed, or closes properly. */
  lemma SpeakerCloses(s: System, ev: Event, strict: bool)
    requires Acknowledges(s, strict) && Rule(strict)(s, AtX(ev))
    ensures ClosedProperly(After(s, AtX(ev)))
    ensures FinSent(s) ==> Next(s.x, ev).written == s.x.written
  {
    hide Next, Outputs, RcvHolds, AckHolds, BeforeFin, FinOut;
    CarriedSides(s);
    var x', s' := Next(s.x, ev), After(s, AtX(ev));
    StepKeeps(s.x, ev);
    StepDoes(s.x, ev);
    FinOutputs(s.x, ev);
    BufferedStates(s.x);
    FinStep(s.x, ev);
    WritesOnly(s.x, ev);
    if FinSent(s) {
      var b :| b in s.fromX && b.flags.fin;
      assert b in s'.fromX;
    }
    if ev.Close? && Transferring(s.x.conn) {
      AllSentIff(s.x);
      assert s.x.conn.BuildFinAck() in Outputs(s.x, ev);
      assert s.x.conn.BuildFinAck() in s'.fromX;
    }
    if FinSent(s') && !FinSent(s) { StillBeforeFin(s.x); }
  }

  lemma StillBeforeFin(x: Endpoint)
    ensures Transferring(x.conn) ==> BeforeFin(x.conn)
  {}

  lemma BufferedStates(x: Endpoint)
    requires Inv(x)
    ensures x.conn.recv.None? ==> x.conn.tcb.state in {Listen, SynSent, Closed}
  {}

  lemma WritesOnly(x: Endpoint, ev: Event)
    ensures !ev.Write? ==> Next(x, ev).written == x.written
  {
    hide Perform;
  }

  lemma SpeakerAcknowledges(s: System, ev: Event, strict: bool)
    requires Acknowledges(s, strict) && Rule(strict)(s, AtX(ev))
    ensures Acknowledges(After(s, AtX(ev)), strict)
  {
    hide Next, Outputs, Carries, ClosedProperly, RcvHolds, AckHolds;
    CarriedSides(s);
    var x', s' := Next(s.x, ev), After(s, AtX(ev));
    SpeakerMoves(s.x, s.fromX, s.y, ev);
    SpeakerCloses(s, ev, strict);
    var end, end' := FinEnd(s, strict), FinEnd(s', strict);
    if FinSent(s) {
      var b :| b in s.fromX && b.flags.fin;
      assert b in s'.fromX;
    }
    RcvWeakens(s.x.Base(), end, end', s.y);
    forall b | b in s'.fromY ensures AckHolds(x'.Base(), end', s.y, b) {
      AckStays(s.x.Base(), end, end', s.y, s.y, b);
    }
    if ev.Deliver? { SpeakerHears(s, ev, strict); } else { SpeakerLocal(s.x, ev); }
  }

  lemma {:induction false} RunAcknowledges(s: System, ms: seq<Move>, strict: bool)
    requires Acknowledges(s, strict) && AllObey(s, ms, Rule(strict))
    ensures Acknowledges(ExecAll(s, ms), strict)
    decreases |ms|
  {
    hide Acknowledges, After;
    if ms != [] {
      match ms[0] {
        case AtX(ev) => SpeakerAcknowledges(s, ev, strict);
        case AtY(ev) => HearerAcknowledges(s, ev, strict);
      }
      RunAcknowledges(After(s, ms[0]), ms[1..], strict);
    }
  }

  lemma StartedAcknowledges(s: System, strict: bool)
    requires Started(s)
    ensures Acknowledges(s, strict)
  {
    StartedCarries(s);
  }

  /** The direction from `x` to `y`: every byte that has left the send ring of `x` has been put in
      order by `y`, which has nothing that `x` has not transmitted; and `snd.una` and the peer's
      `rcv.nxt` name positions up to what `y` has, or just behind the FIN. */
  ghost predicate NothingLost(s: System) {
    var x, y := s.x, s.y;
    && x.Discarded() <= y.Received() <= x.sent
    && x.conn.tcb.snd.una == SeqAdd(x.Base(), x.una)
    && (x.una <= y.Received() || (FinSent(s) && x.una == |x.written| + 1))
    && (y.conn.recv.Some? ==>
          || y.conn.tcb.rcv.nxt == SeqAdd(x.Base(), y.Received())
          || (FinSent(s) && y.conn.tcb.rcv.nxt == SeqAdd(x.Base(), |x.written| + 1)))
  }

  lemma AcknowledgesLosesNothing(s: System, strict: bool)
    requires Acknowledges(s, strict)
    ensures NothingLost(s)
    ensures strict ==> s.x.una <= s.y.Received() + 1
                       && (s.x.una > s.y.Received() ==> s.y.Received() == |s.x.written|)
  {
    ReceivedBounded(s);
  }

  /** No premature discard, through the close: however old, duplicated or reordered the
      acknowledgements were, and whether or not FINs arrived in order. */
  lemma NoPrematureDiscard(s0: System, ms: seq<Move>)
    requires Started(s0) && AllObey(s0, ms, Careful)
    ensures NothingLost(ExecAll(s0, ms))
  {
    StartedAcknowledges(s0, false);
    RunAcknowledges(s0, ms, false);
    AcknowledgesLosesNothing(ExecAll(s0, ms), false);
  }

  /** The same from `y` to `x`. */
  lemma NoPrematureDiscardBack(s0: System, ms: seq<Move>)
    requires Started(s0) && AllObey(s0, ms, Flip(Careful))
    ensures NothingLost(Mirror(ExecAll(s0, ms)))
  {
    MirrorRun(s0, ms, Careful);
    NoPrematureDiscard(Mirror(s0), MirrorMoves(ms));
  }

  /** If moreover every FIN that `y` processed was in order, `snd.una` is never more than the FIN
      ahead of what `y` has, and then `y` has everything. */
  lemma FinAcknowledgedLast(s0: System, ms: seq<Move>)
    requires Started(s0) && AllObey(s0, ms, CarefulInOrder)
    ensures var s := ExecAll(s0, ms);
            && NothingLost(s) && s.x.una <= s.y.Received() + 1
            && (s.x.una > s.y.Received() ==> s.y.Received() == |s.x.written|)
  {
    StartedAcknowledges(s0, true);
    RunAcknowledges(s0, ms, true);
    AcknowledgesLosesNothing(ExecAll(s0, ms), true);
  }
}
