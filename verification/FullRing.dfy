/** A two-party run that fills the receive ring byte by byte and then probes: the probe is lost. */
module FullRing {
  import opened SeqArith
  import opened TcpHeaders
  import opened Tcbs
  import opened RecvBuffers
  import opened ConnectionSpec
  import opened Endpoints
  import opened SendSide
  import opened Agreement
  import opened Network
  import opened Overrun
  import opened Scenarios
  import opened Failures
  import Ring

  /** The sender after `k` bytes that were all acknowledged. */
  ghost predicate Drained(x: Endpoint, k: nat) {
    && Inv(x) && Agrees(x) && x.conn.tcb.state == Established
    && x.una == k && x.nxt == k && x.sent == k && |x.written| == k && x.Discarded() == k
    && x.conn.tcb.snd.wnd == Min(Ring.CAPACITY - k, 65535)
  }

  /** The receiver, whose application reads nothing. */
  ghost predicate Filled(y: Endpoint, base: u32, k: nat) {
    && Inv(y) && y.conn.tcb.state == Established && y.una == 0 && y.nxt == 0
    && y.read == [] && y.written == []
    && y.conn.recv.Some? && y.conn.recv.value.ooo == map[] && |y.conn.recv.value.data| == k
    && y.conn.recv.value.nxt == SeqAdd(base, k)
  }

  ghost predicate Pumped(s0: System, s: System, k: nat) {
    && Reachable(s0, s) && k <= Ring.CAPACITY
    && Drained(s.x, k) && Filled(s.y, s.x.Base(), k)
    && s.x.conn.tcb.rcv.nxt == s.y.Base()
  }

  lemma Start(s0: System) returns (s: System)
    requires Started(s0) && s0.x.conn.tcb.state == Closed && s0.y.conn.tcb.state == Listen
    ensures Pumped(s0, s, 0)
  {
    hide Next, Perform, Reachable;
    s := FullHandshake(s0);
    ConnectedAgrees(s.x, 65535);
    ConnectedIsOpen(s.x);
    SeqAddZero(s.x.Base());
  }

  /** What a data segment looks like. */
  lemma DataSegment(e: Endpoint, ev: Event, b: Builder)
    requires (ev.Send? || ev.Probe?) && b in Outputs(e, ev)
    ensures b.flags.ack && !b.flags.rst && !b.flags.fin && !b.flags.syn
    ensures b.ackNum == e.conn.tcb.rcv.nxt
    ensures var c' := Next(e, ev).conn;
            c'.tcb.rcv == e.conn.tcb.rcv && c'.tcb.state == e.conn.tcb.state && c'.recv == e.conn.recv
  {
    hide SeqAdd, SeqSub, ProcessSegment;
  }

  /** The sender takes one more byte and sends it. */
  lemma SendByte(s0: System, s: System, k: nat) returns (s': System, b: Builder)
    requires Pumped(s0, s, k) && k < Ring.CAPACITY
    ensures Reachable(s0, s') && s'.y == s.y && b in s'.fromX
    ensures var x := s'.x;
            && Inv(x) && Agrees(x) && x.conn.tcb.state == Established && x.Base() == s.x.Base()
            && x.una == k && x.nxt == k + 1 && x.sent == k + 1 && |x.written| == k + 1
            && x.Discarded() == k && x.conn.tcb.rcv == s.x.conn.tcb.rcv
    ensures b.seqNum == SeqAdd(s.x.Base(), k) && |b.payload| == 1 && b.ackNum == s.y.Base()
    ensures b.flags.ack && !b.flags.rst && !b.flags.fin && !b.flags.syn
  {
    hide Next, Perform, Reachable, Inv, Agrees;
    var w, snd := Write([0]), Send(1, 0.0);
    WindowOpen(s.x, k);
    WriteDoes(s.x, [0]);
    WriteKeepsTcb(s.x, [0]);
    WrittenAgrees(s.x, Next(s.x, w));
    ReachStep(s0, s, AtX(w));
    var s1 := After(s, AtX(w));
    SameFlight(s.x, s1.x);
    SendDoes(s1.x, 1);
    b := Outputs(s1.x, snd)[0];
    FirstTransmission(s1.x, snd, b);
    DataSegment(s1.x, snd, b);
    ReachStep(s0, s1, AtX(snd));
    s' := After(s1, AtX(snd));
  }

  lemma WindowOpen(x: Endpoint, k: nat)
    requires Drained(x, k) && k < Ring.CAPACITY
    ensures InFlight(x.conn) == 0 < EffectiveWindow(x.conn) && x.conn.send.data == []
  {
    AgreementInWords(x);
  }

  lemma SameFlight(x: Endpoint, x': Endpoint)
    requires x'.conn.tcb == x.conn.tcb
    ensures InFlight(x'.conn) == InFlight(x.conn)
    ensures EffectiveWindow(x'.conn) == EffectiveWindow(x.conn)
  {}

  /** The next byte arrives at an idle receiver. */
  lemma ByteArrives(y: Endpoint, seg: TcpSegment, base: u32, k: nat)
    requires Filled(y, base, k) && k < Ring.CAPACITY
    requires seg.header.seqNum == SeqAdd(base, k) && |seg.payload| == 1
    requires seg.header.ackNum == y.Base()
    requires seg.header.flags.ack && !seg.header.flags.rst && !seg.header.flags.fin
    ensures var y', out := Next(y, Deliver(seg, 0.0)), Outputs(y, Deliver(seg, 0.0));
            && Filled(y', base, k + 1) && y'.Base() == y.Base() && |out| == 1
            && out[0].flags == NO_FLAGS.(ack := true) && out[0].payload == []
            && out[0].ackNum == SeqAdd(base, k + 1)
            && out[0].window == Min(Ring.CAPACITY - (k + 1), 65535)
  {
    hide SeqAdd, SeqSub, QueueHolds, RecvState.Insert;
    IdleKeeps(y, seg);
    StepKeeps(y, Deliver(seg, 0.0));
    NextByte(y.conn.recv.value, seg.payload);
    SeqAddAdd(base, k, 1);
    var y' := Next(y, Deliver(seg, 0.0));
    assert ProcessSegment(y.conn, seg, 0.0) == DataEstablished(y.conn, seg);
    assert y'.conn == DataEstablished(y.conn, seg).conn;
  }

  lemma IdleKeeps(y: Endpoint, seg: TcpSegment)
    requires Inv(y) && y.conn.tcb.state == Established && y.una == y.nxt == 0
    requires seg.header.ackNum == y.Base()
    ensures AckEstablished(y.conn, seg, 0.0) == Reply(y.conn, None)
  {
    EstablishedPhase(y);
    SeqAddZero(y.Base());
  }

  lemma NextByte(rb: RecvState, d: seq<u8>)
    requires rb.ooo == map[] && |rb.data| < Ring.CAPACITY && |d| == 1
    ensures rb.Insert(rb.nxt, d) == RecvState(rb.data + d, SeqAdd(rb.nxt, 1), map[])
  {
    hide SeqSub;
    SeqAddZero(rb.nxt);
    assert rb.Trim(rb.nxt) == 0 && d[0..] == d && d[..1] == d;
  }

  /** And the acknowledgement comes back. */
  lemma AckArrives(x: Endpoint, seg: TcpSegment, k: nat)
    requires Inv(x) && Agrees(x) && x.conn.tcb.state == Established
    requires x.una == k && x.nxt == k + 1 && x.sent == k + 1 && |x.written| == k + 1
    requires x.Discarded() == k
    requires seg.header.flags == NO_FLAGS.(ack := true) && seg.payload == []
    requires seg.header.ackNum == SeqAdd(x.Base(), k + 1)
    requires k < Ring.CAPACITY && seg.header.window == Min(Ring.CAPACITY - (k + 1), 65535)
    ensures var x' := Next(x, Deliver(seg, 0.0));
            Drained(x', k + 1) && x'.conn.tcb.rcv == x.conn.tcb.rcv && x'.Base() == x.Base()
  {
    hide SeqAdd, SeqSub, HandleEstablished, QueueHolds, QueueStep;
    AckPosition(x.Base(), x.una, seg.header.ackNum, x.nxt);
    var x' := Moved(x, HandleEstablished(x.conn, seg, 0.0).conn);
    assert Next(x, Deliver(seg, 0.0)) == x';
    EstablishedSendSide(x.conn, seg, 0.0);
    PlainAckKeeps(x.conn, seg);
    WordsKept(x, x'.conn);
    var k' := AckCarried(x, seg, 0.0, x');
    StepKeeps(x, Deliver(seg, 0.0));
  }

  lemma PlainAckKeeps(c: Conn, seg: TcpSegment)
    requires c.tcb.state == Established
    requires seg.header.flags == NO_FLAGS.(ack := true) && seg.payload == []
    ensures var c' := HandleEstablished(c, seg, 0.0).conn;
            c'.tcb.state == Established && c'.tcb.rcv == c.tcb.rcv
  {
    hide SeqAdd, SeqSub, AckAcceptable, GrownCwnd, HalvedWindow;
  }

  /** One round: a byte is sent, delivered and acknowledged. */
  lemma Round(s0: System, s: System, k: nat) returns (s': System)
    requires Pumped(s0, s, k) && k < Ring.CAPACITY
    ensures Pumped(s0, s', k + 1)
  {
    hide Next, Perform, Reachable, Inv, Agrees;
    var s1, b := SendByte(s0, s, k);
    var toY := Deliver(b.Received(), 0.0);
    ByteArrives(s1.y, b.Received(), s1.x.Base(), k);
    WrittenSame(s1.y, toY);
    ReachStep(s0, s1, AtY(toY));
    var s2 := After(s1, AtY(toY));
    var ack := Outputs(s1.y, toY)[0];
    assert ack in s2.fromY;
    var toX := Deliver(ack.Received(), 0.0);
    AckArrives(s2.x, ack.Received(), k);
    WrittenSame(s2.x, toX);
    ReachStep(s0, s2, AtX(toX));
    s' := After(s2, AtX(toX));
  }

  lemma {:induction false} Fill(s0: System, s: System, k: nat) returns (s': System)
    requires Pumped(s0, s, k)
    ensures Pumped(s0, s', Ring.CAPACITY)
    decreases Ring.CAPACITY - k
  {
    hide Pumped;
    PumpedBound(s0, s, k);
    if k == Ring.CAPACITY {
      s' := s;
    } else {
      var s1 := Round(s0, s, k);
      s' := Fill(s0, s1, k + 1);
    }
  }

  lemma PumpedBound(s0: System, s: System, k: nat)
    requires Pumped(s0, s, k)
    ensures k <= Ring.CAPACITY
  {}

  lemma ProbeReady(x: Endpoint)
    requires Inv(x) && Agrees(x) && x.conn.tcb.state == Established && x.conn.tcb.snd.wnd == 0
    requires x.sent < |x.written| && x.Discarded() <= x.sent
    ensures Probes(x.conn)
  {
    InFlightIs(x);
  }

  /** The ring of `y` fills up, its application reading nothing; then `x` probes, as it may, and what
      an unbounded buffer would have taken is lost. */
  lemma ProbeOverrunsRing(s0: System) returns (s: System, b: Builder)
    requires Started(s0) && s0.x.conn.tcb.state == Closed && s0.y.conn.tcb.state == Listen
    ensures Reachable(s0, s) && b in s.fromX && b.payload != [] && s.y.conn.recv.Some?
    ensures var rb := s.y.conn.recv.value;
            && rb.Insert(b.seqNum, b.payload).data == rb.data
            && rb.Insert(b.seqNum, b.payload) != InsertWhole(rb, b.seqNum, b.payload)
    ensures !NeverOverruns(s)
  {
    hide Next, Perform, Reachable, Inv, Agrees, InsertWhole, RecvState.Insert;
    var start := Start(s0);
    var full := Fill(s0, start, 0);
    EmptyRing(full.x, Ring.CAPACITY);
    WriteDoes(full.x, [0]);
    WriteKeepsTcb(full.x, [0]);
    var w := Write([0]);
    WrittenAgrees(full.x, Next(full.x, w));
    ReachStep(s0, full, AtX(w));
    var s1 := After(full, AtX(w));
    ProbeReady(s1.x);
    TransmitsIff(s1.x, Probe);
    b := Outputs(s1.x, Probe)[0];
    ProbeIsNextByte(s1.x, b);
    ReachStep(s0, s1, AtX(Probe));
    s := After(s1, AtX(Probe));
    NextByteLost(s.y.conn.recv.value, b.payload);
  }

  lemma EmptyRing(x: Endpoint, k: nat)
    requires Drained(x, k)
    ensures x.conn.send.data == []
  {}
}
