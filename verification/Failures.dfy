/** Two-party runs in which the sender loses track of what its peer has: a close with unsent bytes, a
    write after the close, a FIN that overtakes data, and a segment sent before the handshake. */
module Failures {
  import opened SeqArith
  import opened TcpHeaders
  import opened Tcbs
  import opened RecvBuffers
  import opened ConnectionSpec
  import opened Endpoints
  import opened SendSide
  import opened Agreement
  import opened Network
  import opened Discards
  import opened Scenarios
  import Lifecycle

  /** `y` has answered the SYN of a peer whose stream starts at `base`. */
  ghost predicate Answered(y: Endpoint, base: u32) {
    && Inv(y) && y.conn.tcb.state == SynReceived && y.read == [] && y.nxt == 0
    && y.conn.recv == Some(RecvState([], base, map[])) && y.conn.tcb.rcv.nxt == base
  }

  /** A SYN arrives at a listener. */
  lemma SynDoes(y: Endpoint, seg: TcpSegment)
    requires Inv(y) && y.conn.tcb.state == Listen && y.conn.recv.None? && y.read == []
    requires seg.header.flags == NO_FLAGS.(syn := true)
    ensures var y', out := Next(y, Deliver(seg, 0.0)), Outputs(y, Deliver(seg, 0.0));
            && Answered(y', SeqAdd(seg.header.seqNum, 1)) && y'.Base() == y.Base()
            && y'.written == y.written && |out| == 1
            && IsSynAck(out[0].Received(), SeqAdd(seg.header.seqNum, 1))
            && out[0].seqNum == y.conn.tcb.snd.iss && out[0].window == 65535
  {
    hide SeqSub, HandleEstablished;
    StepKeeps(y, Deliver(seg, 0.0));
    SeqAddAdd(y.conn.tcb.snd.iss, 1, 0);
    DistancePositions(y.Base(), 0, y.nxt);
    var y' := Next(y, Deliver(seg, 0.0));
    assert y'.conn == HandleListen(y.conn, seg).conn;
  }

  /** The handshake's last segment arrives. */
  lemma LastAckDoes(y: Endpoint, seg: TcpSegment, base: u32)
    requires Answered(y, base) && IsPlainAck(seg, y.Base())
    ensures var y' := Next(y, Deliver(seg, 0.0));
            && Inv(y') && y'.conn.tcb.state == Established && y'.Base() == y.Base()
            && y'.conn.recv == y.conn.recv && y'.read == [] && y'.written == y.written
            && y'.una == 0 && y'.nxt == 0
            && y'.conn.tcb.rcv.nxt == base
  {
    hide SeqAdd, SeqSub, HandleEstablished;
    SeqAddZero(y.Base());
    AckPosition(y.Base(), -1, y.Base(), 0);
    DistancePositions(y.Base(), 0, -1);
    StepKeeps(y, Deliver(seg, 0.0));
    var y' := Next(y, Deliver(seg, 0.0));
    assert y'.conn == HandleSynReceived(y.conn, seg).conn;
  }

  /** The first three segments: `x` is connected, `y` has answered. */
  ghost predicate Opened(s0: System, s: System) {
    && Reachable(s0, s) && Connected(s.x, 65535) && s.x.Base() == s0.x.Base()
    && Answered(s.y, s.x.Base()) && s.y.Base() == s0.y.Base()
    && s.x.conn.recv.value.nxt == s0.y.Base()
    && s.x.conn.BuildAck() in s.fromX && |s.y.written| < 0x8000_0000
  }

  /** `x` waits for the SYN-ACK `b`, which `y` has sent. */
  ghost predicate Halfway(s0: System, s: System, b: Builder) {
    && Reachable(s0, s) && b in s.fromY
    && s.x == Next(s0.x, Event.Open) && Answered(s.y, s.x.Base()) && s.y.Base() == s0.y.Base()
    && IsSynAck(b.Received(), s.x.Base()) && b.window == 65535
    && SeqAdd(b.seqNum, 1) == s0.y.Base() && |s.y.written| < 0x8000_0000
  }

  lemma SynExchange(s0: System, s: System) returns (s': System, b: Builder)
    requires Started(s0) && s0.x.conn.tcb.state == Closed
    requires Reachable(s0, s) && s.x == s0.x && s.y.Base() == s0.y.Base()
    requires Inv(s.y) && s.y.conn.tcb.state == Listen && s.y.conn.recv.None? && s.y.read == []
    requires |s.y.written| < 0x8000_0000
    ensures Halfway(s0, s', b) && s.fromY <= s'.fromY && s'.y.written == s.y.written
  {
    hide Next, Perform, Inv, Reachable, Answered, IsSynAck;
    OpenDoes(s.x);
    ReachStep(s0, s, AtX(Event.Open));
    var s1 := After(s, AtX(Event.Open));
    var syn := s.x.conn.BuildSyn();
    assert syn in s1.fromX;
    var toY := Deliver(syn.Received(), 0.0);
    SynDoes(s1.y, syn.Received());
    ReachStep(s0, s1, AtY(toY));
    s' := After(s1, AtY(toY));
    b := Outputs(s1.y, toY)[0];
  }

  lemma SynAckMove(s0: System, s: System, b: Builder) returns (s': System)
    requires Started(s0) && s0.x.conn.tcb.state == Closed && Halfway(s0, s, b)
    ensures Opened(s0, s') && s.fromY <= s'.fromY && s'.y == s.y
  {
    hide Next, Perform, Inv, Reachable, Connected, Answered;
    OpenDoes(s0.x);
    FreshRest(s0.x);
    var toX := Deliver(b.Received(), 0.0);
    SynAckDoes(s.x, b.Received());
    ConnectedIs(Next(s.x, toX), 65535);
    WrittenSame(s.x, toX);
    ReachStep(s0, s, AtX(toX));
    s' := After(s, AtX(toX));
    assert Outputs(s.x, toX)[0] in s'.fromX;
  }

  lemma FreshRest(e: Endpoint)
    requires Fresh(e)
    ensures e.conn.rtx.entries == [] && e.conn.recv.None? && e.written == []
  {}

  lemma Handshake(s0: System, s: System) returns (s': System)
    requires Started(s0) && s0.x.conn.tcb.state == Closed
    requires Reachable(s0, s) && s.x == s0.x && s.y.Base() == s0.y.Base()
    requires Inv(s.y) && s.y.conn.tcb.state == Listen && s.y.conn.recv.None? && s.y.read == []
    requires |s.y.written| < 0x8000_0000
    ensures Opened(s0, s') && s.fromY <= s'.fromY && s'.y.written == s.y.written
  {
    hide Next, Reachable, Connected, Answered, Inv, Started, Halfway, Opened;
    var s1, b := SynExchange(s0, s);
    s' := SynAckMove(s0, s1, b);
  }

  /** And the fourth: both are established. */
  ghost predicate BothOpen(s0: System, s: System) {
    && Reachable(s0, s) && Connected(s.x, 65535) && s.x.Base() == s0.x.Base()
    && Inv(s.y) && s.y.conn.tcb.state == Established && s.y.read == [] && s.y.written == []
    && s.y.conn.recv == Some(RecvState([], s.x.Base(), map[]))
    && s.y.una == 0 && s.y.nxt == 0
    && s.x.conn.tcb.rcv.nxt == s.y.Base()
  }

  lemma FullHandshake(s0: System) returns (s: System)
    requires Started(s0) && s0.x.conn.tcb.state == Closed && s0.y.conn.tcb.state == Listen
    ensures BothOpen(s0, s)
  {
    hide Next, Perform, Inv, Reachable, Connected, Answered;
    ReachStart(s0);
    FreshInv(s0.y);
    var s1 := Handshake(s0, s0);
    var ack := s1.x.conn.BuildAck();
    var ev := Deliver(ack.Received(), 0.0);
    ConnectedAcks(s1.x, 65535);
    AnsweredBuffer(s1.y, s1.x.Base());
    LastAckDoes(s1.y, ack.Received(), s1.x.Base());
    ConnectedIs(s1.x, 65535);
    ReachStep(s0, s1, AtY(ev));
    s := After(s1, AtY(ev));
  }

  lemma AnsweredBuffer(y: Endpoint, base: u32)
    requires Answered(y, base)
    ensures y.conn.recv == Some(RecvState([], base, map[])) && y.read == []
  {}

  lemma ConnectedAcks(x: Endpoint, wnd: u16)
    requires Connected(x, wnd)
    ensures x.conn.tcb.rcv.nxt == x.conn.recv.value.nxt && x.written == []
    ensures IsPlainAck(x.conn.BuildAck().Received(), x.conn.recv.value.nxt)
  {}

  /** `x` has closed, and the reply of `y` to its FIN, which arrived at once, is on its way. */
  ghost predicate ClosedAndAnswered(s0: System, s: System, before: System, reply: Builder) {
    && Reachable(s0, s) && reply in s.fromY
    && s.x == Next(before.x, Close) && s.y.Received() == before.y.Received()
    && reply.flags == NO_FLAGS.(ack := true)
    && reply.ackNum == SeqAdd(before.x.Base(), before.x.nxt + 1)
    && |s.y.written| < 0x8000_0000
  }

  lemma CloseAnswered(s0: System, s: System) returns (s': System, reply: Builder)
    requires Reachable(s0, s) && Inv(s.x) && s.x.conn.tcb.state == Established
    requires Inv(s.y) && s.y.conn.tcb.state == Established && s.y.conn.recv.Some?
    requires s.y.una == s.y.nxt == 0 && s.x.conn.tcb.rcv.nxt == s.y.Base()
    requires |s.x.written| < 0x8000_0000 && |s.y.written| < 0x8000_0000
    ensures ClosedAndAnswered(s0, s', s, reply)
  {
    hide Next, Perform, Inv, Reachable;
    EstablishedPhase(s.x);
    CloseDoes(s.x);
    Lifecycle.FinOutputs(s.x, Close);
    ReachStep(s0, s, AtX(Close));
    var s1 := After(s, AtX(Close));
    var fin := s.x.conn.BuildFinAck();
    assert fin in s1.fromX;
    var toY := Deliver(fin.Received(), 0.0);
    IdleAck(s.y, fin.Received());
    FinReply(s.y, fin.Received(), 0.0);
    WrittenSame(s.y, toY);
    ReachStep(s0, s1, AtY(toY));
    s' := After(s1, AtY(toY));
    reply := Outputs(s.y, toY)[0];
    assert reply in s'.fromY;
    SeqAddAdd(s.x.Base(), s.x.nxt, 1);
  }

  /** And the reply is delivered. */
  lemma CloseAndReply(s0: System, s: System) returns (s': System)
    requires Reachable(s0, s) && Inv(s.x) && s.x.conn.tcb.state == Established
    requires Inv(s.y) && s.y.conn.tcb.state == Established && s.y.conn.recv.Some?
    requires s.y.una == s.y.nxt == 0 && s.x.conn.tcb.rcv.nxt == s.y.Base()
    requires |s.x.written| < 0x8000_0000 && |s.y.written| < 0x8000_0000
    ensures Reachable(s0, s') && s'.y.Received() == s.y.Received()
    ensures s'.x.una == s.x.nxt + 1
    ensures s'.x.Discarded() == if s.x.nxt < |s.x.written| then s.x.nxt + 1 else s.x.Discarded()
  {
    hide Next, Perform, Inv, Reachable;
    EstablishedPhase(s.x);
    CloseDoes(s.x);
    StepKeeps(s.x, Close);
    var s2, reply := CloseAnswered(s0, s);
    var toX := Deliver(reply.Received(), 0.0);
    FinWait1Ack(s2.x, reply.Received(), 0.0, s.x.nxt + 1);
    WrittenSame(s2.x, toX);
    ReachStep(s0, s2, AtX(toX));
    s' := After(s2, AtX(toX));
  }

  lemma ConnectedIsOpen(x: Endpoint)
    requires Connected(x, 65535)
    ensures Inv(x) && x.conn.tcb.state == Established && x.written == []
    ensures x.nxt == 0 && x.sent == 0 && x.una == 0 && x.Discarded() == 0
    ensures x.conn.send.data == []
  {}

  lemma CloseKeepsRing(x: Endpoint)
    requires Inv(x) && x.conn.tcb.state == Established
    ensures Next(x, Close).conn.send == x.conn.send
  {
    hide SeqAdd, SeqSub, ProcessSegment;
  }

  /** A byte written after the close, which had nothing unsent: the acknowledgement of the FIN discards
      it, never sent. */
  lemma LateWriteDiscarded(s0: System) returns (s: System)
    requires Started(s0) && s0.x.conn.tcb.state == Closed && s0.y.conn.tcb.state == Listen
    ensures Reachable(s0, s) && s.x.Discarded() > s.y.Received() && s.x.Discarded() > s.x.sent
  {
    hide Next, Perform, Inv, Reachable, Connected, Agrees;
    var s1 := FullHandshake(s0);
    ConnectedIsOpen(s1.x);
    EstablishedPhase(s1.x);
    CloseDoes(s1.x);
    CloseKeepsRing(s1.x);
    StepKeeps(s1.x, Close);
    var s2, reply := CloseAnswered(s0, s1);
    WriteDoes(s2.x, [7]);
    WriteKeepsTcb(s2.x, [7]);
    ReachStep(s0, s2, AtX(Write([7])));
    var s3 := After(s2, AtX(Write([7])));
    var toX := Deliver(reply.Received(), 0.0);
    FinWait1Ack(s3.x, reply.Received(), 0.0, 1);
    WrittenSame(s3.x, toX);
    DeliverSends(s3.x, toX);
    ReachStep(s0, s3, AtX(toX));
    s := After(s3, AtX(toX));
  }

  lemma WriteKeepsTcb(e: Endpoint, data: seq<u8>)
    ensures var e' := Next(e, Write(data)); e'.conn.tcb == e.conn.tcb && e'.Base() == e.Base()
    ensures Outputs(e, Write(data)) == []
  {
    hide SeqAdd, SeqSub;
  }

  lemma DeliverSends(e: Endpoint, ev: Event)
    requires ev.Deliver?
    ensures Next(e, ev).sent == e.sent
  {
    hide Perform;
  }

  lemma EstablishedPhase(x: Endpoint)
    requires Inv(x) && x.conn.tcb.state == Established
    ensures 0 <= x.una <= x.nxt <= x.sent <= |x.written| && Transferring(x.conn)
    ensures x.conn.tcb.snd.nxt == SeqAdd(x.Base(), x.nxt)
    ensures x.conn.tcb.snd.una == SeqAdd(x.Base(), x.una)
  {}

  lemma WrittenSame(e: Endpoint, ev: Event)
    requires ev.Deliver?
    ensures Next(e, ev).written == e.written
  {
    hide Perform;
  }

  /** With nothing in flight, an acknowledgement of nothing new has no effect. */
  lemma IdleAck(y: Endpoint, seg: TcpSegment)
    requires Inv(y) && y.conn.tcb.state == Established && y.una == y.nxt == 0
    requires seg.header.ackNum == y.Base()
    ensures AckEstablished(y.conn, seg, 0.0).out.None?
  {
    EstablishedPhase(y);
    SeqAddZero(y.Base());
  }

  lemma WriteMove(s0: System, s: System, data: seq<u8>) returns (s': System)
    requires Reachable(s0, s) && Connected(s.x, 65535) && |data| <= 1460
    requires |s.y.written| < 0x8000_0000
    ensures Reachable(s0, s') && s' == s.(x := Next(s.x, Write(data)))
    ensures Inv(s'.x) && Agrees(s'.x) && s'.x.written == data && s'.x.sent == 0 && s'.x.nxt == 0
    ensures s'.x.una == 0 && s'.x.Discarded() == 0 && s'.x.Base() == s.x.Base()
    ensures s'.x.conn == s.x.conn.(send := s.x.conn.send.(data := data))
    ensures s'.x.conn.tcb.state == Established
    ensures InFlight(s'.x.conn) == 0 && EffectiveWindow(s'.x.conn) == 1460
  {
    hide Next, Perform, Inv, Reachable, Agrees;
    ConnectedIs(s.x, 65535);
    ConnectedAgrees(s.x, 65535);
    WriteDoes(s.x, data);
    NothingOut(s.x, Write(data));
    s' := After(s, AtX(Write(data)));
    assert s'.fromX == s.fromX;
    WrittenAgrees(s.x, s'.x);
    ReachStep(s0, s, AtX(Write(data)));
  }

  lemma NothingOut(e: Endpoint, ev: Event)
    requires ev.Write?
    ensures Outputs(e, ev) == []
  {}

  lemma SendMove(s0: System, s: System) returns (s': System)
    requires Reachable(s0, s) && Inv(s.x) && Agrees(s.x)
    requires s.x.conn.tcb.state == Established && 0 == s.x.sent < |s.x.written| <= 1460
    requires InFlight(s.x.conn) == 0 && EffectiveWindow(s.x.conn) == 1460
    requires |s.y.written| < 0x8000_0000
    ensures Reachable(s0, s') && s'.y == s.y && s'.fromY == s.fromY
    ensures s'.x == Next(s.x, Send(1460, 0.0)) && Inv(s'.x) && Agrees(s'.x)
    ensures s'.x.written == s.x.written && s'.x.sent == |s.x.written| == s'.x.nxt
    ensures s'.x.una == s.x.una && s'.x.Discarded() == s.x.Discarded()
    ensures s'.x.conn.tcb == s.x.conn.tcb.(snd := s'.x.conn.tcb.snd)
    ensures s'.x.Base() == s.x.Base()
  {
    hide Next, Perform, Inv, Reachable, Agrees;
    SendDoes(s.x, 1460);
    ReachStep(s0, s, AtX(Send(1460, 0.0)));
    s' := After(s, AtX(Send(1460, 0.0)));
  }

  /** A close with an unsent byte: the acknowledgement of the FIN, which arrived in order, discards a
      byte that was never sent. */
  lemma UnsentByteDiscarded(s0: System) returns (s: System)
    requires Started(s0) && s0.x.conn.tcb.state == Closed && s0.y.conn.tcb.state == Listen
    ensures Reachable(s0, s) && s.x.Discarded() > s.y.Received()
  {
    hide Next, Perform, Inv, Reachable, Connected, Agrees;
    var s1 := FullHandshake(s0);
    var s2 := WriteMove(s0, s1, [1]);
    s := CloseAndReply(s0, s2);
  }

  /** A FIN that overtakes the only data segment is acknowledged all the same: `snd.una` moves two
      past what the peer has, and the segment leaves the retransmission queue. */
  lemma OvertakingFinAcknowledged(s0: System) returns (s: System)
    requires Started(s0) && s0.x.conn.tcb.state == Closed && s0.y.conn.tcb.state == Listen
    ensures Reachable(s0, s) && s.x.una > s.y.Received() + 1
  {
    hide Next, Perform, Inv, Reachable, Connected, Agrees;
    var s1 := FullHandshake(s0);
    var s2 := WriteMove(s0, s1, [1]);
    var s3 := SendMove(s0, s2);
    s := CloseAndReply(s0, s3);
  }

  /** A listener sends before it has seen a SYN. */
  lemma EarlySegment(s0: System) returns (s: System, b: Builder)
    requires Started(s0) && s0.y.conn.tcb.state == Listen
    ensures Reachable(s0, s) && s.x == s0.x && s.y.Base() == s0.y.Base()
    ensures Inv(s.y) && s.y.conn.tcb.state == Listen && s.y.conn.recv.None? && s.y.read == []
    ensures |s.y.written| == 1
    ensures b in s.fromY && b.flags.ack && !b.flags.rst && b.ackNum == 0
  {
    hide Next, Perform, Inv, Reachable;
    ReachStart(s0);
    FreshInv(s0.y);
    var w, snd := Write([7]), Send(1460, 0.0);
    FreshWindow(s0.y, [7]);
    ListenerWrites(s0.y);
    var y1 := Next(s0.y, w);
    StepKeeps(s0.y, w);
    ReachStep(s0, s0, AtY(w));
    var s1 := After(s0, AtY(w));
    SendEmits(y1, 1460, 0.0);
    b := Outputs(y1, snd)[0];
    EarlySegmentAcksZero(y1, snd, b);
    StepKeeps(y1, snd);
    SendKeepsState(y1, 1460, 0.0);
    SendKeepsRest(y1, snd);
    ReachStep(s0, s1, AtY(snd));
    s := After(s1, AtY(snd));
  }

  lemma ListenerWrites(y: Endpoint)
    requires Fresh(y) && y.conn.tcb.state == Listen
    ensures var y' := Next(y, Write([7]));
            y'.conn.recv.None? && y'.conn.tcb.rcv.nxt == 0
            && |y'.written| == 1 && y'.read == []
  {
    hide SeqAdd, SeqSub;
  }

  lemma SendKeepsRest(e: Endpoint, ev: Event)
    requires ev.Send?
    ensures var e' := Next(e, ev);
            e'.conn.recv == e.conn.recv && e'.written == e.written && e'.read == e.read
  {
    hide SeqAdd, SeqSub, ProcessSegment;
  }

  /** A segment from before the handshake, delivered to a sender whose first byte is numbered
      2^32 - 1: it acknowledges that byte, which the peer never received. */
  lemma EarlySegmentDiscards(s0: System) returns (s: System)
    requires Started(s0) && s0.x.conn.tcb.state == Closed && s0.y.conn.tcb.state == Listen
    requires s0.x.Base() == 0xFFFF_FFFF
    ensures Reachable(s0, s) && s.x.Discarded() > s.y.Received()
  {
    hide Next, Perform, Inv, Reachable, Connected, Agrees, Answered;
    var s1, b := EarlySegment(s0);
    var s2 := Handshake(s0, s1);
    AnsweredBuffer(s2.y, s2.x.Base());
    var s3 := WriteMove(s0, s2, [1, 2]);
    var s4 := SendMove(s0, s3);
    var ev := Deliver(b.Received(), 0.0);
    Wrapped();
    EarlySegmentDiscardsIff(s4.x, b.Received(), 0.0, 0);
    WrittenSame(s4.x, ev);
    ReachStep(s0, s4, AtX(ev));
    s := After(s4, AtX(ev));
  }

  lemma Wrapped()
    ensures SeqSub(0, 0xFFFF_FFFF) == 1
  {}
}
