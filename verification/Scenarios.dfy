/** Reachable states in which a promise fails: one run per exclusion that the theorems make. */
module Scenarios {
  import opened SeqArith
  import opened TcpHeaders
  import opened Tcbs
  import opened SendBuffers
  import opened RetransmitQueues
  import opened ConnectionSpec
  import opened Endpoints
  import opened SendSide
  import opened Agreement
  import opened Tiling

  /** Right behind the handshake, with the peer's window `wnd`. */
  ghost predicate Connected(e: Endpoint, wnd: u16) {
    var t := e.conn.tcb;
    && Inv(e) && t.state == Established && t.snd.wnd == wnd
    && t.cwnd == 1460 && t.ssthresh == 65535 && t.dupAckCount == 0
    && e.una == 0 && e.nxt == 0 && e.sent == 0 && e.written == [] && e.read == []
    && e.conn.rtx.entries == []
    && e.conn.recv.Some? && e.conn.recv.value.data == [] && e.conn.recv.value.ooo == map[]
    && t.rcv.nxt == e.conn.recv.value.nxt
  }

  /** A SYN-ACK, as a connection builds it. */
  predicate IsSynAck(seg: TcpSegment, ackNum: u32) {
    && seg.header.flags == NO_FLAGS.(syn := true, ack := true)
    && seg.header.ackNum == ackNum && seg.payload == []
  }

  predicate IsPlainAck(seg: TcpSegment, ackNum: u32) {
    && seg.header.flags == NO_FLAGS.(ack := true)
    && seg.header.ackNum == ackNum && seg.payload == []
  }

  /** `connect` on a new connection. */
  lemma OpenDoes(e: Endpoint)
    requires Fresh(e) && e.conn.tcb.state == Closed
    ensures var e', out := Next(e, Open), Outputs(e, Open);
            && Inv(e') && e'.conn.tcb.state == SynSent && e'.nxt == 0 && e'.una == -1
            && e'.written == [] && e'.read == [] && e'.sent == 0 && e'.Base() == e.Base()
            && e'.conn == e.conn.(tcb := e'.conn.tcb) && e'.conn.tcb.snd.nxt == e.Base()
            && e'.conn.tcb.cwnd == 1460 && e'.conn.tcb.ssthresh == 65535
            && e'.conn.tcb.dupAckCount == 0 && e'.conn.tcb.rcv.nxt == 0
            && out == [e.conn.BuildSyn()]
  {
    hide SeqSub, ProcessSegment;
    FreshInv(e);
    StepKeeps(e, Open);
    SeqAddAdd(e.conn.tcb.snd.iss, 1, 0);
    DistancePositions(e.Base(), 0, -1);
    SeqAddZero(e.Base());
  }

  /** The SYN-ACK arrives. */
  lemma SynAckDoes(e: Endpoint, seg: TcpSegment)
    requires Inv(e) && e.conn.tcb.state == SynSent && e.nxt == 0 && e.una == -1
    requires e.sent == 0 && e.written == [] && e.read == [] && e.conn.rtx.entries == []
    requires e.conn.tcb.cwnd == 1460 && e.conn.tcb.ssthresh == 65535 && e.conn.tcb.dupAckCount == 0
    requires IsSynAck(seg, e.Base())
    ensures var e', out := Next(e, Deliver(seg, 0.0)), Outputs(e, Deliver(seg, 0.0));
            && Connected(e', seg.header.window) && e'.Base() == e.Base()
            && e'.conn.recv.value.nxt == SeqAdd(seg.header.seqNum, 1)
            && out == [e'.conn.BuildAck()]
  {
    hide SeqAdd, SeqSub, HandleEstablished;
    SeqAddZero(e.Base());
    AckPosition(e.Base(), -1, e.Base(), 0);
    StepKeeps(e, Deliver(seg, 0.0));
    DistancePositions(e.Base(), 0, -1);
    var e' := Next(e, Deliver(seg, 0.0));
    assert e'.conn == HandleSynSent(e.conn, seg).conn;
  }

  /** A connection that the peer has answered, by a run of its own. */
  lemma ConnectedRun(e0: Endpoint, wnd: u16) returns (evs: seq<Event>, e: Endpoint)
    requires Fresh(e0) && e0.conn.tcb.state == Closed
    ensures Obeys(e0, evs, Orderly) && Obeys(e0, evs, Queued) && Obeys(e0, evs, Proper)
    ensures Exec(e0, evs) == e && Connected(e, wnd) && e.Base() == e0.Base()
  {
    hide Next, Perform, Inv;
    var seg := TcpSegment(
      TcpHeader(0, 0, 0, e0.Base(), 5, NO_FLAGS.(syn := true, ack := true), wnd, 0, 0), []);
    FreshInv(e0);
    OpenDoes(e0);
    var e1 := Next(e0, Open);
    SynAckDoes(e1, seg);
    e := Next(e1, Deliver(seg, 0.0));
    evs := [Open] + [Deliver(seg, 0.0)];
    FirstTwo(e0, seg, Orderly);
    FirstTwo(e0, seg, Queued);
    FirstTwo(e0, seg, Proper);
  }

  lemma FirstTwo(e0: Endpoint, seg: TcpSegment, rule: (Endpoint, Event) -> bool)
    requires rule(e0, Open) && rule(Next(e0, Open), Deliver(seg, 0.0))
    ensures var evs := [Open] + [Deliver(seg, 0.0)];
            Obeys(e0, evs, rule) && Exec(e0, evs) == Next(Next(e0, Open), Deliver(seg, 0.0))
  {
    hide Next;
    OneEvent(e0, Open, rule);
    OneEvent(Next(e0, Open), Deliver(seg, 0.0), rule);
    RunsCompose(e0, [Open], [Deliver(seg, 0.0)], rule);
  }

  /** The application writes a little. */
  lemma WriteDoes(e: Endpoint, data: seq<u8>)
    requires Inv(e) && e.conn.send.data == [] && |data| <= 1460
    ensures var e' := Next(e, Write(data));
            && Inv(e') && e'.written == e.written + data
            && e'.conn == e.conn.(send := e.conn.send.(data := data))
            && e'.sent == e.sent && e'.una == e.una && e'.nxt == e.nxt && e'.read == e.read
            && e'.Discarded() == e.Discarded()
  {
    hide SeqAdd, SeqSub, ProcessSegment;
    StepKeeps(e, Write(data));
    assert data[..|data|] == data && [] + data == data;
  }

  /** Everything unsent goes out in one segment. */
  lemma SendDoes(e: Endpoint, maxPayload: nat)
    requires Inv(e) && Agrees(e) && Transferring(e.conn) && e.sent < |e.written| && maxPayload > 0
    requires InFlight(e.conn) < EffectiveWindow(e.conn)
    ensures var e', out, n := Next(e, Send(maxPayload, 0.0)), Outputs(e, Send(maxPayload, 0.0)),
                              Min(Min(maxPayload, EffectiveWindow(e.conn) - InFlight(e.conn)),
                                  |e.written| - e.sent);
            && Inv(e') && Agrees(e') && |out| == 1 && |out[0].payload| == n
            && e'.sent == e.sent + n && e'.nxt == e'.sent && e'.written == e.written
            && e'.read == e.read && e'.una == e.una && e'.Discarded() == e.Discarded()
            && e'.conn.recv == e.conn.recv && e'.conn.tcb == e.conn.tcb.(snd := e'.conn.tcb.snd)
            && e'.conn.tcb.snd.wnd == e.conn.tcb.snd.wnd
            && |e'.conn.rtx.entries| == |e.conn.rtx.entries|
                                        + (if |e.conn.rtx.entries| < RETRANSMIT_QUEUE_MAX then 1 else 0)
  {
    hide SeqAdd, SeqSub, ProcessSegment, QueueHolds;
    var ev := Send(maxPayload, 0.0);
    AgreementInWords(e);
    NextSegmentIsNextBytes(e, Min(maxPayload, EffectiveWindow(e.conn) - InFlight(e.conn)));
    StepKeeps(e, ev);
    FirstTransmission(e, ev, Outputs(e, ev)[0]);
    SendAgrees(e, ev);
  }

  lemma ConnectedAgrees(e: Endpoint, wnd: u16)
    requires Connected(e, wnd)
    ensures Agrees(e) && e.conn.send.data == [] && InFlight(e.conn) == 0
    ensures e.conn.tcb.snd.una == e.Base() && e.conn.tcb.snd.nxt == e.Base()
    ensures EffectiveWindow(e.conn) == Min(1460, wnd)
  {
    hide SeqAdd;
    SeqAddZero(e.Base());
  }

  /** A probe: one byte is in flight and the queue is empty. */
  lemma ProbeLosesTiling(e0: Endpoint) returns (evs: seq<Event>)
    requires Fresh(e0) && e0.conn.tcb.state == Closed
    ensures Obeys(e0, evs, Orderly)
    ensures var c := Exec(e0, evs).conn;
            c.tcb.state == Established && c.rtx.entries == [] && c.tcb.snd.una != c.tcb.snd.nxt
  {
    hide Next, Perform, Inv, Connected;
    var first, e := ConnectedRun(e0, 0);
    var w, p := Write([1]), Probe;
    ProbeAfterWrite(e);
    OneEvent(e, w, Orderly);
    OneEvent(Next(e, w), p, Orderly);
    RunsCompose(e, [w], [p], Orderly);
    RunsCompose(e0, first, [w] + [p], Orderly);
    evs := first + ([w] + [p]);
  }

  lemma ProbeAfterWrite(e: Endpoint)
    requires Connected(e, 0)
    ensures var c := Next(Next(e, Write([1])), Probe).conn;
            && c.tcb.state == Established && c.rtx.entries == [] && c.tcb.snd.una != c.tcb.snd.nxt
  {
    hide SeqAdd, SeqSub, ProcessSegment, QueueHolds;
    ConnectedAgrees(e, 0);
    WriteDoes(e, [1]);
    var e1 := Next(e, Write([1]));
    AgreementInWords(e1);
    var b := e1.conn.BuildData(e1.conn.send.nxt, [1], false);
    TransmitsIff(e1, Probe);
    var e2 := Next(e1, Probe);
    StepKeeps(e1, Probe);
    FirstTransmission(e1, Probe, Outputs(e1, Probe)[0]);
    SendAgrees(e1, Probe);
    SendingKeepsState(e1, Probe);
    PositionsInjective(e2.Base(), e2.una, e2.nxt);
    PastTheQueue(e1, Probe);
  }

  /** One-byte sends fill the queue. */
  lemma {:induction false} FillQueue(e: Endpoint, k: nat) returns (evs: seq<Event>)
    requires Inv(e) && Agrees(e) && e.conn.tcb.state == Established
    requires e.conn.tcb.cwnd == 1460 && e.conn.tcb.snd.wnd == 65535
    requires e.una == e.Discarded() && e.sent + k < |e.written| <= e.Discarded() + 1000
    requires |e.conn.rtx.entries| + k <= RETRANSMIT_QUEUE_MAX
    ensures Obeys(e, evs, Queued) && (forall ev :: ev in evs ==> ev == Send(1, 0.0))
    ensures var e' := Exec(e, evs);
            && Inv(e') && Agrees(e') && e'.conn.tcb.state == Established
            && e'.conn.tcb.cwnd == 1460 && e'.conn.tcb.snd.wnd == 65535
            && e'.sent == e.sent + k && e'.written == e.written && e'.una == e.una
            && e'.Discarded() == e.Discarded()
            && |e'.conn.rtx.entries| == |e.conn.rtx.entries| + k
    decreases k
  {
    hide Next, Perform, Inv, Agrees;
    if k == 0 {
      evs := [];
    } else {
      var ev := Send(1, 0.0);
      WindowIsOpen(e);
      SendDoes(e, 1);
      var rest := FillQueue(Next(e, ev), k - 1);
      evs := [ev] + rest;
      assert evs[1..] == rest;
    }
  }

  lemma WindowIsOpen(e: Endpoint)
    requires Inv(e) && Agrees(e) && e.conn.tcb.state == Established
    requires e.conn.tcb.cwnd == 1460 && e.conn.tcb.snd.wnd == 65535
    requires e.una == e.Discarded() && e.sent < |e.written| <= e.Discarded() + 1000
    ensures Transferring(e.conn) && !Opening(e.conn)
    ensures EffectiveWindow(e.conn) == 1460 && InFlight(e.conn) < 1000
    ensures InFlight(e.conn) == e.sent - e.Discarded() && !NothingUnsent(e.conn)
  {
    AgreementInWords(e);
    InFlightIs(e);
  }

  /** A 129th segment goes out although the queue is full. */
  lemma FullQueueReached(e0: Endpoint) returns (evs: seq<Event>)
    requires Fresh(e0) && e0.conn.tcb.state == Closed
    ensures Obeys(e0, evs, Queued)
    ensures var e := Exec(e0, evs);
            |e.conn.rtx.entries| == RETRANSMIT_QUEUE_MAX && SendsUnqueued(e, Send(1, 0.0))
  {
    hide Next, Perform, Inv, Agrees;
    var first, e := ConnectedRun(e0, 65535);
    ConnectedAgrees(e, 65535);
    var data := seq(200, _ => 0);
    var w := Write(data);
    ConnectedIs(e, 65535);
    WriteDoes(e, data);
    var e1 := Next(e, w);
    WrittenAgrees(e, e1);
    var fill := FillQueue(e1, 128);
    OneEvent(e, w, Queued);
    RunsCompose(e, [w], fill, Queued);
    RunsCompose(e0, first, [w] + fill, Queued);
    evs := first + ([w] + fill);
    WindowIsOpen(Exec(e1, fill));
  }

  lemma ConnectedIs(e: Endpoint, wnd: u16)
    requires Connected(e, wnd)
    ensures Inv(e)
  {}

  lemma WrittenAgrees(e: Endpoint, e': Endpoint)
    requires Agrees(e) && e'.una == e.una && e'.nxt == e.nxt && e'.sent == e.sent
    requires e'.Discarded() == e.Discarded() && e'.conn.tcb == e.conn.tcb
    ensures Agrees(e')
  {}

  /** Three duplicates and then an acknowledgement of everything: the window ends at 7592, far above
      the threshold of 2920. */
  lemma RecoveryEndsInflated(e0: Endpoint) returns (evs: seq<Event>)
    requires Fresh(e0) && e0.conn.tcb.state == Closed
    ensures Obeys(e0, evs, Orderly)
    ensures var t := Exec(e0, evs).conn.tcb;
            t.state == Established && t.cwnd == 7592 && t.ssthresh == 2920 && t.dupAckCount == 0
            && t.snd.una == t.snd.nxt
  {
    hide Next, Perform, Inv, Agrees, Connected;
    var first, e := ConnectedRun(e0, 65535);
    var sending := [Write([1])] + [Send(1460, 0.0)];
    var e2 := OneByteInFlight(e);
    var dup := Deliver(PlainAck(e.Base()), 0.0);
    var ack := Deliver(PlainAck(SeqAdd(e.Base(), 1)), 0.0);
    var dups := [dup] + ([dup] + ([dup] + [ack]));
    ThreeDuplicates(e2);
    AllDeliver(e2, dups);
    RunsCompose(e, sending, dups, Orderly);
    RunsCompose(e0, first, sending + dups, Orderly);
    evs := first + (sending + dups);
  }

  function PlainAck(ackNum: u32): TcpSegment {
    TcpSegment(TcpHeader(0, 0, 0, ackNum, 5, NO_FLAGS.(ack := true), 65535, 0, 0), [])
  }

  ghost predicate InFlightOne(e: Endpoint) {
    && Inv(e) && Agrees(e) && e.conn.tcb.state == Established && e.una == 0 && e.nxt == 1 == e.sent
    && e.conn.tcb.cwnd == 1460 && e.conn.tcb.ssthresh == 65535 && e.conn.tcb.dupAckCount == 0
    && |e.conn.rtx.entries| == 1
  }

  lemma OneByteInFlight(e: Endpoint) returns (e2: Endpoint)
    requires Connected(e, 65535)
    ensures var sending := [Write([1])] + [Send(1460, 0.0)];
            Obeys(e, sending, Orderly) && Exec(e, sending) == e2 && InFlightOne(e2)
            && e2.Base() == e.Base()
  {
    hide Next, Perform, Inv, Agrees;
    ConnectedIs(e, 65535);
    ConnectedAgrees(e, 65535);
    var w, snd := Write([1]), Send(1460, 0.0);
    WriteDoes(e, [1]);
    var e1 := Next(e, w);
    WrittenAgrees(e, e1);
    SendDoes(e1, 1460);
    e2 := Next(e1, snd);
    OneEvent(e, w, Orderly);
    OneEvent(e1, snd, Orderly);
    RunsCompose(e, [w], [snd], Orderly);
  }

  lemma {:induction false} AllDeliver(e: Endpoint, evs: seq<Event>)
    requires forall ev :: ev in evs ==> ev.Deliver?
    ensures Obeys(e, evs, Orderly)
    decreases |evs|
  {
    hide Perform;
    if evs != [] {
      assert evs[0] in evs && evs[0].Deliver?;
      assert Orderly(e, evs[0]);
      AllDeliver(Next(e, evs[0]), evs[1..]);
    }
  }

  lemma DuplicateDoes(e: Endpoint)
    requires Inv(e) && e.conn.tcb.state == Established && e.una == 0 && e.nxt == 1
    requires e.conn.tcb.dupAckCount <= 2
    ensures var e' := Next(e, Deliver(PlainAck(e.Base()), 0.0));
            && Inv(e') && e'.Base() == e.Base() && e'.una == 0 && e'.nxt == 1
            && e'.conn.tcb.state == Established && e'.written == e.written && e'.sent == e.sent
            && e'.conn.tcb.dupAckCount == e.conn.tcb.dupAckCount + 1
            && (if e.conn.tcb.dupAckCount == 2
                then e'.conn.tcb.ssthresh == HalvedWindow(e.conn.tcb.cwnd)
                     && e'.conn.tcb.cwnd == e'.conn.tcb.ssthresh + 3 * MSS
                else e'.conn.tcb.cwnd == e.conn.tcb.cwnd
                     && e'.conn.tcb.ssthresh == e.conn.tcb.ssthresh)
  {
    hide SeqAdd, SeqSub, HalvedWindow, QueueHolds;
    var seg := PlainAck(e.Base());
    SeqAddZero(e.Base());
    PositionsInjective(e.Base(), 0, 1);
    StepKeeps(e, Deliver(seg, 0.0));
    var e' := Next(e, Deliver(seg, 0.0));
    assert e'.conn == HandleEstablished(e.conn, seg, 0.0).conn;
  }

  lemma NewAckDoes(e: Endpoint)
    requires Inv(e) && e.conn.tcb.state == Established && e.una == 0 && e.nxt == 1
    ensures var t, t' := e.conn.tcb, Next(e, Deliver(PlainAck(SeqAdd(e.Base(), 1)), 0.0)).conn.tcb;
            && t'.state == Established && t'.ssthresh == t.ssthresh && t'.dupAckCount == 0
            && t'.snd.una == t'.snd.nxt
            && t'.cwnd == GrownCwnd(t.cwnd, t.ssthresh, 1)
  {
    hide SeqAdd, SeqSub, GrownCwnd, QueueHolds, SendState.Acknowledge, RtxState.Acknowledge;
    var seg := PlainAck(SeqAdd(e.Base(), 1));
    AckPosition(e.Base(), 0, seg.header.ackNum, 1);
    SeqSubPositions(e.Base(), 0, 1);
    var e' := Next(e, Deliver(seg, 0.0));
    assert e'.conn == HandleEstablished(e.conn, seg, 0.0).conn;
  }

  lemma ThreeDuplicates(e: Endpoint)
    requires InFlightOne(e)
    ensures var dup := Deliver(PlainAck(e.Base()), 0.0);
            var ack := Deliver(PlainAck(SeqAdd(e.Base(), 1)), 0.0);
            var t := Exec(e, [dup] + ([dup] + ([dup] + [ack]))).conn.tcb;
            t.state == Established && t.cwnd == 7592 && t.ssthresh == 2920 && t.dupAckCount == 0
            && t.snd.una == t.snd.nxt
  {
    hide Next, Perform, Inv, Agrees;
    var dup := Deliver(PlainAck(e.Base()), 0.0);
    var ack := Deliver(PlainAck(SeqAdd(e.Base(), 1)), 0.0);
    DuplicateDoes(e);
    var e1 := Next(e, dup);
    DuplicateDoes(e1);
    var e2 := Next(e1, dup);
    DuplicateDoes(e2);
    var e3 := Next(e2, dup);
    assert HalvedWindow(1460) == 2920 && GrownCwnd(7300, 2920, 1) == 7592;
    NewAckDoes(e3);
    OneEvent(e3, ack, Proper);
    ConsRun(e2, dup, [ack]);
    ConsRun(e1, dup, [dup] + [ack]);
    ConsRun(e, dup, [dup] + ([dup] + [ack]));
  }

  lemma ConsRun(e: Endpoint, ev: Event, evs: seq<Event>)
    ensures Exec(e, [ev] + evs) == Exec(Next(e, ev), evs)
  {
    hide Next;
    assert ([ev] + evs)[1..] == evs;
  }

  /** A send that goes out is queued if there is room. */
  lemma SendPushes(e: Endpoint, ev: Event)
    requires Inv(e) && ev.Send? && Sends(e.conn, ev.maxPayload)
    requires |e.conn.rtx.entries| < RETRANSMIT_QUEUE_MAX
    ensures var e' := Next(e, ev);
            && |e'.conn.rtx.entries| == |e.conn.rtx.entries| + 1 && Outputs(e, ev) != []
            && e'.conn.tcb.state == e.conn.tcb.state && e'.conn.recv == e.conn.recv
            && e'.nxt == e'.sent > e.sent && e'.una == e.una && e'.written == e.written
            && e'.Base() == e.Base()
  {
    hide SeqAdd, SeqSub, ProcessSegment, QueueHolds;
    TransmitsIff(e, ev);
    var b := Outputs(e, ev)[0];
    FirstTransmission(e, ev, b);
    SentPosition(e, |b.payload|);
  }

  /** A new connection, listening or connecting, may send what it is given. */
  lemma EarlySendOpen(e: Endpoint)
    requires Inv(e) && Opening(e.conn) && e.sent == 0 && e.nxt <= 0 && e.written != []
    requires e.conn.tcb.cwnd == 1460 && e.conn.tcb.snd.wnd == 65535
    ensures Sends(e.conn, 1460)
  {
    hide SeqAdd, SeqSub, QueueHolds;
    InFlightIs(e);
    SeqSubPositions(e.Base(), e.una, e.nxt);
    OneAtMost(e.nxt - e.una);
  }

  lemma OneAtMost(n: int)
    requires 0 <= n <= 1
    ensures n % 0x1_0000_0000 == n
  {}

  lemma FreshIs(e: Endpoint)
    requires Fresh(e)
    ensures Inv(e) && Opening(e.conn) && e.conn.rtx.entries == [] && e.conn.send.data == []
    ensures e.conn.tcb.cwnd == 1460 && e.conn.tcb.snd.wnd == 65535 && e.conn.recv.None?
  {
    FreshInv(e);
  }

  lemma SynToListener(e: Endpoint, seg: TcpSegment)
    requires Inv(e) && e.conn.tcb.state == Listen && seg.header.flags == NO_FLAGS.(syn := true)
    ensures var e' := Next(e, Deliver(seg, 0.0));
            && Inv(e') && e'.conn.tcb.state == SynReceived && e'.nxt == 0 && e'.una == -1
            && e'.sent == e.sent && e'.conn.rtx == e.conn.rtx && e'.Base() == e.Base()
  {
    hide SeqSub, HandleEstablished;
    StepKeeps(e, Deliver(seg, 0.0));
    SeqAddAdd(e.conn.tcb.snd.iss, 1, 0);
    DistancePositions(e.Base(), 0, e.nxt);
    assert Next(e, Deliver(seg, 0.0)).conn == HandleListen(e.conn, seg).conn;
  }

  lemma AckToSynReceived(e: Endpoint)
    requires Inv(e) && e.conn.tcb.state == SynReceived && e.nxt == 0
    ensures var c := Next(e, Deliver(PlainAck(e.Base()), 0.0)).conn;
            && c.tcb.state == Established && c.rtx == e.conn.rtx
            && c.tcb.snd.una == c.tcb.snd.nxt == e.Base()
  {
    hide SeqAdd, SeqSub, HandleEstablished, QueueHolds;
    var seg := PlainAck(e.Base());
    SeqAddZero(e.Base());
    AckPosition(e.Base(), -1, e.Base(), 0);
    assert Next(e, Deliver(seg, 0.0)).conn == HandleSynReceived(e.conn, seg).conn;
  }

  /** A listener that sends what it was given, and then an ordinary handshake: nothing is in flight as
      far as the control block knows, and the queue is not empty. */
  lemma EarlyDataLosesTiling(e0: Endpoint, syn: TcpSegment) returns (evs: seq<Event>)
    requires Fresh(e0) && e0.conn.tcb.state == Listen
    requires syn.header.flags == NO_FLAGS.(syn := true)
    ensures Obeys(e0, evs, Proper)
    ensures var c := Exec(e0, evs).conn;
            && c.tcb.state == Established && c.rtx.entries != []
            && c.tcb.snd.una == c.tcb.snd.nxt && c.tcb.snd.nxt != c.send.nxt
  {
    hide Next, Perform, Inv, Fresh;
    FreshIs(e0);
    FreshHistory(e0);
    var w, snd, s, a := Write([1]), Send(1460, 0.0), Deliver(syn, 0.0), Deliver(PlainAck(e0.Base()), 0.0);
    WriteDoes(e0, [1]);
    var e1 := Next(e0, w);
    EarlySendOpen(e1);
    SendPushes(e1, snd);
    StepKeeps(e1, snd);
    var e2 := Next(e1, snd);
    SynToListener(e2, syn);
    var e3 := Next(e2, s);
    AckToSynReceived(e3);
    EarlyDataBreaksAgreement(e2, syn, PlainAck(e0.Base()));
    evs := [w] + ([snd] + ([s] + [a]));
    FourEvents(e0, w, snd, s, a, Proper);
  }

  lemma FreshHistory(e: Endpoint)
    requires Fresh(e)
    ensures e.sent == 0 && e.nxt == -1 && e.una == -1 && e.written == [] && e.read == []
    ensures e.Discarded() == 0
  {}

  lemma FourEvents(e: Endpoint, a: Event, b: Event, c: Event, d: Event,
                   rule: (Endpoint, Event) -> bool)
    requires rule(e, a) && rule(Next(e, a), b)
    requires rule(Next(Next(e, a), b), c) && rule(Next(Next(Next(e, a), b), c), d)
    ensures var evs := [a] + ([b] + ([c] + [d]));
            Obeys(e, evs, rule) && Exec(e, evs) == Next(Next(Next(Next(e, a), b), c), d)
  {
    hide Next;
    var e1 := Next(e, a);
    var e2 := Next(e1, b);
    var e3 := Next(e2, c);
    OneEvent(e, a, rule);
    OneEvent(e1, b, rule);
    OneEvent(e2, c, rule);
    OneEvent(e3, d, rule);
    RunsCompose(e2, [c], [d], rule);
    RunsCompose(e1, [b], [c] + [d], rule);
    RunsCompose(e, [a], [b] + ([c] + [d]), rule);
  }

  /** A connecting side that sends at once, and a SYN-ACK that acknowledges the data: the ring is not
      told. */
  lemma EarlyAckSplits(e0: Endpoint) returns (evs: seq<Event>)
    requires Fresh(e0) && e0.conn.tcb.state == Closed
    ensures Obeys(e0, evs, Proper)
    ensures var c := Exec(e0, evs).conn;
            && c.tcb.state == Established && c.tcb.snd.nxt == c.send.nxt
            && c.tcb.snd.una != c.send.una
  {
    hide Next, Perform, Inv, Fresh;
    FreshIs(e0);
    FreshHistory(e0);
    OpenDoes(e0);
    var e1 := Next(e0, Open);
    var w, snd := Write([1]), Send(1460, 0.0);
    WriteDoes(e1, [1]);
    var e2 := Next(e1, w);
    SameWindow(e0, e1);
    EarlySendOpen(e2);
    SendPushes(e2, snd);
    StepKeeps(e2, snd);
    var e3 := Next(e2, snd);
    var synAck := TcpSegment(
      TcpHeader(0, 0, 0, SeqAdd(e3.Base(), e3.sent), 5, NO_FLAGS.(syn := true, ack := true),
                65535, 0, 0), []);
    EarlyAckBreaksAgreement(e3, synAck, 0.0);
    evs := [Open] + ([w] + ([snd] + [Deliver(synAck, 0.0)]));
    FourEvents(e0, Open, w, snd, Deliver(synAck, 0.0), Proper);
  }

  lemma SameWindow(e0: Endpoint, e1: Endpoint)
    requires Fresh(e0) && e0.conn.tcb.state == Closed && e1 == Next(e0, Open)
    ensures e1.conn.tcb.snd.wnd == e0.conn.tcb.snd.wnd && Opening(e1.conn)
    ensures e1.conn.send == e0.conn.send && e1.conn.rtx == e0.conn.rtx
  {
    hide SeqAdd;
  }

  function FinFrom(ackNum: u32): TcpSegment {
    TcpSegment(TcpHeader(0, 0, 0, ackNum, 5, NO_FLAGS.(fin := true, ack := true), 65535, 0, 0), [])
  }

  lemma FinDoes(e: Endpoint)
    requires InFlightOne(e)
    ensures var e' := Next(e, Deliver(FinFrom(e.Base()), 0.0));
            && Inv(e') && e'.conn.tcb.state == CloseWait && e'.una == 0 && e'.nxt == 1
            && e'.Base() == e.Base()
  {
    hide SeqAdd, SeqSub, QueueHolds;
    var seg := FinFrom(e.Base());
    SeqAddZero(e.Base());
    PositionsInjective(e.Base(), 0, 1);
    StepKeeps(e, Deliver(seg, 0.0));
    assert Next(e, Deliver(seg, 0.0)).conn == HandleEstablished(e.conn, seg, 0.0).conn;
  }

  lemma CloseFromCloseWait(e: Endpoint)
    requires Inv(e) && e.conn.tcb.state == CloseWait && e.una == 0 && e.nxt == 1
    ensures var e' := Next(e, Close);
            && Inv(e') && e'.conn.tcb.state == LastAck && e'.una == 0 && e'.nxt == 2
            && e'.Base() == e.Base()
  {
    hide SeqSub, ProcessSegment, QueueHolds;
    StepKeeps(e, Close);
    SeqAddAdd(e.Base(), e.nxt, 1);
    DistancePositions(e.Base(), e.nxt + 1, e.nxt);
  }

  lemma LastAckDoesShort(e: Endpoint)
    requires Inv(e) && e.conn.tcb.state == LastAck && e.una == 0 && e.nxt == 2
    ensures var c := Next(e, Deliver(PlainAck(SeqAdd(e.Base(), 1)), 0.0)).conn;
            c.tcb.state == Closed && c.tcb.snd.una != c.tcb.snd.nxt
  {
    hide SeqAdd, SeqSub, HandleEstablished, QueueHolds;
    var seg := PlainAck(SeqAdd(e.Base(), 1));
    AckPosition(e.Base(), 0, seg.header.ackNum, 2);
    PositionsInjective(e.Base(), 1, 2);
    assert Next(e, Deliver(seg, 0.0)).conn == HandleLastAck(e.conn, seg).conn;
  }

  /** LAST_ACK is left for CLOSED on an acknowledgement of the data alone; the FIN is never
      acknowledged. */
  lemma LastAckEndsEarly(e0: Endpoint) returns (evs: seq<Event>, last: Event)
    requires Fresh(e0) && e0.conn.tcb.state == Closed
    ensures Obeys(e0, evs, Proper) && Exec(e0, evs).conn.tcb.state == LastAck
    ensures var c := Next(Exec(e0, evs), last).conn;
            c.tcb.state == Closed && c.tcb.snd.una != c.tcb.snd.nxt
  {
    hide Next, Perform, Inv, Agrees, Connected, InFlightOne;
    var first, e := ConnectedRun(e0, 65535);
    var sending := [Write([1])] + [Send(1460, 0.0)];
    var e2 := OneByteInFlight(e);
    var fin := Deliver(FinFrom(e2.Base()), 0.0);
    FinDoes(e2);
    CloseFromCloseWait(Next(e2, fin));
    LastAckDoesShort(Next(Next(e2, fin), Close));
    last := Deliver(PlainAck(SeqAdd(e2.Base(), 1)), 0.0);
    OrderlyRun(e, sending);
    OneEvent(e2, fin, Proper);
    OneEvent(Next(e2, fin), Close, Proper);
    RunsCompose(e2, [fin], [Close], Proper);
    RunsCompose(e, sending, [fin] + [Close], Proper);
    RunsCompose(e0, first, sending + ([fin] + [Close]), Proper);
    evs := first + (sending + ([fin] + [Close]));
  }

  lemma {:induction false} OrderlyRun(e: Endpoint, evs: seq<Event>)
    requires Obeys(e, evs, Orderly)
    ensures Obeys(e, evs, Proper)
    decreases |evs|
  {
    hide Next;
    if evs != [] { OrderlyRun(Next(e, evs[0]), evs[1..]); }
  }
}
