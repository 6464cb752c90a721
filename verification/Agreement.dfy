/** The control block and the send ring each keep a copy of `una` and `nxt`.  When do the copies
    agree?  Always in ESTABLISHED and CLOSE_WAIT, unless the handshake ended with them apart, which
    depends on when data was first sent. */
module Agreement {
  import opened SeqArith
  import opened TcpHeaders
  import opened Tcbs
  import opened ConnectionSpec
  import opened Endpoints
  import opened SendSide
  import Lifecycle
  import Ring

  predicate CopiesAgree(c: Conn) {
    c.tcb.snd.una == c.send.una && c.tcb.snd.nxt == c.send.nxt
  }

  ghost predicate Agrees(e: Endpoint) {
    Transferring(e.conn) ==> e.una == e.Discarded() && e.nxt == e.sent
  }

  /** What agreement says about the machine words: from ESTABLISHED through CLOSE_WAIT the control
      block and the ring hold the same `una` and `nxt`, and what is in flight fits the ring. */
  lemma AgreementInWords(e: Endpoint)
    requires Inv(e) && Transferring(e.conn)
    ensures Agrees(e) <==> CopiesAgree(e.conn)
    ensures Agrees(e) ==>
              InFlight(e.conn) == e.sent - e.Discarded() <= |e.conn.send.data| <= Ring.CAPACITY
  {
    InFlightIs(e);
    PositionsInjective(e.Base(), e.una, e.Discarded());
    PositionsInjective(e.Base(), e.nxt, e.sent);
  }

  /** The segment completes the handshake. */
  predicate Completes(c: Conn, seg: TcpSegment) {
    var h := seg.header;
    && !h.flags.rst && h.flags.ack && AckAcceptable(c.tcb.snd.una, h.ackNum, c.tcb.snd.nxt)
    && ((c.tcb.state == SynSent && h.flags.syn) || c.tcb.state == SynReceived)
  }

  /** Both copies of `nxt` are equal before, and a SYN-ACK acknowledges the SYN alone. */
  predicate CompletesInStep(c: Conn, seg: TcpSegment) {
    && c.tcb.snd.nxt == c.send.nxt
    && (c.tcb.state == SynSent ==> seg.header.ackNum == c.send.una)
  }

  lemma SynSentEntry(e: Endpoint, seg: TcpSegment)
    requires Inv(e) && e.conn.tcb.state == SynSent && Completes(e.conn, seg)
    ensures var e' := Moved(e, HandleSynSent(e.conn, seg).conn);
            && e'.conn.tcb.state == Established
            && (CopiesAgree(e'.conn) <==> CompletesInStep(e.conn, seg))
  {
    hide SeqAdd, SeqSub;
  }

  lemma SynReceivedEntry(e: Endpoint, seg: TcpSegment)
    requires Inv(e) && e.conn.tcb.state == SynReceived && Completes(e.conn, seg)
    ensures var e' := Moved(e, HandleSynReceived(e.conn, seg).conn);
            && e'.conn.tcb.state == Established && e'.conn.tcb.snd.una == e'.conn.send.una
            && (CopiesAgree(e'.conn) <==> CompletesInStep(e.conn, seg))
  {
    hide SeqAdd, SeqSub;
    var k := AckMoves(e, seg.header.ackNum);
    SeqAddZero(e.Base());
  }

  /** The copies agree on entering ESTABLISHED exactly if, before, the two `nxt` were equal and - on
      the way from SYN_SENT, which never tells the ring - the SYN-ACK acknowledged no data.  From
      SYN_RECEIVED the two `una` always agree. */
  lemma EntryAgreesIff(e: Endpoint, seg: TcpSegment, now: real)
    requires Inv(e) && Completes(e.conn, seg)
    ensures var e' := Next(e, Deliver(seg, now));
            && e'.conn.tcb.state == Established
            && (CopiesAgree(e'.conn) <==> CompletesInStep(e.conn, seg))
            && (e.conn.tcb.state == SynReceived ==> e'.conn.tcb.snd.una == e'.conn.send.una)
  {
    hide SeqAdd, SeqSub, HandleEstablished;
    assert Next(e, Deliver(seg, now)) == Moved(e, ProcessSegment(e.conn, seg, now).conn);
    if e.conn.tcb.state == SynSent {
      SynSentEntry(e, seg);
    } else {
      SynReceivedEntry(e, seg);
    }
  }

  /** ESTABLISHED is entered in no other way. */
  lemma EntersOnlyByCompleting(e: Endpoint, ev: Event)
    requires Inv(e) && Proper(e, ev) && !Transferring(e.conn) && Transferring(Next(e, ev).conn)
    ensures ev.Deliver? && Completes(e.conn, ev.seg)
  {
    hide SeqAdd, SeqSub, HandleEstablished, AckAcceptable;
  }

  predicate EntersInStep(e: Endpoint, ev: Event) {
    && Proper(e, ev)
    && (ev.Deliver? && Completes(e.conn, ev.seg) ==> CompletesInStep(e.conn, ev.seg))
  }

  lemma EstablishedAgrees(e: Endpoint, seg: TcpSegment, now: real)
    requires Inv(e) && Agrees(e) && e.conn.tcb.state == Established
    ensures Agrees(Moved(e, HandleEstablished(e.conn, seg, now).conn))
  {
    hide SeqAdd, SeqSub, HandleEstablished;
    var e' := Moved(e, HandleEstablished(e.conn, seg, now).conn);
    EstablishedSendSide(e.conn, seg, now);
    if IsNewAck(e.conn, seg) && !seg.header.flags.rst {
      WordsKept(e, e'.conn);
      var k := AckCarried(e, seg, now, e');
    }
  }

  lemma DeliverAgrees(e: Endpoint, seg: TcpSegment, now: real)
    requires Inv(e) && Agrees(e) && Transferring(e.conn)
    ensures Agrees(Moved(e, ProcessSegment(e.conn, seg, now).conn))
  {
    hide SeqAdd, SeqSub, HandleEstablished;
    if e.conn.tcb.state == Established { EstablishedAgrees(e, seg, now); }
  }

  lemma SendAgrees(e: Endpoint, ev: Event)
    requires Inv(e) && Agrees(e) && (ev.Send? || ev.Probe?)
    ensures Transferring(e.conn) ==> Agrees(Next(e, ev))
  {
    hide SeqAdd, SeqSub, ProcessSegment;
    if Outputs(e, ev) != [] {
      var b := Outputs(e, ev)[0];
      FirstTransmission(e, ev, b);
      SentPosition(e, |b.payload|);
    }
  }

  /** Once the copies agree, every event keeps them so until the connection closes. */
  lemma TransferAgrees(e: Endpoint, ev: Event)
    requires Inv(e) && Agrees(e) && Transferring(e.conn) && Proper(e, ev)
    ensures Agrees(Next(e, ev))
  {
    hide SeqAdd, SeqSub, ProcessSegment;
    match ev
    case Deliver(seg, now) =>
      DeliverAgrees(e, seg, now);
      assert Next(e, ev) == Moved(e, ProcessSegment(e.conn, seg, now).conn);
    case Send(_, _) => SendAgrees(e, ev);
    case Probe => SendAgrees(e, ev);
    case _ =>
  }

  lemma StepAgreesIff(e: Endpoint, ev: Event)
    requires Inv(e) && Agrees(e) && Proper(e, ev)
    ensures Agrees(Next(e, ev)) <==> EntersInStep(e, ev)
  {
    hide Next, Perform, Completes, CompletesInStep;
    StepKeeps(e, ev);
    if Transferring(e.conn) {
      TransferAgrees(e, ev);
      TransferringCompletesNothing(e.conn);
    } else if ev.Deliver? && Completes(e.conn, ev.seg) {
      EntryAgreesIff(e, ev.seg, ev.now);
      AgreementInWords(Next(e, ev));
    } else if Transferring(Next(e, ev).conn) {
      EntersOnlyByCompleting(e, ev);
    }
  }

  lemma TransferringCompletesNothing(c: Conn)
    requires Transferring(c)
    ensures forall seg :: !Completes(c, seg)
  {}

  /** The copies agree in every state of the run in which data flows. */
  ghost predicate AlwaysAgrees(e: Endpoint, evs: seq<Event>)
    decreases |evs|
  {
    && (Transferring(e.conn) ==> CopiesAgree(e.conn))
    && (evs == [] || AlwaysAgrees(Next(e, evs[0]), evs[1..]))
  }

  lemma {:induction false} RunAgreesIff(e: Endpoint, evs: seq<Event>)
    requires Inv(e) && Agrees(e) && Obeys(e, evs, Proper)
    ensures AlwaysAgrees(e, evs) <==> Obeys(e, evs, EntersInStep)
    ensures Obeys(e, evs, EntersInStep) ==> Inv(Exec(e, evs)) && Agrees(Exec(e, evs))
    decreases |evs|
  {
    hide Next, Perform, EntersInStep;
    if Transferring(e.conn) { AgreementInWords(e); }
    if evs != [] {
      var e' := Next(e, evs[0]);
      StepKeeps(e, evs[0]);
      StepAgreesIff(e, evs[0]);
      if Agrees(e') {
        RunAgreesIff(e', evs[1..]);
      } else {
        AgreementInWords(e');
      }
    }
  }

  lemma FreshAgrees(e: Endpoint)
    requires Fresh(e)
    ensures Agrees(e)
  {}

  /** Send-side agreement, exactly: over any run from a fresh connection the two copies agree in
      every state from ESTABLISHED through CLOSE_WAIT if and only if the handshake was completed in
      step. */
  lemma SendSideAgreementIff(e0: Endpoint, evs: seq<Event>)
    requires Fresh(e0) && Obeys(e0, evs, Proper)
    ensures AlwaysAgrees(e0, evs) <==> Obeys(e0, evs, EntersInStep)
  {
    FreshInv(e0);
    FreshAgrees(e0);
    RunAgreesIff(e0, evs);
  }

  /** And then what is in flight fits the ring, which holds the tail of the stream. */
  lemma SendSideAgreement(e0: Endpoint, evs: seq<Event>)
    requires Fresh(e0) && Obeys(e0, evs, Proper) && Obeys(e0, evs, EntersInStep)
    ensures var e := Exec(e0, evs);
            Transferring(e.conn) ==>
              && CopiesAgree(e.conn)
              && InFlight(e.conn) <= |e.conn.send.data| <= Ring.CAPACITY
              && |e.conn.send.data| <= |e.written|
              && e.conn.send.data == e.written[|e.written| - |e.conn.send.data|..]
  {
    hide Next, Perform, EntersInStep, QueueHolds, PhaseHolds, SeqAdd, SeqSub;
    FreshInv(e0);
    FreshAgrees(e0);
    RunAgreesIff(e0, evs);
    if Transferring(Exec(e0, evs).conn) { AgreementInWords(Exec(e0, evs)); }
  }

  /** Data is sent only once the handshake is over. */
  predicate Orderly(e: Endpoint, ev: Event) {
    Proper(e, ev) && (ev.Send? ==> !Opening(e.conn))
  }

  /** Then nothing has been sent or queued before. */
  ghost predicate Quiet(e: Endpoint) {
    Opening(e.conn) ==> e.sent == 0 && e.nxt <= 0 && e.conn.rtx.entries == []
  }

  lemma QuietDeliver(e: Endpoint, seg: TcpSegment, now: real)
    requires Inv(e) && Quiet(e)
    ensures Quiet(Moved(e, ProcessSegment(e.conn, seg, now).conn))
  {
    hide SeqAdd, SeqSub, HandleEstablished;
    if e.conn.tcb.state == Established { EstablishedSendSide(e.conn, seg, now); }
    SeqAddAdd(e.conn.tcb.snd.iss, 1, 0);
    if Opening(e.conn) { DistancePositions(e.Base(), 0, e.nxt); }
  }

  lemma StepQuiet(e: Endpoint, ev: Event)
    requires Inv(e) && Quiet(e) && Orderly(e, ev)
    ensures Quiet(Next(e, ev)) && EntersInStep(e, ev)
  {
    hide SeqAdd, SeqSub, ProcessSegment;
    if Opening(e.conn) { DistancePositions(e.Base(), 0, e.nxt); }
    match ev
    case Deliver(seg, now) =>
      QuietDeliver(e, seg, now);
      assert Next(e, ev) == Moved(e, ProcessSegment(e.conn, seg, now).conn);
      if Completes(e.conn, seg) { var k := AckMoves(e, seg.header.ackNum); }
    case Open => SeqAddAdd(e.conn.tcb.snd.iss, 1, 0);
    case _ =>
  }

  /** Runs that send only after the handshake complete it in step. */
  lemma {:induction false} OrderlyEntersInStep(e: Endpoint, evs: seq<Event>)
    requires Inv(e) && Quiet(e) && Obeys(e, evs, Orderly)
    ensures Obeys(e, evs, EntersInStep) && Obeys(e, evs, Proper) && Quiet(Exec(e, evs))
    decreases |evs|
  {
    hide Next, Perform, EntersInStep, Quiet, QueueHolds, PhaseHolds;
    if evs != [] {
      StepKeeps(e, evs[0]);
      StepQuiet(e, evs[0]);
      OrderlyEntersInStep(Next(e, evs[0]), evs[1..]);
    }
  }

  /** Under agreement an acceptable acknowledgement is honoured exactly: the ring drops the bytes
      it covers, at least one and never more than are in flight. */
  lemma AcknowledgementHonoured(e: Endpoint, seg: TcpSegment, now: real)
    requires Inv(e) && Agrees(e) && e.conn.tcb.state == Established
    requires IsNewAck(e.conn, seg) && !seg.header.flags.rst
    ensures var e' := Next(e, Deliver(seg, now));
            && e'.conn.send.una == seg.header.ackNum
            && e'.Discarded() == e.Discarded() + SeqSub(seg.header.ackNum, e.conn.send.una)
            && e.Discarded() < e'.Discarded() <= e.sent
  {
    hide SeqAdd, SeqSub, HandleEstablished;
    var e' := Moved(e, HandleEstablished(e.conn, seg, now).conn);
    assert Next(e, Deliver(seg, now)) == e';
    EstablishedSendSide(e.conn, seg, now);
    WordsKept(e, e'.conn);
    var k := AckCarried(e, seg, now, e');
    SeqSubPositions(e.Base(), e.Discarded(), k);
  }

  /** The event takes the number behind the SYN as `snd.nxt`. */
  predicate TakesSyn(c: Conn, ev: Event) {
    || (ev.Open? && c.tcb.state == Closed)
    || (ev.Deliver? && c.tcb.state == Listen && !ev.seg.header.flags.rst
        && !ev.seg.header.flags.ack && ev.seg.header.flags.syn)
  }

  predicate EmitsData(e: Endpoint, ev: Event) {
    ev.Send? && Outputs(e, ev) != []
  }

  /** Read off the history of a run: was data transmitted before the last SYN exchange began, and
      none since?  `emitted` and `stale` are the answers so far. */
  predicate Stale(e: Endpoint, evs: seq<Event>, emitted: bool, stale: bool)
    decreases |evs|
  {
    if evs == [] then stale
    else
      var now := EmitsData(e, evs[0]);
      Stale(Next(e, evs[0]), evs[1..], emitted || now,
            if now then false else if TakesSyn(e.conn, evs[0]) then emitted else stale)
  }

  lemma SendHistory(e: Endpoint, ev: Event)
    requires Inv(e) && Opening(e.conn) && ev.Send?
    ensures var e' := Next(e, ev);
            if EmitsData(e, ev) then e'.nxt == e'.sent && e'.sent > 0
            else e'.nxt == e.nxt && e'.sent == e.sent
  {
    hide SeqAdd, SeqSub, ProcessSegment;
    if EmitsData(e, ev) {
      var b := Outputs(e, ev)[0];
      FirstTransmission(e, ev, b);
      SentPosition(e, |b.payload|);
    }
  }

  lemma StaleStep(e: Endpoint, ev: Event)
    requires Inv(e) && Proper(e, ev) && Opening(e.conn) && Opening(Next(e, ev).conn)
    ensures var e' := Next(e, ev);
            && (e'.sent > 0 <==> e.sent > 0 || EmitsData(e, ev))
            && (e'.nxt != e'.sent <==>
                  if EmitsData(e, ev) then false
                  else if TakesSyn(e.conn, ev) then e.sent > 0 else e.nxt != e.sent)
  {
    hide SeqAdd, SeqSub, HandleEstablished;
    SeqAddAdd(e.conn.tcb.snd.iss, 1, 0);
    DistancePositions(e.Base(), 0, e.nxt);
    if ev.Send? { SendHistory(e, ev); }
  }

  /** How the two `nxt` can stand to each other while no FIN has been sent: in step, or the control
      block's was left behind at the first byte by the SYN exchange, and nothing is acknowledged. */
  ghost predicate Shape(e: Endpoint) {
    && (Opening(e.conn) ==> e.nxt == -1 || e.nxt == 0 || e.nxt == e.sent)
    && (!Opening(e.conn) ==> e.nxt == e.sent || (e.nxt == 0 && e.una == 0))
  }

  lemma SendShape(e: Endpoint, ev: Event)
    requires Inv(e) && Shape(e) && (ev.Send? || ev.Probe?)
    ensures Shape(Next(e, ev))
    ensures var e' := Next(e, ev); e'.sent == e.sent || e'.nxt == e'.sent
  {
    hide SeqAdd, SeqSub, ProcessSegment, QueueHolds;
    if Outputs(e, ev) != [] {
      var b := Outputs(e, ev)[0];
      FirstTransmission(e, ev, b);
      SentPosition(e, |b.payload|);
    } else {
      TransmitsIff(e, ev);
    }
  }

  lemma OpeningShape(e: Endpoint, seg: TcpSegment, now: real)
    requires Inv(e) && Shape(e) && Opening(e.conn)
    ensures Shape(Moved(e, ProcessSegment(e.conn, seg, now).conn))
  {
    hide SeqAdd, SeqSub, HandleEstablished, QueueHolds;
    SeqAddAdd(e.conn.tcb.snd.iss, 1, 0);
    DistancePositions(e.Base(), 0, e.nxt);
    if Completes(e.conn, seg) { var k := AckMoves(e, seg.header.ackNum); }
  }

  lemma TransferShape(e: Endpoint, seg: TcpSegment, now: real)
    requires Inv(e) && Shape(e) && !Opening(e.conn) && !Lifecycle.FinOut(e.conn)
    ensures Shape(Moved(e, ProcessSegment(e.conn, seg, now).conn))
  {
    hide SeqAdd, SeqSub, HandleEstablished, QueueStep, QueueHolds;
    var e' := Moved(e, ProcessSegment(e.conn, seg, now).conn);
    if e.conn.tcb.state == Established {
      EstablishedSendSide(e.conn, seg, now);
      WordsKept(e, e'.conn);
      if IsNewAck(e.conn, seg) && !seg.header.flags.rst { var k := AckCarried(e, seg, now, e'); }
    }
  }

  lemma ShapeStep(e: Endpoint, ev: Event)
    requires Inv(e) && Shape(e) && Proper(e, ev)
    requires !Lifecycle.FinOut(e.conn) && !(ev.Close? && Transferring(e.conn))
    ensures Shape(Next(e, ev))
  {
    hide SeqAdd, SeqSub, ProcessSegment;
    match ev
    case Deliver(seg, now) =>
      if Opening(e.conn) { OpeningShape(e, seg, now); } else { TransferShape(e, seg, now); }
      assert Next(e, ev) == Moved(e, ProcessSegment(e.conn, seg, now).conn);
    case Send(_, _) => SendShape(e, ev);
    case Probe => SendShape(e, ev);
    case Open =>
      SeqAddAdd(e.conn.tcb.snd.iss, 1, 0);
      DistancePositions(e.Base(), 0, e.nxt);
    case _ =>
  }

  lemma OpeningBefore(e: Endpoint, ev: Event)
    requires Inv(e) && Proper(e, ev) && Opening(Next(e, ev).conn)
    ensures Opening(e.conn)
  {
    hide Perform;
    if !Opening(e.conn) { Lifecycle.StateStep(e, ev); }
  }

  lemma {:induction false} OpeningThroughout(e: Endpoint, evs: seq<Event>)
    requires Inv(e) && Obeys(e, evs, Proper) && Opening(Exec(e, evs).conn)
    ensures Opening(e.conn)
    decreases |evs|
  {
    hide Next, Perform, QueueHolds, PhaseHolds;
    if evs != [] {
      StepKeeps(e, evs[0]);
      OpeningThroughout(Next(e, evs[0]), evs[1..]);
      OpeningBefore(e, evs[0]);
    }
  }

  lemma {:induction false} RunStale(e: Endpoint, evs: seq<Event>, emitted: bool, stale: bool)
    requires Inv(e) && Obeys(e, evs, Proper) && Opening(Exec(e, evs).conn)
    requires (emitted <==> e.sent > 0) && (stale <==> e.nxt != e.sent)
    ensures Exec(e, evs).nxt != Exec(e, evs).sent <==> Stale(e, evs, emitted, stale)
    ensures Inv(Exec(e, evs))
    decreases |evs|
  {
    hide Next, Perform, TakesSyn, EmitsData, QueueHolds, PhaseHolds;
    if evs != [] {
      StepKeeps(e, evs[0]);
      OpeningThroughout(e, evs);
      OpeningThroughout(Next(e, evs[0]), evs[1..]);
      StaleStep(e, evs[0]);
      var now := EmitsData(e, evs[0]);
      RunStale(Next(e, evs[0]), evs[1..], emitted || now,
               if now then false else if TakesSyn(e.conn, evs[0]) then emitted else stale);
    }
  }

  /** When the two `nxt` differ as the handshake completes, in terms of what happened before:
      exactly if data went out before the SYN exchange and not again during it. */
  lemma EntryHistory(e0: Endpoint, evs: seq<Event>, seg: TcpSegment, now: real)
    requires Fresh(e0) && Obeys(e0, evs, Proper) && Completes(Exec(e0, evs).conn, seg)
    ensures var c := Next(Exec(e0, evs), Deliver(seg, now)).conn;
            c.tcb.snd.nxt != c.send.nxt <==> Stale(e0, evs, false, true)
  {
    hide SeqAdd, SeqSub, HandleEstablished;
    FreshInv(e0);
    var e := Exec(e0, evs);
    RunStale(e0, evs, false, true);
    PositionsInjective(e.Base(), e.nxt, e.sent);
    assert Next(e, Deliver(seg, now)).conn == ProcessSegment(e.conn, seg, now).conn;
  }

  /** A send goes out whenever the window is open and something is unsent. */
  lemma SendEmits(e: Endpoint, maxPayload: nat, now: real)
    requires Inv(e) && InFlight(e.conn) < EffectiveWindow(e.conn) && maxPayload > 0
    requires e.Discarded() <= e.sent < |e.written|
    ensures Outputs(e, Send(maxPayload, now)) != []
  {
    hide SeqAdd, SeqSub, ProcessSegment;
    NextSegmentIsNextBytes(e, Min(maxPayload, EffectiveWindow(e.conn) - InFlight(e.conn)));
  }

  /** The window of a new connection is open. */
  lemma FreshWindow(e: Endpoint, data: seq<u8>)
    requires Fresh(e) && e.conn.tcb.state == Listen
    ensures var e1 := Next(e, Write(data));
            && InFlight(e1.conn) == 0 < EffectiveWindow(e1.conn) && e1.conn.tcb.state == Listen
            && e1.Discarded() == 0 == e1.sent && (data != [] ==> |e1.written| > 0)
  {
    hide SeqAdd, SeqSub;
    SeqSubSelf(e.conn.tcb.snd.iss);
  }

  lemma SendKeepsState(e: Endpoint, maxPayload: nat, now: real)
    ensures Next(e, Send(maxPayload, now)).conn.tcb.state == e.conn.tcb.state
  {}

  /** Nothing stops a listening connection from sending what the application wrote. */
  lemma ListenerSends(e: Endpoint, data: seq<u8>)
    requires Fresh(e) && e.conn.tcb.state == Listen && data != []
    ensures var e' := Next(Next(e, Write(data)), Send(1460, 0.0));
            Inv(e') && e'.conn.tcb.state == Listen && e'.sent > 0
  {
    hide Next, Perform, QueueHolds, PhaseHolds, WordsHold, Fresh;
    FreshInv(e);
    var e1 := Next(e, Write(data));
    StepKeeps(e, Write(data));
    FreshWindow(e, data);
    SendEmits(e1, 1460, 0.0);
    FirstTransmission(e1, Send(1460, 0.0), Outputs(e1, Send(1460, 0.0))[0]);
    StepKeeps(e1, Send(1460, 0.0));
    SendKeepsState(e1, 1460, 0.0);
  }

  /** Then an ordinary handshake leaves the two copies of `snd.nxt` different. */
  lemma EarlyDataBreaksAgreement(e: Endpoint, syn: TcpSegment, ack: TcpSegment)
    requires Inv(e) && e.conn.tcb.state == Listen && 0 < e.sent
    requires syn.header.flags == NO_FLAGS.(syn := true)
    requires ack.header.flags == NO_FLAGS.(ack := true) && ack.header.ackNum == e.Base()
    ensures var c := Next(Next(e, Deliver(syn, 0.0)), Deliver(ack, 0.0)).conn;
            c.tcb.state == Established && c.tcb.snd.nxt != c.send.nxt
  {
    hide SeqAdd, SeqSub, HandleEstablished;
    SeqAddZero(e.Base());
    var e1 := Next(e, Deliver(syn, 0.0));
    StepKeeps(e, Deliver(syn, 0.0));
    assert e1.conn == HandleListen(e.conn, syn).conn;
    AckPosition(e.Base(), -1, ack.header.ackNum, 0);
    SeqAddAdd(e.conn.tcb.snd.iss, 1, -1);
    PositionsInjective(e.Base(), 0, e.sent);
    EntryAgreesIff(e1, ack, 0.0);
  }

  /** And a SYN-ACK that acknowledges early data leaves the two copies of `una` different. */
  lemma EarlyAckBreaksAgreement(e: Endpoint, seg: TcpSegment, now: real)
    requires Inv(e) && e.conn.tcb.state == SynSent && 0 < e.sent == e.nxt
    requires seg.header.flags == NO_FLAGS.(syn := true, ack := true)
    requires seg.header.ackNum == SeqAdd(e.Base(), e.sent)
    ensures var c := Next(e, Deliver(seg, now)).conn;
            c.tcb.state == Established && c.tcb.snd.nxt == c.send.nxt && c.tcb.snd.una != c.send.una
  {
    hide SeqAdd, SeqSub, HandleEstablished;
    AckPosition(e.Base(), -1, seg.header.ackNum, e.nxt);
    PositionsInjective(e.Base(), 0, e.sent);
    EntryAgreesIff(e, seg, now);
    assert Next(e, Deliver(seg, now)).conn == HandleSynSent(e.conn, seg).conn;
  }
}
