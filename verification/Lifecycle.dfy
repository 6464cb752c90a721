/** The connection states over whole runs (section 3.5 of RFC 793), with `connect` used at most
    before any contact. */
module Lifecycle {
  import opened SeqArith
  import opened TcpHeaders
  import opened Tcbs
  import opened ConnectionSpec
  import opened Endpoints
  import SendSide

  /** Established once, and whatever can follow. */
  predicate Past(c: Conn) {
    c.recv.Some? && c.tcb.state !in {Listen, SynSent, SynReceived}
  }

  function Rank(s: TcbState): nat {
    match s
    case Established => 4
    case FinWait1 => 3
    case CloseWait => 2
    case FinWait2 => 2
    case Closing => 2
    case LastAck => 1
    case TimeWait => 1
    case _ => 0
  }

  lemma StateDeliver(c: Conn, seg: TcpSegment, now: real)
    requires Past(c)
    ensures var c' := ProcessSegment(c, seg, now).conn;
            Past(c') && (c'.tcb.state == c.tcb.state || Rank(c'.tcb.state) < Rank(c.tcb.state))
  {
    hide SeqAdd, SeqSub, AckAcceptable, HandleEstablished, AfterFin;
    if c.tcb.state == Established { SendSide.EstablishedOutcome(c, seg, now); }
  }

  lemma StateStep(e: Endpoint, ev: Event)
    requires Past(e.conn) && Proper(e, ev)
    ensures var c' := Next(e, ev).conn;
            Past(c') && (c'.tcb.state == e.conn.tcb.state
                         || Rank(c'.tcb.state) < Rank(e.conn.tcb.state))
  {
    hide SeqAdd, SeqSub, ProcessSegment;
    if ev.Deliver? { StateDeliver(e.conn, ev.seg, ev.now); }
  }

  function StateChanges(e: Endpoint, evs: seq<Event>): nat
    decreases |evs|
  {
    if evs == [] then 0
    else
      (if Next(e, evs[0]).conn.tcb.state != e.conn.tcb.state then 1 else 0)
      + StateChanges(Next(e, evs[0]), evs[1..])
  }

  lemma {:induction false} RunDescends(e: Endpoint, evs: seq<Event>)
    requires SendSide.Inv(e) && Past(e.conn) && Obeys(e, evs, Proper)
    ensures var c' := Exec(e, evs).conn;
            Past(c') && StateChanges(e, evs) <= Rank(e.conn.tcb.state) - Rank(c'.tcb.state)
    decreases |evs|
  {
    hide Perform;
    if evs != [] {
      StateStep(e, evs[0]);
      SendSide.StepKeeps(e, evs[0]);
      RunDescends(Next(e, evs[0]), evs[1..]);
    }
  }

  /** After ESTABLISHED no opening state recurs, and at most four state changes remain. */
  lemma EstablishedOnlyDescends(e0: Endpoint, before: seq<Event>, evs: seq<Event>)
    requires Fresh(e0) && Obeys(e0, before, Proper)
    requires Exec(e0, before).conn.tcb.state == Established
    requires Obeys(Exec(e0, before), evs, Proper)
    ensures var e := Exec(e0, before);
            StateChanges(e, evs) <= 4
            && Exec(e, evs).conn.tcb.state !in {Listen, SynSent, SynReceived}
  {
    SendSide.FreshInv(e0);
    SendSide.RunKeeps(e0, before);
    RunDescends(Exec(e0, before), evs);
  }

  function FinsIn(out: seq<Builder>): nat {
    if out == [] then 0 else (if out[0].flags.fin then 1 else 0) + FinsIn(out[1..])
  }

  function FinsSent(e: Endpoint, evs: seq<Event>): nat
    decreases |evs|
  {
    if evs == [] then 0 else FinsIn(Outputs(e, evs[0])) + FinsSent(Next(e, evs[0]), evs[1..])
  }

  /** The event is a FIN that the connection processes. */
  predicate HearsFin(c: Conn, ev: Event) {
    && ev.Deliver? && ev.seg.header.flags.fin && !ev.seg.header.flags.rst
    && c.tcb.state in {Established, FinWait1, FinWait2}
    && (c.tcb.state == Established ==> !SendSide.ResendsHead(c, ev.seg))
  }

  function FinsHeard(e: Endpoint, evs: seq<Event>): nat
    decreases |evs|
  {
    if evs == [] then 0
    else (if HearsFin(e.conn, evs[0]) then 1 else 0) + FinsHeard(Next(e, evs[0]), evs[1..])
  }

  /** The states in which no FIN has been sent and one may yet be. */
  predicate BeforeFin(c: Conn) { Opening(c) || Transferring(c) }

  predicate FinOut(c: Conn) { c.tcb.state in {FinWait1, FinWait2, Closing, LastAck, TimeWait} }

  predicate FinIn(c: Conn) { c.tcb.state in {CloseWait, Closing, LastAck, TimeWait} }

  lemma {:induction false} NoFins(out: seq<Builder>)
    requires forall b :: b in out ==> !b.flags.fin
    ensures FinsIn(out) == 0
  {
    if out != [] { NoFins(out[1..]); }
  }

  /** Only closing transmits a FIN, an empty segment that takes the number `snd.nxt`. */
  lemma FinOutputs(e: Endpoint, ev: Event)
    ensures forall b :: b in Outputs(e, ev) && b.flags.fin ==>
              && ev.Close? && Transferring(e.conn)
              && b.payload == [] && b.seqNum == e.conn.tcb.snd.nxt
    ensures ev.Close? && Transferring(e.conn) ==>
              Outputs(e, ev) == [e.conn.BuildFinAck()]
  {
    hide SeqAdd, SeqSub, HandleEstablished;
    if ev.Deliver? && e.conn.tcb.state == Established {
      SendSide.EstablishedOutcome(e.conn, ev.seg, ev.now);
    }
  }

  /** A reset is only ever the answer, during the handshake, to an acknowledgement of something never
      sent; it takes the number that acknowledgement asked for, and a reset is never answered by
      one. */
  lemma ResetsRefuse(e: Endpoint, ev: Event)
    ensures forall b :: b in Outputs(e, ev) && b.flags.rst ==>
              && ev.Deliver? && ev.seg.header.flags.ack && !ev.seg.header.flags.rst
              && e.conn.tcb.state in {Listen, SynSent, SynReceived}
              && (e.conn.tcb.state != Listen ==> !IsNewAck(e.conn, ev.seg))
              && b.seqNum == ev.seg.header.ackNum && b.payload == []
              && Next(e, ev).conn == e.conn
  {
    hide SeqAdd, SeqSub, AckAcceptable, HandleEstablished;
    if ev.Deliver? && e.conn.tcb.state == Established {
      SendSide.EstablishedOutcome(e.conn, ev.seg, ev.now);
    }
  }

  lemma FinsOfStep(e: Endpoint, ev: Event)
    ensures FinsIn(Outputs(e, ev)) == if ev.Close? && Transferring(e.conn) then 1 else 0
  {
    hide Perform;
    FinOutputs(e, ev);
    if !(ev.Close? && Transferring(e.conn)) { NoFins(Outputs(e, ev)); }
  }

  lemma FinDeliver(c: Conn, seg: TcpSegment, now: real)
    requires c.recv.None? ==> c.tcb.state in {Listen, SynSent, Closed}
    ensures var c' := ProcessSegment(c, seg, now).conn;
            && (BeforeFin(c') ==> BeforeFin(c)) && (FinOut(c') ==> FinOut(c))
            && (!FinIn(c) ==> (FinIn(c') <==> HearsFin(c, Deliver(seg, now))))
            && (FinIn(c) ==> FinIn(c') || c'.tcb.state == Closed)
  {
    hide SeqAdd, SeqSub, AckAcceptable, HandleEstablished, SendSide.ResendsHead;
    if c.tcb.state == Established { SendSide.EstablishedOutcome(c, seg, now); }
  }

  /** A FIN is processed exactly when a state is entered that says so, and once there the connection
      stays there until it is closed. */
  lemma FinStep(e: Endpoint, ev: Event)
    requires Proper(e, ev)
    requires e.conn.recv.None? ==> e.conn.tcb.state in {Listen, SynSent, Closed}
    ensures var c, c', closes := e.conn, Next(e, ev).conn, ev.Close? && Transferring(e.conn);
            && (closes ==> !BeforeFin(c'))
            && (BeforeFin(c') ==> BeforeFin(c))
            && (FinOut(c') ==> FinOut(c) || closes)
            && (!FinIn(c) ==> (FinIn(c') <==> HearsFin(c, ev)))
            && (FinIn(c) ==> FinIn(c') || c'.tcb.state == Closed)
  {
    hide SeqAdd, SeqSub, ProcessSegment, SendSide.ResendsHead;
    if ev.Deliver? { FinDeliver(e.conn, ev.seg, ev.now); }
  }

  /** The peer's FIN was processed and cannot be again: CLOSED is final once the peer was heard. */
  predicate HeardAll(c: Conn) { FinIn(c) || (c.tcb.state == Closed && c.recv.Some?) }

  lemma HeardAllStays(e: Endpoint, ev: Event)
    requires Proper(e, ev) && HeardAll(e.conn)
    requires FinIn(e.conn) ==> e.conn.recv.Some?
    ensures HeardAll(Next(e, ev).conn) && !HearsFin(e.conn, ev)
  {
    hide SeqAdd, SeqSub, HandleEstablished, AckAcceptable;
  }

  lemma {:induction false} RunFins(e: Endpoint, evs: seq<Event>)
    requires SendSide.Inv(e) && Obeys(e, evs, Proper)
    ensures var c, c' := e.conn, Exec(e, evs).conn;
            && (BeforeFin(c') ==> BeforeFin(c))
            && FinsSent(e, evs) <= (if BeforeFin(c) then 1 else 0) - (if BeforeFin(c') then 1 else 0)
            && (FinOut(c') ==> FinOut(c) || FinsSent(e, evs) > 0)
            && (FinIn(c') ==> FinIn(c) || FinsHeard(e, evs) > 0)
            && (HeardAll(c) ==> HeardAll(c') && FinsHeard(e, evs) == 0)
            && FinsHeard(e, evs) <= 1 && (FinsHeard(e, evs) == 1 ==> HeardAll(c'))
    decreases |evs|
  {
    hide Next, Outputs, Perform, HearsFin, SendSide.QueueHolds, SendSide.RingHolds;
    if evs != [] {
      FinsOfStep(e, evs[0]);
      FinStep(e, evs[0]);
      SendSide.StepKeeps(e, evs[0]);
      if HeardAll(e.conn) { HeardAllStays(e, evs[0]); }
      RunFins(Next(e, evs[0]), evs[1..]);
    }
  }

  /** Over a whole life at most one FIN is transmitted and at most one of the peer's is processed; the
      closing states past FIN_WAIT_1 have sent exactly one, CLOSE_WAIT, CLOSING, LAST_ACK and
      TIME_WAIT have processed the peer's, and after that there is only CLOSED. */
  lemma FinsOverLife(e0: Endpoint, evs: seq<Event>)
    requires Fresh(e0) && Obeys(e0, evs, Proper)
    ensures var c := Exec(e0, evs).conn;
            && FinsSent(e0, evs) <= 1 && FinsHeard(e0, evs) <= 1
            && (FinOut(c) ==> FinsSent(e0, evs) == 1)
            && (FinIn(c) ==> FinsHeard(e0, evs) == 1)
            && (FinsHeard(e0, evs) == 1 ==> FinIn(c) || c.tcb.state == Closed)
  {
    hide Next, Perform, HearsFin, SendSide.QueueHolds;
    SendSide.FreshInv(e0);
    RunFins(e0, evs);
  }

  /** TIME_WAIT starts the clock when it is entered, and only 60 seconds end it. */
  lemma TimeWaitStep(e: Endpoint, ev: Event)
    ensures var c, c' := e.conn, Next(e, ev).conn;
            && (c.tcb.state != TimeWait && c'.tcb.state == TimeWait ==>
                  ev.Deliver? && c'.timeWaitStart == Some(ev.now))
            && (c.tcb.state == TimeWait && c'.tcb.state == TimeWait ==>
                  c'.timeWaitStart == c.timeWaitStart)
            && (c.tcb.state == TimeWait && c'.tcb.state != TimeWait ==>
                  ev.Tick? && c.timeWaitStart.Some?
                  && ev.now - c.timeWaitStart.value >= 60.0 && c'.tcb.state == Closed)
            && (c.tcb.state == TimeWait && ev.Tick? && c.timeWaitStart.Some? ==>
                  ev.now - c.timeWaitStart.value >= 60.0 ==> c'.tcb.state == Closed)
  {
    hide SeqAdd, SeqSub, HandleEstablished;
    if ev.Deliver? && e.conn.tcb.state == Established {
      SendSide.EstablishedOutcome(e.conn, ev.seg, ev.now);
    }
  }

  lemma {:induction false} TimeWaitLasts(e: Endpoint, evs: seq<Event>, t0: real)
    requires e.conn.tcb.state == TimeWait
    requires e.conn.timeWaitStart == Some(t0) && Exec(e, evs).conn.tcb.state != TimeWait
    ensures exists i :: 0 <= i < |evs| && evs[i].Tick? && evs[i].now >= t0 + 60.0
    decreases |evs|
  {
    hide Perform;
    if evs != [] {
      TimeWaitStep(e, evs[0]);
      if Next(e, evs[0]).conn.tcb.state == TimeWait {
        TimeWaitLasts(Next(e, evs[0]), evs[1..], t0);
        var i :| 0 <= i < |evs[1..]| && evs[1..][i].Tick? && evs[1..][i].now >= t0 + 60.0;
        assert evs[i + 1] == evs[1..][i];
      }
    }
  }

  /** CLOSED is final once the peer was heard. */
  lemma {:induction false} ClosedStays(e: Endpoint, evs: seq<Event>)
    requires e.conn.tcb.state == Closed && e.conn.recv.Some?
    requires Obeys(e, evs, Proper)
    ensures Exec(e, evs).conn.tcb.state == Closed
    decreases |evs|
  {
    hide Next;
    if evs != [] {
      ClosedStep(e, evs[0]);
      ClosedStays(Next(e, evs[0]), evs[1..]);
    }
  }

  lemma ClosedStep(e: Endpoint, ev: Event)
    requires e.conn.tcb.state == Closed && e.conn.recv.Some? && Proper(e, ev)
    ensures Next(e, ev).conn.tcb.state == Closed && Next(e, ev).conn.recv.Some?
  {
    hide SeqAdd, SeqSub, HandleEstablished;
  }

  lemma {:induction false} TimeWaitEnds(e: Endpoint, evs: seq<Event>, t0: real, i: nat)
    requires e.conn.tcb.state == TimeWait && e.conn.recv.Some?
    requires e.conn.timeWaitStart == Some(t0) && Obeys(e, evs, Proper)
    requires i < |evs| && evs[i].Tick? && evs[i].now >= t0 + 60.0
    ensures Exec(e, evs).conn.tcb.state == Closed
    decreases |evs|
  {
    hide Next;
    TimeWaitStep(e, evs[0]);
    TimeWaitHeard(e, evs[0]);
    if Next(e, evs[0]).conn.tcb.state == TimeWait {
      TimeWaitEnds(Next(e, evs[0]), evs[1..], t0, i - 1);
    } else {
      ClosedStays(Next(e, evs[0]), evs[1..]);
    }
  }

  lemma TimeWaitHeard(e: Endpoint, ev: Event)
    requires e.conn.tcb.state == TimeWait && e.conn.recv.Some?
    ensures Next(e, ev).conn.recv.Some?
  {
    hide SeqAdd, SeqSub, HandleEstablished;
  }

  /** A connection that enters TIME_WAIT at time t0 has left it again exactly if there was a clock
      reading of at least t0 + 60 seconds; resets and everything else do not end the wait. */
  lemma TimeWaitEndsAfter60s(e: Endpoint, ev: Event, evs: seq<Event>)
    requires e.conn.tcb.state != TimeWait
    requires Next(e, ev).conn.tcb.state == TimeWait
    ensures ev.Deliver?
    ensures var e', tick := Next(e, ev), exists i :: 0 <= i < |evs| && evs[i].Tick?
                                                     && evs[i].now >= ev.now + 60.0;
            && (Exec(e', evs).conn.tcb.state != TimeWait ==> tick)
            && (tick && e'.conn.recv.Some? && Obeys(e', evs, Proper) ==>
                  Exec(e', evs).conn.tcb.state == Closed)
  {
    hide Next, Exec;
    var e' := Next(e, ev);
    TimeWaitStep(e, ev);
    if Exec(e', evs).conn.tcb.state != TimeWait { TimeWaitLasts(e', evs, ev.now); }
    if e'.conn.recv.Some? && Obeys(e', evs, Proper) {
      if i :| 0 <= i < |evs| && evs[i].Tick? && evs[i].now >= ev.now + 60.0 {
        TimeWaitEnds(e', evs, ev.now, i);
      }
    }
  }

  /** A reply to a segment that carries data: only fast retransmit produces one. */
  predicate Resends(e: Endpoint, ev: Event) {
    ev.Deliver? && exists b :: b in Outputs(e, ev) && b.payload != []
  }

  /** No event is an acknowledgement of new data in ESTABLISHED. */
  predicate NoNewAck(e: Endpoint, ev: Event) {
    ev.Deliver? && e.conn.tcb.state == Established && !ev.seg.header.flags.rst ==>
      !IsNewAck(e.conn, ev.seg)
  }

  function Resendings(e: Endpoint, evs: seq<Event>): nat
    decreases |evs|
  {
    if evs == [] then 0
    else (if Resends(e, evs[0]) then 1 else 0) + Resendings(Next(e, evs[0]), evs[1..])
  }

  lemma EstablishedDuplicates(c: Conn, seg: TcpSegment, now: real)
    requires (IsNewAck(c, seg) ==> seg.header.flags.rst)
    ensures var d, r := c.tcb.dupAckCount, HandleEstablished(c, seg, now);
            && d <= r.conn.tcb.dupAckCount
            && (r.out.Some? && r.out.value.payload != [] ==> d == 2 && r.conn.tcb.dupAckCount == 3)
  {
    hide SeqAdd, SeqSub, AckAcceptable;
  }

  lemma DuplicateStep(e: Endpoint, ev: Event)
    requires NoNewAck(e, ev)
    ensures var d, d' := e.conn.tcb.dupAckCount, Next(e, ev).conn.tcb.dupAckCount;
            d <= d' && (Resends(e, ev) ==> d == 2 && d' == 3)
  {
    hide SeqAdd, SeqSub, HandleEstablished;
    if ev.Deliver? && e.conn.tcb.state == Established {
      EstablishedDuplicates(e.conn, ev.seg, ev.now);
    }
  }

  /** Between two acknowledgements of new data fast retransmit fires at most once, for any number of
      duplicates, past the saturation of the 8-bit counter included. */
  lemma {:induction false} FastRetransmitOnce(e: Endpoint, evs: seq<Event>)
    requires Obeys(e, evs, NoNewAck)
    ensures Resendings(e, evs) <= if e.conn.tcb.dupAckCount < 3 then 1 else 0
    decreases |evs|
  {
    hide Perform;
    if evs != [] {
      DuplicateStep(e, evs[0]);
      FastRetransmitOnce(Next(e, evs[0]), evs[1..]);
    }
  }

  /** FIN_WAIT_2 is entered only by an acknowledgement of exactly `snd.nxt`, the FIN included. */
  lemma FinWait2NeedsFullAck(c: Conn, seg: TcpSegment, now: real)
    requires c.tcb.state == FinWait1
    ensures ProcessSegment(c, seg, now).conn.tcb.state == FinWait2 ==>
              seg.header.flags.ack && seg.header.ackNum == c.tcb.snd.nxt
  {
    if ProcessSegment(c, seg, now).conn.tcb.state == FinWait2 {
      SeqLeAntisymmetric(seg.header.ackNum, c.tcb.snd.nxt);
    }
  }

  /** CLOSING and LAST_ACK are less strict: any acceptable acknowledgement ends them, whether or not
      it covers the FIN. */
  lemma ClosingEndsOnAnyAck(c: Conn, seg: TcpSegment, now: real)
    requires c.tcb.state in {Closing, LastAck} && !seg.header.flags.rst
    ensures ProcessSegment(c, seg, now).conn.tcb.state
            == if IsNewAck(c, seg) then (if c.tcb.state == Closing then TimeWait else Closed)
               else c.tcb.state
  {}
}
