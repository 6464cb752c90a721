/** The connection task (task.rs): its synchronous loops, and the arms of its event loop. */
module Tasks {
  import opened SeqArith
  import opened TcpHeaders
  import opened Tcbs
  import opened SendBuffers
  import opened RetransmitQueues
  import opened ConnectionSpec
  import opened Connections
  import opened Endpoints
  import opened Network
  import opened FlowControl
  import opened Transitions
  import Overrun
  import SendSide
  import Lifecycle

  /** Bytes in the send ring that have not been transmitted. */
  function Unsent(s: SendState): nat { Max(0, |s.data| - s.InFlight()) }

  /** A segment goes out only if something is unsent, and then less is. */
  lemma SendShrinksUnsent(c: Conn, maxPayload: nat, now: real)
    requires |c.send.data| < 0x1_0000_0000
    ensures var r := NextSegmentToSend(c, maxPayload, now);
            && r.conn.send.data == c.send.data
            && (r.out.Some? ==> Unsent(r.conn.send) < Unsent(c.send))
  {
    var r := NextSegmentToSend(c, maxPayload, now);
    if r.out.Some? { AdvanceShrinks(c.send, |r.out.value.payload|); }
  }

  lemma AdvanceShrinks(s: SendState, n: nat)
    requires s.InFlight() + n <= |s.data| < 0x1_0000_0000
    ensures s.AdvanceNxt(n).InFlight() == s.InFlight() + n
  {
    hide SeqAdd, SeqSub;
    SeqAddSub(s.nxt, s.una);
    SeqAddZero(s.una);
    SeqSubPositions(s.una, 0, s.InFlight() + n);
    SeqAddAdd(s.una, s.InFlight(), n);
  }

  /** Sending full-sized segments until nothing more may go. */
  function Flush(c: Conn, now: real): (r: (Conn, seq<Builder>))
    requires |c.send.data| < 0x1_0000_0000
    ensures r.0.send.data == c.send.data
    decreases Unsent(c.send)
  {
    var r := NextSegmentToSend(c, MSS, now);
    SendShrinksUnsent(c, MSS, now);
    match r.out
    case None => (c, [])
    case Some(b) => var (c', rest) := Flush(r.conn, now); (c', [b] + rest)
  }

  function Payloads(out: seq<Builder>): seq<u8> {
    if out == [] then [] else out[0].payload + Payloads(out[1..])
  }

  /** Control block and ring agree, and what is in flight is in the ring. */
  predicate SendsInStep(c: Conn) {
    && c.tcb.snd.una == c.send.una && c.tcb.snd.nxt == c.send.nxt
    && InFlight(c) <= |c.send.data| < 0x1_0000_0000
  }

  /** One round of the loop: the next piece goes out inside the window, or there is a reason. */
  lemma SendRound(c: Conn, now: real)
    requires SendsInStep(c)
    ensures var r, f := NextSegmentToSend(c, MSS, now), InFlight(c);
            && (r.out.None? ==> r.conn == c && (f >= EffectiveWindow(c) || f == |c.send.data|))
            && (r.out.Some? ==>
                  var p := r.out.value.payload;
                  && 0 < |p| <= MSS && f + |p| <= |c.send.data|
                  && f + |p| <= EffectiveWindow(c)
                  && p == c.send.data[f..f + |p|] && InFlight(r.conn) == f + |p|
                  && SendsInStep(r.conn) && r.conn.send.data == c.send.data
                  && EffectiveWindow(r.conn) == EffectiveWindow(c)
                  && r.conn.tcb.snd.una == c.tcb.snd.una)
  {
    hide SeqAdd, SeqSub;
    var r := NextSegmentToSend(c, MSS, now);
    if r.out.Some? { AdvanceShrinks(c.send, |r.out.value.payload|); }
  }

  /** The flush is work-conserving: the payloads are exactly the next unsent bytes in order, every
      segment is nonempty and at most one MSS, what is in flight stays inside
      min(cwnd, snd.wnd), and at the end that window is full or nothing is unsent. */
  lemma {:induction false} FlushWorkConserving(c: Conn, now: real)
    requires SendsInStep(c)
    ensures var (c', out) := Flush(c, now);
            && InFlight(c) <= InFlight(c') <= Max(InFlight(c), EffectiveWindow(c))
            && InFlight(c') <= |c.send.data|
            && Payloads(out) == c.send.data[InFlight(c)..InFlight(c')]
            && (forall b :: b in out ==> 0 < |b.payload| <= MSS)
            && (InFlight(c') >= EffectiveWindow(c) || InFlight(c') == |c.send.data|)
            && c'.send.data == c.send.data && SendsInStep(c')
    decreases Unsent(c.send)
  {
    hide SeqAdd, SeqSub, NextSegmentToSend;
    SendRound(c, now);
    SendShrinksUnsent(c, MSS, now);
    var r := NextSegmentToSend(c, MSS, now);
    if r.out.Some? {
      FlushWorkConserving(r.conn, now);
      var (c', rest) := Flush(r.conn, now);
      var d, f, f1 := c.send.data, InFlight(c), InFlight(r.conn);
      assert d[f..f1] + d[f1..InFlight(c')] == d[f..InFlight(c')];
      assert ([r.out.value] + rest)[1..] == rest;
    }
  }

  /** Unfolding one round of the flush. */
  lemma FlushUnfolds(c: Conn, now: real, sent: seq<Builder>)
    requires |c.send.data| < 0x1_0000_0000
    requires NextSegmentToSend(c, MSS, now).out.Some?
    ensures var r := NextSegmentToSend(c, MSS, now);
            && |r.conn.send.data| < 0x1_0000_0000 && Unsent(r.conn.send) < Unsent(c.send)
            && Flush(c, now).0 == Flush(r.conn, now).0
            && sent + Flush(c, now).1 == (sent + [r.out.value]) + Flush(r.conn, now).1
  {
    hide NextSegmentToSend, SeqAdd, SeqSub;
    SendShrinksUnsent(c, MSS, now);
  }

  /** `flush_send_buf`; the segments go to the outbound channel in this order. */
  method FlushSendBuf(conn: Connection, now: real) returns (sent: seq<Builder>)
    requires conn.Valid()
    modifies conn`tcb, conn.sendBuf`nxt, conn.retransmitQueue
    ensures conn.Valid()
    ensures conn.View() == Flush(old(conn.View()), now).0
    ensures sent == Flush(old(conn.View()), now).1
  {
    hide NextSegmentToSend, Unsent;
    sent := [];
    ghost var start := conn.View();
    ghost var before := start;
    assert [] + Flush(before, now).1 == Flush(before, now).1;
    var segment := conn.NextSegmentToSend(MSS, now);
    while segment.Some?
      invariant conn.Valid() && |before.send.data| < 0x1_0000_0000
      invariant Reply(conn.View(), segment) == NextSegmentToSend(before, MSS, now)
      invariant Flush(start, now).0 == Flush(before, now).0
      invariant Flush(start, now).1 == sent + Flush(before, now).1
      decreases Unsent(before.send)
    {
      FlushUnfolds(before, now, sent);
      sent := sent + [segment.value];
      before := conn.View();
      segment := conn.NextSegmentToSend(MSS, now);
    }
    NothingMore(before, now);
    assert sent + [] == sent;
  }

  lemma NothingMore(c: Conn, now: real)
    requires |c.send.data| < 0x1_0000_0000
    requires NextSegmentToSend(c, MSS, now).out.None?
    ensures Flush(c, now) == (c, []) && NextSegmentToSend(c, MSS, now).conn == c
  {}

  /** `forward_received_data`: everything available goes to the application in one piece. */
  method ForwardReceivedData(conn: Connection) returns (data: seq<u8>)
    requires conn.Valid()
    modifies conn.recvBuf
    ensures conn.Valid()
    ensures data == Readable(old(conn.View()), Available(old(conn.View())))
    ensures conn.View() == AfterRead(old(conn.View()), Available(old(conn.View())))
    ensures Available(conn.View()) == 0
  {
    data := [];
    var available := conn.ReceivedAvailable();
    if available > 0 {
      var buf := new u8[available](_ => 0);
      var n := conn.ReadReceived(buf);
      data := buf[..n];
    }
  }

  /** What can wake up a connection task. */
  datatype Arm =
    | Inbound(seg: TcpSegment)
    | RetransmitTick
    | ProbeTick
    | AppSend(data: seq<u8>)
    | CloseRequest

  /** What an arm leaves behind, transmits and hands to the application. */
  datatype Outcome = Outcome(conn: Conn, sent: seq<Builder>, data: seq<u8>)

  function ToSeq(out: Option<Builder>): seq<Builder> {
    if out.Some? then [out.value] else []
  }

  /** What the loop relies on between two turns. */
  predicate Sound(c: Conn) { |c.send.data| <= 65536 }

  function RunArm(c: Conn, arm: Arm, now: real): (r: Outcome)
    requires Sound(c)
    ensures Sound(r.conn)
  {
    match arm
    case Inbound(seg) =>
      var r := ProcessSegment(c, seg, now);
      var available := Available(r.conn);
      SendDataBounded(c, seg, now);
      var (c', sent) := Flush(AfterRead(r.conn, available), now);
      Outcome(c', ToSeq(r.out) + sent, Readable(r.conn, available))
    case RetransmitTick => Outcome(AfterTimer(c, now), Retransmits(c, now), [])
    case ProbeTick => var r := ZeroWindowProbe(c); Outcome(r.conn, ToSeq(r.out), [])
    case AppSend(data) =>
      var (c', sent) := Flush(WriteData(c, data), now);
      Outcome(c', sent, [])
    case CloseRequest => var r := InitiateClose(c); Outcome(r.conn, ToSeq(r.out), [])
  }

  lemma SendDataBounded(c: Conn, seg: TcpSegment, now: real)
    ensures |ProcessSegment(c, seg, now).conn.send.data| <= |c.send.data|
  {
    hide SeqAdd, SeqSub, AckAcceptable;
  }

  /** Nothing more may go out: as much is in flight as both windows allow, or nothing is unsent. */
  predicate Drained(c: Conn) {
    || Wrapped(c.tcb.snd.nxt - c.tcb.snd.una) >= Min(c.tcb.cwnd, c.tcb.snd.wnd)
    || Wrapped(c.send.nxt - c.send.una) >= |c.send.data|
  }

  lemma SilentIff(c: Conn, now: real)
    ensures NextSegmentToSend(c, MSS, now).out.None? <==> Drained(c)
  {
    hide SeqAdd, SeqSub, Wrapped;
    WrappedSub(c.tcb.snd.nxt, c.tcb.snd.una);
    WrappedSub(c.send.nxt, c.send.una);
  }

  /** What sending on from `c` until nothing more may go leaves behind. */
  predicate SentOn(c: Conn, c': Conn, sent: seq<Builder>) {
    && Drained(c') && c'.send.data == c.send.data && c'.recv == c.recv
    && (forall b :: b in sent ==> b == Acking(c, PSH_ACK, b.seqNum, b.payload))
    && (SendsInStep(c) ==>
          && SendsInStep(c') && InFlight(c) <= InFlight(c')
          && Payloads(sent) == c.send.data[InFlight(c)..InFlight(c')]
          && forall b :: b in sent ==> 0 < |b.payload| <= 1460)
  }

  lemma {:induction false} FlushDrains(c: Conn, now: real)
    requires |c.send.data| < 0x1_0000_0000
    ensures Drained(Flush(c, now).0) && Flush(c, now).0.recv == c.recv
    ensures forall b :: b in Flush(c, now).1 ==> b == Acking(c, PSH_ACK, b.seqNum, b.payload)
    decreases Unsent(c.send)
  {
    hide SeqAdd, SeqSub, Drained, NextSegmentToSend;
    SilentIff(c, now);
    SendShrinksUnsent(c, MSS, now);
    SendKeepsRecv(c, now);
    var r := NextSegmentToSend(c, MSS, now);
    if r.out.Some? { FlushDrains(r.conn, now); }
  }

  lemma SendKeepsRecv(c: Conn, now: real)
    ensures var r := NextSegmentToSend(c, MSS, now);
            && r.conn.recv == c.recv && r.conn.tcb.rcv == c.tcb.rcv && SameLink(c, r.conn)
            && (r.out.Some? ==>
                  r.out.value == Acking(c, PSH_ACK, r.out.value.seqNum, r.out.value.payload))
  {
    hide SeqAdd, SeqSub;
  }

  lemma FlushSendsOn(c: Conn, now: real)
    requires |c.send.data| < 0x1_0000_0000
    ensures SentOn(c, Flush(c, now).0, Flush(c, now).1)
  {
    hide SeqAdd, SeqSub, Drained;
    FlushDrains(c, now);
    if SendsInStep(c) { FlushWorkConserving(c, now); }
  }

  /** An arriving segment: the reply, then everything in order to the application, then everything
      that may be sent. */
  predicate Forwards(c: Conn, seg: TcpSegment, now: real, o: Outcome) {
    var r := ProcessSegment(c, seg, now);
    && ToSeq(r.out) <= o.sent && o.data == AllReceived(r.conn) && AllReceived(o.conn) == []
    && SentOn(WithoutReceived(r.conn), o.conn, o.sent[|ToSeq(r.out)|..])
  }

  function AllReceived(c: Conn): seq<u8> { if c.recv.None? then [] else c.recv.value.data }

  function WithoutReceived(c: Conn): Conn {
    if c.recv.None? then c else c.(recv := Some(c.recv.value.(data := [])))
  }

  lemma InboundForwards(c: Conn, seg: TcpSegment, now: real)
    requires Sound(c)
    ensures Forwards(c, seg, now, RunArm(c, Inbound(seg), now))
  {
    hide ProcessSegment, SentOn, Flush;
    SendDataBounded(c, seg, now);
    var r := ProcessSegment(c, seg, now);
    ReadsAll(r.conn);
    FlushSendsOn(WithoutReceived(r.conn), now);
    SentOnKeeps(WithoutReceived(r.conn), now);
    var out, sent := ToSeq(r.out), Flush(WithoutReceived(r.conn), now).1;
    assert (out + sent)[|out|..] == sent;
  }

  lemma ReadsAll(c: Conn)
    ensures AfterRead(c, Available(c)) == WithoutReceived(c)
    ensures Readable(c, Available(c)) == AllReceived(c) && AllReceived(WithoutReceived(c)) == []
  {
    if c.recv.Some? {
      var d := c.recv.value.data;
      assert d[|d|..] == [] && d[..|d|] == d;
    }
  }

  lemma SentOnKeeps(c: Conn, now: real)
    requires |c.send.data| < 0x1_0000_0000
    ensures AllReceived(Flush(c, now).0) == AllReceived(c)
  {
    FlushDrains(c, now);
  }

  /** A write: the prefix that fits, then everything that may be sent. */
  lemma AppSendForwards(c: Conn, data: seq<u8>, now: real)
    requires Sound(c)
    ensures var o, n := RunArm(c, AppSend(data), now), Min(|data|, 65536 - |c.send.data|);
            SentOn(c.(send := c.send.(data := c.send.data + data[..n])), o.conn, o.sent)
  {
    hide SentOn, Flush;
    FlushSendsOn(WriteData(c, data), now);
  }

  class ConnectionTask {
    const conn: Connection
    var closeInitiated: bool

    constructor (conn: Connection)
      ensures this.conn == conn && !closeInitiated
    {
      this.conn := conn;
      closeInitiated := false;
    }

    method OnInbound(seg: TcpSegment, now: real) returns (sent: seq<Builder>, data: seq<u8>)
      requires conn.Valid()
      modifies conn.Repr()
      ensures conn.Valid() && fresh(conn.Repr() - old(conn.Repr()))
      ensures Outcome(conn.View(), sent, data) == RunArm(old(conn.View()), Inbound(seg), now)
      ensures Forwards(old(conn.View()), seg, now, Outcome(conn.View(), sent, data))
    {
      hide ProcessSegment, Flush, Forwards;
      InboundForwards(conn.View(), seg, now);
      ghost var c := conn.View();
      SendDataBounded(c, seg, now);
      var reply := conn.ProcessSegment(seg, now);
      data := ForwardReceivedData(conn);
      var flushed := FlushSendBuf(conn, now);
      sent := ToSeq(reply) + flushed;
    }

    method OnAppSend(data: seq<u8>, now: real) returns (sent: seq<Builder>)
      requires conn.Valid()
      modifies conn.Repr()
      ensures conn.Valid() && conn.Repr() == old(conn.Repr())
      ensures Outcome(conn.View(), sent, []) == RunArm(old(conn.View()), AppSend(data), now)
      ensures var c, n := old(conn.View()), Min(|data|, 65536 - |old(conn.View().send.data)|);
              SentOn(c.(send := c.send.(data := c.send.data + data[..n])), conn.View(), sent)
    {
      hide Flush, SentOn;
      AppSendForwards(conn.View(), data, now);
      var n := conn.WriteData(data);
      sent := FlushSendBuf(conn, now);
    }

    /** One arm of the `select!`.  The close arm is enabled only until it has run once. */
    method Serve(arm: Arm, now: real) returns (sent: seq<Builder>, data: seq<u8>)
      requires conn.Valid() && (arm.CloseRequest? ==> !closeInitiated)
      requires this !in conn.Repr()
      modifies this`closeInitiated, conn.Repr()
      ensures conn.Valid() && fresh(conn.Repr() - old(conn.Repr()))
      ensures closeInitiated == (old(closeInitiated) || arm.CloseRequest?)
      ensures Outcome(conn.View(), sent, data) == RunArm(old(conn.View()), arm, now)
    {
      hide RunArm;
      data := [];
      ArmUnfolds(conn.View(), arm, now);
      match arm {
        case Inbound(seg) =>
          sent, data := OnInbound(seg, now);
        case RetransmitTick =>
          sent := conn.TakeRetransmits(now);
        case ProbeTick =>
          var probe := conn.ZeroWindowProbe();
          sent := ToSeq(probe);
        case AppSend(bytes) =>
          sent := OnAppSend(bytes, now);
        case CloseRequest =>
          closeInitiated := true;
          var fin := conn.InitiateClose();
          sent := ToSeq(fin);
      }
    }

    /** One turn of the loop: an arm, then the checks that may end the loop. */
    method Turn(arm: Arm, now: real)
      returns (sent: seq<Builder>, data: seq<u8>, finished: bool)
      requires conn.Valid() && (arm.CloseRequest? ==> !closeInitiated)
      requires this !in conn.Repr()
      modifies this`closeInitiated, conn.Repr()
      ensures conn.Valid() && fresh(conn.Repr() - old(conn.Repr()))
      ensures closeInitiated == (old(closeInitiated) || arm.CloseRequest?)
      ensures Outcome(conn.View(), sent, data) == RunTurn(old(conn.View()), arm, now)
      ensures finished == (conn.tcb.state == Closed)
      ensures TurnLeaves(conn.View(), arm, now)
    {
      hide RunArm, TurnLeaves;
      TurnDone(conn.View(), arm, now);
      sent, data := Serve(arm, now);
      var expired := conn.TickTimeWait(now);
      finished := expired || conn.tcb.state == Closed;
    }
  }

  /** The arms that are one call. */
  lemma ArmUnfolds(c: Conn, arm: Arm, now: real)
    requires Sound(c)
    ensures arm.RetransmitTick? ==>
              RunArm(c, arm, now) == Outcome(AfterTimer(c, now), Retransmits(c, now), [])
    ensures arm.ProbeTick? ==>
              RunArm(c, arm, now)
              == Outcome(ZeroWindowProbe(c).conn, ToSeq(ZeroWindowProbe(c).out), [])
    ensures arm.CloseRequest? ==>
              RunArm(c, arm, now)
              == Outcome(InitiateClose(c).conn, ToSeq(InitiateClose(c).out), [])
  {
    hide ZeroWindowProbe, InitiateClose, AfterTimer, Retransmits;
  }

  function RunTurn(c: Conn, arm: Arm, now: real): (r: Outcome)
    requires Sound(c)
    ensures Sound(r.conn)
  {
    var o := RunArm(c, arm, now);
    o.(conn := TickTimeWait(o.conn, now))
  }

  /** What every turn ends with: after a segment or a write nothing more may be sent, after a segment
      everything in order was handed over, and TIME_WAIT is younger than a minute. */
  predicate TurnLeaves(c: Conn, arm: Arm, now: real) {
    && (arm.Inbound? || arm.AppSend? ==> Drained(c))
    && (arm.Inbound? ==> AllReceived(c) == [])
    && (c.tcb.state == TimeWait && c.timeWaitStart.Some? ==> now - c.timeWaitStart.value < 60.0)
  }

  lemma TurnDone(c: Conn, arm: Arm, now: real)
    requires Sound(c)
    ensures TurnLeaves(RunTurn(c, arm, now).conn, arm, now)
  {
    hide RunArm, Drained;
    var o := RunArm(c, arm, now);
    TickLeaves(o.conn, now);
    match arm
    case Inbound(seg) => InboundForwards(c, seg, now);
    case AppSend(data) => AppSendForwards(c, data, now);
    case _ =>
  }

  lemma TickLeaves(c: Conn, now: real)
    ensures var c' := TickTimeWait(c, now);
            && (Drained(c) ==> Drained(c')) && AllReceived(c') == AllReceived(c)
            && (c'.tcb.state == TimeWait && c'.timeWaitStart.Some? ==>
                  now - c'.timeWaitStart.value < 60.0)
  {
    hide Wrapped;
  }

  predicate Finished(c: Conn) { c.tcb.state == Closed }

  /** One outcome after the other. */
  function Joined(o: Outcome, o': Outcome): Outcome {
    Outcome(o'.conn, o.sent + o'.sent, o.data + o'.data)
  }

  lemma JoinedAssociates(a: Outcome, b: Outcome, c: Outcome)
    ensures Joined(a, Joined(b, c)) == Joined(Joined(a, b), c)
  {
    assert a.sent + (b.sent + c.sent) == (a.sent + b.sent) + c.sent;
    assert a.data + (b.data + c.data) == (a.data + b.data) + c.data;
  }

  lemma JoinedNothing(o: Outcome, c: Conn)
    ensures Joined(Outcome(c, [], []), o) == o
  {
    assert [] + o.sent == o.sent && [] + o.data == o.data;
  }

  /** The event loop: turns until the connection is closed. */
  function RunTask(c: Conn, turns: seq<(Arm, real)>): (r: Outcome)
    requires Sound(c)
    ensures Sound(r.conn)
    decreases |turns|
  {
    if turns == [] then Outcome(c, [], [])
    else
      var o := RunTurn(c, turns[0].0, turns[0].1);
      if Finished(o.conn) then o
      else
        Joined(o, RunTask(o.conn, turns[1..]))
  }

  /** The loop goes on until the connection is closed, and no further. */
  lemma {:induction false} TaskComposes(c: Conn, turns: seq<(Arm, real)>, more: seq<(Arm, real)>)
    requires Sound(c)
    ensures var o := RunTask(c, turns);
            RunTask(c, turns + more) ==
            if turns != [] && Finished(o.conn) then o else Joined(o, RunTask(o.conn, more))
    decreases |turns|
  {
    hide RunTurn, Joined;
    if turns == [] {
      assert turns + more == more;
      JoinedNothing(RunTask(c, more), c);
    } else {
      assert (turns + more)[1..] == turns[1..] + more;
      var first := RunTurn(c, turns[0].0, turns[0].1);
      if !Finished(first.conn) {
        TaskComposes(first.conn, turns[1..], more);
        var rest := RunTask(first.conn, turns[1..]);
        JoinedAssociates(first, rest, RunTask(rest.conn, more));
        JoinedEnds(first, rest);
      }
    }
  }

  lemma JoinedEnds(o: Outcome, o': Outcome)
    ensures Joined(o, o').conn == o'.conn
  {}

  /** So in every state the loop reaches: behind a segment or a write nothing more may be sent, and
      behind a segment nothing is left to hand over. */
  lemma TaskLeaves(c: Conn, turns: seq<(Arm, real)>, arm: Arm, now: real)
    requires Sound(c) && (turns == [] || !Finished(RunTask(c, turns).conn))
    ensures TurnLeaves(RunTask(c, turns + [(arm, now)]).conn, arm, now)
  {
    hide RunTurn, TurnLeaves;
    TaskComposes(c, turns, [(arm, now)]);
    var o := RunTask(c, turns);
    JoinedEnds(o, RunTask(o.conn, [(arm, now)]));
    TurnDone(o.conn, arm, now);
    OneTurn(o.conn, arm, now);
  }

  lemma OneTurn(c: Conn, arm: Arm, now: real)
    requires Sound(c)
    ensures RunTask(c, [(arm, now)]).conn == RunTurn(c, arm, now).conn
  {
    hide RunTurn;
    assert [(arm, now)][1..] == [];
  }

  /** A run of events does what an outcome says: it leaves the connection, transmits the segments, and
      hands the bytes to the application, in order. */
  predicate Realises(e: Endpoint, evs: seq<Event>, o: Outcome) {
    && Obeys(e, evs, Proper)
    && Exec(e, evs).conn == o.conn && AllOutputs(e, evs) == o.sent
    && Exec(e, evs).read == e.read + o.data
  }

  /** Only segments that came in are delivered. */
  predicate DeliversOnly(evs: seq<Event>, arms: set<Arm>) {
    forall ev :: ev in evs && ev.Deliver? ==> Inbound(ev.seg) in arms
  }

  /** Events that `Careful` and `WindowRespecting` put no condition on. */
  predicate Mild(ev: Event) {
    ev.Deliver? || ev.Send? || ev.Retransmit? || ev.Read? || ev.Tick?
  }

  /** The run of a turn starts with what the arm is about; the rest is mild. */
  predicate Shaped(evs: seq<Event>, arm: Arm, now: real) {
    && evs != [] && (forall i :: 1 <= i < |evs| ==> Mild(evs[i]) && !evs[i].Deliver?)
    && match arm
       case Inbound(seg) => evs[0] == Deliver(seg, now)
       case AppSend(data) => evs[0] == Event.Write(data)
       case RetransmitTick => evs[0] == Retransmit(now)
       case ProbeTick => evs[0] == Probe
       case CloseRequest => evs[0] == Close
  }

  lemma ShapedDelivers(evs: seq<Event>, arm: Arm, now: real)
    requires Shaped(evs, arm, now)
    ensures DeliversOnly(evs, {arm})
  {
    forall ev | ev in evs && ev.Deliver? ensures Inbound(ev.seg) in {arm} {
      var i :| 0 <= i < |evs| && evs[i] == ev;
      assert i == 0;
    }
  }

  lemma RealisesBoth(e: Endpoint, evs: seq<Event>, o: Outcome, evs': seq<Event>, o': Outcome)
    requires Realises(e, evs, o) && Realises(Exec(e, evs), evs', o')
    ensures Realises(e, evs + evs', Outcome(o'.conn, o.sent + o'.sent, o.data + o'.data))
  {
    hide Exec, Obeys, AllOutputs;
    RunsCompose(e, evs, evs', Proper);
    assert e.read + o.data + o'.data == e.read + (o.data + o'.data);
  }

  lemma RealisesOne(e: Endpoint, ev: Event)
    requires !ev.Open?
    ensures Realises(e, [ev], Outcome(Perform(e.conn, ev).conn, Outputs(e, ev), Delivered(e.conn, ev)))
  {
    hide Perform;
    OneEvent(e, ev, Proper);
  }

  /** The flush is a run of send events. */
  lemma {:induction false} FlushIsRun(e: Endpoint, now: real) returns (evs: seq<Event>)
    requires |e.conn.send.data| < 0x1_0000_0000
    ensures forall ev :: ev in evs ==> ev == Send(MSS, now)
    ensures Realises(e, evs, Outcome(Flush(e.conn, now).0, Flush(e.conn, now).1, []))
    decreases Unsent(e.conn.send)
  {
    hide ProcessSegment, NextSegmentToSend, SeqAdd, SeqSub;
    SendShrinksUnsent(e.conn, MSS, now);
    var r := NextSegmentToSend(e.conn, MSS, now);
    if r.out.None? {
      evs := [];
    } else {
      var ev := Send(MSS, now);
      assert Next(e, ev).conn == r.conn && Outputs(e, ev) == [r.out.value];
      RealisesOne(e, ev);
      OneEvent(e, ev, Proper);
      var rest := FlushIsRun(Next(e, ev), now);
      var (c', out) := Flush(r.conn, now);
      RealisesBoth(e, [ev], Outcome(r.conn, [r.out.value], []), rest, Outcome(c', out, []));
      evs := [ev] + rest;
    }
  }

  lemma InboundIsRun(e: Endpoint, seg: TcpSegment, now: real) returns (evs: seq<Event>)
    requires Sound(e.conn)
    ensures Realises(e, evs, RunArm(e.conn, Inbound(seg), now)) && Shaped(evs, Inbound(seg), now)
  {
    hide ProcessSegment, NextSegmentToSend, SeqAdd, SeqSub, Flush, Exec, Obeys, AllOutputs;
    var deliver := Deliver(seg, now);
    var r := ProcessSegment(e.conn, seg, now);
    SendDataBounded(e.conn, seg, now);
    RealisesOne(e, deliver);
    OneEvent(e, deliver, Proper);
    var e1 := Next(e, deliver);
    var read := Event.Read(Available(r.conn));
    RealisesOne(e1, read);
    OneEvent(e1, read, Proper);
    var e2 := Next(e1, read);
    var rest := FlushIsRun(e2, now);
    var (c', out) := Flush(e2.conn, now);
    var data := Readable(r.conn, Available(r.conn));
    RealisesBoth(e1, [read], Outcome(e2.conn, [], data), rest, Outcome(c', out, []));
    assert [] + out == out && data + [] == data;
    RealisesBoth(e, [deliver], Outcome(r.conn, ToSeq(r.out), []), [read] + rest, Outcome(c', out, data));
    assert [] + data == data;
    evs := [deliver] + ([read] + rest);
    assert forall i :: 2 <= i < |evs| ==> evs[i] in rest;
  }

  lemma AppSendIsRun(e: Endpoint, data: seq<u8>, now: real) returns (evs: seq<Event>)
    requires Sound(e.conn)
    ensures Realises(e, evs, RunArm(e.conn, AppSend(data), now)) && Shaped(evs, AppSend(data), now)
  {
    hide ProcessSegment, NextSegmentToSend, SeqAdd, SeqSub, Flush, Exec, Obeys, AllOutputs;
    var write := Event.Write(data);
    RealisesOne(e, write);
    OneEvent(e, write, Proper);
    var e1 := Next(e, write);
    var rest := FlushIsRun(e1, now);
    var (c', out) := Flush(e1.conn, now);
    RealisesBoth(e, [write], Outcome(e1.conn, [], []), rest, Outcome(c', out, []));
    assert [] + out == out;
    evs := [write] + rest;
    assert forall i :: 1 <= i < |evs| ==> evs[i] in rest;
  }

  lemma CallIsRun(e: Endpoint, ev: Event, arm: Arm, now: real)
    requires Sound(e.conn)
    requires || (arm.RetransmitTick? && ev == Retransmit(now)) || (arm.ProbeTick? && ev == Probe)
             || (arm.CloseRequest? && ev == Close)
    ensures Realises(e, [ev], RunArm(e.conn, arm, now))
  {
    hide ProcessSegment, SeqAdd, SeqSub, Flush, Exec, Obeys, AllOutputs;
    hide ZeroWindowProbe, InitiateClose, AfterTimer, Retransmits;
    RealisesOne(e, ev);
    ArmUnfolds(e.conn, arm, now);
  }

  /** Every arm is a run of endpoint events. */
  lemma ArmIsRun(e: Endpoint, arm: Arm, now: real) returns (evs: seq<Event>)
    requires Sound(e.conn)
    ensures Realises(e, evs, RunArm(e.conn, arm, now)) && Shaped(evs, arm, now)
  {
    hide RunArm, Realises;
    match arm
    case Inbound(seg) => evs := InboundIsRun(e, seg, now);
    case AppSend(data) => evs := AppSendIsRun(e, data, now);
    case RetransmitTick => evs := [Retransmit(now)]; CallIsRun(e, Retransmit(now), arm, now);
    case ProbeTick => evs := [Probe]; CallIsRun(e, Probe, arm, now);
    case CloseRequest => evs := [Close]; CallIsRun(e, Close, arm, now);
  }

  /** So is an arm followed by the checks at the end of the turn. */
  lemma TurnIsRun(e: Endpoint, arm: Arm, now: real) returns (evs: seq<Event>)
    requires Sound(e.conn)
    ensures Realises(e, evs, RunTurn(e.conn, arm, now)) && Shaped(evs, arm, now)
  {
    hide RunArm, ProcessSegment, Exec, Obeys, AllOutputs;
    var first := ArmIsRun(e, arm, now);
    var tick := Event.Tick(now);
    var o := RunArm(e.conn, arm, now);
    RealisesOne(Exec(e, first), tick);
    RealisesBoth(e, first, o, [tick], Outcome(TickTimeWait(o.conn, now), [], []));
    assert o.sent + [] == o.sent && o.data + [] == o.data;
    evs := first + [tick];
  }

  function ArmsOf(turns: seq<(Arm, real)>): set<Arm> { set t | t in turns :: t.0 }

  /** Whatever the event loop does, for any sequence of wake-ups and clock readings, is a run of
      endpoint events that obeys `Proper`, with the same segments transmitted and the same bytes
      handed to the application. */
  lemma {:induction false} TaskIsRun(e: Endpoint, turns: seq<(Arm, real)>) returns (evs: seq<Event>)
    requires Sound(e.conn)
    ensures Realises(e, evs, RunTask(e.conn, turns)) && DeliversOnly(evs, ArmsOf(turns))
    decreases |turns|
  {
    hide RunTurn, Perform, Realises;
    if turns == [] {
      evs := [];
      NothingRealised(e);
    } else {
      var first := TurnIsRun(e, turns[0].0, turns[0].1);
      ShapedDelivers(first, turns[0].0, turns[0].1);
      var o := RunTurn(e.conn, turns[0].0, turns[0].1);
      assert turns[0].0 in ArmsOf(turns);
      if Finished(o.conn) {
        evs := first;
      } else {
        var e1 := Exec(e, first);
        RealisedConn(e, first, o);
        var rest := TaskIsRun(e1, turns[1..]);
        RealisesBoth(e, first, o, rest, RunTask(o.conn, turns[1..]));
        evs := first + rest;
        assert forall a :: a in ArmsOf(turns[1..]) ==> a in ArmsOf(turns);
      }
    }
  }

  lemma NothingRealised(e: Endpoint)
    ensures Realises(e, [], Outcome(e.conn, [], []))
  {}

  lemma RealisedConn(e: Endpoint, evs: seq<Event>, o: Outcome)
    requires Realises(e, evs, o)
    ensures Exec(e, evs).conn == o.conn
  {}

  lemma {:induction false} RunOutputsHold(e: Endpoint, evs: seq<Event>)
    requires SendSide.Inv(e) && Obeys(e, evs, Proper)
    ensures SendSide.Inv(Exec(e, evs))
    ensures forall b :: b in AllOutputs(e, evs) ==> SendSide.OutputHolds(Exec(e, evs), b)
    ensures Lifecycle.FinsIn(AllOutputs(e, evs)) == Lifecycle.FinsSent(e, evs)
    decreases |evs|
  {
    hide Next, Outputs, SendSide.OutputHolds, SendSide.PhaseHolds, SendSide.QueueHolds;
    if evs != [] {
      var e' := Next(e, evs[0]);
      SendSide.StepKeeps(e, evs[0]);
      SendSide.OutputsHold(e, evs[0]);
      RunOutputsHold(e', evs[1..]);
      FinsAppend(Outputs(e, evs[0]), AllOutputs(e', evs[1..]));
      forall b | b in Outputs(e, evs[0]) ensures SendSide.OutputHolds(Exec(e', evs[1..]), b) {
        OutputsStayOver(e', evs[1..], b);
      }
    }
  }

  lemma {:induction false} OutputsStayOver(e: Endpoint, evs: seq<Event>, b: Builder)
    requires SendSide.Inv(e) && Obeys(e, evs, Proper) && SendSide.OutputHolds(e, b)
    ensures SendSide.OutputHolds(Exec(e, evs), b)
    decreases |evs|
  {
    hide Next, Outputs, SendSide.OutputHolds, SendSide.PhaseHolds, SendSide.QueueHolds;
    if evs != [] {
      SendSide.StepKeeps(e, evs[0]);
      OutputsStay(e, evs[0], b);
      OutputsStayOver(Next(e, evs[0]), evs[1..], b);
    }
  }

  lemma {:induction false} FinsAppend(a: seq<Builder>, b: seq<Builder>)
    ensures Lifecycle.FinsIn(a + b) == Lifecycle.FinsIn(a) + Lifecycle.FinsIn(b)
  {
    if a == [] {
      assert a + b == b;
    } else {
      assert (a + b)[1..] == a[1..] + b;
      FinsAppend(a[1..], b);
    }
  }

  /** What this says of the loop itself, on a new connection: every data segment it ever transmits is a
      piece of what the application wrote, under its own number, and at most one FIN goes out. */
  lemma TaskTransmits(e0: Endpoint, turns: seq<(Arm, real)>) returns (e: Endpoint)
    requires Fresh(e0)
    ensures var o := RunTask(e0.conn, turns);
            && e.conn == o.conn && e.Base() == e0.Base() && e.read == o.data
            && (forall b :: b in o.sent && b.payload != [] ==>
                  SendSide.PieceHolds(e, b.seqNum, b.payload))
            && Lifecycle.FinsIn(o.sent) <= 1
  {
    hide Perform;
    SendSide.FreshInv(e0);
    var evs := TaskIsRun(e0, turns);
    RunOutputsHold(e0, evs);
    Lifecycle.FinsOverLife(e0, evs);
    BaseStays(e0, evs);
    e := Exec(e0, evs);
  }

  lemma {:induction false} BaseStays(e: Endpoint, evs: seq<Event>)
    ensures Exec(e, evs).Base() == e.Base()
    decreases |evs|
  {
    hide Perform;
    if evs != [] { BaseStays(Next(e, evs[0]), evs[1..]); }
  }

  function MovesOf(evs: seq<Event>): seq<Move> {
    seq(|evs|, i requires 0 <= i < |evs| => AtX(evs[i]))
  }

  /** A run of events at `x` as moves of the system. */
  lemma {:induction false} EventsAreMoves(s0: System, s: System, evs: seq<Event>,
                                          rule: (System, Move) -> bool)
    requires ReachableBy(s0, s, rule) && AllObey(s, MovesOf(evs), rule)
    ensures ReachableBy(s0, s.(x := Exec(s.x, evs), fromX := Put(s.fromX, AllOutputs(s.x, evs))), rule)
    decreases |evs|
  {
    hide Perform, ReachableBy;
    if evs == [] {
      assert s.(x := s.x, fromX := Put(s.fromX, [])) == s;
    } else {
      var ev, x1 := evs[0], Next(s.x, evs[0]);
      assert MovesOf(evs)[0] == AtX(ev) && MovesOf(evs)[1..] == MovesOf(evs[1..]);
      var s1 := After(s, AtX(ev));
      ReachStepBy(s0, s, AtX(ev), rule);
      EventsAreMoves(s0, s1, evs[1..], rule);
      assert Put(Put(s.fromX, Outputs(s.x, ev)), AllOutputs(x1, evs[1..]))
             == Put(s.fromX, AllOutputs(s.x, evs));
    }
  }

  lemma {:induction false} WrittenGrows(e: Endpoint, evs: seq<Event>)
    ensures |e.written| <= |Exec(e, evs).written|
    decreases |evs|
  {
    hide Perform;
    if evs != [] { WrittenGrows(Next(e, evs[0]), evs[1..]); }
  }

  /** A turn of the loop of `x`, as moves of the system: it leaves the network with the segments the turn
      sent and the application with the bytes it delivered; and if the moves obey a rule, what was
      reachable under that rule stays so.  (With `Mirror` the same is said of `y`.) */
  lemma TurnIsReachable(s0: System, s: System, arm: Arm, now: real, rule: (System, Move) -> bool)
      returns (evs: seq<Event>, s': System)
    requires ReachableBy(s0, s, rule) && Sound(s.x.conn)
    ensures Realises(s.x, evs, RunTurn(s.x.conn, arm, now)) && Shaped(evs, arm, now)
    ensures var o := RunTurn(s.x.conn, arm, now);
            && s'.x == Exec(s.x, evs) && s'.x.conn == o.conn && s'.x.read == s.x.read + o.data
            && s'.fromX == Put(s.fromX, o.sent) && s'.y == s.y && s'.fromY == s.fromY
    ensures AllObey(s, MovesOf(evs), rule) ==> ReachableBy(s0, s', rule)
  {
    hide Perform, ReachableBy, RunTurn;
    evs := TurnIsRun(s.x, arm, now);
    s' := s.(x := Exec(s.x, evs), fromX := Put(s.fromX, AllOutputs(s.x, evs)));
    if AllObey(s, MovesOf(evs), rule) { EventsAreMoves(s0, s, evs, rule); }
  }

  /** What the loop itself must observe at the start of a turn: close with everything sent, accept no
      data after the close, and probe no closed window. */
  ghost predicate Observes(s: System, arm: Arm) {
    && (arm.Inbound? ==> exists b :: b in s.fromY && arm.seg == b.Received())
    && (arm.CloseRequest? && Transferring(s.x.conn) ==> AllSent(s.x.conn))
    && (arm.AppSend? ==> !FinSent(s))
    && (arm.ProbeTick? ==> !SendSide.Probes(s.x.conn))
  }

  lemma {:induction false} MildObeys(s: System, evs: seq<Event>)
    requires Obeys(s.x, evs, Proper)
    requires forall i :: 0 <= i < |evs| ==> Mild(evs[i]) && !evs[i].Deliver?
    requires |Exec(s.x, evs).written| < 0x8000_0000 && |s.y.written| < 0x8000_0000
    ensures AllObey(s, MovesOf(evs), Overrun.WindowRespecting)
    decreases |evs|
  {
    hide Perform;
    if evs != [] {
      var s1 := After(s, AtX(evs[0]));
      assert MovesOf(evs)[0] == AtX(evs[0]) && MovesOf(evs)[1..] == MovesOf(evs[1..]);
      WrittenGrows(s1.x, evs[1..]);
      assert Mild(evs[0]) && Overrun.WindowRespecting(s, AtX(evs[0]));
      MildObeys(s1, evs[1..]);
    }
  }

  /** Then the whole turn obeys the rule of the flow control theorem. */
  lemma TurnRespectsWindow(s: System, arm: Arm, now: real, evs: seq<Event>)
    requires Observes(s, arm) && Shaped(evs, arm, now) && Obeys(s.x, evs, Proper)
    requires |Exec(s.x, evs).written| < 0x8000_0000 && |s.y.written| < 0x8000_0000
    ensures AllObey(s, MovesOf(evs), Overrun.WindowRespecting)
  {
    hide Perform, AllSent, SendSide.Probes;
    var s1 := After(s, AtX(evs[0]));
    assert MovesOf(evs)[0] == AtX(evs[0]) && MovesOf(evs)[1..] == MovesOf(evs[1..]);
    WrittenGrows(s1.x, evs[1..]);
    assert Overrun.WindowRespecting(s, AtX(evs[0]));
    MildObeys(s1, evs[1..]);
  }

  /** The receiving side of that theorem: once its peer was heard, any turn will do. */
  lemma {:induction false} HearerObeys(s: System, evs: seq<Event>)
    requires Obeys(s.x, evs, Proper) && SendSide.Inv(s.x) && s.x.conn.recv.Some?
    requires forall ev :: ev in evs ==> Arrives(s.fromY, ev)
    requires |Exec(s.x, evs).written| < 0x8000_0000 && |s.y.written| < 0x8000_0000
    ensures AllObey(s, MovesOf(evs), Flip(Overrun.WindowRespecting))
    decreases |evs|
  {
    hide Next, Outputs, SendSide.QueueHolds;
    if evs != [] {
      var s1 := After(s, AtX(evs[0]));
      assert MovesOf(evs)[0] == AtX(evs[0]) && MovesOf(evs)[1..] == MovesOf(evs[1..]);
      assert evs[0] in evs;
      WrittenGrows(s1.x, evs[1..]);
      SendSide.StepKeeps(s.x, evs[0]);
      StaysHeard(s.x, evs[0]);
      assert Lawful(s, AtX(evs[0]));
      LawfulMirror(s, AtX(evs[0]));
      assert Overrun.WindowRespecting(Mirror(s), AtY(evs[0]));
      assert Flip(Overrun.WindowRespecting)(s, AtX(evs[0]));
      HearerObeys(s1, evs[1..]);
    }
  }

  lemma StaysHeard(e: Endpoint, ev: Event)
    requires SendSide.Inv(e) && Proper(e, ev) && e.conn.recv.Some?
    ensures Next(e, ev).conn.recv.Some?
  {
    hide SeqAdd, SeqSub, ProcessSegment, SendSide.QueueHolds;
    if ev.Deliver? { BufferStays(e.conn, ev.seg, ev.now); }
  }

  /** What is reached under that rule is safe. */
  lemma ReachedSafely(s0: System, s: System)
    requires Started(s0) && ReachableBy(s0, s, Overrun.WindowRespecting)
    ensures Overrun.NeverOverruns(s) && NothingLost(s)
  {
    hide Overrun.Controlled, Overrun.NeverOverruns, NothingLost, Overrun.WindowRespecting;
    var ms :| AllObey(s0, ms, Overrun.WindowRespecting) && ExecAll(s0, ms) == s;
    Overrun.StartedControlled(s0);
    Overrun.RunControlled(s0, ms);
    Overrun.ControlledNeverOverruns(s);
    ControlledAcknowledges(s);
    AcknowledgesLosesNothing(s, false);
  }

  lemma ControlledAcknowledges(s: System)
    requires Overrun.Controlled(s)
    ensures Acknowledges(s, false)
  {}
}
