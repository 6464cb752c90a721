/** The send side of one connection over arbitrary runs: any segments, writes, sends, probes,
    timer expiries and closes, in any order.  The send ring, the retransmission queue and the
    sequence variables all describe the one stream of bytes the application wrote. */
module SendSide {
  import opened SeqArith
  import opened TcpHeaders
  import opened Tcbs
  import opened SendBuffers
  import opened RetransmitQueues
  import opened ConnectionSpec
  import opened Endpoints
  import opened Reassembly
  import Ring

  /** The ring holds the stream from the first byte not discarded; `sent` bytes went out. */
  ghost predicate RingHolds(e: Endpoint) {
    var send := e.conn.send;
    && |send.data| <= Ring.CAPACITY && 0 <= e.Discarded()
    && send.data == e.written[e.Discarded()..]
    && send.una == SeqAdd(e.Base(), e.Discarded())
    && send.nxt == SeqAdd(e.Base(), e.sent)
    && e.sent <= |e.written| && e.Discarded() <= e.sent + 1
  }

  ghost predicate WordsHold(e: Endpoint) {
    && e.conn.tcb.snd.una == SeqAdd(e.Base(), e.una)
    && e.conn.tcb.snd.nxt == SeqAdd(e.Base(), e.nxt)
  }

  /** How the sequence variables stand to the ring; only a FIN may lie beyond the bytes sent. */
  ghost predicate PhaseHolds(e: Endpoint) {
    && (Opening(e.conn) ==> e.Discarded() == 0 && e.una == -1 && -1 <= e.nxt <= e.sent)
    && (!Opening(e.conn) ==> 0 <= e.una <= e.nxt <= e.sent + 1 && e.Discarded() <= e.una)
    && (Transferring(e.conn) ==> e.nxt <= e.sent)
    && (e.conn.tcb.state !in {Listen, SynSent, Closed} ==> e.conn.recv.Some?)
    && (e.conn.tcb.state == SynSent ==> e.conn.recv.None?)
  }

  /** The part of the stream that has been transmitted. */
  ghost function SentPart(e: Endpoint): seq<u8> { e.written[..Min(e.sent, |e.written|)] }

  /** `d`, numbered `s`, is a piece of what was transmitted. */
  ghost predicate PieceHolds(e: Endpoint, s: u32, d: seq<u8>) {
    d != [] && IsSlice(e.Base(), SentPart(e), s, d)
  }

  /** It is the piece at position `q`, which ends less than a ring length behind the first byte
      still in the ring. */
  ghost predicate NearAt(e: Endpoint, s: u32, d: seq<u8>, q: nat) {
    && d != [] && SliceAt(e.Base(), SentPart(e), s, d, q)
    && e.Discarded() < q + |d| + Ring.CAPACITY
  }

  ghost predicate PieceNear(e: Endpoint, s: u32, d: seq<u8>) {
    exists q: nat :: NearAt(e, s, d, q)
  }

  /** That position is unique, however often the sequence space has wrapped. */
  lemma NearUnique(e: Endpoint, s: u32, d: seq<u8>, q: nat, q': nat)
    requires RingHolds(e) && NearAt(e, s, d, q) && NearAt(e, s, d, q')
    ensures q == q'
  {
    hide SeqAdd, SeqSub;
    PositionsInjective(e.Base(), q, q');
  }

  /** Every queued entry is a piece of the part of the stream that was sent. */
  ghost predicate QueueHolds(e: Endpoint) {
    forall x :: x in e.conn.rtx.entries ==> PieceNear(e, x.seqNum, x.data)
  }

  ghost predicate Inv(e: Endpoint) {
    && RingHolds(e) && WordsHold(e) && PhaseHolds(e) && QueueHolds(e)
  }

  lemma FreshInv(e: Endpoint)
    requires Fresh(e)
    ensures Inv(e)
  {
    hide SeqAdd, SeqSub, NearAt;
    var iss := e.conn.tcb.snd.iss;
    assert e.conn == NewConn(e.conn.tcb) && e.conn.send.data == [] && e.conn.rtx.entries == [];
    SeqAddZero(iss);
    SeqAddAdd(iss, 1, -1);
    SeqAddAdd(iss, 1, 0);
    assert e.written[0..] == [] && e.Discarded() == 0;
  }

  lemma WordsKept(e: Endpoint, c': Conn)
    requires WordsHold(e) && c'.tcb.snd.iss == e.conn.tcb.snd.iss
    ensures WordsHold(Moved(e, c'))
  {
    Unwrap(e.Base(), e.una, c'.tcb.snd.una, e.conn.tcb.snd.una);
    Unwrap(e.Base(), e.nxt, c'.tcb.snd.nxt, e.conn.tcb.snd.nxt);
  }

  lemma PieceKept(e: Endpoint, e': Endpoint, s: u32, d: seq<u8>)
    requires PieceHolds(e, s, d) && e.Base() == e'.Base()
    requires e.written <= e'.written && e.sent <= e'.sent
    ensures PieceHolds(e', s, d)
  {
    SliceExtends(e.Base(), SentPart(e), SentPart(e'), s, d);
  }

  /** An entry that is in the queue after a step was there before - and if the ring has advanced, it
      is not among what was acknowledged, unless that completed the handshake - or it was just
      sent. */
  ghost predicate EntryStays(e: Endpoint, e': Endpoint, x': Entry) {
    exists x :: x in e.conn.rtx.entries && SamePiece(e, e', x, x')
  }

  ghost predicate SamePiece(e: Endpoint, e': Endpoint, x: Entry, x': Entry) {
    && x.seqNum == x'.seqNum && x.data == x'.data
    && (e'.Discarded() != e.Discarded() && !Opening(e.conn) ==>
          !x.FullyAcked(SeqAdd(e.Base(), e'.Discarded())))
  }

  ghost predicate EntryNew(e: Endpoint, e': Endpoint, x': Entry) {
    && x'.data != [] && SliceAt(e.Base(), SentPart(e'), x'.seqNum, x'.data, e.sent)
    && e.sent + |x'.data| == e'.sent
  }

  ghost predicate QueueStep(e: Endpoint, e': Endpoint) {
    forall x' :: x' in e'.conn.rtx.entries ==> EntryStays(e, e', x') || EntryNew(e, e', x')
  }

  /** The stream only grows. */
  ghost predicate Grows(e: Endpoint, e': Endpoint) {
    && e.Base() == e'.Base() && e.written <= e'.written && e.sent <= e'.sent
    && e.Discarded() <= e'.Discarded() <= e.sent + 1
  }

  lemma PieceStays(e: Endpoint, e': Endpoint, x: Entry, x': Entry, q: nat)
    requires RingHolds(e) && RingHolds(e') && Grows(e, e')
    requires Opening(e.conn) ==> e'.Discarded() <= Ring.CAPACITY
    requires NearAt(e, x.seqNum, x.data, q) && SamePiece(e, e', x, x')
    ensures NearAt(e', x'.seqNum, x'.data, q)
  {
    hide SeqAdd, SeqSub, SeqLt;
    var end := q + |x.data|;
    assert SentPart(e) <= SentPart(e');
    assert SentPart(e')[q..end] == SentPart(e)[q..end];
    if e'.Discarded() != e.Discarded() && !Opening(e.conn) {
      SeqAddAdd(e.Base(), q, |x.data|);
      SeqLtOrdersPositions(e.Base(), end, e'.Discarded());
    }
  }

  lemma QueueKept(e: Endpoint, e': Endpoint)
    requires RingHolds(e) && QueueHolds(e) && RingHolds(e') && Grows(e, e') && QueueStep(e, e')
    requires Opening(e.conn) ==> e'.Discarded() <= Ring.CAPACITY
    ensures QueueHolds(e')
  {
    forall x' | x' in e'.conn.rtx.entries ensures PieceNear(e', x'.seqNum, x'.data) {
      if EntryStays(e, e', x') {
        var x :| x in e.conn.rtx.entries && SamePiece(e, e', x, x');
        var q: nat :| NearAt(e, x.seqNum, x.data, q);
        PieceStays(e, e', x, x', q);
      } else {
        assert NearAt(e', x'.seqNum, x'.data, e.sent);
      }
    }
  }

  lemma {:induction false} KeepSelects(entries: seq<Entry>, ack: u32)
    ensures forall x :: x in Keep(entries, ack) ==> x in entries && !x.FullyAcked(ack)
  {
    if entries != [] { KeepSelects(entries[1..], ack); }
  }

  lemma {:induction false} RefreshKeeps(entries: seq<Entry>, now: real, rto: real)
    ensures |Refresh(entries, now, rto)| == |entries|
    ensures forall i :: 0 <= i < |entries| ==>
              Refresh(entries, now, rto)[i].seqNum == entries[i].seqNum
              && Refresh(entries, now, rto)[i].data == entries[i].data
  {
    if entries != [] { RefreshKeeps(entries[1..], now, rto); }
  }

  lemma {:induction false} DueSelects(entries: seq<Entry>, now: real, rto: real)
    ensures forall p :: p in DueSegments(entries, now, rto) ==>
              exists x :: x in entries && p == (x.seqNum, x.data)
  {
    if entries != [] {
      DueSelects(entries[1..], now, rto);
      forall p | p in DueSegments(entries, now, rto)
        ensures exists x :: x in entries && p == (x.seqNum, x.data)
      {
        if p in DueSegments(entries[1..], now, rto) {
          var x :| x in entries[1..] && p == (x.seqNum, x.data);
          assert x in entries;
        } else {
          assert entries[0] in entries;
        }
      }
    }
  }

  lemma AcknowledgeSelects(q: RtxState, ack: u32, now: real)
    ensures q.Acknowledge(ack, now).entries == Keep(q.entries, ack)
    ensures forall x :: x in q.Acknowledge(ack, now).entries ==>
              x in q.entries && !x.FullyAcked(ack)
  {
    UpdateKeepsEntries(q.(entries := Keep(q.entries, ack)), Samples(q.entries, ack, now));
    KeepSelects(q.entries, ack);
  }

  lemma AcknowledgeAt(send: SendState, base: u32, d: nat, k: int)
    requires send.una == SeqAdd(base, d) && 0 <= k - d < 0x1_0000_0000
    ensures var ack := SeqAdd(base, k);
            send.Acknowledge(ack) ==
            if 0 < k - d <= |send.data| then send.(data := send.data[k - d..], una := ack) else send
  {
    SeqSubPositions(base, d, k);
  }

  /** An acceptable acknowledgement denotes a position in (una, nxt], and the ring either drops
      its front up to that position or stays as it is. */
  lemma AckMoves(e: Endpoint, ack: u32) returns (k: int)
    requires RingHolds(e) && WordsHold(e)
    requires -1 <= e.una <= e.nxt <= e.sent + 1 && e.Discarded() <= Max(e.una, 0)
    requires AckAcceptable(e.conn.tcb.snd.una, ack, e.conn.tcb.snd.nxt)
    ensures e.una < k <= e.nxt && ack == SeqAdd(e.Base(), k)
    ensures var send, drop := e.conn.send, k - e.Discarded();
            send.Acknowledge(ack) ==
            if 0 < drop <= |send.data| then send.(data := send.data[drop..], una := ack) else send
    ensures Distance(ack, e.conn.tcb.snd.una) == k - e.una
  {
    AckPosition(e.Base(), e.una, ack, e.nxt);
    k :| e.una < k <= e.nxt && ack == SeqAdd(e.Base(), k);
    AcknowledgeAt(e.conn.send, e.Base(), e.Discarded(), k);
    DistancePositions(e.Base(), k, e.una);
  }

  /** The ring after an acknowledgement of position `k`. */
  lemma RingAcknowledged(e: Endpoint, ack: u32, k: int, send: SendState)
    requires RingHolds(e) && ack == SeqAdd(e.Base(), k) && k <= e.sent + 1
    requires var drop := k - e.Discarded();
             send == if 0 < drop <= |e.conn.send.data|
                     then e.conn.send.(data := e.conn.send.data[drop..], una := ack)
                     else e.conn.send
    ensures var e' := e.(conn := e.conn.(send := send));
            RingHolds(e') && e'.Discarded() == if k <= |e.written| then Max(e.Discarded(), k)
                                               else e.Discarded()
  {}

  /** What an event leaves of the invariant and how it changed the queue. */
  ghost predicate StepHolds(e: Endpoint, e': Endpoint) {
    && RingHolds(e') && WordsHold(e') && PhaseHolds(e')
    && Grows(e, e') && QueueStep(e, e')
    && (Opening(e.conn) ==> e'.Discarded() <= Ring.CAPACITY)
  }

  /** The queue after a step that neither sends nor moves the ring. */
  lemma QueueCarried(e: Endpoint, e': Endpoint)
    requires e'.Discarded() == e.Discarded()
    requires forall x :: x in e'.conn.rtx.entries ==> x in e.conn.rtx.entries
    ensures QueueStep(e, e')
  {
    forall x | x in e'.conn.rtx.entries ensures EntryStays(e, e', x) {
      assert SamePiece(e, e', x, x);
    }
  }

  /** The same stream and send ring under another connection value. */
  lemma Carried(e: Endpoint, e': Endpoint)
    requires RingHolds(e) && e.Base() == e'.Base()
    requires e'.written == e.written && e'.sent == e.sent && e'.conn.send == e.conn.send
    requires forall x :: x in e'.conn.rtx.entries ==> x in e.conn.rtx.entries
    ensures RingHolds(e') && Grows(e, e') && QueueStep(e, e')
  {
    QueueCarried(e, e');
  }

  /** Taking an acknowledgement, whatever else the handler changes. */
  lemma AckCarried(e: Endpoint, seg: TcpSegment, now: real, e': Endpoint) returns (k: int)
    requires Inv(e) && IsNewAck(e.conn, seg)
    requires e.conn.tcb.state in {Established, FinWait1}
    requires e.Base() == e'.Base() && e'.written == e.written && e'.sent == e.sent
    requires e'.conn.send == TakeAck(e.conn, seg, now).send
    requires e'.conn.rtx == TakeAck(e.conn, seg, now).rtx
    requires e'.conn.tcb.snd.una == seg.header.ackNum && e'.conn.tcb.snd.nxt == e.conn.tcb.snd.nxt
    requires e'.una == e.una + Distance(seg.header.ackNum, e.conn.tcb.snd.una)
    requires e'.nxt == e.nxt
    ensures RingHolds(e') && WordsHold(e') && Grows(e, e') && QueueStep(e, e')
    ensures k == e'.una && e.una < k <= e.nxt && seg.header.ackNum == SeqAdd(e.Base(), k)
    ensures e'.Discarded() == if k <= |e.written| then k else e.Discarded()
    ensures e'.conn.rtx.entries == Keep(e.conn.rtx.entries, seg.header.ackNum)
  {
    hide SeqAdd, SeqSub, RtxState.Acknowledge;
    var ack := seg.header.ackNum;
    k := AckMoves(e, ack);
    RingAcknowledged(e, ack, k, e'.conn.send);
    AcknowledgeSelects(e.conn.rtx, ack, now);
    forall x | x in e'.conn.rtx.entries ensures EntryStays(e, e', x) {
      assert SamePiece(e, e', x, x);
    }
  }

  lemma AckPartSendSide(c: Conn, seg: TcpSegment, now: real)
    ensures var c' := AckEstablished(c, seg, now).conn;
            && c'.tcb.state == c.tcb.state && c'.recv == c.recv
            && (IsNewAck(c, seg) ==> var t := TakeAck(c, seg, now);
                                     c'.send == t.send && c'.rtx == t.rtx && c'.tcb.snd == t.tcb.snd)
            && (!IsNewAck(c, seg) ==> c'.send == c.send && c'.rtx == c.rtx && c'.tcb.snd == c.tcb.snd)
  {
    hide SeqAdd, SeqSub, AckAcceptable, GrownCwnd, HalvedWindow;
  }

  /** The send side of `handle_established`, apart from the congestion window. */
  lemma EstablishedSendSide(c: Conn, seg: TcpSegment, now: real)
    requires c.tcb.state == Established
    ensures var c', ack := HandleEstablished(c, seg, now).conn,
                           IsNewAck(c, seg) && !seg.header.flags.rst;
            && c'.tcb.state in {Established, CloseWait, Closed}
            && (seg.header.flags.rst ==> c'.tcb.state == Closed)
            && (ack ==> var t := TakeAck(c, seg, now);
                        c'.send == t.send && c'.rtx == t.rtx && c'.tcb.snd == t.tcb.snd)
            && (!ack ==> c'.send == c.send && c'.rtx == c.rtx && c'.tcb.snd == c.tcb.snd)
            && (c.recv.Some? ==> c'.recv.Some?)
  {
    hide SeqAdd, SeqSub, AckEstablished, IsNewAck;
    AckPartSendSide(c, seg, now);
  }

  /** The third duplicate acknowledgement while something is queued: it is answered with the head of
      the queue, and the rest of the segment is not looked at. */
  predicate ResendsHead(c: Conn, seg: TcpSegment) {
    && seg.header.flags.ack && seg.header.ackNum == c.tcb.snd.una && c.tcb.snd.una != c.tcb.snd.nxt
    && c.tcb.dupAckCount == 2 && c.rtx.entries != []
  }

  lemma AckReplies(c: Conn, seg: TcpSegment, now: real)
    ensures AckEstablished(c, seg, now).out.Some? <==> ResendsHead(c, seg)
  {
    hide SeqAdd, SeqSub, GrownCwnd, HalvedWindow;
  }

  /** Where the handler for ESTABLISHED leads. */
  lemma EstablishedOutcome(c: Conn, seg: TcpSegment, now: real)
    requires c.tcb.state == Established
    ensures var r := HandleEstablished(c, seg, now);
            && r.conn.tcb.state in {Established, CloseWait, Closed}
            && (r.conn.tcb.state == CloseWait <==>
                  seg.header.flags.fin && !seg.header.flags.rst && !ResendsHead(c, seg))
            && (r.conn.tcb.state == Closed <==> seg.header.flags.rst)
            && (r.out.Some? ==> !r.out.value.flags.fin && !r.out.value.flags.rst)
            && r.conn.recv.Some? == c.recv.Some? && r.conn.timeWaitStart == c.timeWaitStart
  {
    hide SeqAdd, SeqSub, AckAcceptable, ResendsHead;
    AckReplies(c, seg, now);
  }

  lemma EstablishedKeeps(e: Endpoint, seg: TcpSegment, now: real)
    requires Inv(e) && e.conn.tcb.state == Established
    ensures StepHolds(e, Moved(e, HandleEstablished(e.conn, seg, now).conn))
  {
    hide SeqAdd, SeqSub, HandleEstablished;
    var e' := Moved(e, HandleEstablished(e.conn, seg, now).conn);
    EstablishedSendSide(e.conn, seg, now);
    WordsKept(e, e'.conn);
    if IsNewAck(e.conn, seg) && !seg.header.flags.rst {
      var k := AckCarried(e, seg, now, e');
    } else {
      Carried(e, e');
    }
  }

  lemma FinWait1Keeps(e: Endpoint, seg: TcpSegment, now: real)
    requires Inv(e) && e.conn.tcb.state == FinWait1
    ensures StepHolds(e, Moved(e, HandleFinWait1(e.conn, seg, now).conn))
  {
    hide SeqAdd, SeqSub;
    var e' := Moved(e, HandleFinWait1(e.conn, seg, now).conn);
    WordsKept(e, e'.conn);
    if IsNewAck(e.conn, seg) && !seg.header.flags.rst {
      var k := AckCarried(e, seg, now, e');
    } else {
      Carried(e, e');
    }
  }

  lemma SynReceivedKeeps(e: Endpoint, seg: TcpSegment)
    requires Inv(e) && e.conn.tcb.state == SynReceived
    ensures StepHolds(e, Moved(e, HandleSynReceived(e.conn, seg).conn))
  {
    hide SeqAdd, SeqSub;
    var e' := Moved(e, HandleSynReceived(e.conn, seg).conn);
    WordsKept(e, e'.conn);
    if e'.conn.tcb.state == Established {
      var k := AckMoves(e, seg.header.ackNum);
      RingAcknowledged(e, seg.header.ackNum, k, e'.conn.send);
      forall x | x in e'.conn.rtx.entries ensures EntryStays(e, e', x) {
        assert SamePiece(e, e', x, x);
      }
    } else {
      Carried(e, e');
    }
  }

  lemma SynSentKeeps(e: Endpoint, seg: TcpSegment)
    requires Inv(e) && e.conn.tcb.state == SynSent
    ensures StepHolds(e, Moved(e, HandleSynSent(e.conn, seg).conn))
  {
    hide SeqAdd, SeqSub;
    var e' := Moved(e, HandleSynSent(e.conn, seg).conn);
    WordsKept(e, e'.conn);
    Carried(e, e');
    if e'.conn.tcb.state == Established {
      var k := AckMoves(e, seg.header.ackNum);
    }
  }

  lemma ListenKeeps(e: Endpoint, seg: TcpSegment)
    requires Inv(e) && e.conn.tcb.state == Listen
    ensures StepHolds(e, Moved(e, HandleListen(e.conn, seg).conn))
  {
    hide SeqAdd, SeqSub;
    var e' := Moved(e, HandleListen(e.conn, seg).conn);
    WordsKept(e, e'.conn);
    Carried(e, e');
    SeqAddAdd(e.conn.tcb.snd.iss, 1, 0);
    DistancePositions(e.Base(), 0, e.nxt);
  }

  lemma OthersKeep(e: Endpoint, seg: TcpSegment, now: real)
    requires Inv(e)
    requires e.conn.tcb.state in {CloseWait, FinWait2, Closing, LastAck, TimeWait, Closed}
    ensures StepHolds(e, Moved(e, ProcessSegment(e.conn, seg, now).conn))
  {
    hide SeqAdd, SeqSub;
    var e' := Moved(e, ProcessSegment(e.conn, seg, now).conn);
    WordsKept(e, e'.conn);
    Carried(e, e');
    if e'.conn.tcb.snd.una != e.conn.tcb.snd.una {
      var k := AckMoves(e, seg.header.ackNum);
    }
  }

  lemma DeliverKeeps(e: Endpoint, seg: TcpSegment, now: real)
    requires Inv(e)
    ensures StepHolds(e, Next(e, Deliver(seg, now)))
  {
    var e' := Moved(e, ProcessSegment(e.conn, seg, now).conn);
    assert Next(e, Deliver(seg, now)) == e';
    match e.conn.tcb.state
    case Listen => ListenKeeps(e, seg);
    case SynSent => SynSentKeeps(e, seg);
    case SynReceived => SynReceivedKeeps(e, seg);
    case Established => EstablishedKeeps(e, seg, now);
    case FinWait1 => FinWait1Keeps(e, seg, now);
    case _ => OthersKeep(e, seg, now);
  }

  lemma InFlightIs(e: Endpoint)
    requires RingHolds(e)
    ensures if e.Discarded() <= e.sent then e.conn.send.InFlight() == e.sent - e.Discarded()
            else e.conn.send.InFlight() >= |e.conn.send.data|
  {
    SeqSubPositions(e.Base(), e.Discarded(), e.sent);
  }

  /** The unsent rest of the stream, as the ring sees it. */
  lemma NextSegmentIsNextBytes(e: Endpoint, maxLen: nat)
    requires RingHolds(e)
    ensures var r := e.conn.send.NextSegment(maxLen);
            if e.Discarded() <= e.sent < |e.written| && maxLen > 0
            then r == Some((SeqAdd(e.Base(), e.sent),
                            e.written[e.sent..e.sent + Min(maxLen, |e.written| - e.sent)]))
            else r == None
  {
    hide SeqAdd, SeqSub;
    InFlightIs(e);
    var d := e.Discarded();
    if d <= e.sent {
      var n := Min(maxLen, |e.written| - e.sent);
      assert e.written[d..][e.sent - d..e.sent - d + n] == e.written[e.sent..e.sent + n];
    }
  }

  /** Bytes `[sent, sent + n)` go out, queued or not. */
  lemma EmitKeeps(e: Endpoint, c': Conn, n: nat, e': Endpoint)
    requires Inv(e) && e.Discarded() <= e.sent && 0 < n && e.sent + n <= |e.written|
    requires c'.send == e.conn.send && c'.tcb == e.conn.tcb && c'.recv == e.conn.recv
    requires e'.conn == Emit(c', n) && e'.written == e.written && e'.read == e.read
    requires e'.sent == e.sent + n && e'.una == e.una && WordsHold(e') && e'.nxt == e'.sent
    requires forall x :: x in c'.rtx.entries ==> x in e.conn.rtx.entries || EntryNew(e, e', x)
    ensures StepHolds(e, e')
  {
    hide SeqSub;
    SeqAddAdd(e.Base(), e.sent, n);
    forall x | x in e'.conn.rtx.entries && !EntryNew(e, e', x) ensures EntryStays(e, e', x) {
      assert SamePiece(e, e', x, x);
    }
  }

  lemma SendKeeps(e: Endpoint, maxPayload: nat, now: real)
    requires Inv(e)
    ensures StepHolds(e, Next(e, Send(maxPayload, now)))
  {
    hide SeqAdd, SeqSub, ProcessSegment, QueueStep;
    var r := NextSegmentToSend(e.conn, maxPayload, now);
    var e' := Next(e, Send(maxPayload, now));
    assert e'.conn == r.conn && e'.written == e.written && e'.read == e.read;
    if r.out.Some? {
      var maxLen := Min(maxPayload, EffectiveWindow(e.conn) - InFlight(e.conn));
      NextSegmentIsNextBytes(e, maxLen);
      var n := Min(maxLen, |e.written| - e.sent);
      SentPosition(e, n);
      WordsKept(e, e'.conn);
      PushedIsNew(e, n, now, e');
    } else {
      NothingSent(e, e');
    }
  }

  lemma PushedIsNew(e: Endpoint, n: nat, now: real, e': Endpoint)
    requires Inv(e) && e.Discarded() <= e.sent && 0 < n && e.sent + n <= |e.written|
    requires var s, d := SeqAdd(e.Base(), e.sent), e.written[e.sent..e.sent + n];
             e'.conn == Emit(e.conn.(rtx := e.conn.rtx.Push(s, d, now)), n)
    requires e'.written == e.written && e'.read == e.read
    requires e'.sent == e.sent + n && e'.una == e.una && WordsHold(e') && e'.nxt == e'.sent
    ensures StepHolds(e, e')
  {
    hide SeqAdd, SeqSub, QueueStep;
    var s, d := SeqAdd(e.Base(), e.sent), e.written[e.sent..e.sent + n];
    assert SliceAt(e.Base(), SentPart(e'), s, d, e.sent);
    EmitKeeps(e, e.conn.(rtx := e.conn.rtx.Push(s, d, now)), n, e');
  }

  lemma NothingSent(e: Endpoint, e': Endpoint)
    requires Inv(e) && e' == Moved(e, e.conn)
    ensures StepHolds(e, e')
  {
    Carried(e, e');
  }

  lemma ProbeKeeps(e: Endpoint)
    requires Inv(e)
    ensures StepHolds(e, Next(e, Probe))
  {
    hide SeqAdd, SeqSub, ProcessSegment;
    var r := ZeroWindowProbe(e.conn);
    var e' := Next(e, Probe);
    assert e'.conn == r.conn && e'.written == e.written && e'.read == e.read;
    if r.out.Some? {
      NextSegmentIsNextBytes(e, 1);
      SentPosition(e, 1);
      WordsKept(e, e'.conn);
      EmitKeeps(e, e.conn, 1, e');
    } else {
      NothingSent(e, e');
    }
  }

  /** After `n` more bytes, `snd.nxt` unwraps to the new count of bytes sent. */
  lemma SentPosition(e: Endpoint, n: nat)
    requires RingHolds(e) && WordsHold(e) && e.Discarded() <= e.sent
    requires e.sent + n <= |e.written|
    requires PhaseHolds(e) && n < 0x1_0000_0000
    ensures SeqAdd(e.conn.send.nxt, n) == SeqAdd(e.Base(), e.sent + n)
    ensures e.nxt + Distance(SeqAdd(e.conn.send.nxt, n), e.conn.tcb.snd.nxt) == e.sent + n
  {
    hide SeqAdd, SeqSub, Distance, QueueHolds;
    SeqAddAdd(e.Base(), e.sent, n);
    DistancePositions(e.Base(), e.sent + n, e.nxt);
  }

  lemma WriteKeeps(e: Endpoint, data: seq<u8>)
    requires Inv(e)
    ensures StepHolds(e, Next(e, Write(data)))
  {
    hide SeqAdd, SeqSub, ProcessSegment;
    var e' := Next(e, Write(data));
    var d := e.Discarded();
    assert e'.written[d..] == e.written[d..] + data[..e.conn.send.Accepts(data)];
    WordsKept(e, e'.conn);
    QueueCarried(e, e');
  }

  /** The timer keeps every entry's number and bytes. */
  lemma RefreshStays(e: Endpoint, now: real, e': Endpoint)
    requires e'.conn.rtx.entries == Refresh(e.conn.rtx.entries, now, e.conn.rtx.rto)
    requires e'.Discarded() == e.Discarded()
    ensures QueueStep(e, e')
  {
    var old' := e.conn.rtx.entries;
    RefreshKeeps(old', now, e.conn.rtx.rto);
    forall x' | x' in e'.conn.rtx.entries ensures EntryStays(e, e', x') {
      var i :| 0 <= i < |old'| && e'.conn.rtx.entries[i] == x';
      assert SamePiece(e, e', old'[i], x');
    }
  }

  lemma RetransmitKeeps(e: Endpoint, now: real)
    requires Inv(e)
    ensures StepHolds(e, Next(e, Retransmit(now)))
  {
    hide SeqAdd, SeqSub, ProcessSegment, QueueStep;
    var e' := Next(e, Retransmit(now));
    WordsKept(e, e'.conn);
    RefreshStays(e, now, e');
  }

  /** Events that touch neither stream, ring nor queue. */
  lemma ControlStep(e: Endpoint, ev: Event)
    requires (ev.Close? || ev.Open? || ev.Tick?)
    ensures var c' := Perform(e.conn, ev).conn;
            Next(e, ev) == Moved(e, c') && c'.send == e.conn.send && c'.rtx == e.conn.rtx
            && c'.recv == e.conn.recv && SameLink(e.conn, c')
  {
    hide SeqAdd, SeqSub, ProcessSegment;
    assert e.written + [] == e.written && e.read + [] == e.read;
  }

  lemma ControlKeeps(e: Endpoint, e': Endpoint)
    requires Inv(e) && e'.(read := e.read) == Moved(e, e'.conn) && SameLink(e.conn, e'.conn)
    requires e'.conn.send == e.conn.send && e'.conn.rtx == e.conn.rtx
    requires PhaseHolds(e')
    ensures StepHolds(e, e')
  {
    hide PhaseHolds;
    OpeningKeepsAll(e);
    WordsKept(e, e'.conn);
    Carried(e, e');
  }

  /** Nothing leaves the ring before the handshake is over. */
  lemma OpeningKeepsAll(e: Endpoint)
    requires Inv(e)
    ensures Opening(e.conn) ==> e.Discarded() == 0 && |e.written| <= Ring.CAPACITY
  {}

  lemma CloseKeeps(e: Endpoint)
    requires Inv(e)
    ensures StepHolds(e, Next(e, Close))
  {
    hide SeqSub, ProcessSegment, QueueStep;
    var e' := Next(e, Close);
    ControlStep(e, Close);
    SeqAddAdd(e.Base(), e.nxt, 1);
    DistancePositions(e.Base(), e.nxt + 1, e.nxt);
    ControlKeeps(e, e');
  }

  lemma OpenKeeps(e: Endpoint)
    requires Inv(e) && e.conn.recv.None?
    ensures StepHolds(e, Next(e, Open))
  {
    hide SeqSub, ProcessSegment, QueueStep;
    var e' := Next(e, Open);
    ControlStep(e, Open);
    SeqAddAdd(e.conn.tcb.snd.iss, 1, 0);
    if Opening(e.conn) { DistancePositions(e.Base(), 0, e.nxt); }
    ControlKeeps(e, e');
  }

  lemma TickKeeps(e: Endpoint, now: real)
    requires Inv(e)
    ensures StepHolds(e, Next(e, Tick(now)))
  {
    hide SeqAdd, SeqSub, ProcessSegment, QueueStep;
    var e' := Next(e, Tick(now));
    ControlStep(e, Tick(now));
    ControlKeeps(e, e');
  }

  lemma ReadStep(e: Endpoint, n: nat)
    ensures var e' := Next(e, Event.Read(n));
            && e'.(read := e.read) == Moved(e, e'.conn) && e'.conn.tcb == e.conn.tcb
            && e'.conn.send == e.conn.send && e'.conn.rtx == e.conn.rtx
            && e'.conn.recv.Some? == e.conn.recv.Some?
  {
    hide SeqAdd, SeqSub;
    assert e.written + [] == e.written;
  }

  lemma ReadKeeps(e: Endpoint, n: nat)
    requires Inv(e)
    ensures StepHolds(e, Next(e, Event.Read(n)))
  {
    hide SeqAdd, SeqSub, Perform, QueueStep, QueueHolds, WordsHold;
    ReadStep(e, n);
    ControlKeeps(e, Next(e, Event.Read(n)));
  }

  /** What every event does to the stream, the ring and the queue. */
  lemma StepDoes(e: Endpoint, ev: Event)
    requires Inv(e) && Proper(e, ev)
    ensures StepHolds(e, Next(e, ev))
  {
    match ev
    case Deliver(seg, now) => DeliverKeeps(e, seg, now);
    case Write(data) => WriteKeeps(e, data);
    case Send(maxPayload, now) => SendKeeps(e, maxPayload, now);
    case Retransmit(now) => RetransmitKeeps(e, now);
    case Probe => ProbeKeeps(e);
    case Close => CloseKeeps(e);
    case Open => OpenKeeps(e);
    case Read(n) => ReadKeeps(e, n);
    case Tick(now) => TickKeeps(e, now);
  }

  /** Every event keeps the invariant. */
  lemma StepKeeps(e: Endpoint, ev: Event)
    requires Inv(e) && Proper(e, ev)
    ensures Inv(Next(e, ev))
  {
    hide Next, PhaseHolds, WordsHold;
    StepDoes(e, ev);
    QueueKept(e, Next(e, ev));
  }

  lemma {:induction false} RunKeeps(e: Endpoint, evs: seq<Event>)
    requires Inv(e) && Obeys(e, evs, Proper)
    ensures Inv(Exec(e, evs))
    decreases |evs|
  {
    if evs != [] {
      StepKeeps(e, evs[0]);
      RunKeeps(Next(e, evs[0]), evs[1..]);
    }
  }

  /** What a transmitted segment may contain, for good: stream bytes under their own numbers, and a
      SYN only under the initial sequence number. */
  ghost predicate OutputHolds(e: Endpoint, b: Builder) {
    && (b.payload != [] ==> PieceHolds(e, b.seqNum, b.payload))
    && (b.flags.syn ==> b.seqNum == e.conn.tcb.snd.iss && b.payload == [])
  }

  /** When it is transmitted, its bytes are moreover the current ones under that number. */
  ghost predicate OutputNear(e: Endpoint, b: Builder) {
    && (b.payload != [] ==> PieceNear(e, b.seqNum, b.payload))
    && (b.flags.syn ==> b.seqNum == e.conn.tcb.snd.iss && b.payload == [])
  }

  /** A data segment that is not a first transmission comes from the queue. */
  ghost predicate Repeats(e: Endpoint, b: Builder) {
    exists x :: x in e.conn.rtx.entries && b.seqNum == x.seqNum && b.payload == x.data
  }

  lemma FirstUnackedRepeats(e: Endpoint, c': Conn)
    requires c'.rtx == e.conn.rtx
    ensures var b := FastRetransmitSegment(c');
            b.Some? ==> Repeats(e, b.value) && !b.value.flags.syn
  {
    if e.conn.rtx.entries != [] {
      assert e.conn.rtx.entries[0] in e.conn.rtx.entries;
    }
  }

  /** The reply to a segment. */
  lemma ReplyRepeats(c: Conn, seg: TcpSegment, now: real)
    requires (c.recv.None? ==> c.tcb.state in {Listen, SynSent, Closed})
    ensures var r := ProcessSegment(c, seg, now);
            r.out.Some? ==>
              && (r.out.value.payload != [] ==>
                    !r.out.value.flags.syn && r.conn.send == c.send
                    && r.conn.rtx == c.rtx && FastRetransmitSegment(r.conn) == r.out)
              && (r.out.value.flags.syn ==>
                    r.out.value.seqNum == c.tcb.snd.iss && r.out.value.payload == [])
  {
    hide SeqAdd, SeqSub, AckAcceptable, HandleEstablished;
    if c.tcb.state == Established { EstablishedReply(c, seg, now); }
  }

  lemma EstablishedReply(c: Conn, seg: TcpSegment, now: real)
    ensures var r := HandleEstablished(c, seg, now);
            r.out.Some? ==>
              && !r.out.value.flags.syn
              && (r.out.value.payload != [] ==>
                    r.conn.send == c.send
                    && r.conn.rtx == c.rtx && FastRetransmitSegment(r.conn) == r.out)
  {
    hide SeqAdd, SeqSub, AckAcceptable, GrownCwnd, HalvedWindow, SaturatingAdd, TakeAck;
  }

  lemma DeliverRepeats(e: Endpoint, seg: TcpSegment, now: real)
    requires Inv(e)
    ensures var e' := Next(e, Deliver(seg, now));
            forall b :: b in Outputs(e, Deliver(seg, now)) ==>
              && (b.payload != [] ==> Repeats(e, b) && !b.flags.syn
                                      && e'.Discarded() == e.Discarded())
              && (b.flags.syn ==> b.seqNum == e.conn.tcb.snd.iss && b.payload == [])
  {
    hide SeqAdd, SeqSub, ProcessSegment, FastRetransmitSegment, QueueHolds, RingHolds, WordsHold;
    var r := ProcessSegment(e.conn, seg, now);
    assert Next(e, Deliver(seg, now)) == Moved(e, r.conn);
    ReplyRepeats(e.conn, seg, now);
    if r.out.Some? && r.out.value.payload != [] {
      FirstUnackedRepeats(e, r.conn);
    }
  }

  lemma RetransmitRepeats(e: Endpoint, now: real)
    ensures var e' := Next(e, Retransmit(now));
            e'.Discarded() == e.Discarded()
            && forall b :: b in Outputs(e, Retransmit(now)) ==> Repeats(e, b) && !b.flags.syn
  {
    hide SeqAdd, SeqSub, ProcessSegment;
    var pieces := e.conn.rtx.Expired(now);
    DueSelects(e.conn.rtx.entries, now, e.conn.rtx.rto);
    forall b | b in Outputs(e, Retransmit(now)) ensures Repeats(e, b) && !b.flags.syn {
      var i :| 0 <= i < |pieces|
               && b == AfterTimer(e.conn, now).BuildData(pieces[i].0, pieces[i].1, true);
      assert pieces[i] in pieces;
      var x :| x in e.conn.rtx.entries && pieces[i] == (x.seqNum, x.data);
    }
  }

  /** What is repeated is as current after the step as it was in the queue. */
  lemma RepeatsNear(e: Endpoint, e': Endpoint, b: Builder)
    requires Inv(e) && RingHolds(e') && Grows(e, e') && Repeats(e, b)
    requires e'.Discarded() == e.Discarded()
    ensures PieceNear(e', b.seqNum, b.payload)
  {
    var x :| x in e.conn.rtx.entries && b.seqNum == x.seqNum && b.payload == x.data;
    var q: nat :| NearAt(e, x.seqNum, x.data, q);
    PieceStays(e, e', x, x, q);
  }

  predicate NothingUnsent(c: Conn) { c.send.InFlight() >= |c.send.data| }

  /** A send goes out: the window is open and something is unsent. */
  predicate Sends(c: Conn, maxPayload: nat) {
    InFlight(c) < EffectiveWindow(c) && maxPayload > 0 && !NothingUnsent(c)
  }

  /** A probe goes out: the peer's window is closed and something is unsent. */
  predicate Probes(c: Conn) {
    c.tcb.state == Established && c.tcb.snd.wnd == 0 && !NothingUnsent(c)
  }

  lemma TransmitsIff(e: Endpoint, ev: Event)
    ensures ev.Send? ==> (Outputs(e, ev) != [] <==> Sends(e.conn, ev.maxPayload))
    ensures ev.Probe? ==> (Outputs(e, ev) != [] <==> Probes(e.conn))
    ensures (ev.Send? || ev.Probe?) && Outputs(e, ev) == [] ==> Next(e, ev) == Moved(e, e.conn)
  {
    hide SeqAdd, SeqSub, ProcessSegment;
    assert e.written + [] == e.written && e.read + [] == e.read;
  }

  /** A first transmission carries exactly the next unsent bytes under their position. */
  lemma FirstTransmission(e: Endpoint, ev: Event, b: Builder)
    requires Inv(e) && (ev.Send? || ev.Probe?) && b in Outputs(e, ev)
    ensures |b.payload| > 0 && e.Discarded() <= e.sent && e.sent + |b.payload| <= |e.written|
    ensures b.seqNum == SeqAdd(e.Base(), e.sent)
    ensures b.payload == e.written[e.sent..e.sent + |b.payload|]
    ensures Next(e, ev).sent == e.sent + |b.payload| && !b.flags.syn
  {
    hide SeqAdd, SeqSub, ProcessSegment, QueueHolds, WordsHold, PhaseHolds;
    var maxLen := if ev.Probe? then 1
                  else Min(ev.maxPayload, EffectiveWindow(e.conn) - InFlight(e.conn));
    NextSegmentIsNextBytes(e, maxLen);
  }

  lemma FirstNear(e: Endpoint, ev: Event, b: Builder)
    requires Inv(e) && (ev.Send? || ev.Probe?) && b in Outputs(e, ev)
    ensures NearAt(Next(e, ev), b.seqNum, b.payload, e.sent) && !b.flags.syn
  {
    hide SeqAdd, SeqSub, Perform;
    FirstTransmission(e, ev, b);
    StepDoes(e, ev);
    var e' := Next(e, ev);
    assert e'.written == e.written;
    assert SliceAt(e'.Base(), SentPart(e'), b.seqNum, b.payload, e.sent);
    SendingKeepsRing(e, ev);
  }

  lemma SendingKeepsRing(e: Endpoint, ev: Event)
    requires (ev.Send? || ev.Probe?)
    ensures Next(e, ev).Discarded() == e.Discarded()
  {
    hide SeqAdd, SeqSub, ProcessSegment;
  }

  lemma OutputsNear(e: Endpoint, ev: Event)
    requires Inv(e) && Proper(e, ev)
    ensures forall b :: b in Outputs(e, ev) ==> OutputNear(Next(e, ev), b)
  {
    hide Perform;
    var e' := Next(e, ev);
    StepDoes(e, ev);
    forall b | b in Outputs(e, ev) ensures OutputNear(e', b) {
      match ev {
        case Deliver(seg, now) =>
          DeliverRepeats(e, seg, now);
          if b.payload != [] { RepeatsNear(e, e', b); }
        case Retransmit(now) =>
          RetransmitRepeats(e, now);
          RepeatsNear(e, e', b);
        case Send(_, _) => FirstNear(e, ev, b);
        case Probe => FirstNear(e, ev, b);
        case _ => QuietOutput(e, ev, b);
      }
    }
  }

  /** Opening and closing transmit no data. */
  lemma QuietOutput(e: Endpoint, ev: Event, b: Builder)
    requires b in Outputs(e, ev)
    requires ev.Write? || ev.Close? || ev.Open? || ev.Read? || ev.Tick?
    ensures b.payload == [] && (b.flags.syn ==> b.seqNum == e.conn.tcb.snd.iss)
  {}

  lemma OutputsHold(e: Endpoint, ev: Event)
    requires Inv(e) && Proper(e, ev)
    ensures forall b :: b in Outputs(e, ev) ==> OutputHolds(Next(e, ev), b)
  {
    hide Perform;
    OutputsNear(e, ev);
    forall b | b in Outputs(e, ev) ensures OutputHolds(Next(e, ev), b) {
      if b.payload != [] {
        var q: nat :| NearAt(Next(e, ev), b.seqNum, b.payload, q);
      }
    }
  }

  /** Every retransmission repeats history, in every run from a fresh connection: whatever data
      segment is transmitted - for the first time, by timer, by fast retransmit, or as a probe -
      carries exactly the bytes the application wrote at the one position near the ring that has
      the segment's number, although the ring has been overwritten and the sequence space may
      have wrapped any number of times. */
  lemma TransmissionsRepeatHistory(e0: Endpoint, evs: seq<Event>, ev: Event)
    requires Fresh(e0) && Obeys(e0, evs, Proper) && Proper(Exec(e0, evs), ev)
    ensures var e, e' := Exec(e0, evs), Next(Exec(e0, evs), ev);
            forall b :: b in Outputs(e, ev) ==>
              && OutputNear(e', b)
              && (forall q: nat, q': nat ::
                    NearAt(e', b.seqNum, b.payload, q) && NearAt(e', b.seqNum, b.payload, q')
                    ==> q == q')
  {
    hide Perform;
    FreshInv(e0);
    RunKeeps(e0, evs);
    var e, e' := Exec(e0, evs), Next(Exec(e0, evs), ev);
    OutputsNear(e, ev);
    StepKeeps(e, ev);
    forall b, q: nat, q': nat | b in Outputs(e, ev) && NearAt(e', b.seqNum, b.payload, q)
                                && NearAt(e', b.seqNum, b.payload, q')
      ensures q == q'
    {
      NearUnique(e', b.seqNum, b.payload, q, q');
    }
  }
}
