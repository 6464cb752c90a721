/** The retransmission queue tiles the bytes in flight, as long as the handshake leaves it tiled, no
    probe is sent and no send meets a full queue - and exactly that long.  What is sent past the
    queue is never sent again. */
module Tiling {
  import opened SeqArith
  import opened TcpHeaders
  import opened Tcbs
  import opened RetransmitQueues
  import opened ConnectionSpec
  import opened Endpoints
  import opened SendSide
  import opened Agreement
  import opened Reassembly
  import Lifecycle
  import Ring

  /** Entries cover the positions from `p` to `n` without gap or overlap. */
  ghost predicate TilesAt(entries: seq<Entry>, base: u32, p: int, n: int) {
    if entries == [] then p == n
    else
      && entries[0].seqNum == SeqAdd(base, p)
      && 0 < |entries[0].data| <= Ring.CAPACITY
      && TilesAt(entries[1..], base, p + |entries[0].data|, n)
  }

  function Span(entries: seq<Entry>): nat {
    if entries == [] then 0 else |entries[0].data| + Span(entries[1..])
  }

  /** The position at which the queue starts. */
  function First(e: Endpoint): int { e.nxt - Span(e.conn.rtx.entries) }

  /** The queue ends at `snd.nxt`, and `snd.una` lies in its first entry. */
  ghost predicate Tiled(e: Endpoint) {
    var q := e.conn.rtx.entries;
    && TilesAt(q, e.Base(), First(e), e.nxt)
    && First(e) <= e.una
    && (q != [] ==> e.una < First(e) + |q[0].data|)
  }

  lemma {:induction false} TilesSpan(entries: seq<Entry>, base: u32, p: int, n: int)
    requires TilesAt(entries, base, p, n)
    ensures n == p + Span(entries)
  {
    if entries != [] { TilesSpan(entries[1..], base, p + |entries[0].data|, n); }
  }

  lemma {:induction false} TilesAppend(entries: seq<Entry>, base: u32, p: int, n: int, x: Entry)
    requires TilesAt(entries, base, p, n)
    requires x.seqNum == SeqAdd(base, n) && 0 < |x.data| <= Ring.CAPACITY
    ensures TilesAt(entries + [x], base, p, n + |x.data|)
  {
    if entries == [] {
      assert (entries + [x])[1..] == [];
    } else {
      assert (entries + [x])[1..] == entries[1..] + [x];
      TilesAppend(entries[1..], base, p + |entries[0].data|, n, x);
    }
  }

  lemma {:induction false} KeepAll(entries: seq<Entry>, base: u32, p: int, n: int, k: int)
    requires TilesAt(entries, base, p, n) && k <= p && n - k < 0x8000_0000
    ensures Keep(entries, SeqAdd(base, k)) == entries
  {
    if entries != [] {
      var q := p + |entries[0].data|;
      TilesSpan(entries, base, p, n);
      SeqAddAdd(base, p, |entries[0].data|);
      SeqLtOrdersPositions(base, q, k);
      KeepAll(entries[1..], base, q, n, k);
    }
  }

  /** An acknowledgement inside the tiled range drops exactly the entries that end by it. */
  lemma {:induction false} KeepTiles(entries: seq<Entry>, base: u32, p: int, n: int, k: int)
    requires TilesAt(entries, base, p, n) && p <= k <= n && n - p < 0x8000_0000
    ensures var kept := Keep(entries, SeqAdd(base, k));
            && TilesAt(kept, base, n - Span(kept), n) && n - Span(kept) <= k
            && (kept != [] ==> k < n - Span(kept) + |kept[0].data|)
  {
    hide SeqAdd, SeqSub;
    TilesSpan(entries, base, p, n);
    if entries != [] {
      var q := p + |entries[0].data|;
      SeqAddAdd(base, p, |entries[0].data|);
      SeqLtOrdersPositions(base, q, k);
      if q <= k {
        KeepTiles(entries[1..], base, q, n, k);
        assert Keep(entries, SeqAdd(base, k)) == Keep(entries[1..], SeqAdd(base, k));
      } else {
        KeepAll(entries[1..], base, q, n, k);
        assert Keep(entries, SeqAdd(base, k)) == entries;
      }
    }
  }

  lemma {:induction false} RefreshTiles(entries: seq<Entry>, now: real, rto: real,
                                        base: u32, p: int, n: int)
    requires TilesAt(entries, base, p, n)
    ensures TilesAt(Refresh(entries, now, rto), base, p, n)
    ensures Span(Refresh(entries, now, rto)) == Span(entries)
  {
    if entries != [] {
      RefreshTiles(entries[1..], now, rto, base, p + |entries[0].data|, n);
      assert Refresh(entries, now, rto)[1..] == Refresh(entries[1..], now, rto);
    }
  }

  /** What tiling means in machine words. */
  lemma TilingInWords(e: Endpoint)
    requires Inv(e) && Transferring(e.conn) && Tiled(e)
    ensures var q, snd := e.conn.rtx.entries, e.conn.tcb.snd;
            && (q == [] <==> snd.una == snd.nxt)
            && (forall i :: 0 <= i < |q| - 1 ==> q[i].EndSeq() == q[i + 1].seqNum)
            && (q != [] ==> q[|q| - 1].EndSeq() == snd.nxt
                            && SeqSub(snd.una, q[0].seqNum) < |q[0].data|)
  {
    hide SeqAdd, SeqSub;
    var q := e.conn.rtx.entries;
    SpanSmall(e);
    PositionsInjective(e.Base(), e.una, e.nxt);
    Chain(q, e.Base(), First(e), e.nxt);
    TilesSpan(q, e.Base(), First(e), e.nxt);
    if q != [] { SeqSubPositions(e.Base(), First(e), e.una); }
  }

  lemma {:induction false} Chain(q: seq<Entry>, base: u32, p: int, n: int)
    requires TilesAt(q, base, p, n)
    ensures forall i :: 0 <= i < |q| - 1 ==> q[i].EndSeq() == q[i + 1].seqNum
    ensures q != [] ==> q[|q| - 1].EndSeq() == SeqAdd(base, n)
  {
    if q != [] {
      var r := q[1..];
      SeqAddAdd(base, p, |q[0].data|);
      Chain(r, base, p + |q[0].data|, n);
      forall i | 0 <= i < |q| - 1 ensures q[i].EndSeq() == q[i + 1].seqNum {
        if i > 0 { assert r[i - 1].EndSeq() == r[i - 1 + 1].seqNum; }
      }
    }
  }

  /** The entries follow one another, and the last ends at `end`. */
  predicate EndsAt(q: seq<Entry>, end: u32) {
    q == [] || (q[0].EndSeq() == (if |q| == 1 then end else q[1].seqNum) && EndsAt(q[1..], end))
  }

  /** The segment that completes the handshake finds queue and flight both empty, or a queue that runs
      up to `snd.nxt`, and acknowledges inside its first entry - the handler does not tell the
      queue. */
  predicate CompletesTiled(c: Conn, seg: TcpSegment) {
    var q := c.rtx.entries;
    if q == [] then seg.header.ackNum == c.tcb.snd.nxt
    else EndsAt(q, c.tcb.snd.nxt) && SeqSub(seg.header.ackNum, q[0].seqNum) < |q[0].data|
  }

  /** The handshake leaves the queue tiled, no probe goes out, and no segment is sent that the queue
      has no room for. */
  predicate Queued(e: Endpoint, ev: Event) {
    && Proper(e, ev)
    && (ev.Deliver? && Completes(e.conn, ev.seg) ==> CompletesTiled(e.conn, ev.seg))
    && (ev.Probe? ==> !Probes(e.conn))
    && (ev.Send? && Transferring(e.conn) && Sends(e.conn, ev.maxPayload) ==>
          |e.conn.rtx.entries| < RETRANSMIT_QUEUE_MAX)
  }

  /** What is sent before the handshake is queued, or finds the queue full. */
  ghost predicate Early(e: Endpoint) {
    Opening(e.conn) && e.conn.rtx.entries == [] ==> e.sent == 0
  }

  ghost predicate TilingHolds(e: Endpoint) {
    && Inv(e) && (Lifecycle.BeforeFin(e.conn) ==> Shape(e) && Early(e))
    && (Transferring(e.conn) ==> Tiled(e) && e.nxt == e.sent)
  }

  /** The range the queue covers is far below the comparison horizon. */
  lemma SpanSmall(e: Endpoint)
    requires Inv(e) && Transferring(e.conn) && Tiled(e)
    ensures 0 <= e.nxt - First(e) <= 2 * Ring.CAPACITY
  {
    TilesSpan(e.conn.rtx.entries, e.Base(), First(e), e.nxt);
  }

  lemma AckTiles(e: Endpoint, seg: TcpSegment, now: real)
    requires TilingHolds(e) && e.conn.tcb.state == Established
    requires IsNewAck(e.conn, seg) && !seg.header.flags.rst
    ensures Tiled(Moved(e, HandleEstablished(e.conn, seg, now).conn))
  {
    hide SeqAdd, SeqSub, HandleEstablished, QueueStep;
    var e' := Moved(e, HandleEstablished(e.conn, seg, now).conn);
    EstablishedSendSide(e.conn, seg, now);
    WordsKept(e, e'.conn);
    var k := AckCarried(e, seg, now, e');
    SpanSmall(e);
    KeepTiles(e.conn.rtx.entries, e.Base(), First(e), e.nxt, k);
  }

  /** A segment that is no new acknowledgement leaves queue and positions alone. */
  lemma EstablishedUntouched(e: Endpoint, seg: TcpSegment, now: real)
    requires TilingHolds(e) && e.conn.tcb.state == Established
    requires !IsNewAck(e.conn, seg) && !seg.header.flags.rst
    ensures Tiled(Moved(e, HandleEstablished(e.conn, seg, now).conn))
  {
    hide SeqAdd, SeqSub, HandleEstablished;
    EstablishedSendSide(e.conn, seg, now);
  }

  lemma DeliverTiles(e: Endpoint, seg: TcpSegment, now: real)
    requires TilingHolds(e) && e.conn.tcb.state == Established
    ensures var e' := Next(e, Deliver(seg, now)); Transferring(e'.conn) ==> Tiled(e')
  {
    hide SeqAdd, SeqSub, HandleEstablished, Tiled;
    var e' := Moved(e, HandleEstablished(e.conn, seg, now).conn);
    assert Next(e, Deliver(seg, now)) == e';
    if seg.header.flags.rst {
      ResetCloses(e.conn, seg, now);
    } else if IsNewAck(e.conn, seg) {
      AckTiles(e, seg, now);
    } else {
      EstablishedUntouched(e, seg, now);
    }
  }

  lemma ResetCloses(c: Conn, seg: TcpSegment, now: real)
    requires seg.header.flags.rst
    ensures HandleEstablished(c, seg, now).conn.tcb.state == Closed
  {}

  lemma SendTiles(e: Endpoint, ev: Event)
    requires TilingHolds(e) && ev.Send? && Queued(e, ev) && Transferring(e.conn)
    ensures Tiled(Next(e, ev))
  {
    hide SeqAdd, SeqSub, ProcessSegment, NearAt, PieceNear, QueueHolds, WordsHold, Shape, Early;
    TransmitsIff(e, ev);
    if Outputs(e, ev) != [] {
      var b := Outputs(e, ev)[0];
      FirstTransmission(e, ev, b);
      SendShape(e, ev);
      var q, e' := e.conn.rtx.entries, Next(e, ev);
      var x := Entry(b.seqNum, b.payload, ev.now, false);
      assert e'.conn.rtx.entries == q + [x];
      TilesAppend(q, e.Base(), First(e), e.nxt, x);
      TilesSpan(q + [x], e.Base(), First(e), e'.nxt);
    }
  }

  lemma RetransmitTiles(e: Endpoint, now: real)
    requires TilingHolds(e) && Transferring(e.conn)
    ensures Tiled(Next(e, Retransmit(now)))
  {
    hide SeqAdd, SeqSub, ProcessSegment, PhaseHolds, QueueHolds, Shape, Early;
    var e' := Next(e, Retransmit(now));
    RefreshTiles(e.conn.rtx.entries, now, e.conn.rtx.rto, e.Base(), First(e), e.nxt);
    RefreshKeeps(e.conn.rtx.entries, now, e.conn.rtx.rto);
    assert e'.conn.rtx.entries == Refresh(e.conn.rtx.entries, now, e.conn.rtx.rto);
    assert e'.nxt == e.nxt && e'.una == e.una;
  }

  lemma OthersTile(e: Endpoint, ev: Event)
    requires TilingHolds(e) && Queued(e, ev) && Transferring(e.conn)
    requires ev.Write? || ev.Probe? || ev.Close? || ev.Open? || ev.Read? || ev.Tick?
    ensures var e' := Next(e, ev); Transferring(e'.conn) ==> Tiled(e')
  {
    hide SeqAdd, SeqSub, ProcessSegment;
    TransmitsIff(e, ev);
  }

  /** Pieces of the first ring length of a stream that follow one another up to position `n` are a
      tiling. */
  lemma {:induction false} EndsAtTiles(q: seq<Entry>, base: u32, stream: seq<u8>, n: int)
    requires forall x :: x in q ==> x.data != [] && IsSlice(base, stream, x.seqNum, x.data)
    requires 0 <= n <= |stream| <= Ring.CAPACITY && EndsAt(q, SeqAdd(base, n))
    ensures 0 <= n - Span(q) && TilesAt(q, base, n - Span(q), n)
  {
    hide SeqAdd, SeqSub;
    if q != [] {
      EndsAtTiles(q[1..], base, stream, n);
      var x, end := q[0], n - Span(q[1..]);
      var p: nat :| SliceAt(base, stream, x.seqNum, x.data, p);
      SeqAddAdd(base, p, |x.data|);
      assert x.EndSeq() == SeqAdd(base, end);
      PositionsInjective(base, p + |x.data|, end);
    }
  }

  lemma {:induction false} TilesEndAt(q: seq<Entry>, base: u32, p: int, n: int)
    requires TilesAt(q, base, p, n)
    ensures EndsAt(q, SeqAdd(base, n))
  {
    hide SeqAdd, SeqSub;
    if q != [] {
      SeqAddAdd(base, p, |q[0].data|);
      TilesEndAt(q[1..], base, p + |q[0].data|, n);
    }
  }

  /** What completing the handshake does to queue and positions. */
  lemma EntryDoes(e: Endpoint, seg: TcpSegment, now: real) returns (k: int)
    requires Inv(e) && Completes(e.conn, seg)
    ensures var e' := Next(e, Deliver(seg, now));
            && e'.conn.tcb.state == Established && e'.conn.rtx == e.conn.rtx
            && e'.nxt == e.nxt && e'.sent == e.sent && e'.una == k && e'.Base() == e.Base()
    ensures 0 <= k <= e.nxt && seg.header.ackNum == SeqAdd(e.Base(), k)
  {
    hide SeqAdd, SeqSub, HandleEstablished, QueueHolds;
    k := AckMoves(e, seg.header.ackNum);
    assert Next(e, Deliver(seg, now)) == Moved(e, ProcessSegment(e.conn, seg, now).conn);
  }

  lemma OpeningQueue(e: Endpoint)
    requires Inv(e) && Opening(e.conn)
    ensures forall x :: x in e.conn.rtx.entries ==>
              x.data != [] && IsSlice(e.Base(), SentPart(e), x.seqNum, x.data)
    ensures e.sent == |SentPart(e)| <= Ring.CAPACITY && e.nxt <= e.sent
    ensures e.conn.tcb.snd.nxt == SeqAdd(e.Base(), e.nxt)
  {
    forall x | x in e.conn.rtx.entries
      ensures x.data != [] && IsSlice(e.Base(), SentPart(e), x.seqNum, x.data)
    {
      var q: nat :| NearAt(e, x.seqNum, x.data, q);
    }
  }

  /** The queue tiles the flight on entering ESTABLISHED exactly if `CompletesTiled` held before. */
  lemma EntryTiledIff(e: Endpoint, seg: TcpSegment, now: real)
    requires Inv(e) && Completes(e.conn, seg)
    ensures Tiled(Next(e, Deliver(seg, now))) <==> CompletesTiled(e.conn, seg)
    ensures CompletesTiled(e.conn, seg) && e.conn.rtx.entries != [] ==> e.nxt > 0
  {
    hide SeqAdd, SeqSub, Next, PhaseHolds, QueueHolds, Completes, EndsAt, TilesAt;
    CompletesOpening(e.conn, seg);
    OpeningQueue(e);
    var k := EntryDoes(e, seg, now);
    var q, base, e' := e.conn.rtx.entries, e.Base(), Next(e, Deliver(seg, now));
    TilesNothing(base, e.nxt);
    if q == [] {
      PositionsInjective(base, k, e.nxt);
    } else {
      if Tiled(e') {
        TilesEndAt(q, base, First(e'), e.nxt);
        TilesHead(q, base, First(e'), e.nxt);
        SeqSubPositions(base, First(e'), k);
        SmallMod(k - First(e'));
      }
      if CompletesTiled(e.conn, seg) {
        EndsAtTiles(q, base, SentPart(e), e.nxt);
        TilesHead(q, base, First(e'), e.nxt);
        SeqSubPositions(base, First(e'), k);
        if k < First(e') { SmallMod(k - First(e') + 0x1_0000_0000); } else { SmallMod(k - First(e')); }
      }
    }
  }

  lemma CompletesOpening(c: Conn, seg: TcpSegment)
    requires Completes(c, seg)
    ensures Opening(c)
  {}

  lemma TilesNothing(base: u32, n: int)
    ensures TilesAt([], base, n, n)
  {}

  lemma TilesHead(q: seq<Entry>, base: u32, p: int, n: int)
    requires q != [] && TilesAt(q, base, p, n)
    ensures q[0].seqNum == SeqAdd(base, p) && 0 < |q[0].data| <= Ring.CAPACITY
    ensures |q[0].data| <= Span(q)
  {}

  lemma SmallMod(n: int)
    requires 0 <= n < 0x1_0000_0000
    ensures n % 0x1_0000_0000 == n && (n - 0x1_0000_0000) % 0x1_0000_0000 == n
  {}

  /** Sending only after the handshake is enough. */
  lemma OrderlyCompletesTiled(e: Endpoint, seg: TcpSegment)
    requires Inv(e) && Quiet(e) && Completes(e.conn, seg)
    ensures CompletesTiled(e.conn, seg)
  {
    hide SeqAdd, SeqSub;
    var k := AckMoves(e, seg.header.ackNum);
  }

  lemma EarlyStep(e: Endpoint, ev: Event)
    requires Inv(e) && Early(e) && Proper(e, ev)
    ensures Early(Next(e, ev))
  {
    hide SeqAdd, SeqSub, ProcessSegment, Shape;
    var e' := Next(e, ev);
    if Opening(e'.conn) {
      OpeningBefore(e, ev);
      match ev
      case Deliver(seg, now) => OpeningDelivery(e.conn, seg, now);
      case Retransmit(now) => RefreshKeeps(e.conn.rtx.entries, now, e.conn.rtx.rto);
      case Send(_, _) => TransmitsIff(e, ev);
      case Probe => TransmitsIff(e, ev);
      case _ =>
    }
  }

  lemma OpeningDelivery(c: Conn, seg: TcpSegment, now: real)
    requires Opening(c)
    ensures ProcessSegment(c, seg, now).conn.rtx == c.rtx
  {
    hide SeqAdd, SeqSub, AckAcceptable, HandleEstablished;
  }

  lemma ClosesOnly(e: Endpoint, ev: Event)
    requires Inv(e) && Proper(e, ev) && Lifecycle.BeforeFin(Next(e, ev).conn)
    ensures Lifecycle.BeforeFin(e.conn) && !Lifecycle.FinOut(e.conn)
    ensures !(ev.Close? && Transferring(e.conn))
  {
    hide Next, QueueHolds, RingHolds, WordsHold;
    Lifecycle.FinStep(e, ev);
  }

  /** While data flows, everything but an unqueued send keeps the tiling. */
  lemma TransferTiles(e: Endpoint, ev: Event)
    requires TilingHolds(e) && Queued(e, ev) && Transferring(e.conn)
    ensures var e' := Next(e, ev);
            Transferring(e'.conn) ==> Tiled(e') && e'.nxt == e'.sent
  {
    hide Next, Perform, Tiled, PhaseHolds, QueueHolds, Shape, Early;
    match ev {
      case Deliver(seg, now) =>
        if e.conn.tcb.state == Established { DeliverTiles(e, seg, now); }
        else { CloseWaitTiles(e, seg, now); }
        NothingSentBy(e, ev);
      case Send(_, _) => SendTiles(e, ev); NxtFollows(e, ev);
      case Retransmit(now) => RetransmitTiles(e, now); NothingSentBy(e, ev);
      case _ => OthersTile(e, ev); NothingSentBy(e, ev);
    }
  }

  lemma NxtFollows(e: Endpoint, ev: Event)
    requires TilingHolds(e) && Transferring(e.conn) && ev.Send?
    ensures Next(e, ev).nxt == Next(e, ev).sent
  {
    hide SeqAdd, SeqSub, ProcessSegment, QueueHolds;
    TransmitsIff(e, ev);
    SendShape(e, ev);
  }

  lemma NothingSentBy(e: Endpoint, ev: Event)
    requires Inv(e) && Transferring(e.conn) && !ev.Send? && (ev.Probe? ==> !Probes(e.conn))
    ensures var e' := Next(e, ev);
            e'.sent == e.sent && (Transferring(e'.conn) ==> e'.nxt == e.nxt)
  {
    hide SeqAdd, SeqSub, HandleEstablished, QueueHolds;
    TransmitsIff(e, ev);
    if ev.Deliver? && e.conn.tcb.state == Established {
      EstablishedSendSide(e.conn, ev.seg, ev.now);
    }
  }

  /** One step, exactly. */
  lemma StepTiledIff(e: Endpoint, ev: Event)
    requires TilingHolds(e) && Proper(e, ev)
    ensures Queued(e, ev) <==> (Transferring(Next(e, ev).conn) ==> Tiled(Next(e, ev)))
    ensures Queued(e, ev) ==> TilingHolds(Next(e, ev))
  {
    hide Next, Perform, Tiled, QueueHolds, RingHolds, WordsHold, PhaseHolds, Shape, Early;
    hide Completes, CompletesTiled, Probes, Sends;
    StepKeeps(e, ev);
    var e' := Next(e, ev);
    if Lifecycle.BeforeFin(e'.conn) {
      ClosesOnly(e, ev);
      ShapeStep(e, ev);
      EarlyStep(e, ev);
    }
    if Transferring(e.conn) {
      TransferringCompletesNothing(e.conn);
      if ev.Probe? || ev.Send? { TilingLostIff(e, ev); SendingKeepsState(e, ev); }
      if Queued(e, ev) { TransferTiles(e, ev); }
    } else {
      NoProbe(e.conn);
      if ev.Deliver? && Completes(e.conn, ev.seg) {
        EntryTiles(e, ev);
      } else if Transferring(e'.conn) {
        EntersOnlyByCompleting(e, ev);
      }
    }
  }

  lemma NoProbe(c: Conn)
    requires !Transferring(c)
    ensures !Probes(c)
  {}

  lemma EntryTiles(e: Endpoint, ev: Event)
    requires TilingHolds(e) && Proper(e, ev) && ev.Deliver? && Completes(e.conn, ev.seg)
    ensures var e' := Next(e, ev);
            && Transferring(e'.conn) && (Tiled(e') <==> CompletesTiled(e.conn, ev.seg))
            && (CompletesTiled(e.conn, ev.seg) ==> e'.nxt == e'.sent)
  {
    hide Next, Perform, Tiled, QueueHolds, RingHolds, WordsHold, PhaseHolds;
    CompletesOpening(e.conn, ev.seg);
    EntryTiledIff(e, ev.seg, ev.now);
    var k := EntryDoes(e, ev.seg, ev.now);
  }

  /** One step that keeps it. */
  lemma StepTiles(e: Endpoint, ev: Event)
    requires TilingHolds(e) && Queued(e, ev)
    ensures TilingHolds(Next(e, ev))
  {
    hide Next, TilingHolds, Tiled;
    StepTiledIff(e, ev);
  }

  lemma CloseWaitTiles(e: Endpoint, seg: TcpSegment, now: real)
    requires TilingHolds(e) && e.conn.tcb.state == CloseWait
    ensures var e' := Next(e, Deliver(seg, now)); Transferring(e'.conn) ==> Tiled(e')
  {
    hide SeqAdd, SeqSub, HandleEstablished;
  }

  /** The queue tiles the flight in every state of the run in which data flows. */
  ghost predicate AlwaysTiled(e: Endpoint, evs: seq<Event>)
    decreases |evs|
  {
    && (Transferring(e.conn) ==> Tiled(e))
    && (evs == [] || AlwaysTiled(Next(e, evs[0]), evs[1..]))
  }

  lemma {:induction false} RunTilesIff(e: Endpoint, evs: seq<Event>)
    requires TilingHolds(e) && Obeys(e, evs, Proper)
    ensures AlwaysTiled(e, evs) <==> Obeys(e, evs, Queued)
    ensures Obeys(e, evs, Queued) ==> TilingHolds(Exec(e, evs))
    decreases |evs|
  {
    hide Next, Perform, Tiled, PhaseHolds, QueueHolds, Queued, Shape, Early;
    if evs != [] {
      StepTiledIff(e, evs[0]);
      if Queued(e, evs[0]) { RunTilesIff(Next(e, evs[0]), evs[1..]); }
    }
  }

  lemma FreshTiles(e: Endpoint)
    requires Fresh(e)
    ensures TilingHolds(e)
  {
    FreshInv(e);
  }

  /** Over any run from a fresh connection the queue tiles the bytes in flight, in every state from
      ESTABLISHED through CLOSE_WAIT, if and only if every event obeyed `Queued`. */
  lemma QueueTilesFlightIff(e0: Endpoint, evs: seq<Event>)
    requires Fresh(e0) && Obeys(e0, evs, Proper)
    ensures AlwaysTiled(e0, evs) <==> Obeys(e0, evs, Queued)
  {
    FreshTiles(e0);
    RunTilesIff(e0, evs);
  }

  /** And then, in words: the entries are contiguous, the first contains `snd.una`, the last ends at
      `snd.nxt`, and the queue is empty iff nothing is in flight. */
  lemma QueueTilesFlight(e0: Endpoint, evs: seq<Event>)
    requires Fresh(e0) && Obeys(e0, evs, Proper) && Obeys(e0, evs, Queued)
    requires Transferring(Exec(e0, evs).conn)
    ensures var q, snd := Exec(e0, evs).conn.rtx.entries, Exec(e0, evs).conn.tcb.snd;
            && (q == [] <==> snd.una == snd.nxt)
            && (forall i :: 0 <= i < |q| - 1 ==> q[i].EndSeq() == q[i + 1].seqNum)
            && (q != [] ==> q[|q| - 1].EndSeq() == snd.nxt
                            && SeqSub(snd.una, q[0].seqNum) < |q[0].data|)
  {
    hide Next, Perform, PhaseHolds, QueueHolds, Queued, Shape, Early;
    FreshTiles(e0);
    RunTilesIff(e0, evs);
    TilingInWords(Exec(e0, evs));
  }

  /** A probe, or a segment that finds the queue full, ends the tiling. */
  lemma TilingLostIff(e: Endpoint, ev: Event)
    requires TilingHolds(e) && Transferring(e.conn) && (ev.Probe? || ev.Send?)
    ensures Tiled(Next(e, ev)) <==> Queued(e, ev)
  {
    hide Next, Tiled, NearAt, PieceNear, QueueHolds, WordsHold, Shape, Early, CompletesTiled;
    SendingKeepsState(e, ev);
    if Queued(e, ev) {
      if ev.Send? { SendTiles(e, ev); } else { OthersTile(e, ev); }
    } else {
      TransmitsIff(e, ev);
      var b := Outputs(e, ev)[0];
      FirstTransmission(e, ev, b);
      SendFollows(e, ev);
      PastTheQueue(e, ev);
      UnqueuedGap(e, Next(e, ev));
    }
  }

  lemma SendFollows(e: Endpoint, ev: Event)
    requires TilingHolds(e) && Transferring(e.conn) && (ev.Send? || ev.Probe?)
    requires Outputs(e, ev) != []
    ensures Next(e, ev).nxt == Next(e, ev).sent
  {
    hide SeqAdd, SeqSub, ProcessSegment, QueueHolds;
    FirstTransmission(e, ev, Outputs(e, ev)[0]);
    SendShape(e, ev);
  }

  lemma SendingKeepsState(e: Endpoint, ev: Event)
    requires (ev.Probe? || ev.Send?)
    ensures var e' := Next(e, ev);
            e'.conn.tcb.state == e.conn.tcb.state && e'.una == e.una && e'.Base() == e.Base()
  {
    hide SeqAdd, SeqSub, ProcessSegment;
  }

  /** Bytes go out that are not queued. */
  predicate SendsUnqueued(e: Endpoint, ev: Event) {
    || (ev.Probe? && Probes(e.conn))
    || (ev.Send? && Sends(e.conn, ev.maxPayload) && |e.conn.rtx.entries| >= RETRANSMIT_QUEUE_MAX)
  }

  lemma PastTheQueue(e: Endpoint, ev: Event)
    requires SendsUnqueued(e, ev)
    ensures Next(e, ev).conn.rtx.entries == e.conn.rtx.entries && Outputs(e, ev) != []
  {
    hide SeqAdd, SeqSub, ProcessSegment;
  }

  lemma UnqueuedGap(e: Endpoint, e': Endpoint)
    requires Inv(e) && TilingHolds(e) && Transferring(e.conn) && e.Base() == e'.Base()
    requires e'.conn.rtx.entries == e.conn.rtx.entries && e'.una == e.una
    requires e.nxt < e'.nxt <= e.nxt + Ring.CAPACITY
    ensures !Tiled(e')
  {
    PositionsInjective(e.Base(), First(e), First(e'));
  }

  /** The third duplicate acknowledgement resends a segment that contains `snd.una`; no other
      acknowledgement resends anything. */
  lemma ThirdDuplicateResends(e: Endpoint, seg: TcpSegment, now: real)
    requires TilingHolds(e) && e.conn.tcb.state == Established && IsDuplicateAck(e.conn, seg)
    ensures var r := AckEstablished(e.conn, seg, now);
            && (r.out.Some? <==> e.conn.tcb.dupAckCount == 2)
            && (r.out.Some? ==>
                  && PieceHolds(e, r.out.value.seqNum, r.out.value.payload)
                  && SeqSub(e.conn.tcb.snd.una, r.out.value.seqNum) < |r.out.value.payload|)
  {
    TilingInWords(e);
    if e.conn.rtx.entries != [] {
      var x := e.conn.rtx.entries[0];
      assert x in e.conn.rtx.entries;
      var q: nat :| NearAt(e, x.seqNum, x.data, q);
    }
  }

  /** Byte `p` of the stream was sent, and no entry of the queue covers it. */
  ghost predicate Missing(e: Endpoint, p: nat) {
    p < e.sent && forall x :: x in e.conn.rtx.entries ==> Elsewhere(e, x.seqNum, x.data, p)
  }

  ghost predicate Elsewhere(e: Endpoint, s: u32, d: seq<u8>, p: nat) {
    exists q: nat :: NearAt(e, s, d, q) && !(q <= p < q + |d|)
  }

  lemma SameBytes(e: Endpoint, e': Endpoint, x: Entry, x': Entry)
    requires SamePiece(e, e', x, x')
    ensures x.seqNum == x'.seqNum && x.data == x'.data
  {}

  lemma ElsewhereStays(e: Endpoint, e': Endpoint, x: Entry, x': Entry, p: nat)
    requires RingHolds(e) && RingHolds(e') && Grows(e, e')
    requires Opening(e.conn) ==> e'.Discarded() <= Ring.CAPACITY
    requires Elsewhere(e, x.seqNum, x.data, p) && SamePiece(e, e', x, x')
    ensures Elsewhere(e', x'.seqNum, x'.data, p)
  {
    hide SeqAdd, SeqSub, RingHolds, SamePiece, Grows, NearAt;
    var q: nat :| NearAt(e, x.seqNum, x.data, q) && !(q <= p < q + |x.data|);
    SameBytes(e, e', x, x');
    PieceStays(e, e', x, x', q);
  }

  lemma StepMissing(e: Endpoint, ev: Event, p: nat)
    requires Inv(e) && Proper(e, ev) && Missing(e, p)
    ensures Missing(Next(e, ev), p)
  {
    hide Next, Perform, PhaseHolds, WordsHold;
    StepDoes(e, ev);
    var e' := Next(e, ev);
    forall x' | x' in e'.conn.rtx.entries ensures Elsewhere(e', x'.seqNum, x'.data, p) {
      if EntryStays(e, e', x') {
        var x :| x in e.conn.rtx.entries && SamePiece(e, e', x, x');
        ElsewhereStays(e, e', x, x', p);
      } else {
        assert NearAt(e', x'.seqNum, x'.data, e.sent);
      }
    }
  }

  lemma {:induction false} RunMissing(e: Endpoint, evs: seq<Event>, p: nat)
    requires Inv(e) && Obeys(e, evs, Proper) && Missing(e, p)
    ensures Inv(Exec(e, evs)) && Missing(Exec(e, evs), p)
    decreases |evs|
  {
    hide Next, Perform, Missing, PhaseHolds, QueueHolds;
    if evs != [] {
      StepMissing(e, evs[0], p);
      StepKeeps(e, evs[0]);
      RunMissing(Next(e, evs[0]), evs[1..], p);
    }
  }

  /** What is repeated is not the missing byte. */
  lemma RepeatsElsewhere(e: Endpoint, ev: Event, b: Builder, p: nat)
    requires Inv(e) && Missing(e, p) && (ev.Retransmit? || ev.Deliver?)
    requires b in Outputs(e, ev) && b.payload != []
    ensures Elsewhere(Next(e, ev), b.seqNum, b.payload, p)
  {
    hide Perform;
    var e' := Next(e, ev);
    StepDoes(e, ev);
    if ev.Retransmit? { RetransmitRepeats(e, ev.now); } else { DeliverRepeats(e, ev.seg, ev.now); }
    var x :| x in e.conn.rtx.entries && b.seqNum == x.seqNum && b.payload == x.data;
    ElsewhereStays(e, e', x, x, p);
  }

  lemma UnqueuedMissing(e: Endpoint, ev: Event, p: nat)
    requires Inv(e) && SendsUnqueued(e, ev) && e.sent <= p < Next(e, ev).sent
    ensures Missing(Next(e, ev), p)
  {
    hide Next, Perform, PhaseHolds, WordsHold;
    StepDoes(e, ev);
    PastTheQueue(e, ev);
    SendingKeepsRing(e, ev);
    var e' := Next(e, ev);
    forall x | x in e'.conn.rtx.entries ensures Elsewhere(e', x.seqNum, x.data, p) {
      var q: nat :| NearAt(e, x.seqNum, x.data, q);
      PieceStays(e, e', x, x, q);
    }
  }

  /** A byte that was sent as a probe or past a full queue is never sent again: in every run that
      follows, whatever the timer or fast retransmit resends is a piece of the stream without it. */
  lemma NeverRetransmitted(e0: Endpoint, evs: seq<Event>, ev: Event, p: nat,
                           later: seq<Event>, ev': Event, b: Builder)
    requires Fresh(e0) && Obeys(e0, evs, Proper) && SendsUnqueued(Exec(e0, evs), ev)
    requires Exec(e0, evs).sent <= p < Next(Exec(e0, evs), ev).sent
    requires Obeys(Next(Exec(e0, evs), ev), later, Proper)
    requires ev'.Retransmit? || ev'.Deliver?
    requires b in Outputs(Exec(Next(Exec(e0, evs), ev), later), ev') && b.payload != []
    ensures var e' := Next(Exec(Next(Exec(e0, evs), ev), later), ev');
            PieceNear(e', b.seqNum, b.payload)
            && forall q: nat :: NearAt(e', b.seqNum, b.payload, q) ==> !(q <= p < q + |b.payload|)
  {
    hide Next, Perform, PhaseHolds, WordsHold, QueueHolds, Missing;
    FreshInv(e0);
    RunKeeps(e0, evs);
    var e := Exec(e0, evs);
    StepKeeps(e, ev);
    UnqueuedMissing(e, ev, p);
    RunMissing(Next(e, ev), later, p);
    var e2 := Exec(Next(e, ev), later);
    RepeatsElsewhere(e2, ev', b, p);
    RepliesAreProper(e2, ev');
    StepKeeps(e2, ev');
    var e' := Next(e2, ev');
    var q0: nat :| NearAt(e', b.seqNum, b.payload, q0) && !(q0 <= p < q0 + |b.payload|);
    forall q: nat | NearAt(e', b.seqNum, b.payload, q) ensures !(q <= p < q + |b.payload|) {
      NearUnique(e', b.seqNum, b.payload, q, q0);
    }
  }

  lemma RepliesAreProper(e: Endpoint, ev: Event)
    requires ev.Retransmit? || ev.Deliver?
    ensures Proper(e, ev)
  {}
}
