/** Congestion window arithmetic over runs (sections 3.1 and 3.2 of RFC 5681). */
module Congestion {
  import opened SeqArith
  import opened TcpHeaders
  import opened Tcbs
  import opened RetransmitQueues
  import opened ConnectionSpec
  import opened Endpoints
  import opened Transitions
  import Overdue

  predicate WindowsHold(c: Conn) {
    c.tcb.cwnd >= MSS && c.tcb.ssthresh >= 2 * MSS
  }

  /** An acknowledgement of new data on an established connection: what the window grows by. */
  predicate Growing(c: Conn, ev: Event) {
    && ev.Deliver? && c.tcb.state == Established
    && !ev.seg.header.flags.rst && Acks(c, ev.seg)
  }

  /** An acknowledgement that names `snd.una` again while something is in flight. */
  predicate Repeating(c: Conn, ev: Event) {
    && ev.Deliver? && c.tcb.state == Established && !ev.seg.header.flags.rst
    && ev.seg.header.flags.ack && ev.seg.header.ackNum == c.tcb.snd.una != c.tcb.snd.nxt
  }

  /** The third or a later one in a row. */
  predicate Inflating(c: Conn, ev: Event) { Repeating(c, ev) && c.tcb.dupAckCount >= 2 }

  /** One acknowledgement of `n` new bytes: slow start adds them, up to one segment; above the
      threshold it is 1460 * 1460 / cwnd; 32 bits saturate. */
  function Grown(cwnd: Window, ssthresh: u32, n: u32): u32 {
    Min(cwnd + (if cwnd < ssthresh then Min(n, 1460) else 2131600 / cwnd), 0xFFFF_FFFF)
  }

  predicate Expiring(c: Conn, ev: Event) { ev.Retransmit? && c.rtx.Expired(ev.now) != [] }

  /** The congestion part of the control block after an acknowledgement on an established connection. */
  predicate WindowMoves(c: Conn, ev: Event, t': Tcb)
    requires ev.Deliver?
  {
    var t := c.tcb;
    && t'.cwnd == (if Growing(c, ev)
                   then Grown(t.cwnd, t.ssthresh, SeqSub(ev.seg.header.ackNum, t.snd.una))
                   else if Inflating(c, ev)
                   then (if t.dupAckCount == 2 then Max(t.cwnd / 2, 2920) + 4380
                         else Min(t.cwnd + 1460, 0xFFFF_FFFF))
                   else t.cwnd)
    && t'.ssthresh == (if Inflating(c, ev) && t.dupAckCount == 2 then Max(t.cwnd / 2, 2920)
                       else t.ssthresh)
    && t'.dupAckCount == (if Growing(c, ev) then 0
                          else if Repeating(c, ev) then Min(t.dupAckCount + 1, 255)
                          else t.dupAckCount)
  }

  lemma NotRepeating(c: Conn, ev: Event)
    ensures !(Growing(c, ev) && Repeating(c, ev))
    ensures Growing(c, ev) || Repeating(c, ev) ==> !Expiring(c, ev)
  {}

  lemma GrownAtLeast(cwnd: Window, ssthresh: u32, n: u32)
    ensures Grown(cwnd, ssthresh, n) >= cwnd
  {
    DivBounds(2131600, cwnd);
  }

  lemma GrowthIs(cwnd: Window, ssthresh: u32, n: u32)
    ensures GrownCwnd(cwnd, ssthresh, n) == Grown(cwnd, ssthresh, n)
  {}

  lemma AckPartWindow(c: Conn, seg: TcpSegment, now: real)
    requires c.tcb.state == Established && !seg.header.flags.rst
    ensures WindowMoves(c, Deliver(seg, now), AckEstablished(c, seg, now).conn.tcb)
  {
    hide SeqAdd, SeqSub, AckAcceptable, Acks, GrownCwnd, Grown;
    AcksIff(c, seg);
    NotRepeating(c, Deliver(seg, now));
    GrowthIs(c.tcb.cwnd, c.tcb.ssthresh, SeqSub(seg.header.ackNum, c.tcb.snd.una));
  }

  lemma DataKeepsWindow(c: Conn, seg: TcpSegment)
    ensures var t, t' := c.tcb, DataEstablished(c, seg).conn.tcb;
            t'.cwnd == t.cwnd && t'.ssthresh == t.ssthresh && t'.dupAckCount == t.dupAckCount
  {
    hide SeqAdd, SeqSub;
  }

  lemma EstablishedWindow(c: Conn, seg: TcpSegment, now: real)
    requires c.tcb.state == Established
    ensures WindowMoves(c, Deliver(seg, now), ProcessSegment(c, seg, now).conn.tcb)
  {
    hide SeqAdd, SeqSub, AckEstablished, DataEstablished, Acks, Grown;
    if !seg.header.flags.rst {
      AckPartWindow(c, seg, now);
      DataKeepsWindow(AckEstablished(c, seg, now).conn, seg);
    }
  }

  lemma OtherWindow(c: Conn, seg: TcpSegment, now: real)
    requires c.tcb.state != Established
    ensures var c' := ProcessSegment(c, seg, now).conn;
            c'.tcb.cwnd == c.tcb.cwnd && c'.tcb.ssthresh == c.tcb.ssthresh
            && c'.tcb.dupAckCount == c.tcb.dupAckCount
  {
    hide SeqAdd, SeqSub, AckAcceptable, HandleEstablished;
  }

  /** The congestion variables after any event: new acknowledgements grow the window, the third
      duplicate sets it to half of itself (two segments at least) plus three segments, later ones add
      one segment each, an expiry leaves one segment; everything else - sends, writes, reads, probes,
      first and second duplicates, data, control segments, ticks, timer examinations that find nothing
      - leaves them alone. */
  lemma WindowFrame(e: Endpoint, ev: Event)
    ensures var t, t' := e.conn.tcb, Next(e, ev).conn.tcb;
            && t'.cwnd == (if Growing(e.conn, ev)
                           then Grown(t.cwnd, t.ssthresh, SeqSub(ev.seg.header.ackNum, t.snd.una))
                           else if Inflating(e.conn, ev)
                           then (if t.dupAckCount == 2 then Max(t.cwnd / 2, 2920) + 4380
                                 else Min(t.cwnd + 1460, 0xFFFF_FFFF))
                           else if Expiring(e.conn, ev) then 1460 else t.cwnd)
            && t'.ssthresh == (if (Inflating(e.conn, ev) && t.dupAckCount == 2) || Expiring(e.conn, ev)
                               then Max(t.cwnd / 2, 2920) else t.ssthresh)
            && t'.dupAckCount == (if Growing(e.conn, ev) then 0
                                  else if Repeating(e.conn, ev) then Min(t.dupAckCount + 1, 255)
                                  else t.dupAckCount)
  {
    hide SeqAdd, SeqSub, ProcessSegment, Acks, Grown, RtxState.AfterExpiry, RtxState.Expired;
    if ev.Deliver? {
      if e.conn.tcb.state == Established {
        EstablishedWindow(e.conn, ev.seg, ev.now);
      } else {
        OtherWindow(e.conn, ev.seg, ev.now);
      }
    }
  }

  /** An expiry is an examination that finds an entry sent at least a timeout ago. */
  lemma ExpiringIff(c: Conn, ev: Event)
    requires c.rtx.rto > 0.0
    ensures Expiring(c, ev) <==>
              ev.Retransmit?
              && exists i :: 0 <= i < |c.rtx.entries| && ev.now - c.rtx.entries[i].sentAt >= c.rtx.rto
  {
    if ev.Retransmit? {
      var idx := Overdue.DuePicks(c.rtx.entries, ev.now, c.rtx.rto);
      if idx != [] { assert Overdue.Late(c.rtx.entries[idx[0]], ev.now, c.rtx.rto); }
      forall i | 0 <= i < |c.rtx.entries| && ev.now - c.rtx.entries[i].sentAt >= c.rtx.rto
        ensures idx != []
      {
        assert i in idx;
      }
    }
  }

  lemma GrownFrom(c: Conn, ev: Event)
    requires Growing(c, ev)
    ensures ev.Deliver?
    ensures var t := c.tcb;
            t.cwnd <= Grown(t.cwnd, t.ssthresh, SeqSub(ev.seg.header.ackNum, t.snd.una))
    ensures c.tcb.cwnd >= MSS && !InSlowStart(c) ==>
              var w, g := c.tcb.cwnd, 1460 * 1460 / c.tcb.cwnd;
              Grown(w, c.tcb.ssthresh, SeqSub(ev.seg.header.ackNum, c.tcb.snd.una)) == w + g
  {
    hide SeqSub, Acks;
    GrownAtLeast(c.tcb.cwnd, c.tcb.ssthresh, SeqSub(ev.seg.header.ackNum, c.tcb.snd.una));
    if c.tcb.cwnd >= MSS && !InSlowStart(c) { NoSaturation(c.tcb.cwnd); }
  }

  lemma NoSaturation(w: u32)
    requires w >= 1460
    ensures 0 <= 1460 * 1460 / w && w + 1460 * 1460 / w <= 0xFFFF_FFFF
  {
    DivBounds(1460 * 1460, w);
    if w > 1460 * 1460 { MulCancel(1460 * 1460 / w, 1, w); }
    else { MulMonotone(1460, w, 1460 * 1460 / w); }
  }

  lemma StepWindows(e: Endpoint, ev: Event)
    requires WindowsHold(e.conn)
    ensures WindowsHold(Next(e, ev).conn)
  {
    hide Next, SeqSub, Growing, Repeating, Expiring, Grown;
    WindowFrame(e, ev);
    if Growing(e.conn, ev) { GrownFrom(e.conn, ev); }
  }

  /** In every reachable state the window is at least one segment and the threshold at least two,
      so the divisor is never zero; no addition leaves 32 bits, by the types. */
  lemma {:induction false} RunWindows(e: Endpoint, evs: seq<Event>)
    requires WindowsHold(e.conn)
    ensures WindowsHold(Exec(e, evs).conn)
    decreases |evs|
  {
    hide Perform, WindowsHold;
    if evs != [] {
      StepWindows(e, evs[0]);
      RunWindows(Next(e, evs[0]), evs[1..]);
    }
  }

  lemma ReachableWindows(e0: Endpoint, evs: seq<Event>)
    requires Fresh(e0)
    ensures WindowsHold(Exec(e0, evs).conn)
  {
    RunWindows(e0, evs);
  }

  /** No expiry and no third duplicate. */
  predicate Calm(e: Endpoint, ev: Event) {
    !Inflating(e.conn, ev) && !Expiring(e.conn, ev)
  }

  predicate InSlowStart(c: Conn) { c.tcb.cwnd < c.tcb.ssthresh }

  /** And every acknowledgement finds the connection in slow start. */
  predicate CalmSlowStart(e: Endpoint, ev: Event) {
    Calm(e, ev) && (Growing(e.conn, ev) ==> InSlowStart(e.conn))
  }

  function NewAcks(e: Endpoint, evs: seq<Event>): nat
    decreases |evs|
  {
    if evs == [] then 0
    else (if Growing(e.conn, evs[0]) then 1 else 0) + NewAcks(Next(e, evs[0]), evs[1..])
  }

  function BytesAcked(e: Endpoint, evs: seq<Event>): nat
    decreases |evs|
  {
    if evs == [] then 0
    else
      (if Growing(e.conn, evs[0])
       then SeqSub(evs[0].seg.header.ackNum, e.conn.tcb.snd.una) else 0)
      + BytesAcked(Next(e, evs[0]), evs[1..])
  }

  /** Slow start, over any run: the window grows by no more than the bytes acknowledged, and ends
      less than one segment above the threshold. */
  lemma {:induction false} SlowStartBounded(e: Endpoint, evs: seq<Event>)
    requires Obeys(e, evs, CalmSlowStart)
    ensures var w, w' := e.conn.tcb.cwnd as int, Exec(e, evs).conn.tcb.cwnd as int;
            && w <= w' <= w + BytesAcked(e, evs)
            && (w' == w || w' < e.conn.tcb.ssthresh + MSS)
    decreases |evs|
  {
    hide SeqAdd, SeqSub, Next, Perform, Acks;
    if evs != [] {
      WindowFrame(e, evs[0]);
      SlowStartBounded(Next(e, evs[0]), evs[1..]);
    }
  }

  /** The bytes acknowledged, each acknowledgement counted for at most one segment. */
  function BytesCounted(e: Endpoint, evs: seq<Event>): nat
    decreases |evs|
  {
    if evs == [] then 0
    else
      (if Growing(e.conn, evs[0])
       then Min(SeqSub(evs[0].seg.header.ackNum, e.conn.tcb.snd.una), 1460) else 0)
      + BytesCounted(Next(e, evs[0]), evs[1..])
  }

  /** Slow start exactly, over any run: the window grows by what is counted, until 32 bits are full. */
  lemma {:induction false} SlowStartExact(e: Endpoint, evs: seq<Event>)
    requires Obeys(e, evs, CalmSlowStart)
    ensures Exec(e, evs).conn.tcb.cwnd == Min(e.conn.tcb.cwnd + BytesCounted(e, evs), 0xFFFF_FFFF)
    decreases |evs|
  {
    hide SeqAdd, SeqSub, Next, Perform, Acks;
    if evs != [] {
      WindowFrame(e, evs[0]);
      SlowStartExact(Next(e, evs[0]), evs[1..]);
    }
  }

  /** No acknowledgement covers more than one segment. */
  predicate SmallSteps(e: Endpoint, ev: Event) {
    Growing(e.conn, ev) ==> SeqSub(ev.seg.header.ackNum, e.conn.tcb.snd.una) <= 1460
  }

  /** Then every byte acknowledged is counted: in such a run slow start adds exactly those. */
  lemma {:induction false} SlowStartCountsBytes(e: Endpoint, evs: seq<Event>)
    requires Obeys(e, evs, SmallSteps)
    ensures BytesCounted(e, evs) == BytesAcked(e, evs)
    decreases |evs|
  {
    hide SeqSub, Next, Growing;
    if evs != [] { SlowStartCountsBytes(Next(e, evs[0]), evs[1..]); }
  }

  lemma MulMonotone(a: int, b: int, k: int)
    requires a <= b && 0 <= k
    ensures a * k <= b * k
  {}

  lemma MulCancel(a: int, b: int, k: int)
    requires 0 < k && a * k < b * k
    ensures a < b
  {}

  lemma DivBounds(n: int, w: int)
    requires 0 <= n && 0 < w
    ensures 0 <= n / w && n / w * w <= n < (n / w + 1) * w
  {
    assert n == n / w * w + n % w;
    assert (n / w + 1) * w == n / w * w + w;
  }

  lemma QuotientAntitone(n: int, w: int, w': int)
    requires 0 < w <= w' && 0 <= n
    ensures n / w' <= n / w
  {
    DivBounds(n, w);
    DivBounds(n, w');
    MulMonotone(w, w', n / w');
    MulCancel(n / w', n / w + 1, w);
  }

  lemma SquareOfSum(w: int, g: int)
    ensures (w + g) * (w + g) == w * w + 2 * (g * w) + g * g
  {}

  /** One acknowledgement in congestion avoidance, with the rounding of integer division. */
  lemma AvoidanceStep(w: int)
    requires w >= 1460
    ensures var g := 1460 * 1460 / w;
            0 <= g && g * w <= 1460 * 1460 && g <= 1460
            && (w + g) * (w + g) <= w * w + 3 * (1460 * 1460)
  {
    var g := 1460 * 1460 / w;
    DivBounds(1460 * 1460, w);
    MulMonotone(1460, w, g);
    MulMonotone(g, 1460, g);
    SquareOfSum(w, g);
  }

  lemma SquareMonotone(a: int, b: int)
    requires 0 <= a <= b
    ensures a * a <= b * b
  {
    MulMonotone(a, b, a);
    MulMonotone(a, b, b);
  }

  lemma GrowthOfWindow(w: int, g: int, k: int)
    requires 0 <= g && g * w <= 1460 * 1460 && k * 1460 <= w
    ensures k * g <= 1460
  {
    MulMonotone(k * 1460, w, g);
    assert k * 1460 * g == k * g * 1460;
  }

  /** Congestion avoidance, over any run: k acknowledgements give cwnd^2 <= cwnd0^2 + 3 k MSS^2, and
      each adds at most MSS * MSS / cwnd0, whatever is sent in between. */
  lemma {:induction false} AvoidanceBounded(e: Endpoint, evs: seq<Event>)
    requires e.conn.tcb.cwnd >= MSS && !InSlowStart(e.conn) && Obeys(e, evs, Calm)
    ensures var w, w', k := e.conn.tcb.cwnd as int, Exec(e, evs).conn.tcb.cwnd as int,
                            NewAcks(e, evs);
            && w <= w'
            && w' * w' <= w * w + 3 * k * (1460 * 1460)
            && w' <= w + k * (1460 * 1460 / w)
    decreases |evs|
  {
    hide SeqAdd, SeqSub, Next, Perform, Growing, Calm, Inflating, Repeating, Expiring, Grown;
    if evs != [] {
      WindowFrame(e, evs[0]);
      CalmIs(e, evs[0]);
      if Growing(e.conn, evs[0]) { GrownFrom(e.conn, evs[0]); }
      var e1 := Next(e, evs[0]);
      AvoidanceBounded(e1, evs[1..]);
      if Growing(e.conn, evs[0]) {
        var w: int, w1: int := e.conn.tcb.cwnd, e1.conn.tcb.cwnd;
        AvoidanceCompose(w, w1, Exec(e, evs).conn.tcb.cwnd, NewAcks(e1, evs[1..]));
      }
    }
  }

  lemma CalmIs(e: Endpoint, ev: Event)
    requires Calm(e, ev)
    ensures !Inflating(e.conn, ev) && !Expiring(e.conn, ev)
  {}

  lemma SquaresCompose(w: int, w1: int, w': int, k: nat)
    requires 1460 <= w <= w1 <= w + 1460 * 1460 / w
    requires w' * w' <= w1 * w1 + 3 * k * (1460 * 1460)
    ensures w' * w' <= w * w + 3 * (k + 1) * (1460 * 1460)
  {
    AvoidanceStep(w);
    SquareMonotone(w1, w + 1460 * 1460 / w);
  }

  lemma AddOnce(k: nat, g1: int, g: int)
    requires g1 <= g
    ensures k * g1 + g <= (k + 1) * g
    ensures k * g + g == (k + 1) * g
  {
    MulMonotone(g1, g, k);
  }

  /** One acknowledgement followed by `k` more. */
  lemma AvoidanceCompose(w: int, w1: int, w': int, k: nat)
    requires 1460 <= w <= w1 <= w + 1460 * 1460 / w
    requires w' * w' <= w1 * w1 + 3 * k * (1460 * 1460)
    requires w' <= w1 + k * (1460 * 1460 / w1)
    ensures w' * w' <= w * w + 3 * (k + 1) * (1460 * 1460)
    ensures w' <= w + (k + 1) * (1460 * 1460 / w)
  {
    SquaresCompose(w, w1, w', k);
    QuotientAntitone(1460 * 1460, w, w1);
    AddOnce(k, 1460 * 1460 / w1, 1460 * 1460 / w);
  }

  lemma SquaresBelow(w: int, w1: int, w': int, k: nat)
    requires 1460 <= w <= w1 <= w' && w1 == w + 1460 * 1460 / w
    requires w' * w' >= w1 * w1 + 2 * k * (1460 * 1460 - w')
    ensures w' * w' >= w * w + 2 * (k + 1) * (1460 * 1460 - w')
  {
    var g := 1460 * 1460 / w;
    DivBounds(1460 * 1460, w);
    SquareOfSum(w, g);
    MulMonotone(0, g, g);
    assert (g + 1) * w == g * w + w;
    assert 2 * (k + 1) * (1460 * 1460 - w') == 2 * k * (1460 * 1460 - w') + 2 * (1460 * 1460 - w');
  }

  lemma GrowthComposes(w: int, w1: int, w': int, k: nat)
    requires 1460 <= w <= w1 <= w' && w1 == w + 1460 * 1460 / w
    requires w' * w' >= w1 * w1 + 2 * k * (1460 * 1460 - w')
    requires w' >= w1 + k * (1460 * 1460 / w')
    ensures w' * w' >= w * w + 2 * (k + 1) * (1460 * 1460 - w')
    ensures w' >= w + (k + 1) * (1460 * 1460 / w')
  {
    SquaresBelow(w, w1, w', k);
    QuotientAntitone(1460 * 1460, w, w');
    AddOnce(k, 1460 * 1460 / w', 1460 * 1460 / w');
  }

  /** And it does grow: over any such run k acknowledgements give
      cwnd^2 >= cwnd0^2 + 2 k (MSS^2 - cwnd), and each adds at least MSS * MSS / cwnd. */
  lemma {:induction false} AvoidanceGrows(e: Endpoint, evs: seq<Event>)
    requires e.conn.tcb.cwnd >= MSS && !InSlowStart(e.conn) && Obeys(e, evs, Calm)
    ensures var w, w', k := e.conn.tcb.cwnd as int, Exec(e, evs).conn.tcb.cwnd as int,
                            NewAcks(e, evs);
            && 1460 <= w <= w'
            && w' * w' >= w * w + 2 * k * (1460 * 1460 - w')
            && w' >= w + k * (1460 * 1460 / w')
    decreases |evs|
  {
    hide SeqAdd, SeqSub, Next, Perform, Growing, Calm, Inflating, Repeating, Expiring, Grown;
    if evs != [] {
      WindowFrame(e, evs[0]);
      CalmIs(e, evs[0]);
      if Growing(e.conn, evs[0]) { GrownFrom(e.conn, evs[0]); }
      var e1 := Next(e, evs[0]);
      AvoidanceGrows(e1, evs[1..]);
      if Growing(e.conn, evs[0]) {
        var w: int, w1: int := e.conn.tcb.cwnd, e1.conn.tcb.cwnd;
        var w': int, k := Exec(e, evs).conn.tcb.cwnd, NewAcks(e1, evs[1..]);
        GrowthComposes(w, w1, w', k);
      }
    }
  }

  /** At most one segment of growth per floor(cwnd0 / MSS) acknowledgements, over any run. */
  lemma OneSegmentPerWindow(e: Endpoint, evs: seq<Event>)
    requires e.conn.tcb.cwnd >= MSS && !InSlowStart(e.conn) && Obeys(e, evs, Calm)
    requires NewAcks(e, evs) <= e.conn.tcb.cwnd / MSS
    ensures Exec(e, evs).conn.tcb.cwnd <= e.conn.tcb.cwnd + MSS
  {
    hide Exec, NewAcks, Obeys;
    AvoidanceBounded(e, evs);
    var w: int := e.conn.tcb.cwnd;
    AvoidanceStep(w);
    GrowthOfWindow(w, 1460 * 1460 / w, NewAcks(e, evs));
  }

  /** The rest of a recovery: no new acknowledgement and no expiry. */
  predicate Recovering(e: Endpoint, ev: Event) {
    !Growing(e.conn, ev) && !Expiring(e.conn, ev)
  }

  predicate Inflated(c: Conn) { c.tcb.dupAckCount >= 3 && c.tcb.cwnd >= c.tcb.ssthresh + 3 * MSS }

  lemma RecoveryStep(e: Endpoint, ev: Event)
    requires Inflated(e.conn) && Recovering(e, ev)
    ensures Inflated(Next(e, ev).conn)
    ensures Next(e, ev).conn.tcb.ssthresh == e.conn.tcb.ssthresh
  {
    hide Next, SeqSub, Growing, Repeating, Expiring;
    WindowFrame(e, ev);
  }

  lemma {:induction false} RunRecovers(e: Endpoint, evs: seq<Event>)
    requires Inflated(e.conn) && Obeys(e, evs, Recovering)
    ensures Inflated(Exec(e, evs).conn)
    ensures Exec(e, evs).conn.tcb.ssthresh == e.conn.tcb.ssthresh
    decreases |evs|
  {
    hide Next, Perform, Inflated, Recovering;
    if evs != [] {
      RecoveryStep(e, evs[0]);
      RunRecovers(Next(e, evs[0]), evs[1..]);
    }
  }

  /** Leaving recovery does not deflate the window: from the third duplicate on, without an expiry,
      the acknowledgement that ends the recovery leaves at least ssthresh + 3 MSS - and is counted as
      congestion avoidance. */
  lemma RecoveryNotDeflated(e: Endpoint, third: Event, evs: seq<Event>, ack: Event)
    requires Inflating(e.conn, third) && e.conn.tcb.dupAckCount == 2
    requires Obeys(Next(e, third), evs, Recovering)
    requires Growing(Exec(Next(e, third), evs).conn, ack)
    ensures var e2 := Exec(Next(e, third), evs);
            var t := Next(e2, ack).conn.tcb;
            && !InSlowStart(e2.conn)
            && t.ssthresh == Max(e.conn.tcb.cwnd / 2, 2920) && t.cwnd >= t.ssthresh + 4380
  {
    hide Next, SeqAdd, SeqSub, Acks, Expiring, Recovering, Exec, Grown;
    var e1 := Next(e, third);
    NotRepeating(e.conn, third);
    WindowFrame(e, third);
    RunRecovers(e1, evs);
    var e2 := Exec(e1, evs);
    NotRepeating(e2.conn, ack);
    WindowFrame(e2, ack);
    GrownFrom(e2.conn, ack);
  }

  /** An expiry during recovery ends it otherwise: the duplicate counter stays, and the next
      acknowledgement grows the window in slow start. */
  lemma ExpiryReturnsToSlowStart(e: Endpoint, ev: Event)
    requires Expiring(e.conn, ev)
    ensures var c' := Next(e, ev).conn;
            && InSlowStart(c') && c'.tcb.cwnd == MSS
            && c'.tcb.ssthresh == Max(e.conn.tcb.cwnd / 2, 2920)
            && c'.tcb.dupAckCount == e.conn.tcb.dupAckCount
  {
    hide Next, SeqSub, Acks;
    WindowFrame(e, ev);
  }
}
