/** The retransmission timer over runs of the queue (sections 2 to 5 of RFC 6298). */
module Timer {
  import opened SeqArith
  import opened RetransmitQueues
  import opened TcpHeaders
  import opened Tcbs
  import opened ConnectionSpec
  import opened Endpoints
  import opened SendSide

  /** Everything a connection does with its queue. */
  datatype Op =
    | Push(seqNum: u32, data: seq<u8>, now: real)
    | Ack(ack: u32, now: real)
    | Expire(now: real)

  function Apply(q: RtxState, op: Op): RtxState {
    match op
    case Push(s, d, now) => q.Push(s, d, now)
    case Ack(ack, now) => q.Acknowledge(ack, now)
    case Expire(now) => q.AfterExpiry(now)
  }

  function ApplyAll(q: RtxState, ops: seq<Op>): RtxState
    decreases |ops|
  {
    if ops == [] then q else ApplyAll(Apply(q, ops[0]), ops[1..])
  }

  /** The round-trip times an operation measures. */
  function Measured(q: RtxState, op: Op): seq<real> {
    if op.Ack? then Samples(q.entries, op.ack, op.now) else []
  }

  predicate RtoInRange(q: RtxState) { MIN_RTO <= q.rto <= MAX_RTO }

  lemma {:induction false} UpdateAllRange(q: RtxState, samples: seq<real>)
    requires RtoInRange(q)
    ensures RtoInRange(q.UpdateAll(samples))
    decreases |samples|
  {
    if samples != [] { UpdateAllRange(q.UpdateRto(samples[0]), samples[1..]); }
  }

  /** The timeout stays between 200 ms and 60 s. */
  lemma {:induction false} RtoBounded(q: RtxState, ops: seq<Op>)
    requires RtoInRange(q)
    ensures RtoInRange(ApplyAll(q, ops))
    decreases |ops|
  {
    if ops != [] {
      if ops[0].Ack? {
        UpdateAllRange(q.(entries := Keep(q.entries, ops[0].ack)), Measured(q, ops[0]));
      }
      RtoBounded(Apply(q, ops[0]), ops[1..]);
    }
  }

  predicate SrttIn(q: RtxState, lo: real, hi: real) {
    q.srtt.Some? ==> lo <= q.srtt.value <= hi
  }

  predicate AllIn(samples: seq<real>, lo: real, hi: real) {
    forall i :: 0 <= i < |samples| ==> lo <= samples[i] <= hi
  }

  /** Every sample a run takes lies between `lo` and `hi`. */
  predicate MeasuresIn(q: RtxState, ops: seq<Op>, lo: real, hi: real)
    decreases |ops|
  {
    ops == [] || (AllIn(Measured(q, ops[0]), lo, hi)
                  && MeasuresIn(Apply(q, ops[0]), ops[1..], lo, hi))
  }

  lemma {:induction false} UpdateAllSrtt(q: RtxState, samples: seq<real>, lo: real, hi: real)
    requires SrttIn(q, lo, hi) && AllIn(samples, lo, hi)
    ensures SrttIn(q.UpdateAll(samples), lo, hi)
    ensures samples != [] ==> q.UpdateAll(samples).srtt.Some?
    decreases |samples|
  {
    if samples != [] {
      var q1 := q.UpdateRto(samples[0]);
      assert lo <= samples[0] <= hi;
      UpdateAllSrtt(q1, samples[1..], lo, hi);
      if samples[1..] == [] { assert q1.UpdateAll(samples[1..]) == q1; }
    }
  }

  /** The smoothed round-trip time stays between the smallest and the largest sample. */
  lemma {:induction false} SrttBetweenSamples(q: RtxState, ops: seq<Op>, lo: real, hi: real)
    requires SrttIn(q, lo, hi) && MeasuresIn(q, ops, lo, hi)
    ensures SrttIn(ApplyAll(q, ops), lo, hi)
    decreases |ops|
  {
    if ops != [] {
      if ops[0].Ack? {
        UpdateAllSrtt(q.(entries := Keep(q.entries, ops[0].ack)), Measured(q, ops[0]), lo, hi);
      }
      SrttBetweenSamples(Apply(q, ops[0]), ops[1..], lo, hi);
    }
  }

  function Power(x: real, k: nat): real { if k == 0 then 1.0 else x * Power(x, k - 1) }

  function Repeated(r: real, k: nat): seq<real> { seq(k, _ => r) }

  lemma ScaleError(p: real, s: real, r: real)
    ensures p * ((0.875 * s + 0.125 * r) - r) == (0.875 * p) * (s - r)
  {
    assert (0.875 * s + 0.125 * r) - r == 0.875 * (s - r);
  }

  lemma ScaleProduct(p: real, v: real)
    ensures p * (0.75 * v) == (0.75 * p) * v
  {}

  lemma UpdateRtoSome(q: RtxState, s: real, r: real)
    requires q.srtt == Some(s)
    ensures q.UpdateRto(r).srtt == Some(0.875 * s + 0.125 * r)
    ensures s == r ==> q.UpdateRto(r).rttvar == 0.75 * q.rttvar
    ensures q.UpdateRto(r).rto
            == Clamp(q.UpdateRto(r).srtt.value + 4.0 * q.UpdateRto(r).rttvar, MIN_RTO, MAX_RTO)
  {}

  /** A steady round-trip time: the error of the smoothed value shrinks by 7/8 per sample, ... */
  lemma {:induction false} SrttConverges(q: RtxState, s: real, r: real, k: nat)
    requires q.srtt == Some(s)
    ensures q.UpdateAll(Repeated(r, k)).srtt == Some(r + Power(0.875, k) * (s - r))
    decreases k
  {
    hide RtxState.UpdateRto;
    if k == 0 {
      assert Repeated(r, 0) == [];
    } else {
      assert Repeated(r, k)[1..] == Repeated(r, k - 1);
      UpdateRtoSome(q, s, r);
      SrttConverges(q.UpdateRto(r), 0.875 * s + 0.125 * r, r, k - 1);
      ScaleError(Power(0.875, k - 1), s, r);
    }
  }

  /** ... and once it has settled the variation decays by 3/4, so the timeout goes to the round-trip
      time within its limits. */
  lemma {:induction false} RtoSettles(q: RtxState, r: real, k: nat)
    requires q.srtt == Some(r)
    ensures var q' := q.UpdateAll(Repeated(r, k));
            && q'.srtt == Some(r) && q'.rttvar == Power(0.75, k) * q.rttvar
            && (k > 0 ==> q'.rto == Clamp(r + 4.0 * q'.rttvar, MIN_RTO, MAX_RTO))
    decreases k
  {
    hide RtxState.UpdateRto;
    if k == 0 {
      assert Repeated(r, 0) == [];
    } else {
      assert Repeated(r, k)[1..] == Repeated(r, k - 1);
      UpdateRtoSome(q, r, r);
      RtoSettles(q.UpdateRto(r), r, k - 1);
      ScaleProduct(Power(0.75, k - 1), q.rttvar);
      if k == 1 { assert Repeated(r, 0) == []; }
    }
  }

  /** No operation of the run takes a sample. */
  predicate Unsampled(q: RtxState, ops: seq<Op>)
    decreases |ops|
  {
    ops == [] || (Measured(q, ops[0]) == [] && Unsampled(Apply(q, ops[0]), ops[1..]))
  }

  /** How often the timer found something to resend. */
  function Expiries(q: RtxState, ops: seq<Op>): nat
    decreases |ops|
  {
    if ops == [] then 0
    else
      (if ops[0].Expire? && q.Expired(ops[0].now) != [] then 1 else 0)
      + Expiries(Apply(q, ops[0]), ops[1..])
  }

  function Doubled(x: real, k: nat): real {
    if k == 0 then x else 2.0 * Doubled(x, k - 1)
  }

  lemma {:induction false} DoubledShift(x: real, k: nat)
    ensures Doubled(2.0 * x, k) == Doubled(x, k + 1)
  {
    if k > 0 { DoubledShift(x, k - 1); }
  }

  lemma {:induction false} DoubledBeyond(x: real, k: nat)
    requires x >= MAX_RTO
    ensures Doubled(x, k) >= MAX_RTO
  {
    if k > 0 { DoubledBeyond(x, k - 1); }
  }

  /** Exponential backoff: k expiries with no sample in between give min(2^k * rto, 60 s). */
  lemma {:induction false} Backoff(q: RtxState, ops: seq<Op>)
    requires RtoInRange(q) && Unsampled(q, ops)
    ensures ApplyAll(q, ops).rto == MinReal(Doubled(q.rto, Expiries(q, ops)), MAX_RTO)
    decreases |ops|
  {
    if ops != [] {
      var q1 := Apply(q, ops[0]);
      Backoff(q1, ops[1..]);
      var k := Expiries(q1, ops[1..]);
      if ops[0].Expire? && q.Expired(ops[0].now) != [] {
        DoubledShift(q.rto, k);
        if 2.0 * q.rto > MAX_RTO {
          DoubledBeyond(MAX_RTO, k);
          DoubledBeyond(2.0 * q.rto, k);
        }
      }
    }
  }

  /** The queue with an identity for every entry ever pushed, and the identities that
      `expired_segments` returned and that were sampled. */
  datatype Tracked = Tracked(q: RtxState, ids: seq<nat>, next: nat, expired: set<nat>, sampled: set<nat>)

  function KeepIds(entries: seq<Entry>, ids: seq<nat>, ack: u32): (r: seq<nat>)
    requires |ids| == |entries|
    ensures |r| == |Keep(entries, ack)|
  {
    if entries == [] then []
    else (if entries[0].FullyAcked(ack) then [] else [ids[0]]) + KeepIds(entries[1..], ids[1..], ack)
  }

  function SampledIds(entries: seq<Entry>, ids: seq<nat>, ack: u32, now: real): (r: seq<nat>)
    requires |ids| == |entries|
    ensures |r| == |Samples(entries, ack, now)|
  {
    if entries == [] then []
    else
      (if entries[0].FullyAcked(ack) && !entries[0].retransmitted then [ids[0]] else [])
      + SampledIds(entries[1..], ids[1..], ack, now)
  }

  function DueIds(entries: seq<Entry>, ids: seq<nat>, now: real, rto: real): (r: seq<nat>)
    requires |ids| == |entries|
    ensures |r| == |DueSegments(entries, now, rto)|
  {
    if entries == [] then []
    else
      (if entries[0].Due(now, rto) then [ids[0]] else [])
      + DueIds(entries[1..], ids[1..], now, rto)
  }

  ghost function Elements(s: seq<nat>): set<nat> { set x | x in s }

  ghost function Track(t: Tracked, op: Op): Tracked
    requires |t.ids| == |t.q.entries|
  {
    var q' := Apply(t.q, op);
    match op
    case Push(_, _, _) =>
      if |t.q.entries| < RETRANSMIT_QUEUE_MAX
      then t.(q := q', ids := t.ids + [t.next], next := t.next + 1) else t.(q := q')
    case Ack(ack, now) =>
      t.(q := q', ids := KeepIds(t.q.entries, t.ids, ack),
         sampled := t.sampled + Elements(SampledIds(t.q.entries, t.ids, ack, now)))
    case Expire(now) =>
      t.(q := q', expired := t.expired + Elements(DueIds(t.q.entries, t.ids, now, t.q.rto)))
  }

  /** Entries have distinct identities, and `retransmitted` marks exactly those that expired. */
  ghost predicate Marked(entries: seq<Entry>, ids: seq<nat>, expired: set<nat>) {
    && |ids| == |entries|
    && (forall i, j :: 0 <= i < j < |ids| ==> ids[i] != ids[j])
    && (forall i :: 0 <= i < |ids| ==> (entries[i].retransmitted <==> ids[i] in expired))
  }

  ghost predicate TrackedInv(t: Tracked) {
    && Marked(t.q.entries, t.ids, t.expired)
    && (forall x :: x in t.ids || x in t.expired ==> x < t.next)
    && (forall x :: x in t.sampled ==> x < t.next && x !in t.ids && x !in t.expired)
  }

  lemma {:induction false} KeepMarked(entries: seq<Entry>, ids: seq<nat>, ack: u32, expired: set<nat>)
    requires Marked(entries, ids, expired)
    ensures Marked(Keep(entries, ack), KeepIds(entries, ids, ack), expired)
    ensures forall x :: x in KeepIds(entries, ids, ack) ==> x in ids
  {
    if entries != [] {
      assert forall i :: 0 <= i < |ids| - 1 ==> ids[1..][i] == ids[i + 1];
      KeepMarked(entries[1..], ids[1..], ack, expired);
      var kept, keptIds := Keep(entries, ack), KeepIds(entries, ids, ack);
      if !entries[0].FullyAcked(ack) {
        assert keptIds[1..] == KeepIds(entries[1..], ids[1..], ack);
        assert kept[1..] == Keep(entries[1..], ack);
        assert ids[0] !in ids[1..];
        forall i, j | 0 <= i < j < |keptIds| ensures keptIds[i] != keptIds[j] {
          assert keptIds[1..][j - 1] == keptIds[j];
          if i > 0 { assert keptIds[1..][i - 1] == keptIds[i]; }
        }
        forall i | 0 <= i < |keptIds|
          ensures kept[i].retransmitted <==> keptIds[i] in expired
        {
          if i > 0 { assert kept[1..][i - 1] == kept[i] && keptIds[1..][i - 1] == keptIds[i]; }
        }
      }
    }
  }

  /** Samples come from acknowledged entries that never expired, and those leave the queue. */
  lemma {:induction false} SampledAreFresh(entries: seq<Entry>, ids: seq<nat>, ack: u32, now: real,
                                           expired: set<nat>)
    requires Marked(entries, ids, expired)
    ensures forall x :: x in SampledIds(entries, ids, ack, now) ==>
              x in ids && x !in expired && x !in KeepIds(entries, ids, ack)
  {
    if entries != [] {
      assert forall i :: 0 <= i < |ids| - 1 ==> ids[1..][i] == ids[i + 1];
      SampledAreFresh(entries[1..], ids[1..], ack, now, expired);
      KeepMarked(entries[1..], ids[1..], ack, expired);
      assert ids[0] !in ids[1..];
    }
  }

  /** The timer marks what it returns. */
  lemma {:induction false} RefreshMarked(entries: seq<Entry>, ids: seq<nat>, now: real, rto: real,
                                         expired: set<nat>)
    requires Marked(entries, ids, expired)
    ensures Marked(Refresh(entries, now, rto), ids,
                   expired + Elements(DueIds(entries, ids, now, rto)))
    ensures forall x :: x in DueIds(entries, ids, now, rto) ==> x in ids
  {
    if entries != [] {
      assert forall i :: 0 <= i < |ids| - 1 ==> ids[1..][i] == ids[i + 1];
      RefreshMarked(entries[1..], ids[1..], now, rto, expired);
      assert ids[0] !in ids[1..];
      var r, due := Refresh(entries, now, rto), DueIds(entries, ids, now, rto);
      assert r[1..] == Refresh(entries[1..], now, rto);
      forall i | 0 <= i < |ids|
        ensures r[i].retransmitted <==> ids[i] in expired + Elements(due)
      {
        if i > 0 { assert r[1..][i - 1] == r[i] && ids[1..][i - 1] == ids[i]; }
      }
    }
  }

  lemma TrackStep(t: Tracked, op: Op)
    requires TrackedInv(t)
    ensures |Track(t, op).ids| == |Track(t, op).q.entries| && TrackedInv(Track(t, op))
  {
    match op
    case Push(s, d, now) =>
      if |t.q.entries| < RETRANSMIT_QUEUE_MAX {
        assert forall i :: 0 <= i < |t.ids| ==> t.ids[i] in t.ids;
      }
    case Ack(ack, now) =>
      KeepMarked(t.q.entries, t.ids, ack, t.expired);
      SampledAreFresh(t.q.entries, t.ids, ack, now, t.expired);
      UpdateKeepsEntries(t.q.(entries := Keep(t.q.entries, ack)), Measured(t.q, op));
    case Expire(now) =>
      RefreshMarked(t.q.entries, t.ids, now, t.q.rto, t.expired);
  }

  ghost predicate TrackAll(t: Tracked, ops: seq<Op>, t': Tracked)
    decreases |ops|
  {
    if ops == [] then t' == t
    else |t.ids| == |t.q.entries| && TrackAll(Track(t, ops[0]), ops[1..], t')
  }

  lemma {:induction false} TrackRun(t: Tracked, ops: seq<Op>, t': Tracked)
    requires TrackedInv(t) && TrackAll(t, ops, t')
    ensures TrackedInv(t') && t.expired <= t'.expired
    decreases |ops|
  {
    if ops != [] {
      TrackStep(t, ops[0]);
      TrackRun(Track(t, ops[0]), ops[1..], t');
    }
  }

  /** Karn's rule for timer retransmissions: over any run of the queue, no entry that
      `expired_segments` returned is ever sampled, before or after. */
  lemma ExpiredNeverSampled(ops: seq<Op>, t: Tracked)
    requires TrackAll(Tracked(NewRtxState(), [], 0, {}, {}), ops, t)
    ensures t.expired !! t.sampled
  {
    TrackRun(Tracked(NewRtxState(), [], 0, {}, {}), ops, t);
  }

  /** Exactly which acknowledged entries are sampled: those the timer never returned.  A fast
      retransmission leaves no mark, so a segment resent that way is sampled all the same. */
  lemma {:induction false} SampledIffNeverExpired(entries: seq<Entry>, ids: seq<nat>, ack: u32,
                                                  now: real, expired: set<nat>, i: nat)
    requires Marked(entries, ids, expired) && i < |entries| && entries[i].FullyAcked(ack)
    ensures ids[i] in SampledIds(entries, ids, ack, now) <==> ids[i] !in expired
  {
    assert forall j :: 0 <= j < |ids| - 1 ==> ids[1..][j] == ids[j + 1];
    if i == 0 {
      SampledAreFresh(entries, ids, ack, now, expired);
    } else {
      SampledIffNeverExpired(entries[1..], ids[1..], ack, now, expired, i - 1);
      assert ids[1..][i - 1] == ids[i] && ids[0] != ids[i];
    }
  }

  /** The queue operation that an event of a connection amounts to, if any. */
  function OpsOf(c: Conn, ev: Event): seq<Op> {
    match ev
    case Deliver(seg, now) =>
      if c.tcb.state in {Established, FinWait1} && !seg.header.flags.rst && IsNewAck(c, seg)
      then [Ack(seg.header.ackNum, now)] else []
    case Send(maxPayload, now) =>
      if Sends(c, maxPayload) then
        var n := Min(maxPayload, EffectiveWindow(c) - InFlight(c));
        var piece := c.send.NextSegment(n).value;
        [Op.Push(piece.0, piece.1, now)]
      else []
    case Retransmit(now) => [Expire(now)]
    case _ => []
  }

  lemma ApplyOne(q: RtxState, op: Op)
    ensures ApplyAll(q, [op]) == Apply(q, op)
  {
    assert [op][1..] == [];
  }

  lemma DeliverOps(c: Conn, seg: TcpSegment, now: real)
    ensures var ops := OpsOf(c, Deliver(seg, now));
            ProcessSegment(c, seg, now).conn.rtx == ApplyAll(c.rtx, ops)
  {
    hide SeqAdd, SeqSub, AckAcceptable, HandleEstablished, RtxState.Acknowledge;
    ApplyOne(c.rtx, Ack(seg.header.ackNum, now));
    if c.tcb.state == Established { EstablishedSendSide(c, seg, now); }
  }

  lemma EventIsOps(e: Endpoint, ev: Event)
    ensures Next(e, ev).conn.rtx == ApplyAll(e.conn.rtx, OpsOf(e.conn, ev))
  {
    hide SeqAdd, SeqSub, ProcessSegment, RtxState.AfterExpiry;
    match ev
    case Deliver(seg, now) => DeliverOps(e.conn, seg, now);
    case Retransmit(now) => ApplyOne(e.conn.rtx, Expire(now));
    case Send(_, _) =>
      if Sends(e.conn, ev.maxPayload) { ApplyOne(e.conn.rtx, OpsOf(e.conn, ev)[0]); }
    case _ =>
  }

  function OpsOfRun(e: Endpoint, evs: seq<Event>): seq<Op>
    decreases |evs|
  {
    if evs == [] then [] else OpsOf(e.conn, evs[0]) + OpsOfRun(Next(e, evs[0]), evs[1..])
  }

  lemma {:induction false} ApplyCompose(q: RtxState, ops: seq<Op>, more: seq<Op>)
    ensures ApplyAll(q, ops + more) == ApplyAll(ApplyAll(q, ops), more)
    decreases |ops|
  {
    hide Apply;
    if ops == [] {
      assert ops + more == more;
    } else {
      assert (ops + more)[1..] == ops[1..] + more;
      ApplyCompose(Apply(q, ops[0]), ops[1..], more);
    }
  }

  /** What a connection does to its queue over a run is a run of queue operations, so everything above
      holds of every connection. */
  lemma {:induction false} RunIsOps(e: Endpoint, evs: seq<Event>)
    ensures Exec(e, evs).conn.rtx == ApplyAll(e.conn.rtx, OpsOfRun(e, evs))
    decreases |evs|
  {
    hide Next, Perform, OpsOf, Apply;
    if evs != [] {
      EventIsOps(e, evs[0]);
      RunIsOps(Next(e, evs[0]), evs[1..]);
      ApplyCompose(e.conn.rtx, OpsOf(e.conn, evs[0]), OpsOfRun(Next(e, evs[0]), evs[1..]));
    }
  }

  /** For instance: the timeout of any connection, in any reachable state. */
  lemma RtoOfConnection(e0: Endpoint, evs: seq<Event>)
    requires Fresh(e0)
    ensures 0.2 <= Exec(e0, evs).conn.rtx.rto <= 60.0
  {
    RunIsOps(e0, evs);
    RtoBounded(e0.conn.rtx, OpsOfRun(e0, evs));
  }
}
