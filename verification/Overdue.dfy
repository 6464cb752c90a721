/** When the timer fires, and what an acknowledgement retires and measures, entry by entry and in
    numbers: over one examination, and over whole runs. */
module Overdue {
  import opened SeqArith
  import opened TcpHeaders
  import opened Tcbs
  import opened RetransmitQueues
  import opened ConnectionSpec
  import opened Endpoints
  import opened SendSide
  import opened Transitions
  import Timer

  /** Ascending indices into a list of `n` entries. */
  predicate Increasing(idx: seq<nat>, n: nat) {
    && (forall j :: 0 <= j < |idx| ==> idx[j] < n)
    && (forall j, k :: 0 <= j < k < |idx| ==> idx[j] < idx[k])
  }

  /** The entry was sent, or last resent, a timeout ago. */
  predicate Late(x: Entry, now: real, rto: real) { now - x.sentAt >= rto }

  /** The segments of the timer are those of the late entries, in queue order. */
  lemma {:induction false} DuePicks(entries: seq<Entry>, now: real, rto: real) returns (idx: seq<nat>)
    requires rto > 0.0
    ensures Increasing(idx, |entries|)
    ensures forall i :: 0 <= i < |entries| ==> (i in idx <==> Late(entries[i], now, rto))
    ensures var due := DueSegments(entries, now, rto);
            |due| == |idx|
            && forall j :: 0 <= j < |idx| ==> due[j] == (entries[idx[j]].seqNum, entries[idx[j]].data)
  {
    idx := [];
    if entries != [] {
      var n := |entries| - 1;
      var front := entries[..n];
      assert entries == front + [entries[n]];
      idx := DuePicks(front, now, rto);
      DueAppend(front, entries[n], now, rto);
      if Late(entries[n], now, rto) { idx := idx + [n]; }
    }
  }

  /** The late entries are stamped and marked, the others left alone. */
  lemma {:induction false} RefreshAt(entries: seq<Entry>, now: real, rto: real, i: nat)
    requires rto > 0.0 && i < |entries|
    ensures |Refresh(entries, now, rto)| == |entries|
    ensures Refresh(entries, now, rto)[i] ==
            if Late(entries[i], now, rto) then entries[i].(sentAt := now, retransmitted := true)
            else entries[i]
  {
    RefreshKeeps(entries, now, rto);
    if i > 0 { RefreshAt(entries[1..], now, rto, i - 1); }
  }

  /** An acknowledgement covers the entry: the number behind it lies not behind the acknowledged one. */
  predicate Covered(x: Entry, ack: u32) { Wrapped(ack - (x.seqNum + |x.data|)) < 0x8000_0000 }

  lemma CoveredIff(x: Entry, ack: u32)
    ensures x.FullyAcked(ack) <==> Covered(x, ack)
  {
    hide Wrapped;
    WrappedAdd(x.seqNum, |x.data|);
    CoveredWords(x.EndSeq(), ack);
    WrappedTwice(ack, x.seqNum + |x.data|);
  }

  lemma CoveredWords(end: u32, ack: u32)
    ensures SeqLe(end, ack) <==> Wrapped(ack - end) < 0x8000_0000
  {}

  lemma WrappedTwice(a: int, b: int)
    ensures Wrapped(a - Wrapped(b)) == Wrapped(a - b)
  {}

  /** What stays is what is not covered, in order. */
  lemma {:induction false} KeepPicks(entries: seq<Entry>, ack: u32) returns (idx: seq<nat>)
    ensures Increasing(idx, |entries|)
    ensures forall i :: 0 <= i < |entries| ==> (i in idx <==> !Covered(entries[i], ack))
    ensures var kept := Keep(entries, ack);
            |kept| == |idx| && forall j :: 0 <= j < |idx| ==> kept[j] == entries[idx[j]]
  {
    hide Covered, Entry.FullyAcked;
    idx := [];
    if entries != [] {
      var n := |entries| - 1;
      var front := entries[..n];
      assert entries == front + [entries[n]];
      idx := KeepPicks(front, ack);
      KeepAppend(front, entries[n], ack);
      CoveredIff(entries[n], ack);
      if !Covered(entries[n], ack) { idx := idx + [n]; }
    }
  }

  /** The samples are the ages of the covered entries without a mark, in order. */
  lemma {:induction false} SamplePicks(entries: seq<Entry>, ack: u32, now: real)
      returns (idx: seq<nat>)
    ensures Increasing(idx, |entries|)
    ensures forall i :: 0 <= i < |entries| ==>
              (i in idx <==> Covered(entries[i], ack) && !entries[i].retransmitted)
    ensures var samples := Samples(entries, ack, now);
            |samples| == |idx|
            && forall j :: 0 <= j < |idx| ==>
                 samples[j] == if now >= entries[idx[j]].sentAt then now - entries[idx[j]].sentAt else 0.0
  {
    hide Covered, Entry.FullyAcked;
    idx := [];
    if entries != [] {
      var n := |entries| - 1;
      var front := entries[..n];
      assert entries == front + [entries[n]];
      idx := SamplePicks(front, ack, now);
      SamplesAppend(front, entries[n], ack, now);
      CoveredIff(entries[n], ack);
      if Covered(entries[n], ack) && !entries[n].retransmitted { idx := idx + [n]; }
    }
  }

  function MaxReal(a: real, b: real): real { if a <= b then b else a }

  /** One sample: the first one starts the estimate, later ones move it. */
  lemma SampleDoes(q: RtxState, r: real)
    ensures var q' := q.UpdateRto(r);
            && q'.entries == q.entries && q'.srtt.Some?
            && (q.srtt.None? ==> q'.srtt.value == r && q'.rttvar == 0.5 * r)
            && (q.srtt.Some? ==>
                  var s := q.srtt.value;
                  && q'.srtt.value == 0.875 * s + 0.125 * r
                  && q'.rttvar == 0.75 * q.rttvar + 0.25 * MaxReal(s - r, r - s))
            && q'.rto == MinReal(60.0, MaxReal(0.2, q'.srtt.value + 4.0 * q'.rttvar))
  {}

  /** Several samples are taken one after the other. */
  lemma {:induction false} SamplesInOrder(q: RtxState, first: seq<real>, r: real)
    ensures q.UpdateAll([]) == q
    ensures q.UpdateAll(first + [r]) == q.UpdateAll(first).UpdateRto(r)
    decreases |first|
  {
    hide RtxState.UpdateRto;
    if first == [] {
      assert first + [r] == [r] && [r][1..] == [];
    } else {
      assert (first + [r])[1..] == first[1..] + [r];
      SamplesInOrder(q.UpdateRto(first[0]), first[1..], r);
    }
  }

  /** An acknowledgement retires exactly the covered entries and measures exactly those of them that
      were sent once, in queue order. */
  lemma AckRetires(q: RtxState, ack: u32, now: real)
      returns (kept: seq<nat>, sampled: seq<nat>, samples: seq<real>)
    ensures Increasing(kept, |q.entries|) && Increasing(sampled, |q.entries|)
    ensures forall i :: 0 <= i < |q.entries| ==> (i in kept <==> !Covered(q.entries[i], ack))
    ensures forall i :: 0 <= i < |q.entries| ==>
              (i in sampled <==> Covered(q.entries[i], ack) && !q.entries[i].retransmitted)
    ensures |samples| == |sampled|
    ensures forall j :: 0 <= j < |sampled| ==>
              samples[j] == MaxReal(0.0, now - q.entries[sampled[j]].sentAt)
    ensures var q' := q.Acknowledge(ack, now);
            && |q'.entries| == |kept|
            && (forall j :: 0 <= j < |kept| ==> q'.entries[j] == q.entries[kept[j]])
            && q' == q.(entries := q'.entries).UpdateAll(samples)
  {
    hide Covered, RtxState.UpdateAll;
    kept := KeepPicks(q.entries, ack);
    sampled := SamplePicks(q.entries, ack, now);
    samples := Samples(q.entries, ack, now);
    AcknowledgeSelects(q, ack, now);
  }

  /** One examination of the timer: exactly the late entries go out, in queue order, each once; they are
      stamped and marked; the window falls back to one segment, the threshold to half the window, and
      the timeout doubles, up to a minute.  If no entry is late, nothing happens. */
  lemma TimerFires(e: Endpoint, now: real) returns (idx: seq<nat>)
    requires e.conn.rtx.rto > 0.0
    ensures var q, out := e.conn.rtx, Outputs(e, Retransmit(now));
            && Increasing(idx, |q.entries|) && |out| == |idx|
            && (forall i :: 0 <= i < |q.entries| ==>
                  (i in idx <==> now - q.entries[i].sentAt >= q.rto))
            && (forall j :: 0 <= j < |idx| ==>
                  out[j].seqNum == q.entries[idx[j]].seqNum
                  && out[j].payload == q.entries[idx[j]].data)
    ensures var c, c', q, q' := e.conn, Next(e, Retransmit(now)).conn, e.conn.rtx,
                                Next(e, Retransmit(now)).conn.rtx;
            && |q'.entries| == |q.entries|
            && (forall i :: 0 <= i < |q.entries| ==>
                  q'.entries[i] == if i in idx then q.entries[i].(sentAt := now, retransmitted := true)
                                   else q.entries[i])
            && (idx == [] ==> c' == c)
            && (idx != [] ==>
                  && c' == c.(rtx := q', tcb := c.tcb.(cwnd := 1460, ssthresh := Max(c.tcb.cwnd / 2, 2920)))
                  && q' == q.(entries := q'.entries, rto := MinReal(60.0, 2.0 * q.rto)))
  {
    hide SeqAdd, SeqSub, ProcessSegment, DueSegments, Refresh;
    var q := e.conn.rtx;
    idx := DuePicks(q.entries, now, q.rto);
    var q' := Next(e, Retransmit(now)).conn.rtx;
    assert q'.entries == Refresh(q.entries, now, q.rto);
    RefreshKeeps(q.entries, now, q.rto);
    forall i | 0 <= i < |q.entries|
      ensures q'.entries[i] == if i in idx then q.entries[i].(sentAt := now, retransmitted := true)
                               else q.entries[i]
    {
      RefreshAt(q.entries, now, q.rto, i);
    }
    if idx == [] { assert q'.entries == q.entries; }
  }

  /** The event is an acknowledgement that covers the entry. */
  predicate Retires(x: Entry, c: Conn, ev: Event) {
    && ev.Deliver? && c.tcb.state in {Established, FinWait1}
    && TakesAck(c, ev.seg) && Covered(x, ev.seg.header.ackNum)
  }

  /** The event is an examination of the timer when the entry is late. */
  predicate Expires(x: Entry, c: Conn, ev: Event) { ev.Retransmit? && Late(x, ev.now, c.rtx.rto) }

  function Waits(x: Entry): (Endpoint, Event) -> bool {
    (e: Endpoint, ev: Event) => !Retires(x, e.conn, ev) && !Expires(x, e.conn, ev)
  }

  /** The queue after any event. */
  lemma QueueAfter(e: Endpoint, ev: Event)
    ensures var c, c' := e.conn, Next(e, ev).conn;
            && (ev.Deliver? ==>
                  c'.rtx == if TakesAck(c, ev.seg) && c.tcb.state in {Established, FinWait1}
                            then c.rtx.Acknowledge(ev.seg.header.ackNum, ev.now) else c.rtx)
            && (ev.Send? ==> c.rtx.entries <= c'.rtx.entries)
            && (!ev.Deliver? && !ev.Send? && !ev.Retransmit? ==> c'.rtx == c.rtx)
    ensures Timer.RtoInRange(e.conn.rtx) ==> Timer.RtoInRange(Next(e, ev).conn.rtx)
  {
    hide Next, SeqAdd, SeqSub, RtxState.Acknowledge, Answer;
    Timer.EventIsOps(e, ev);
    if Timer.RtoInRange(e.conn.rtx) { Timer.RtoBounded(e.conn.rtx, Timer.OpsOf(e.conn, ev)); }
    match ev
    case Deliver(seg, now) => SegmentDoes(e, seg, now);
    case Send(n, now) => SendTable(e, n, now);
    case _ =>
  }

  lemma StepWaits(e: Endpoint, ev: Event, x: Entry)
    requires Timer.RtoInRange(e.conn.rtx)
    requires x in e.conn.rtx.entries && Waits(x)(e, ev)
    ensures x in Next(e, ev).conn.rtx.entries && Timer.RtoInRange(Next(e, ev).conn.rtx)
  {
    hide Next, Outputs, TakesAck, Covered, RtxState.Acknowledge;
    QueueAfter(e, ev);
    var i :| 0 <= i < |e.conn.rtx.entries| && e.conn.rtx.entries[i] == x;
    match ev
    case Deliver(seg, now) =>
      var kept, sampled, samples := AckRetires(e.conn.rtx, seg.header.ackNum, now);
      if !Covered(x, seg.header.ackNum) {
        assert i in kept;
        var j :| 0 <= j < |kept| && kept[j] == i;
      }
    case Retransmit(now) =>
      var idx := TimerFires(e, now);
      assert i !in idx;
      assert Next(e, ev).conn.rtx.entries[i] == x;
    case _ =>
  }

  /** What happens to a queued entry in any run: it stays untouched until the first event that is either
      an acknowledgement covering it or an examination of the timer at least a timeout after it was
      sent, and in the second case it goes out there, and is stamped and marked. */
  lemma {:induction false} ResentWhenLate(e: Endpoint, evs: seq<Event>, x: Entry) returns (i: nat)
    requires Timer.RtoInRange(e.conn.rtx) && x in e.conn.rtx.entries
    ensures i <= |evs| && Obeys(e, evs[..i], Waits(x)) && x in Exec(e, evs[..i]).conn.rtx.entries
    ensures i < |evs| ==>
              var e', ev := Exec(e, evs[..i]), evs[i];
              && (Retires(x, e'.conn, ev) || Expires(x, e'.conn, ev))
              && (Expires(x, e'.conn, ev) ==>
                    && (exists b :: b in Outputs(e', ev) && b.seqNum == x.seqNum && b.payload == x.data)
                    && x.(sentAt := ev.now, retransmitted := true) in Next(e', ev).conn.rtx.entries)
    decreases |evs|
  {
    hide Next, Outputs, Retires, Late, Timer.RtoInRange;
    i := 0;
    assert evs[..0] == [];
    if evs != [] {
      var ev := evs[0];
      if Waits(x)(e, ev) {
        StepWaits(e, ev, x);
        var k := ResentWhenLate(Next(e, ev), evs[1..], x);
        i := k + 1;
        assert evs[..i] == [ev] + evs[1..][..k];
        assert evs[..i][1..] == evs[1..][..k];
      } else if Expires(x, e.conn, ev) {
        FiresFor(e, ev.now, x);
      }
    }
  }

  lemma FiresFor(e: Endpoint, now: real, x: Entry)
    requires Timer.RtoInRange(e.conn.rtx)
    requires x in e.conn.rtx.entries && Late(x, now, e.conn.rtx.rto)
    ensures exists b :: b in Outputs(e, Retransmit(now)) && b.seqNum == x.seqNum && b.payload == x.data
    ensures x.(sentAt := now, retransmitted := true) in Next(e, Retransmit(now)).conn.rtx.entries
  {
    hide Next, Outputs;
    var i :| 0 <= i < |e.conn.rtx.entries| && e.conn.rtx.entries[i] == x;
    var idx := TimerFires(e, now);
    assert i in idx;
    var j :| 0 <= j < |idx| && idx[j] == i;
    assert Outputs(e, Retransmit(now))[j] in Outputs(e, Retransmit(now));
    assert Next(e, Retransmit(now)).conn.rtx.entries[i] in Next(e, Retransmit(now)).conn.rtx.entries;
  }

  /** So for every segment sent at `t0` with room in the queue, in every run: it is resent by the first
      examination at or after `t0` plus the timeout of that moment, and by none before, unless an
      acknowledgement covers it first. */
  lemma SentIsResentWhenLate(e0: Endpoint, before: seq<Event>, n: nat, t0: real, evs: seq<Event>)
      returns (x: Entry, i: nat)
    requires Fresh(e0)
    requires |Exec(e0, before).conn.rtx.entries| < 128
    requires Outputs(Exec(e0, before), Send(n, t0)) != []
    ensures var e := Exec(e0, before);
            var b, e1 := Outputs(e, Send(n, t0))[0], Next(e, Send(n, t0));
            && x == Entry(b.seqNum, b.payload, t0, false)
            && i <= |evs| && Obeys(e1, evs[..i], Waits(x))
            && x in Exec(e1, evs[..i]).conn.rtx.entries
            && (i < |evs| ==>
                  var e2, ev := Exec(e1, evs[..i]), evs[i];
                  && (Retires(x, e2.conn, ev)
                      || (ev.Retransmit? && ev.now >= t0 + e2.conn.rtx.rto
                          && exists r :: r in Outputs(e2, ev) && r.seqNum == x.seqNum
                                         && r.payload == x.data)))
  {
    hide Next, Outputs, Timer.RtoInRange, Retires;
    var e := Exec(e0, before);
    InRangeFrom(e0, before);
    SendTable(e, n, t0);
    var b, e1 := Outputs(e, Send(n, t0))[0], Next(e, Send(n, t0));
    x := Entry(b.seqNum, b.payload, t0, false);
    assert e1.conn.rtx.entries[|e.conn.rtx.entries|] == x;
    QueueAfter(e, Send(n, t0));
    i := ResentWhenLate(e1, evs, x);
  }

  lemma InRangeFrom(e0: Endpoint, evs: seq<Event>)
    requires Fresh(e0)
    ensures Timer.RtoInRange(Exec(e0, evs).conn.rtx)
  {
    hide Exec;
    Timer.RtoOfConnection(e0, evs);
  }
}
