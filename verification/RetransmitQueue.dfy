/** The retransmission queue and its timer (retransmit.rs).

    Times and durations are seconds; `f64` and `Duration` are idealised as `real`, and the clock
    readings are parameters. */
module RetransmitQueues {
  import opened SeqArith

  const MSS: u32 := 1460
  const RETRANSMIT_QUEUE_MAX: nat := 128
  const INITIAL_RTO: real := 1.0
  const MIN_RTO: real := 0.2
  const MAX_RTO: real := 60.0
  const ALPHA: real := 0.125
  const BETA: real := 0.25

  datatype Entry = Entry(seqNum: u32, data: seq<u8>, sentAt: real, retransmitted: bool) {
    function EndSeq(): u32 { SeqAdd(seqNum, |data|) }

    predicate FullyAcked(ack: u32) { SeqLe(EndSeq(), ack) }

    predicate Due(now: real, rto: real) { Since(now, sentAt) >= rto }
  }

  /** `Instant::duration_since`, which saturates at zero. */
  function Since(now: real, earlier: real): real { if now >= earlier then now - earlier else 0.0 }

  function MinReal(a: real, b: real): real { if a <= b then a else b }

  function Clamp(x: real, lo: real, hi: real): real {
    if x < lo then lo else if x > hi then hi else x
  }

  /** `retain`: the entries an acknowledgement leaves in the queue. */
  function Keep(entries: seq<Entry>, ack: u32): (kept: seq<Entry>) {
    if entries == [] then []
    else (if entries[0].FullyAcked(ack) then [] else [entries[0]]) + Keep(entries[1..], ack)
  }

  /** The round-trip times an acknowledgement measures. */
  function Samples(entries: seq<Entry>, ack: u32, now: real): seq<real> {
    if entries == [] then []
    else
      (if entries[0].FullyAcked(ack) && !entries[0].retransmitted
       then [Since(now, entries[0].sentAt)] else [])
      + Samples(entries[1..], ack, now)
  }

  function Refresh(entries: seq<Entry>, now: real, rto: real): (r: seq<Entry>) {
    if entries == [] then []
    else
      [if entries[0].Due(now, rto)
       then entries[0].(sentAt := now, retransmitted := true) else entries[0]]
      + Refresh(entries[1..], now, rto)
  }

  function DueSegments(entries: seq<Entry>, now: real, rto: real): seq<(u32, seq<u8>)> {
    if entries == [] then []
    else
      (if entries[0].Due(now, rto) then [(entries[0].seqNum, entries[0].data)] else [])
      + DueSegments(entries[1..], now, rto)
  }

  datatype RtxState = RtxState(entries: seq<Entry>, rto: real, srtt: Option<real>, rttvar: real) {
    function Push(seqNum: u32, data: seq<u8>, now: real): RtxState {
      if |entries| < RETRANSMIT_QUEUE_MAX
      then this.(entries := entries + [Entry(seqNum, data, now, false)])
      else this
    }

    function UpdateRto(r: real): RtxState {
      var rttvar' :=
        if srtt.None? then r / 2.0
        else
          var diff := if srtt.value >= r then srtt.value - r else r - srtt.value;
          (1.0 - BETA) * rttvar + BETA * diff;
      var srtt' := if srtt.None? then r else (1.0 - ALPHA) * srtt.value + ALPHA * r;
      RtxState(entries, Clamp(srtt' + 4.0 * rttvar', MIN_RTO, MAX_RTO), Some(srtt'), rttvar')
    }

    function UpdateAll(samples: seq<real>): RtxState
      decreases |samples|
    {
      if samples == [] then this else UpdateRto(samples[0]).UpdateAll(samples[1..])
    }

    function Acknowledge(ack: u32, now: real): RtxState {
      this.(entries := Keep(entries, ack)).UpdateAll(Samples(entries, ack, now))
    }

    function Expired(now: real): seq<(u32, seq<u8>)> { DueSegments(entries, now, rto) }

    function AfterExpiry(now: real): RtxState {
      this.(entries := Refresh(entries, now, rto),
            rto := if Expired(now) == [] then rto else MinReal(rto * 2.0, MAX_RTO))
    }

    function FirstUnacked(): Option<(u32, seq<u8>)> {
      if entries == [] then None else Some((entries[0].seqNum, entries[0].data))
    }
  }

  function NewRtxState(): RtxState { RtxState([], INITIAL_RTO, None, 0.0) }

  lemma {:induction false} UpdateKeepsEntries(q: RtxState, samples: seq<real>)
    ensures q.UpdateAll(samples).entries == q.entries
    decreases |samples|
  {
    if samples != [] { UpdateKeepsEntries(q.UpdateRto(samples[0]), samples[1..]); }
  }

  /** All four passes work entry by entry. */
  lemma {:induction false} KeepAppend(entries: seq<Entry>, x: Entry, ack: u32)
    ensures Keep(entries + [x], ack)
            == Keep(entries, ack) + if x.FullyAcked(ack) then [] else [x]
  {
    hide Entry.FullyAcked;
    var all, last := entries + [x], if x.FullyAcked(ack) then [] else [x];
    if entries == [] {
      assert all[0] == x && all[1..] == [];
      assert last + [] == last && [] + last == last;
    } else {
      var rest := entries[1..];
      assert all[0] == entries[0] && all[1..] == rest + [x];
      KeepAppend(rest, x, ack);
      var first := if entries[0].FullyAcked(ack) then [] else [entries[0]];
      assert first + (Keep(rest, ack) + last) == (first + Keep(rest, ack)) + last;
    }
  }

  lemma {:induction false} SamplesAppend(entries: seq<Entry>, x: Entry, ack: u32, now: real)
    ensures Samples(entries + [x], ack, now)
            == Samples(entries, ack, now)
               + if x.FullyAcked(ack) && !x.retransmitted then [Since(now, x.sentAt)] else []
  {
    hide Entry.FullyAcked, Since;
    var all := entries + [x];
    var last := if x.FullyAcked(ack) && !x.retransmitted then [Since(now, x.sentAt)] else [];
    if entries == [] {
      assert all[0] == x && all[1..] == [];
      assert last + [] == last && [] + last == last;
    } else {
      var rest := entries[1..];
      assert all[0] == entries[0] && all[1..] == rest + [x];
      SamplesAppend(rest, x, ack, now);
      var first := if entries[0].FullyAcked(ack) && !entries[0].retransmitted
                   then [Since(now, entries[0].sentAt)] else [];
      assert first + (Samples(rest, ack, now) + last) == (first + Samples(rest, ack, now)) + last;
    }
  }

  function Refreshed(x: Entry, now: real, rto: real): Entry {
    if x.Due(now, rto) then x.(sentAt := now, retransmitted := true) else x
  }

  lemma {:induction false} RefreshAppend(entries: seq<Entry>, x: Entry, now: real, rto: real)
    ensures Refresh(entries + [x], now, rto) == Refresh(entries, now, rto) + [Refreshed(x, now, rto)]
  {
    hide Entry.Due;
    var all, last := entries + [x], [Refreshed(x, now, rto)];
    if entries == [] {
      assert all[0] == x && all[1..] == [];
      assert last + [] == last && [] + last == last;
    } else {
      var rest := entries[1..];
      assert all[0] == entries[0] && all[1..] == rest + [x];
      RefreshAppend(rest, x, now, rto);
      var first := [Refreshed(entries[0], now, rto)];
      assert first + (Refresh(rest, now, rto) + last) == (first + Refresh(rest, now, rto)) + last;
    }
  }

  lemma {:induction false} DueAppend(entries: seq<Entry>, x: Entry, now: real, rto: real)
    ensures DueSegments(entries + [x], now, rto)
            == DueSegments(entries, now, rto) + if x.Due(now, rto) then [(x.seqNum, x.data)] else []
  {
    hide Entry.Due;
    var all, last := entries + [x], if x.Due(now, rto) then [(x.seqNum, x.data)] else [];
    if entries == [] {
      assert all[0] == x && all[1..] == [];
      assert last + [] == last && [] + last == last;
    } else {
      var rest := entries[1..];
      assert all[0] == entries[0] && all[1..] == rest + [x];
      DueAppend(rest, x, now, rto);
      var first := if entries[0].Due(now, rto) then [(entries[0].seqNum, entries[0].data)] else [];
      assert first + (DueSegments(rest, now, rto) + last) == (first + DueSegments(rest, now, rto)) + last;
    }
  }

  lemma NothingDue(now: real, rto: real)
    ensures Refresh([], now, rto) == [] && DueSegments([], now, rto) == []
  {}

  lemma NothingRetained(ack: u32, now: real)
    ensures Keep([], ack) == [] && Samples([], ack, now) == []
  {}

  class RetransmitQueue {
    var entries: seq<Entry>
    var rto: real
    var srtt: Option<real>
    var rttvar: real

    ghost function View(): RtxState
      reads this
    {
      RtxState(entries, rto, srtt, rttvar)
    }

    constructor ()
      ensures View() == NewRtxState()
    {
      entries, rto, srtt, rttvar := [], INITIAL_RTO, None, 0.0;
    }

    method Push(seqNum: u32, data: seq<u8>, now: real)
      modifies this
      ensures View() == old(View()).Push(seqNum, data, now)
    {
      if |entries| < RETRANSMIT_QUEUE_MAX {
        entries := entries + [Entry(seqNum, data, now, false)];
      }
    }

    /** The `retain` pass: drops what is acknowledged and collects the samples. */
    method Retain(ack: u32, now: real) returns (rttSamples: seq<real>)
      modifies `entries
      ensures rttSamples == Samples(old(entries), ack, now)
      ensures entries == Keep(old(entries), ack)
    {
      hide Keep, Samples, Entry.FullyAcked, Since;
      rttSamples := [];
      var kept: seq<Entry> := [];
      NothingRetained(ack, now);
      for i := 0 to |entries|
        invariant entries == old(entries)
        invariant kept == Keep(entries[..i], ack)
        invariant rttSamples == Samples(entries[..i], ack, now)
      {
        var e := entries[i];
        KeepAppend(entries[..i], e, ack);
        SamplesAppend(entries[..i], e, ack, now);
        assert entries[..i + 1] == entries[..i] + [e];
        if e.FullyAcked(ack) {
          if !e.retransmitted {
            rttSamples := rttSamples + [Since(now, e.sentAt)];
          }
        } else {
          kept := kept + [e];
        }
      }
      assert entries[..|entries|] == entries;
      entries := kept;
    }

    method AcknowledgeAndSampleRtt(ack: u32, now: real)
      modifies this
      ensures View() == old(View()).Acknowledge(ack, now)
    {
      hide RtxState.UpdateRto, Keep, Samples;
      ghost var target := View().Acknowledge(ack, now);
      var rttSamples := Retain(ack, now);
      assert rttSamples[0..] == rttSamples;
      for i := 0 to |rttSamples|
        invariant View().UpdateAll(rttSamples[i..]) == target
      {
        assert rttSamples[i..][0] == rttSamples[i] && rttSamples[i..][1..] == rttSamples[i + 1..];
        UpdateRto(rttSamples[i]);
      }
      assert rttSamples[|rttSamples|..] == [];
    }

    method UpdateRto(r: real)
      modifies this
      ensures View() == old(View()).UpdateRto(r)
    {
      match srtt {
        case None =>
          srtt := Some(r);
          rttvar := r / 2.0;
        case Some(s) =>
          var diff := if s >= r then s - r else r - s;
          rttvar := (1.0 - BETA) * rttvar + BETA * diff;
          srtt := Some((1.0 - ALPHA) * s + ALPHA * r);
      }
      rto := Clamp(srtt.value + 4.0 * rttvar, MIN_RTO, MAX_RTO);
    }

    method ExpiredSegments(now: real) returns (expired: seq<(u32, seq<u8>)>)
      modifies this
      ensures expired == old(View()).Expired(now)
      ensures View() == old(View()).AfterExpiry(now)
    {
      expired := RefreshDue(now);
      if expired != [] {
        rto := MinReal(rto * 2.0, MAX_RTO);
      }
    }

    /** The `for e in &mut` pass: re-stamps and marks what is due, and returns it. */
    method RefreshDue(now: real) returns (expired: seq<(u32, seq<u8>)>)
      modifies `entries
      ensures expired == DueSegments(old(entries), now, rto)
      ensures entries == Refresh(old(entries), now, rto)
    {
      hide Refresh, DueSegments, Entry.Due;
      expired := [];
      ghost var all := entries;
      var currentRto := rto;
      NothingDue(now, rto);
      for i := 0 to |entries|
        invariant |entries| == |all| && entries[i..] == all[i..]
        invariant entries[..i] == Refresh(all[..i], now, currentRto)
        invariant expired == DueSegments(all[..i], now, currentRto)
      {
        ghost var x := all[i];
        assert entries[i] == entries[i..][0] == x && all[..i + 1] == all[..i] + [x];
        RefreshAppend(all[..i], x, now, currentRto);
        DueAppend(all[..i], x, now, currentRto);
        ghost var done := entries[..i];
        if entries[i].Due(now, currentRto) {
          expired := expired + [(entries[i].seqNum, entries[i].data)];
          entries := entries[i := entries[i].(sentAt := now, retransmitted := true)];
        }
        assert entries[..i + 1] == done + [Refreshed(x, now, currentRto)];
        assert entries[i + 1..] == all[i + 1..];
      }
      assert all[..|all|] == all && entries[..|entries|] == entries;
    }

    method FirstUnacked() returns (r: Option<(u32, seq<u8>)>)
      ensures r == View().FirstUnacked()
    {
      r := if entries == [] then None else Some((entries[0].seqNum, entries[0].data));
    }
  }
}
