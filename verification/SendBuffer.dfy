/** The send ring (send_buffer.rs): accepted bytes that the peer has not acknowledged, with the
    sequence numbers of the first of them (`una`) and of the first unsent one (`nxt`). */
module SendBuffers {
  import opened SeqArith
  import Ring

  /** What the ring holds, with the index arithmetic abstracted away. */
  datatype SendState = SendState(data: seq<u8>, una: u32, nxt: u32) {
    /** How many bytes of `d` fit. */
    function Accepts(d: seq<u8>): (n: nat)
      ensures n <= |d|
    {
      Min(|d|, Max(0, Ring.CAPACITY - |data|))
    }

    function Write(d: seq<u8>): SendState {
      this.(data := data + d[..Accepts(d)])
    }

    function InFlight(): u32 { SeqSub(nxt, una) }

    function NextSegment(maxLen: nat): Option<(u32, seq<u8>)> {
      if InFlight() >= |data| then None
      else
        var n := Min(|data| - InFlight(), maxLen);
        if n == 0 then None else Some((nxt, data[InFlight()..InFlight() + n]))
    }

    function AdvanceNxt(n: nat): SendState {
      this.(nxt := SeqAdd(nxt, n))
    }

    function Acknowledge(ack: u32): SendState {
      var newly := SeqSub(ack, una);
      if newly == 0 || newly > |data| then this
      else this.(data := data[newly..], una := ack)
    }
  }

  function NewSendState(iss: u32): SendState {
    SendState([], SeqAdd(iss, 1), SeqAdd(iss, 1))
  }

  class SendBuffer {
    const buf: array<u8>
    var head: nat
    var len: nat
    var una: u32
    var nxt: u32

    ghost predicate Valid()
      reads this
    {
      buf.Length == Ring.CAPACITY && head < Ring.CAPACITY && len <= Ring.CAPACITY
    }

    ghost function View(): SendState
      reads this, buf
      requires Valid()
    {
      SendState(Ring.Slice(buf[..], head, len), una, nxt)
    }

    constructor (iss: u32)
      ensures Valid() && fresh(buf)
      ensures View() == NewSendState(iss)
    {
      buf := new u8[65536](_ => 0);
      head, len := 0, 0;
      una, nxt := SeqAdd(iss, 1), SeqAdd(iss, 1);
    }

    method Write(data: seq<u8>) returns (n: nat)
      requires Valid()
      modifies this, buf
      ensures Valid()
      ensures n == old(View()).Accepts(data)
      ensures View() == old(View()).Write(data)
    {
      hide Ring.Slice;
      var space := Ring.CAPACITY - len;
      n := Min(|data|, space);
      ghost var held := Ring.Slice(buf[..], head, len);
      var tail := (head + len) % 65536;
      for i := 0 to n
        invariant head == old(head) && len == old(len) && una == old(una) && nxt == old(nxt)
        invariant Ring.Slice(buf[..], head, len + i) == held + data[..i]
      {
        ghost var before := buf[..];
        Ring.SliceAppend(before, head, len + i, data[i]);
        Ring.Wraps(head + len, i);
        var slot := (tail + i) % 65536;
        buf[slot] := data[i];
        assert buf[..] == before[slot := data[i]];
        assert held + data[..i] + [data[i]] == held + data[..i + 1];
      }
      len := len + n;
    }

    method NextSegment(maxLen: nat) returns (r: Option<(u32, seq<u8>)>)
      requires Valid()
      ensures r == View().NextSegment(maxLen)
    {
      var inflight := SeqSub(nxt, una);
      if inflight >= len {
        return None;
      }
      var available := len - inflight;
      var n := Min(available, maxLen);
      if n == 0 {
        return None;
      }
      var start := (head + inflight) % 65536;
      var segment: seq<u8> := [];
      ghost var data := View().data;
      for i := 0 to n
        invariant segment == data[inflight..inflight + i]
      {
        Ring.Wraps(head + inflight, i);
        segment := segment + [buf[(start + i) % 65536]];
      }
      r := Some((nxt, segment));
    }

    method AdvanceNxt(n: nat)
      requires Valid()
      modifies this`nxt
      ensures Valid()
      ensures View() == old(View()).AdvanceNxt(n)
    {
      nxt := SeqAdd(nxt, n);
    }

    method Acknowledge(ack: u32)
      requires Valid()
      modifies this`head, this`len, this`una
      ensures Valid()
      ensures View() == old(View()).Acknowledge(ack)
    {
      var newlyAcked := SeqSub(ack, una);
      if newlyAcked == 0 || newlyAcked > len {
        return;
      }
      Ring.SliceDrop(buf[..], head, len, newlyAcked);
      head := (head + newlyAcked) % 65536;
      len := len - newlyAcked;
      una := ack;
    }
  }
}
