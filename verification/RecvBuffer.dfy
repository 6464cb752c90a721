/** The receive ring with its out-of-order map (recv_buffer.rs). */
module RecvBuffers {
  import opened SeqArith
  import Ring

  lemma {:induction false} HasMinimum(keys: set<u32>, x: u32)
    requires x in keys
    ensures exists k :: k in keys && forall j :: j in keys ==> k <= j
    decreases x
  {
    if y :| y in keys && y < x {
      HasMinimum(keys, y);
    }
  }

  /** The first key of a BTreeMap. */
  function MinKey(keys: set<u32>): (k: u32)
    requires keys != {}
    ensures k in keys && forall j :: j in keys ==> k <= j
  {
    var x: u32 :| x in keys;
    HasMinimum(keys, x);
    var k :| k in keys && forall j :: j in keys ==> k <= j;
    k
  }

  /** Committed bytes not yet read, the next expected sequence number, and the staged segments. */
  datatype RecvState = RecvState(data: seq<u8>, nxt: u32, ooo: map<u32, seq<u8>>) {
    function Space(): nat { Max(0, Ring.CAPACITY - |data|) }

    /** Appends what fits and drops the rest. */
    function Commit(d: seq<u8>): RecvState {
      var n := Min(|d|, Space());
      this.(data := data + d[..n], nxt := SeqAdd(nxt, n))
    }

    /** Commits staged segments while the numerically smallest key is the expected one. */
    function Drain(): RecvState
      decreases |ooo.Keys|
    {
      if ooo == map[] || MinKey(ooo.Keys) != nxt then this
      else
        assert (ooo - {nxt}).Keys == ooo.Keys - {nxt};
        this.(ooo := ooo - {nxt}).Commit(ooo[nxt]).Drain()
    }

    /** How many leading bytes of a segment at `s` have been committed before. */
    function Trim(s: u32): nat { if SeqLt(s, nxt) then SeqSub(nxt, s) else 0 }

    function Insert(s: u32, d: seq<u8>): RecvState {
      if Trim(s) >= |d| then this
      else
        var s', d' := SeqAdd(s, Trim(s)), d[Trim(s)..];
        if s' == nxt then Commit(d').Drain()
        else if s' in ooo then this
        else this.(ooo := ooo[s' := d'])
    }

    function Read(n: nat): RecvState
      requires n <= |data|
    {
      this.(data := data[n..])
    }

    function Window(): u16 { Min(Space(), 65535) }
  }

  function NewRecvState(irs: u32): RecvState {
    RecvState([], SeqAdd(irs, 1), map[])
  }

  class RecvBuffer {
    const buf: array<u8>
    var head: nat
    var len: nat
    var nxt: u32
    var ooo: map<u32, seq<u8>>

    ghost predicate Valid()
      reads this
    {
      buf.Length == Ring.CAPACITY && head < Ring.CAPACITY && len <= Ring.CAPACITY
    }

    ghost function View(): RecvState
      reads this, buf
      requires Valid()
    {
      RecvState(Ring.Slice(buf[..], head, len), nxt, ooo)
    }

    constructor (irs: u32)
      ensures Valid() && fresh(buf)
      ensures View() == NewRecvState(irs)
    {
      buf := new u8[65536](_ => 0);
      head, len := 0, 0;
      nxt := SeqAdd(irs, 1);
      ooo := map[];
    }

    method Insert(s: u32, data: seq<u8>)
      requires Valid()
      modifies this, buf
      ensures Valid()
      ensures View() == old(View()).Insert(s, data)
    {
      if data == [] {
        return;
      }
      var trim := 0;
      if SeqLt(s, nxt) {
        var past := SeqSub(nxt, s);
        if past >= |data| {
          return;
        }
        trim := past;
      }
      var effectiveSeq := SeqAdd(s, trim);
      var effectiveData := data[trim..];
      if effectiveSeq == nxt {
        Commit(effectiveData);
        DrainOoo();
      } else if effectiveSeq !in ooo {
        ooo := ooo[effectiveSeq := effectiveData];
      }
    }

    method Commit(data: seq<u8>)
      requires Valid()
      modifies this`len, this`nxt, buf
      ensures Valid()
      ensures View() == old(View()).Commit(data)
    {
      hide Ring.Slice;
      var space := Ring.CAPACITY - len;
      var n := Min(|data|, space);
      ghost var held := Ring.Slice(buf[..], head, len);
      var tail := (head + len) % 65536;
      for i := 0 to n
        invariant len == old(len) && nxt == old(nxt)
        invariant Ring.Slice(buf[..], head, len + i) == held + data[..i]
      {
        ghost var before := buf[..];
        Ring.SliceAppend(before, head, len + i, data[i]);
        Ring.Wraps(head + len, i);
        var slot := (tail + i) % 65536;
        buf[slot] := data[i];
        assert buf[..] == before[slot := data[i]];
        assert held + data[..i] + [data[i]] == held + data[..i + 1];
      }
      len := len + n;
      nxt := SeqAdd(nxt, n);
    }

    method DrainOoo()
      requires Valid()
      modifies this`len, this`nxt, this`ooo, buf
      ensures Valid()
      ensures View() == old(View()).Drain()
    {
      while ooo != map[]
        invariant Valid()
        invariant View().Drain() == old(View()).Drain()
        decreases |ooo.Keys|
      {
        var key := MinKey(ooo.Keys);
        if key != nxt {
          break;
        }
        var data := ooo[key];
        ghost var keys := ooo.Keys;
        ooo := ooo - {key};
        assert ooo.Keys == keys - {key};
        Commit(data);
      }
    }

    /** Fills the front of `out`; the source's slice argument. */
    method Read(out: array<u8>) returns (n: nat)
      requires Valid() && out != buf
      modifies this`head, this`len, out
      ensures Valid()
      ensures n == Min(out.Length, |old(View()).data|)
      ensures out[..n] == old(View()).data[..n] && out[n..] == old(out[n..])
      ensures View() == old(View()).Read(n)
    {
      n := Min(out.Length, len);
      for i := 0 to n
        invariant head == old(head) && len == old(len)
        invariant out[..i] == old(View()).data[..i]
        invariant forall k :: i <= k < out.Length ==> out[k] == old(out[k])
      {
        out[i] := buf[(head + i) % 65536];
        assert out[..i + 1] == out[..i] + [out[i]];
      }
      Ring.SliceDrop(buf[..], head, len, n);
      head := (head + n) % 65536;
      len := len - n;
    }

    function Window(): (w: u16)
      reads this, buf
      requires Valid()
      ensures w == View().Window()
    {
      Min(Ring.CAPACITY - len, 65535)
    }
  }
}
