/** TCP segments on the wire (header.rs). */
module TcpHeaders {
  import opened SeqArith
  import opened Wire
  import opened Checksums
  import Ipv4

  const TCP_MIN_HEADER_LEN: nat := 20
  const RECV_WINDOW: u16 := 65535

  datatype TcpFlags = TcpFlags(urg: bool, ack: bool, psh: bool, rst: bool, syn: bool, fin: bool) {
    function ToByte(): u8 {
      (if urg then 0x20 else 0) + (if ack then 0x10 else 0) + (if psh then 0x08 else 0)
      + (if rst then 0x04 else 0) + (if syn then 0x02 else 0) + (if fin then 0x01 else 0)
    }
  }

  const NO_FLAGS: TcpFlags := TcpFlags(false, false, false, false, false, false)

  /** Tests single bits of the flag byte. */
  function FlagsFromByte(b: u8): TcpFlags {
    TcpFlags(b / 0x20 % 2 == 1, b / 0x10 % 2 == 1, b / 0x08 % 2 == 1,
             b / 0x04 % 2 == 1, b / 0x02 % 2 == 1, b % 2 == 1)
  }

  datatype TcpHeader = TcpHeader(
    srcPort: u16, dstPort: u16, seqNum: u32, ackNum: u32, dataOffset: u8,
    flags: TcpFlags, window: u16, checksum: u16, urgentPtr: u16)

  datatype TcpSegment = TcpSegment(header: TcpHeader, payload: seq<u8>)

  /** The sum of the pseudo-header words of section 3.1 of RFC 793. */
  function PseudoSum(src: Ip, dst: Ip, tcpLen: nat): nat {
    FromBe16(src[0], src[1]) + FromBe16(src[2], src[3])
    + FromBe16(dst[0], dst[1]) + FromBe16(dst[2], dst[3])
    + Ipv4.PROTO_TCP + tcpLen
  }

  function SegmentSum(seg: seq<u8>, src: Ip, dst: Ip): (s: nat)
    ensures s > 0
  {
    PseudoSum(src, dst, |seg|) + WordSum(seg)
  }

  /** `tcp_checksum`, which streams the pseudo-header into the accumulator. */
  method TcpChecksum(seg: seq<u8>, src: Ip, dst: Ip) returns (c: u16)
    requires |seg| <= 131060
    ensures c == ChecksumOf(SegmentSum(seg, src, dst))
  {
    WordSumBound(seg);
    var sum: u32 := 0;
    sum := sum + FromBe16(src[0], src[1]);
    sum := sum + FromBe16(src[2], src[3]);
    sum := sum + FromBe16(dst[0], dst[1]);
    sum := sum + FromBe16(dst[2], dst[3]);
    sum := sum + Ipv4.PROTO_TCP;
    sum := sum + |seg|;
    assert sum == PseudoSum(src, dst, |seg|) <= 4 * 65535 + 6 + |seg|;
    var i := 0;
    while i + 1 < |seg|
      invariant 0 <= i <= |seg| && i % 2 == 0
      invariant sum + WordSum(seg[i..]) == SegmentSum(seg, src, dst)
    {
      assert seg[i..][2..] == seg[i + 2..];
      sum := sum + FromBe16(seg[i], seg[i + 1]);
      i := i + 2;
    }
    if i < |seg| {
      var hi: int := seg[i];
      sum := sum + hi * 256;
    }
    var folded := Fold(sum);
    c := 65535 - folded;
  }

  /** The two separately written loops agree: the streamed checksum is the plain checksum of the
      12-byte pseudo-header followed by the segment. */
  lemma StreamedChecksumIsPlain(seg: seq<u8>, src: Ip, dst: Ip)
    requires |seg| <= 0xFFFF
    ensures ChecksumOf(SegmentSum(seg, src, dst))
            == ChecksumOf(WordSum(src + dst + [0, 6] + Be16(|seg|) + seg))
  {
    hide WordSum;
    var tail := [0, Ipv4.PROTO_TCP] + Be16(|seg|);
    WordSumAppend(src + dst + tail, seg);
    WordSumAppend(src + dst, tail);
    WordSumAppend(src, dst);
    FourBytes(src);
    FourBytes(dst);
    FourBytes(tail);
    Be16RoundTrip(|seg|);
    assert src + dst + [0, Ipv4.PROTO_TCP] + Be16(|seg|) == src + dst + tail;
    assert tail == [0, Ipv4.PROTO_TCP, Be16(|seg|)[0], Be16(|seg|)[1]];
  }

  lemma FourBytes(d: seq<u8>)
    requires |d| == 4
    ensures WordSum(d) == FromBe16(d[0], d[1]) + FromBe16(d[2], d[3])
  {
    var t := d[2..];
    assert t[2..] == [] && WordSum(t) == FromBe16(t[0], t[1]);
  }

  function Parse(raw: seq<u8>, src: Ip, dst: Ip): Result<TcpSegment> {
    if |raw| < TCP_MIN_HEADER_LEN then Err(TcpHeaderTooShort(|raw|, TCP_MIN_HEADER_LEN))
    else
      var dataOffset := raw[12] / 16;
      if dataOffset < 5 then Err(TcpDataOffsetTooSmall(dataOffset))
      else
        var headerLen := dataOffset * 4;
        if |raw| < headerLen then Err(TcpHeaderTooShort(|raw|, headerLen))
        else
          var stored := FromBe16(raw[16], raw[17]);
          var computed := ChecksumOf(SegmentSum(raw, src, dst));
          if computed != 0 then Err(TcpChecksumMismatch(computed, stored))
          else
            Ok(TcpSegment(
                 TcpHeader(FromBe16(raw[0], raw[1]), FromBe16(raw[2], raw[3]),
                           FromBe32(raw[4], raw[5], raw[6], raw[7]),
                           FromBe32(raw[8], raw[9], raw[10], raw[11]),
                           dataOffset, FlagsFromByte(raw[13]), FromBe16(raw[14], raw[15]),
                           stored, FromBe16(raw[18], raw[19])),
                 raw[headerLen..]))
  }

  /** What `SegmentBuilder` collects before `build`. */
  datatype Builder = Builder(
    srcIp: Ip, dstIp: Ip, srcPort: u16, dstPort: u16,
    seqNum: u32, ackNum: u32, flags: TcpFlags, window: u16, payload: seq<u8>)
  {
    /** The header up to the checksum field. */
    function Front(): (r: seq<u8>)
      ensures |r| == 16
    {
      Be16(srcPort) + Be16(dstPort) + Be32(seqNum) + Be32(ackNum)
      + [0x50, flags.ToByte()] + Be16(window)
    }

    /** The header and payload with a given checksum field. */
    function Bytes(csum: u16): (r: seq<u8>)
      ensures |r| == 20 + |payload|
    {
      Front() + Be16(csum) + [0, 0] + payload
    }

    function Csum(): u16 { ChecksumOf(SegmentSum(Bytes(0), srcIp, dstIp)) }

    /** The bytes `build` produces. */
    function Encode(): (r: seq<u8>) { Bytes(Csum()) }

    /** The segment a peer that parses those bytes sees. */
    function Received(): TcpSegment {
      TcpSegment(TcpHeader(srcPort, dstPort, seqNum, ackNum, 5, flags, window, Csum(), 0), payload)
    }
  }

  /** `SegmentBuilder::new`; the setters are record updates. */
  function NewBuilder(srcIp: Ip, dstIp: Ip, srcPort: u16, dstPort: u16): Builder {
    Builder(srcIp, dstIp, srcPort, dstPort, 0, 0, NO_FLAGS, RECV_WINDOW, [])
  }

  /** The field stores of `build` before the checksum. */
  method FillFront(buf: array<u8>, b: Builder)
    requires buf.Length >= TCP_MIN_HEADER_LEN
    modifies buf
    ensures buf[..16] == b.Front()
    ensures forall k :: 16 <= k < buf.Length ==> buf[k] == old(buf[k])
  {
    CopyFromSlice(buf, 0, Be16(b.srcPort));
    CopyFromSlice(buf, 2, Be16(b.dstPort));
    CopyFromSlice(buf, 4, Be32(b.seqNum));
    CopyFromSlice(buf, 8, Be32(b.ackNum));
    CopyFromSlice(buf, 12, [0x50, b.flags.ToByte()]);
    CopyFromSlice(buf, 14, Be16(b.window));
  }

  /** `build`: fills a zeroed buffer, then patches the checksum over it. */
  method Build(b: Builder) returns (buf: array<u8>)
    requires |b.payload| <= 131040
    ensures fresh(buf) && buf[..] == b.Encode()
  {
    var total := TCP_MIN_HEADER_LEN + |b.payload|;
    buf := new u8[total](_ => 0);
    FillFront(buf, b);
    assert buf[16..20] == [0, 0, 0, 0];
    CopyFromSlice(buf, TCP_MIN_HEADER_LEN, b.payload);
    assert buf[..total] == b.Bytes(0);
    assert buf[..] == buf[..total];
    var csum := TcpChecksum(buf[..], b.srcIp, b.dstIp);
    ghost var front, rest := buf[..16], buf[18..];
    CopyFromSlice(buf, 16, Be16(csum));
    assert buf[..] == buf[..18] + buf[18..] == front + Be16(csum) + rest;
    assert rest == [0, 0] + b.payload;
  }

  lemma BitsAreUnique(b: int, u: int, a: int, p: int, r: int, s: int, f: int)
    requires 0 <= u <= 1 && 0 <= a <= 1 && 0 <= p <= 1 && 0 <= r <= 1 && 0 <= s <= 1 && 0 <= f <= 1
    requires b == 32 * u + 16 * a + 8 * p + 4 * r + 2 * s + f
    ensures b / 32 == u && b / 16 == 2 * u + a && b / 8 == 4 * u + 2 * a + p
    ensures b / 4 == 8 * u + 4 * a + 2 * p + r && b / 2 == 16 * u + 8 * a + 4 * p + 2 * r + s
  {}

  lemma FlagsRoundTrip(f: TcpFlags)
    ensures FlagsFromByte(f.ToByte()) == f
  {
    BitsAreUnique(f.ToByte(), if f.urg then 1 else 0, if f.ack then 1 else 0,
                  if f.psh then 1 else 0, if f.rst then 1 else 0, if f.syn then 1 else 0,
                  if f.fin then 1 else 0);
  }

  lemma HalveTwice(b: u8, k: int)
    requires k in {2, 4, 8, 16, 32}
    ensures b / k == 2 * (b / (2 * k)) + b / k % 2
  {}

  lemma BitsOfByte(b: u8)
    ensures b % 0x40 == 0x20 * (b / 0x20 % 2) + 0x10 * (b / 0x10 % 2) + 0x08 * (b / 0x08 % 2)
                        + 0x04 * (b / 0x04 % 2) + 0x02 * (b / 0x02 % 2) + b % 2
  {
    HalveTwice(b, 2);
    HalveTwice(b, 4);
    HalveTwice(b, 8);
    HalveTwice(b, 16);
    HalveTwice(b, 32);
  }

  /** In the other direction the two reserved high bits are lost and nothing else. */
  lemma FlagsByteRoundTrip(b: u8)
    ensures FlagsFromByte(b).ToByte() == b % 0x40
  {
    BitsOfByte(b);
  }

  /** The checksum field enters the sum as itself. */
  lemma BytesSum(b: Builder, csum: u16)
    ensures SegmentSum(b.Bytes(csum), b.srcIp, b.dstIp)
            == SegmentSum(b.Bytes(0), b.srcIp, b.dstIp) + csum
  {
    var z := b.Bytes(0);
    var one := z[16 := csum / 256];
    assert b.Bytes(csum) == one[17 := csum % 256];
    WordSumUpdate(z, 16, csum / 256);
    WordSumUpdate(one, 17, csum % 256);
  }

  /** Every built segment, of any payload length, verifies and parses back to what was built. */
  lemma ParseEncode(b: Builder)
    ensures ChecksumOf(SegmentSum(b.Encode(), b.srcIp, b.dstIp)) == 0
    ensures Parse(b.Encode(), b.srcIp, b.dstIp) == Ok(b.Received())
  {
    var raw := b.Encode();
    BytesSum(b, b.Csum());
    ChecksumCompletes(SegmentSum(b.Bytes(0), b.srcIp, b.dstIp));
    Be16RoundTrip(b.srcPort);
    Be16RoundTrip(b.dstPort);
    Be16RoundTrip(b.window);
    Be16RoundTrip(b.Csum());
    Be32RoundTrip(b.seqNum);
    Be32RoundTrip(b.ackNum);
    FlagsRoundTrip(b.flags);
    assert raw[4..8] == Be32(b.seqNum) && raw[8..12] == Be32(b.ackNum);
    assert raw[20..] == b.payload;
  }

  /** The builder that an accepted segment without options could have come from. */
  function Rebuilt(seg: TcpSegment, src: Ip, dst: Ip): Builder {
    var h := seg.header;
    Builder(src, dst, h.srcPort, h.dstPort, h.seqNum, h.ackNum, h.flags, h.window, seg.payload)
  }

  lemma RebuiltBytes(raw: seq<u8>, src: Ip, dst: Ip)
    requires Parse(raw, src, dst).Ok?
    requires raw[12] == 0x50 && raw[13] < 0x40 && raw[18..20] == [0, 0]
    ensures var seg := Parse(raw, src, dst).value;
            raw == Rebuilt(seg, src, dst).Bytes(seg.header.checksum)
  {
    hide WordSum, ChecksumOf, FromBe16, FromBe32, Be16, Be32, FlagsFromByte, Builder.Csum;
    hide SegmentSum;
    var b := Rebuilt(Parse(raw, src, dst).value, src, dst);
    Be16Inverse(raw[0], raw[1]);
    Be16Inverse(raw[2], raw[3]);
    Be32Inverse(raw[4], raw[5], raw[6], raw[7]);
    Be32Inverse(raw[8], raw[9], raw[10], raw[11]);
    FlagsByteRoundTrip(raw[13]);
    Be16Inverse(raw[14], raw[15]);
    Be16Inverse(raw[16], raw[17]);
    assert raw[..16] == b.Front();
    assert raw == raw[..16] + raw[16..18] + raw[18..20] + raw[20..];
  }

  /** Building undoes parsing: an accepted segment with the plain 20-byte header is byte for byte
      what the builder makes of its fields - unless its checksum is 0xFFFF where the builder
      writes 0. */
  lemma EncodeParse(raw: seq<u8>, src: Ip, dst: Ip)
    requires Parse(raw, src, dst).Ok?
    requires raw[12] == 0x50 && raw[13] < 0x40 && raw[18..20] == [0, 0]
    ensures var seg := Parse(raw, src, dst).value;
            raw == Rebuilt(seg, src, dst).Encode()
            || (seg.header.checksum == 0xFFFF && Rebuilt(seg, src, dst).Csum() == 0)
  {
    var seg := Parse(raw, src, dst).value;
    var b := Rebuilt(seg, src, dst);
    RebuiltBytes(raw, src, dst);
    BytesSum(b, seg.header.checksum);
    ChecksumUnique(SegmentSum(b.Bytes(0), src, dst), seg.header.checksum);
  }

  /** Changing any one byte of an accepted segment makes the parser reject it. */
  lemma CorruptionRejected(raw: seq<u8>, src: Ip, dst: Ip, i: nat, x: u8)
    requires Parse(raw, src, dst).Ok?
    requires i < |raw| && x != raw[i]
    ensures Parse(raw[i := x], src, dst).Err?
  {
    WordSumUpdate(raw, i, x);
    ChecksumDetects(SegmentSum(raw, src, dst), SegmentSum(raw[i := x], src, dst), raw[i], x,
                    if i % 2 == 0 then 256 else 1);
  }
}
