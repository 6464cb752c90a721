/** The wire formats byte by byte (section 3.1 of RFC 791 and of RFC 793), options included: what the
    parsers accept is exactly what is laid out here and verifies, and they read back every field. */
module Layouts {
  import opened SeqArith
  import opened Wire
  import opened Checksums
  import opened TcpHeaders
  import Ipv4
  import Ethernet

  /** A number as two or four bytes, the high one first. */
  function Two(x: u16): (r: seq<u8>)
    ensures |r| == 2
  {
    [x / 256, x % 256]
  }

  function Value(high: u8, low: u8): u16 { high * 256 + low }

  function Four(x: u32): (r: seq<u8>)
    ensures |r| == 4
  {
    [x / 16777216, x / 65536 % 256, x / 256 % 256, x % 256]
  }

  /** A flag byte; the two high bits are reserved. */
  function FlagByte(f: TcpFlags, reserved: nat): (b: u8)
    requires reserved < 4
  {
    64 * reserved + (if f.urg then 32 else 0) + (if f.ack then 16 else 0) + (if f.psh then 8 else 0)
    + (if f.rst then 4 else 0) + (if f.syn then 2 else 0) + (if f.fin then 1 else 0)
  }

  /** A TCP segment on the wire: the fields of the header, the six reserved bits, the options, the
      payload.  The fields are those of `h`, the data offset and the checksum included. */
  function TcpBytes(h: TcpHeader, low: nat, high: nat, options: seq<u8>, payload: seq<u8>): seq<u8>
    requires h.dataOffset < 16 && low < 16 && high < 4
  {
    Two(h.srcPort) + Two(h.dstPort) + Four(h.seqNum) + Four(h.ackNum)
    + [16 * h.dataOffset + low, FlagByte(h.flags, high)]
    + Two(h.window) + Two(h.checksum) + Two(h.urgentPtr) + options + payload
  }

  lemma TwoIs(x: u16)
    ensures Two(x) == Be16(x) && FromBe16(Two(x)[0], Two(x)[1]) == x
  {}

  lemma FourIs(x: u32)
    ensures Four(x) == Be32(x)
    ensures var b := Four(x); FromBe32(b[0], b[1], b[2], b[3]) == x
  {
    Be32RoundTrip(x);
  }

  lemma BitStays(b: nat, k: nat)
    requires k in {1, 2, 4, 8, 16, 32}
    ensures (b + 64) / k % 2 == b / k % 2
  {
    assert (b + 64) / k == b / k + 2 * (32 / k);
  }

  lemma ReservedBit(b: u8)
    requires b < 192
    ensures FlagsFromByte(b + 64) == FlagsFromByte(b)
  {
    BitStays(b, 1);
    BitStays(b, 2);
    BitStays(b, 4);
    BitStays(b, 8);
    BitStays(b, 16);
    BitStays(b, 32);
  }

  lemma {:induction false} ReservedBits(b: u8, reserved: nat)
    requires reserved < 4 && b < 64
    ensures FlagsFromByte(b + 64 * reserved) == FlagsFromByte(b)
  {
    hide FlagsFromByte;
    if reserved > 0 {
      ReservedBits(b, reserved - 1);
      ReservedBit(b + 64 * (reserved - 1));
    }
  }

  lemma FlagByteIs(f: TcpFlags, reserved: nat)
    requires reserved < 4
    ensures FlagByte(f, reserved) == f.ToByte() + 64 * reserved
    ensures FlagsFromByte(FlagByte(f, reserved)) == f
  {
    hide FlagsFromByte;
    FlagsRoundTrip(f);
    ReservedBits(f.ToByte(), reserved);
  }

  /** The header bytes of a segment. */
  lemma TcpBytesAt(h: TcpHeader, low: nat, high: nat, options: seq<u8>, payload: seq<u8>)
    requires 5 <= h.dataOffset < 16 && low < 16 && high < 4 && |options| == 4 * h.dataOffset - 20
    ensures var raw := TcpBytes(h, low, high, options, payload);
            && |raw| == 4 * h.dataOffset + |payload|
            && raw[0..2] == Two(h.srcPort) && raw[2..4] == Two(h.dstPort)
            && raw[4..8] == Four(h.seqNum) && raw[8..12] == Four(h.ackNum)
            && raw[12] == 16 * h.dataOffset + low && raw[13] == FlagByte(h.flags, high)
            && raw[14..16] == Two(h.window) && raw[16..18] == Two(h.checksum)
            && raw[18..20] == Two(h.urgentPtr)
            && raw[20..4 * h.dataOffset] == options && raw[4 * h.dataOffset..] == payload
  {
    hide Two, Four, FlagByte;
  }

  /** The sum over pseudo-header and segment is a positive multiple of 65535. */
  predicate TcpVerifies(raw: seq<u8>, src: Ip, dst: Ip) { SegmentSum(raw, src, dst) % 65535 == 0 }

  lemma TcpVerifiesIff(raw: seq<u8>, src: Ip, dst: Ip)
    ensures TcpVerifies(raw, src, dst) <==> ChecksumOf(SegmentSum(raw, src, dst)) == 0
  {
    ChecksumZeroIff(SegmentSum(raw, src, dst));
  }

  /** Exactly which segments are accepted, and why the others are not. */
  lemma TcpParseAccepts(raw: seq<u8>, src: Ip, dst: Ip)
    ensures Parse(raw, src, dst).Ok? <==>
              && |raw| >= 20 && 20 <= 4 * (raw[12] / 16) <= |raw|
              && TcpVerifies(raw, src, dst)
    ensures var r := Parse(raw, src, dst);
            && (|raw| < 20 ==> r == Err(TcpHeaderTooShort(|raw|, 20)))
            && (|raw| >= 20 && raw[12] / 16 < 5 ==> r == Err(TcpDataOffsetTooSmall(raw[12] / 16)))
            && (|raw| >= 20 && raw[12] / 16 >= 5 && |raw| < 4 * (raw[12] / 16) ==>
                  r == Err(TcpHeaderTooShort(|raw|, 4 * (raw[12] / 16))))
            && (|raw| >= 20 && 20 <= 4 * (raw[12] / 16) <= |raw| && !TcpVerifies(raw, src, dst) ==>
                  r == Err(TcpChecksumMismatch(ChecksumOf(SegmentSum(raw, src, dst)),
                                               Value(raw[16], raw[17]))))
  {
    hide SegmentSum, ChecksumOf, FlagsFromByte, TcpVerifies;
    TcpVerifiesIff(raw, src, dst);
  }

  /** Every segment laid out so that it verifies is read back field by field: for any header fields, any
      reserved bits, any options of 4k <= 40 bytes and any payload, which starts behind the options. */
  lemma TcpParseReads(h: TcpHeader, low: nat, high: nat, options: seq<u8>, payload: seq<u8>,
                      src: Ip, dst: Ip)
    requires 5 <= h.dataOffset < 16 && low < 16 && high < 4 && |options| == 4 * h.dataOffset - 20
    ensures var raw := TcpBytes(h, low, high, options, payload);
            if TcpVerifies(raw, src, dst) then Parse(raw, src, dst) == Ok(TcpSegment(h, payload))
            else Parse(raw, src, dst).Err?
  {
    hide SegmentSum, ChecksumOf, TcpVerifies, TcpBytes, Two, Four, FlagByte, FlagsFromByte;
    hide FromBe16, FromBe32;
    var raw := TcpBytes(h, low, high, options, payload);
    TcpBytesAt(h, low, high, options, payload);
    TcpVerifiesIff(raw, src, dst);
    FlagByteIs(h.flags, high);
    TwoIs(h.srcPort);
    TwoIs(h.dstPort);
    FourIs(h.seqNum);
    FourIs(h.ackNum);
    TwoIs(h.window);
    TwoIs(h.checksum);
    TwoIs(h.urgentPtr);
    forall i | 0 <= i < 2
      ensures raw[i] == Two(h.srcPort)[i] && raw[2 + i] == Two(h.dstPort)[i]
      ensures raw[14 + i] == Two(h.window)[i] && raw[16 + i] == Two(h.checksum)[i]
      ensures raw[18 + i] == Two(h.urgentPtr)[i]
    {
      assert raw[0..2][i] == raw[i] && raw[2..4][i] == raw[2 + i] && raw[14..16][i] == raw[14 + i];
      assert raw[16..18][i] == raw[16 + i] && raw[18..20][i] == raw[18 + i];
    }
    forall i | 0 <= i < 4
      ensures raw[4 + i] == Four(h.seqNum)[i] && raw[8 + i] == Four(h.ackNum)[i]
    {
      assert raw[4..8][i] == raw[4 + i] && raw[8..12][i] == raw[8 + i];
    }
  }

  /** The checksum field enters the sum as itself. */
  lemma ChecksumFieldAdds(h: TcpHeader, low: nat, high: nat, options: seq<u8>, payload: seq<u8>,
                          src: Ip, dst: Ip)
    requires 5 <= h.dataOffset < 16 && low < 16 && high < 4 && |options| == 4 * h.dataOffset - 20
    ensures SegmentSum(TcpBytes(h, low, high, options, payload), src, dst)
            == SegmentSum(TcpBytes(h.(checksum := 0), low, high, options, payload), src, dst)
               + h.checksum
  {
    hide FlagByte, Four;
    var c: int := h.checksum;
    var z := TcpBytes(h.(checksum := 0), low, high, options, payload);
    var one := z[16 := c / 256];
    assert TcpBytes(h, low, high, options, payload) == one[17 := c % 256];
    WordSumUpdate(z, 16, c / 256);
    WordSumUpdate(one, 17, c % 256);
  }

  /** So for any fields, reserved bits, options and payload there is a checksum with which the segment
      is accepted, the one that `build` would compute; no other is, except that 0xFFFF stands in for
      0. */
  lemma TcpCompletes(h: TcpHeader, low: nat, high: nat, options: seq<u8>, payload: seq<u8>,
                     src: Ip, dst: Ip)
    requires 5 <= h.dataOffset < 16 && low < 16 && high < 4 && |options| == 4 * h.dataOffset - 20
    ensures var zeroed := TcpBytes(h.(checksum := 0), low, high, options, payload);
            var c := ChecksumOf(SegmentSum(zeroed, src, dst));
            var full := h.(checksum := c);
            && Parse(TcpBytes(full, low, high, options, payload), src, dst)
               == Ok(TcpSegment(full, payload))
            && (Parse(TcpBytes(h, low, high, options, payload), src, dst).Ok? <==>
                  h.checksum == c || (h.checksum == 0xFFFF && c == 0))
  {
    hide SegmentSum, ChecksumOf, TcpBytes, Parse;
    var s := SegmentSum(TcpBytes(h.(checksum := 0), low, high, options, payload), src, dst);
    var c := ChecksumOf(s);
    var full := h.(checksum := c);
    assert full.(checksum := 0) == h.(checksum := 0);
    ChecksumFieldAdds(full, low, high, options, payload, src, dst);
    ChecksumFieldAdds(h, low, high, options, payload, src, dst);
    TcpParseReads(full, low, high, options, payload, src, dst);
    TcpParseReads(h, low, high, options, payload, src, dst);
    ChecksumZeroIff(s + c);
    ChecksumZeroIff(s + h.checksum);
    ChecksumCompletes(s);
    if ChecksumOf(s + h.checksum) == 0 { ChecksumUnique(s, h.checksum); }
    if h.checksum == 0xFFFF && c == 0 { ChecksumZeroIff(s); }
  }

  /** And nothing else is accepted: an accepted segment is its own fields, reserved bits, options and
      payload laid out again. */
  lemma TcpParsedIsLaidOut(raw: seq<u8>, src: Ip, dst: Ip)
    requires Parse(raw, src, dst).Ok?
    ensures var seg := Parse(raw, src, dst).value;
            var n := 4 * seg.header.dataOffset;
            && 20 <= n <= 60 && n <= |raw| && seg.payload == raw[n..]
            && raw == TcpBytes(seg.header, raw[12] % 16, raw[13] / 64, raw[20..n], seg.payload)
  {
    hide SegmentSum, ChecksumOf, FlagsFromByte, FlagByte, FromBe16, FromBe32, Two, Four;
    var seg := Parse(raw, src, dst).value;
    var h, n := seg.header, 4 * seg.header.dataOffset;
    Word(raw, 0);
    Word(raw, 2);
    DoubleWord(raw, 4);
    DoubleWord(raw, 8);
    Word(raw, 14);
    Word(raw, 16);
    Word(raw, 18);
    FlagByteIs(h.flags, raw[13] / 64);
    FlagsByteRoundTrip(raw[13]);
    Pieces(raw, n);
  }

  lemma Word(raw: seq<u8>, i: nat)
    requires i + 2 <= |raw|
    ensures Two(FromBe16(raw[i], raw[i + 1])) == raw[i..i + 2]
  {
    Be16Inverse(raw[i], raw[i + 1]);
  }

  lemma DoubleWord(raw: seq<u8>, i: nat)
    requires i + 4 <= |raw|
    ensures Four(FromBe32(raw[i], raw[i + 1], raw[i + 2], raw[i + 3])) == raw[i..i + 4]
  {
    Be32Inverse(raw[i], raw[i + 1], raw[i + 2], raw[i + 3]);
    FourIs(FromBe32(raw[i], raw[i + 1], raw[i + 2], raw[i + 3]));
  }

  lemma Pieces(raw: seq<u8>, n: nat)
    requires 20 <= n <= |raw|
    ensures raw == raw[0..2] + raw[2..4] + raw[4..8] + raw[8..12] + [raw[12], raw[13]] + raw[14..16]
                   + raw[16..18] + raw[18..20] + raw[20..n] + raw[n..]
  {}

  /** What the builder makes is such a layout without options: offset 5, no reserved bits, no urgent
      pointer. */
  lemma BuiltIsLaidOut(b: Builder)
    ensures b.Encode() == TcpBytes(b.Received().header, 0, 0, [], b.payload)
    ensures b.Received().header.dataOffset == 5
  {
    hide SegmentSum, ChecksumOf, FlagByte, Two, Four, Be16, Be32, Builder.Csum, FlagsFromByte;
    hide TcpFlags.ToByte, FromBe16, FromBe32;
    var head := b.Front() + Be16(b.Csum()) + [0, 0];
    assert head + [] == head;
    FlagByteIs(b.flags, 0);
    TwoIs(b.srcPort);
    TwoIs(b.dstPort);
    FourIs(b.seqNum);
    FourIs(b.ackNum);
    TwoIs(b.window);
    TwoIs(b.Csum());
    TwoIs(0);
    ZeroIs();
  }

  lemma ZeroIs()
    ensures Two(0) == [0, 0]
  {}

  /** The fixed part of an IPv4 header fits its fields. */
  predicate Ipv4Fits(h: Ipv4.Ipv4Header, version: nat, ecn: nat, options: seq<u8>) {
    && 5 <= h.ihl < 16 && version < 16 && h.dscp < 64 && ecn < 4 && h.flags < 8
    && h.fragOffset < 8192 && |options| == 4 * h.ihl - 20
  }

  /** An IPv4 header on the wire: its fields, the version, the two congestion bits, the options. */
  function Ipv4Bytes(h: Ipv4.Ipv4Header, version: nat, ecn: nat, options: seq<u8>): (r: seq<u8>)
    requires Ipv4Fits(h, version, ecn, options)
    ensures |r| == 4 * h.ihl
  {
    [16 * version + h.ihl, 4 * h.dscp + ecn] + Two(h.totalLen) + Two(h.id)
    + [32 * h.flags + h.fragOffset / 256, h.fragOffset % 256, h.ttl, h.protocol] + Two(h.checksum)
    + h.src + h.dst + options
  }

  lemma Ipv4BytesAt(h: Ipv4.Ipv4Header, version: nat, ecn: nat, options: seq<u8>, rest: seq<u8>)
    requires Ipv4Fits(h, version, ecn, options)
    ensures var raw := Ipv4Bytes(h, version, ecn, options) + rest;
            && raw[0] == 16 * version + h.ihl && raw[1] == 4 * h.dscp + ecn
            && raw[2..4] == Two(h.totalLen) && raw[4..6] == Two(h.id)
            && raw[6] == 32 * h.flags + h.fragOffset / 256 && raw[7] == h.fragOffset % 256
            && raw[8] == h.ttl && raw[9] == h.protocol && raw[10..12] == Two(h.checksum)
            && raw[12..16] == h.src && raw[16..20] == h.dst && raw[20..4 * h.ihl] == options
            && raw[..4 * h.ihl] == Ipv4Bytes(h, version, ecn, options)
  {
    hide Two;
  }

  /** The sum over the header, options included, is a positive multiple of 65535. */
  predicate Ipv4Verifies(header: seq<u8>) { WordSum(header) > 0 && WordSum(header) % 65535 == 0 }

  lemma Ipv4VerifiesIff(header: seq<u8>)
    ensures Ipv4Verifies(header) <==> ChecksumOf(WordSum(header)) == 0
  {
    ChecksumZeroIff(WordSum(header));
  }

  /** Exactly which packets are accepted, and why the others are not. */
  lemma Ipv4ParseAccepts(raw: seq<u8>)
    ensures Ipv4.Parse(raw).Ok? <==>
              && |raw| >= 20 && 20 <= 4 * (raw[0] % 16) <= Value(raw[2], raw[3]) <= |raw|
              && Ipv4Verifies(raw[..4 * (raw[0] % 16)])
    ensures |raw| < 20 ==> Ipv4.Parse(raw) == Err(Ipv4HeaderTooShort(|raw|, 20))
    ensures |raw| >= 20 ==>
              var r, n, total := Ipv4.Parse(raw), 4 * (raw[0] % 16), Value(raw[2], raw[3]);
              && (n < 20 ==> r == Err(Ipv4IhlTooSmall(raw[0] % 16)))
              && (20 <= n && |raw| < n ==> r == Err(Ipv4HeaderTooShort(|raw|, n)))
              && (20 <= n <= |raw| && !Ipv4Verifies(raw[..n]) ==>
                    r == Err(Ipv4ChecksumMismatch(ChecksumOf(WordSum(raw[..n])),
                                                  Value(raw[10], raw[11]))))
              && (20 <= n <= |raw| && Ipv4Verifies(raw[..n]) && total < n ==>
                    r == Err(Ipv4TotalLenTooSmall(total, n)))
              && (20 <= n <= |raw| && Ipv4Verifies(raw[..n]) && n <= total && |raw| < total ==>
                    r == Err(Ipv4TruncatedPacket(total, |raw|)))
  {
    hide WordSum, ChecksumOf, Ipv4Verifies;
    if |raw| >= 20 && 4 * (raw[0] % 16) <= |raw| { Ipv4VerifiesIff(raw[..4 * (raw[0] % 16)]); }
  }

  /** Every packet laid out so that its header verifies is read back field by field; the payload starts
      behind the options and ends at the total length, whatever follows. */
  lemma Ipv4ParseReads(h: Ipv4.Ipv4Header, version: nat, ecn: nat, options: seq<u8>,
                       payload: seq<u8>, padding: seq<u8>)
    requires Ipv4Fits(h, version, ecn, options) && h.totalLen == 4 * h.ihl + |payload|
    ensures var header := Ipv4Bytes(h, version, ecn, options);
            var r := Ipv4.Parse(header + payload + padding);
            if Ipv4Verifies(header) then r == Ok(Ipv4.Ipv4Packet(h, payload)) else r.Err?
  {
    hide WordSum, ChecksumOf, Ipv4Verifies, Ipv4Bytes, Two, FromBe16;
    var header := Ipv4Bytes(h, version, ecn, options);
    var raw := header + payload + padding;
    assert raw == header + (payload + padding);
    Ipv4BytesAt(h, version, ecn, options, payload + padding);
    Ipv4VerifiesIff(header);
    Quotients(16, version, h.ihl);
    Quotients(4, h.dscp, ecn);
    Quotients(8192, h.flags, h.fragOffset);
    FlagsAndOffset(h.flags, h.fragOffset);
    ReadTwo(raw, 2, h.totalLen);
    ReadTwo(raw, 4, h.id);
    ReadTwo(raw, 10, h.checksum);
    assert raw[4 * h.ihl..h.totalLen] == payload;
  }

  lemma FlagsAndOffset(flags: nat, offset: nat)
    requires flags < 8 && offset < 8192
    ensures FromBe16(32 * flags + offset / 256, offset % 256) == 8192 * flags + offset
  {}

  lemma Quotients(k: nat, q: nat, r: nat)
    requires k in {4, 16, 8192} && r < k
    ensures (k * q + r) / k == q && (k * q + r) % k == r
  {}

  lemma ReadTwo(raw: seq<u8>, i: nat, x: u16)
    requires i + 2 <= |raw| && raw[i..i + 2] == Two(x)
    ensures FromBe16(raw[i], raw[i + 1]) == x
  {
    assert raw[i..i + 2][0] == raw[i] && raw[i..i + 2][1] == raw[i + 1];
    TwoIs(x);
  }

  /** For any fields and options there is a checksum with which the header verifies. */
  lemma Ipv4Completes(h: Ipv4.Ipv4Header, version: nat, ecn: nat, options: seq<u8>)
    requires Ipv4Fits(h, version, ecn, options)
    ensures var zeroed := Ipv4Bytes(h.(checksum := 0), version, ecn, options);
            var c := ChecksumOf(WordSum(zeroed));
            && Ipv4Verifies(Ipv4Bytes(h.(checksum := c), version, ecn, options))
            && (Ipv4Verifies(Ipv4Bytes(h, version, ecn, options)) <==>
                  h.checksum == c || (h.checksum == 0xFFFF && c == 0))
  {
    hide WordSum, ChecksumOf, Ipv4Bytes, Ipv4Verifies;
    var zeroed := Ipv4Bytes(h.(checksum := 0), version, ecn, options);
    var s := WordSum(zeroed);
    var c := ChecksumOf(s);
    var full := h.(checksum := c);
    assert full.(checksum := 0) == h.(checksum := 0);
    Ipv4ChecksumAdds(full, version, ecn, options);
    Ipv4ChecksumAdds(h, version, ecn, options);
    Ipv4VerifiesIff(Ipv4Bytes(full, version, ecn, options));
    Ipv4VerifiesIff(Ipv4Bytes(h, version, ecn, options));
    ChecksumCompletes(s);
    ChecksumZeroIff(s + h.checksum);
    if ChecksumOf(s + h.checksum) == 0 { ChecksumUnique(s, h.checksum); }
    if h.checksum == 0xFFFF && c == 0 { ChecksumZeroIff(s); }
  }

  lemma Ipv4ChecksumAdds(h: Ipv4.Ipv4Header, version: nat, ecn: nat, options: seq<u8>)
    requires Ipv4Fits(h, version, ecn, options)
    ensures var zeroed := Ipv4Bytes(h.(checksum := 0), version, ecn, options);
            WordSum(Ipv4Bytes(h, version, ecn, options)) == WordSum(zeroed) + h.checksum
            && WordSum(zeroed) > 0
  {
    var c: int := h.checksum;
    var z := Ipv4Bytes(h.(checksum := 0), version, ecn, options);
    var one := z[10 := c / 256];
    assert Ipv4Bytes(h, version, ecn, options) == one[11 := c % 256];
    WordSumUpdate(z, 10, c / 256);
    WordSumUpdate(one, 11, c % 256);
    assert z[0] > 0;
  }

  lemma FlagsAndOffsetRead(a: u8, b: u8)
    ensures var x := FromBe16(a, b);
            32 * (x / 8192) + x % 8192 / 256 == a && x % 8192 % 256 == b
  {
    var q, r := a / 32, a % 32;
    assert 256 * a + b == 8192 * q + (256 * r + b);
    assert (8192 * q + (256 * r + b)) / 8192 == q;
  }

  /** And nothing else is accepted: an accepted packet is its own fields, options and payload laid out
      again, and what follows the total length. */
  lemma Ipv4ParsedIsLaidOut(raw: seq<u8>)
    requires Ipv4.Parse(raw).Ok?
    ensures var p := Ipv4.Parse(raw).value;
            var h, n, total := p.header, 4 * p.header.ihl, p.header.totalLen as nat;
            && 20 <= n <= total <= |raw| && p.payload == raw[n..total]
            && Ipv4Fits(h, raw[0] / 16, raw[1] % 4, raw[20..n])
            && raw == Ipv4Bytes(h, raw[0] / 16, raw[1] % 4, raw[20..n]) + p.payload + raw[total..]
  {
    hide WordSum, ChecksumOf, FromBe16, Two;
    var p := Ipv4.Parse(raw).value;
    var h, n, total := p.header, 4 * p.header.ihl, p.header.totalLen as nat;
    Word(raw, 2);
    Word(raw, 4);
    Word(raw, 6);
    Word(raw, 10);
    FlagsAndOffsetRead(raw[6], raw[7]);
    assert raw[..n] == Ipv4Bytes(h, raw[0] / 16, raw[1] % 4, raw[20..n]);
    assert raw == raw[..n] + raw[n..total] + raw[total..];
  }

  /** What `build_packet` makes is such a layout: version 4, no options, the "do not fragment" bit, 64
      hops. */
  lemma BuiltPacketIsLaidOut(src: Ip, dst: Ip, protocol: u8, payload: seq<u8>)
    requires 20 + |payload| <= 0xFFFF
    ensures var zeroed := Ipv4.Ipv4Header(5, 0, 20 + |payload|, 0, 2, 0, 64, protocol, 0, src, dst);
            var h := zeroed.(checksum := ChecksumOf(WordSum(Ipv4Bytes(zeroed, 4, 0, []))));
            Ipv4.Encode(src, dst, protocol, payload) == Ipv4Bytes(h, 4, 0, []) + payload
  {
    hide WordSum, ChecksumOf;
    var total := 20 + |payload|;
    var zeroed := Ipv4.Ipv4Header(5, 0, total, 0, 2, 0, 64, protocol, 0, src, dst);
    assert Ipv4Bytes(zeroed, 4, 0, []) == Ipv4.HeaderBytes(src, dst, protocol, total, 0);
    var c := ChecksumOf(WordSum(Ipv4Bytes(zeroed, 4, 0, [])));
    assert Ipv4Bytes(zeroed.(checksum := c), 4, 0, [])
           == Ipv4.HeaderBytes(src, dst, protocol, total, c);
  }

  /** Frames: accepted exactly if they are long enough and of type IPv4, and then addresses and payload
      are read from where they stand. */
  lemma FrameParses(raw: seq<u8>)
    ensures Ethernet.Parse(raw) ==
            if |raw| < 14 then Err(EthernetFrameTooShort(|raw|, 14))
            else if raw[12..14] != [8, 0] then Err(NonIpv4EtherType(Value(raw[12], raw[13])))
            else Ok(Ethernet.EthernetFrame(raw[0..6], raw[6..12], 2048, raw[14..]))
    ensures Ethernet.Parse(raw).Ok? ==>
              var f := Ethernet.Parse(raw).value;
              raw == f.dstMac + f.srcMac + [8, 0] + f.payload
              && raw == Ethernet.Encode(f.dstMac, f.srcMac, f.payload)
  {
    if |raw| >= 14 {
      assert raw[12..14] == [raw[12], raw[13]];
      assert raw == raw[0..6] + raw[6..12] + raw[12..14] + raw[14..];
      assert Be16(Ethernet.ETHERTYPE_IPV4) == [8, 0];
    }
  }
}
