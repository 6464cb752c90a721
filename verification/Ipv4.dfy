/** IPv4 packets (ipv4.rs). */
module Ipv4 {
  import opened SeqArith
  import opened Wire
  import opened Checksums

  const IPV4_MIN_HEADER_LEN: nat := 20
  const PROTO_TCP: u8 := 6

  datatype Ipv4Header = Ipv4Header(
    ihl: u8, dscp: u8, totalLen: u16, id: u16, flags: u8, fragOffset: u16,
    ttl: u8, protocol: u8, checksum: u16, src: Ip, dst: Ip)

  datatype Ipv4Packet = Ipv4Packet(header: Ipv4Header, payload: seq<u8>)

  function Parse(raw: seq<u8>): Result<Ipv4Packet> {
    if |raw| < IPV4_MIN_HEADER_LEN then Err(Ipv4HeaderTooShort(|raw|, IPV4_MIN_HEADER_LEN))
    else
      var ihl := raw[0] % 16;
      if ihl < 5 then Err(Ipv4IhlTooSmall(ihl))
      else
        var headerLen := ihl * 4;
        if |raw| < headerLen then Err(Ipv4HeaderTooShort(|raw|, headerLen))
        else
          var stored := FromBe16(raw[10], raw[11]);
          var computed := ChecksumOf(WordSum(raw[..headerLen]));
          if computed != 0 then Err(Ipv4ChecksumMismatch(computed, stored))
          else
            var totalLen := FromBe16(raw[2], raw[3]);
            if totalLen < headerLen then Err(Ipv4TotalLenTooSmall(totalLen, headerLen))
            else if totalLen > |raw| then Err(Ipv4TruncatedPacket(totalLen, |raw|))
            else
              var flagsFrag := FromBe16(raw[6], raw[7]);
              Ok(Ipv4Packet(
                   Ipv4Header(ihl, raw[1] / 4, totalLen, FromBe16(raw[4], raw[5]),
                              flagsFrag / 0x2000, flagsFrag % 0x2000, raw[8], raw[9], stored,
                              raw[12..16], raw[16..20]),
                   raw[headerLen..totalLen]))
  }

  /** The fixed header with a given checksum field. */
  function HeaderBytes(src: Ip, dst: Ip, protocol: u8, totalLen: u16, csum: u16): (r: seq<u8>)
    ensures |r| == 20
  {
    [0x45, 0x00] + Be16(totalLen) + [0, 0, 0x40, 0, 0x40, protocol] + Be16(csum) + src + dst
  }

  function PacketHeader(src: Ip, dst: Ip, protocol: u8, totalLen: u16): seq<u8> {
    HeaderBytes(src, dst, protocol, totalLen,
                ChecksumOf(WordSum(HeaderBytes(src, dst, protocol, totalLen, 0))))
  }

  /** What `build_packet` produces; the total length is cut to 16 bits. */
  function Encode(src: Ip, dst: Ip, protocol: u8, payload: seq<u8>): seq<u8> {
    PacketHeader(src, dst, protocol, (20 + |payload|) % 0x1_0000) + payload
  }

  method BuildPacket(src: Ip, dst: Ip, protocol: u8, payload: seq<u8>) returns (pkt: seq<u8>)
    ensures pkt == Encode(src, dst, protocol, payload)
  {
    var totalLen := (IPV4_MIN_HEADER_LEN + |payload|) % 0x1_0000;
    var hdr := new u8[20] [
      0x45, 0x00, totalLen / 0x100, totalLen % 0x100, 0x00, 0x00, 0x40, 0x00, 0x40, protocol,
      0x00, 0x00, src[0], src[1], src[2], src[3], dst[0], dst[1], dst[2], dst[3]];
    assert hdr[..] == HeaderBytes(src, dst, protocol, totalLen, 0);
    var csum := Checksum(hdr[..]);
    hdr[10] := csum / 0x100;
    hdr[11] := csum % 0x100;
    assert hdr[..] == PacketHeader(src, dst, protocol, totalLen);
    pkt := hdr[..] + payload;
  }

  lemma HeaderSum(src: Ip, dst: Ip, protocol: u8, totalLen: u16, csum: u16)
    ensures WordSum(HeaderBytes(src, dst, protocol, totalLen, csum))
            == WordSum(HeaderBytes(src, dst, protocol, totalLen, 0)) + csum
    ensures WordSum(HeaderBytes(src, dst, protocol, totalLen, 0)) > 0
  {
    var front := [0x45, 0x00] + Be16(totalLen) + [0, 0, 0x40, 0, 0x40, protocol];
    WordSumAppend(front, Be16(csum) + (src + dst));
    WordSumAppend(front, Be16(0) + (src + dst));
    WordSumAppend(Be16(csum), src + dst);
    WordSumAppend(Be16(0), src + dst);
    assert front + (Be16(csum) + (src + dst))
           == HeaderBytes(src, dst, protocol, totalLen, csum);
    assert front + (Be16(0) + (src + dst)) == HeaderBytes(src, dst, protocol, totalLen, 0);
  }

  /** Parsing undoes building for every payload that fits the 16-bit total length, whatever
      follows the packet in the buffer. */
  lemma ParseEncode(src: Ip, dst: Ip, protocol: u8, payload: seq<u8>, padding: seq<u8>)
    requires 20 + |payload| <= 0xFFFF
    ensures var r := Parse(Encode(src, dst, protocol, payload) + padding);
            && r.Ok? && r.value.payload == payload
            && r.value.header.src == src && r.value.header.dst == dst
            && r.value.header.protocol == protocol
            && r.value.header.totalLen == 20 + |payload|
            && r.value.header.ihl == 5 && r.value.header.ttl == 64
            && r.value.header.flags == 2 && r.value.header.fragOffset == 0
  {
    hide WordSum, ChecksumOf;
    var totalLen := 20 + |payload|;
    var h := PacketHeader(src, dst, protocol, totalLen);
    var raw := Encode(src, dst, protocol, payload) + padding;
    assert raw[..20] == h;
    var s := WordSum(HeaderBytes(src, dst, protocol, totalLen, 0));
    HeaderSum(src, dst, protocol, totalLen, ChecksumOf(s));
    ChecksumCompletes(s);
    Be16RoundTrip(totalLen);
    assert raw[2..4] == Be16(totalLen);
    assert raw[12..16] == src && raw[16..20] == dst;
    assert raw[20..totalLen] == payload;
  }

  /** Any change to one header byte that leaves the header length alone is rejected. */
  lemma HeaderCorruptionRejected(raw: seq<u8>, i: nat, x: u8)
    requires Parse(raw).Ok?
    requires i < 4 * Parse(raw).value.header.ihl && x != raw[i]
    requires i == 0 ==> x % 16 == raw[0] % 16
    ensures Parse(raw[i := x]).Err?
  {
    var n := 4 * Parse(raw).value.header.ihl;
    assert raw[i := x][..n] == raw[..n][i := x];
    WordSumUpdate(raw[..n], i, x);
    ChecksumDetects(WordSum(raw[..n]), WordSum(raw[..n][i := x]), raw[i], x,
                    if i % 2 == 0 then 256 else 1);
  }

  /** A built packet cut short anywhere is rejected, with the error that says why. */
  lemma TruncationRejected(src: Ip, dst: Ip, protocol: u8, payload: seq<u8>, k: nat)
    requires 20 + |payload| <= 0xFFFF && k < 20 + |payload|
    ensures Parse(Encode(src, dst, protocol, payload)[..k])
            == Err(if k < 20 then Ipv4HeaderTooShort(k, 20)
                   else Ipv4TruncatedPacket(20 + |payload|, k))
  {
    if k >= 20 {
      var n := 20 + |payload|;
      var raw := Encode(src, dst, protocol, payload)[..k];
      assert raw[..20] == PacketHeader(src, dst, protocol, n);
      var s := WordSum(HeaderBytes(src, dst, protocol, n, 0));
      HeaderSum(src, dst, protocol, n, ChecksumOf(s));
      ChecksumCompletes(s);
      Be16RoundTrip(n);
      assert raw[2..4] == Be16(n);
    }
  }
}
