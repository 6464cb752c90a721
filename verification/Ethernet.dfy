/** Ethernet frames (ethernet.rs) and the three layers together. */
module Ethernet {
  import opened SeqArith
  import opened Wire
  import Ipv4
  import TcpHeaders

  const ETHERTYPE_IPV4: u16 := 0x0800
  const ETHERNET_HEADER_LEN: nat := 14

  datatype EthernetFrame = EthernetFrame(dstMac: Mac, srcMac: Mac, ethertype: u16, payload: seq<u8>)

  function Encode(dstMac: Mac, srcMac: Mac, payload: seq<u8>): seq<u8> {
    dstMac + srcMac + Be16(ETHERTYPE_IPV4) + payload
  }

  method Build(dstMac: Mac, srcMac: Mac, payload: seq<u8>) returns (frame: seq<u8>)
    ensures frame == Encode(dstMac, srcMac, payload)
  {
    frame := [];
    frame := frame + dstMac;
    frame := frame + srcMac;
    frame := frame + Be16(ETHERTYPE_IPV4);
    frame := frame + payload;
  }

  function Parse(raw: seq<u8>): Result<EthernetFrame> {
    if |raw| < ETHERNET_HEADER_LEN then Err(EthernetFrameTooShort(|raw|, ETHERNET_HEADER_LEN))
    else
      var ethertype := FromBe16(raw[12], raw[13]);
      if ethertype != ETHERTYPE_IPV4 then Err(NonIpv4EtherType(ethertype))
      else Ok(EthernetFrame(raw[0..6], raw[6..12], ethertype, raw[ETHERNET_HEADER_LEN..]))
  }

  /** The three builders composed in the order `frame_outbound` uses them. */
  function FrameOutbound(dstMac: Mac, srcMac: Mac, b: TcpHeaders.Builder): seq<u8> {
    Encode(dstMac, srcMac, Ipv4.Encode(b.srcIp, b.dstIp, Ipv4.PROTO_TCP, b.Encode()))
  }

  /** The three parsers composed; the first error wins. */
  function ParseInbound(raw: seq<u8>): Result<TcpHeaders.TcpSegment> {
    match Parse(raw)
    case Err(e) => Err(e)
    case Ok(frame) =>
      match Ipv4.Parse(frame.payload)
      case Err(e) => Err(e)
      case Ok(packet) =>
        TcpHeaders.Parse(packet.payload, packet.header.src, packet.header.dst)
  }

  lemma ParseEncode(dstMac: Mac, srcMac: Mac, payload: seq<u8>, padding: seq<u8>)
    ensures Parse(Encode(dstMac, srcMac, payload) + padding)
            == Ok(EthernetFrame(dstMac, srcMac, ETHERTYPE_IPV4, payload + padding))
  {
    var raw := Encode(dstMac, srcMac, payload) + padding;
    assert raw[0..6] == dstMac && raw[6..12] == srcMac;
    assert raw[12] == Be16(ETHERTYPE_IPV4)[0] && raw[13] == Be16(ETHERTYPE_IPV4)[1];
    assert raw[14..] == payload + padding;
  }

  /** Parsing a frame undoes building it, for every segment that fits the 16-bit IPv4 total
      length and whatever Ethernet padding follows. */
  lemma FrameRoundTrip(dstMac: Mac, srcMac: Mac, b: TcpHeaders.Builder, padding: seq<u8>)
    requires 40 + |b.payload| <= 0xFFFF
    ensures ParseInbound(FrameOutbound(dstMac, srcMac, b) + padding) == Ok(b.Received())
  {
    var bytes := b.Encode();
    var packet := Ipv4.Encode(b.srcIp, b.dstIp, Ipv4.PROTO_TCP, bytes);
    ParseEncode(dstMac, srcMac, packet, padding);
    Ipv4.ParseEncode(b.srcIp, b.dstIp, Ipv4.PROTO_TCP, bytes, padding);
    TcpHeaders.ParseEncode(b);
  }
}
