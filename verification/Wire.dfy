/** Byte-level helpers and the error values of error.rs. */
module Wire {
  import opened SeqArith

  datatype Error =
    | EthernetFrameTooShort(got: nat, need: nat)
    | NonIpv4EtherType(ethertype: u16)
    | Ipv4HeaderTooShort(got: nat, need: nat)
    | Ipv4IhlTooSmall(ihl: u8)
    | Ipv4ChecksumMismatch(computed: u16, gotSum: u16)
    | Ipv4TruncatedPacket(totalLen: nat, bufLen: nat)
    | Ipv4TotalLenTooSmall(totalLen: nat, headerLen: nat)
    | TcpHeaderTooShort(got: nat, need: nat)
    | TcpDataOffsetTooSmall(offset: u8)
    | TcpChecksumMismatch(computed: u16, gotSum: u16)

  datatype Result<+T> = Ok(value: T) | Err(error: Error)

  type Ip = s: seq<u8> | |s| == 4 witness [0, 0, 0, 0]
  type Mac = s: seq<u8> | |s| == 6 witness [0, 0, 0, 0, 0, 0]

  function Be16(x: u16): (r: seq<u8>)
    ensures |r| == 2
  {
    [x / 0x100, x % 0x100]
  }

  function Be32(x: u32): (r: seq<u8>)
    ensures |r| == 4
  {
    [x / 0x100_0000, x / 0x1_0000 % 0x100, x / 0x100 % 0x100, x % 0x100]
  }

  function FromBe16(hi: u8, lo: u8): u16 { hi * 0x100 + lo }

  function FromBe32(a: u8, b: u8, c: u8, d: u8): u32 {
    a * 0x100_0000 + b * 0x1_0000 + c * 0x100 + d
  }

  lemma Be16RoundTrip(x: u16)
    ensures FromBe16(Be16(x)[0], Be16(x)[1]) == x
  {}

  lemma Be16Inverse(hi: u8, lo: u8)
    ensures Be16(FromBe16(hi, lo)) == [hi, lo]
  {}

  lemma Be32Inverse(a: u8, b: u8, c: u8, d: u8)
    ensures Be32(FromBe32(a, b, c, d)) == [a, b, c, d]
  {
    var x := FromBe32(a, b, c, d);
    assert x / 0x100 == a * 0x1_0000 + b * 0x100 + c;
    assert x / 0x1_0000 == a * 0x100 + b;
    assert x / 0x100_0000 == a;
  }

  lemma Be32RoundTrip(x: u32)
    ensures var b := Be32(x); FromBe32(b[0], b[1], b[2], b[3]) == x
  {
    assert x == 0x100 * (x / 0x100) + x % 0x100;
    assert x / 0x100 == 0x100 * (x / 0x1_0000) + x / 0x100 % 0x100;
    assert x / 0x1_0000 == 0x100 * (x / 0x100_0000) + x / 0x1_0000 % 0x100;
  }

  /** `copy_from_slice` into a part of a buffer. */
  method CopyFromSlice(buf: array<u8>, at: nat, bytes: seq<u8>)
    requires at + |bytes| <= buf.Length
    modifies buf
    ensures buf[..at + |bytes|] == old(buf[..at]) + bytes
    ensures forall k :: at + |bytes| <= k < buf.Length ==> buf[k] == old(buf[k])
  {
    for i := 0 to |bytes|
      invariant buf[..at + i] == old(buf[..at]) + bytes[..i]
      invariant forall k :: at + i <= k < buf.Length ==> buf[k] == old(buf[k])
    {
      buf[at + i] := bytes[i];
      assert buf[..at + i + 1] == buf[..at + i] + [bytes[i]];
    }
  }
}
