/** The Internet checksum (RFC 1071) as ipv4.rs computes it: add big-endian 16-bit words in a
    32-bit accumulator, fold the carries back in, complement. */
module Checksums {
  import opened SeqArith

  /** The sum of the big-endian words; an odd last byte is a high byte. */
  function WordSum(d: seq<u8>): nat {
    if |d| == 0 then 0
    else if |d| == 1 then d[0] * 256
    else d[0] * 256 + d[1] + WordSum(d[2..])
  }

  /** The 16-bit one's-complement value of a sum: its representative modulo 65535, where a
      positive multiple of 65535 gives 65535 and only 0 gives 0. */
  function Folded(s: nat): u16 {
    if s == 0 then 0 else 1 + (s - 1) % 65535
  }

  function ChecksumOf(s: nat): u16 { 65535 - Folded(s) }

  lemma {:induction false} WordSumBound(d: seq<u8>)
    ensures WordSum(d) <= 65535 * ((|d| + 1) / 2)
  {
    if |d| > 1 { WordSumBound(d[2..]); }
  }

  lemma {:induction false} WordSumAppend(a: seq<u8>, b: seq<u8>)
    requires |a| % 2 == 0
    ensures WordSum(a + b) == WordSum(a) + WordSum(b)
  {
    if a == [] {
      assert a + b == b;
    } else {
      assert (a + b)[2..] == a[2..] + b;
      WordSumAppend(a[2..], b);
    }
  }

  /** Byte by byte: at even places a byte counts 256 times, at odd places once. */
  lemma {:induction false} WordSumByBytes(d: seq<u8>, x: u8)
    ensures WordSum([]) == 0
    ensures WordSum(d + [x]) == WordSum(d) + (if |d| % 2 == 0 then 256 * x else x)
  {
    if |d| <= 1 {
      assert d == [] ==> d + [x] == [x];
      assert d != [] ==> d + [x] == [d[0], x];
    } else {
      assert (d + [x])[2..] == d[2..] + [x];
      WordSumByBytes(d[2..], x);
    }
  }

  /** Changing one byte moves the sum by less than 65535 and never by zero. */
  lemma {:induction false} WordSumUpdate(d: seq<u8>, i: nat, x: u8)
    requires i < |d|
    ensures WordSum(d[i := x]) == WordSum(d) + (x - d[i]) * (if i % 2 == 0 then 256 else 1)
  {
    if i >= 2 {
      assert d[i := x][2..] == d[2..][i - 2 := x];
      WordSumUpdate(d[2..], i - 2, x);
    } else if |d| > 1 {
      assert d[i := x][2..] == d[2..];
    }
  }

  /** One round of carry folding keeps the value. */
  lemma FoldStep(s: nat)
    requires s >= 0x1_0000
    ensures Folded(s % 0x1_0000 + s / 0x1_0000) == Folded(s)
    ensures 0 < s % 0x1_0000 + s / 0x1_0000 < s
  {
    var h, l := s / 0x1_0000, s % 0x1_0000;
    assert s == 65536 * h + l;
    assert s - 1 == 65535 * h + (h + l - 1);
    assert (65535 * h + (h + l - 1)) % 65535 == (h + l - 1) % 65535;
  }

  /** A sum verifies (checksum zero) exactly when it is a positive multiple of 65535. */
  lemma ChecksumZeroIff(s: nat)
    ensures ChecksumOf(s) == 0 <==> s > 0 && s % 65535 == 0
  {}

  /** Adding the checksum of a positive sum makes it verify. */
  lemma ChecksumCompletes(s: nat)
    requires s > 0
    ensures ChecksumOf(s + ChecksumOf(s)) == 0
  {}

  /** The checksum is the only field value that verifies, except that 0xFFFF stands in for 0. */
  lemma ChecksumUnique(s: nat, c: u16)
    requires s > 0 && ChecksumOf(s + c) == 0
    ensures c == ChecksumOf(s) || (c == 0xFFFF && ChecksumOf(s) == 0)
  {
    ChecksumZeroIff(s + c);
    assert (s + c) % 65535 == 0;
    var k, r := (s - 1) / 65535, (s - 1) % 65535;
    assert s == 65535 * k + r + 1;
    assert (r + 1 + c) % 65535 == 0;
  }

  /** A sum that verifies stops verifying when one byte of the summed data changes. */
  lemma ChecksumDetects(s: nat, s': nat, before: u8, after: u8, weight: int)
    requires weight == 1 || weight == 256
    requires s' == s + (after - before) * weight && before != after
    requires ChecksumOf(s) == 0
    ensures ChecksumOf(s') != 0
  {
    ChecksumZeroIff(s);
    ChecksumZeroIff(s');
    var d := (after - before) * weight;
    assert -65535 < d < 65535 && d != 0;
  }

  /** The folding loop: at most 32-bit sums, in place. */
  method Fold(start: u32) returns (r: u16)
    ensures r == Folded(start)
  {
    var sum := start;
    while sum / 0x1_0000 != 0
      invariant Folded(sum) == Folded(start)
      decreases sum
    {
      FoldStep(sum);
      sum := sum % 0x1_0000 + sum / 0x1_0000;
    }
    r := sum;
  }

  /** `checksum`; beyond 131072 bytes the 32-bit accumulator could overflow. */
  method Checksum(data: seq<u8>) returns (c: u16)
    requires |data| <= 131072
    ensures c == ChecksumOf(WordSum(data))
  {
    WordSumBound(data);
    var sum: u32 := 0;
    var i := 0;
    while i + 1 < |data|
      invariant 0 <= i <= |data| && i % 2 == 0
      invariant sum + WordSum(data[i..]) == WordSum(data)
    {
      assert data[i..][2..] == data[i + 2..];
      var hi: int, lo: int := data[i], data[i + 1];
      sum := sum + (hi * 256 + lo);
      i := i + 2;
    }
    if i < |data| {
      var hi: int := data[i];
      sum := sum + hi * 256;
    }
    var folded := Fold(sum);
    c := 65535 - folded;
  }
}
