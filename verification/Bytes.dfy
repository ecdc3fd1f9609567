/** Bytes, machine integers and their little-endian form.
    Every field of PTP and of a USB descriptor is little-endian. */
module Bytes {
  type Byte = x: int | 0 <= x < 0x100
  type U16 = x: int | 0 <= x < 0x1_0000
  type U32 = x: int | 0 <= x < 0x1_0000_0000
  type U64 = x: int | 0 <= x < 0x1_0000_0000_0000_0000

  function Le16(v: U16): (b: seq<Byte>)
    ensures |b| == 2
  {
    [v % 0x100, v / 0x100]
  }

  function Le32(v: U32): (b: seq<Byte>)
    ensures |b| == 4
  {
    Le16(v % 0x1_0000) + Le16(v / 0x1_0000)
  }

  function Le64(v: U64): (b: seq<Byte>)
    ensures |b| == 8
  {
    Le32(v % 0x1_0000_0000) + Le32(v / 0x1_0000_0000)
  }

  function FromLe16(b: seq<Byte>): U16
    requires |b| == 2
  {
    (b[0] as int) + 0x100 * (b[1] as int)
  }

  function FromLe32(b: seq<Byte>): U32
    requires |b| == 4
  {
    (FromLe16(b[..2]) as int) + 0x1_0000 * (FromLe16(b[2..]) as int)
  }

  function FromLe64(b: seq<Byte>): U64
    requires |b| == 8
  {
    (FromLe32(b[..4]) as int) + 0x1_0000_0000 * (FromLe32(b[4..]) as int)
  }

  lemma Le16RoundTrip(v: U16)
    ensures FromLe16(Le16(v)) == v
  {
  }

  lemma Le32RoundTrip(v: U32)
    ensures FromLe32(Le32(v)) == v
  {
    assert Le32(v)[..2] == Le16(v % 0x1_0000);
    assert Le32(v)[2..] == Le16(v / 0x1_0000);
  }

  lemma Le64RoundTrip(v: U64)
    ensures FromLe64(Le64(v)) == v
  {
    assert Le64(v)[..4] == Le32(v % 0x1_0000_0000);
    assert Le64(v)[4..] == Le32(v / 0x1_0000_0000);
    Le32RoundTrip(v % 0x1_0000_0000);
    Le32RoundTrip(v / 0x1_0000_0000);
  }

  lemma FromLe16Inverse(b: seq<Byte>)
    requires |b| == 2
    ensures Le16(FromLe16(b)) == b
  {
  }

  lemma HalvesSplit(lo: U16, hi: U16)
    ensures (lo + 0x1_0000 * (hi as int)) % 0x1_0000 == lo
    ensures (lo + 0x1_0000 * (hi as int)) / 0x1_0000 == hi
  {
  }

  lemma FromLe32Inverse(b: seq<Byte>)
    requires |b| == 4
    ensures Le32(FromLe32(b)) == b
  {
    var lo, hi := FromLe16(b[..2]), FromLe16(b[2..]);
    FromLe16Inverse(b[..2]);
    FromLe16Inverse(b[2..]);
    hide FromLe16, Le16;
    HalvesSplit(lo, hi);
    assert b == b[..2] + b[2..];
  }

  // ----- numbers -----

  function Min(a: nat, b: nat): nat {
    if a < b then a else b
  }

  lemma UniqueDivMod(n: int, m: int, q: int, r: int)
    requires m > 0 && 0 <= r < m && n == m * q + r
    ensures n / m == q && n % m == r
  {
    var d := n / m - q;
    assert m * d == r - n % m;
    NonzeroMultipleIsFar(m, d);
  }

  lemma NonzeroMultipleIsFar(m: int, d: int)
    requires m > 0
    ensures d >= 1 ==> m * d >= m
    ensures d <= -1 ==> m * d <= -m
  {
  }
}
