/** Bytes, and the little-endian integers the wire format is made of. */
module LittleEndian {

  newtype Byte = b: int | 0 <= b < 256

  type Bytes = seq<Byte>

  const TWO_31: int := 0x8000_0000
  const TWO_32: int := 0x1_0000_0000
  const TWO_63: int := 0x8000_0000_0000_0000
  const TWO_64: int := 0x1_0000_0000_0000_0000

  /** 256 to the power n. */
  ghost function Pow256(n: nat): (p: nat)
    ensures p > 0
  {
    if n == 0 then 1 else 256 * Pow256(n - 1)
  }

  /** The n low bytes of v, least significant first. */
  function ToBytes(v: nat, n: nat): (s: Bytes)
    ensures |s| == n
  {
    if n == 0 then [] else [(v % 256) as Byte] + ToBytes(v / 256, n - 1)
  }

  /** The number whose bytes, least significant first, are s. */
  function FromBytes(s: Bytes): (v: nat)
    ensures v < Pow256(|s|)
  {
    if s == [] then 0 else s[0] as int + 256 * FromBytes(s[1..])
  }

  lemma {:induction false} FromToBytes(v: nat, n: nat)
    requires v < Pow256(n)
    ensures FromBytes(ToBytes(v, n)) == v
  {
    if n > 0 {
      FromToBytes(v / 256, n - 1);
      assert ToBytes(v, n)[1..] == ToBytes(v / 256, n - 1);
    }
  }

  lemma {:induction false} ToFromBytes(s: Bytes)
    ensures ToBytes(FromBytes(s), |s|) == s
  {
    if s != [] {
      ToFromBytes(s[1..]);
      var v := FromBytes(s);
      assert v % 256 == s[0] as int && v / 256 == FromBytes(s[1..]);
    }
  }

  lemma Widths()
    ensures Pow256(1) == 256
    ensures Pow256(4) == TWO_32
    ensures Pow256(8) == TWO_64
  {
    assert Pow256(2) == 65536;
    assert Pow256(3) == 16777216;
    assert Pow256(5) == 256 * TWO_32;
    assert Pow256(6) == 65536 * TWO_32;
    assert Pow256(7) == 16777216 * TWO_32;
  }

  predicate FitsInt32(v: int) {
    -TWO_31 <= v < TWO_31
  }

  /** The values of an int32_t. */
  type Int32 = v: int | FitsInt32(v)

  predicate FitsUint32(v: int) {
    0 <= v < TWO_32
  }

  predicate FitsInt64(v: int) {
    -TWO_63 <= v < TWO_63
  }

  /** Two's complement in four bytes. */
  function Int32Bytes(v: int): (s: Bytes)
    ensures |s| == 4
  {
    ToBytes(v % TWO_32, 4)
  }

  function Int32From(s: Bytes): (v: Int32)
    requires |s| == 4
  {
    var u := FromBytes(s);
    assert u < TWO_32 by { Widths(); }
    if u < TWO_31 then u else u - TWO_32
  }

  function Uint32Bytes(v: int): (s: Bytes)
    ensures |s| == 4
  {
    ToBytes(v % TWO_32, 4)
  }

  function Uint32From(s: Bytes): (v: int)
    requires |s| == 4
    ensures FitsUint32(v)
  {
    assert FromBytes(s) < TWO_32 by { Widths(); }
    FromBytes(s)
  }

  function Int64Bytes(v: int): (s: Bytes)
    ensures |s| == 8
  {
    ToBytes(v % TWO_64, 8)
  }

  function Int64From(s: Bytes): (v: int)
    requires |s| == 8
    ensures FitsInt64(v)
  {
    var u := FromBytes(s);
    assert u < TWO_64 by { Widths(); }
    if u < TWO_63 then u else u - TWO_64
  }

  lemma Int32RoundTrip(v: int)
    requires FitsInt32(v)
    ensures Int32From(Int32Bytes(v)) == v
  {
    Widths();
    FromToBytes(v % TWO_32, 4);
  }

  lemma FromToBytesWithin(v: nat, n: nat, bound: nat)
    requires Pow256(n) == bound && v < bound
    ensures FromBytes(ToBytes(v, n)) == v
  {
    FromToBytes(v, n);
  }

  lemma Uint32RoundTrip(v: int)
    requires FitsUint32(v)
    ensures Uint32From(Uint32Bytes(v)) == v
  {
    assert v % TWO_32 == v;
    FromToBytesWithin(v, 4, TWO_32) by { Widths(); }
  }

  lemma Int64RoundTrip(v: int)
    requires FitsInt64(v)
    ensures Int64From(Int64Bytes(v)) == v
  {
    Widths();
    FromToBytes(v % TWO_64, 8);
  }

  /** Reading a 32-bit length and writing it again gives the same four bytes. */
  lemma Uint32Inverse(s: Bytes)
    requires |s| == 4
    ensures Uint32Bytes(Uint32From(s)) == s
  {
    Widths();
    ToFromBytes(s);
  }
}
