/** Bytes, their bitwise AND, and the fixed-width integer layouts the firmware uses. */
module Bytes {
  type byte = x: int | 0 <= x < 256

  const B8 := 0x100
  const B16 := 0x1_0000
  const B24 := 0x100_0000
  const B32 := 0x1_0000_0000
  const B64 := 0x1_0000_0000_0000_0000

  type uint32 = x: int | 0 <= x < B32

  function Pow2(n: nat): (p: nat)
    ensures p > 0
  {
    if n == 0 then 1 else 2 * Pow2(n - 1)
  }

  /** Bitwise AND of two bytes: what programming does to a NOR flash cell. */
  function And8(x: byte, y: byte): (r: byte)
  {
    ((x as bv8) & (y as bv8)) as int
  }

  lemma And8Erased(y: byte)
    ensures And8(255, y) == y
  {
    assert (255 as bv8) & (y as bv8) == y as bv8;
  }

  /** Byte `k` (0 least significant) of the two's complement form of `v`. */
  function ByteOf(v: int, k: nat): (b: byte)
    requires k < 4
  {
    if k == 0 then v % B8
    else if k == 1 then v / B8 % B8
    else if k == 2 then v / B16 % B8
    else v / B24 % B8
  }

  /** Little-endian value of four bytes. */
  function FromLe32(s: seq<byte>): (v: int)
    requires |s| == 4
    ensures 0 <= v < B32
  {
    s[0] + s[1] * B8 + s[2] * B16 + s[3] * B24
  }

  /** Big-endian value of four bytes. */
  function FromBe32(s: seq<byte>): (v: int)
    requires |s| == 4
    ensures 0 <= v < B32
  {
    s[0] * B24 + s[1] * B16 + s[2] * B8 + s[3]
  }

  function Le32(v: int): (s: seq<byte>)
  {
    [ByteOf(v, 0), ByteOf(v, 1), ByteOf(v, 2), ByteOf(v, 3)]
  }

  function Be32(v: int): (s: seq<byte>)
  {
    [ByteOf(v, 3), ByteOf(v, 2), ByteOf(v, 1), ByteOf(v, 0)]
  }

  lemma BytesOfInt(v: int)
    ensures ByteOf(v, 0) + ByteOf(v, 1) * B8 + ByteOf(v, 2) * B16 + ByteOf(v, 3) * B24 == v % B32
  {
    var q := v / B8;
    assert v == q * B8 + v % B8;
    var q2 := q / B8;
    assert q == q2 * B8 + q % B8;
    var q3 := q2 / B8;
    assert q2 == q3 * B8 + q2 % B8;
    var q4 := q3 / B8;
    assert q3 == q4 * B8 + q3 % B8;
    assert v / B16 == q2;
    assert v / B24 == q3;
  }

  /** Cutting an integer into four bytes and joining them again keeps it modulo 2^32, in either order. */
  lemma RoundTrip32(v: int)
    ensures FromLe32(Le32(v)) == v % B32
    ensures FromBe32(Be32(v)) == v % B32
  {
    BytesOfInt(v);
  }

  /** Joining four bytes and cutting the result again gives the same bytes. */
  lemma RoundTripBytes(s: seq<byte>)
    requires |s| == 4
    ensures Le32(FromLe32(s)) == s
    ensures Be32(FromBe32(s)) == s
  {
    Cut(s[0], s[1], s[2], s[3]);
    Cut(s[3], s[2], s[1], s[0]);
  }

  lemma Cut(a: byte, b: byte, c: byte, d: byte)
    ensures var v := a + b * B8 + c * B16 + d * B24;
            ByteOf(v, 0) == a && ByteOf(v, 1) == b && ByteOf(v, 2) == c && ByteOf(v, 3) == d
  {
    var v := a + b * B8 + c * B16 + d * B24;
    assert v / B8 == b + c * B8 + d * B16;
    assert v / B16 == c + d * B8;
    assert v / B24 == d;
  }

  /** Which byte counts for what: a little-endian number begins with its lowest byte, a big-endian one ends with it. */
  lemma Weights(a: byte, b: byte, c: byte, d: byte)
    ensures FromLe32([a, b, c, d]) == FromBe32([d, c, b, a])
    ensures var v := FromLe32([a, b, c, d]);
            v % 256 == a && v / 256 % 256 == b && v / 65536 % 256 == c && v / 16777216 == d
  {
    Cut(a, b, c, d);
  }

  lemma MulOrdered(j: nat, k: nat, block: nat)
    requires j <= k
    ensures j * block <= k * block
  {}

  lemma MulNext(k: nat, block: nat)
    ensures (k + 1) * block == k * block + block
  {}

  /** Quotient and remainder are the only ones there are. */
  lemma DivIs(x: nat, d: nat, q: nat, r: nat)
    requires r < d && x == q * d + r
    ensures x / d == q && x % d == r
  {
    var a := x / d;
    assert x == a * d + x % d;
    if a < q {
      MulNext(a, d);
      MulOrdered(a + 1, q, d);
    } else if q < a {
      MulNext(q, d);
      MulOrdered(q + 1, a, d);
    }
  }
}
