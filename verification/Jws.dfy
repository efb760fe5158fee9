/** Fixed-width encoding of ECDSA signatures and public key coordinates for JSON Web Signatures. */
module Jws {
  import opened Bytes
  import opened Wrappers

  datatype Curve = Curve(name: string, bitSize: nat)

  datatype Key = Rsa | Ecdsa(curve: Curve) | OtherKey

  datatype Hash = NoHash | SHA256 | SHA384 | SHA512

  /** The algorithm and hash for a key; the empty name if the key is not supported. */
  function Hasher(key: Key): (string, Hash) {
    match key
    case Rsa => ("RS256", SHA256)
    case Ecdsa(c) =>
      if c.name == "P-256" then ("ES256", SHA256)
      else if c.name == "P-384" then ("ES384", SHA384)
      else if c.name == "P-521" then ("ES512", SHA512)
      else ("", NoHash)
    case OtherKey => ("", NoHash)
  }

  // ---------------------------------------------------------------- big integers

  /** big.Int's Bytes: big-endian, no leading zero byte, nothing at all for zero. */
  function BigBytes(x: nat): (b: seq<byte>)
    ensures x > 0 ==> |b| > 0 && b[0] > 0
    ensures x == 0 ==> b == []
  {
    if x == 0 then [] else BigBytes(x / B8) + [x % B8]
  }

  /** The big-endian value of any bytes. */
  function FromBig(b: seq<byte>): nat {
    if b == [] then 0 else FromBig(b[..|b| - 1]) * B8 + b[|b| - 1]
  }

  lemma {:induction false} FromBigBytes(x: nat)
    ensures FromBig(BigBytes(x)) == x
  {
    if x > 0 {
      FromBigBytes(x / B8);
      assert BigBytes(x)[..|BigBytes(x)| - 1] == BigBytes(x / B8);
    }
  }

  lemma Pow2Byte(n: nat)
    ensures Pow2(n + 8) == B8 * Pow2(n)
  {
    assert Pow2(n + 8) == 2 * Pow2(n + 7) == 4 * Pow2(n + 6) == 8 * Pow2(n + 5) == 16 * Pow2(n + 4);
    assert Pow2(n + 4) == 2 * Pow2(n + 3) == 4 * Pow2(n + 2) == 8 * Pow2(n + 1) == 16 * Pow2(n);
  }

  lemma {:induction false} Pow2Grows(n: nat, m: nat)
    requires n <= m
    ensures Pow2(n) <= Pow2(m)
    decreases m
  {
    if n < m {
      Pow2Grows(n, m - 1);
    }
  }

  /** A number takes at most `w` bytes exactly when it is below 2^(8w). */
  lemma {:induction false} BytesFitIff(x: nat, w: nat)
    ensures |BigBytes(x)| <= w <==> x < Pow2(8 * w)
    decreases w
  {
    if w > 0 && x > 0 {
      BytesFitIff(x / B8, w - 1);
      Pow2Byte(8 * (w - 1));
      var p := Pow2(8 * (w - 1));
      assert x / B8 < p <==> x < B8 * p;
    }
  }

  lemma {:induction false} FromBigBound(b: seq<byte>)
    ensures FromBig(b) < Pow2(8 * |b|)
    decreases |b|
  {
    if b != [] {
      FromBigBound(b[..|b| - 1]);
      Pow2Byte(8 * (|b| - 1));
    }
  }

  function Zeros(n: nat): seq<byte> { seq(n, i => 0) }

  /** Leading zero bytes do not change the value. */
  lemma {:induction false} FromBigPadded(n: nat, b: seq<byte>)
    ensures FromBig(Zeros(n) + b) == FromBig(b)
    decreases n + |b|
  {
    var z := Zeros(n) + b;
    if b != [] {
      FromBigPadded(n, b[..|b| - 1]);
      assert z[..|z| - 1] == Zeros(n) + b[..|b| - 1];
    } else if n > 0 {
      FromBigPadded(n - 1, b);
      assert z[..|z| - 1] == Zeros(n - 1) + b;
    }
  }

  // ---------------------------------------------------------------- widths

  /** The width jwsSign computes: rounded up when the byte count, not the bit count, is no multiple of 8. */
  function SignSize(bits: nat): nat {
    var size := bits / 8;
    if size % 8 > 0 then size + 1 else size
  }

  /** The width jwkEncode computes. */
  function JwkSize(bits: nat): nat {
    var n := bits / 8;
    if bits % 8 != 0 then n + 1 else n
  }

  /** jwkEncode's width is the least number of bytes that hold `bits` bits. */
  lemma JwkSizeIsCeiling(bits: nat)
    ensures 8 * (JwkSize(bits) - 1) < bits || bits == 0
    ensures bits <= 8 * JwkSize(bits)
  {}

  /** The two widths agree exactly on these bit sizes; jwsSign is one short just above a multiple of 64. */
  lemma SizesAgreeIff(bits: nat)
    ensures SignSize(bits) == JwkSize(bits) <==> bits % 64 == 0 || (bits % 64 > 8 && bits % 8 != 0)
    ensures SignSize(bits) < JwkSize(bits) <==> 0 < bits % 64 < 8
  {
    var q, r := bits / 64, bits % 64;
    assert bits == 64 * q + r;
    assert bits / 8 == 8 * q + r / 8;
    assert bits / 8 % 8 == r / 8;
    assert bits % 8 == r % 8;
  }

  /** A curve that carries its own standard's field size (section 3.1 of RFC 7518 names the three). */
  predicate Genuine(c: Curve) {
    && (c.name == "P-256" ==> c.bitSize == 256)
    && (c.name == "P-384" ==> c.bitSize == 384)
    && (c.name == "P-521" ==> c.bitSize == 521)
  }

  lemma AcceptedSizes(c: Curve)
    requires Genuine(c) && Hasher(Ecdsa(c)).0 != ""
    ensures SignSize(c.bitSize) == JwkSize(c.bitSize)
  {
    SizesAgreeIff(c.bitSize);
  }

  // ---------------------------------------------------------------- jwkEncode's coordinates

  function Coordinate(x: nat, n: nat): (b: seq<byte>)
  {
    var b := BigBytes(x);
    if n > |b| then Zeros(n - |b|) + b else b
  }

  /** Section 6.2.1.2 of RFC 7518: the full width of the field, and the coordinate's value. */
  lemma CoordinateIs(x: nat, bits: nat)
    requires x < Pow2(bits)
    ensures var b := Coordinate(x, JwkSize(bits)); |b| == JwkSize(bits) && FromBig(b) == x
  {
    var n := JwkSize(bits);
    Fits(x, bits, n);
    Padded(x, n);
  }

  lemma Fits(x: nat, bits: nat, n: nat)
    requires x < Pow2(bits) && bits <= 8 * n
    ensures |BigBytes(x)| <= n
  {
    Pow2Grows(bits, 8 * n);
    BytesFitIff(x, n);
  }

  // ---------------------------------------------------------------- jwsSign's signature

  /** What the two copies leave: the second one ends at the end, and may reach into the first half. */
  function Overlaid(r: nat, s: nat, size: nat): (b: seq<byte>)
    requires |BigBytes(r)| <= size && |BigBytes(s)| <= 2 * size
    ensures |b| == 2 * size
  {
    var rb, sb := BigBytes(r), BigBytes(s);
    (Zeros(size - |rb|) + rb + Zeros(size))[..2 * size - |sb|] + sb
  }

  /** The ECDSA part of jwsSign, for a signature (r, s). None stands for the panic of a negative slice bound. */
  method Sign(r: nat, s: nat, bits: nat) returns (sig: Option<array<byte>>)
    ensures sig.None? <==> |BigBytes(r)| > SignSize(bits) || |BigBytes(s)| > 2 * SignSize(bits)
    ensures sig.Some? ==> fresh(sig.value) && sig.value[..] == Overlaid(r, s, SignSize(bits))
  {
    var rb, sb := BigBytes(r), BigBytes(s);
    var size := bits / 8;
    if size % 8 > 0 {
      size := size + 1;
    }
    var a := new byte[size * 2](i => 0);
    if |rb| > size {
      return None;
    }
    var at := size - |rb|;
    forall i | 0 <= i < |rb| { a[at + i] := rb[i]; }
    ghost var mid := a[..];
    assert mid == Zeros(size - |rb|) + rb + Zeros(size);
    if |sb| > 2 * size {
      return None;
    }
    at := size * 2 - |sb|;
    forall i | 0 <= i < |sb| { a[at + i] := sb[i]; }
    assert a[..] == mid[..at] + sb;
    return Some(a);
  }

  ghost predicate Halves(b: seq<byte>, r: nat, s: nat, size: nat)
    requires |b| == 2 * size
  {
    FromBig(b[..size]) == r && FromBig(b[size..]) == s
  }

  /** When both numbers fit the width, the signature is the two fixed-width encodings side by side. */
  lemma SideBySide(r: nat, s: nat, size: nat)
    requires |BigBytes(r)| <= size && |BigBytes(s)| <= size
    ensures Overlaid(r, s, size) == Coordinate(r, size) + Coordinate(s, size)
  {
    var rb, sb := BigBytes(r), BigBytes(s);
    PaddedForm(r, size);
    PaddedForm(s, size);
    Laid(rb, sb, size);
  }

  lemma PaddedForm(x: nat, n: nat)
    requires |BigBytes(x)| <= n
    ensures Coordinate(x, n) == Zeros(n - |BigBytes(x)|) + BigBytes(x)
  {
    if n == |BigBytes(x)| {
      assert Zeros(0) + BigBytes(x) == BigBytes(x);
    }
  }

  lemma Laid(rb: seq<byte>, sb: seq<byte>, size: nat)
    requires |rb| <= size && |sb| <= size
    ensures (Zeros(size - |rb|) + rb + Zeros(size))[..2 * size - |sb|] + sb
         == Zeros(size - |rb|) + rb + (Zeros(size - |sb|) + sb)
  {
    var x := Zeros(size - |rb|) + rb;
    assert (x + Zeros(size))[..2 * size - |sb|] == x + Zeros(size - |sb|);
  }

  /** The halves read back as r and s exactly when both are below 2^(8 * size). */
  lemma HalvesIff(r: nat, s: nat, size: nat)
    requires |BigBytes(r)| <= size && |BigBytes(s)| <= 2 * size
    ensures Halves(Overlaid(r, s, size), r, s, size) <==> s < Pow2(8 * size)
  {
    var b := Overlaid(r, s, size);
    BytesFitIff(s, size);
    if |BigBytes(s)| <= size {
      SideBySide(r, s, size);
      var x, y := Coordinate(r, size), Coordinate(s, size);
      assert b[..size] == x && b[size..] == y;
      Padded(r, size);
      Padded(s, size);
    } else {
      FromBigBound(b[size..]);
    }
  }

  lemma Padded(x: nat, n: nat)
    requires |BigBytes(x)| <= n
    ensures |Coordinate(x, n)| == n && FromBig(Coordinate(x, n)) == x
  {
    FromBigPadded(n - |BigBytes(x)|, BigBytes(x));
    FromBigBytes(x);
    PaddedForm(x, n);
  }

  /**
   * Section 3.4 of RFC 7518, for every curve the hasher accepts: jwsSign does not panic, and what it leaves in the
   * buffer has twice the field's width, is made of the two numbers encoded as jwkEncode encodes coordinates, and its
   * halves read back as r and s.
   */
  lemma SignAccepted(r: nat, s: nat, c: Curve)
    requires Genuine(c) && Hasher(Ecdsa(c)).0 != "" && r < Pow2(c.bitSize) && s < Pow2(c.bitSize)
    ensures |BigBytes(r)| <= SignSize(c.bitSize) && |BigBytes(s)| <= 2 * SignSize(c.bitSize)
    ensures var sig, n := Overlaid(r, s, SignSize(c.bitSize)), JwkSize(c.bitSize);
            && |sig| == 2 * n && Halves(sig, r, s, n)
            && sig == Coordinate(r, n) + Coordinate(s, n)
  {
    var size := JwkSize(c.bitSize);
    AcceptedSizes(c);
    Fits(r, c.bitSize, size);
    Fits(s, c.bitSize, size);
    BytesFitIff(s, size);
    HalvesIff(r, s, size);
    SideBySide(r, s, size);
  }

  /** Where jwsSign's width is one short, some signature below 2^bitSize cannot be encoded at all. */
  lemma ShortWidthFails(bits: nat)
    ensures (exists r: nat :: r < Pow2(bits) && |BigBytes(r)| > SignSize(bits)) <==> 0 < bits % 64 < 8
  {
    var size := SignSize(bits);
    SizesAgreeIff(bits);
    JwkSizeIsCeiling(bits);
    if 0 < bits % 64 < 8 {
      var r := Pow2(8 * size);
      Pow2Grows(8 * size + 1, bits);
      BytesFitIff(r, size);
      assert r < Pow2(bits) && |BigBytes(r)| > size;
    } else {
      forall r: nat | r < Pow2(bits) ensures |BigBytes(r)| <= size {
        Fits(r, bits, size);
      }
    }
  }
}
