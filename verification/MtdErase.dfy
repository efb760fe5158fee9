/** Erasing a whole flash partition block by block, with the 32-bit loop counter of the original. */
module MtdErase {
  import opened Bytes

  /** One erase request to the kernel. */
  datatype EraseInfo = EraseInfo(start: uint32, length: uint32)

  /** The loop counter after `k` turns: the additions wrap at 2^32. */
  function Counter(k: nat, block: uint32): (i: uint32) {
    k * block % B32
  }

  /** Some turn of the loop finds the counter at or past the size. */
  ghost predicate Stops(size: uint32, block: uint32) {
    exists k: nat :: Counter(k, block) >= size
  }

  /** Turn `n` is the first one that does. */
  ghost predicate StopsAt(size: uint32, block: uint32, n: nat) {
    Counter(n, block) >= size && forall k: nat :: k < n ==> Counter(k, block) < size
  }

  lemma {:induction false} FirstStop(size: uint32, block: uint32, k: nat) returns (n: nat)
    requires Counter(k, block) >= size
    ensures StopsAt(size, block, n)
    decreases k
  {
    if j: nat :| j < k && Counter(j, block) >= size {
      n := FirstStop(size, block, j);
    } else {
      n := k;
    }
  }

  /** The loop, on every input on which it comes to an end: the requests made on the way to its first stop. */
  method Erase(size: uint32, block: uint32) returns (erased: seq<EraseInfo>)
    requires Stops(size, block)
    ensures StopsAt(size, block, |erased|)
    ensures forall k :: 0 <= k < |erased| ==> erased[k] == EraseInfo(Counter(k, block), block)
  {
    ghost var k: nat :| Counter(k, block) >= size;
    ghost var n := FirstStop(size, block, k);
    erased := [];
    var i: uint32 := 0;
    while i < size
      invariant i == Counter(|erased|, block) && |erased| <= n
      invariant forall k :: 0 <= k < |erased| ==> erased[k] == EraseInfo(Counter(k, block), block)
      decreases n - |erased|
    {
      CounterNext(|erased|, block);
      erased := erased + [EraseInfo(i, block)];
      i := (i + block) % B32;
    }
  }

  lemma CounterNext(k: nat, block: uint32)
    ensures Counter(k + 1, block) == (Counter(k, block) + block) % B32
  {
    assert (k + 1) * block == k * block + block;
    ModAdd(k * block, block);
  }

  lemma ModAdd(x: nat, y: nat)
    ensures (x + y) % B32 == (x % B32 + y) % B32
  {
    var q, r := x / B32, x % B32;
    assert x + y == (r + y) + q * B32;
  }

  // ---------------------------------------------------------------- one pass

  /** The blocks that a partition of `size` bytes starts. */
  function Blocks(size: uint32, block: uint32): (n: nat) {
    if block == 0 then 0 else (size + block - 1) / block
  }

  /** The end of the last block is still a 32-bit number. */
  predicate EndFits(size: uint32, block: uint32) {
    size == 0 || (block > 0 && Blocks(size, block) * block < B32)
  }

  lemma BlocksCover(size: uint32, block: uint32)
    requires block > 0
    ensures size <= Blocks(size, block) * block < size + block
  {}

  /** Before the last block's end nothing wraps. */
  lemma BelowBlocks(size: uint32, block: uint32, k: nat)
    requires block > 0 && k < Blocks(size, block)
    ensures Counter(k, block) == k * block < size
  {
    BlocksCover(size, block);
    MulOrdered(k + 1, Blocks(size, block), block);
    MulNext(k, block);
  }

  /** The loop stops after one request for each started block if and only if the end of the last one fits. */
  lemma OnePassIff(size: uint32, block: uint32)
    requires block > 0
    ensures StopsAt(size, block, Blocks(size, block)) <==> EndFits(size, block)
  {
    var n := Blocks(size, block);
    BlocksCover(size, block);
    forall k: nat | k < n ensures Counter(k, block) < size {
      BelowBlocks(size, block, k);
    }
    if n * block >= B32 {
      assert n * block % B32 == n * block - B32;
    }
  }

  lemma {:induction false} StopsOnce(size: uint32, block: uint32, m: nat, n: nat)
    requires StopsAt(size, block, m) && StopsAt(size, block, n)
    ensures m == n
  {
    assert m < n ==> Counter(m, block) < size;
    assert n < m ==> Counter(n, block) < size;
  }

  ghost predicate In(x: int, e: EraseInfo) {
    e.start <= x < e.start + e.length
  }

  /**
   * If the end fits, the requests tile the partition: each byte up to the last block's end is in exactly one of them.
   */
  lemma Tiles(size: uint32, block: uint32, erased: seq<EraseInfo>, x: nat) returns (k: nat)
    requires block > 0 && EndFits(size, block) && StopsAt(size, block, |erased|) && x < Blocks(size, block) * block
    requires forall j :: 0 <= j < |erased| ==> erased[j] == EraseInfo(Counter(j, block), block)
    ensures |erased| == Blocks(size, block) && size <= |erased| * block < size + block
    ensures k < |erased| && forall j :: 0 <= j < |erased| ==> (In(x, erased[j]) <==> j == k)
  {
    OnePassIff(size, block);
    StopsOnce(size, block, |erased|, Blocks(size, block));
    BlocksCover(size, block);
    k := WhichBlock(x, block, |erased|);
    forall j | 0 <= j < |erased|
      ensures In(x, erased[j]) <==> j == k
    {
      BelowBlocks(size, block, j);
      InBlockIff(x, block, j, k);
    }
  }

  lemma InBlockIff(x: nat, block: nat, j: nat, k: nat)
    requires k * block <= x < k * block + block
    ensures j * block <= x < j * block + block <==> j == k
  {
    if j < k {
      MulOrdered(j + 1, k, block);
      MulNext(j, block);
    } else if k < j {
      MulOrdered(k + 1, j, block);
      MulNext(k, block);
    }
  }

  lemma WhichBlock(x: nat, block: nat, n: nat) returns (k: nat)
    requires block > 0 && x < n * block
    ensures k < n && k * block <= x < k * block + block
  {
    k := x / block;
    if n <= k {
      MulOrdered(n, k, block);
    }
  }

  // ---------------------------------------------------------------- every block size

  /** How often two divides the number. */
  function Twos(x: nat): nat
    requires x > 0
  {
    if x % 2 == 1 then 0 else 1 + Twos(x / 2)
  }

  function OddPart(x: nat): (odd: nat)
    requires x > 0
    ensures odd % 2 == 1
  {
    if x % 2 == 1 then x else OddPart(x / 2)
  }

  /** The largest power of two that divides the block size. */
  function Grain(block: nat): (g: nat)
    requires block > 0
    ensures g > 0
  {
    Pow2(Twos(block))
  }

  lemma {:induction false} GrainDivides(x: nat)
    requires x > 0
    ensures x == OddPart(x) * Grain(x)
  {
    if x % 2 == 0 {
      GrainDivides(x / 2);
      assert Grain(x) == 2 * Grain(x / 2);
      Doubled(OddPart(x), Grain(x / 2));
    }
  }

  /** No larger power of two divides the number. */
  lemma {:induction false} GrainIsLargest(x: nat, c: nat, n: nat)
    requires x > 0 && x == c * Pow2(n)
    ensures n <= Twos(x)
    decreases n
  {
    if n > 0 {
      Doubled(c, Pow2(n - 1));
      GrainIsLargest(x / 2, c, n - 1);
    }
  }

  lemma Doubled(c: nat, p: nat)
    ensures c * (2 * p) == 2 * (c * p)
  {}

  lemma {:induction false} Pow2Sum(m: nat, n: nat)
    ensures Pow2(m) * Pow2(n) == Pow2(m + n)
  {
    if m > 0 {
      Pow2Sum(m - 1, n);
      Doubled(Pow2(n), Pow2(m - 1));
    }
  }

  lemma Pow32()
    ensures Pow2(32) == B32
  {
    assert Pow2(4) == 2 * Pow2(3) == 4 * Pow2(2) == 8 * Pow2(1) == 16;
    Pow2Sum(4, 4);
    Pow2Sum(8, 8);
    Pow2Sum(16, 16);
  }

  /** An odd number has a multiple just below a multiple of any power of two. */
  lemma {:induction false} OddReachesTop(odd: nat, n: nat) returns (k: nat, t: nat)
    requires odd % 2 == 1
    ensures k * odd == t * Pow2(n) + (Pow2(n) - 1)
  {
    if n == 0 {
      k, t := 0, 0;
    } else {
      var p := Pow2(n - 1);
      k, t := OddReachesTop(odd, n - 1);
      if t % 2 == 0 {
        Distribute(k, p, odd);
        Distribute(t, odd, p);
        k, t := k + p, t + odd;
      }
      Halves(t, p);
      t := t / 2;
    }
  }

  lemma Distribute(a: nat, b: nat, c: nat)
    ensures (a + b) * c == a * c + b * c
  {}

  lemma Halves(t: nat, p: nat)
    requires t % 2 == 1
    ensures t * p == t / 2 * (2 * p) + p
  {
    assert t == 2 * (t / 2) + 1;
    Distribute(2 * (t / 2), 1, p);
  }

  lemma Multiple(k: nat, g: nat, q: nat)
    requires g > 0 && q * g == B32
    ensures q > 0 && k * g % B32 == k % q * g <= B32 - g
  {
    var a, r := k / q, k % q;
    assert k == a * q + r;
    Distribute(a * q, r, g);
    Regroup(a, q, g);
    MulOrdered(r, q - 1, g);
    MulNext(q - 1, g);
    DivIs(k * g, B32, a, r * g);
  }

  lemma Regroup(a: nat, b: nat, c: nat)
    ensures a * b * c == a * (b * c)
  {}

  /** The counter takes multiples of the grain only, so it never passes the last one below 2^32. */
  lemma CounterAtMost(block: uint32, k: nat)
    requires block > 0
    ensures Counter(k, block) <= B32 - Grain(block)
  {
    var q := GrainSplits(block);
    GrainDivides(block);
    Regroup(k, OddPart(block), Grain(block));
    Multiple(k * OddPart(block), Grain(block), q);
  }

  /** And it reaches that one. */
  lemma CounterReaches(block: uint32) returns (k: nat)
    requires block > 0
    ensures Counter(k, block) == B32 - Grain(block)
  {
    var g, odd := Grain(block), OddPart(block);
    var q := GrainSplits(block);
    GrainDivides(block);
    var t;
    k, t := OddReachesTop(odd, 32 - Twos(block));
    DivIs(k * odd, q, t, q - 1);
    Regroup(k, odd, g);
    Multiple(k * odd, g, q);
    MulNext(q - 1, g);
  }

  lemma GrainSplits(block: uint32) returns (q: nat)
    requires block > 0
    ensures q * Grain(block) == B32 && Twos(block) <= 32 && q == Pow2(32 - Twos(block))
  {
    var v := Twos(block);
    Pow32();
    GrainDivides(block);
    if v > 32 {
      Pow2Sum(v - 32, 32);
      MulOrdered(1, Pow2(v - 32), B32);
      MulOrdered(1, OddPart(block), Grain(block));
    }
    q := Pow2(32 - v);
    Pow2Sum(32 - v, v);
  }

  /**
   * For every erase size: the loop ends if and only if the size leaves room below 2^32 for the largest power of two
   * that divides the erase size. Otherwise it erases for ever.
   */
  lemma StopsIff(size: uint32, block: uint32)
    requires block > 0
    ensures Stops(size, block) <==> size <= B32 - Grain(block)
  {
    var top := CounterReaches(block);
    forall k: nat ensures Counter(k, block) <= B32 - Grain(block) {
      CounterAtMost(block, k);
    }
  }

  /** An erase size of zero never gets anywhere. */
  lemma ZeroBlockStopsIff(size: uint32)
    ensures Stops(size, 0) <==> size == 0
  {
    assert Counter(0, 0) == 0;
    forall k: nat ensures Counter(k, 0) == 0 {}
  }
}
