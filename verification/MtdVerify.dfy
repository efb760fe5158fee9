/** Verification of a flash partition against an image, whatever the two readers deliver. */
module MtdVerify {
  import opened Bytes
  import opened Wrappers

  datatype Err = Nil | EOF | Failure

  /**
   * What one Read does: the bytes it delivers, what it leaves in the rest of the buffer if it uses it as scratch, and
   * its error.
   */
  datatype Chunk = Chunk(data: seq<byte>, scratch: Option<seq<byte>>, err: Err)

  /** What a reader answers to each of its reads, for ever. */
  type Reads = nat -> Chunk

  /** The read fits a buffer of `size` bytes. */
  predicate Fits(c: Chunk, size: nat) {
    |c.data| <= size && (c.scratch.Some? ==> |c.data| + |c.scratch.value| == size)
  }

  ghost predicate Proper(s: Reads, size: nat) {
    forall i: nat :: Fits(s(i), size)
  }

  /** A buffer after a read. */
  function Filled(b: seq<byte>, c: Chunk): (r: seq<byte>)
    requires Fits(c, |b|)
    ensures |r| == |b|
  {
    c.data + if c.scratch.Some? then c.scratch.value else b[|c.data|..]
  }

  /** A reader's buffer after its first `n` reads. */
  ghost function Buffer(s: Reads, size: nat, n: nat): (b: seq<byte>)
    requires Proper(s, size)
    ensures |b| == size
  {
    if n == 0 then seq(size, i => 0) else Filled(Buffer(s, size, n - 1), s(n - 1))
  }

  class Reader {
    const answers: Reads
    var pos: nat

    constructor (answers: Reads)
      ensures this.answers == answers && pos == 0
    {
      this.answers := answers;
      pos := 0;
    }

    method Read(b: array<byte>) returns (n: nat, err: Err)
      requires Fits(answers(pos), b.Length)
      modifies `pos, b
      ensures pos == old(pos) + 1
      ensures n == |answers(old(pos)).data| && err == answers(old(pos)).err
      ensures b[..] == Filled(old(b[..]), answers(old(pos)))
    {
      var c := answers(pos);
      pos := pos + 1;
      n, err := |c.data|, c.err;
      forall i | 0 <= i < n { b[i] := c.data[i]; }
      if c.scratch.Some? {
        forall i | n <= i < b.Length { b[i] := c.scratch.value[i - n]; }
      }
    }
  }

  // ---------------------------------------------------------------- the loop

  /** What the loop makes of one pair of reads: a verdict, or another turn. */
  function Decide(c1: Chunk, c2: Chunk, b1: seq<byte>, b2: seq<byte>): Option<bool> {
    if |c1.data| != |c2.data| then Some(false)
    else if b1 != b2 then Some(false)
    else if c1.err != Nil && c2.err != EOF then Some(false)
    else if c2.err != Nil && c2.err != EOF then Some(false)
    else if c1.err == EOF && c2.err == EOF then Some(true)
    else None
  }

  ghost function DecideAt(s1: Reads, s2: Reads, size: nat, i: nat): Option<bool>
    requires Proper(s1, size) && Proper(s2, size)
  {
    Decide(s1(i), s2(i), Buffer(s1, size, i + 1), Buffer(s2, size, i + 1))
  }

  /** The loop returns at turn `n`. */
  ghost predicate ReturnsAt(s1: Reads, s2: Reads, size: nat, n: nat)
    requires Proper(s1, size) && Proper(s2, size)
  {
    DecideAt(s1, s2, size, n).Some? && forall i: nat :: i < n ==> DecideAt(s1, s2, size, i).None?
  }

  ghost predicate Returns(s1: Reads, s2: Reads, size: nat)
    requires Proper(s1, size) && Proper(s2, size)
  {
    exists n: nat :: ReturnsAt(s1, s2, size, n)
  }

  /** The loop, on all readers on which it comes to an end. */
  method Verify(f: Reader, flash: Reader, size: nat) returns (ok: bool, ghost n: nat)
    requires f != flash && f.pos == 0 && flash.pos == 0 && Proper(f.answers, size) && Proper(flash.answers, size)
    requires Returns(f.answers, flash.answers, size)
    modifies f, flash
    ensures ReturnsAt(f.answers, flash.answers, size, n) && DecideAt(f.answers, flash.answers, size, n) == Some(ok)
  {
    n :| ReturnsAt(f.answers, flash.answers, size, n);
    var buf1 := new byte[size](i => 0);
    var buf2 := new byte[size](i => 0);
    ghost var i := 0;
    while true
      invariant f.pos == flash.pos == i <= n
      invariant buf1[..] == Buffer(f.answers, size, i) && buf2[..] == Buffer(flash.answers, size, i)
      decreases n - i
    {
      var n1, err1 := f.Read(buf1);
      var n2, err2 := flash.Read(buf2);
      assert i < n ==> DecideAt(f.answers, flash.answers, size, i).None?;
      if n1 != n2 {
        return false, n;
      }
      if buf1[..] != buf2[..] {
        return false, n;
      }
      if err1 != Nil && err2 != EOF {
        return false, n;
      }
      if err2 != Nil && err2 != EOF {
        return false, n;
      }
      if err1 == EOF && err2 == EOF {
        break;
      }
      i := i + 1;
    }
    return true, n;
  }

  // ---------------------------------------------------------------- what the verdict means

  /**
   * Reads number `i` agree: the same bytes, no flash error, and no end or error of the image before the flash's end.
   */
  ghost predicate Agree(s1: Reads, s2: Reads, i: nat) {
    && s1(i).data == s2(i).data
    && s2(i).err != Failure
    && (s1(i).err == Nil || s2(i).err == EOF)
  }

  ghost predicate SameBuffers(s1: Reads, s2: Reads, size: nat, i: nat)
    requires Proper(s1, size) && Proper(s2, size)
  {
    Buffer(s1, size, i + 1) == Buffer(s2, size, i + 1)
  }

  ghost predicate BothAtEnd(s1: Reads, s2: Reads, i: nat) {
    s1(i).err == EOF && s2(i).err == EOF
  }

  lemma SameData(b1: seq<byte>, b2: seq<byte>, c1: Chunk, c2: Chunk)
    requires |b1| == |b2| && Fits(c1, |b1|) && Fits(c2, |b2|)
    requires |c1.data| == |c2.data| && Filled(b1, c1) == Filled(b2, c2)
    ensures c1.data == c2.data
  {
    assert Filled(b1, c1)[..|c1.data|] == c1.data && Filled(b2, c2)[..|c2.data|] == c2.data;
  }

  /** One turn: it refuses if and only if the reads disagree or the buffers differ, and passes only at both ends. */
  lemma DecideIff(s1: Reads, s2: Reads, size: nat, i: nat)
    requires Proper(s1, size) && Proper(s2, size)
    ensures DecideAt(s1, s2, size, i) == Some(false) <==> !(Agree(s1, s2, i) && SameBuffers(s1, s2, size, i))
    ensures DecideAt(s1, s2, size, i) == Some(true)
       <==> Agree(s1, s2, i) && SameBuffers(s1, s2, size, i) && BothAtEnd(s1, s2, i)
  {
    var b1, b2 := Buffer(s1, size, i), Buffer(s2, size, i);
    if |s1(i).data| == |s2(i).data| && Filled(b1, s1(i)) == Filled(b2, s2(i)) {
      SameData(b1, b2, s1(i), s2(i));
    }
  }

  lemma {:induction false} FirstReturn(s1: Reads, s2: Reads, size: nat, k: nat) returns (n: nat)
    requires Proper(s1, size) && Proper(s2, size) && DecideAt(s1, s2, size, k).Some?
    ensures n <= k && ReturnsAt(s1, s2, size, n)
  {
    if j: nat :| j < k && DecideAt(s1, s2, size, j).Some? {
      n := FirstReturn(s1, s2, size, j);
    } else {
      n := k;
    }
  }

  /**
   * Verify comes back if and only if some reads disagree, the buffers differ after some reads, or both readers are at
   * their end at the same read.
   */
  lemma ReturnsIff(s1: Reads, s2: Reads, size: nat)
    requires Proper(s1, size) && Proper(s2, size)
    ensures Returns(s1, s2, size)
       <==> exists i: nat :: !Agree(s1, s2, i) || !SameBuffers(s1, s2, size, i) || BothAtEnd(s1, s2, i)
  {
    forall i: nat
      ensures DecideAt(s1, s2, size, i).Some?
         <==> !Agree(s1, s2, i) || !SameBuffers(s1, s2, size, i) || BothAtEnd(s1, s2, i)
    {
      DecideIff(s1, s2, size, i);
    }
    if i: nat :| !Agree(s1, s2, i) || !SameBuffers(s1, s2, size, i) || BothAtEnd(s1, s2, i) {
      var n := FirstReturn(s1, s2, size, i);
    } else if Returns(s1, s2, size) {
      var n: nat :| ReturnsAt(s1, s2, size, n);
      assert DecideAt(s1, s2, size, n).Some?;
    }
  }

  /** Verify returns true. */
  ghost predicate Passes(s1: Reads, s2: Reads, size: nat)
    requires Proper(s1, size) && Proper(s2, size)
  {
    exists n: nat :: ReturnsAt(s1, s2, size, n) && DecideAt(s1, s2, size, n) == Some(true)
  }

  /**
   * Up to read `n`, everything agrees and the buffers are equal; at `n`, and not before, both readers are at their end.
   */
  ghost predicate GoodUntil(s1: Reads, s2: Reads, size: nat, n: nat)
    requires Proper(s1, size) && Proper(s2, size)
  {
    && BothAtEnd(s1, s2, n)
    && (forall i: nat :: i <= n ==> Agree(s1, s2, i) && SameBuffers(s1, s2, size, i))
    && (forall i: nat :: i < n ==> !BothAtEnd(s1, s2, i))
  }

  /** True if and only if the reads agree and leave equal buffers, one by one, until both readers are at their end. */
  lemma VerdictIff(s1: Reads, s2: Reads, size: nat)
    requires Proper(s1, size) && Proper(s2, size)
    ensures Passes(s1, s2, size) <==> exists n: nat :: GoodUntil(s1, s2, size, n)
  {
    forall n: nat
      ensures ReturnsAt(s1, s2, size, n) && DecideAt(s1, s2, size, n) == Some(true) <==> GoodUntil(s1, s2, size, n)
    {
      GoodIff(s1, s2, size, n);
    }
  }

  lemma GoodIff(s1: Reads, s2: Reads, size: nat, n: nat)
    requires Proper(s1, size) && Proper(s2, size)
    ensures ReturnsAt(s1, s2, size, n) && DecideAt(s1, s2, size, n) == Some(true) <==> GoodUntil(s1, s2, size, n)
  {
    forall i: nat | i <= n
      ensures DecideAt(s1, s2, size, i) == Some(false) <==> !(Agree(s1, s2, i) && SameBuffers(s1, s2, size, i))
      ensures DecideAt(s1, s2, size, i) == Some(true)
         <==> Agree(s1, s2, i) && SameBuffers(s1, s2, size, i) && BothAtEnd(s1, s2, i)
    {
      DecideIff(s1, s2, size, i);
    }
  }

  // ---------------------------------------------------------------- buffers

  /** The reader leaves the part of the buffer it does not fill alone. */
  ghost predicate TailsLeft(s: Reads) {
    forall i: nat :: s(i).scratch.None?
  }

  ghost predicate SameUntil(s1: Reads, s2: Reads, n: nat) {
    forall i: nat :: i < n ==> s1(i).data == s2(i).data
  }

  /** Readers that leave buffer tails alone have equal buffers as long as their reads agree. */
  lemma {:induction false} TailsLeftSame(s1: Reads, s2: Reads, size: nat, n: nat)
    requires Proper(s1, size) && Proper(s2, size) && TailsLeft(s1) && TailsLeft(s2)
    requires SameUntil(s1, s2, n)
    ensures Buffer(s1, size, n) == Buffer(s2, size, n)
  {
    if n > 0 {
      TailsLeftSame(s1, s2, size, n - 1);
      assert s1(n - 1).data == s2(n - 1).data;
    }
  }

  lemma AgreeingSame(s1: Reads, s2: Reads, n: nat)
    requires forall i: nat :: i <= n ==> Agree(s1, s2, i)
    ensures SameUntil(s1, s2, n + 1)
  {
    forall i: nat | i < n + 1 ensures s1(i).data == s2(i).data {
      assert Agree(s1, s2, i);
    }
  }

  /** For two such readers, agreement until both are at their end is all it takes. */
  lemma TailsLeftPasses(s1: Reads, s2: Reads, size: nat, n: nat)
    requires Proper(s1, size) && Proper(s2, size) && TailsLeft(s1) && TailsLeft(s2)
    requires BothAtEnd(s1, s2, n) && forall i: nat :: i < n ==> !BothAtEnd(s1, s2, i)
    ensures Passes(s1, s2, size) <==> forall i: nat :: i <= n ==> Agree(s1, s2, i)
  {
    VerdictIff(s1, s2, size);
    if forall i: nat :: i <= n ==> Agree(s1, s2, i) {
      forall i: nat | i <= n ensures SameBuffers(s1, s2, size, i) {
        AgreeingSame(s1, s2, i);
        TailsLeftSame(s1, s2, size, i + 1);
      }
      assert GoodUntil(s1, s2, size, n);
    }
    if m: nat :| GoodUntil(s1, s2, size, m) {
      assert m == n;
    }
  }

  // ---------------------------------------------------------------- whole streams

  /** What a reader delivers in its first `n` reads. */
  function Delivered(s: Reads, n: nat): seq<byte> {
    if n == 0 then [] else Delivered(s, n - 1) + s(n - 1).data
  }

  lemma {:induction false} AgreeingStreams(s1: Reads, s2: Reads, n: nat)
    requires SameUntil(s1, s2, n)
    ensures Delivered(s1, n) == Delivered(s2, n)
  {
    if n > 0 {
      AgreeingStreams(s1, s2, n - 1);
      assert s1(n - 1).data == s2(n - 1).data;
    }
  }

  /**
   * Whatever the chunks and whatever is left in the buffers: true means that both readers have come to their end and
   * have delivered the same bytes, and that the flash has not failed.
   */
  lemma TrueMeansIdentical(s1: Reads, s2: Reads, size: nat) returns (n: nat)
    requires Proper(s1, size) && Proper(s2, size) && Passes(s1, s2, size)
    ensures BothAtEnd(s1, s2, n) && Delivered(s1, n + 1) == Delivered(s2, n + 1)
    ensures forall i: nat :: i <= n ==> s2(i).err != Failure
  {
    VerdictIff(s1, s2, size);
    n :| GoodUntil(s1, s2, size, n);
    AgreeingSame(s1, s2, n);
    AgreeingStreams(s1, s2, n + 1);
    forall i: nat | i <= n ensures s2(i).err != Failure {
      assert Agree(s1, s2, i);
    }
  }

  // ---------------------------------------------------------------- readers that come to an end

  /** A reader that answers `script` and then, for ever, without data and with `end`. */
  function Ending(script: seq<Chunk>, end: Err): Reads {
    (i: nat) => if i < |script| then script[i] else Chunk([], None, end)
  }

  function Longer(s1: seq<Chunk>, s2: seq<Chunk>): nat { if |s1| < |s2| then |s2| else |s1| }

  /** Within the scripts nothing makes Verify return. */
  ghost predicate GoesOn(s1: Reads, s2: Reads, size: nat, n: nat)
    requires Proper(s1, size) && Proper(s2, size)
  {
    forall i: nat :: i < n ==> Agree(s1, s2, i) && SameBuffers(s1, s2, size, i) && !BothAtEnd(s1, s2, i)
  }

  lemma {:induction false} EmptyReadsKeep(s1: Reads, s2: Reads, size: nat, m: nat, n: nat)
    requires Proper(s1, size) && Proper(s2, size) && m <= n && Buffer(s1, size, m) == Buffer(s2, size, m)
    requires forall i: nat :: m <= i < n ==>
               s1(i).data == s2(i).data == [] && s1(i).scratch.None? && s2(i).scratch.None?
    ensures Buffer(s1, size, n) == Buffer(s2, size, n)
    decreases n
  {
    if m < n {
      EmptyReadsKeep(s1, s2, size, m, n - 1);
      assert s1(n - 1).data == s2(n - 1).data == [] && s1(n - 1).scratch.None? && s2(n - 1).scratch.None?;
    }
  }

  /**
   * For any two readers that come to an end, by EOF or by failing for good: Verify loops for ever if and only if the
   * image fails for good, the flash is at EOF, and up to there nothing made it return.
   */
  lemma EndingReturnsIff(s1: seq<Chunk>, e1: Err, s2: seq<Chunk>, e2: Err, size: nat)
    requires e1 != Nil && e2 != Nil
    requires forall i :: 0 <= i < |s1| ==> Fits(s1[i], size)
    requires forall i :: 0 <= i < |s2| ==> Fits(s2[i], size)
    ensures Proper(Ending(s1, e1), size) && Proper(Ending(s2, e2), size)
    ensures Returns(Ending(s1, e1), Ending(s2, e2), size)
       <==> !(e1 == Failure && e2 == EOF && GoesOn(Ending(s1, e1), Ending(s2, e2), size, Longer(s1, s2)))
  {
    var r1, r2, n := Ending(s1, e1), Ending(s2, e2), Longer(s1, s2);
    ReturnsIff(r1, r2, size);
    if e1 == Failure && e2 == EOF && GoesOn(r1, r2, size, n) {
      forall i: nat ensures Agree(r1, r2, i) && SameBuffers(r1, r2, size, i) && !BothAtEnd(r1, r2, i) {
        GoesOnForever(s1, s2, size, i);
      }
    } else if GoesOn(r1, r2, size, n) {
      assert !Agree(r1, r2, n) || BothAtEnd(r1, r2, n);
    }
  }

  lemma GoesOnForever(s1: seq<Chunk>, s2: seq<Chunk>, size: nat, i: nat)
    requires Proper(Ending(s1, Failure), size) && Proper(Ending(s2, EOF), size)
    requires GoesOn(Ending(s1, Failure), Ending(s2, EOF), size, Longer(s1, s2))
    ensures var r1, r2 := Ending(s1, Failure), Ending(s2, EOF);
            Agree(r1, r2, i) && SameBuffers(r1, r2, size, i) && !BothAtEnd(r1, r2, i)
  {
    var r1, r2, n := Ending(s1, Failure), Ending(s2, EOF), Longer(s1, s2);
    if i >= n {
      SameAtEnd(r1, r2, size, n);
      EmptyReadsKeep(r1, r2, size, n, i + 1);
    }
  }

  lemma SameAtEnd(s1: Reads, s2: Reads, size: nat, n: nat)
    requires Proper(s1, size) && Proper(s2, size) && GoesOn(s1, s2, size, n)
    ensures Buffer(s1, size, n) == Buffer(s2, size, n)
  {
    if n > 0 {
      assert SameBuffers(s1, s2, size, n - 1);
    }
  }

  /** It happens: an image reader that fails from the start, against an empty flash. */
  lemma CanLoopForever(size: nat)
    ensures Proper(Ending([], Failure), size) && Proper(Ending([], EOF), size)
    ensures !Returns(Ending([], Failure), Ending([], EOF), size)
  {
    EndingReturnsIff([], Failure, [], EOF, size);
  }

  // ---------------------------------------------------------------- files

  /** A file's reads: no error with data, and then EOF. Buffer tails are left alone. */
  ghost predicate IsFile(s: seq<Chunk>, size: nat) {
    forall i :: 0 <= i < |s| ==> Fits(s[i], size) && s[i].err == Nil && s[i].scratch.None?
  }

  function File(s: seq<Chunk>): Reads {
    Ending(s, EOF)
  }

  ghost predicate SameSizes(s1: Reads, s2: Reads, n: nat) {
    forall i: nat :: i < n ==> |s1(i).data| == |s2(i).data|
  }

  /** Equal streams cut at the same places have equal pieces. */
  lemma {:induction false} SamePieces(s1: Reads, s2: Reads, n: nat)
    requires SameSizes(s1, s2, n) && Delivered(s1, n) == Delivered(s2, n)
    ensures SameUntil(s1, s2, n)
  {
    if n > 0 {
      var a1, a2, d1, d2 := Delivered(s1, n - 1), Delivered(s2, n - 1), s1(n - 1).data, s2(n - 1).data;
      assert |d1| == |d2|;
      assert Delivered(s1, n) == a1 + d1 && Delivered(s2, n) == a2 + d2;
      assert |a1| == |a2|;
      assert a1 == (a1 + d1)[..|a1|] && a2 == (a2 + d2)[..|a2|];
      assert d1 == (a1 + d1)[|a1|..] && d2 == (a2 + d2)[|a2|..];
      SamePieces(s1, s2, n - 1);
    }
  }

  /** Two files with equal contents pass if and only if their chunk sizes match and the image has no fewer reads. */
  lemma EqualContentsIff(s1: seq<Chunk>, s2: seq<Chunk>, size: nat)
    requires IsFile(s1, size) && IsFile(s2, size)
    requires Delivered(File(s1), Longer(s1, s2)) == Delivered(File(s2), Longer(s1, s2))
    ensures Proper(File(s1), size) && Proper(File(s2), size)
    ensures Passes(File(s1), File(s2), size) <==> |s1| >= |s2| && SameSizes(File(s1), File(s2), Longer(s1, s2))
  {
    var r1, r2, n := File(s1), File(s2), Longer(s1, s2);
    TailsLeftPasses(r1, r2, size, n);
    if |s1| >= |s2| && SameSizes(r1, r2, n) {
      SamePieces(r1, r2, n);
      forall i: nat | i <= n ensures Agree(r1, r2, i) {
        assert i < n ==> r1(i).data == r2(i).data;
      }
    }
    if forall i: nat :: i <= n ==> Agree(r1, r2, i) {
      forall i: nat | i < n ensures |r1(i).data| == |r2(i).data| {
        assert Agree(r1, r2, i);
      }
      assert Agree(r1, r2, |s1|);
    }
  }

  /**
   * An image reader that reports the end together with its last bytes is refused by any file, even one with the same
   * contents.
   */
  lemma EndWithDataRefused(s1: seq<Chunk>, s2: seq<Chunk>, size: nat)
    requires (forall i :: 0 <= i < |s1| ==> Fits(s1[i], size)) && IsFile(s2, size)
    requires s1 != [] && s1[|s1| - 1].err == EOF && s1[|s1| - 1].data != []
    requires forall i :: 0 <= i < |s1| - 1 ==> s1[i].err != EOF
    ensures Proper(File(s1), size) && Proper(File(s2), size) && !Passes(File(s1), File(s2), size)
  {
    var r1, r2, k := File(s1), File(s2), |s1| - 1;
    VerdictIff(r1, r2, size);
    assert !Agree(r1, r2, k);
    assert forall i: nat :: i < k ==> !BothAtEnd(r1, r2, i);
  }

  /** The whole buffers are compared, so bytes left beyond a short read can refuse identical contents. */
  lemma ScratchCanRefuse()
    ensures var s1, s2 := Ending([Chunk([1], None, Nil)], EOF), Ending([Chunk([1], Some([7]), Nil)], EOF);
            && Proper(s1, 2) && Proper(s2, 2) && (forall i: nat :: Agree(s1, s2, i)) && !Passes(s1, s2, 2)
  {
    var s1, s2 := Ending([Chunk([1], None, Nil)], EOF), Ending([Chunk([1], Some([7]), Nil)], EOF);
    VerdictIff(s1, s2, 2);
    assert Buffer(s1, 2, 1)[1] == 0 && Buffer(s2, 2, 1)[1] == 7;
    assert !SameBuffers(s1, s2, 2, 0);
  }
}
