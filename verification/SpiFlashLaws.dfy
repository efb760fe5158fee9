/** What a caller of the flash driver can rely on, and exactly when. */
module SpiFlashLaws {
  import opened Bytes
  import opened SpiChip
  import opened SpiFlash

  ghost predicate Aligned(off: int, len: int) {
    len == 0 || (off % BLOCK == 0 && len % BLOCK == 0)
  }

  /** A write of `len` bytes at `off` replaces that slice and nothing else, whatever was in the chip and the buffer. */
  ghost predicate WritesReplace(off: nat, len: nat)
    requires off + len <= CHIP_SIZE
  {
    forall mem: seq<byte>, b: seq<byte> | |mem| == CHIP_SIZE && |b| == len ::
      Programmed(Erased(mem, off, len), off, b) == Replaced(mem, off, b)
  }

  lemma ErasedRange(off: int, len: int, x: int)
    requires 0 <= off && 0 <= len && Aligned(off, len)
    ensures InErased(x, off, len) <==> off <= x < off + len
  {
    if len > 0 {
      var q, m := off / BLOCK, len / BLOCK;
      assert off == q * BLOCK && len == m * BLOCK;
      assert (len + BLOCK - 1) / BLOCK == m;
    }
  }

  lemma AlignedReplaces(mem: seq<byte>, off: nat, b: seq<byte>)
    requires |mem| == CHIP_SIZE && off + |b| <= CHIP_SIZE && Aligned(off, |b|)
    ensures Programmed(Erased(mem, off, |b|), off, b) == Replaced(mem, off, b)
  {
    forall x | 0 <= x < |mem|
      ensures Programmed(Erased(mem, off, |b|), off, b)[x] == Replaced(mem, off, b)[x]
    {
      ErasedRange(off, |b|, x);
      if off <= x < off + |b| {
        And8Erased(b[x - off]);
      }
    }
  }

  /** A byte outside an unaligned write that the erase loop wipes. */
  lemma Collateral(off: nat, len: nat) returns (x: nat)
    requires off + len <= CHIP_SIZE && !Aligned(off, len)
    ensures x < CHIP_SIZE && !(off <= x < off + len) && InErased(x, off, len)
  {
    if off % BLOCK != 0 {
      x := off - 1;
      assert x / BLOCK == off / BLOCK;
    } else {
      x := off + len;
      assert off == off / BLOCK * BLOCK;
      assert x / BLOCK == off / BLOCK + len / BLOCK;
      assert len / BLOCK < (len + BLOCK - 1) / BLOCK;
    }
  }

  /** The write is a slice replacement for every content exactly when it is aligned to whole 64 KiB blocks. */
  lemma ReplacesIffAligned(off: nat, len: nat)
    requires off + len <= CHIP_SIZE
    ensures WritesReplace(off, len) <==> Aligned(off, len)
  {
    if Aligned(off, len) {
      forall mem: seq<byte>, b: seq<byte> | |mem| == CHIP_SIZE && |b| == len
        ensures Programmed(Erased(mem, off, len), off, b) == Replaced(mem, off, b)
      {
        AlignedReplaces(mem, off, b);
      }
    } else {
      var x := Collateral(off, len);
      var mem: seq<byte> := seq(CHIP_SIZE, _ => 0);
      var b: seq<byte> := seq(len, _ => 0);
      assert Programmed(Erased(mem, off, len), off, b)[x] == 255;
      assert Replaced(mem, off, b)[x] == 0;
    }
  }

  /** The guards let unaligned writes through: one KiB at offset one KiB is accepted. */
  lemma GuardsAcceptUnaligned()
    ensures WriteGuard(1024, 1024).Ok? && !Aligned(1024, 1024) && !WritesReplace(1024, 1024)
  {
    ReplacesIffAligned(1024, 1024);
  }

  /**
   * Every byte of the write lies in a block the erase loop visits exactly when the write does not spill into one block
   * more.
   */
  lemma AllErasedIff(off: nat, len: nat)
    ensures (forall x :: off <= x < off + len ==> InErased(x, off, len))
       <==> (len == 0 || off % BLOCK + (len - 1) % BLOCK < BLOCK)
  {
    if len > 0 {
      var q, r := off / BLOCK, off % BLOCK;
      var m, s := (len - 1) / BLOCK, (len - 1) % BLOCK;
      assert (len + BLOCK - 1) / BLOCK == m + 1;
      var last := off + len - 1;
      assert last == (q + m) * BLOCK + (r + s);
      assert r + s < BLOCK <==> last / BLOCK == q + m;
      if r + s < BLOCK {
        forall x | off <= x < off + len
          ensures InErased(x, off, len)
        {
          assert x / BLOCK <= last / BLOCK;
        }
      } else {
        assert !InErased(last, off, len);
      }
    }
  }

  // ---------------------------------------------------------------- the command sequence of a write

  /** The erase loop's commands: WREN and the erase of each block in turn. */
  lemma {:induction false} EraseCommandsAt(off: int, end: int, n: int)
    requires 0 <= n && off + n * BLOCK < end
    ensures 2 * n + 1 < |EraseCommands(off, end)|
    ensures EraseCommands(off, end)[2 * n] == [OP_WREN]
    ensures EraseCommands(off, end)[2 * n + 1] == EraseCommand(off + n * BLOCK)
    decreases n
  {
    if n > 0 {
      EraseCommandsAt(off + BLOCK, end, n - 1);
    }
  }

  lemma Shifted(b: seq<byte>, d: nat, k: nat, len: nat)
    requires d + k + len <= |b|
    ensures b[d..][k..k + len] == b[d + k..d + k + len]
  {}

  lemma {:induction false} ProgramCommandsAt(off: int, b: seq<byte>, n: int)
    requires 0 <= n && n * PAGE + PAGE <= |b|
    ensures 2 * n + 1 < |ProgramCommands(off, b)|
    ensures ProgramCommands(off, b)[2 * n] == [OP_WREN]
    ensures ProgramCommands(off, b)[2 * n + 1] == ProgramCommand(off + n * PAGE, b[n * PAGE..n * PAGE + PAGE])
    decreases n
  {
    if n > 0 {
      ProgramCommandsAt(off + PAGE, b[PAGE..], n - 1);
      Shifted(b, PAGE, (n - 1) * PAGE, PAGE);
    } else {
      assert b[..PAGE] == b[0..PAGE];
    }
  }

  /** No block is erased but those the write begins in steps of 64 KiB: two commands for each. */
  lemma {:induction false} EraseCount(off: int, len: nat)
    ensures |EraseCommands(off, off + len)| == 2 * ((len + 0xffff) / 0x1_0000)
    decreases len
  {
    if len > BLOCK {
      EraseCount(off + BLOCK, len - BLOCK);
    } else if len > 0 {
      assert EraseCommands(off + BLOCK, off + len) == [];
    }
  }

  /** No page is programmed but the whole ones in the buffer: two commands for each 256 bytes. */
  lemma {:induction false} ProgramCount(off: int, b: seq<byte>)
    ensures |ProgramCommands(off, b)| == 2 * (|b| / 256)
    decreases |b|
  {
    if |b| >= PAGE {
      ProgramCount(off + PAGE, b[PAGE..]);
    }
  }

  /** An erase command only carries the block number of its address. */
  lemma SameBlockSameErase(a: nat, c: nat)
    requires a / BLOCK == c / BLOCK
    ensures EraseCommand(a) == EraseCommand(c)
  {
    assert a / B16 == c / B16;
    assert a / B24 == a / B16 / B8 && c / B24 == c / B16 / B8;
  }

  /** Each page program of a write comes after the erase of its block, provided the block is one the loop visits. */
  lemma ProgramsAfterErase(off: nat, b: seq<byte>, n: nat) returns (i: nat, j: nat)
    requires n * PAGE + PAGE <= |b|
    requires InErased(off + n * PAGE, off, |b|)
    ensures var all := EraseCommands(off, off + |b|) + ProgramCommands(off, b);
            && 0 < i < j < |all|
            && all[i - 1] == all[j - 1] == [OP_WREN]
            && all[i] == EraseCommand(off + n * PAGE)
            && all[j] == ProgramCommand(off + n * PAGE, b[n * PAGE..n * PAGE + PAGE])
  {
    var a := off + n * PAGE;
    var m := a / BLOCK - off / BLOCK;
    assert m * BLOCK < |b|;
    assert (off + m * BLOCK) / BLOCK == a / BLOCK;
    EraseCommandsAt(off, off + |b|, m);
    SameBlockSameErase(a, off + m * BLOCK);
    ProgramCommandsAt(off, b, n);
    i := 2 * m + 1;
    j := |EraseCommands(off, off + |b|)| + 2 * n + 1;
  }

  // ---------------------------------------------------------------- 64-bit sums

  /** Which verdict a write gets: the three errors in their order, or the length of the buffer. */
  lemma Verdicts(off: int, len: nat)
    requires IsInt64(off) && IsInt64(len)
    ensures WriteGuard(off, len) == Err(BufferNotMultiple) <==> len % 1024 != 0
    ensures WriteGuard(off, len) == Err(OffsetNotMultiple) <==> len % 1024 == 0 && (off < 0 || off % 1024 != 0)
    ensures WriteGuard(off, len) == Err(WriteOverflow)
       <==> len % 1024 == 0 && off >= 0 && off % 1024 == 0 && 0x200_0000 < off + len < 0x8000_0000_0000_0000
    ensures WriteGuard(off, len) == Ok(len)
       <==> len % 1024 == 0 && off >= 0 && off % 1024 == 0
            && (off + len <= 0x200_0000 || off + len >= 0x8000_0000_0000_0000)
  {
    if off >= 0 {
      SumWraps(off, len);
    }
  }

  /** The bytes on the bus, as the chip's data sheet has them. */
  lemma WireBytes(a: int, d: seq<byte>)
    requires 0 <= a < B32
    ensures EraseCommand(a) == [0xd8, a / 0x100_0000, a / 0x1_0000 % 0x100, 0, 0]
    ensures ProgramCommand(a, d) == [0x02, a / 0x100_0000, a / 0x1_0000 % 0x100, a / 0x100 % 0x100, 0] + d
    ensures ReadCommand(a) == [0x0b, a / 0x100_0000, a / 0x1_0000 % 0x100, a / 0x100 % 0x100, a % 0x100, 0]
    ensures [OP_WREN, OP_EN4B, OP_EX4B, OP_ID, OP_READ_STATUS] == [0x06, 0xb7, 0xe9, 0x9f, 0x05]
  {
    assert a / B24 % B8 == a / B24;
  }

  /** The range guards are fooled exactly by sums that reach 2^63: such a write reports success and does nothing. */
  lemma GuardWraps(off: int, len: nat)
    requires IsInt64(off) && IsInt64(len)
    ensures WriteGuard(off, len).Ok? && off + len > CHIP_SIZE <==>
            off % 1024 == 0 && len % 1024 == 0 && off >= 0 && off + len >= 0x8000_0000_0000_0000
  {
    if off >= 0 {
      SumWraps(off, len);
    }
  }

  /** An aligned write followed by a read anywhere in range returns the new contents of the chip. */
  method WriteThenRead(f: Mx25l256, b: seq<byte>, off: nat, out: array<byte>, at: nat)
    requires f.Valid()
    requires off + |b| <= CHIP_SIZE && off % BLOCK == 0 && |b| % BLOCK == 0
    requires at + out.Length <= CHIP_SIZE
    modifies f.bus, out
    ensures f.Valid()
    ensures f.bus.chip.mem == Replaced(old(f.bus.chip.mem), off, b)
    ensures out[..] == Replaced(old(f.bus.chip.mem), off, b)[at..at + out.Length]
  {
    assert off % 1024 == 0 && |b| % 1024 == 0;
    AlignedReplaces(f.bus.chip.mem, off, b);
    var w := f.WriteAt(b, off);
    var r := f.ReadAt(out, at);
  }

  // ---------------------------------------------------------------- whole sessions

  datatype Call = Read(at: int, n: nat) | Write(off: int, data: seq<byte>)

  predicate WellTyped(c: Call) {
    match c
    case Read(at, n) => IsInt64(at) && IsInt64(n)
    case Write(off, data) => IsInt64(off) && IsInt64(|data|)
  }

  /** What one call does to the array. */
  function AfterCall(mem: seq<byte>, c: Call): (r: seq<byte>)
    ensures |r| == |mem|
  {
    if c.Write? && WriteGuard(c.off, |c.data|).Ok? && c.off + |c.data| <= CHIP_SIZE
    then Programmed(Erased(mem, c.off, |c.data|), c.off, c.data)
    else mem
  }

  function AfterCalls(mem: seq<byte>, calls: seq<Call>): (r: seq<byte>)
    ensures |r| == |mem|
  {
    if calls == [] then mem else AfterCall(AfterCalls(mem, calls[..|calls| - 1]), calls[|calls| - 1])
  }

  /** The bytes each call hands back. */
  function ResultOf(mem: seq<byte>, c: Call): (r: seq<byte>)
    requires |mem| == CHIP_SIZE
  {
    if c.Read? && Wrap64(c.at + c.n) <= CHIP_SIZE then Window(mem, c.at, c.n) else []
  }

  /**
   * Any run from open to Close, with any calls in between: the frames on the bus obey the discipline from first to
   * last, the chip ends deselected and out of 4-byte mode, the array is what the calls make of it, and each read
   * returned the array as the calls before it had left it.
   */
  method Session(bus: Bus, calls: seq<Call>) returns (found: bool, results: seq<seq<byte>>)
    requires bus.chip.Valid() && !bus.chip.selected && bus.trace == []
    requires forall i :: 0 <= i < |calls| ==> WellTyped(calls[i])
    modifies bus
    ensures found <==> old(bus.chip.id) == [0xc2, 0x20, 0x19]
    ensures found ==>
              && Disciplined(bus.trace) && !bus.chip.selected && !bus.chip.addr4
              && bus.chip.mem == AfterCalls(old(bus.chip.mem), calls)
              && |results| == |calls|
              && forall i :: 0 <= i < |calls| ==>
                   results[i] == ResultOf(AfterCalls(old(bus.chip.mem), calls[..i]), calls[i])
  {
    results := [];
    var f := SystemFlash(bus);
    if f == null {
      return false, [];
    }
    for n := 0 to |calls|
      invariant f.bus == bus && f.Valid()
      invariant bus.chip.mem == AfterCalls(old(bus.chip.mem), calls[..n])
      invariant |results| == n
      invariant forall i :: 0 <= i < n ==> results[i] == ResultOf(AfterCalls(old(bus.chip.mem), calls[..i]), calls[i])
    {
      assert calls[..n + 1][..n] == calls[..n];
      var out := DoCall(f, calls[n]);
      results := results + [out];
    }
    assert calls[..|calls|] == calls;
    f.Close();
    found := true;
  }

  method DoCall(f: Mx25l256, c: Call) returns (out: seq<byte>)
    requires f.Valid() && WellTyped(c)
    modifies f.bus
    ensures f.Valid()
    ensures f.bus.chip.mem == AfterCall(old(f.bus.chip.mem), c)
    ensures out == ResultOf(old(f.bus.chip.mem), c)
  {
    out := [];
    match c
    case Read(at, n) =>
      var b := new byte[n];
      var r := f.ReadAt(b, at);
      if r.Ok? {
        out := b[..];
      }
    case Write(off, data) =>
      var r := f.WriteAt(data, off);
  }
}
