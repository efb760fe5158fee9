/** The SPI flash driver: byte-wide bus cycles under CS# framing, and the read, erase and program loops above them. */
module SpiFlash {
  import opened Bytes
  import opened SpiChip

  const CS0_CTRL := 0x1e620010
  const CS0_SEGMENT_ADDR := 0x1e620030
  const FLASH_START := 0x20000000
  const SPI_READ_TIMINGS := 0x1e620094
  const MX25L256_ID := 0x1920c2

  datatype Result = Ok(n: int) | Err(reason: Reason)
  datatype Reason = ReadOverflow | BufferNotMultiple | OffsetNotMultiple | WriteOverflow

  /** The memory provider, with the flash controller's user mode in front of one chip. */
  class Bus {
    var chip: Chip
    /** How many status reads the next erase or program will keep the chip busy: the device's choice. */
    var polls: nat
    ghost var trace: seq<Frame>

    constructor (chip: Chip, polls: nat)
      ensures this.chip == chip && trace == []
    {
      this.chip := chip;
      this.polls := polls;
      trace := [];
    }

    /**
     * A control-register write in user mode moves CS#; a write to the flash window shifts out four bytes, low byte
     * first.
     */
    method MustWrite32(a: int, v: int)
      requires chip.Valid()
      requires 0 <= v < B32
      modifies this
      ensures a == CS0_CTRL && v % 4 == 3 && v / 4 % 2 == 0 ==>
                chip == old(chip).Select() && trace == old(trace) && polls == old(polls)
      ensures a == CS0_CTRL && v % 4 == 3 && v / 4 % 2 == 1 ==>
                && chip == old(chip).Deselect(old(polls))
                && trace == old(trace) + if old(chip).selected then [old(chip).CurrentFrame()] else []
      ensures a == FLASH_START ==>
                && chip == old(chip).In(ByteOf(v, 0)).In(ByteOf(v, 1)).In(ByteOf(v, 2)).In(ByteOf(v, 3))
                && trace == old(trace)
      ensures a != FLASH_START && (a == CS0_CTRL ==> v % 4 != 3) ==> chip == old(chip) && trace == old(trace)
    {
      if a == CS0_CTRL && v % 4 == 3 {
        if v / 4 % 2 == 0 {
          chip := chip.Select();
        } else {
          if chip.selected {
            trace := trace + [chip.CurrentFrame()];
          }
          chip := chip.Deselect(polls);
          polls := *;
        }
      } else if a == FLASH_START {
        chip := chip.In(ByteOf(v, 0)).In(ByteOf(v, 1)).In(ByteOf(v, 2)).In(ByteOf(v, 3));
      }
    }

    method MustWrite8(a: int, v: byte)
      modifies this`chip
      ensures trace == old(trace)
      ensures chip == if a == FLASH_START then old(chip).In(v) else old(chip)
    {
      if a == FLASH_START {
        chip := chip.In(v);
      }
    }

    method MustRead8(a: int) returns (v: byte)
      requires chip.Valid()
      modifies this`chip
      ensures trace == old(trace)
      ensures a == FLASH_START ==> (chip, v) == old(chip).Out()
      ensures a != FLASH_START ==> chip == old(chip)
    {
      v := 0;
      if a == FLASH_START {
        var r := chip.Out();
        chip, v := r.0, r.1;
      }
    }

    /** Four bytes are clocked in, the first one lowest. */
    method MustRead32(a: int) returns (v: int)
      requires chip.Valid()
      modifies this`chip
      ensures trace == old(trace)
      ensures 0 <= v < B32
      ensures a != FLASH_START ==> chip == old(chip)
      ensures a == FLASH_START ==> (chip, Le32(v)) == Out4(old(chip))
    {
      v := 0;
      if a == FLASH_START {
        var r := Out4(chip);
        v := FromLe32(r.1);
        RoundTripBytes(r.1);
        chip := r.0;
      }
    }
  }

  function Out4(c: Chip): (r: (Chip, seq<byte>))
    requires c.Valid()
    ensures |r.1| == 4
  {
    var r0 := c.Out();
    var r1 := r0.0.Out();
    var r2 := r1.0.Out();
    var r3 := r2.0.Out();
    (r3.0, [r0.1, r1.1, r2.1, r3.1])
  }

  /** Two's complement wrap-around of 64-bit addition. */
  function Wrap64(x: int): (r: int)
    ensures -0x8000_0000_0000_0000 <= r < 0x8000_0000_0000_0000
    ensures -0x8000_0000_0000_0000 <= x < 0x8000_0000_0000_0000 ==> r == x
  {
    (x + 0x8000_0000_0000_0000) % B64 - 0x8000_0000_0000_0000
  }

  predicate IsInt64(x: int) {
    -0x8000_0000_0000_0000 <= x < 0x8000_0000_0000_0000
  }

  predicate IsInt32(x: int) {
    -0x8000_0000 <= x < 0x8000_0000
  }

  // ---------------------------------------------------------------- what the commands look like

  function EraseCommand(a: int): (s: seq<byte>) {
    [OP_BLOCK_ERASE, ByteOf(a, 3), ByteOf(a, 2), 0, 0]
  }

  function ProgramCommand(a: int, d: seq<byte>): (s: seq<byte>) {
    [OP_PAGE_PROGRAM, ByteOf(a, 3), ByteOf(a, 2), ByteOf(a, 1), 0] + d
  }

  /** The commands of the erase loop, from `i` up to `end`. */
  function EraseCommands(i: int, end: int): (r: seq<seq<byte>>)
    decreases end - i
  {
    if i >= end then [] else [[OP_WREN], EraseCommand(i)] + EraseCommands(i + BLOCK, end)
  }

  /** The commands of the program loop, from page `i` on, `b` holding what is still to be written. */
  function ProgramCommands(i: int, b: seq<byte>): (r: seq<seq<byte>>)
    decreases |b|
  {
    if |b| < PAGE then [] else [[OP_WREN], ProgramCommand(i, b[..PAGE])] + ProgramCommands(i + PAGE, b[PAGE..])
  }

  // ---------------------------------------------------------------- what they do to the array

  /** The block of `x` is one of those the erase loop visits for a write of `len` bytes at `off`. */
  predicate InErased(x: int, off: int, len: int) {
    off / BLOCK <= x / BLOCK < off / BLOCK + (len + BLOCK - 1) / BLOCK
  }

  /** The array after the erase loop. */
  function Erased(mem: seq<byte>, off: nat, len: nat): (r: seq<byte>)
    ensures |r| == |mem|
  {
    seq(|mem|, x requires 0 <= x < |mem| => if InErased(x, off, len) then 255 else mem[x])
  }

  /** The array after programming `b` at `off` over whatever is there. */
  function Programmed(mem: seq<byte>, off: nat, b: seq<byte>): (r: seq<byte>)
    ensures |r| == |mem|
  {
    seq(|mem|, x requires 0 <= x < |mem| => if off <= x < off + |b| then And8(mem[x], b[x - off]) else mem[x])
  }

  /** The array after programming one whole page. */
  function PageWritten(mem: seq<byte>, page: nat, d: seq<byte>): (r: seq<byte>)
    ensures |r| == |mem|
  {
    Programmed(mem, page * PAGE, d)
  }

  /** What a caller wants of a write: the slice at `off` is `b`, the rest is as it was. */
  function Replaced(mem: seq<byte>, off: nat, b: seq<byte>): (r: seq<byte>)
    requires off + |b| <= |mem|
    ensures |r| == |mem|
  {
    mem[..off] + b + mem[off + |b|..]
  }

  /** The array with the `n` blocks from block `first` on erased. */
  function ErasedBlocks(mem: seq<byte>, first: int, n: int): (r: seq<byte>)
    ensures |r| == |mem|
  {
    seq(|mem|, x requires 0 <= x < |mem| => if first <= x / BLOCK < first + n then 255 else mem[x])
  }

  class Mx25l256 {
    const bus: Bus
    const tCK: int

    /** Between calls the chip is deselected, idle and in 4-byte mode, and the frames so far obey the discipline. */
    ghost predicate Valid()
      reads this, bus
    {
      && bus.chip.Valid() && !bus.chip.selected && bus.chip.busy == 0 && bus.chip.addr4
      && Disciplined(bus.trace)
    }

    constructor (bus: Bus, tCK: int)
      ensures this.bus == bus && this.tCK == tCK
    {
      this.bus := bus;
      this.tCK := tCK;
    }

    method Cs(h: int)
      requires bus.chip.Valid()
      requires h == 0 || h == 1
      modifies bus
      ensures h == 0 ==>
                bus.chip == old(bus.chip).Select() && bus.trace == old(bus.trace) && bus.polls == old(bus.polls)
      ensures h == 1 ==>
                && bus.chip == old(bus.chip).Deselect(old(bus.polls))
                && bus.trace == old(bus.trace) + if old(bus.chip).selected then [old(bus.chip).CurrentFrame()] else []
    {
      var cr := tCK % 16 * 256 + 3 + h * 4;
      assert cr / 4 == tCK % 16 * 64 + h;
      bus.MustWrite32(CS0_CTRL, cr);
    }

    method Cmd8(cmd: byte)
      requires bus.chip.Valid()
      modifies bus
      ensures bus.chip == old(bus.chip).Select().In(cmd).Deselect(old(bus.polls))
      ensures bus.trace == old(bus.trace) + [old(bus.chip).Select().In(cmd).CurrentFrame()]
    {
      Cs(0);
      bus.MustWrite8(FLASH_START, cmd);
      Cs(1);
    }

    method Cmd8Read8(cmd: byte) returns (v: byte)
      requires bus.chip.Valid()
      modifies bus
      ensures v == old(bus.chip).Select().In(cmd).Out().1
      ensures bus.chip == old(bus.chip).Select().In(cmd).Out().0.Deselect(old(bus.polls))
      ensures bus.trace == old(bus.trace) + [old(bus.chip).Select().In(cmd).Out().0.CurrentFrame()]
    {
      Cs(0);
      bus.MustWrite8(FLASH_START, cmd);
      v := bus.MustRead8(FLASH_START);
      Cs(1);
    }

    method Cmd8Read32(cmd: byte) returns (v: int)
      requires bus.chip.Valid()
      modifies bus
      ensures 0 <= v < B32 && Le32(v) == Out4(old(bus.chip).Select().In(cmd)).1
      ensures bus.chip == Out4(old(bus.chip).Select().In(cmd)).0.Deselect(old(bus.polls))
      ensures bus.trace == old(bus.trace) + [Out4(old(bus.chip).Select().In(cmd)).0.CurrentFrame()]
    {
      Cs(0);
      bus.MustWrite8(FLASH_START, cmd);
      v := bus.MustRead32(FLASH_START);
      Cs(1);
    }

    /** The low 24 bits of the identity word of an idle chip. */
    method Id() returns (id: int)
      requires bus.chip.Valid() && !bus.chip.selected && bus.chip.busy == 0 && Disciplined(bus.trace)
      modifies bus
      ensures bus.chip == old(bus.chip).(recv := [], sent := 0)
      ensures id == IdWord(bus.chip.id)
      ensures Commands(bus.trace) == Commands(old(bus.trace)) + [[OP_ID]]
      ensures Disciplined(bus.trace)
    {
      IdBytes(bus.chip);
      ghost var f := Out4(bus.chip.Select().In(OP_ID)).0.CurrentFrame();
      assert f.bytes == [OP_ID];
      TraceSnoc(bus.trace, f);
      var word := Cmd8Read32(OP_ID);
      IdLow(word, bus.chip.id);
      id := word % B24;
    }

    /** One status poll: tells whether the chip was idle, and touches nothing but the busy count. */
    method IsReady() returns (ready: bool)
      requires bus.chip.Valid() && !bus.chip.selected
      modifies bus
      ensures ready <==> old(bus.chip).busy == 0
      ensures bus.chip.busy == if ready then 0 else old(bus.chip).busy - 1
      ensures bus.chip == old(bus.chip).(busy := bus.chip.busy, recv := [], sent := 0)
      ensures Commands(bus.trace) == Commands(old(bus.trace))
      ensures Disciplined(old(bus.trace)) ==> Disciplined(bus.trace)
    {
      var s := Cmd8Read8(OP_READ_STATUS);
      CommandsSnoc(old(bus.trace), old(bus.chip).Select().In(OP_READ_STATUS).Out().0.CurrentFrame());
      ready := s % 2 == 0;
    }

    /** The poll loop: it ends, with the chip idle and otherwise unchanged. */
    method WaitReady()
      requires bus.chip.Valid() && !bus.chip.selected
      modifies bus
      ensures bus.chip == old(bus.chip).(busy := 0, recv := [], sent := 0)
      ensures Commands(bus.trace) == Commands(old(bus.trace))
      ensures Disciplined(old(bus.trace)) ==> Disciplined(bus.trace)
    {
      var ready := IsReady();
      while !ready
        invariant bus.chip == old(bus.chip).(busy := bus.chip.busy, recv := [], sent := 0)
        invariant ready ==> bus.chip.busy == 0
        invariant Commands(bus.trace) == Commands(old(bus.trace))
        invariant Disciplined(old(bus.trace)) ==> Disciplined(bus.trace)
        decreases bus.chip.busy, !ready
      {
        ready := IsReady();
      }
    }

    /** The WREN frame that comes before every erase and program. */
    method Enable()
      requires Valid()
      modifies bus
      ensures Valid()
      ensures bus.chip == old(bus.chip).(wel := true, recv := [], sent := 0)
      ensures |bus.trace| > 0 && bus.trace[|bus.trace| - 1].bytes == [OP_WREN]
      ensures Commands(bus.trace) == Commands(old(bus.trace)) + [[OP_WREN]]
    {
      ghost var f := Frame([OP_WREN], true, bus.chip.wel, true);
      OneByte(bus.chip, OP_WREN, bus.polls);
      TraceSnoc(bus.trace, f);
      Cmd8(OP_WREN);
      assert bus.trace == old(bus.trace) + [f];
    }

    /** CS# falls, then the opcode and the four address bytes go out, high byte first. */
    method SendHeader(op: byte, a3: byte, a2: byte, a1: byte, a0: byte)
      requires bus.chip.Valid()
      modifies bus
      ensures bus.chip == old(bus.chip).(selected := true, recv := [op, a3, a2, a1, a0], sent := 0)
      ensures bus.trace == old(bus.trace)
    {
      Cs(0);
      bus.MustWrite8(FLASH_START, op);
      bus.MustWrite8(FLASH_START, a3);
      bus.MustWrite8(FLASH_START, a2);
      bus.MustWrite8(FLASH_START, a1);
      bus.MustWrite8(FLASH_START, a0);
    }

    /** Erases the 64 KiB block holding address `b`: one WREN frame, one erase frame, then polls. */
    method EraseBlock(b: int)
      requires Valid() && IsInt32(b)
      modifies bus
      ensures Valid()
      ensures bus.chip == old(bus.chip).(mem := SpiChip.EraseBlock(old(bus.chip.mem), b % CHIP_SIZE), wel := false,
                                         recv := [], sent := 0)
      ensures Commands(bus.trace) == Commands(old(bus.trace)) + [[OP_WREN], EraseCommand(b)]
    {
      Enable();
      ghost var t := bus.trace;
      SendHeader(OP_BLOCK_ERASE, ByteOf(b, 3), ByteOf(b, 2), 0, 0);
      EraseEffect(bus.chip, b, bus.polls);
      TraceSnoc(t, bus.chip.CurrentFrame());
      Cs(1);
      WaitReady();
    }

    /** The data loop of a page program: four bytes to a bus word. */
    method SendWords(d: seq<byte>)
      requires bus.chip.Valid() && bus.chip.selected
      requires |d| == PAGE
      modifies bus
      ensures bus.chip == old(bus.chip).(recv := old(bus.chip).recv + d)
      ensures bus.trace == old(bus.trace)
    {
      var i := 0;
      while i < |d|
        invariant 0 <= i <= |d| && i % 4 == 0
        invariant bus.chip == old(bus.chip).(recv := old(bus.chip).recv + d[..i])
        invariant bus.trace == old(bus.trace)
      {
        var v := FromLe32(d[i..i + 4]);
        RoundTripBytes(d[i..i + 4]);
        FourIn(bus.chip, Le32(v));
        bus.MustWrite32(FLASH_START, v);
        assert d[..i + 4] == d[..i] + d[i..i + 4];
        i := i + 4;
      }
      assert d[..|d|] == d;
    }

    /** Programs one 256-byte page: one WREN frame, one program frame of 64 words, then polls. */
    method ProgramPage(p: int, d: seq<byte>, ghost page: nat)
      requires Valid() && IsInt32(p) && page == p % CHIP_SIZE / PAGE
      requires |d| == PAGE
      modifies bus
      ensures Valid()
      ensures bus.chip == old(bus.chip).(mem := PageWritten(old(bus.chip.mem), page, d), wel := false,
                                         recv := [], sent := 0)
      ensures Commands(bus.trace) == Commands(old(bus.trace)) + [[OP_WREN], ProgramCommand(p, d)]
    {
      Enable();
      ghost var t := bus.trace;
      SendHeader(OP_PAGE_PROGRAM, ByteOf(p, 3), ByteOf(p, 2), ByteOf(p, 1), 0);
      SendWords(d);
      ProgramEffect(bus.chip, p, d, page, bus.polls);
      TraceSnoc(t, bus.chip.CurrentFrame());
      Cs(1);
      WaitReady();
    }

    method EraseLoop(off: int, end: int)
      requires Valid() && 0 <= off && end <= CHIP_SIZE
      modifies bus
      ensures Valid()
      ensures end <= off ==> bus.chip == old(bus.chip) && bus.trace == old(bus.trace)
      ensures off <= end ==>
                && bus.chip.mem == Erased(old(bus.chip.mem), off, end - off)
                && Commands(bus.trace) == Commands(old(bus.trace)) + EraseCommands(off, end)
    {
      var i := off;
      ghost var n := 0;
      assert ErasedBlocks(bus.chip.mem, off / BLOCK, 0) == bus.chip.mem;
      while i < end
        invariant Valid()
        invariant i == off + n * BLOCK && 0 <= n && (i == off || i < end + BLOCK)
        invariant i == off ==> bus.chip == old(bus.chip) && bus.trace == old(bus.trace)
        invariant bus.chip.mem == ErasedBlocks(old(bus.chip.mem), off / BLOCK, n)
        invariant Commands(bus.trace) + EraseCommands(i, end) == Commands(old(bus.trace)) + EraseCommands(off, end)
        decreases end - i
      {
        ghost var cmds := Commands(bus.trace);
        EraseNext(old(bus.chip.mem), off, n);
        EraseBlock(i);
        EraseCommandsNext(cmds, i, end);
        i := i + 64 * 1024;
        n := n + 1;
      }
      if off <= end {
        BlocksVisited(off, end, n);
      }
    }

    /** One turn of the program loop: page `page` receives bytes `k` to `k + 256` of the buffer. */
    method ProgramStep(i: int, d: seq<byte>, ghost mem: seq<byte>, ghost off: int, ghost b: seq<byte>, ghost k: int,
                       ghost page: nat)
      requires Valid() && 0 <= off && 0 <= k && k + PAGE <= |b| && d == b[k..k + PAGE]
      requires i == off + k == page * PAGE < CHIP_SIZE
      requires bus.chip.mem == Programmed(mem, off, b[..k])
      modifies bus
      ensures Valid()
      ensures bus.chip.mem == Programmed(mem, off, b[..k + PAGE])
      ensures Commands(bus.trace) + ProgramCommands(i + PAGE, b[k + PAGE..])
           == Commands(old(bus.trace)) + ProgramCommands(i, b[k..])
    {
      ProgramNext(mem, off, b, page, k, d);
      ProgramCommandsNext(Commands(bus.trace), i, b, k, d);
      PageNumber(page);
      ProgramPage(i, d, page);
    }

    method ProgramLoop(off: int, end: int, b: seq<byte>, ghost q: nat, ghost m: nat)
      requires Valid() && 0 <= off && end <= CHIP_SIZE
      requires off == q * PAGE && |b| == m * PAGE
      requires end <= off || end == off + |b|
      modifies bus
      ensures Valid()
      ensures end <= off ==> bus.chip == old(bus.chip) && bus.trace == old(bus.trace)
      ensures end == off + |b| ==>
                && bus.chip.mem == Programmed(old(bus.chip.mem), off, b)
                && Commands(bus.trace) == Commands(old(bus.trace)) + ProgramCommands(off, b)
    {
      var i := off;
      ghost var k, n := 0, 0;
      assert Programmed(bus.chip.mem, off, b[..0]) == bus.chip.mem;
      assert b[0..] == b && b[..|b|] == b;
      while i < end
        invariant Valid()
        invariant 0 <= n <= m && k == n * PAGE && i == off + k && (end <= off ==> n == 0)
        invariant n == 0 ==> bus.chip == old(bus.chip) && bus.trace == old(bus.trace)
        invariant bus.chip.mem == Programmed(old(bus.chip.mem), off, b[..k])
        invariant Commands(bus.trace) + ProgramCommands(i, b[k..]) == Commands(old(bus.trace)) + ProgramCommands(off, b)
      {
        ProgramStep(i, b[i - off..i - off + 256], old(bus.chip.mem), off, b, k, q + n);
        k := k + PAGE;
        n := n + 1;
        i := i + 256;
      }
    }

    /**
     * Whatever the guards let through: the blocks visited by the erase loop read 0xFF, then the
     * buffer is ANDed in. The guards only reject lengths and offsets that are not multiples of 1 KiB.
     */
    method WriteAt(b: seq<byte>, off: int) returns (r: Result)
      requires Valid() && IsInt64(off) && IsInt64(|b|)
      modifies bus
      ensures Valid()
      ensures r == WriteGuard(off, |b|)
      ensures r.Err? || off + |b| > CHIP_SIZE ==> bus.chip == old(bus.chip) && bus.trace == old(bus.trace)
      ensures r.Ok? && off + |b| <= CHIP_SIZE ==>
                && bus.chip.mem == Programmed(Erased(old(bus.chip.mem), off, |b|), off, b)
                && Commands(bus.trace)
                   == Commands(old(bus.trace)) + EraseCommands(off, off + |b|) + ProgramCommands(off, b)
    {
      var l := |b|;
      KibMultiple(l);
      KibMultiple(off);
      if l % 1024 * 64 != 0 {
        return Err(BufferNotMultiple);
      }
      if off < 0 || off % 1024 * 64 != 0 {
        return Err(OffsetNotMultiple);
      }
      if Wrap64(off + l) > 32 * 1024 * 1024 {
        return Err(WriteOverflow);
      }
      SumWraps(off, l);
      var end := Wrap64(off + l);
      EraseLoop(off, end);
      ProgramLoop(off, end, b, off / PAGE, l / PAGE);
      return Ok(l);
    }

    /**
     * Fills `b` with the chip's bytes from `off` on. The only guard is the one on the 64-bit sum, so a
     * negative offset is taken modulo the chip size.
     */
    method ReadAt(b: array<byte>, off: int) returns (r: Result)
      requires Valid() && IsInt64(off) && IsInt64(b.Length)
      modifies bus, b
      ensures Valid()
      ensures r == if Wrap64(off + b.Length) > CHIP_SIZE then Err(ReadOverflow) else Ok(b.Length)
      ensures r.Err? ==> bus.chip == old(bus.chip) && bus.trace == old(bus.trace) && b[..] == old(b[..])
      ensures r.Ok? ==>
                && bus.chip == old(bus.chip).(recv := [], sent := 0)
                && Commands(bus.trace) == Commands(old(bus.trace)) + [ReadCommand(off)]
                && b[..] == Window(bus.chip.mem, off, b.Length)
    {
      var l := b.Length;
      if Wrap64(off + l) > 32 * 1024 * 1024 {
        return Err(ReadOverflow);
      }
      SendRead(off);
      ghost var want := Window(bus.chip.mem, off, l + 4);
      Streaming(bus.chip, off, want);
      var i := ReadWords(b, bus.chip, want);
      i := ReadTail(b, bus.chip.(sent := 0), want, i);
      ReadEnds(bus.chip, off, bus.polls);
      TraceSnoc(bus.trace, bus.chip.CurrentFrame());
      Cs(1);
      return Ok(i);
    }

    /** The opcode, the address and the dummy byte of a fast read. */
    method SendRead(off: int)
      requires Valid()
      modifies bus
      ensures bus.chip == old(bus.chip).(selected := true, recv := ReadCommand(off), sent := 0)
      ensures bus.trace == old(bus.trace)
    {
      var w := Be32(off);
      SendHeader(OP_FAST_READ, w[0], w[1], w[2], w[3]);
      bus.MustWrite8(FLASH_START, 0);
      assert [OP_FAST_READ] + w == [OP_FAST_READ, w[0], w[1], w[2], w[3]];
    }

    /** One bus word inside a read frame, cut into its bytes. */
    method NextWord(ghost c: Chip, ghost want: seq<byte>, ghost i: nat) returns (w: seq<byte>)
      requires bus.chip == c.(sent := i) && c.Valid() && Streams(c, want) && i + 4 <= |want|
      modifies bus`chip
      ensures w == [want[i], want[i + 1], want[i + 2], want[i + 3]]
      ensures bus.chip == c.(sent := i + 4)
    {
      var d := bus.MustRead32(FLASH_START);
      w := Le32(d);
    }

    /** The four-byte loop of ReadAt. */
    method ReadWords(b: array<byte>, ghost c: Chip, ghost want: seq<byte>) returns (i: int)
      requires bus.chip == c && c.Valid() && c.sent == 0 && Streams(c, want) && |want| == b.Length + 4
      modifies bus`chip, b
      ensures 0 <= i <= b.Length
      ensures bus.chip == c.(sent := i)
      ensures forall k :: 0 <= k < i ==> b[k] == want[k]
    {
      var l := b.Length;
      i := 0;
      while i < l - 3
        invariant 0 <= i <= l
        invariant bus.chip == c.(sent := i)
        invariant forall k :: 0 <= k < i ==> b[k] == want[k]
      {
        var w := NextWord(c, want, i);
        b[i], b[i + 1], b[i + 2], b[i + 3] := w[0], w[1], w[2], w[3];
        i := i + 4;
      }
    }

    /** The tail loop of ReadAt: the last word is used as far as the buffer goes. */
    method ReadTail(b: array<byte>, ghost c: Chip, ghost want: seq<byte>, start: int) returns (i: int)
      requires 0 <= start <= b.Length
      requires bus.chip == c.(sent := start) && c.Valid() && Streams(c, want) && |want| == b.Length + 4
      requires forall k :: 0 <= k < start ==> b[k] == want[k]
      modifies bus`chip, b
      ensures i == b.Length
      ensures bus.chip == c.(sent := bus.chip.sent)
      ensures forall k :: 0 <= k < i ==> b[k] == want[k]
    {
      var l := b.Length;
      i := start;
      while i < l
        invariant start <= i <= l
        invariant bus.chip == c.(sent := bus.chip.sent) && (i < l ==> bus.chip.sent == i)
        invariant forall k :: 0 <= k < i ==> b[k] == want[k]
      {
        var w := NextWord(c, want, i);
        b[i] := w[0];
        i := i + 1;
        if i < l {
          b[i] := w[1];
          i := i + 1;
        }
        if i < l {
          b[i] := w[2];
          i := i + 1;
        }
        if i < l {
          b[i] := w[3];
          i := i + 1;
        }
      }
    }

    /** Leaves 4-byte mode; afterwards the driver is not valid any more. */
    method Close()
      requires Valid()
      modifies bus
      ensures bus.chip == old(bus.chip).(addr4 := false, recv := [], sent := 0)
      ensures Commands(bus.trace) == Commands(old(bus.trace)) + [[OP_EX4B]]
      ensures Disciplined(bus.trace)
    {
      OneByte(bus.chip, OP_EX4B, bus.polls);
      TraceSnoc(bus.trace, Frame([OP_EX4B], true, bus.chip.wel, true));
      Cmd8(OP_EX4B);
    }
  }

  /** Finds the chip ready, checks its identity, and opens the driver with the chip in 4-byte mode. */
  method SystemFlash(bus: Bus) returns (f: Mx25l256?)
    requires bus.chip.Valid() && !bus.chip.selected && bus.trace == []
    modifies bus
    ensures f != null <==> old(bus.chip.id) == [0xc2, 0x20, 0x19]
    ensures f != null ==> f.bus == bus && f.Valid() && Commands(bus.trace) == [[OP_ID], [OP_EN4B]]
    ensures bus.chip.mem == old(bus.chip.mem)
  {
    bus.MustWrite32(CS0_CTRL, 0);
    bus.MustWrite32(CS0_SEGMENT_ADDR, 0x48400000);
    bus.MustWrite32(SPI_READ_TIMINGS, 0);
    var probe := new Mx25l256(bus, 0);
    probe.WaitReady();
    var id := probe.Id();
    IdMatches(bus.chip.id);
    if id == MX25L256_ID {
      f := new Mx25l256(bus, 6);
      OneByte(bus.chip, OP_EN4B, bus.polls);
      TraceSnoc(bus.trace, Frame([OP_EN4B], true, bus.chip.wel, bus.chip.addr4));
      f.Cmd8(OP_EN4B);
    } else {
      f := null;
    }
  }

  /** The chip's three identity bytes as the little-endian word the driver compares. */
  function IdWord(id: seq<byte>): (v: int)
    requires |id| == 3
  {
    id[0] + id[1] * B8 + id[2] * B16
  }

  lemma IdBytes(c: Chip)
    requires c.Valid() && c.busy == 0
    ensures Out4(c.Select().In(OP_ID)) == (c.Select().In(OP_ID).(sent := 4), [c.id[0], c.id[1], c.id[2], c.id[0]])
  {}

  lemma IdLow(word: int, id: seq<byte>)
    requires 0 <= word < B32 && |id| == 3 && Le32(word)[..3] == id
    ensures word % B24 == IdWord(id)
  {
    BytesOfInt(word);
    assert Le32(word)[..3] == [ByteOf(word, 0), ByteOf(word, 1), ByteOf(word, 2)];
    assert word == IdWord(id) + ByteOf(word, 3) * B24;
  }

  lemma IdMatches(id: seq<byte>)
    requires |id| == 3
    ensures IdWord(id) == MX25L256_ID <==> id == [0xc2, 0x20, 0x19]
  {
    Cut(id[0], id[1], id[2], 0);
    Cut(0xc2, 0x20, 0x19, 0);
  }

  /** What a frame of one mode-setting byte does to an idle chip. */
  lemma OneByte(c: Chip, cmd: byte, polls: nat)
    requires c.Valid() && c.busy == 0 && cmd in {OP_WREN, OP_EN4B, OP_EX4B}
    ensures c.Select().In(cmd).CurrentFrame() == Frame([cmd], true, c.wel, c.addr4)
    ensures c.Select().In(cmd).Deselect(polls)
         == c.(selected := false, recv := [], sent := 0, wel := c.wel || cmd == OP_WREN,
               addr4 := if cmd == OP_WREN then c.addr4 else cmd == OP_EN4B)
  {
    assert c.Select().In(cmd) == c.(selected := true, recv := [cmd], sent := 0);
  }

  /** Four bytes shifted out to a selected chip. */
  lemma FourIn(c: Chip, w: seq<byte>)
    requires c.selected && |w| == 4
    ensures c.In(w[0]).In(w[1]).In(w[2]).In(w[3]) == c.(recv := c.recv + w)
  {
    assert c.recv + w == c.recv + [w[0]] + [w[1]] + [w[2]] + [w[3]];
  }

  /** CS# rising ends a read frame without further effect. */
  lemma ReadEnds(c: Chip, off: int, polls: nat)
    requires c.Valid() && c.recv == ReadCommand(off)
    ensures c.Deselect(polls) == c.(selected := false, recv := [], sent := 0)
    ensures !IsStatus(c.CurrentFrame()) && !IsArrayWrite(c.CurrentFrame())
  {
    assert |c.recv| == 6 && c.recv[0] == OP_FAST_READ;
  }

  function ReadCommand(off: int): (s: seq<byte>) {
    [OP_FAST_READ] + Be32(off) + [0]
  }

  /** The chip is inside a fast-read frame for `off`, ready to stream. */
  ghost predicate Reading(c: Chip, off: int) {
    c.Valid() && c.selected && c.busy == 0 && c.addr4 && c.sent == 0 && c.recv == ReadCommand(off)
  }

  /** The `n` bytes from `off` on, wrapping at the end of the chip. */
  function Window(mem: seq<byte>, off: int, n: nat): (r: seq<byte>)
    requires |mem| == CHIP_SIZE
    ensures |r| == n
    ensures 0 <= off && off + n <= CHIP_SIZE ==> r == mem[off..off + n]
  {
    seq(n, k => mem[(off + k) % CHIP_SIZE])
  }

  /** Every four-byte read of the frame yields the next four bytes of `want`. */
  ghost predicate Streams(c: Chip, want: seq<byte>)
    requires c.Valid()
  {
    forall i: nat {:trigger Out4(c.(sent := i))} :: i + 4 <= |want| ==>
      Out4(c.(sent := i)) == (c.(sent := i + 4), [want[i], want[i + 1], want[i + 2], want[i + 3]])
  }

  lemma Streaming(c: Chip, off: int, want: seq<byte>)
    requires Reading(c, off) && want == Window(c.mem, off, |want|)
    ensures Streams(c, want)
  {
    forall i: nat | i + 4 <= |want|
      ensures Out4(c.(sent := i)) == (c.(sent := i + 4), [want[i], want[i + 1], want[i + 2], want[i + 3]])
    {
      StreamWord(c, off, want, i);
    }
  }

  lemma StreamWord(c: Chip, off: int, want: seq<byte>, i: nat)
    requires Reading(c, off) && i + 4 <= |want| && want == Window(c.mem, off, |want|)
    ensures Out4(c.(sent := i)) == (c.(sent := i + 4), [want[i], want[i + 1], want[i + 2], want[i + 3]])
  {
    StreamByte(c, off, i);
    StreamByte(c, off, i + 1);
    StreamByte(c, off, i + 2);
    StreamByte(c, off, i + 3);
  }

  lemma StreamByte(c: Chip, off: int, i: nat)
    requires Reading(c, off)
    ensures c.(sent := i).Out() == (c.(sent := i + 1), c.mem[(off + i) % CHIP_SIZE])
  {
    assert c.recv[1..5] == Be32(off);
    RoundTrip32(off);
    StreamAddress(off, i);
  }

  lemma StreamAddress(off: int, i: int)
    ensures (off % B32 % CHIP_SIZE + i) % CHIP_SIZE == (off + i) % CHIP_SIZE
  {
    var w := off % B32;
    var k, r := w / CHIP_SIZE, w % CHIP_SIZE;
    var j, e := (r + i) / CHIP_SIZE, (r + i) % CHIP_SIZE;
    ModIs(off + i, off / B32 * 128 + k + j, e);
  }

  /** One more block of the erase loop. */
  lemma EraseNext(mem: seq<byte>, off: int, n: int)
    requires 0 <= off && 0 <= n && off + n * BLOCK < CHIP_SIZE
    ensures SpiChip.EraseBlock(ErasedBlocks(mem, off / BLOCK, n), (off + n * BLOCK) % CHIP_SIZE)
         == ErasedBlocks(mem, off / BLOCK, n + 1)
  {
    assert (off + n * BLOCK) / BLOCK == off / BLOCK + n;
  }

  lemma {:induction false} EraseCommandsNext(cmds: seq<seq<byte>>, i: int, end: int)
    requires i < end
    ensures cmds + [[OP_WREN], EraseCommand(i)] + EraseCommands(i + BLOCK, end) == cmds + EraseCommands(i, end)
  {}

  lemma {:induction false} ProgramCommandsNext(cmds: seq<seq<byte>>, i: int, b: seq<byte>, k: int, d: seq<byte>)
    requires 0 <= k && k + PAGE <= |b| && d == b[k..k + PAGE]
    ensures cmds + [[OP_WREN], ProgramCommand(i, d)] + ProgramCommands(i + PAGE, b[k + PAGE..])
         == cmds + ProgramCommands(i, b[k..])
  {
    assert b[k..][..PAGE] == b[k..k + PAGE] && b[k..][PAGE..] == b[k + PAGE..];
  }

  /** The erase loop runs once for each started 64 KiB of the write. */
  lemma BlocksVisited(off: int, end: int, n: int)
    requires 0 <= n && off <= end
    requires end <= off + n * BLOCK && (n == 0 || off + n * BLOCK < end + BLOCK)
    ensures n == (end - off + BLOCK - 1) / BLOCK
  {}

  /** One more page of the program loop. */
  lemma ProgramNext(mem: seq<byte>, off: int, b: seq<byte>, page: nat, k: int, d: seq<byte>)
    requires 0 <= off && 0 <= k && k + PAGE <= |b| && page * PAGE == off + k && d == b[k..k + PAGE]
    ensures PageWritten(Programmed(mem, off, b[..k]), page, d) == Programmed(mem, off, b[..k + PAGE])
  {}

  /** The guards' expression, as Go groups it, tests for multiples of 1 KiB; those are multiples of a page. */
  lemma KibMultiple(x: int)
    ensures x % 1024 * 64 != 0 <==> x % 1024 != 0
    ensures x % 1024 == 0 ==> x == x / PAGE * PAGE
  {}

  /** A 64-bit sum either is exact or comes out negative. */
  lemma SumWraps(off: int, len: int)
    requires 0 <= off && IsInt64(off) && 0 <= len && IsInt64(len)
    ensures Wrap64(off + len) == off + len || (Wrap64(off + len) < 0 && off + len > CHIP_SIZE)
  {}

  /** The verdict of WriteAt's three guards, in the order they are tried. */
  function WriteGuard(off: int, len: nat): Result {
    if len % 1024 != 0 then Err(BufferNotMultiple)
    else if off < 0 || off % 1024 != 0 then Err(OffsetNotMultiple)
    else if Wrap64(off + len) > CHIP_SIZE then Err(WriteOverflow)
    else Ok(len)
  }

  lemma ModIs(x: int, k: int, r: int)
    requires 0 <= r < CHIP_SIZE && x == k * CHIP_SIZE + r
    ensures x % CHIP_SIZE == r
  {}

  /** The chip drops address bits above its size, so only the block number modulo 512 counts. */
  lemma BlockSplit(q: int, h: int, low: int)
    requires 0 <= low < BLOCK
    ensures (q * B32 + h * BLOCK + low) % CHIP_SIZE / BLOCK == h % 512
    ensures h * BLOCK % CHIP_SIZE == h % 512 * BLOCK
  {
    var g, e := h / 512, h % 512;
    assert h == g * 512 + e;
    ModIs(h * BLOCK, g, e * BLOCK);
    ModIs(q * B32 + h * BLOCK + low, q * 128 + g, e * BLOCK + low);
  }

  lemma PageSplit(q: int, h: int, low: int)
    requires 0 <= low < PAGE
    ensures (q * B32 + h * PAGE + low) % CHIP_SIZE / PAGE == h % 0x2_0000
    ensures h * PAGE % CHIP_SIZE == h % 0x2_0000 * PAGE
  {
    var g, e := h / 0x2_0000, h % 0x2_0000;
    assert h == g * 0x2_0000 + e;
    ModIs(h * PAGE, g, e * PAGE);
    ModIs(q * B32 + h * PAGE + low, q * 128 + g, e * PAGE + low);
  }

  lemma EraseAddress(c: Chip, b: int)
    requires c.addr4 && c.recv == EraseCommand(b)
    ensures c.Address() / BLOCK == b % CHIP_SIZE / BLOCK
  {
    assert c.recv[1..5] == [ByteOf(b, 3), ByteOf(b, 2), 0, 0];
    BytesOfInt(b);
    var h := ByteOf(b, 2) + ByteOf(b, 3) * B8;
    BlockSplit(b / B32, h, ByteOf(b, 0) + ByteOf(b, 1) * B8);
    assert FromBe32(c.recv[1..5]) == h * BLOCK;
  }

  lemma ProgramAddress(c: Chip, p: int, d: seq<byte>)
    requires c.addr4 && c.recv == ProgramCommand(p, d)
    ensures c.Address() == p % CHIP_SIZE / PAGE * PAGE
    ensures c.recv[5..] == d
  {
    assert c.recv[1..5] == [ByteOf(p, 3), ByteOf(p, 2), ByteOf(p, 1), 0];
    BytesOfInt(p);
    var h := ByteOf(p, 1) + ByteOf(p, 2) * B8 + ByteOf(p, 3) * B16;
    PageSplit(p / B32, h, ByteOf(p, 0));
    assert FromBe32(c.recv[1..5]) == h * PAGE;
  }

  /** CS# rising on a complete erase frame. */
  lemma EraseEffect(c: Chip, b: int, polls: nat)
    requires c.Valid() && c.selected && c.busy == 0 && c.wel && c.addr4 && c.recv == EraseCommand(b)
    ensures c.Deselect(polls) == c.(mem := SpiChip.EraseBlock(c.mem, b % CHIP_SIZE), wel := false, busy := polls,
                                    selected := false, recv := [], sent := 0)
  {
    EraseAddress(c, b);
    assert SpiChip.EraseBlock(c.mem, b % CHIP_SIZE) == SpiChip.EraseBlock(c.mem, c.Address());
  }

  /** CS# rising on a complete program frame. */
  lemma ProgramEffect(c: Chip, p: int, d: seq<byte>, page: nat, polls: nat)
    requires c.Valid() && c.selected && c.busy == 0 && c.wel && c.addr4
    requires |d| == PAGE && c.recv == ProgramCommand(p, d) && page == p % CHIP_SIZE / PAGE
    ensures c.Deselect(polls) == c.(mem := PageWritten(c.mem, page, d), wel := false, busy := polls,
                                    selected := false, recv := [], sent := 0)
  {
    ProgramAddress(c, p, d);
    var a := c.Address();
    forall x | 0 <= x < |c.mem|
      ensures SpiChip.ProgramPage(c.mem, a, d)[x] == PageWritten(c.mem, page, d)[x]
    {
      InPage(x, page);
    }
    assert SpiChip.ProgramPage(c.mem, a, d) == PageWritten(c.mem, page, d);
  }

  lemma InPage(x: int, page: int)
    ensures page * PAGE / PAGE == page
    ensures x / PAGE == page <==> page * PAGE <= x < page * PAGE + PAGE
    ensures x / PAGE == page ==> (x - page * PAGE) % PAGE == x - page * PAGE
  {}

  lemma PageNumber(page: int)
    requires 0 <= page * PAGE < CHIP_SIZE
    ensures page * PAGE % CHIP_SIZE / PAGE == page
  {}
}
