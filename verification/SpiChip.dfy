/** The MX25L256 flash chip as the SPI bus sees it: frames of bytes between CS# falling and CS# rising. */
module SpiChip {
  import opened Bytes

  const CHIP_SIZE := 32 * 1024 * 1024
  const BLOCK := 64 * 1024
  const PAGE := 256

  const OP_ID: byte := 0x9f
  const OP_READ_STATUS: byte := 0x05
  const OP_WREN: byte := 0x06
  const OP_BLOCK_ERASE: byte := 0xd8
  const OP_PAGE_PROGRAM: byte := 0x02
  const OP_EN4B: byte := 0xb7
  const OP_EX4B: byte := 0xe9
  const OP_FAST_READ: byte := 0x0b

  /** One CS#-low period: the bytes sent to the chip, and the chip's flags when CS# rose. */
  datatype Frame = Frame(bytes: seq<byte>, idle: bool, wel: bool, addr4: bool)

  /**
   * `busy` counts the status reads that will still report an operation in progress;
   * `recv` and `sent` are the bytes taken in and handed out since CS# fell.
   */
  datatype Chip = Chip(mem: seq<byte>, id: seq<byte>, addr4: bool, wel: bool, busy: nat,
                       selected: bool, recv: seq<byte>, sent: nat)
  {
    ghost predicate Valid() {
      |mem| == CHIP_SIZE && |id| == 3
    }

    function AddressBytes(): (n: nat) {
      if addr4 then 4 else 3
    }

    /** The address field of the frame so far; the chip ignores the bits above its size. */
    function Address(): (a: nat)
      requires |recv| >= 1 + AddressBytes()
      ensures a < CHIP_SIZE
    {
      var field := if addr4 then recv[1..5] else [0] + recv[1..4];
      FromBe32(field) % CHIP_SIZE
    }

    function Select(): Chip {
      this.(selected := true, recv := [], sent := 0)
    }

    function In(b: byte): Chip {
      if selected then this.(recv := recv + [b]) else this
    }

    /** The next byte the chip drives, and the chip after driving it. */
    function Out(): (r: (Chip, byte))
      requires Valid()
    {
      if !selected || recv == [] then (this, 0)
      else if recv[0] == OP_READ_STATUS then
        (this.(sent := sent + 1, busy := if busy > 0 then busy - 1 else 0),
         (if busy > 0 then 1 else 0) + (if wel then 2 else 0))
      else if busy > 0 then (this, 0)
      else if recv[0] == OP_ID then
        (this.(sent := sent + 1), id[sent % 3])
      else if recv[0] == OP_FAST_READ && |recv| == 2 + AddressBytes() then
        (this.(sent := sent + 1), mem[(Address() + sent) % CHIP_SIZE])
      else (this, 0)
    }

    /** CS# rises: a complete command is carried out; an erase or a program keeps the chip busy for `polls` reads. */
    function Deselect(polls: nat): Chip
      requires Valid()
    {
      var c := this.(selected := false, recv := [], sent := 0);
      if !selected || recv == [] || busy > 0 then c
      else if recv == [OP_WREN] then c.(wel := true)
      else if recv == [OP_EN4B] then c.(addr4 := true)
      else if recv == [OP_EX4B] then c.(addr4 := false)
      else if recv[0] == OP_BLOCK_ERASE && wel && |recv| == 1 + AddressBytes() then
        c.(mem := EraseBlock(mem, Address()), wel := false, busy := polls)
      else if recv[0] == OP_PAGE_PROGRAM && wel && 1 + AddressBytes() < |recv| <= 1 + AddressBytes() + PAGE then
        c.(mem := ProgramPage(mem, Address(), recv[1 + AddressBytes()..]), wel := false, busy := polls)
      else c
    }

    function CurrentFrame(): Frame {
      Frame(recv, busy == 0, wel, addr4)
    }
  }

  /** Erasing sets every bit of the 64 KiB block that holds `a`. */
  function EraseBlock(mem: seq<byte>, a: nat): (r: seq<byte>)
    ensures |r| == |mem|
  {
    seq(|mem|, x requires 0 <= x < |mem| => if x / BLOCK == a / BLOCK then 255 else mem[x])
  }

  /** Programming can only clear bits, and wraps inside the 256-byte page that holds `a`. */
  function ProgramPage(mem: seq<byte>, a: nat, data: seq<byte>): (r: seq<byte>)
    requires |data| <= PAGE
    ensures |r| == |mem|
  {
    seq(|mem|, x requires 0 <= x < |mem| =>
      if x / PAGE == a / PAGE && (x - a) % PAGE < |data| then And8(mem[x], data[(x - a) % PAGE]) else mem[x])
  }

  predicate IsStatus(f: Frame) {
    f.bytes == [OP_READ_STATUS]
  }

  /** An erase or program command. */
  predicate IsArrayWrite(f: Frame) {
    f.bytes != [] && f.bytes[0] in {OP_BLOCK_ERASE, OP_PAGE_PROGRAM}
  }

  /**
   * The bus discipline: each erase or program fills a frame of its own with a four-byte address,
   * directly follows a frame holding only WREN, and finds the chip idle, enabled and in 4-byte mode.
   */
  ghost predicate Disciplined(trace: seq<Frame>) {
    forall i :: 0 <= i < |trace| && IsArrayWrite(trace[i]) ==>
      && i > 0 && trace[i - 1].bytes == [OP_WREN]
      && trace[i].idle && trace[i].wel && trace[i].addr4
      && |trace[i].bytes| == if trace[i].bytes[0] == OP_BLOCK_ERASE then 5 else 5 + PAGE
  }

  /** The byte strings of the frames of a trace, with the status polls left out. */
  function Commands(trace: seq<Frame>): (r: seq<seq<byte>>) {
    if trace == [] then []
    else
      var last := trace[|trace| - 1];
      Commands(trace[..|trace| - 1]) + if IsStatus(last) then [] else [last.bytes]
  }

  /** An erase or program frame that obeys the discipline extends a trace that does. */
  lemma {:induction false} TraceSnoc(trace: seq<Frame>, f: Frame)
    requires Disciplined(trace)
    requires IsArrayWrite(f) ==>
               && trace != [] && trace[|trace| - 1].bytes == [OP_WREN] && f.idle && f.wel && f.addr4
               && |f.bytes| == if f.bytes[0] == OP_BLOCK_ERASE then 5 else 5 + PAGE
    ensures Disciplined(trace + [f])
    ensures Commands(trace + [f]) == Commands(trace) + if IsStatus(f) then [] else [f.bytes]
  {
    CommandsSnoc(trace, f);
  }

  lemma {:induction false} CommandsSnoc(trace: seq<Frame>, f: Frame)
    ensures Commands(trace + [f]) == Commands(trace) + if IsStatus(f) then [] else [f.bytes]
  {
    assert (trace + [f])[..|trace|] == trace;
  }
}
