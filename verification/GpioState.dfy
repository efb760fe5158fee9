/** GPIO and SCU register snapshots, the register layout tables, and the numbering of lines. */
module GpioState {
  import opened Bytes

  /** A snapshot of registers; a register that is missing reads as zero. */
  datatype State = State(gpio: map<uint32, uint32>, scu: map<uint32, uint32>)

  /** `order` lists the keys of a map, each once: one way its iteration can go. */
  ghost predicate IsOrder<V>(m: map<uint32, V>, order: seq<uint32>) {
    && (forall i, j :: 0 <= i < j < |order| ==> order[i] != order[j])
    && (forall k :: k in order <==> k in m)
    && (forall i :: 0 <= i < |order| ==> order[i] in m)
  }

  function Get(m: map<uint32, uint32>, k: uint32): uint32 {
    if k in m then m[k] else 0
  }

  /** Bit `k` of a register; there is nothing above bit 31. */
  predicate Bit(v: nat, k: nat) {
    if k == 0 then v % 2 == 1 else Bit(v / 2, k - 1)
  }

  /** The bit is the one that `1 << k` selects. */
  lemma {:induction false} BitIs(v: nat, k: nat)
    ensures Bit(v, k) <==> v / Pow2(k) % 2 == 1
  {
    if k > 0 {
      BitIs(v / 2, k - 1);
      HalfFirst(v, Pow2(k - 1));
    }
  }

  lemma HalfFirst(v: nat, p: nat)
    requires p > 0
    ensures v / (2 * p) == v / 2 / p
  {
    var q, r := v / 2 / p, v / 2 % p;
    assert v / 2 == q * p + r;
    assert v == q * (2 * p) + (2 * r + v % 2);
    DivIs(v, 2 * p, q, 2 * r + v % 2);
  }

  /** A group of adjacent lines in a register; an unnamed group is a gap. */
  datatype RegSet = RegSet(name: string, pins: nat)

  type Table = map<uint32, seq<RegSet>>

  const DIR_REGS: Table := map[
    0x004 := [RegSet("A", 8), RegSet("B", 8), RegSet("C", 8), RegSet("D", 8)],
    0x024 := [RegSet("E", 8), RegSet("F", 8), RegSet("G", 8), RegSet("H", 8)],
    0x074 := [RegSet("I", 8), RegSet("J", 8), RegSet("K", 8), RegSet("L", 8)],
    0x07C := [RegSet("M", 8), RegSet("N", 8), RegSet("O", 8), RegSet("P", 8)],
    0x084 := [RegSet("Q", 8), RegSet("R", 8), RegSet("S", 8), RegSet("T", 8)],
    0x08C := [RegSet("U", 8), RegSet("V", 8)],
    0x1E4 := [RegSet("Y", 4)]
  ]

  const DATA_REGS: Table := map[
    0x000 := [RegSet("A", 8), RegSet("B", 8), RegSet("C", 8), RegSet("D", 8)],
    0x020 := [RegSet("E", 8), RegSet("F", 8), RegSet("G", 8), RegSet("H", 8)],
    0x070 := [RegSet("I", 8), RegSet("J", 8), RegSet("K", 8), RegSet("L", 8)],
    0x078 := [RegSet("M", 8), RegSet("N", 8), RegSet("O", 8), RegSet("P", 8)],
    0x080 := [RegSet("Q", 8), RegSet("R", 8), RegSet("S", 8), RegSet("T", 8)],
    0x088 := [RegSet("U", 8), RegSet("V", 8), RegSet("W", 8), RegSet("X", 8)],
    0x1E0 := [RegSet("Y", 4), RegSet("", 4), RegSet("Z", 8), RegSet("AA", 8), RegSet("AB", 4)]
  ]

  const SCU_REGS: seq<uint32> := [
    0x08, 0x0c, 0x10, 0x14, 0x18, 0x1c, 0x20, 0x24, 0x28,
    0x2c, 0x30, 0x34, 0x38, 0x3c, 0x4c, 0x70, 0x74, 0x7c,
    0x80, 0x84, 0x88, 0x8c, 0x90, 0x94, 0x9c, 0xa0, 0xa4,
    0xa8, 0xc0, 0xc4, 0xd0
  ]

  // ---------------------------------------------------------------- the numbering of lines

  predicate ValidName(n: string) {
    n == "AA" || n == "AB" || (|n| == 1 && 'A' <= n[0] <= 'Z')
  }

  /** The number of a set: A is 0, Z is 25, AA is 26, AB is 27. */
  function SetNumber(n: string): (k: nat)
    requires ValidName(n)
    ensures k < 28
  {
    if n == "AB" then 27 else if n == "AA" then 26 else (n[0] - 'A') as int
  }

  function SetPinToPort(n: string, pin: nat): (p: nat)
    requires ValidName(n)
  {
    if n == "AB" then 27 * 8 + pin
    else if n == "AA" then 26 * 8 + pin
    else (n[0] - 'A') as int * 8 + pin
  }

  function PortToSetPin(p: nat): (r: (string, nat))
    ensures ValidName(r.0)
  {
    if p >= 27 * 8 then ("AB", p - 27 * 8)
    else if p >= 26 * 8 then ("AA", p - 26 * 8)
    else ([('A' as int + p / 8) as char], p % 8)
  }

  /** The two numberings undo each other: on lines 0 to 7 of every set, and on every port. */
  lemma PortRoundTrip(n: string, pin: nat, p: nat)
    requires ValidName(n) && pin < 8
    ensures PortToSetPin(SetPinToPort(n, pin)) == (n, pin)
    ensures SetPinToPort(PortToSetPin(p).0, PortToSetPin(p).1) == p
  {
    if |n| == 1 {
      assert n == [n[0]];
      assert SetPinToPort(n, pin) / 8 == (n[0] - 'A') as int;
    }
  }

  /** Set numbers tell sets apart. */
  lemma SetNumberInjective(m: string, n: string)
    requires ValidName(m) && ValidName(n) && SetNumber(m) == SetNumber(n)
    ensures m == n
  {}

  // ---------------------------------------------------------------- the layout, without the tables

  /** The register of set `k`: four sets to a register up to X (or V), then one last register for the rest. */
  function HomeReg(data: bool, k: nat): uint32
    requires k < 28
  {
    if k >= 24 then (if data then 0x1E0 else 0x1E4)
    else [0x000, 0x020, 0x070, 0x078, 0x080, 0x088][k / 4] + if data then 0 else 4
  }

  /** The position of set `k` in that register's list; data position 1 of the last register is the gap. */
  function HomePos(k: nat): nat {
    if k < 24 then k % 4 else if k == 24 then 0 else k - 23
  }

  /** The lowest bit of set `k`. */
  function HomeBit(k: nat): nat {
    8 * (k % 4)
  }

  /** Sets W, X, Z, AA and AB have no direction bits. */
  predicate HasSet(data: bool, k: nat) {
    k < 28 && (data || k < 22 || k == 24)
  }

  function Pins(k: nat): nat {
    if k == 24 || k == 27 then 4 else 8
  }

  function PortSet(p: nat): (k: nat)
    ensures k < 28
  {
    if p >= 27 * 8 then 27 else p / 8
  }

  function PortPin(p: nat): nat {
    p - 8 * PortSet(p)
  }

  /** Where the lines of a set are: register, position in its list, lowest bit, number of lines. */
  datatype Place = Place(reg: uint32, pos: nat, bit: nat, pins: nat)

  type Layout = map<nat, Place>

  /** The layout of the data bits, or of the direction bits. */
  function Home(data: bool): Layout {
    map k: nat | k < 28 && HasSet(data, k) :: Place(HomeReg(data, k), HomePos(k), HomeBit(k), Pins(k))
  }

  /** The line exists in the layout. */
  predicate Listed(home: Layout, p: nat) {
    PortSet(p) in home && PortPin(p) < home[PortSet(p)].pins
  }

  /** The level (or direction) of line `p`: one bit of one register. */
  predicate LineBit(home: Layout, s: State, p: nat)
    requires PortSet(p) in home
  {
    Bit(Get(s.gpio, home[PortSet(p)].reg), home[PortSet(p)].bit + PortPin(p))
  }

  function TableOf(data: bool): Table {
    if data then DATA_REGS else DIR_REGS
  }

  /** The first bit of the `n`th set of a register. */
  function Offset(sets: seq<RegSet>, n: nat): nat
    requires n <= |sets|
  {
    if n == 0 then 0 else Offset(sets, n - 1) + sets[n - 1].pins
  }

  /** The cell is a gap (in the data table only), or a set in its place with its number of lines. */
  predicate InPlace(data: bool, a: uint32, i: nat, cell: RegSet) {
    if cell.name == "" then data
    else
      && ValidName(cell.name)
      && var k := SetNumber(cell.name);
         HasSet(data, k) && HomeReg(data, k) == a && HomePos(k) == i && cell.pins == Pins(k)
  }

  lemma DirTableIsLayout(a: uint32, i: nat)
    requires a in DIR_REGS && i < |DIR_REGS[a]|
    ensures InPlace(false, a, i, DIR_REGS[a][i])
  {}

  lemma DataTableIsLayout(a: uint32, i: nat)
    requires a in DATA_REGS && i < |DATA_REGS[a]|
    ensures InPlace(true, a, i, DATA_REGS[a][i])
  {}

  /** Every table cell is where the layout says. */
  lemma TableIsLayout(data: bool, a: uint32, i: nat)
    requires a in TableOf(data) && i < |TableOf(data)[a]|
    ensures InPlace(data, a, i, TableOf(data)[a][i])
  {
    if data {
      DataTableIsLayout(a, i);
    } else {
      DirTableIsLayout(a, i);
    }
  }

  lemma {:induction false} OffsetSum(sets: seq<RegSet>, i: nat)
    requires i < |sets| && i < 5
    ensures Offset(sets, i) == (if i > 0 then sets[0].pins else 0) + (if i > 1 then sets[1].pins else 0)
                             + (if i > 2 then sets[2].pins else 0) + (if i > 3 then sets[3].pins else 0)
  {
    assert i > 0 ==> Offset(sets, 1) == sets[0].pins;
    assert i > 1 ==> Offset(sets, 2) == sets[0].pins + sets[1].pins;
    assert i > 2 ==> Offset(sets, 3) == sets[0].pins + sets[1].pins + sets[2].pins;
  }

  lemma {:induction false} DirOffset(a: uint32, i: nat)
    requires a in DIR_REGS && i < |DIR_REGS[a]|
    ensures ValidName(DIR_REGS[a][i].name) && Offset(DIR_REGS[a], i) == HomeBit(SetNumber(DIR_REGS[a][i].name))
  {
    OffsetSum(DIR_REGS[a], i);
  }

  lemma {:induction false} DataOffset(a: uint32, i: nat)
    requires a in DATA_REGS && i < |DATA_REGS[a]| && DATA_REGS[a][i].name != ""
    ensures ValidName(DATA_REGS[a][i].name) && Offset(DATA_REGS[a], i) == HomeBit(SetNumber(DATA_REGS[a][i].name))
  {
    DataTableIsLayout(a, i);
    OffsetSum(DATA_REGS[a], i);
    if a != 0x1E0 {
      assert forall j :: 0 <= j < |DATA_REGS[a]| ==> DATA_REGS[a][j].pins == 8;
    }
  }

  /** The offsets the walk adds up are the layout's bit positions. */
  lemma {:induction false} OffsetIsLayout(data: bool, a: uint32, i: nat)
    requires a in TableOf(data) && i < |TableOf(data)[a]| && TableOf(data)[a][i].name != ""
    ensures ValidName(TableOf(data)[a][i].name)
    ensures Offset(TableOf(data)[a], i) == HomeBit(SetNumber(TableOf(data)[a][i].name))
  {
    if data {
      DataOffset(a, i);
    } else {
      DirOffset(a, i);
    }
  }

  lemma DirLayoutInTable(k: nat)
    requires HasSet(false, k)
    ensures var a := HomeReg(false, k);
            && a in DIR_REGS && HomePos(k) < |DIR_REGS[a]|
            && ValidName(DIR_REGS[a][HomePos(k)].name) && SetNumber(DIR_REGS[a][HomePos(k)].name) == k
  {}

  lemma DataLayoutInTable(k: nat)
    requires HasSet(true, k)
    ensures var a := HomeReg(true, k);
            && a in DATA_REGS && HomePos(k) < |DATA_REGS[a]|
            && ValidName(DATA_REGS[a][HomePos(k)].name) && SetNumber(DATA_REGS[a][HomePos(k)].name) == k
  {}

  /** And every set of the layout is in the table. */
  lemma LayoutInTable(data: bool, k: nat)
    requires HasSet(data, k)
    ensures var a := HomeReg(data, k);
            a in TableOf(data) && HomePos(k) < |TableOf(data)[a]|
            && ValidName(TableOf(data)[a][HomePos(k)].name) && SetNumber(TableOf(data)[a][HomePos(k)].name) == k
  {
    if data {
      DataLayoutInTable(k);
    } else {
      DirLayoutInTable(k);
    }
  }

  /** A table follows a layout: each cell is a gap or its set's place, and each set has its cell. */
  ghost predicate LaidOut(t: Table, home: Layout) {
    && (forall a, i :: a in t && 0 <= i < |t[a]| && t[a][i].name != "" ==>
          && ValidName(t[a][i].name) && SetNumber(t[a][i].name) in home
          && home[SetNumber(t[a][i].name)] == Place(a, i, Offset(t[a], i), t[a][i].pins))
    && (forall k :: k in home ==>
          && home[k].reg in t && home[k].pos < |t[home[k].reg]| && home[k].pins <= 8
          && t[home[k].reg][home[k].pos].name != "" && SetNumber(t[home[k].reg][home[k].pos].name) == k)
  }

  lemma TablesLaidOut(data: bool)
    ensures LaidOut(TableOf(data), Home(data))
  {
    var t: Table := TableOf(data);
    var home: Layout := Home(data);
    forall a, i | a in t && 0 <= i < |t[a]| && t[a][i].name != ""
      ensures ValidName(t[a][i].name) && SetNumber(t[a][i].name) in home
      ensures home[SetNumber(t[a][i].name)] == Place(a, i, Offset(t[a], i), t[a][i].pins)
    {
      TableIsLayout(data, a, i);
      OffsetIsLayout(data, a, i);
    }
    forall k | k in home
      ensures home[k].reg in t && home[k].pos < |t[home[k].reg]| && home[k].pins <= 8
      ensures t[home[k].reg][home[k].pos].name != "" && ValidName(t[home[k].reg][home[k].pos].name)
      ensures SetNumber(t[home[k].reg][home[k].pos].name) == k
    {
      LayoutInTable(data, k);
    }
  }
}
