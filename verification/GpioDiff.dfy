/** Comparing two GPIO snapshots line by line: the table walk, and what it reports. */
module GpioDiff {
  import opened Wrappers
  import opened Bytes
  import opened GpioState

  datatype Kind =
    | Input | Output | BecameInput | BecameOutput
    | Low | High | BecameLow | BecameHigh
    | Scu | ScuChanged

  datatype LineState = LineState(port: nat, kind: Kind)

  function NowKind(data: bool, on: bool): Kind {
    if data then (if on then High else Low) else (if on then Output else Input)
  }

  function BecameKind(data: bool, on: bool): Kind {
    if data then (if on then BecameHigh else BecameLow) else (if on then BecameOutput else BecameInput)
  }

  /** What one line contributes: its state if there is nothing to compare with, otherwise its change if there is one. */
  function LineReport(data: bool, port: nat, on: bool, was: Option<bool>): seq<LineState> {
    match was
    case None => [LineState(port, NowKind(data, on))]
    case Some(w) => if on == w then [] else [LineState(port, BecameKind(data, on))]
  }

  function WasBit(bv: Option<uint32>, k: nat): Option<bool> {
    if bv.None? then None else Some(Bit(bv.value, k))
  }

  function PinsReport(data: bool, name: string, bo: nat, n: nat, sv: uint32, bv: Option<uint32>): seq<LineState>
    requires ValidName(name)
  {
    if n == 0 then []
    else
      PinsReport(data, name, bo, n - 1, sv, bv) +
      LineReport(data, SetPinToPort(name, n - 1), Bit(sv, bo + (n - 1)), WasBit(bv, bo + (n - 1)))
  }

  predicate NamesOk(sets: seq<RegSet>) {
    forall i :: 0 <= i < |sets| ==> sets[i].name == "" || ValidName(sets[i].name)
  }

  function SetsReport(data: bool, sets: seq<RegSet>, n: nat, sv: uint32, bv: Option<uint32>): seq<LineState>
    requires n <= |sets| && NamesOk(sets)
  {
    if n == 0 then []
    else
      SetsReport(data, sets, n - 1, sv, bv) +
      if sets[n - 1].name == "" then []
      else PinsReport(data, sets[n - 1].name, Offset(sets, n - 1), sets[n - 1].pins, sv, bv)
  }

  function OldReg(b: Option<State>, a: uint32): Option<uint32> {
    if b.None? then None else Some(Get(b.value.gpio, a))
  }

  ghost predicate TableOk(t: Table) {
    forall a :: a in t ==> NamesOk(t[a])
  }

  ghost function RegsReport(data: bool, t: Table, order: seq<uint32>, s: State, b: Option<State>): seq<LineState>
    requires TableOk(t) && forall i :: 0 <= i < |order| ==> order[i] in t
  {
    if order == [] then []
    else
      var a := order[|order| - 1];
      RegsReport(data, t, order[..|order| - 1], s, b) + SetsReport(data, t[a], |t[a]|, Get(s.gpio, a), OldReg(b, a))
  }

  function ScuReport(regs: seq<uint32>, s: State, b: Option<State>): seq<LineState> {
    if regs == [] then []
    else
      var r := regs[|regs| - 1];
      ScuReport(regs[..|regs| - 1], s, b) +
      if b.None? then [LineState(r, Scu)]
      else if Get(s.scu, r) != Get(b.value.scu, r) then [LineState(r, ScuChanged)]
      else []
  }

  // ---------------------------------------------------------------- the walk

  /** The innermost loop: the pins of a set. */
  method DiffPins(data: bool, name: string, bo: nat, pins: nat, sv: uint32, bv: Option<uint32>)
    returns (res: seq<LineState>)
    requires ValidName(name)
    ensures res == PinsReport(data, name, bo, pins, sv, bv)
  {
    res := [];
    for pin := 0 to pins
      invariant res == PinsReport(data, name, bo, pin, sv, bv)
    {
      var bit := bo + pin;
      var port := SetPinToPort(name, pin);
      var on := Bit(sv, bit);
      if bv.None? {
        res := res + [LineState(port, NowKind(data, on))];
      } else if on != Bit(bv.value, bit) {
        res := res + [LineState(port, BecameKind(data, on))];
      }
    }
  }

  /** The middle loop: the sets of a register, each starting where the one before it ended. */
  method DiffSets(data: bool, sets: seq<RegSet>, sv: uint32, bv: Option<uint32>) returns (res: seq<LineState>)
    requires NamesOk(sets)
    ensures res == SetsReport(data, sets, |sets|, sv, bv)
  {
    res := [];
    var bo := 0;
    for i := 0 to |sets|
      invariant res == SetsReport(data, sets, i, sv, bv)
      invariant bo == Offset(sets, i)
    {
      if sets[i].name != "" {
        var part := DiffPins(data, sets[i].name, bo, sets[i].pins, sv, bv);
        res := res + part;
      }
      bo := bo + sets[i].pins;
    }
  }

  /** The outer loop over a register table, in whatever order the map yields its keys. */
  method DiffRegs(data: bool, t: Table, s: State, b: Option<State>)
    returns (res: seq<LineState>, ghost order: seq<uint32>)
    requires TableOk(t)
    ensures IsOrder(t, order)
    ensures res == RegsReport(data, t, order, s, b)
  {
    res := [];
    order := [];
    var keys := t.Keys;
    while keys != {}
      invariant keys <= t.Keys
      invariant forall i, j :: 0 <= i < j < |order| ==> order[i] != order[j]
      invariant forall a :: a in order <==> a in t && a !in keys
      invariant res == RegsReport(data, t, order, s, b)
      decreases |keys|
    {
      var a :| a in keys;
      var part := DiffSets(data, t[a], Get(s.gpio, a), if b.None? then None else Some(Get(b.value.gpio, a)));
      res := res + part;
      assert (order + [a])[..|order|] == order;
      order := order + [a];
      keys := keys - {a};
    }
  }

  /** The loop over the SCU registers. */
  method DiffScu(regs: seq<uint32>, s: State, b: Option<State>) returns (res: seq<LineState>)
    ensures res == ScuReport(regs, s, b)
  {
    res := [];
    for i := 0 to |regs|
      invariant res == ScuReport(regs[..i], s, b)
    {
      var r := regs[i];
      assert regs[..i + 1][..i] == regs[..i];
      if b.None? {
        res := res + [LineState(r, Scu)];
      } else if Get(s.scu, r) != Get(b.value.scu, r) {
        res := res + [LineState(r, ScuChanged)];
      }
    }
    assert regs[..|regs|] == regs;
  }

  lemma TablesOk()
    ensures TableOk(DIR_REGS) && TableOk(DATA_REGS)
  {
    TablesLaidOut(false);
    TablesLaidOut(true);
    assert TableOk(TableOf(false)) && TableOk(TableOf(true));
  }

  /** Directions, then levels, then SCU registers: the whole report, or the differences from `b`. */
  method Diff(s: State, b: Option<State>)
    returns (res: seq<LineState>, ghost dirOrder: seq<uint32>, ghost dataOrder: seq<uint32>)
    ensures Orders(dirOrder, dataOrder)
    ensures res == Report(s, b, dirOrder, dataOrder)
  {
    TablesOk();
    var dirs, levels, scus;
    dirs, dirOrder := DiffRegs(false, DIR_REGS, s, b);
    levels, dataOrder := DiffRegs(true, DATA_REGS, s, b);
    scus := DiffScu(SCU_REGS, s, b);
    res := dirs + levels + scus;
  }

  // ---------------------------------------------------------------- what the report says

  /** The old level (or direction) of line `p`, if there is a snapshot to compare with. */
  function WasLine(home: Layout, b: Option<State>, p: nat): Option<bool>
    requires PortSet(p) in home
  {
    if b.None? then None else Some(LineBit(home, b.value, p))
  }

  lemma PortOfSet(name: string, pin: nat)
    requires ValidName(name) && pin < 8
    ensures PortSet(SetPinToPort(name, pin)) == SetNumber(name) && PortPin(SetPinToPort(name, pin)) == pin
  {}

  lemma PortIsSetPin(p: nat, name: string)
    requires ValidName(name) && PortSet(p) == SetNumber(name)
    ensures p == SetPinToPort(name, PortPin(p))
  {}

  lemma {:induction false} PinsMember(data: bool, name: string, bo: nat, n: nat, sv: uint32, bv: Option<uint32>,
                                      x: LineState)
    requires ValidName(name) && n <= 8
    ensures x in PinsReport(data, name, bo, n, sv, bv) <==>
            && PortSet(x.port) == SetNumber(name) && PortPin(x.port) < n
            && x in LineReport(data, x.port, Bit(sv, bo + PortPin(x.port)), WasBit(bv, bo + PortPin(x.port)))
  {
    if n > 0 {
      PinsMember(data, name, bo, n - 1, sv, bv, x);
      PortOfSet(name, n - 1);
      if PortSet(x.port) == SetNumber(name) {
        PortIsSetPin(x.port, name);
      }
    }
  }

  /** `x` is what its line contributes, given the words its register holds now and held before. */
  predicate Shows(home: Layout, data: bool, sv: uint32, bv: Option<uint32>, x: LineState)
    requires PortSet(x.port) in home
  {
    var place, pin := home[PortSet(x.port)], PortPin(x.port);
    pin < place.pins && x in LineReport(data, x.port, Bit(sv, place.bit + pin), WasBit(bv, place.bit + pin))
  }

  /** What one cell of a register's list contributes. */
  lemma CellMember(home: Layout, place: Place, name: string, data: bool, sv: uint32, bv: Option<uint32>, x: LineState)
    requires ValidName(name) && SetNumber(name) in home && home[SetNumber(name)] == place && place.pins <= 8
    requires forall k :: k in home && home[k].reg == place.reg && home[k].pos == place.pos ==> k == SetNumber(name)
    ensures x in PinsReport(data, name, place.bit, place.pins, sv, bv) <==>
            && PortSet(x.port) in home
            && home[PortSet(x.port)].reg == place.reg && home[PortSet(x.port)].pos == place.pos
            && Shows(home, data, sv, bv, x)
  {
    PinsMember(data, name, place.bit, place.pins, sv, bv, x);
  }

  lemma SetsNext(data: bool, sets: seq<RegSet>, n: nat, sv: uint32, bv: Option<uint32>, x: LineState)
    requires n < |sets| && NamesOk(sets)
    ensures x in SetsReport(data, sets, n + 1, sv, bv) <==>
            || x in SetsReport(data, sets, n, sv, bv)
            || (sets[n].name != "" && x in PinsReport(data, sets[n].name, Offset(sets, n), sets[n].pins, sv, bv))
  {}

  lemma GapOnly(t: Table, home: Layout, a: uint32, i: nat)
    requires LaidOut(t, home) && a in t && i < |t[a]| && t[a][i].name == ""
    ensures forall k :: k in home && home[k].reg == a ==> home[k].pos != i
  {}

  lemma {:induction false} SetsMember(t: Table, home: Layout, data: bool, a: uint32, n: nat, sv: uint32,
                                      bv: Option<uint32>, x: LineState)
    requires LaidOut(t, home) && a in t && n <= |t[a]| && NamesOk(t[a])
    ensures x in SetsReport(data, t[a], n, sv, bv) <==>
            && PortSet(x.port) in home && home[PortSet(x.port)].reg == a && home[PortSet(x.port)].pos < n
            && Shows(home, data, sv, bv, x)
  {
    if n > 0 {
      SetsMember(t, home, data, a, n - 1, sv, bv, x);
      SetsNext(data, t[a], n - 1, sv, bv, x);
      var cell := t[a][n - 1];
      if cell.name == "" {
        GapOnly(t, home, a, n - 1);
      } else {
        CellOnly(t, home, a, n - 1);
        CellMember(home, Place(a, n - 1, Offset(t[a], n - 1), cell.pins), cell.name, data, sv, bv, x);
      }
    }
  }

  /** A named cell is the place of its set, and of no other. */
  lemma CellOnly(t: Table, home: Layout, a: uint32, i: nat)
    requires LaidOut(t, home) && a in t && i < |t[a]| && t[a][i].name != ""
    ensures ValidName(t[a][i].name) && SetNumber(t[a][i].name) in home && t[a][i].pins <= 8
    ensures home[SetNumber(t[a][i].name)] == Place(a, i, Offset(t[a], i), t[a][i].pins)
    ensures forall k :: k in home && home[k].reg == a && home[k].pos == i ==> k == SetNumber(t[a][i].name)
  {
    assert home[SetNumber(t[a][i].name)] == Place(a, i, Offset(t[a], i), t[a][i].pins);
  }

  lemma ShowsIs(home: Layout, data: bool, s: State, b: Option<State>, a: uint32, x: LineState)
    requires PortSet(x.port) in home && home[PortSet(x.port)].reg == a
    ensures Shows(home, data, Get(s.gpio, a), OldReg(b, a), x) <==>
            Listed(home, x.port) && x in LineReport(data, x.port, LineBit(home, s, x.port), WasLine(home, b, x.port))
  {
    var bit := home[PortSet(x.port)].bit + PortPin(x.port);
    assert WasBit(OldReg(b, a), bit) == WasLine(home, b, x.port);
    assert Bit(Get(s.gpio, a), bit) == LineBit(home, s, x.port);
  }

  lemma RegMember(t: Table, home: Layout, data: bool, a: uint32, s: State, b: Option<State>, x: LineState)
    requires LaidOut(t, home) && a in t && NamesOk(t[a])
    ensures x in SetsReport(data, t[a], |t[a]|, Get(s.gpio, a), OldReg(b, a)) <==>
            && Listed(home, x.port) && home[PortSet(x.port)].reg == a
            && x in LineReport(data, x.port, LineBit(home, s, x.port), WasLine(home, b, x.port))
  {
    SetsMember(t, home, data, a, |t[a]|, Get(s.gpio, a), OldReg(b, a), x);
    var k := PortSet(x.port);
    if k in home && home[k].reg == a {
      assert home[k].pos < |t[a]|;
      ShowsIs(home, data, s, b, a, x);
    }
  }

  /** A line's report is in the walk's output exactly when its register was visited. */
  lemma {:induction false} RegsMember(t: Table, home: Layout, data: bool, order: seq<uint32>, s: State,
                                      b: Option<State>, x: LineState)
    requires LaidOut(t, home) && TableOk(t) && forall i :: 0 <= i < |order| ==> order[i] in t
    ensures x in RegsReport(data, t, order, s, b) <==>
            && Listed(home, x.port) && home[PortSet(x.port)].reg in order
            && x in LineReport(data, x.port, LineBit(home, s, x.port), WasLine(home, b, x.port))
  {
    if order != [] {
      var rest, a := order[..|order| - 1], order[|order| - 1];
      assert order == rest + [a];
      RegsMember(t, home, data, rest, s, b, x);
      RegMember(t, home, data, a, s, b, x);
    }
  }

  // ---------------------------------------------------------------- at most once

  ghost predicate OnePerLine(res: seq<LineState>) {
    forall i, j :: 0 <= i < j < |res| ==> res[i].port != res[j].port
  }

  lemma OnePerLineConcat(xs: seq<LineState>, ys: seq<LineState>)
    requires OnePerLine(xs) && OnePerLine(ys)
    requires forall x, y :: x in xs && y in ys ==> x.port != y.port
    ensures OnePerLine(xs + ys)
  {
    forall i, j | 0 <= i < j < |xs + ys|
      ensures (xs + ys)[i].port != (xs + ys)[j].port
    {
      if i < |xs| <= j {
        assert xs[i] in xs && ys[j - |xs|] in ys;
      }
    }
  }

  lemma {:induction false} PinsOnce(data: bool, name: string, bo: nat, n: nat, sv: uint32, bv: Option<uint32>)
    requires ValidName(name) && n <= 8
    ensures OnePerLine(PinsReport(data, name, bo, n, sv, bv))
  {
    if n > 0 {
      PinsOnce(data, name, bo, n - 1, sv, bv);
      PortOfSet(name, n - 1);
      var xs := PinsReport(data, name, bo, n - 1, sv, bv);
      forall x | x in xs
        ensures PortPin(x.port) < n - 1
      {
        PinsMember(data, name, bo, n - 1, sv, bv, x);
      }
      var k := bo + (n - 1);
      OnePerLineConcat(xs, LineReport(data, SetPinToPort(name, n - 1), Bit(sv, k), WasBit(bv, k)));
    }
  }

  /** A cell's lines are none of those in the cells before it. */
  lemma CellApart(t: Table, home: Layout, data: bool, a: uint32, n: nat, sv: uint32, bv: Option<uint32>,
                  x: LineState, y: LineState)
    requires LaidOut(t, home) && a in t && n < |t[a]| && NamesOk(t[a]) && t[a][n].name != ""
    requires x in SetsReport(data, t[a], n, sv, bv)
    requires y in PinsReport(data, t[a][n].name, Offset(t[a], n), t[a][n].pins, sv, bv)
    ensures x.port != y.port
  {
    CellOnly(t, home, a, n);
    SetsMember(t, home, data, a, n, sv, bv, x);
    PinsMember(data, t[a][n].name, Offset(t[a], n), t[a][n].pins, sv, bv, y);
  }

  lemma {:induction false} SetsOnce(t: Table, home: Layout, data: bool, a: uint32, n: nat, sv: uint32,
                                    bv: Option<uint32>)
    requires LaidOut(t, home) && a in t && n <= |t[a]| && NamesOk(t[a])
    ensures OnePerLine(SetsReport(data, t[a], n, sv, bv))
  {
    if n > 0 {
      SetsOnce(t, home, data, a, n - 1, sv, bv);
      var cell, xs := t[a][n - 1], SetsReport(data, t[a], n - 1, sv, bv);
      if cell.name == "" {
        assert xs + [] == xs;
      } else {
        var bo := Offset(t[a], n - 1);
        var ys := PinsReport(data, cell.name, bo, cell.pins, sv, bv);
        CellOnly(t, home, a, n - 1);
        PinsOnce(data, cell.name, bo, cell.pins, sv, bv);
        forall x, y | x in xs && y in ys
          ensures x.port != y.port
        {
          CellApart(t, home, data, a, n - 1, sv, bv, x, y);
        }
        OnePerLineConcat(xs, ys);
      }
    }
  }

  lemma {:induction false} RegsOnce(t: Table, home: Layout, data: bool, order: seq<uint32>, s: State, b: Option<State>)
    requires LaidOut(t, home) && TableOk(t) && forall i :: 0 <= i < |order| ==> order[i] in t
    requires forall i, j :: 0 <= i < j < |order| ==> order[i] != order[j]
    ensures OnePerLine(RegsReport(data, t, order, s, b))
  {
    if order != [] {
      var rest, a := order[..|order| - 1], order[|order| - 1];
      RegsOnce(t, home, data, rest, s, b);
      SetsOnce(t, home, data, a, |t[a]|, Get(s.gpio, a), OldReg(b, a));
      var xs, ys := RegsReport(data, t, rest, s, b), SetsReport(data, t[a], |t[a]|, Get(s.gpio, a), OldReg(b, a));
      forall x, y | x in xs && y in ys
        ensures x.port != y.port
      {
        RegsMember(t, home, data, rest, s, b, x);
        RegMember(t, home, data, a, s, b, y);
      }
      OnePerLineConcat(xs, ys);
    }
  }

  // ---------------------------------------------------------------- the whole report

  ghost predicate Orders(dirOrder: seq<uint32>, dataOrder: seq<uint32>) {
    TableOk(DIR_REGS) && TableOk(DATA_REGS) && IsOrder(DIR_REGS, dirOrder) && IsOrder(DATA_REGS, dataOrder)
  }

  ghost function LinesReport(data: bool, order: seq<uint32>, s: State, b: Option<State>): seq<LineState>
    requires TableOk(TableOf(data)) && IsOrder(TableOf(data), order)
  {
    RegsReport(data, TableOf(data), order, s, b)
  }

  /** The lines of one table, in any order of its registers: each listed line's report, and at most one entry a line. */
  lemma LinesReportIs(data: bool, order: seq<uint32>, s: State, b: Option<State>)
    requires TableOk(TableOf(data)) && IsOrder(TableOf(data), order)
    ensures OnePerLine(LinesReport(data, order, s, b))
    ensures forall x :: x in LinesReport(data, order, s, b) <==>
              && Listed(Home(data), x.port)
              && x in LineReport(data, x.port, LineBit(Home(data), s, x.port), WasLine(Home(data), b, x.port))
  {
    var t: Table := TableOf(data);
    var home: Layout := Home(data);
    TablesLaidOut(data);
    RegsOnce(t, home, data, order, s, b);
    forall x
      ensures x in LinesReport(data, order, s, b) <==>
              Listed(home, x.port) && x in LineReport(data, x.port, LineBit(home, s, x.port), WasLine(home, b, x.port))
    {
      RegsMember(t, home, data, order, s, b, x);
    }
  }

  lemma {:induction false} ScuReportIs(regs: seq<uint32>, s: State, b: Option<State>)
    requires forall i, j :: 0 <= i < j < |regs| ==> regs[i] != regs[j]
    ensures OnePerLine(ScuReport(regs, s, b))
    ensures forall x :: x in ScuReport(regs, s, b) <==>
              && x.port in regs
              && (b.None? ==> x.kind == Scu)
              && (b.Some? ==> x.kind == ScuChanged && Get(s.scu, x.port) != Get(b.value.scu, x.port))
  {
    if regs != [] {
      var rest, r := regs[..|regs| - 1], regs[|regs| - 1];
      assert regs == rest + [r];
      ScuReportIs(rest, s, b);
      assert r !in rest;
    }
  }

  lemma ScuRegsDistinct()
    ensures forall i, j :: 0 <= i < j < |SCU_REGS| ==> SCU_REGS[i] < SCU_REGS[j]
  {
    var i := 0;
    while i + 1 < |SCU_REGS|
      invariant 0 <= i < |SCU_REGS|
      invariant forall j, k :: 0 <= j < k <= i ==> SCU_REGS[j] < SCU_REGS[k]
    {
      assert SCU_REGS[i] < SCU_REGS[i + 1];
      i := i + 1;
    }
  }

  /** The kinds that each part of the report uses. */
  predicate KindOf(data: bool, compared: bool, k: Kind) {
    if compared then k == BecameKind(data, true) || k == BecameKind(data, false)
    else k == NowKind(data, true) || k == NowKind(data, false)
  }

  /** Three parts of a report: no part repeats a line, and each has its own kinds. */
  ghost predicate Parts(xs: seq<LineState>, ys: seq<LineState>, zs: seq<LineState>, compared: bool) {
    && OnePerLine(xs) && OnePerLine(ys) && OnePerLine(zs)
    && (forall x :: x in xs ==> KindOf(false, compared, x.kind))
    && (forall y :: y in ys ==> KindOf(true, compared, y.kind))
    && (forall z :: z in zs ==> z.kind == if compared then ScuChanged else Scu)
  }

  lemma PartOf(xs: seq<LineState>, ys: seq<LineState>, zs: seq<LineState>, compared: bool, x: LineState)
    requires Parts(xs, ys, zs, compared)
    ensures KindOf(false, compared, x.kind) ==> (x in xs + ys + zs <==> x in xs)
    ensures KindOf(true, compared, x.kind) ==> (x in xs + ys + zs <==> x in ys)
    ensures x.kind == (if compared then ScuChanged else Scu) ==> (x in xs + ys + zs <==> x in zs)
  {}

  lemma PartsDistinct(xs: seq<LineState>, ys: seq<LineState>, zs: seq<LineState>, compared: bool)
    requires Parts(xs, ys, zs, compared)
    ensures forall i, j :: 0 <= i < j < |xs + ys + zs| ==> (xs + ys + zs)[i] != (xs + ys + zs)[j]
  {
    DistinctConcat(xs, ys);
    DistinctConcat(xs + ys, zs);
  }

  lemma LinesKinds(data: bool, order: seq<uint32>, s: State, b: Option<State>)
    requires TableOk(TableOf(data)) && IsOrder(TableOf(data), order)
    ensures OnePerLine(LinesReport(data, order, s, b))
    ensures forall x :: x in LinesReport(data, order, s, b) ==> KindOf(data, b.Some?, x.kind)
  {
    LinesReportIs(data, order, s, b);
  }

  lemma ScuKinds(s: State, b: Option<State>)
    ensures OnePerLine(ScuReport(SCU_REGS, s, b))
    ensures forall x :: x in ScuReport(SCU_REGS, s, b) ==> x.kind == if b.Some? then ScuChanged else Scu
  {
    ScuRegsDistinct();
    ScuReportIs(SCU_REGS, s, b);
  }

  ghost function Report(s: State, b: Option<State>, dirOrder: seq<uint32>, dataOrder: seq<uint32>): seq<LineState>
    requires Orders(dirOrder, dataOrder)
  {
    LinesReport(false, dirOrder, s, b) + LinesReport(true, dataOrder, s, b) + ScuReport(SCU_REGS, s, b)
  }

  lemma ReportHasParts(s: State, b: Option<State>, dirOrder: seq<uint32>, dataOrder: seq<uint32>)
    requires Orders(dirOrder, dataOrder)
    ensures Parts(LinesReport(false, dirOrder, s, b), LinesReport(true, dataOrder, s, b), ScuReport(SCU_REGS, s, b),
                  b.Some?)
  {
    LinesKinds(false, dirOrder, s, b);
    LinesKinds(true, dataOrder, s, b);
    ScuKinds(s, b);
  }

  /**
   * For any two snapshots and any iteration order, the report names a change of a line's direction or level exactly
   * when the line's bit differs, with the new value.
   */
  lemma DiffIsExact(s: State, prev: State, dirOrder: seq<uint32>, dataOrder: seq<uint32>, data: bool, p: nat, on: bool)
    requires Orders(dirOrder, dataOrder)
    ensures LineState(p, BecameKind(data, on)) in Report(s, Some(prev), dirOrder, dataOrder) <==>
            Listed(Home(data), p) && LineBit(Home(data), s, p) == on && LineBit(Home(data), prev, p) != on
  {
    var x := LineState(p, BecameKind(data, on));
    ReportHasParts(s, Some(prev), dirOrder, dataOrder);
    PartOf(LinesReport(false, dirOrder, s, Some(prev)), LinesReport(true, dataOrder, s, Some(prev)),
           ScuReport(SCU_REGS, s, Some(prev)), true, x);
    LinesReportIs(data, if data then dataOrder else dirOrder, s, Some(prev));
  }

  /** Which change is named: BecameHigh for a line that rose, BecameLow for one that fell, and so on. */
  lemma ChangesByName(s: State, prev: State, dirOrder: seq<uint32>, dataOrder: seq<uint32>, p: nat)
    requires Orders(dirOrder, dataOrder)
    ensures var res, levels, dirs := Report(s, Some(prev), dirOrder, dataOrder), Home(true), Home(false);
            && (LineState(p, BecameHigh) in res
                <==> Listed(levels, p) && LineBit(levels, s, p) && !LineBit(levels, prev, p))
            && (LineState(p, BecameLow) in res
                <==> Listed(levels, p) && !LineBit(levels, s, p) && LineBit(levels, prev, p))
            && (LineState(p, BecameOutput) in res
                <==> Listed(dirs, p) && LineBit(dirs, s, p) && !LineBit(dirs, prev, p))
            && (LineState(p, BecameInput) in res
                <==> Listed(dirs, p) && !LineBit(dirs, s, p) && LineBit(dirs, prev, p))
  {
    DiffIsExact(s, prev, dirOrder, dataOrder, true, p, true);
    DiffIsExact(s, prev, dirOrder, dataOrder, true, p, false);
    DiffIsExact(s, prev, dirOrder, dataOrder, false, p, true);
    DiffIsExact(s, prev, dirOrder, dataOrder, false, p, false);
  }

  /** Which state is named in a report without a second snapshot. */
  lemma StatesByName(s: State, dirOrder: seq<uint32>, dataOrder: seq<uint32>, p: nat)
    requires Orders(dirOrder, dataOrder)
    ensures var res, levels, dirs := Report(s, None, dirOrder, dataOrder), Home(true), Home(false);
            && (LineState(p, High) in res <==> Listed(levels, p) && LineBit(levels, s, p))
            && (LineState(p, Low) in res <==> Listed(levels, p) && !LineBit(levels, s, p))
            && (LineState(p, Output) in res <==> Listed(dirs, p) && LineBit(dirs, s, p))
            && (LineState(p, Input) in res <==> Listed(dirs, p) && !LineBit(dirs, s, p))
  {
    ListIsExact(s, dirOrder, dataOrder, true, p, true);
    ListIsExact(s, dirOrder, dataOrder, true, p, false);
    ListIsExact(s, dirOrder, dataOrder, false, p, true);
    ListIsExact(s, dirOrder, dataOrder, false, p, false);
  }

  /** Without a snapshot to compare with, the report gives every line's direction and level. */
  lemma ListIsExact(s: State, dirOrder: seq<uint32>, dataOrder: seq<uint32>, data: bool, p: nat, on: bool)
    requires Orders(dirOrder, dataOrder)
    ensures LineState(p, NowKind(data, on)) in Report(s, None, dirOrder, dataOrder) <==>
            Listed(Home(data), p) && LineBit(Home(data), s, p) == on
  {
    var x := LineState(p, NowKind(data, on));
    ReportHasParts(s, None, dirOrder, dataOrder);
    PartOf(LinesReport(false, dirOrder, s, None), LinesReport(true, dataOrder, s, None),
           ScuReport(SCU_REGS, s, None), false, x);
    LinesReportIs(data, if data then dataOrder else dirOrder, s, None);
  }

  /** An SCU register is named exactly when it changed. */
  lemma ScuIsExact(s: State, prev: State, dirOrder: seq<uint32>, dataOrder: seq<uint32>, r: uint32)
    requires Orders(dirOrder, dataOrder)
    ensures LineState(r, ScuChanged) in Report(s, Some(prev), dirOrder, dataOrder)
       <==> r in SCU_REGS && Get(s.scu, r) != Get(prev.scu, r)
  {
    ReportHasParts(s, Some(prev), dirOrder, dataOrder);
    PartOf(LinesReport(false, dirOrder, s, Some(prev)), LinesReport(true, dataOrder, s, Some(prev)),
           ScuReport(SCU_REGS, s, Some(prev)), true, LineState(r, ScuChanged));
    ScuRegsDistinct();
    ScuReportIs(SCU_REGS, s, Some(prev));
  }

  /** Nothing is reported twice. */
  lemma ReportedOnce(s: State, b: Option<State>, dirOrder: seq<uint32>, dataOrder: seq<uint32>)
    requires Orders(dirOrder, dataOrder)
    ensures var res := Report(s, b, dirOrder, dataOrder); forall i, j :: 0 <= i < j < |res| ==> res[i] != res[j]
  {
    ReportHasParts(s, b, dirOrder, dataOrder);
    PartsDistinct(LinesReport(false, dirOrder, s, b), LinesReport(true, dataOrder, s, b), ScuReport(SCU_REGS, s, b),
                  b.Some?);
  }

  lemma DistinctConcat(xs: seq<LineState>, ys: seq<LineState>)
    requires forall i, j :: 0 <= i < j < |xs| ==> xs[i] != xs[j]
    requires forall i, j :: 0 <= i < j < |ys| ==> ys[i] != ys[j]
    requires forall x, y :: x in xs && y in ys ==> x != y
    ensures forall i, j :: 0 <= i < j < |xs + ys| ==> (xs + ys)[i] != (xs + ys)[j]
  {
    forall i, j | 0 <= i < j < |xs + ys|
      ensures (xs + ys)[i] != (xs + ys)[j]
    {
      if i < |xs| <= j {
        assert xs[i] in xs && ys[j - |xs|] in ys;
      }
    }
  }

  // ---------------------------------------------------------------- looking up one line

  lemma PortName(p: nat, n: string)
    requires ValidName(n)
    ensures PortToSetPin(p).0 == n <==> SetNumber(n) == PortSet(p)
    ensures PortToSetPin(p).1 == PortPin(p)
  {
    if SetNumber(n) == PortSet(p) {
      SetNumberInjective(n, PortToSetPin(p).0);
    }
  }

  /** PortValue and PortDirection: search a table, in any order, for the set of the line; None is the panic. */
  method FindLine(t: Table, s: State, port: nat, ghost home: Layout) returns (r: Option<bool>)
    requires LaidOut(t, home)
    ensures r == if PortSet(port) in home then Some(LineBit(home, s, port)) else None
  {
    var (tset, tpin) := PortToSetPin(port);
    PortName(port, tset);
    var keys := t.Keys;
    while keys != {}
      invariant keys <= t.Keys
      invariant PortSet(port) in home ==> home[PortSet(port)].reg in keys
      decreases |keys|
    {
      var a :| a in keys;
      var sets := t[a];
      var bo, i := 0, 0;
      while i < |sets|
        invariant 0 <= i <= |sets| && bo == Offset(sets, i)
        invariant forall k :: 0 <= k < i ==> sets[k].name != tset
      {
        if sets[i].name == tset {
          return Some(Bit(Get(s.gpio, a), bo + tpin));
        }
        bo := bo + sets[i].pins;
        i := i + 1;
      }
      if PortSet(port) in home && home[PortSet(port)].reg == a {
        SetNumberInjective(t[a][home[PortSet(port)].pos].name, tset);
      }
      keys := keys - {a};
    }
    return None;
  }

  method PortValue(s: State, port: nat) returns (r: Option<bool>)
    ensures PortSet(port) in Home(true) && r == Some(LineBit(Home(true), s, port))
  {
    TablesLaidOut(true);
    r := FindLine(DATA_REGS, s, port, Home(true));
  }

  method PortDirection(s: State, port: nat) returns (r: Option<bool>)
    ensures r == if PortSet(port) in Home(false) then Some(LineBit(Home(false), s, port)) else None
  {
    TablesLaidOut(false);
    r := FindLine(DIR_REGS, s, port, Home(false));
  }

  method Lookup(data: bool, s: State, port: nat) returns (r: Option<bool>)
    ensures r == if PortSet(port) in Home(data) then Some(LineBit(Home(data), s, port)) else None
  {
    if data {
      r := PortValue(s, port);
    } else {
      r := PortDirection(s, port);
    }
  }

  /**
   * The walk and the lookups agree: a listed line's change of level or direction is in the differences exactly when the
   * lookup gives different answers for the two snapshots, and then with the new answer.
   */
  method DiffAgreesWithLookup(data: bool, s: State, prev: State, port: nat)
    returns (changes: seq<LineState>, now: Option<bool>, before: Option<bool>,
             ghost dirOrder: seq<uint32>, ghost dataOrder: seq<uint32>)
    requires Listed(Home(data), port)
    ensures Orders(dirOrder, dataOrder) && changes == Report(s, Some(prev), dirOrder, dataOrder)
    ensures now == Some(LineBit(Home(data), s, port)) && before == Some(LineBit(Home(data), prev, port))
    ensures data ==>
              && (LineState(port, BecameHigh) in changes <==> now == Some(true) && before == Some(false))
              && (LineState(port, BecameLow) in changes <==> now == Some(false) && before == Some(true))
    ensures !data ==>
              && (LineState(port, BecameOutput) in changes <==> now == Some(true) && before == Some(false))
              && (LineState(port, BecameInput) in changes <==> now == Some(false) && before == Some(true))
  {
    changes, dirOrder, dataOrder := Diff(s, Some(prev));
    now := Lookup(data, s, port);
    before := Lookup(data, prev, port);
    ChangesByName(s, prev, dirOrder, dataOrder, port);
  }

  /** Every entry of `b` is in `s` with the same value; entries only `s` has are not looked at. */
  ghost predicate Covers(s: map<uint32, uint32>, b: map<uint32, uint32>) {
    forall k :: k in b ==> k in s && s[k] == b[k]
  }

  method MapCovers(s: map<uint32, uint32>, b: map<uint32, uint32>) returns (r: bool)
    ensures r == Covers(s, b)
  {
    var keys := b.Keys;
    while keys != {}
      invariant keys <= b.Keys
      invariant forall k :: k in b && k !in keys ==> k in s && s[k] == b[k]
      decreases |keys|
    {
      var k :| k in keys;
      if k !in s || s[k] != b[k] {
        return false;
      }
      keys := keys - {k};
    }
    return true;
  }

  method Equal(s: State, b: State) returns (r: bool)
    ensures r == (Covers(s.gpio, b.gpio) && Covers(s.scu, b.scu))
    ensures s.gpio.Keys == b.gpio.Keys && s.scu.Keys == b.scu.Keys ==> (r <==> s == b)
  {
    r := MapCovers(s.gpio, b.gpio);
    if r {
      r := MapCovers(s.scu, b.scu);
    }
    assert s.gpio.Keys == b.gpio.Keys && Covers(s.gpio, b.gpio) ==> s.gpio == b.gpio;
    assert s.scu.Keys == b.scu.Keys && Covers(s.scu, b.scu) ==> s.scu == b.scu;
  }
}
