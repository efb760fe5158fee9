/** The driver's transfers, with and without its cache, on any bridge: what they do, and exactly when the two agree. */
module LpcLaws {
  import opened Bytes
  import opened LpcDevice
  import opened LpcMemory

  datatype Op = Read32(a: int) | Read8(a: int) | Write32(a: int, v: int) | Write8(a: int, b: byte)

  /** One transfer, without any cache: the bridge afterwards, and the value read. */
  function Transfer<A>(bus: Ahb<A>, d: Bridge<A>, op: Op): (r: (Bridge<A>, int))
    requires |d.f| == 9
    ensures |r.0.f| == 9
  {
    match op
    case Read32(a) =>
      var (s, v) := bus.read(d.ahb, a % B32, W32);
      (d.(ahb := s, f := Be32(a) + Be32(v) + [2], index := 0xf7), v % B32)
    case Read8(a) =>
      var (s, v) := bus.read(d.ahb, a % B32, W8);
      (d.(ahb := s, f := Be32(a) + d.f[4..7] + [v % B8, 0], index := 0xf7), v % B8)
    case Write32(a, v) =>
      (d.(ahb := bus.write(d.ahb, a % B32, W32, v % B32), f := Be32(a) + Be32(v) + [2], index := 0xfe), 0)
    case Write8(a, b) =>
      (d.(ahb := bus.write(d.ahb, a % B32, W8, b), f := Be32(a) + d.f[4..7] + [b, 0], index := 0xfe), 0)
  }

  /** The registers a transfer sets before its trigger. */
  function Settings(op: Op): map<int, byte> {
    match op
    case Read32(a) => AddressRegs(a)[8 := 2]
    case Read8(a) => AddressRegs(a)[8 := 0]
    case Write32(a, v) => AddressRegs(a)[8 := 2] + DataRegs(v)
    case Write8(a, b) => AddressRegs(a)[8 := 0][7 := b]
  }

  /** Port writes a transfer takes when every register is written. */
  function Cost(op: Op): nat {
    match op
    case Read32(_) => 15
    case Read8(_) => 12
    case Write32(_, _) => 20
    case Write8(_, _) => 14
  }

  function Transfers<A>(bus: Ahb<A>, d: Bridge<A>, ops: seq<Op>): (r: (Bridge<A>, seq<int>))
    requires |d.f| == 9
    ensures |r.0.f| == 9 && |r.1| == |ops|
  {
    if ops == [] then (d, [])
    else
      var (d1, vs) := Transfers(bus, d, ops[..|ops| - 1]);
      var (d2, v) := Transfer(bus, d1, ops[|ops| - 1]);
      (d2, vs + [v])
  }

  function Costs(ops: seq<Op>): nat {
    if ops == [] then 0 else Costs(ops[..|ops| - 1]) + Cost(ops[|ops| - 1])
  }

  /** The register settings of a transfer, and what the bridge makes of them, are the transfer. */
  lemma Read32Is<A>(bus: Ahb<A>, d: Bridge<A>, a: int)
    requires |d.f| == 9
    ensures var e := StartRead(bus, d.(f := Over(d.f, AddressRegs(a)[8 := 2])));
            && (e.(index := 0xf7), Data(e.f)) == Transfer(bus, d, Read32(a))
            && Over(Over(d.f, AddressRegs(a)[8 := 2]), WordRegs(4, e.f[4..8])) == e.f
  {
    RoundTrip32(a);
    var g := Over(d.f, AddressRegs(a)[8 := 2]);
    assert g[0..4] == Be32(a);
    var v := bus.read(d.ahb, a % B32, W32).1;
    RoundTrip32(v);
    var h := g[0..4] + Be32(v) + [g[8]];
    assert h[4..8] == Be32(v);
  }

  lemma Read8Is<A>(bus: Ahb<A>, d: Bridge<A>, a: int)
    requires |d.f| == 9 && d.fill.Quiet?
    ensures var e := StartRead(bus, d.(f := Over(d.f, AddressRegs(a)[8 := 0])));
            && (e.(index := 0xf7), e.f[7]) == Transfer(bus, d, Read8(a))
            && Over(d.f, AddressRegs(a)[8 := 0][7 := e.f[7]]) == e.f
  {
    RoundTrip32(a);
    var g := Over(d.f, AddressRegs(a)[8 := 0]);
    assert g[0..4] == Be32(a);
    assert g[4..7] == d.f[4..7];
  }

  lemma Write32Is<A>(bus: Ahb<A>, d: Bridge<A>, a: int, v: int)
    requires |d.f| == 9
    ensures var e := d.(f := Over(d.f, AddressRegs(a)[8 := 2] + DataRegs(v)));
            (e.(ahb := StartWrite(bus, e), index := 0xfe), 0) == Transfer(bus, d, Write32(a, v))
  {
    RoundTrip32(a);
    RoundTrip32(v);
    WordLaid(d.f, a, v);
    var g := Over(d.f, AddressRegs(a)[8 := 2] + DataRegs(v));
    assert g[0..4] == Be32(a) && g[4..8] == Be32(v);
  }

  lemma WordLaid(f: seq<byte>, a: int, v: int)
    requires |f| == 9
    ensures Over(f, AddressRegs(a)[8 := 2] + DataRegs(v)) == Be32(a) + Be32(v) + [2]
  {
    var x, y := Be32(a), Be32(v);
    assert AddressRegs(a)[8 := 2] + DataRegs(v)
        == map[0 := x[0], 1 := x[1], 2 := x[2], 3 := x[3], 8 := 2, 4 := y[0], 5 := y[1], 6 := y[2], 7 := y[3]];
  }

  lemma Write8Is<A>(bus: Ahb<A>, d: Bridge<A>, a: int, b: byte)
    requires |d.f| == 9
    ensures var e := d.(f := Over(d.f, AddressRegs(a)[8 := 0][7 := b]));
            (e.(ahb := StartWrite(bus, e), index := 0xfe), 0) == Transfer(bus, d, Write8(a, b))
  {
    RoundTrip32(a);
    var g := Over(d.f, AddressRegs(a)[8 := 0][7 := b]);
    assert g[0..4] == Be32(a);
    assert g == Be32(a) + d.f[4..7] + [b, 0];
  }

  // ---------------------------------------------------------------- the driver on any bridge

  /** What the driver has to do with: the bridge, and its own cache of the registers. */
  datatype Driver<A> = Driver(dev: Bridge<A>, cache: seq<byte>)
  {
    predicate Sized() {
      |dev.f| == 9 && |cache| == 9
    }
  }

  /** One transfer of the driver, whatever the bridge does and whatever the cache holds. */
  function Act<A>(bus: Ahb<A>, x: Driver<A>, op: Op, caching: bool): (r: (Driver<A>, int))
    requires x.Sized()
    ensures r.0.Sized()
  {
    var w := Settings(op);
    var d := x.dev.(f := Through(x.dev.f, x.cache, w, caching));
    match op
    case Read32(_) =>
      var e := StartRead(bus, d);
      (Driver(e.(index := 0xf7), Over(Over(x.cache, w), WordRegs(4, e.f[4..8]))), Data(e.f))
    case Read8(_) =>
      var e := StartRead(bus, d);
      (Driver(e.(index := 0xf7), Over(x.cache, w[7 := e.f[7]])), e.f[7])
    case _ => (Driver(d.(ahb := StartWrite(bus, d), index := 0xfe), Over(x.cache, w)), 0)
  }

  function ActAll<A>(bus: Ahb<A>, x: Driver<A>, ops: seq<Op>, caching: bool): (r: (Driver<A>, seq<int>))
    requires x.Sized()
    ensures r.0.Sized() && |r.1| == |ops|
  {
    if ops == [] then (x, [])
    else
      var (y, vs) := ActAll(bus, x, ops[..|ops| - 1], caching);
      var (z, v) := Act(bus, y, ops[|ops| - 1], caching);
      (z, vs + [v])
  }

  /** The settings of a sequence of transfers that the cache already shows when their turn comes. */
  function AllHits<A>(bus: Ahb<A>, x: Driver<A>, ops: seq<Op>, caching: bool): nat
    requires x.Sized()
  {
    if ops == [] then 0
    else
      var before := ops[..|ops| - 1];
      var y := ActAll(bus, x, before, caching).0;
      AllHits(bus, x, before, caching) + Hits(y.cache, Settings(ops[|ops| - 1]), caching)
  }

  /** Each method of the driver is its transfer; its port writes and its cache hits are those of the settings. */
  method Perform<A>(l: Lpc<A>, op: Op) returns (v: int)
    requires l.Valid()
    modifies l
    ensures l.Valid()
    ensures (Driver(l.dev, l.f), v) == Act(l.bus, Driver(old(l.dev), old(l.f)), op, l.caching)
    ensures l.Effort() == old(l.Effort()) + Cost(op)
    ensures l.cachedWrCount == old(l.cachedWrCount) + Hits(old(l.f), Settings(op), l.caching)
  {
    v := 0;
    match op
    case Read32(a) => v := l.MustRead32(a);
    case Read8(a) => v := l.MustRead8(a);
    case Write32(a, w) => l.MustWrite32(a, w);
    case Write8(a, b) => l.MustWrite8(a, b);
  }

  lemma {:induction false} OneMore<A>(bus: Ahb<A>, x: Driver<A>, ops: seq<Op>, n: nat, caching: bool)
    requires x.Sized() && n < |ops|
    ensures Costs(ops[..n + 1]) == Costs(ops[..n]) + Cost(ops[n])
    ensures var (y, vs) := ActAll(bus, x, ops[..n], caching);
            var (z, v) := Act(bus, y, ops[n], caching);
            && ActAll(bus, x, ops[..n + 1], caching) == (z, vs + [v])
            && AllHits(bus, x, ops[..n + 1], caching)
               == AllHits(bus, x, ops[..n], caching) + Hits(y.cache, Settings(ops[n]), caching)
  {
    assert ops[..n + 1][..n] == ops[..n];
  }

  method Run<A>(l: Lpc<A>, ops: seq<Op>) returns (vs: seq<int>)
    requires l.Valid()
    modifies l
    ensures l.Valid()
    ensures (Driver(l.dev, l.f), vs) == ActAll(l.bus, Driver(old(l.dev), old(l.f)), ops, l.caching)
    ensures l.Effort() == old(l.Effort()) + Costs(ops)
    ensures l.cachedWrCount == old(l.cachedWrCount) + AllHits(l.bus, Driver(old(l.dev), old(l.f)), ops, l.caching)
  {
    vs := [];
    ghost var x := Driver(l.dev, l.f);
    for n := 0 to |ops|
      invariant l.Valid()
      invariant (Driver(l.dev, l.f), vs) == ActAll(l.bus, x, ops[..n], l.caching)
      invariant l.Effort() == old(l.Effort()) + Costs(ops[..n])
      invariant l.cachedWrCount == old(l.cachedWrCount) + AllHits(l.bus, x, ops[..n], l.caching)
    {
      OneMore(l.bus, x, ops, n, l.caching);
      var v := Perform(l, ops[n]);
      vs := vs + [v];
    }
    assert ops[..|ops|] == ops;
  }

  // ---------------------------------------------------------------- with and without the cache

  /**
   * What a driver opened on a bridge makes of a sequence of transfers: the bridge and its own cache, and the values.
   */
  function Outcome<A>(bus: Ahb<A>, dev: Bridge<A>, ops: seq<Op>, caching: bool): (r: (Driver<A>, seq<int>)) {
    ActAll(bus, Driver(Opened(dev), Opened(dev).f), ops, caching)
  }

  /** On a quiet bridge, a driver whose cache is in sync does the plain transfer and stays in sync. */
  lemma QuietAct<A>(bus: Ahb<A>, d: Bridge<A>, op: Op, caching: bool)
    requires |d.f| == 9 && d.fill.Quiet?
    ensures var (e, v) := Transfer(bus, d, op);
            Act(bus, Driver(d, d.f), op, caching) == (Driver(e, e.f), v) && e.fill.Quiet?
  {
    match op
    case Read32(a) => Read32Is(bus, d, a);
    case Read8(a) => Read8Is(bus, d, a);
    case Write32(a, v) => Write32Is(bus, d, a, v);
    case Write8(a, b) => Write8Is(bus, d, a, b);
  }

  lemma {:induction false} QuietActAll<A>(bus: Ahb<A>, d: Bridge<A>, ops: seq<Op>, caching: bool)
    requires |d.f| == 9 && d.fill.Quiet?
    ensures var (e, vs) := Transfers(bus, d, ops);
            ActAll(bus, Driver(d, d.f), ops, caching) == (Driver(e, e.f), vs) && e.fill.Quiet?
  {
    if ops != [] {
      QuietActAll(bus, d, ops[..|ops| - 1], caching);
      QuietAct(bus, Transfers(bus, d, ops[..|ops| - 1]).0, ops[|ops| - 1], caching);
    }
  }

  lemma {:induction false} NoHitsUncached<A>(bus: Ahb<A>, x: Driver<A>, ops: seq<Op>)
    requires x.Sized()
    ensures AllHits(bus, x, ops, false) == 0
  {
    if ops != [] {
      NoHitsUncached(bus, x, ops[..|ops| - 1]);
    }
  }

  /**
   * A caching and a non-caching driver, opened on equal bridges, run the same transfers. The caching one counts exactly
   * the settings its cache already showed, the other one none. On a quiet bridge both do the plain transfers: the same
   * values, the same bridge and bus, the cache equal to F0 to F8, and two port writes saved for each hit.
   */
  method Compare<A>(bus: Ahb<A>, dev: Bridge<A>, ops: seq<Op>)
    returns (cached: Lpc<A>, plain: Lpc<A>, vs: seq<int>, ws: seq<int>)
    requires |dev.f| == 9
    ensures cached.caching && !plain.caching && cached.bus == plain.bus == bus
    ensures (Driver(cached.dev, cached.f), vs) == Outcome(bus, dev, ops, true)
    ensures (Driver(plain.dev, plain.f), ws) == Outcome(bus, dev, ops, false)
    ensures cached.cachedWrCount == AllHits(bus, Driver(Opened(dev), Opened(dev).f), ops, true)
    ensures plain.cachedWrCount == 0 && plain.wrCount == 24 + Costs(ops) == cached.wrCount + 2 * cached.cachedWrCount
    ensures dev.fill.Quiet? ==>
              && (cached.dev, vs) == (plain.dev, ws) == Transfers(bus, Opened(dev), ops)
              && cached.f == cached.dev.f && plain.f == plain.dev.f
  {
    cached := new Lpc(bus, dev, true);
    plain := new Lpc(bus, dev, false);
    NoHitsUncached(bus, Driver(plain.dev, plain.f), ops);
    if dev.fill.Quiet? {
      QuietActAll(bus, Opened(dev), ops, true);
      QuietActAll(bus, Opened(dev), ops, false);
    }
    vs := Run(cached, ops);
    ws := Run(plain, ops);
  }

  /** With these transfers the two drivers leave the same bridge and bus behind and return the same values. */
  ghost predicate SameOutcome<A>(bus: Ahb<A>, dev: Bridge<A>, ops: seq<Op>) {
    var (x, vs) := Outcome(bus, dev, ops, true);
    var (y, ws) := Outcome(bus, dev, ops, false);
    x.dev == y.dev && vs == ws
  }

  /** Write a word, read a byte, write the word again. */
  function WordByteWord(w: int): seq<Op> {
    [Write32(0, w), Read8(0), Write32(0, w)]
  }

  lemma ThreeActs<A>(bus: Ahb<A>, x: Driver<A>, a: Op, b: Op, c: Op, caching: bool)
    requires x.Sized()
    ensures ActAll(bus, x, [a, b, c], caching).0
         == Act(bus, Act(bus, Act(bus, x, a, caching).0, b, caching).0, c, caching).0
  {
    assert [a, b, c][..2] == [a, b] && [a, b][..1] == [a] && [a][..0] == [];
    assert ActAll(bus, x, [], caching).0 == x;
    assert ActAll(bus, x, [a], caching).0 == Act(bus, x, a, caching).0;
    assert ActAll(bus, x, [a, b], caching).0 == Act(bus, Act(bus, x, a, caching).0, b, caching).0;
  }

  /** A word written at address 0: register F4 is left to the cache, the width is 32 bits. */
  lemma WordWritten(f: seq<byte>, cache: seq<byte>, w: int, caching: bool)
    requires |f| == |cache| == 9 && (f[8] == cache[8] || cache[8] != 2)
    ensures var m := AddressRegs(0)[8 := 2] + DataRegs(w);
            && Over(cache, m)[4] == ByteOf(w, 3) && Over(cache, m)[8] == 2
            && Through(f, cache, m, caching)[4] == (if caching && cache[4] == ByteOf(w, 3) then f[4] else ByteOf(w, 3))
            && Through(f, cache, m, caching)[8] == 2
  {
    var m := AddressRegs(0)[8 := 2] + DataRegs(w);
    assert 4 in m && m[4] == ByteOf(w, 3) && 8 in m && m[8] == 2;
  }

  /** A byte read at address 0 on an overwriting bridge: the cache keeps F4, the bridge does not. */
  lemma ByteRead<A>(d: Bridge<A>, cache: seq<byte>, x: byte, caching: bool, bus: Ahb<A>)
    requires |d.f| == |cache| == 9 && d.fill.Overwrite? && d.f[8] == cache[8]
    ensures var m := AddressRegs(0)[8 := 0]; var e := StartRead(bus, d.(f := Through(d.f, cache, m, caching)));
            && e.f[4] == d.fill.v && e.f[8] == 0 && e.fill == d.fill
            && Over(cache, m[7 := x])[4] == cache[4] && Over(cache, m[7 := x])[8] == 0
  {
    var m := AddressRegs(0)[8 := 0];
    assert 4 !in m && 8 in m && m[8] == 0;
    assert Through(d.f, cache, m, caching)[8] == 0;
  }

  /** What register F4 holds in the end: the word's high byte, or what the cached driver left of the byte read. */
  lemma HighByte<A>(bus: Ahb<A>, d: Bridge<A>, w: int, caching: bool)
    requires |d.f| == 9 && d.fill.Overwrite?
    ensures var y := ActAll(bus, Driver(d, d.f), WordByteWord(w), caching).0.dev;
            && y.f[4] == (if caching then d.fill.v else ByteOf(w, 3)) && y.f[8] == 2
  {
    var x := Driver(d, d.f);
    ThreeActs(bus, x, Write32(0, w), Read8(0), Write32(0, w), caching);
    var x1 := Act(bus, x, Write32(0, w), caching).0;
    WordWritten(d.f, d.f, w, caching);
    var x2 := Act(bus, x1, Read8(0), caching).0;
    ByteRead(x1.dev, x1.cache, x2.dev.f[7], caching, bus);
    WordWritten(x2.dev.f, x2.cache, w, caching);
  }

  /** A word whose high byte is not `v`. */
  function OtherWord(v: byte): (w: int)
    ensures ByteOf(w, 3) != v
  {
    (255 - v) * B24
  }

  /**
   * On a bridge whose 8-bit reads overwrite F4 to F6, three transfers leave the two drivers with different registers.
   */
  lemma Diverge<A>(bus: Ahb<A>, dev: Bridge<A>)
    requires dev.fill.Overwrite?
    ensures !SameOutcome(bus, dev, WordByteWord(OtherWord(dev.fill.v)))
  {
    var w := OtherWord(dev.fill.v);
    HighByte(bus, Opened(dev), w, true);
    HighByte(bus, Opened(dev), w, false);
  }

  /**
   * For any bridge and any bus: the two drivers agree on every sequence of transfers if and only if the bridge is
   * quiet.
   */
  lemma AgreeIff<A>(bus: Ahb<A>, dev: Bridge<A>)
    ensures (forall ops :: SameOutcome(bus, dev, ops)) <==> dev.fill.Quiet?
  {
    if dev.fill.Quiet? {
      forall ops ensures SameOutcome(bus, dev, ops) {
        QuietActAll(bus, Opened(dev), ops, true);
        QuietActAll(bus, Opened(dev), ops, false);
      }
    } else {
      Diverge(bus, dev);
    }
  }

  /** A bus that records the words written to it. */
  function Recorder(): Ahb<seq<nat>> {
    Ahb((s: seq<nat>, a: nat, w: Width) => (s, 0), (s: seq<nat>, a: nat, w: Width, d: nat) => s + [d])
  }

  /** On such a bridge the two drivers also put different words on the bus. */
  lemma BusDiverges(dev: Bridge<seq<nat>>)
    requires dev.fill.Overwrite?
    ensures var ops := WordByteWord(OtherWord(dev.fill.v));
            Outcome(Recorder(), dev, ops, true).0.dev.ahb != Outcome(Recorder(), dev, ops, false).0.dev.ahb
  {
    var w := OtherWord(dev.fill.v);
    LastWord(Opened(dev), w, true);
    LastWord(Opened(dev), w, false);
    HighByte(Recorder(), Opened(dev), w, true);
    HighByte(Recorder(), Opened(dev), w, false);
    DataDiffers(Outcome(Recorder(), dev, WordByteWord(w), true).0.dev.f,
                Outcome(Recorder(), dev, WordByteWord(w), false).0.dev.f);
  }

  lemma DataDiffers(f: seq<byte>, g: seq<byte>)
    requires |f| == |g| == 9 && f[4] != g[4]
    ensures Data(f) != Data(g)
  {
    RoundTripBytes(f[4..8]);
    RoundTripBytes(g[4..8]);
    assert f[4..8][0] != g[4..8][0];
  }

  /** The last word on the bus is what the data registers hold. */
  lemma LastWord(d: Bridge<seq<nat>>, w: int, caching: bool)
    requires |d.f| == 9 && d.fill.Overwrite?
    ensures var y := ActAll(Recorder(), Driver(d, d.f), WordByteWord(w), caching).0.dev;
            y.ahb != [] && y.ahb[|y.ahb| - 1] == Data(y.f)
  {
    ThreeActs(Recorder(), Driver(d, d.f), Write32(0, w), Read8(0), Write32(0, w), caching);
    HighByte(Recorder(), d, w, caching);
  }
}
