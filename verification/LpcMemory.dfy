/** The iLPC2AHB memory driver: a write-through cache of the bridge's registers F0 to F8. */
module LpcMemory {
  import opened Bytes
  import opened LpcDevice

  /** Registers `w` written over `f` by a driver that skips those its cache already shows. */
  function Through(f: seq<byte>, cache: seq<byte>, w: map<int, byte>, caching: bool): (r: seq<byte>)
    requires |f| == |cache| == 9
    ensures |r| == 9
    ensures f == cache || !caching ==> r == Over(f, w)
  {
    seq(9, i requires 0 <= i < 9 => if i in w && !(caching && cache[i] == w[i]) then w[i] else f[i])
  }

  function Over(f: seq<byte>, w: map<int, byte>): (r: seq<byte>)
    requires |f| == 9
    ensures |r| == 9
  {
    seq(9, i requires 0 <= i < 9 => if i in w then w[i] else f[i])
  }

  /** How many of the registers below `n` that are to be written already hold their value. */
  function HitsBelow(cache: seq<byte>, w: map<int, byte>, n: nat): (h: nat)
    requires n <= |cache|
  {
    if n == 0 then 0 else HitsBelow(cache, w, n - 1) + if n - 1 in w && w[n - 1] == cache[n - 1] then 1 else 0
  }

  /** Cache hits when the registers `w` are written: none without caching. */
  function Hits(cache: seq<byte>, w: map<int, byte>, caching: bool): (h: nat)
    requires |cache| == 9
  {
    if caching then HitsBelow(cache, w, 9) else 0
  }

  lemma {:induction false} OneHit(cache: seq<byte>, i: nat, d: byte, n: nat)
    requires i < |cache| && n <= |cache|
    ensures HitsBelow(cache, map[i := d], n) == if i < n && cache[i] == d then 1 else 0
  {
    if n > 0 {
      OneHit(cache, i, d, n - 1);
    }
  }

  lemma {:induction false} HitsAdd(cache: seq<byte>, w1: map<int, byte>, w2: map<int, byte>, n: nat)
    requires |cache| == 9 && w1.Keys !! w2.Keys && n <= 9
    ensures HitsBelow(cache, w1, n) + HitsBelow(Over(cache, w1), w2, n) == HitsBelow(cache, w1 + w2, n)
  {
    if n > 0 {
      HitsAdd(cache, w1, w2, n - 1);
    }
  }

  /** Two rounds of register writes through the cache are one. */
  lemma Compose(f: seq<byte>, cache: seq<byte>, w1: map<int, byte>, w2: map<int, byte>, caching: bool)
    requires |f| == |cache| == 9 && w1.Keys !! w2.Keys
    ensures Through(Through(f, cache, w1, caching), Over(cache, w1), w2, caching) == Through(f, cache, w1 + w2, caching)
    ensures Over(Over(cache, w1), w2) == Over(cache, w1 + w2)
    ensures Hits(cache, w1, caching) + Hits(Over(cache, w1), w2, caching) == Hits(cache, w1 + w2, caching)
  {
    HitsAdd(cache, w1, w2, 9);
  }

  /** The four registers from `i` on, high byte first. */
  function WordRegs(i: int, b: seq<byte>): map<int, byte>
    requires |b| == 4
  {
    map[i := b[0], i + 1 := b[1], i + 2 := b[2], i + 3 := b[3]]
  }

  function AddressRegs(a: int): map<int, byte> {
    WordRegs(0, Be32(a))
  }

  function DataRegs(d: int): map<int, byte> {
    WordRegs(4, Be32(d))
  }

  /** The bridge after opening, whatever state it was in. */
  function Opened<A>(d: Bridge<A>): Bridge<A> {
    d.(f := seq(9, _ => 0), index := 0x30, armed := d.unlocked && d.armed, unlocked := true, ldn := LDN_LPC2AHB,
       enabled := true)
  }

  class Lpc<A> {
    const bus: Ahb<A>
    const caching: bool
    var dev: Bridge<A>
    var f: seq<byte>
    var wrCount: int
    var rdCount: int
    var cachedWrCount: int

    ghost predicate Valid()
      reads this
    {
      Ready(dev) && |f| == 9
    }

    /** The cache shows what the bridge's registers hold. */
    ghost predicate InSync()
      reads this
    {
      Valid() && f == dev.f
    }

    /** Port writes made, plus the two each cache hit saved. */
    ghost function Effort(): int
      reads this
    {
      wrCount + 2 * cachedWrCount
    }

    /**
     * Unlocks and selects the bridge, zeroes F0 to F8 to match the zeroed cache, and enables it, whatever state it was
     * in.
     */
    constructor (bus: Ahb<A>, dev: Bridge<A>, caching: bool)
      requires |dev.f| == 9
      ensures this.bus == bus && this.caching == caching
      ensures InSync() && f == seq(9, _ => 0)
      ensures this.dev == Opened(dev)
      ensures wrCount == 24 && rdCount == 0 && cachedWrCount == 0
    {
      this.bus := bus;
      this.caching := caching;
      this.dev := dev;
      f := seq(9, _ => 0);
      wrCount, rdCount, cachedWrCount := 0, 0, 0;
      new;
      Ctrl(0xa5);
      Ctrl(0xa5);
      Ctrl(0x07);
      W(0xd);
      var i := 0;
      while i < 9
        invariant 0 <= i <= 9
        invariant |this.dev.f| == 9 && forall k :: 0 <= k < i ==> this.dev.f[k] == 0
        invariant this.dev == dev.(f := this.dev.f, index := this.dev.index, armed := dev.unlocked && dev.armed,
                                   unlocked := true, ldn := LDN_LPC2AHB)
        invariant f == seq(9, _ => 0) && wrCount == 4 + 2 * i && rdCount == 0 && cachedWrCount == 0
      {
        Ctrl(0xf0 + i);
        W(0);
        i := i + 1;
      }
      Ctrl(0x30);
      W(1);
    }

    method Ctrl(d: byte)
      modifies `dev, `wrCount
      ensures dev == WriteIndex(old(dev), d)
      ensures wrCount == old(wrCount) + 1
    {
      wrCount := wrCount + 1;
      dev := WriteIndex(dev, d);
    }

    method W(d: byte)
      requires |dev.f| == 9
      modifies `dev, `wrCount
      ensures dev == WriteData(bus, old(dev), d)
      ensures wrCount == old(wrCount) + 1
    {
      wrCount := wrCount + 1;
      dev := WriteData(bus, dev, d);
    }

    method R() returns (b: byte)
      requires |dev.f| == 9
      modifies `dev, `rdCount
      ensures (dev, b) == ReadData(bus, old(dev))
      ensures rdCount == old(rdCount) + 1
    {
      rdCount := rdCount + 1;
      var r := ReadData(bus, dev);
      dev, b := r.0, r.1;
    }

    /** Writes one of F0 to F8 unless the cache says it already holds the value. */
    method Wf(reg: int, d: byte)
      requires Valid() && 0xf0 <= reg <= 0xf8
      modifies `dev, `f, `wrCount, `cachedWrCount
      ensures Valid()
      ensures dev == old(dev).(f := Through(old(dev).f, old(f), map[reg - 0xf0 := d], caching), index := dev.index)
      ensures f == Over(old(f), map[reg - 0xf0 := d])
      ensures caching && old(f)[reg - 0xf0] == d ==>
                dev == old(dev) && wrCount == old(wrCount) && cachedWrCount == old(cachedWrCount) + 1
      ensures !(caching && old(f)[reg - 0xf0] == d) ==>
                wrCount == old(wrCount) + 2 && cachedWrCount == old(cachedWrCount)
      ensures cachedWrCount == old(cachedWrCount) + Hits(old(f), map[reg - 0xf0 := d], caching)
      ensures Effort() == old(Effort()) + 2
    {
      var i := reg - 0xf0;
      OneHit(f, i, d, 9);
      if f[i] != d || !caching {
        Ctrl(reg);
        W(d);
        f := f[i := d];
      } else {
        cachedWrCount := cachedWrCount + 1;
      }
    }

    /** Four registers from `reg` on, through the cache. */
    method Wf4(reg: int, b: seq<byte>)
      requires Valid() && 0xf0 <= reg <= 0xf5 && |b| == 4
      modifies `dev, `f, `wrCount, `cachedWrCount
      ensures Valid()
      ensures dev == old(dev).(f := Through(old(dev).f, old(f), WordRegs(reg - 0xf0, b), caching), index := dev.index)
      ensures f == Over(old(f), WordRegs(reg - 0xf0, b))
      ensures Effort() == old(Effort()) + 8
      ensures cachedWrCount == old(cachedWrCount) + Hits(old(f), WordRegs(reg - 0xf0, b), caching)
    {
      ghost var i, d0, f0 := reg - 0xf0, dev.f, f;
      Wf(reg, b[0]);
      Compose(d0, f0, map[i := b[0]], map[i + 1 := b[1]], caching);
      Wf(reg + 1, b[1]);
      Compose(d0, f0, map[i := b[0]] + map[i + 1 := b[1]], map[i + 2 := b[2]], caching);
      Wf(reg + 2, b[2]);
      Compose(d0, f0, map[i := b[0]] + map[i + 1 := b[1]] + map[i + 2 := b[2]], map[i + 3 := b[3]], caching);
      Wf(reg + 3, b[3]);
      assert map[i := b[0]] + map[i + 1 := b[1]] + map[i + 2 := b[2]] + map[i + 3 := b[3]] == WordRegs(i, b);
    }

    method Addr(a: int)
      requires Valid()
      modifies `dev, `f, `wrCount, `cachedWrCount
      ensures Valid()
      ensures dev == old(dev).(f := Through(old(dev).f, old(f), AddressRegs(a), caching), index := dev.index)
      ensures f == Over(old(f), AddressRegs(a))
      ensures Effort() == old(Effort()) + 8
      ensures cachedWrCount == old(cachedWrCount) + Hits(old(f), AddressRegs(a), caching)
    {
      Wf4(0xf0, Be32(a));
    }

    /** Address and width, common to all four transfers. */
    method Setup(a: int, width: byte)
      requires Valid()
      modifies `dev, `f, `wrCount, `cachedWrCount
      ensures Valid()
      ensures dev == old(dev).(f := Through(old(dev).f, old(f), AddressRegs(a)[8 := width], caching),
                               index := dev.index)
      ensures f == Over(old(f), AddressRegs(a)[8 := width])
      ensures Effort() == old(Effort()) + 10
      ensures cachedWrCount == old(cachedWrCount) + Hits(old(f), AddressRegs(a)[8 := width], caching)
    {
      Addr(a);
      Compose(old(dev).f, old(f), AddressRegs(a), map[8 := width], caching);
      Wf(0xf8, width);
      assert AddressRegs(a) + map[8 := width] == AddressRegs(a)[8 := width];
    }

    method TriggerRead()
      requires Valid()
      modifies `dev, `wrCount, `rdCount
      ensures Valid()
      ensures dev == StartRead(bus, old(dev)).(index := 0xfe)
      ensures wrCount == old(wrCount) + 1 && rdCount == old(rdCount) + 1
    {
      Ctrl(0xfe);
      var _ := R();
    }

    method TriggerWrite()
      requires Valid()
      modifies `dev, `wrCount
      ensures Valid()
      ensures dev == old(dev).(ahb := StartWrite(bus, old(dev)), index := 0xfe)
      ensures wrCount == old(wrCount) + 2
    {
      Ctrl(0xfe);
      W(0xcf);
    }

    /** Reads one of F0 to F8 into the cache. */
    method Fetch(reg: int) returns (r: byte)
      requires Valid() && 0xf0 <= reg <= 0xf8
      modifies `dev, `f, `wrCount, `rdCount
      ensures Valid()
      ensures dev == old(dev).(index := reg) && r == dev.f[reg - 0xf0]
      ensures f == Over(old(f), map[reg - 0xf0 := r])
      ensures wrCount == old(wrCount) + 1 && rdCount == old(rdCount) + 1
    {
      Ctrl(reg);
      r := R();
      f := f[reg - 0xf0 := r];
    }

    method MustRead32(a: int) returns (res: int)
      requires Valid()
      modifies `dev, `f, `wrCount, `rdCount, `cachedWrCount
      ensures Valid()
      ensures var d := StartRead(bus, old(dev).(f := Through(old(dev).f, old(f), AddressRegs(a)[8 := 2], caching)));
              && dev == d.(index := 0xf7) && res == Data(d.f)
              && f == Over(Over(old(f), AddressRegs(a)[8 := 2]), WordRegs(4, d.f[4..8]))
      ensures Effort() == old(Effort()) + 15 && rdCount == old(rdCount) + 5
      ensures cachedWrCount == old(cachedWrCount) + Hits(old(f), AddressRegs(a)[8 := 2], caching)
    {
      Setup(a, 2);
      TriggerRead();
      res := FetchWord();
    }

    /** The four data registers into the cache, and their value. */
    method FetchWord() returns (res: int)
      requires Valid()
      modifies `dev, `f, `wrCount, `rdCount
      ensures Valid()
      ensures dev == old(dev).(index := 0xf7) && res == Data(dev.f)
      ensures f == Over(old(f), WordRegs(4, dev.f[4..8]))
      ensures wrCount == old(wrCount) + 4 && rdCount == old(rdCount) + 4
    {
      var r := Fetch(0xf4);
      res := r * B24;
      r := Fetch(0xf5);
      res := res + r * B16;
      r := Fetch(0xf6);
      res := res + r * B8;
      r := Fetch(0xf7);
      res := res + r;
    }

    method MustRead8(a: int) returns (res: byte)
      requires Valid()
      modifies `dev, `f, `wrCount, `rdCount, `cachedWrCount
      ensures Valid()
      ensures var d := StartRead(bus, old(dev).(f := Through(old(dev).f, old(f), AddressRegs(a)[8 := 0], caching)));
              && dev == d.(index := 0xf7) && res == d.f[7]
              && f == Over(old(f), AddressRegs(a)[8 := 0][7 := d.f[7]])
      ensures Effort() == old(Effort()) + 12 && rdCount == old(rdCount) + 2
      ensures cachedWrCount == old(cachedWrCount) + Hits(old(f), AddressRegs(a)[8 := 0], caching)
    {
      Setup(a, 0);
      TriggerRead();
      res := Fetch(0xf7);
    }

    method MustWrite32(a: int, v: int)
      requires Valid()
      modifies `dev, `f, `wrCount, `cachedWrCount
      ensures Valid()
      ensures var d := old(dev).(f := Through(old(dev).f, old(f), AddressRegs(a)[8 := 2] + DataRegs(v), caching));
              dev == d.(ahb := StartWrite(bus, d), index := 0xfe)
      ensures f == Over(old(f), AddressRegs(a)[8 := 2] + DataRegs(v))
      ensures Effort() == old(Effort()) + 20
      ensures cachedWrCount == old(cachedWrCount) + Hits(old(f), AddressRegs(a)[8 := 2] + DataRegs(v), caching)
    {
      Setup(a, 2);
      Word(v);
      Compose(old(dev).f, old(f), AddressRegs(a)[8 := 2], DataRegs(v), caching);
      TriggerWrite();
    }

    method Word(v: int)
      requires Valid()
      modifies `dev, `f, `wrCount, `cachedWrCount
      ensures Valid()
      ensures dev == old(dev).(f := Through(old(dev).f, old(f), DataRegs(v), caching), index := dev.index)
      ensures f == Over(old(f), DataRegs(v))
      ensures Effort() == old(Effort()) + 8
      ensures cachedWrCount == old(cachedWrCount) + Hits(old(f), DataRegs(v), caching)
    {
      Wf4(0xf4, Be32(v));
    }

    method MustWrite8(a: int, v: byte)
      requires Valid()
      modifies `dev, `f, `wrCount, `cachedWrCount
      ensures Valid()
      ensures var d := old(dev).(f := Through(old(dev).f, old(f), AddressRegs(a)[8 := 0][7 := v], caching));
              dev == d.(ahb := StartWrite(bus, d), index := 0xfe)
      ensures f == Over(old(f), AddressRegs(a)[8 := 0][7 := v])
      ensures Effort() == old(Effort()) + 14
      ensures cachedWrCount == old(cachedWrCount) + Hits(old(f), AddressRegs(a)[8 := 0][7 := v], caching)
    {
      Compose(dev.f, f, AddressRegs(a)[8 := 0], map[7 := v], caching);
      Setup(a, 0);
      Wf(0xf7, v);
      assert AddressRegs(a)[8 := 0] + map[7 := v] == AddressRegs(a)[8 := 0][7 := v];
      TriggerWrite();
    }
  }
}
