/** The SuperIO's LPC-to-AHB bridge as seen through its index and data ports. */
module LpcDevice {
  import opened Bytes

  datatype Width = W8 | W32

  /** What lies behind the bridge: any bus, whose reads and writes may both have effects. */
  datatype Ahb<!A> = Ahb(read: (A, nat, Width) -> (A, nat), write: (A, nat, Width, nat) -> A)

  /**
   * `f` holds registers F0 to F8: address, data (high byte first) and width. `fill` says what an 8-bit
   * read does to the data registers it does not need: nothing, or overwrite F4 to F6 with a fixed byte.
   */
  datatype Bridge<A> = Bridge(ahb: A, f: seq<byte>, index: byte, armed: bool, unlocked: bool, ldn: byte,
                              enabled: bool, fill: Fill)
  datatype Fill = Quiet | Overwrite(v: byte)

  const LDN_LPC2AHB: byte := 0xd

  ghost predicate Ready<A>(d: Bridge<A>) {
    |d.f| == 9 && d.unlocked && d.ldn == LDN_LPC2AHB && d.enabled
  }

  function Address(f: seq<byte>): (a: nat)
    requires |f| == 9
    ensures a < B32
  {
    FromBe32(f[0..4])
  }

  function Data(f: seq<byte>): (v: nat)
    requires |f| == 9
    ensures v < B32
  {
    FromBe32(f[4..8])
  }

  /** A write to the index port: two 0xa5 unlock, 0xaa locks, anything else selects a register. */
  function WriteIndex<A>(d: Bridge<A>, v: byte): (r: Bridge<A>) {
    if !d.unlocked then
      if v == 0xa5 then (if d.armed then d.(armed := false, unlocked := true) else d.(armed := true))
      else d.(armed := false)
    else if v == 0xaa then d.(unlocked := false)
    else d.(index := v)
  }

  /** A write to the data port; writing 0xcf to register FE starts an AHB write. */
  function WriteData<A>(bus: Ahb<A>, d: Bridge<A>, v: byte): (r: Bridge<A>)
    requires |d.f| == 9
    ensures |r.f| == 9
  {
    if !d.unlocked then d
    else if d.index == 0x07 then d.(ldn := v)
    else if d.ldn != LDN_LPC2AHB then d
    else if d.index == 0x30 then d.(enabled := v % 2 == 1)
    else if 0xf0 <= d.index <= 0xf8 then d.(f := d.f[d.index - 0xf0 := v])
    else if d.index == 0xfe && v == 0xcf && d.enabled then d.(ahb := StartWrite(bus, d))
    else d
  }

  function StartWrite<A>(bus: Ahb<A>, d: Bridge<A>): A
    requires |d.f| == 9
  {
    if d.f[8] == 2 then bus.write(d.ahb, Address(d.f), W32, Data(d.f))
    else if d.f[8] == 0 then bus.write(d.ahb, Address(d.f), W8, d.f[7])
    else d.ahb
  }

  /** A read of the data port; reading register FE starts an AHB read into the data registers. */
  function ReadData<A>(bus: Ahb<A>, d: Bridge<A>): (r: (Bridge<A>, byte))
    requires |d.f| == 9
    ensures |r.0.f| == 9
  {
    if !d.unlocked || d.ldn != LDN_LPC2AHB then (d, 0)
    else if 0xf0 <= d.index <= 0xf8 then (d, d.f[d.index - 0xf0])
    else if d.index == 0xfe && d.enabled then (StartRead(bus, d), 0)
    else (d, 0)
  }

  function StartRead<A>(bus: Ahb<A>, d: Bridge<A>): (r: Bridge<A>)
    requires |d.f| == 9
    ensures |r.f| == 9
  {
    if d.f[8] == 2 then
      var (s, v) := bus.read(d.ahb, Address(d.f), W32);
      d.(ahb := s, f := d.f[0..4] + Be32(v) + [d.f[8]])
    else if d.f[8] == 0 then
      var (s, v) := bus.read(d.ahb, Address(d.f), W8);
      var mid := if d.fill.Quiet? then d.f[4..7] else [d.fill.v, d.fill.v, d.fill.v];
      d.(ahb := s, f := d.f[0..4] + mid + [ByteOf(v, 0), d.f[8]])
    else d
  }
}
