/** The binary snapshot log and its playback. */
module GpioLog {
  import opened Wrappers
  import opened Bytes
  import opened GpioState

  type Regs = map<uint32, uint32>

  ghost predicate InMap(m: Regs, order: seq<uint32>) {
    forall i :: 0 <= i < |order| ==> order[i] in m
  }

  function Entry(k: uint32, v: uint32): (b: seq<byte>)
    ensures |b| == 8
  {
    Le32(k) + Le32(v)
  }

  ghost function EntryBytes(m: Regs, order: seq<uint32>): (b: seq<byte>)
    requires InMap(m, order)
    ensures |b| == 8 * |order|
  {
    if order == [] then [] else EntryBytes(m, order[..|order| - 1]) + Entry(order[|order| - 1], m[order[|order| - 1]])
  }

  lemma {:induction false} EntryAppended(m: Regs, order: seq<uint32>, k: uint32, before: seq<byte>, f: seq<byte>)
    requires InMap(m, order) && k in m && f == before + EntryBytes(m, order)
    ensures InMap(m, order + [k]) && f + Le32(k) + Le32(m[k]) == before + EntryBytes(m, order + [k])
  {
    assert (order + [k])[..|order|] == order;
  }

  /** The start of a record: the time as 64 bits and the two sizes as 32 bits. */
  function Header(time: int, gpios: int, scus: int): (b: seq<byte>)
    ensures |b| == 16
  {
    Le32(time) + Le32(time / B32) + Le32(gpios) + Le32(scus)
  }

  /** One record: the header, then the entries of both maps. */
  ghost function Record(time: int, s: State, g: seq<uint32>, c: seq<uint32>): (b: seq<byte>)
    requires InMap(s.gpio, g) && InMap(s.scu, c)
    ensures |b| >= 16
  {
    Header(time, |s.gpio|, |s.scu|) + (EntryBytes(s.gpio, g) + EntryBytes(s.scu, c))
  }

  lemma Regroup(a: seq<byte>, b: seq<byte>, c: seq<byte>)
    ensures a + b + c == a + (b + c)
  {}

  lemma Assoc(a: seq<byte>, b: seq<byte>, c: seq<byte>, d: seq<byte>)
    ensures a + b + c + d == a + (b + (c + d))
  {}

  class BinaryLog {
    var f: seq<byte>

    constructor ()
      ensures f == []
    {
      f := [];
    }

    method WriteEntries(m: Regs) returns (ghost order: seq<uint32>)
      modifies this
      ensures IsOrder(m, order) && f == old(f) + EntryBytes(m, order)
    {
      order := [];
      var keys := m.Keys;
      while keys != {}
        invariant keys <= m.Keys
        invariant forall i, j :: 0 <= i < j < |order| ==> order[i] != order[j]
        invariant InMap(m, order) && forall k :: k in order <==> k in m && k !in keys
        invariant f == old(f) + EntryBytes(m, order)
        decreases |keys|
      {
        var k :| k in keys;
        EntryAppended(m, order, k, old(f), f);
        f := f + Le32(k);
        f := f + Le32(m[k]);
        order := order + [k];
        keys := keys - {k};
      }
    }

    method WriteHeader(time: int, gpios: int, scus: int)
      modifies this
      ensures f == old(f) + Header(time, gpios, scus)
    {
      f := f + (Le32(time) + Le32(time / B32));
      f := f + Le32(gpios);
      f := f + Le32(scus);
      Assoc(old(f), Le32(time) + Le32(time / B32), Le32(gpios), Le32(scus));
      Assoc(Le32(time), Le32(time / B32), Le32(gpios), Le32(scus));
    }

    method Log(s: State, time: int) returns (ghost g: seq<uint32>, ghost c: seq<uint32>)
      modifies this
      ensures IsOrder(s.gpio, g) && IsOrder(s.scu, c)
      ensures f == old(f) + Record(time, s, g, c)
    {
      WriteHeader(time, |s.gpio|, |s.scu|);
      g := WriteEntries(s.gpio);
      c := WriteEntries(s.scu);
      Assoc(old(f), Header(time, |s.gpio|, |s.scu|), EntryBytes(s.gpio, g), EntryBytes(s.scu, c));
    }
  }

  // ---------------------------------------------------------------- playback

  /** The next record of a stream: a snapshot and the rest, the end, or a record cut short. */
  datatype Played = Snapshot(s: State, rest: seq<byte>) | AtEnd | Fatal

  function Entries(f: seq<byte>, n: nat, acc: Regs): (r: Option<(Regs, seq<byte>)>)
    ensures r.Some? ==> |r.value.1| <= |f|
    decreases n
  {
    if n == 0 then Some((acc, f))
    else if |f| < 8 then None
    else Entries(f[8..], n - 1, acc[FromLe32(f[..4]) := FromLe32(f[4..8])])
  }

  function Next(f: seq<byte>): (r: Played)
    ensures r.Snapshot? ==> |r.rest| < |f|
  {
    if f == [] then AtEnd
    else if |f| < 16 then Fatal
    else
      var g := Entries(f[16..], FromLe32(f[8..12]), map[]);
      if g.None? then Fatal
      else
        var c := Entries(g.value.1, FromLe32(f[12..16]), map[]);
        if c.None? then Fatal else Snapshot(State(g.value.0, c.value.0), c.value.1)
  }

  class Playback {
    var f: seq<byte>

    constructor (f: seq<byte>)
      ensures this.f == f
    {
      this.f := f;
    }

    /** Reads exactly `n` bytes: None at the end of the stream, Some(None) if it is cut short. */
    method ReadFull(n: nat) returns (r: Option<Option<seq<byte>>>)
      requires n > 0
      modifies this
      ensures old(f) == [] ==> r.None? && f == []
      ensures 0 < |old(f)| < n ==> r == Some(None) && f == []
      ensures |old(f)| >= n ==> r == Some(Some(old(f)[..n])) && f == old(f)[n..]
    {
      if f == [] {
        return None;
      }
      if |f| < n {
        f := [];
        return Some(None);
      }
      r := Some(Some(f[..n]));
      f := f[n..];
    }

    method ReadUint32() returns (r: Option<uint32>)
      modifies this
      ensures |old(f)| < 4 ==> r.None?
      ensures |old(f)| >= 4 ==> r == Some(FromLe32(old(f)[..4])) && f == old(f)[4..]
    {
      var b := ReadFull(4);
      if b.None? || b.value.None? {
        return None;
      }
      return Some(FromLe32(b.value.value));
    }

    method ReadEntries(n: uint32) returns (r: Option<Regs>)
      modifies this
      ensures r.Some? <==> Entries(old(f), n, map[]).Some?
      ensures r.Some? ==> (r.value, f) == Entries(old(f), n, map[]).value
    {
      var m: Regs := map[];
      var i := 0;
      while i < n
        invariant 0 <= i <= n
        invariant Entries(f, n - i, m) == Entries(old(f), n, map[])
      {
        ghost var before := f;
        var k := ReadUint32();
        if k.None? {
          return None;
        }
        var v := ReadUint32();
        if v.None? {
          return None;
        }
        assert before[4..][..4] == before[4..8] && before[4..][4..] == before[8..];
        m := m[k.value := v.value];
        i := i + 1;
      }
      return Some(m);
    }

    /** One snapshot: None is the nil at the end of the file; `fatal` stands for ending the program. */
    method SnapshotGpio() returns (s: Option<State>, fatal: bool)
      modifies this
      ensures match Next(old(f))
              case AtEnd => s.None? && !fatal
              case Fatal => fatal
              case Snapshot(t, rest) => s == Some(t) && !fatal && f == rest
    {
      s, fatal := None, false;
      var time := ReadFull(8);
      if time.None? {
        return;
      }
      ghost var f0, f8 := old(f), f;
      if time.value.None? {
        return None, true;
      }
      var gpios := ReadUint32();
      if gpios.None? {
        return None, true;
      }
      var scus := ReadUint32();
      if scus.None? {
        return None, true;
      }
      assert f0[8..][..4] == f0[8..12] && f0[8..][4..][..4] == f0[12..16] && f0[8..][4..][4..] == f0[16..];
      var g := ReadEntries(gpios.value);
      if g.None? {
        return None, true;
      }
      var c := ReadEntries(scus.value);
      if c.None? {
        return None, true;
      }
      s := Some(State(g.value, c.value));
    }
  }

  // ---------------------------------------------------------------- round trip

  /** The entries of `m` whose keys are in `order`. */
  ghost function Part(m: Regs, order: seq<uint32>): Regs
    requires InMap(m, order)
  {
    map k | k in order :: m[k]
  }

  lemma {:induction false} EntriesSplit(a: seq<byte>, n: nat, b: seq<byte>, k: uint32, v: uint32, acc: Regs)
    requires Entries(a, n, acc).Some? && Entries(a, n, acc).value.1 == Entry(k, v) + b
    ensures Entries(a, n + 1, acc) == Some((Entries(a, n, acc).value.0[k := v], b))
    decreases n
  {
    if n == 0 {
      RoundTrip32(k);
      RoundTrip32(v);
      assert a[..4] == Le32(k) && a[4..8] == Le32(v) && a[8..] == b;
      assert Entries(b, 0, acc[k := v]) == Some((acc[k := v], b));
    } else {
      EntriesSplit(a[8..], n - 1, b, k, v, acc[FromLe32(a[..4]) := FromLe32(a[4..8])]);
    }
  }

  lemma PartGrows(m: Regs, init: seq<uint32>, k: uint32)
    requires InMap(m, init) && k in m
    ensures InMap(m, init + [k]) && Part(m, init + [k]) == Part(m, init)[k := m[k]]
  {
    assert forall i :: 0 <= i < |init| ==> (init + [k])[i] in m;
  }

  /** Reading back the entries written for `order` gives those entries, whatever follows. */
  lemma {:induction false} EntriesRoundTrip(m: Regs, order: seq<uint32>, rest: seq<byte>)
    requires InMap(m, order)
    ensures Entries(EntryBytes(m, order) + rest, |order|, map[]) == Some((Part(m, order), rest))
  {
    if order == [] {
      assert EntryBytes(m, order) + rest == rest;
    } else {
      var init, k := order[..|order| - 1], order[|order| - 1];
      EntriesRoundTrip(m, init, Entry(k, m[k]) + rest);
      Regroup(EntryBytes(m, init), Entry(k, m[k]), rest);
      EntriesSplit(EntryBytes(m, order) + rest, |init|, rest, k, m[k], map[]);
      PartGrows(m, init, k);
      assert order == init + [k];
    }
  }

  lemma {:induction false} OrderSize(keys: set<uint32>, order: seq<uint32>)
    requires forall i, j :: 0 <= i < j < |order| ==> order[i] != order[j]
    requires forall k :: k in order <==> k in keys
    ensures |order| == |keys|
    decreases |order|
  {
    if order != [] {
      var init, k := order[..|order| - 1], order[|order| - 1];
      assert order == init + [k];
      OrderSize(keys - {k}, init);
    }
  }

  /** The first eight bytes of a record are its time, little-endian and modulo 2^64. */
  lemma TimeReadsBack(time: int, s: State, g: seq<uint32>, c: seq<uint32>)
    requires InMap(s.gpio, g) && InMap(s.scu, c)
    ensures var f := Record(time, s, g, c); FromLe32(f[0..4]) + FromLe32(f[4..8]) * B32 == time % B64
  {
    var f, h := Record(time, s, g, c), Header(time, |s.gpio|, |s.scu|);
    assert f[0..4] == h[0..4] == Le32(time);
    assert f[4..8] == h[4..8] == Le32(time / B32);
    RoundTrip32(time);
    RoundTrip32(time / B32);
    TwoWords(time);
  }

  lemma TwoWords(x: int)
    ensures x % B32 + x / B32 % B32 * B32 == x % B64
  {
    var q := x / B32;
    assert x == (x % B32 + q % B32 * B32) + q / B32 * B64;
  }

  /** Reading as many entries as the map has gives the map back, in whatever order they were written. */
  lemma MapRoundTrip(m: Regs, order: seq<uint32>, rest: seq<byte>)
    requires IsOrder(m, order)
    ensures Entries(EntryBytes(m, order) + rest, |m|, map[]) == Some((m, rest))
  {
    OrderSize(m.Keys, order);
    EntriesRoundTrip(m, order, rest);
    assert Part(m, order) == m;
  }

  lemma HeaderParts(time: int, n: int, m: int, b: seq<byte>)
    requires 0 <= n < B32 && 0 <= m < B32
    ensures var f := Header(time, n, m) + b;
            FromLe32(f[8..12]) == n && FromLe32(f[12..16]) == m && f[16..] == b
  {
    RoundTrip32(n);
    RoundTrip32(m);
    assert Header(time, n, m)[8..12] == Le32(n);
    assert Header(time, n, m)[12..16] == Le32(m);
    var f := Header(time, n, m) + b;
    assert f[8..12] == Le32(n) && f[12..16] == Le32(m);
  }

  /** A record, written in any iteration order, is read back as the snapshot it was made from. */
  lemma RecordRoundTrip(time: int, s: State, g: seq<uint32>, c: seq<uint32>, rest: seq<byte>)
    requires IsOrder(s.gpio, g) && IsOrder(s.scu, c) && |s.gpio| < B32 && |s.scu| < B32
    ensures Next(Record(time, s, g, c) + rest) == Snapshot(s, rest)
  {
    var a, b := EntryBytes(s.gpio, g), EntryBytes(s.scu, c);
    var f := Record(time, s, g, c) + rest;
    Regroup(Header(time, |s.gpio|, |s.scu|), a + b, rest);
    Regroup(a, b, rest);
    HeaderParts(time, |s.gpio|, |s.scu|, a + (b + rest));
    MapRoundTrip(s.gpio, g, b + rest);
    MapRoundTrip(s.scu, c, rest);
  }

  /** What was logged, record by record, with the order each map happened to be iterated in. */
  datatype Logged = Logged(time: int, s: State, g: seq<uint32>, c: seq<uint32>)

  ghost predicate Writable(l: Logged) {
    IsOrder(l.s.gpio, l.g) && IsOrder(l.s.scu, l.c) && |l.s.gpio| < B32 && |l.s.scu| < B32
  }

  ghost predicate AllWritable(ls: seq<Logged>) {
    ls == [] || (AllWritable(ls[..|ls| - 1]) && Writable(ls[|ls| - 1]))
  }

  ghost function RecordOf(l: Logged): seq<byte>
    requires Writable(l)
  {
    Record(l.time, l.s, l.g, l.c)
  }

  ghost function LogBytes(ls: seq<Logged>): seq<byte>
    requires AllWritable(ls)
  {
    if ls == [] then [] else LogBytes(ls[..|ls| - 1]) + RecordOf(ls[|ls| - 1])
  }

  ghost function States(ls: seq<Logged>): (ss: seq<State>) {
    if ls == [] then [] else States(ls[..|ls| - 1]) + [ls[|ls| - 1].s]
  }

  /** Playing a stream until it ends: the snapshots, and whether it ended properly. */
  function PlayAll(f: seq<byte>): (r: (seq<State>, bool))
    decreases |f|
  {
    match Next(f)
    case AtEnd => ([], true)
    case Fatal => ([], false)
    case Snapshot(s, rest) => ([s] + PlayAll(rest).0, PlayAll(rest).1)
  }

  lemma NextRecord(l: Logged, rest: seq<byte>)
    requires Writable(l)
    ensures PlayAll(RecordOf(l) + rest) == ([l.s] + PlayAll(rest).0, PlayAll(rest).1)
  {
    RecordRoundTrip(l.time, l.s, l.g, l.c, rest);
  }

  lemma {:induction false} Append(ls: seq<Logged>, l: Logged)
    requires AllWritable(ls) && Writable(l)
    ensures AllWritable(ls + [l]) && LogBytes(ls + [l]) == LogBytes(ls) + RecordOf(l)
    ensures States(ls + [l]) == States(ls) + [l.s]
  {
    assert (ls + [l])[..|ls|] == ls;
  }

  lemma Joined(whole: (seq<State>, bool), next: (seq<State>, bool), last: (seq<State>, bool), before: seq<State>,
               s: State)
    requires whole == (before + next.0, next.1) && next == ([s] + last.0, last.1)
    ensures whole == (before + [s] + last.0, last.1)
  {
    assert before + ([s] + last.0) == before + [s] + last.0;
  }

  /** Playback of a log yields exactly the snapshots that were logged, in order, then plays what follows. */
  lemma {:induction false} LogRoundTrip(ls: seq<Logged>, rest: seq<byte>)
    requires AllWritable(ls)
    ensures PlayAll(LogBytes(ls) + rest) == (States(ls) + PlayAll(rest).0, PlayAll(rest).1)
    decreases |ls|
  {
    if ls == [] {
      assert LogBytes(ls) + rest == rest;
      assert States(ls) + PlayAll(rest).0 == PlayAll(rest).0;
    } else {
      var init, l := ls[..|ls| - 1], ls[|ls| - 1];
      LogRoundTrip(init, RecordOf(l) + rest);
      NextRecord(l, rest);
      Regroup(LogBytes(init), RecordOf(l), rest);
      Joined(PlayAll(LogBytes(ls) + rest), PlayAll(RecordOf(l) + rest), PlayAll(rest), States(init), l.s);
    }
  }

  lemma OneMore(ss: seq<State>, i: nat)
    requires i < |ss|
    ensures ss[..i + 1] == ss[..i] + [ss[i]]
  {}

  /** Writes a log of `ss` through the encoder. */
  method LogSession(ss: seq<State>, times: seq<int>) returns (f: seq<byte>, ghost ls: seq<Logged>)
    requires |times| == |ss| && forall i :: 0 <= i < |ss| ==> |ss[i].gpio| < B32 && |ss[i].scu| < B32
    ensures AllWritable(ls) && States(ls) == ss && f == LogBytes(ls)
  {
    var log := new BinaryLog();
    ls := [];
    var i := 0;
    while i < |ss|
      invariant 0 <= i <= |ss|
      invariant AllWritable(ls) && States(ls) == ss[..i] && log.f == LogBytes(ls)
    {
      ghost var g, c := log.Log(ss[i], times[i]);
      ghost var l := Logged(times[i], ss[i], g, c);
      Append(ls, l);
      OneMore(ss, i);
      ls := ls + [l];
      i := i + 1;
    }
    f := log.f;
  }

  lemma PlayOne(played: seq<State>, f: seq<byte>)
    ensures match Next(f)
            case AtEnd => played + PlayAll(f).0 == played && PlayAll(f).1
            case Fatal => played + PlayAll(f).0 == played && !PlayAll(f).1
            case Snapshot(s, rest) =>
              played + PlayAll(f).0 == played + [s] + PlayAll(rest).0 && PlayAll(f).1 == PlayAll(rest).1
  {
    if Next(f).Snapshot? {
      assert played + ([Next(f).s] + PlayAll(Next(f).rest).0) == played + [Next(f).s] + PlayAll(Next(f).rest).0;
    }
  }

  /** Plays any stream back until it ends or turns out to be cut short. */
  method PlayBack(f: seq<byte>) returns (played: seq<State>, fatal: bool)
    ensures (played, !fatal) == PlayAll(f)
  {
    var p := new Playback(f);
    played, fatal := [], false;
    assert [] + PlayAll(f).0 == PlayAll(f).0;
    var more := true;
    while more
      invariant more ==> PlayAll(f).0 == played + PlayAll(p.f).0 && PlayAll(f).1 == PlayAll(p.f).1
      invariant !more ==> PlayAll(f).0 == played && PlayAll(f).1 == !fatal
      decreases more, |p.f|
    {
      PlayOne(played, p.f);
      var s: Option<State>;
      s, fatal := p.SnapshotGpio();
      if s.None? || fatal {
        more := false;
      } else {
        played := played + [s.value];
      }
    }
  }

  /**
   * Whatever sequence of snapshots is logged, with whatever orders the maps are iterated in, playing the bytes back
   * gives that sequence and then nil.
   */
  method LogThenPlay(ss: seq<State>, times: seq<int>)
    returns (f: seq<byte>, ghost ls: seq<Logged>, played: seq<State>, fatal: bool)
    requires |times| == |ss| && forall i :: 0 <= i < |ss| ==> |ss[i].gpio| < B32 && |ss[i].scu| < B32
    ensures AllWritable(ls) && States(ls) == ss && f == LogBytes(ls)
    ensures (played, !fatal) == PlayAll(f) == (ss, true)
  {
    f, ls := LogSession(ss, times);
    LogRoundTrip(ls, []);
    assert LogBytes(ls) + [] == f;
    assert PlayAll([]) == ([], true);
    assert ss + [] == ss;
    played, fatal := PlayBack(f);
  }
}
