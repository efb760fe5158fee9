/** The watcher's console log: it keeps each line's direction up to date from reported changes only. */
module GpioWatcher {
  import opened Wrappers
  import opened Bytes
  import opened GpioState
  import opened GpioDiff
  import opened GpioTracking

  class StdoutLog {
    var p: State
    var dir: Dirs
    const ignore: set<nat>
    var out: seq<Event>

    ghost predicate Valid()
      reads this
    {
      OnlyListed(Home(false), dir)
    }

    /** The recorded directions are right for the last snapshot. */
    ghost predicate Tracks()
      reads this
    {
      TracksIn(Home(false), ignore, dir, p)
    }

    /** One reported change: the branches of the log loop. */
    method LogLine(s: State, x: LineState, ghost levels: Layout)
      requires levels == Home(true)
      modifies `dir, `out
      ensures dir == Turned(old(dir), ignore, x)
      ensures out == old(out) + if x.port in ignore then [] else EventOf(levels, s, x, Driving(old(dir), x.port))
    {
      if x.port in ignore {
        return;
      }
      if x.kind == BecameInput {
        dir := dir[x.port := false];
        var v := PortValue(s, x.port);
        out := out + [Became(x.port, false, v.value)];
      } else if x.kind == BecameOutput {
        dir := dir[x.port := true];
        var v := PortValue(s, x.port);
        out := out + [Became(x.port, true, v.value)];
      } else if x.kind == BecameHigh {
        out := out + [Moved(x.port, true, Driving(dir, x.port))];
      } else if x.kind == BecameLow {
        out := out + [Moved(x.port, false, Driving(dir, x.port))];
      } else if x.kind == ScuChanged {
        out := out + [ScuNow(x.port, if x.port in s.scu then s.scu[x.port] else 0)];
      }
    }

    /** The loop over the changes. */
    method LogChanges(s: State, xs: seq<LineState>, ghost levels: Layout)
      requires levels == Home(true)
      modifies `dir, `out
      ensures dir == DirAfter(old(dir), ignore, xs, |xs|)
      ensures out == old(out) + Printed(old(dir), levels, s, ignore, xs, |xs|)
    {
      for k := 0 to |xs|
        invariant dir == DirAfter(old(dir), ignore, xs, k)
        invariant out == old(out) + Printed(old(dir), levels, s, ignore, xs, k)
      {
        LogLine(s, xs[k], levels);
      }
    }

    /**
     * Logs the changes since the last snapshot. Each watched line's record moves to the new direction exactly if the
     * snapshot was noticed and the line turned. If the records were right, then every label uses the line's direction
     * in the new snapshot, and the records are right again if and only if the snapshot was noticed or dropped no
     * watched output. The lookup of a line's level never fails.
     */
    method Log(s: State) returns (ghost dirOrder: seq<uint32>, ghost dataOrder: seq<uint32>)
      requires Valid()
      modifies `p, `dir, `out
      ensures Valid() && p == s
      ensures Moves(Home(false), ignore, old(dir), old(p), s, dir)
      ensures Unnoticed(old(p), s) ==> out == old(out)
      ensures !Unnoticed(old(p), s) ==>
                && Orders(dirOrder, dataOrder)
                && var xs := Report(s, Some(old(p)), dirOrder, dataOrder);
                   && out == old(out) + Printed(old(dir), Home(true), s, ignore, xs, |xs|)
                   && (old(Tracks()) ==> out == old(out) + Events(Home(false), Home(true), s, ignore, xs, |xs|))
      ensures old(Tracks()) ==> (Tracks() <==> Keeps(Home(false), ignore, old(p), s))
    {
      dirOrder, dataOrder := [], [];
      var same := Equal(p, s);
      if !same {
        var changes;
        changes, dirOrder, dataOrder := Diff(s, Some(p));
        ghost var n := |LinesReport(false, dirOrder, s, Some(p))|;
        ReportTurnsFirst(p, s, dirOrder, dataOrder);
        Changed(Home(false), Home(true), ignore, dir, p, s, changes, n);
        LogChanges(s, changes, Home(true));
      }
      if old(Tracks()) {
        TracksIff(Home(false), ignore, old(dir), p, s, dir);
      }
      p := s;
    }

    /** The first snapshot: its outputs are recorded, and every line is printed with its level and direction. */
    constructor (p: State, ignore: set<nat>)
      ensures this.p == p && this.ignore == ignore && Valid() && Tracks()
      ensures Shown(out, Home(false), Home(true), p)
    {
      this.p := p;
      this.ignore := ignore;
      dir := map[];
      out := [];
      new;
      Begin();
    }

    method Begin()
      requires dir == map[] && out == []
      modifies `dir, `out
      ensures Valid() && Tracks() && Shown(out, Home(false), Home(true), p)
    {
      ghost var dirOrder, dataOrder;
      var list;
      list, dirOrder, dataOrder := Diff(p, None);
      RecordOutputs(list);
      StartsRight(ignore, dir, p, dirOrder, dataOrder, list);
      PrintAll(list, Home(false), Home(true));
    }

    method RecordOutputs(list: seq<LineState>)
      requires dir == map[]
      modifies `dir
      ensures Recorded(dir, list)
    {
      var k := 0;
      while k < |list|
        invariant 0 <= k <= |list|
        invariant Recorded(dir, list[..k])
      {
        assert list[..k + 1] == list[..k] + [list[k]];
        if list[k].kind == Output {
          dir := dir[list[k].port := true];
        }
        k := k + 1;
      }
      assert list[..|list|] == list;
    }

    method PrintAll(list: seq<LineState>, ghost dirs: Layout, ghost levels: Layout)
      requires LevelsIn(list, levels, p) && SameDirections(dir, dirs, p)
      requires out == []
      modifies `out
      ensures Shown(out, dirs, levels, p)
    {
      for k := 0 to |list|
        invariant forall i :: 0 <= i < k && list[i].kind in {High, Low} ==>
                    Initially(list[i].port, list[i].kind == High, Drives(dirs, p, list[i].port)) in out
        invariant forall e :: e in out && e.Initially? ==>
                    e == Initially(e.port, IsHigh(levels, p, e.port), Drives(dirs, p, e.port))
      {
        var g := list[k];
        assert g in list;
        if g.kind == High {
          out := out + [Initially(g.port, true, Driving(dir, g.port))];
        } else if g.kind == Low {
          out := out + [Initially(g.port, false, Driving(dir, g.port))];
        } else if g.kind == Scu {
          out := out + [ScuIs(g.port, if g.port in p.scu then p.scu[g.port] else 0)];
        }
      }
      forall port: nat | Listed(levels, port)
        ensures Initially(port, IsHigh(levels, p, port), Drives(dirs, p, port)) in out
      {
        assert LineState(port, NowKind(true, IsHigh(levels, p, port))) in list;
      }
    }
  }

  /** What the log loop makes of a report. */
  lemma Changed(dirs: Layout, levels: Layout, ignore: set<nat>, dir: Dirs, p: State, s: State, xs: seq<LineState>,
                n: nat)
    requires TurnsFirst(dirs, p, s, xs, n) && OnlyListed(dirs, dir) && !Unnoticed(p, s)
    ensures OnlyListed(dirs, DirAfter(dir, ignore, xs, |xs|))
    ensures Moves(dirs, ignore, dir, p, s, DirAfter(dir, ignore, xs, |xs|))
    ensures TracksIn(dirs, ignore, dir, p) ==>
              Printed(dir, levels, s, ignore, xs, |xs|) == Events(dirs, levels, s, ignore, xs, |xs|)
  {
    StaysListed(dirs, ignore, dir, p, s, xs, n, |xs|);
    if TracksIn(dirs, ignore, dir, p) {
      LabelsRight(dirs, levels, ignore, dir, p, s, xs, n, |xs|);
    }
    forall port: nat | Watched(dirs, ignore, port)
      ensures Driving(DirAfter(dir, ignore, xs, |xs|), port)
           == if LineBit(dirs, s, port) != LineBit(dirs, p, port) then LineBit(dirs, s, port) else Driving(dir, port)
    {
      DirOnce(dirs, ignore, dir, p, s, xs, n, |xs|, port);
    }
  }

  /** The snapshot before number `i` of a run. */
  function Before(first: State, rest: seq<State>, i: nat): State
    requires i <= |rest|
  {
    if i == 0 then first else rest[i - 1]
  }

  /** `recs` are the records after the first snapshot and after each of the others, as the log moves them. */
  ghost predicate RecordsOf(first: State, rest: seq<State>, ignore: set<nat>, recs: seq<Dirs>) {
    && |recs| == |rest| + 1
    && TracksIn(Home(false), ignore, recs[0], first)
    && forall i :: 0 <= i < |rest| ==> MovedBy(first, rest, ignore, recs[i], recs[i + 1], i)
  }

  ghost predicate MovedBy(first: State, rest: seq<State>, ignore: set<nat>, dir: Dirs, next: Dirs, i: nat)
    requires i < |rest|
  {
    Moves(Home(false), ignore, dir, Before(first, rest, i), rest[i], next)
  }

  /** The records are right for the snapshot before number `i`. */
  ghost predicate RightAt(first: State, rest: seq<State>, ignore: set<nat>, recs: seq<Dirs>, i: nat)
    requires i <= |rest| && i < |recs|
  {
    TracksIn(Home(false), ignore, recs[i], Before(first, rest, i))
  }

  /** Snapshot `i` was noticed, or dropped no watched output. */
  ghost predicate KeptAt(first: State, rest: seq<State>, ignore: set<nat>, i: nat)
    requires i < |rest|
  {
    Keeps(Home(false), ignore, Before(first, rest, i), rest[i])
  }

  /** Up to any point of a run, the records were right after each snapshot if and only if each was kept. */
  lemma {:induction false} RightIff(first: State, rest: seq<State>, ignore: set<nat>, recs: seq<Dirs>, n: nat)
    requires RecordsOf(first, rest, ignore, recs) && n <= |rest|
    ensures (forall i :: 0 <= i <= n ==> RightAt(first, rest, ignore, recs, i))
       <==> (forall i :: 0 <= i < n ==> KeptAt(first, rest, ignore, i))
  {
    if n > 0 {
      RightIff(first, rest, ignore, recs, n - 1);
      if RightAt(first, rest, ignore, recs, n - 1) {
        RightNext(first, rest, ignore, recs, n - 1);
      }
    } else {
      assert RightAt(first, rest, ignore, recs, 0);
    }
  }

  lemma RightNext(first: State, rest: seq<State>, ignore: set<nat>, recs: seq<Dirs>, i: nat)
    requires RecordsOf(first, rest, ignore, recs) && i < |rest| && RightAt(first, rest, ignore, recs, i)
    ensures RightAt(first, rest, ignore, recs, i + 1) <==> KeptAt(first, rest, ignore, i)
  {
    assert MovedBy(first, rest, ignore, recs[i], recs[i + 1], i);
    TracksIff(Home(false), ignore, recs[i], Before(first, rest, i), rest[i], recs[i + 1]);
  }

  /** One snapshot of a run. */
  method LogOne(l: StdoutLog, s: State)
    requires l.Valid()
    modifies l
    ensures l.Valid() && l.p == s && Moves(Home(false), l.ignore, old(l.dir), old(l.p), s, l.dir)
  {
    ghost var o, q;
    o, q := l.Log(s);
  }

  /**
   * Over any run of snapshots: `recs` are the log's records on the way, and they are right after each snapshot if and
   * only if each was noticed or dropped no watched output.
   */
  method Watch(first: State, rest: seq<State>, ignore: set<nat>) returns (l: StdoutLog, ghost recs: seq<Dirs>)
    ensures l.Valid() && l.ignore == ignore && l.p == Before(first, rest, |rest|)
    ensures RecordsOf(first, rest, ignore, recs) && recs[|rest|] == l.dir
    ensures (forall i :: 0 <= i <= |rest| ==> RightAt(first, rest, ignore, recs, i))
       <==> (forall i :: 0 <= i < |rest| ==> KeptAt(first, rest, ignore, i))
  {
    l := new StdoutLog(first, ignore);
    recs := [l.dir];
    for i := 0 to |rest|
      invariant fresh(l) && l.Valid() && l.ignore == ignore && l.p == Before(first, rest, i)
      invariant |recs| == i + 1 && recs[i] == l.dir && TracksIn(Home(false), ignore, recs[0], first)
      invariant forall j :: 0 <= j < i ==> MovedBy(first, rest, ignore, recs[j], recs[j + 1], j)
    {
      LogOne(l, rest[i]);
      assert MovedBy(first, rest, ignore, recs[i], l.dir, i);
      recs := recs + [l.dir];
    }
    RightIff(first, rest, ignore, recs, |rest|);
  }

  /** Snapshots taken by one routine share their registers: then the records are right all the way. */
  method WatchOneKeySet(first: State, rest: seq<State>, ignore: set<nat>) returns (l: StdoutLog, ghost recs: seq<Dirs>)
    requires forall i :: 0 <= i < |rest| ==> rest[i].gpio.Keys == first.gpio.Keys
    ensures l.Tracks() && l.ignore == ignore && l.p == Before(first, rest, |rest|)
    ensures RecordsOf(first, rest, ignore, recs) && recs[|rest|] == l.dir
    ensures forall i :: 0 <= i <= |rest| ==> RightAt(first, rest, ignore, recs, i)
  {
    l, recs := Watch(first, rest, ignore);
    forall i | 0 <= i < |rest| ensures KeptAt(first, rest, ignore, i) {
      SameRegistersDropNothing(Home(false), ignore, Before(first, rest, i), rest[i]);
    }
    assert RightAt(first, rest, ignore, recs, |rest|);
  }
}
