/** What the watcher's log does to the directions it keeps, line by line, and when these are right. */
module GpioTracking {
  import opened Wrappers
  import opened Bytes
  import opened GpioState
  import opened GpioDiff

  datatype Event =
    | Initially(port: nat, high: bool, output: bool) | ScuIs(port: nat, v: uint32)
    | Became(port: nat, output: bool, value: bool)
    | Moved(port: nat, high: bool, driving: bool)
    | ScuNow(port: nat, v: uint32)

  /** The recorded directions. */
  type Dirs = map<nat, bool>

  /** What is recorded for a line: an entry that is missing counts as input. */
  predicate Driving(dir: Dirs, port: nat) {
    port in dir && dir[port]
  }

  /** The direction of a line in a snapshot; lines without a direction bit count as inputs. */
  predicate Drives(dirs: Layout, s: State, port: nat) {
    Listed(dirs, port) && LineBit(dirs, s, port)
  }

  predicate IsHigh(levels: Layout, s: State, port: nat) {
    PortSet(port) in levels && LineBit(levels, s, port)
  }

  predicate IsTurn(k: Kind) {
    k == BecameInput || k == BecameOutput
  }

  // ---------------------------------------------------------------- the log loop

  /** What is printed for one reported change, with the label `driving` for a change of level. */
  function EventOf(levels: Layout, s: State, x: LineState, driving: bool): seq<Event> {
    match x.kind
    case BecameInput => [Became(x.port, false, IsHigh(levels, s, x.port))]
    case BecameOutput => [Became(x.port, true, IsHigh(levels, s, x.port))]
    case BecameHigh => [Moved(x.port, true, driving)]
    case BecameLow => [Moved(x.port, false, driving)]
    case ScuChanged => [ScuNow(x.port, if x.port in s.scu then s.scu[x.port] else 0)]
    case _ => []
  }

  /** The recorded directions after one entry of a report. */
  function Turned(dir: Dirs, ignore: set<nat>, x: LineState): Dirs {
    if x.port !in ignore && IsTurn(x.kind) then dir[x.port := x.kind == BecameOutput] else dir
  }

  /** The recorded directions after the first `k` entries. */
  function DirAfter(dir: Dirs, ignore: set<nat>, xs: seq<LineState>, k: nat): Dirs
    requires k <= |xs|
  {
    if k == 0 then dir else Turned(DirAfter(dir, ignore, xs, k - 1), ignore, xs[k - 1])
  }

  /** What is printed for the first `k` entries, each labelled by what is recorded when it comes up. */
  function Printed(dir: Dirs, levels: Layout, s: State, ignore: set<nat>, xs: seq<LineState>, k: nat): seq<Event>
    requires k <= |xs|
  {
    if k == 0 then []
    else
      var x := xs[k - 1];
      Printed(dir, levels, s, ignore, xs, k - 1) +
      if x.port in ignore then [] else EventOf(levels, s, x, Driving(DirAfter(dir, ignore, xs, k - 1), x.port))
  }

  /** What should be printed: every label uses the line's direction in the new snapshot. */
  function Events(dirs: Layout, levels: Layout, s: State, ignore: set<nat>, xs: seq<LineState>, k: nat): seq<Event>
    requires k <= |xs|
  {
    if k == 0 then []
    else
      var x := xs[k - 1];
      Events(dirs, levels, s, ignore, xs, k - 1) +
      if x.port in ignore then [] else EventOf(levels, s, x, Drives(dirs, s, x.port))
  }

  /** The one entry of a report that can call for an event. */
  function CauseOf(e: Event): LineState {
    match e
    case Became(port, output, _) => LineState(port, if output then BecameOutput else BecameInput)
    case Moved(port, high, _) => LineState(port, if high then BecameHigh else BecameLow)
    case ScuNow(port, _) => LineState(port, ScuChanged)
    case Initially(port, _, _) => LineState(port, High)
    case ScuIs(port, _) => LineState(port, Scu)
  }

  /** What the event says besides its cause is what the snapshot shows. */
  predicate Truthful(dirs: Layout, levels: Layout, s: State, e: Event) {
    match e
    case Became(port, _, value) => value == (PortSet(port) in levels && LineBit(levels, s, port))
    case Moved(port, _, driving) => driving == (Listed(dirs, port) && LineBit(dirs, s, port))
    case ScuNow(port, v) => v == if port in s.scu then s.scu[port] else 0
    case _ => false
  }

  lemma EventCaused(dirs: Layout, levels: Layout, s: State, x: LineState, e: Event)
    ensures e in EventOf(levels, s, x, Drives(dirs, s, x.port)) <==> x == CauseOf(e) && Truthful(dirs, levels, s, e)
  {}

  lemma {:induction false} EventsUpTo(dirs: Layout, levels: Layout, s: State, ignore: set<nat>, xs: seq<LineState>,
                                      k: nat, e: Event)
    requires k <= |xs|
    ensures e in Events(dirs, levels, s, ignore, xs, k)
       <==> CauseOf(e) in xs[..k] && CauseOf(e).port !in ignore && Truthful(dirs, levels, s, e)
  {
    if k > 0 {
      EventsUpTo(dirs, levels, s, ignore, xs, k - 1, e);
      EventCaused(dirs, levels, s, xs[k - 1], e);
      assert xs[..k] == xs[..k - 1] + [xs[k - 1]];
    }
  }

  /** What is printed for a report: exactly the truthful events whose causes are in it and not ignored. */
  lemma EventsExact(dirs: Layout, levels: Layout, s: State, ignore: set<nat>, xs: seq<LineState>, e: Event)
    ensures e in Events(dirs, levels, s, ignore, xs, |xs|)
       <==> CauseOf(e) in xs && CauseOf(e).port !in ignore && Truthful(dirs, levels, s, e)
  {
    EventsUpTo(dirs, levels, s, ignore, xs, |xs|, e);
    assert xs[..|xs|] == xs;
  }

  /**
   * The levels printed for a change from `p` to `s`, by name: a line is printed as moved to high or low exactly if it
   * is not ignored and its bit rose or fell, labelled with its direction in `s`.
   */
  lemma LevelsPrinted(p: State, s: State, ignore: set<nat>, dirOrder: seq<uint32>, dataOrder: seq<uint32>, port: nat,
                      driving: bool)
    requires Orders(dirOrder, dataOrder)
    ensures var xs, levels, dirs := Report(s, Some(p), dirOrder, dataOrder), Home(true), Home(false);
            var es := Events(dirs, levels, s, ignore, xs, |xs|);
            && (Moved(port, true, driving) in es
                <==> port !in ignore && Listed(levels, port) && LineBit(levels, s, port) && !LineBit(levels, p, port)
                     && driving == (Listed(dirs, port) && LineBit(dirs, s, port)))
            && (Moved(port, false, driving) in es
                <==> port !in ignore && Listed(levels, port) && !LineBit(levels, s, port) && LineBit(levels, p, port)
                     && driving == (Listed(dirs, port) && LineBit(dirs, s, port)))
  {
    var xs, levels, dirs := Report(s, Some(p), dirOrder, dataOrder), Home(true), Home(false);
    ChangesByName(s, p, dirOrder, dataOrder, port);
    EventsExact(dirs, levels, s, ignore, xs, Moved(port, true, driving));
    EventsExact(dirs, levels, s, ignore, xs, Moved(port, false, driving));
  }

  /** And the directions: a line is printed as become output or input exactly if it turned so, with its level in `s`. */
  lemma TurnsPrinted(p: State, s: State, ignore: set<nat>, dirOrder: seq<uint32>, dataOrder: seq<uint32>, port: nat,
                     high: bool)
    requires Orders(dirOrder, dataOrder)
    ensures var xs, levels, dirs := Report(s, Some(p), dirOrder, dataOrder), Home(true), Home(false);
            var es := Events(dirs, levels, s, ignore, xs, |xs|);
            && (Became(port, true, high) in es
                <==> port !in ignore && Listed(dirs, port) && LineBit(dirs, s, port) && !LineBit(dirs, p, port)
                     && high == (PortSet(port) in levels && LineBit(levels, s, port)))
            && (Became(port, false, high) in es
                <==> port !in ignore && Listed(dirs, port) && !LineBit(dirs, s, port) && LineBit(dirs, p, port)
                     && high == (PortSet(port) in levels && LineBit(levels, s, port)))
  {
    var xs, levels, dirs := Report(s, Some(p), dirOrder, dataOrder), Home(true), Home(false);
    ChangesByName(s, p, dirOrder, dataOrder, port);
    EventsExact(dirs, levels, s, ignore, xs, Became(port, true, high));
    EventsExact(dirs, levels, s, ignore, xs, Became(port, false, high));
  }

  // ---------------------------------------------------------------- right records

  /** Only lines with a direction bit are ever recorded. */
  ghost predicate OnlyListed(dirs: Layout, dir: Dirs) {
    forall port: nat :: port in dir ==> Listed(dirs, port)
  }

  /** A line that has a direction bit and is not ignored. */
  predicate Watched(dirs: Layout, ignore: set<nat>, port: nat) {
    Listed(dirs, port) && port !in ignore
  }

  /** The recorded direction of every watched line is its direction in `p`. */
  ghost predicate TracksIn(dirs: Layout, ignore: set<nat>, dir: Dirs, p: State) {
    forall port: nat :: Watched(dirs, ignore, port) ==> Driving(dir, port) == LineBit(dirs, p, port)
  }

  /** Entry `i` of a report is a line's change of direction from `p` to `s`. */
  ghost predicate TurnAt(dirs: Layout, p: State, s: State, x: LineState) {
    && Listed(dirs, x.port) && x.kind == BecameKind(false, LineBit(dirs, s, x.port))
    && LineBit(dirs, s, x.port) != LineBit(dirs, p, x.port)
  }

  /** A report from `p` to `s` whose first `n` entries are the changes of direction, one for each line that turned. */
  ghost predicate TurnsFirst(dirs: Layout, p: State, s: State, xs: seq<LineState>, n: nat) {
    && n <= |xs|
    && (forall i :: 0 <= i < n ==> TurnAt(dirs, p, s, xs[i]))
    && (forall i :: n <= i < |xs| ==> !IsTurn(xs[i].kind))
    && (forall port: nat :: Listed(dirs, port) && LineBit(dirs, s, port) != LineBit(dirs, p, port) ==>
          exists i :: 0 <= i < n && xs[i].port == port)
  }

  ghost predicate TurnUp(xs: seq<LineState>, n: nat, k: nat, port: nat) {
    exists i :: 0 <= i < n && i < k && i < |xs| && xs[i].port == port
  }

  lemma {:induction false} DirSoFar(dirs: Layout, ignore: set<nat>, dir: Dirs, p: State, s: State, xs: seq<LineState>,
                                    n: nat, k: nat, port: nat)
    requires TurnsFirst(dirs, p, s, xs, n) && k <= |xs| && Watched(dirs, ignore, port)
    ensures Driving(DirAfter(dir, ignore, xs, k), port)
         == if TurnUp(xs, n, k, port) then LineBit(dirs, s, port) else Driving(dir, port)
  {
    if k > 0 {
      DirSoFar(dirs, ignore, dir, p, s, xs, n, k - 1, port);
      if k - 1 < n {
        assert TurnAt(dirs, p, s, xs[k - 1]);
      }
      assert TurnUp(xs, n, k, port) <==> TurnUp(xs, n, k - 1, port) || (k - 1 < n && xs[k - 1].port == port);
    }
  }

  /** Once the turns are through: a line that turned has its new direction, any other the one recorded before. */
  lemma DirOnce(dirs: Layout, ignore: set<nat>, dir: Dirs, p: State, s: State, xs: seq<LineState>, n: nat, k: nat,
                port: nat)
    requires TurnsFirst(dirs, p, s, xs, n) && n <= k <= |xs| && Watched(dirs, ignore, port)
    ensures Driving(DirAfter(dir, ignore, xs, k), port)
         == if LineBit(dirs, s, port) != LineBit(dirs, p, port) then LineBit(dirs, s, port) else Driving(dir, port)
  {
    DirSoFar(dirs, ignore, dir, p, s, xs, n, k, port);
    if TurnUp(xs, n, k, port) {
      var i :| 0 <= i < n && i < k && i < |xs| && xs[i].port == port;
      assert TurnAt(dirs, p, s, xs[i]);
    }
  }

  lemma {:induction false} StaysListed(dirs: Layout, ignore: set<nat>, dir: Dirs, p: State, s: State,
                                       xs: seq<LineState>, n: nat, k: nat)
    requires TurnsFirst(dirs, p, s, xs, n) && k <= |xs| && OnlyListed(dirs, dir)
    ensures OnlyListed(dirs, DirAfter(dir, ignore, xs, k))
  {
    if k > 0 {
      StaysListed(dirs, ignore, dir, p, s, xs, n, k - 1);
      if k - 1 < n {
        assert TurnAt(dirs, p, s, xs[k - 1]);
      }
    }
  }

  /** If the records were right, a change of level comes up when its line's record is right for the new snapshot. */
  lemma LabelRight(dirs: Layout, ignore: set<nat>, dir: Dirs, p: State, s: State, xs: seq<LineState>, n: nat, k: nat)
    requires TurnsFirst(dirs, p, s, xs, n) && n <= k < |xs| && xs[k].port !in ignore
    requires OnlyListed(dirs, dir) && TracksIn(dirs, ignore, dir, p)
    ensures Driving(DirAfter(dir, ignore, xs, k), xs[k].port) == Drives(dirs, s, xs[k].port)
  {
    StaysListed(dirs, ignore, dir, p, s, xs, n, k);
    if Listed(dirs, xs[k].port) {
      assert Watched(dirs, ignore, xs[k].port);
      DirOnce(dirs, ignore, dir, p, s, xs, n, k, xs[k].port);
    }
  }

  lemma {:induction false} LabelsRight(dirs: Layout, levels: Layout, ignore: set<nat>, dir: Dirs, p: State, s: State,
                                       xs: seq<LineState>, n: nat, k: nat)
    requires TurnsFirst(dirs, p, s, xs, n) && k <= |xs|
    requires OnlyListed(dirs, dir) && TracksIn(dirs, ignore, dir, p)
    ensures Printed(dir, levels, s, ignore, xs, k) == Events(dirs, levels, s, ignore, xs, k)
  {
    if k > 0 {
      LabelsRight(dirs, levels, ignore, dir, p, s, xs, n, k - 1);
      EventRight(dirs, levels, ignore, dir, p, s, xs, n, k - 1);
    }
  }

  lemma EventRight(dirs: Layout, levels: Layout, ignore: set<nat>, dir: Dirs, p: State, s: State, xs: seq<LineState>,
                   n: nat, k: nat)
    requires TurnsFirst(dirs, p, s, xs, n) && k < |xs|
    requires OnlyListed(dirs, dir) && TracksIn(dirs, ignore, dir, p)
    ensures xs[k].port !in ignore ==>
              EventOf(levels, s, xs[k], Driving(DirAfter(dir, ignore, xs, k), xs[k].port))
              == EventOf(levels, s, xs[k], Drives(dirs, s, xs[k].port))
  {
    if k < n {
      assert TurnAt(dirs, p, s, xs[k]);
    } else if xs[k].port !in ignore {
      LabelRight(dirs, ignore, dir, p, s, xs, n, k);
    }
  }

  // ---------------------------------------------------------------- one snapshot after another

  /** The comparison finds no difference: everything in `s` is also in `p`. */
  ghost predicate Unnoticed(p: State, s: State) {
    Covers(p.gpio, s.gpio) && Covers(p.scu, s.scu)
  }

  /** Every watched line: what is recorded after `s`, given what was recorded for `p`. */
  ghost predicate Moves(dirs: Layout, ignore: set<nat>, dir: Dirs, p: State, s: State, next: Dirs) {
    forall port: nat :: Watched(dirs, ignore, port) ==>
      Driving(next, port)
      == if !Unnoticed(p, s) && LineBit(dirs, s, port) != LineBit(dirs, p, port) then LineBit(dirs, s, port)
         else Driving(dir, port)
  }

  /** No watched line whose direction register is missing from `s` was an output in `p`. */
  ghost predicate NoOutputDropped(dirs: Layout, ignore: set<nat>, p: State, s: State) {
    forall port: nat :: Watched(dirs, ignore, port) && dirs[PortSet(port)].reg !in s.gpio ==> !LineBit(dirs, p, port)
  }

  /** The snapshot was noticed, or dropped no watched output. */
  ghost predicate Keeps(dirs: Layout, ignore: set<nat>, p: State, s: State) {
    !Unnoticed(p, s) || NoOutputDropped(dirs, ignore, p, s)
  }

  lemma {:induction false} ZeroBits(k: nat)
    ensures !Bit(0, k)
  {
    if k > 0 {
      ZeroBits(k - 1);
    }
  }

  lemma UnnoticedLine(dirs: Layout, p: State, s: State, port: nat)
    requires Unnoticed(p, s) && Listed(dirs, port)
    ensures LineBit(dirs, s, port) == LineBit(dirs, p, port)
       <==> dirs[PortSet(port)].reg in s.gpio || !LineBit(dirs, p, port)
  {
    ZeroBits(dirs[PortSet(port)].bit + PortPin(port));
  }

  /**
   * If the records were right for `p`, they are right for `s` if and only if the change was noticed or no watched
   * output was dropped from the snapshot.
   */
  lemma TracksIff(dirs: Layout, ignore: set<nat>, dir: Dirs, p: State, s: State, next: Dirs)
    requires TracksIn(dirs, ignore, dir, p) && Moves(dirs, ignore, dir, p, s, next)
    ensures TracksIn(dirs, ignore, next, s) <==> Keeps(dirs, ignore, p, s)
  {
    forall port: nat | Watched(dirs, ignore, port)
      ensures Driving(dir, port) == LineBit(dirs, p, port)
      ensures Unnoticed(p, s) ==>
                (LineBit(dirs, s, port) == LineBit(dirs, p, port)
                 <==> dirs[PortSet(port)].reg in s.gpio || !LineBit(dirs, p, port))
    {
      if Unnoticed(p, s) {
        UnnoticedLine(dirs, p, s, port);
      }
    }
  }

  /** A snapshot that shows all the registers of the last one drops nothing. */
  lemma SameRegistersDropNothing(dirs: Layout, ignore: set<nat>, p: State, s: State)
    requires p.gpio.Keys <= s.gpio.Keys
    ensures NoOutputDropped(dirs, ignore, p, s)
  {
    forall port: nat | Watched(dirs, ignore, port) && dirs[PortSet(port)].reg !in s.gpio
      ensures !LineBit(dirs, p, port)
    {
      ZeroBits(dirs[PortSet(port)].bit + PortPin(port));
    }
  }

  /** It happens: line A0 is an output in a snapshot, and the next snapshot is empty. */
  lemma CanGoUnnoticed()
    ensures var p, s := State(map[4 := 1], map[]), State(map[], map[]);
            Unnoticed(p, s) && !NoOutputDropped(Home(false), {}, p, s)
  {
    assert 0 in Home(false) && Home(false)[0] == Place(4, 0, 0, 8);
    DropsFirstLine(Home(false), State(map[4 := 1], map[]), State(map[], map[]));
  }

  lemma DropsFirstLine(dirs: Layout, p: State, s: State)
    requires 0 in dirs && dirs[0] == Place(4, 0, 0, 8) && Get(p.gpio, 4) == 1 && 4 !in s.gpio
    ensures !NoOutputDropped(dirs, {}, p, s)
  {
    assert PortSet(0) == 0 && PortPin(0) == 0;
    assert LineBit(dirs, p, 0) == Bit(1, 0);
    assert Watched(dirs, {}, 0);
  }

  // ---------------------------------------------------------------- reports

  lemma ReportTurnsFirst(p: State, s: State, dirOrder: seq<uint32>, dataOrder: seq<uint32>)
    requires Orders(dirOrder, dataOrder)
    ensures TurnsFirst(Home(false), p, s, Report(s, Some(p), dirOrder, dataOrder),
                       |LinesReport(false, dirOrder, s, Some(p))|)
  {
    LinesReportIs(false, dirOrder, s, Some(p));
    ReportHasParts(s, Some(p), dirOrder, dataOrder);
    TurnsFirstParts(Home(false), p, s, LinesReport(false, dirOrder, s, Some(p)),
                    LinesReport(true, dataOrder, s, Some(p)), ScuReport(SCU_REGS, s, Some(p)));
  }

  lemma TurnsFirstParts(dirs: Layout, p: State, s: State, xs: seq<LineState>, ys: seq<LineState>, zs: seq<LineState>)
    requires Parts(xs, ys, zs, true)
    requires forall x :: x in xs <==>
               && Listed(dirs, x.port)
               && x in LineReport(false, x.port, LineBit(dirs, s, x.port), WasLine(dirs, Some(p), x.port))
    ensures TurnsFirst(dirs, p, s, xs + ys + zs, |xs|)
  {
    var all := xs + ys + zs;
    forall i | 0 <= i < |xs| ensures TurnAt(dirs, p, s, all[i]) {
      assert xs[i] in xs;
    }
    forall i | |xs| <= i < |all| ensures !IsTurn(all[i].kind) {
      assert all[i] in ys || all[i] in zs;
    }
    forall port: nat | Listed(dirs, port) && LineBit(dirs, s, port) != LineBit(dirs, p, port)
      ensures exists i :: 0 <= i < |xs| && all[i].port == port
    {
      var x := LineState(port, BecameKind(false, LineBit(dirs, s, port)));
      assert x in xs;
      var i :| 0 <= i < |xs| && xs[i] == x;
      assert all[i].port == port;
    }
  }

  // ---------------------------------------------------------------- the first snapshot

  /** The lines printed at the start: every listed line, with its level and direction, and nothing else of the kind. */
  ghost predicate Shown(out: seq<Event>, dirs: Layout, levels: Layout, p: State) {
    && (forall port: nat :: Listed(levels, port) ==>
          Initially(port, IsHigh(levels, p, port), Drives(dirs, p, port)) in out)
    && (forall e :: e in out && e.Initially? ==>
          e == Initially(e.port, IsHigh(levels, p, e.port), Drives(dirs, p, e.port)))
  }

  /** A full list shows the snapshot's levels. */
  ghost predicate LevelsIn(list: seq<LineState>, levels: Layout, p: State) {
    && (forall port: nat :: Listed(levels, port) ==> LineState(port, NowKind(true, IsHigh(levels, p, port))) in list)
    && (forall x :: x in list && x.kind in {High, Low} ==> x.kind == NowKind(true, IsHigh(levels, p, x.port)))
  }

  /** A full list shows the snapshot's outputs. */
  ghost predicate OutputsIn(list: seq<LineState>, dirs: Layout, p: State) {
    forall port: nat :: LineState(port, Output) in list <==> Drives(dirs, p, port)
  }

  ghost predicate SameDirections(dir: Dirs, dirs: Layout, p: State) {
    forall port: nat :: Driving(dir, port) == Drives(dirs, p, port)
  }

  /** Exactly the listed outputs are recorded. */
  ghost predicate Recorded(dir: Dirs, list: seq<LineState>) {
    && (forall port: nat :: port in dir <==> LineState(port, Output) in list)
    && (forall port: nat :: port in dir ==> dir[port])
  }

  /** What the first list says about directions. */
  lemma OutputsTold(p: State, dirOrder: seq<uint32>, dataOrder: seq<uint32>, list: seq<LineState>)
    requires Orders(dirOrder, dataOrder) && list == Report(p, None, dirOrder, dataOrder)
    ensures OutputsIn(list, Home(false), p)
  {
    forall port: nat
      ensures LineState(port, Output) in list <==> Drives(Home(false), p, port)
    {
      ListIsExact(p, dirOrder, dataOrder, false, port, true);
    }
  }

  /** What it says about levels. */
  lemma LevelsTold(p: State, dirOrder: seq<uint32>, dataOrder: seq<uint32>, list: seq<LineState>)
    requires Orders(dirOrder, dataOrder) && list == Report(p, None, dirOrder, dataOrder)
    ensures LevelsIn(list, Home(true), p)
  {
    forall port: nat | Listed(Home(true), port)
      ensures LineState(port, NowKind(true, IsHigh(Home(true), p, port))) in list
    {
      ListIsExact(p, dirOrder, dataOrder, true, port, IsHigh(Home(true), p, port));
    }
    forall x | x in list && x.kind in {High, Low}
      ensures x.kind == NowKind(true, IsHigh(Home(true), p, x.port))
    {
      ListIsExact(p, dirOrder, dataOrder, true, x.port, x.kind == High);
    }
  }

  lemma TrackFrom(dirs: Layout, ignore: set<nat>, dir: Dirs, list: seq<LineState>, p: State)
    requires Recorded(dir, list) && OutputsIn(list, dirs, p)
    ensures OnlyListed(dirs, dir) && TracksIn(dirs, ignore, dir, p) && SameDirections(dir, dirs, p)
  {}

  /** Recording the outputs of the first list gives right records. */
  lemma StartsRight(ignore: set<nat>, dir: Dirs, p: State, dirOrder: seq<uint32>, dataOrder: seq<uint32>,
                    list: seq<LineState>)
    requires Orders(dirOrder, dataOrder) && list == Report(p, None, dirOrder, dataOrder) && Recorded(dir, list)
    ensures OnlyListed(Home(false), dir) && TracksIn(Home(false), ignore, dir, p)
    ensures SameDirections(dir, Home(false), p) && LevelsIn(list, Home(true), p)
  {
    OutputsTold(p, dirOrder, dataOrder, list);
    LevelsTold(p, dirOrder, dataOrder, list);
    TrackFrom(Home(false), ignore, dir, list, p);
  }
}
