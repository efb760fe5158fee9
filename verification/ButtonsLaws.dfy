/** What the button protocol guarantees over whole runs. */
module ButtonsLaws {
  import opened Buttons

  lemma {:induction false} RunKeepsInv(s: State, acts: seq<Action>)
    requires Inv(s) && IsRun(s, acts)
    ensures Inv(End(s, acts))
    decreases |acts|
  {
    if acts != [] {
      StepKeepsInv(s, acts[0]);
      RunKeepsInv(Do(s, acts[0]), acts[1..]);
    }
  }

  /** `s` is reached from a start with any handlers by some run in which the edges of physical buttons alternate. */
  ghost predicate Reachable(s: State) {
    exists handlers: seq<Button>, inverted: Both<bool>, acts: seq<Action> ::
      IsRun(Init(handlers, inverted, true), acts) && End(Init(handlers, inverted, true), acts) == s
  }

  lemma ReachableInv(s: State)
    requires Reachable(s)
    ensures Inv(s)
  {
    var handlers: seq<Button>, inverted: Both<bool>, acts: seq<Action> :|
      IsRun(Init(handlers, inverted, true), acts) && End(Init(handlers, inverted, true), acts) == s;
    InitInv(handlers, inverted);
    RunKeepsInv(Init(handlers, inverted, true), acts);
  }

  // ---------------------------------------------------------------- the values on a line

  lemma {:induction false} WholeSessionsAlternate(done: seq<seq<bool>>)
    requires forall k :: 0 <= k < |done| ==> Whole(done[k])
    ensures |Concat(done)| % 2 == 0
    ensures forall k :: 0 <= k < |Concat(done)| ==> Concat(done)[k] == (k % 2 == 0)
  {
    if done != [] {
      WholeSessionsAlternate(done[..|done| - 1]);
    }
  }

  lemma CurrentIsPrefix(s: State, b: Button)
    requires Inv(s)
    ensures Current(s.managers.At(b)) in [[], [true], [true, false]]
  {
    var m := s.managers.At(b);
    if m.Serving? && m.ch !in s.closed {
      assert m == Serving(s.procs[m.owner].session.ch, Sent(s.procs[m.owner].session.at), m.owner);
    }
  }

  /**
   * In every interleaving of any number of pushers, a line is driven by whole sessions in turn: presses and releases
   * alternate, starting with a press, and what is there besides the finished sessions is the start of one more. A press
   * drives a line high, or low if it is inverted, and a release the other way.
   */
  lemma SessionsNeverInterleave(s: State, b: Button)
    requires Reachable(s)
    ensures forall k :: 0 <= k < |s.done.At(b)| ==> s.done.At(b)[k] in [[], [true, false]]
    ensures Current(s.managers.At(b)) in [[], [true], [true, false]]
    ensures s.driven.At(b) == Levels(s.inverted.At(b), Concat(s.done.At(b)) + Current(s.managers.At(b)))
    ensures forall k :: 0 <= k < |s.driven.At(b)| ==> s.driven.At(b)[k] == ((k % 2 == 0) != s.inverted.At(b))
  {
    ReachableInv(s);
    assert LineInvAt(s, b);
    CurrentIsPrefix(s, b);
    SessionsAlternate(s.inverted.At(b), s.done.At(b), Current(s.managers.At(b)));
  }

  lemma SessionsAlternate(inverted: bool, done: seq<seq<bool>>, current: seq<bool>)
    requires (forall k :: 0 <= k < |done| ==> Whole(done[k])) && current in [[], [true], [true, false]]
    ensures var vs := Levels(inverted, Concat(done) + current);
            forall k :: 0 <= k < |vs| ==> vs[k] == ((k % 2 == 0) != inverted)
  {
    WholeSessionsAlternate(done);
  }

  /** The level of a line: requested high when its manager starts, then whatever was driven last. */
  function LineLevel(s: State, b: Button): bool {
    var d := s.driven.At(b);
    if d == [] then true else d[|d| - 1]
  }

  /**
   * While a manager waits for its next session, its line is at the released level exactly when the line is inverted
   * or has been pushed before: a line that is not inverted starts out pressed.
   */
  lemma ReleasedWhenWaiting(s: State, b: Button)
    requires Reachable(s) && !s.managers.At(b).Serving?
    ensures LineLevel(s, b) == s.inverted.At(b) <==> s.inverted.At(b) || s.driven.At(b) != []
  {
    SessionsNeverInterleave(s, b);
    ReachableInv(s);
    assert LineInvAt(s, b);
    WholeSessionsAlternate(s.done.At(b));
    var d := s.driven.At(b);
    assert |d| % 2 == 0;
    if d != [] {
      assert d[|d| - 1] == (((|d| - 1) % 2 == 0) != s.inverted.At(b));
    }
  }

  /**
   * First come, first served: the sessions of a button, finished ones and the current one, belong in this order to
   * those who queued up first, and the others are still in line in the order they came.
   */
  lemma ServedInOrder(s: State, b: Button)
    requires Reachable(s)
    ensures s.arrived.At(b) == s.served.At(b) + s.waiting.At(b)
    ensures |s.served.At(b)| == |s.done.At(b)| + (if s.managers.At(b).Serving? then 1 else 0)
    ensures s.managers.At(b).Serving? ==> s.arrived.At(b)[|s.done.At(b)|] == s.managers.At(b).owner
    ensures forall i :: i in s.waiting.At(b) <==> 0 <= i < |s.procs| && s.procs[i].b == b && InLine(s.procs[i])
  {
    ReachableInv(s);
    assert QueueInvAt(s, b);
  }

  // ---------------------------------------------------------------- nobody waits for ever

  /** A step of the system itself, not an edge of a physical button or the arrival of a new call. */
  predicate IsProgress(a: Action) {
    !a.Arrive? && !a.Press? && !a.MissRelease?
  }

  predicate Finished(p: Proc) {
    match p
    case Rpc(_, c, ses) => c.Returned? && !ses.Live?
    case Handler(_, a, _) => a.Idle?
  }

  predicate AllFinished(s: State) {
    forall i :: 0 <= i < |s.procs| ==> Finished(s.procs[i])
  }

  /** The button's manager has registered its channel. */
  predicate RegisteredAt(s: State, b: Button) {
    s.managers.At(b).Waiting? || s.managers.At(b).Serving?
  }

  predicate Registered(s: State) {
    RegisteredAt(s, Power) && RegisteredAt(s, Reset)
  }

  /** The owner of a live session can always move: it never needs the lock. */
  lemma LiveCanMove(s: State, i: nat) returns (a: Action)
    requires Inv(s) && i < |s.procs| && s.procs[i].session.Live?
    ensures a in [Commit(i), SendTrue(i), EndHold(i), SendFalse(i), Close(i)] && Can(s, a)
  {
    match s.procs[i].session.at
    case Start => a := Commit(i);
    case AtTrue => a := SendTrue(i);
    case Holding => a := EndHold(i);
    case AtFalse => a := SendFalse(i);
    case AtClose => a := Close(i);
  }

  /** Steps within a session and at its end. */
  predicate IsInside(a: Action) {
    a.Commit? || a.SendTrue? || a.EndHold? || a.SendFalse? || a.Close? || a.Finish?
  }

  /** The step belongs to the session that the manager of `b` is serving. */
  predicate Serves(s: State, a: Action, b: Button) {
    var m := s.managers.At(b);
    && m.Serving? && IsInside(a)
    && (a.Finish? ==> a.mb == b) && (!a.Finish? ==> a.i == m.owner && m.ch !in s.closed)
  }

  /** A manager that is serving can be served: its session's owner moves, or the closed session ends. */
  lemma ServingCanMove(s: State, b: Button) returns (a: Action)
    requires Inv(s) && s.managers.At(b).Serving?
    ensures IsInside(a) && Can(s, a) && Serves(s, a, b)
  {
    var m := s.managers.At(b);
    if m.ch in s.closed {
      a := Finish(b);
    } else {
      a := LiveCanMove(s, m.owner);
    }
  }

  /** A waiting manager takes the first in line. */
  lemma FirstCanMove(s: State, i: nat) returns (a: Action)
    requires Inv(s) && i < |s.procs| && InLine(s.procs[i]) && s.managers.At(s.procs[i].b).Waiting?
    ensures a.Accept? && Can(s, a) && s.procs[a.i].b == s.procs[i].b
  {
    var b := s.procs[i].b;
    assert QueueInvAt(s, b);
    assert i in s.waiting.At(b);
    assert s.waiting.At(b)[0] in s.waiting.At(b);
    a := Accept(s.waiting.At(b)[0]);
  }

  /** A reader can always move if its button's manager waits, or if it has not come to the channel yet. */
  lemma ReaderCanMove(s: State, i: nat) returns (a: Action)
    requires Inv(s) && i in s.readers && (RpcAt(s, i, Blocked) ==> s.managers.At(s.procs[i].b).Waiting?)
    ensures Can(s, a)
    ensures a in [Granted(i), Lookup(i), RUnlock(i), Enqueue(i)]
         || (a.Accept? && s.procs[i].b == s.procs[a.i].b && RpcAt(s, i, Blocked))
  {
    assert Reads(s, i);
    match s.procs[i].caller
    case Acquiring => a := Granted(i);
    case Locked => a := Lookup(i);
    case Sending => a := Enqueue(i);
    case Blocked => a := FirstCanMove(s, i);
    case Unlocking => a := RUnlock(i);
  }

  lemma WriterCanMove(s: State)
    requires Inv(s) && s.readers == {} && s.writer.Some?
    ensures Can(s, Register(s.writer.value))
  {
    var w := s.writer.value;
    assert w.ByManager? ==> s.managers.At(w.m).Registering?;
    assert w.ByHandler? ==> HandlerIs(s, w.i, Announced);
  }

  /** Once both managers have registered, some step is possible in every state with an unfinished push. */
  lemma NoDeadlock(s: State) returns (a: Action)
    requires Inv(s) && Registered(s) && !AllFinished(s)
    ensures IsProgress(a) && Can(s, a)
  {
    if s.managers.At(Power).Serving? {
      a := ServingCanMove(s, Power);
    } else if s.managers.At(Reset).Serving? {
      a := ServingCanMove(s, Reset);
    } else if i :| i in s.readers {
      a := ReaderCanMove(s, i);
    } else if s.writer.Some? {
      WriterCanMove(s);
      a := Register(s.writer.value);
    } else {
      a := OutsideCanMove(s);
    }
  }

  /** With the lock free and every manager waiting, whoever is unfinished is about to ask for the lock or in line. */
  lemma OutsideCanMove(s: State) returns (a: Action)
    requires Inv(s) && s.managers.power.Waiting? && s.managers.reset.Waiting?
    requires s.readers == {} && s.writer.None? && !AllFinished(s)
    ensures IsProgress(a) && Can(s, a)
  {
    var i :| 0 <= i < |s.procs| && !Finished(s.procs[i]);
    assert s.managers.At(s.procs[i].b).Waiting?;
    assert Consistent(s.procs[i]);
    assert !s.procs[i].session.Live?;
    if s.procs[i].Rpc? {
      assert !Reads(s, i);
      a := RLock(i);
    } else {
      assert !HandlerIs(s, i, Announced);
      if s.procs[i].at.Stalled? {
        a := FirstCanMove(s, i);
      } else {
        a := if s.procs[i].at.WantsLock? then Announce(ByHandler(i)) else Enqueue(i);
      }
    }
  }

  function SessionRank(ses: Session): nat {
    match ses
    case NoSession => 0
    case Over => 0
    case Live(_, p) => (match p case Start => 5 case AtTrue => 4 case Holding => 3 case AtFalse => 2 case AtClose => 1)
  }

  function CallerRank(c: Caller): nat {
    match c
    case Calling => 12
    case Acquiring => 11
    case Locked => 10
    case Sending => 9
    case Blocked => 8
    case Unlocking => 1
    case Returned => 0
  }

  function HandlerRank(a: HandlerAt): nat {
    match a
    case Idle => 0
    case WantsLock => 9
    case Announced => 8
    case Offering => 7
    case Stalled => 6
    case Pushing => 0
  }

  function ProcRank(p: Proc): nat {
    SessionRank(p.session) + if p.Rpc? then CallerRank(p.caller) else HandlerRank(p.at)
  }

  function ManagerRank(m: Manager): nat {
    match m case Unregistered => 3 case Registering => 2 case Serving(_, _, _) => 1 case Waiting => 0
  }

  function ProcsRank(ps: seq<Proc>): nat {
    if ps == [] then 0 else ProcsRank(ps[..|ps| - 1]) + ProcRank(ps[|ps| - 1])
  }

  /** How many steps of the system are left at most. */
  function Rank(s: State): nat {
    ProcsRank(s.procs) + ManagerRank(s.managers.power) + ManagerRank(s.managers.reset)
  }

  lemma {:induction false} RankUpdate(ps: seq<Proc>, i: nat, p: Proc)
    requires i < |ps|
    ensures ProcsRank(ps[i := p]) == ProcsRank(ps) - ProcRank(ps[i]) + ProcRank(p)
  {
    var n := |ps| - 1;
    if i < n {
      RankUpdate(ps[..n], i, p);
      assert ps[i := p][..n] == ps[..n][i := p];
    } else {
      assert ps[i := p][..n] == ps[..n];
    }
  }

  /** The process a step moves, or -1 if it only moves a manager. */
  function Mover(a: Action): int
    requires IsProgress(a)
  {
    if a.Announce? || a.Register? then (if a.w.ByHandler? then a.w.i else -1)
    else if a.Finish? then -1
    else a.i
  }

  /** A step moves at most one process, and takes more off its rank than it adds to a manager's. */
  ghost predicate Lowers(s: State, a: Action)
    requires Can(s, a) && IsProgress(a)
  {
    var t, i := Do(s, a), Mover(a);
    var m, n := ManagerRank(s.managers.power) + ManagerRank(s.managers.reset),
                ManagerRank(t.managers.power) + ManagerRank(t.managers.reset);
    if i < 0 then t.procs == s.procs && n < m
    else
      && i < |s.procs| == |t.procs| && t.procs == s.procs[i := t.procs[i]]
      && ProcRank(t.procs[i]) + n < ProcRank(s.procs[i]) + m
  }

  lemma WriterLowers(s: State, a: Action)
    requires Can(s, a) && (a.Announce? || a.Register?)
    ensures Lowers(s, a)
  {}

  lemma ApproachLowers(s: State, a: Action)
    requires ProcInv(s) && Can(s, a) && IsProgress(a) && IsApproach(a)
    ensures Lowers(s, a)
  {
    if a.Announce? || a.Register? {
      WriterLowers(s, a);
    }
  }

  lemma SessionLowers(s: State, a: Action)
    requires ProcInv(s) && Can(s, a) && IsSession(a)
    ensures Lowers(s, a)
  {}

  lemma StepLowersRank(s: State, a: Action)
    requires ProcInv(s) && Can(s, a) && IsProgress(a)
    ensures Rank(Do(s, a)) < Rank(s)
  {
    if IsApproach(a) {
      ApproachLowers(s, a);
    } else {
      SessionLowers(s, a);
    }
    if Mover(a) >= 0 {
      RankUpdate(s.procs, Mover(a), Do(s, a).procs[Mover(a)]);
    }
  }

  lemma StepKeepsRegistered(s: State, a: Action, b: Button)
    requires Inv(s) && RegisteredAt(s, b) && Can(s, a)
    ensures RegisteredAt(Do(s, a), b)
  {}

  ghost predicate AllProgress(acts: seq<Action>) {
    forall k :: 0 <= k < |acts| ==> IsProgress(acts[k])
  }

  /**
   * From any registered state, every run without new arrivals takes at most Rank steps, and where it cannot be
   * continued every push has been finished.
   */
  lemma {:induction false} EveryPushFinishes(s: State, acts: seq<Action>)
    requires Inv(s) && Registered(s) && IsRun(s, acts) && AllProgress(acts)
    ensures |acts| <= Rank(s)
    ensures (forall a :: IsProgress(a) ==> !Can(End(s, acts), a)) ==> AllFinished(End(s, acts))
    decreases |acts|
  {
    if acts == [] {
      if !AllFinished(s) {
        var a := NoDeadlock(s);
      }
    } else {
      var t := Do(s, acts[0]);
      StepKeepsInv(s, acts[0]);
      StepKeepsRegistered(s, acts[0], Power);
      StepKeepsRegistered(s, acts[0], Reset);
      StepLowersRank(s, acts[0]);
      EveryPushFinishes(t, acts[1..]);
    }
  }

  lemma {:induction false} RunFrom(s: State, a: Action, rest: seq<Action>)
    requires Can(s, a) && IsRun(Do(s, a), rest)
    ensures IsRun(s, [a] + rest) && End(s, [a] + rest) == End(Do(s, a), rest)
    ensures IsProgress(a) && AllProgress(rest) ==> AllProgress([a] + rest)
  {
    assert ([a] + rest)[1..] == rest;
  }
}
