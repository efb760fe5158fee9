/** Exactly when all pushes are bound to finish, whatever the scheduler does. */
module ButtonsFate {
  import opened Wrappers
  import opened Buttons
  import opened ButtonsLaws
  import opened ButtonsStuck

  /** A physical button's handler is on its way to make the channel. */
  ghost predicate WillAsk(s: State, b: Button) {
    exists j :: 0 <= j < |s.procs| && Asks(s.procs[j], b)
  }

  predicate Asks(p: Proc, b: Button) {
    p.Handler? && p.b == b && (p.at == WantsLock || p.at == Announced)
  }

  /** A call that can still come in before the manager asks for the lock, and find a channel. */
  ghost predicate AtRisk(s: State, i: nat) {
    && RpcAt(s, i, Calling) && s.managers.At(s.procs[i].b).Unregistered?
    && (s.procs[i].b in s.known || WillAsk(s, s.procs[i].b))
  }

  ghost predicate NoneAtRisk(s: State) {
    forall i :: 0 <= i < |s.procs| ==> !AtRisk(s, i)
  }

  ghost predicate Safe(s: State) {
    NoneDoomed(s) && NoneAtRisk(s)
  }

  // ---------------------------------------------------------------- safe states stay safe

  /** A step of the system makes no handler ask that did not ask before. */
  lemma AskedBefore(s: State, a: Action, b: Button, j: nat)
    requires Inv(s) && Can(s, a) && IsProgress(a) && j < |Do(s, a).procs| && Asks(Do(s, a).procs[j], b)
    ensures j < |s.procs| && Asks(s.procs[j], b)
  {
    if !IsApproach(a) {
      SessionAsksNot(s, a, b, j);
    }
  }

  lemma SessionAsksNot(s: State, a: Action, b: Button, j: nat)
    requires Inv(s) && Can(s, a) && IsSession(a) && j < |Do(s, a).procs|
    ensures j < |s.procs| && Asks(Do(s, a).procs[j], b) == Asks(s.procs[j], b)
  {
    assert j < |s.procs| ==> Consistent(s.procs[j]);
  }

  /** Nor does it put a call at risk that was not. */
  lemma NoNewRisk(s: State, a: Action, i: nat)
    requires Inv(s) && Can(s, a) && IsProgress(a) && AtRisk(Do(s, a), i)
    ensures AtRisk(s, i)
  {
    var t := Do(s, a);
    var b := t.procs[i].b;
    SameCall(s, a, i);
    if b in t.known {
      NewlyKnown(s, a, b);
    } else {
      var j :| 0 <= j < |t.procs| && Asks(t.procs[j], b);
      AskedBefore(s, a, b, j);
    }
  }

  lemma SameCall(s: State, a: Action, i: nat)
    requires Inv(s) && Can(s, a) && IsProgress(a) && RpcAt(Do(s, a), i, Calling)
    requires Do(s, a).managers.At(Do(s, a).procs[i].b).Unregistered?
    ensures RpcAt(s, i, Calling) && s.procs[i].b == Do(s, a).procs[i].b && s.managers.At(s.procs[i].b).Unregistered?
  {
    if !IsApproach(a) {
      SessionCallsNot(s, a, i);
    }
  }

  /** Steps of sessions and managers concern no call that has not come in, and no manager that has not registered. */
  lemma SessionCallsNot(s: State, a: Action, i: nat)
    requires Inv(s) && Can(s, a) && IsSession(a) && i < |s.procs|
    ensures var t := Do(s, a);
            && |t.procs| == |s.procs| && t.known == s.known
            && RpcAt(t, i, Calling) == RpcAt(s, i, Calling) && t.procs[i].b == s.procs[i].b
            && t.managers.At(s.procs[i].b).Unregistered? == s.managers.At(s.procs[i].b).Unregistered?
  {
    assert Consistent(s.procs[i]);
  }

  lemma NewlyKnown(s: State, a: Action, b: Button)
    requires Inv(s) && Can(s, a) && IsProgress(a) && b in Do(s, a).known && Do(s, a).managers.At(b).Unregistered?
    ensures b in s.known || WillAsk(s, b)
  {
    if b !in s.known {
      assert a.Register? && a.w.ByHandler?;
      assert Asks(s.procs[a.w.i], b);
    }
  }

  lemma RLockSafe(s: State, i: nat)
    requires Inv(s) && Safe(s) && Can(s, RLock(i))
    ensures NoneDoomed(Do(s, RLock(i)))
  {
    var t := Do(s, RLock(i));
    forall j | 0 <= j < |t.procs| ensures !Doomed(t, j) {
      assert !Doomed(s, j);
      if j == i {
        NewReader(s, i);
      }
    }
  }

  lemma NewReader(s: State, i: nat)
    requires Inv(s) && Can(s, RLock(i)) && !AtRisk(s, i)
    ensures !Doomed(Do(s, RLock(i)), i)
  {
    var b := s.procs[i].b;
    assert s.managers.At(b).Registering? <==> s.writer == Some(ByManager(b));
    if s.managers.At(b).Unregistered? && s.writer.Some? && s.writer.value.ByHandler? {
      var p := s.procs[s.writer.value.i];
      assert HandlerIs(s, s.writer.value.i, Announced);
      assert Asks(p, p.b);
    }
  }

  lemma HandlerQueues(s: State, i: nat)
    requires Inv(s) && NoneDoomed(s) && HandlerIs(s, i, Offering)
    ensures NoneDoomed(Do(s, Enqueue(i)))
  {
    var t := Do(s, Enqueue(i));
    forall j | 0 <= j < |t.procs| ensures !Doomed(t, j) {
      assert !Doomed(s, j);
    }
  }

  /** Whatever step of the system comes next, nobody gets doomed in a safe state. */
  lemma NobodyDoomed(s: State, a: Action)
    requires Inv(s) && Safe(s) && Can(s, a) && IsProgress(a)
    ensures NoneDoomed(Do(s, a))
  {
    if a.RLock? {
      RLockSafe(s, a.i);
    } else if a.Announce? {
      AnnounceSafe(s, a.w);
    } else if a.Register? {
      RegisterSafe(s, a.w);
    } else if a.Accept? {
      AcceptSafe(s, a.i);
    } else if IsInside(a) || a.Cancel? {
      InsideSafe(s, a);
    } else if a.Enqueue? && s.procs[a.i].Handler? {
      HandlerQueues(s, a.i);
    } else {
      assert Reads(s, a.i);
      ReaderSafe(s, a.i, a);
    }
  }

  lemma SafeStays(s: State, a: Action)
    requires Inv(s) && Safe(s) && Can(s, a) && IsProgress(a)
    ensures Safe(Do(s, a))
  {
    NobodyDoomed(s, a);
    forall i | 0 <= i < |Do(s, a).procs| ensures !AtRisk(Do(s, a), i) {
      if AtRisk(Do(s, a), i) {
        NoNewRisk(s, a, i);
      }
    }
  }

  lemma {:induction false} SafeForever(s: State, acts: seq<Action>)
    requires Inv(s) && Safe(s) && IsRun(s, acts) && AllProgress(acts)
    ensures Inv(End(s, acts)) && Safe(End(s, acts))
    decreases |acts|
  {
    if acts != [] {
      SafeStays(s, acts[0]);
      StepKeepsInv(s, acts[0]);
      SafeForever(Do(s, acts[0]), acts[1..]);
    }
  }

  // ---------------------------------------------------------------- a risk can come true

  /** A call at risk stays at risk until it asks for the read lock or its manager for the write lock. */
  lemma RiskStays(s: State, a: Action, i: nat)
    requires Inv(s) && AtRisk(s, i) && Can(s, a) && IsProgress(a)
    requires a != RLock(i) && a != Announce(ByManager(s.procs[i].b))
    ensures AtRisk(Do(s, a), i)
  {
    var t, b := Do(s, a), s.procs[i].b;
    CallStays(s, a, i);
    if b !in t.known {
      var j :| 0 <= j < |s.procs| && Asks(s.procs[j], b);
      AskStays(s, a, b, j);
    }
  }

  lemma CallStays(s: State, a: Action, i: nat)
    requires Inv(s) && Can(s, a) && IsProgress(a) && RpcAt(s, i, Calling) && s.managers.At(s.procs[i].b).Unregistered?
    requires a != RLock(i) && a != Announce(ByManager(s.procs[i].b))
    ensures var t := Do(s, a);
            RpcAt(t, i, Calling) && t.procs[i].b == s.procs[i].b && t.managers.At(s.procs[i].b).Unregistered?
    ensures s.known <= Do(s, a).known
  {
    if !IsApproach(a) {
      SessionCallsNot(s, a, i);
    }
  }

  lemma AskStays(s: State, a: Action, b: Button, j: nat)
    requires Inv(s) && Can(s, a) && IsProgress(a) && j < |s.procs| && Asks(s.procs[j], b) && b !in Do(s, a).known
    ensures j < |Do(s, a).procs| && Asks(Do(s, a).procs[j], b)
  {
    if !IsApproach(a) {
      SessionAsksNot(s, a, b, j);
    }
  }

  /** A call that comes in now is doomed. */
  lemma ComesIn(s: State, i: nat)
    requires Inv(s) && AtRisk(s, i) && WillKnow(s, s.procs[i].b)
    ensures Can(s, RLock(i)) && Doomed(Do(s, RLock(i)), i)
  {
    var b := s.procs[i].b;
    assert s.managers.At(b).Registering? <==> s.writer == Some(ByManager(b));
  }

  /** While another writer is announced, the system can move on without anybody asking for the lock. */
  lemma Drains(s: State) returns (a: Action)
    requires Inv(s) && NoneDoomed(s) && s.writer.Some?
    ensures IsProgress(a) && Can(s, a) && NoneDoomed(Do(s, a)) && !a.RLock? && !a.Announce?
  {
    if b :| s.managers.At(b).Serving? {
      a := ServingCanMove(s, b);
      InsideSafe(s, a);
    } else if i :| i in s.readers {
      a := SafeReader(s, i);
    } else {
      WriterCanMove(s);
      a := Register(s.writer.value);
      RegisterSafe(s, s.writer.value);
    }
  }

  /** Some run of the system dooms a call at risk. */
  lemma {:induction false} RiskComesTrue(s: State, i: nat) returns (acts: seq<Action>)
    requires Inv(s) && NoneDoomed(s) && AtRisk(s, i)
    ensures IsRun(s, acts) && AllProgress(acts) && Doomed(End(s, acts), i)
    decreases Rank(s)
  {
    var b := s.procs[i].b;
    if WillKnow(s, b) {
      ComesIn(s, i);
      RunFrom(s, RLock(i), []);
      acts := [RLock(i)] + [];
    } else {
      var a;
      if s.writer.Some? {
        a := Drains(s);
      } else {
        a := AskNow(s, b);
        AnnounceSafe(s, a.w);
      }
      RiskStays(s, a, i);
      StepKeepsInv(s, a);
      StepLowersRank(s, a);
      var rest := RiskComesTrue(Do(s, a), i);
      RunFrom(s, a, rest);
      acts := [a] + rest;
    }
  }

  lemma AskNow(s: State, b: Button) returns (a: Action)
    requires Inv(s) && s.writer.None? && WillAsk(s, b)
    ensures a.Announce? && a.w.ByHandler? && Can(s, a)
  {
    var j :| 0 <= j < |s.procs| && Asks(s.procs[j], b);
    assert !HandlerIs(s, j, Announced);
    a := Announce(ByHandler(j));
  }

  // ---------------------------------------------------------------- the theorem

  /** No step of the system is possible. */
  ghost predicate AtRest(s: State) {
    forall a :: IsProgress(a) ==> !Can(s, a)
  }

  /** Every run of the system that goes on as long as it can ends with all pushes finished. */
  ghost predicate MustFinish(s: State) {
    forall acts :: IsRun(s, acts) && AllProgress(acts) && AtRest(End(s, acts)) ==> AllFinished(End(s, acts))
  }

  /** Every run comes to rest: no run is longer than the rank, and any can be continued until then. */
  lemma {:induction false} ComesToRest(s: State) returns (acts: seq<Action>)
    requires Inv(s)
    ensures IsRun(s, acts) && AllProgress(acts) && AtRest(End(s, acts))
    decreases Rank(s)
  {
    if a :| IsProgress(a) && Can(s, a) {
      StepKeepsInv(s, a);
      StepLowersRank(s, a);
      var rest := ComesToRest(Do(s, a));
      RunFrom(s, a, rest);
      acts := [a] + rest;
    } else {
      acts := [];
    }
  }

  lemma {:induction false} RunsAreBounded(s: State, acts: seq<Action>)
    requires Inv(s) && IsRun(s, acts) && AllProgress(acts)
    ensures |acts| <= Rank(s)
    decreases |acts|
  {
    if acts != [] {
      StepKeepsInv(s, acts[0]);
      StepLowersRank(s, acts[0]);
      RunsAreBounded(Do(s, acts[0]), acts[1..]);
    }
  }

  lemma {:induction false} Join(s: State, xs: seq<Action>, ys: seq<Action>)
    requires IsRun(s, xs) && IsRun(End(s, xs), ys) && AllProgress(xs) && AllProgress(ys)
    ensures IsRun(s, xs + ys) && End(s, xs + ys) == End(End(s, xs), ys) && AllProgress(xs + ys)
    decreases |xs|
  {
    if xs == [] {
      assert xs + ys == ys;
    } else {
      Join(Do(s, xs[0]), xs[1..], ys);
      assert (xs + ys)[1..] == xs[1..] + ys && (xs + ys)[0] == xs[0];
    }
  }

  lemma DoomedFails(s: State, i: nat)
    requires Inv(s) && Doomed(s, i)
    ensures !MustFinish(s)
  {
    var acts := ComesToRest(s);
    DoomedForever(s, acts, i);
  }

  lemma RiskFails(s: State, i: nat)
    requires Inv(s) && NoneDoomed(s) && AtRisk(s, i)
    ensures !MustFinish(s)
  {
    var xs := RiskComesTrue(s, i);
    RunKeepsInv(s, xs);
    var ys := ComesToRest(End(s, xs));
    DoomedForever(End(s, xs), ys, i);
    Join(s, xs, ys);
  }

  /**
   * Whatever the scheduler does, all pushes will be finished if and only if no RPC is doomed and no call is at risk:
   * none can come in for a button with a channel, made or about to be made, whose manager has not asked for the lock
   * yet.
   */
  lemma MustFinishIff(s: State)
    requires Inv(s)
    ensures MustFinish(s) <==> NoneDoomed(s) && NoneAtRisk(s)
  {
    if !NoneDoomed(s) {
      var i :| 0 <= i < |s.procs| && Doomed(s, i);
      DoomedFails(s, i);
    } else if !NoneAtRisk(s) {
      var i :| 0 <= i < |s.procs| && AtRisk(s, i);
      RiskFails(s, i);
    } else {
      forall acts | IsRun(s, acts) && AllProgress(acts) && AtRest(End(s, acts))
        ensures AllFinished(End(s, acts))
      {
        SafeForever(s, acts);
        if !AllFinished(End(s, acts)) {
          StandsStillOnlyIfDoomed(End(s, acts));
        }
      }
    }
  }
}
