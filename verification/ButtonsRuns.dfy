/** What the steps taken in a run say about the state at its end: whose pushes were served, and how each one ended. */
module ButtonsRuns {
  import opened Buttons
  import opened ButtonsLaws

  /** `t` has the processes of `s`, moved or not, and perhaps more calls. */
  ghost predicate SameProcs(s: State, t: State) {
    && |s.procs| <= |t.procs|
    && (forall i :: 0 <= i < |s.procs| ==> t.procs[i].b == s.procs[i].b && (t.procs[i].Rpc? <==> s.procs[i].Rpc?))
    && (forall i :: |s.procs| <= i < |t.procs| ==> t.procs[i].Rpc?)
  }

  // ---------------------------------------------------------------- how often a process queues up

  /** The process is on its way to the channel's line, with a push it has not queued up for yet. */
  predicate OnTheWay(p: Proc) {
    p.Handler? && p.at in {WantsLock, Announced, Offering}
  }

  /** A call queues up at most once. */
  predicate QueuedUp(p: Proc) {
    p.Rpc? && (p.caller.Blocked? || !p.session.NoSession?)
  }

  ghost predicate InRange(s: State, b: Button) {
    forall i :: i in s.arrived.At(b) ==> i < |s.procs| && s.procs[i].b == b
  }

  /** The press edges of a physical button, those that came without a release before them included. */
  function Edges(past: seq<Action>, i: nat): nat {
    multiset(past)[Press(i)] + multiset(past)[MissRelease(i)]
  }

  /** Process `i` has queued up as often as it was asked to, but for the push it may have in hand. */
  ghost predicate Comes(s: State, past: seq<Action>, i: nat)
    requires i < |s.procs|
  {
    var p := s.procs[i];
    var n := multiset(s.arrived.At(p.b))[i];
    if p.Rpc? then n == (if QueuedUp(p) then 1 else 0)
    else Edges(past, i) == n + (if OnTheWay(p) then 1 else 0)
  }

  ghost predicate ComesInv(s: State, past: seq<Action>) {
    && InRange(s, Power) && InRange(s, Reset)
    && (forall i :: 0 <= i < |s.procs| ==> Comes(s, past, i))
  }

  /** The process a step moves, or -1 if it only moves a manager or adds a process. */
  function Actor(a: Action): int {
    if a.Arrive? then -1 else if a.Press? || a.MissRelease? then a.i else Mover(a)
  }

  /** A step moves only its actor, and only queueing up adds to the arrivals. */
  ghost predicate Frame(s: State, a: Action, t: State) {
    && SameProcs(s, t)
    && (forall i :: 0 <= i < |s.procs| && i != Actor(a) ==> t.procs[i] == s.procs[i])
    && (forall i :: |s.procs| <= i < |t.procs| ==> !QueuedUp(t.procs[i]))
    && (Actor(a) >= 0 ==> Actor(a) < |s.procs|)
  }

  lemma Arrivals(s: State, a: Action, b: Button)
    requires Can(s, a)
    ensures Do(s, a).arrived.At(b)
         == s.arrived.At(b) + if a.Enqueue? && s.procs[a.i].b == b then [a.i] else []
  {}

  lemma WriterFrame(s: State, a: Action)
    requires Can(s, a) && (a.Announce? || a.Register?)
    ensures Frame(s, a, Do(s, a))
  {}

  lemma ApproachFrame(s: State, a: Action)
    requires Can(s, a) && (IsApproach(a) || a.MissRelease?)
    ensures Frame(s, a, Do(s, a))
  {
    if a.Announce? || a.Register? {
      WriterFrame(s, a);
    }
  }

  lemma SessionFrame(s: State, a: Action)
    requires Can(s, a) && IsSession(a)
    ensures Frame(s, a, Do(s, a))
  {}

  lemma StepFrame(s: State, a: Action)
    requires Can(s, a)
    ensures Frame(s, a, Do(s, a))
  {
    if IsSession(a) {
      SessionFrame(s, a);
    } else {
      ApproachFrame(s, a);
    }
  }

  /** Whoever does not move has queued up as often as before, and was not pressed. */
  lemma OthersCome(s: State, past: seq<Action>, a: Action, i: nat)
    requires Can(s, a) && i < |s.procs| && i != Actor(a) && Comes(s, past, i)
    ensures i < |Do(s, a).procs| && Comes(Do(s, a), past + [a], i)
  {
    StepFrame(s, a);
    Arrivals(s, a, s.procs[i].b);
  }

  lemma ActorComes(s: State, past: seq<Action>, a: Action, i: nat)
    requires ProcInv(s) && Can(s, a) && i == Actor(a) && i < |s.procs| && Comes(s, past, i)
    ensures i < |Do(s, a).procs| && Comes(Do(s, a), past + [a], i)
  {
    Arrivals(s, a, s.procs[i].b);
    assert Consistent(s.procs[i]);
    if IsSession(a) {
      assert Edges(past + [a], i) == Edges(past, i);
    } else if a.MissRelease? {
      MissComes(s, past, i);
    } else if a.Announce? || a.Register? {
      WriterComes(s, past, a, i);
    } else if a.Press? {
      PressComes(s, past, i);
    } else if a.Enqueue? {
      EnqueueComes(s, past, i);
    } else {
      CallComes(s, past, a, i);
    }
  }

  lemma WriterComes(s: State, past: seq<Action>, a: Action, i: nat)
    requires Can(s, a) && (a.Announce? || a.Register?) && i == Actor(a) && i < |s.procs| && Comes(s, past, i)
    ensures i < |Do(s, a).procs| && Comes(Do(s, a), past + [a], i)
  {
    Arrivals(s, a, s.procs[i].b);
    assert Edges(past + [a], i) == Edges(past, i);
  }

  lemma PressComes(s: State, past: seq<Action>, i: nat)
    requires Can(s, Press(i)) && Comes(s, past, i)
    ensures Comes(Do(s, Press(i)), past + [Press(i)], i)
  {
    assert Edges(past + [Press(i)], i) == Edges(past, i) + 1;
  }

  lemma MissComes(s: State, past: seq<Action>, i: nat)
    requires Can(s, MissRelease(i)) && Comes(s, past, i)
    ensures Comes(Do(s, MissRelease(i)), past + [MissRelease(i)], i)
  {
    assert Edges(past + [MissRelease(i)], i) == Edges(past, i) + 1;
  }

  lemma EnqueueComes(s: State, past: seq<Action>, i: nat)
    requires i < |s.procs| && Consistent(s.procs[i]) && Can(s, Enqueue(i)) && Comes(s, past, i)
    ensures Comes(Do(s, Enqueue(i)), past + [Enqueue(i)], i)
  {
    Arrivals(s, Enqueue(i), s.procs[i].b);
    assert Edges(past + [Enqueue(i)], i) == Edges(past, i);
  }

  lemma CallComes(s: State, past: seq<Action>, a: Action, i: nat)
    requires Can(s, a) && (a.RLock? || a.Granted? || a.Lookup? || a.RUnlock?)
    requires i == a.i && i < |s.procs| && Consistent(s.procs[i]) && Comes(s, past, i)
    ensures i < |Do(s, a).procs| && Comes(Do(s, a), past + [a], i)
  {}

  lemma StepComes(s: State, past: seq<Action>, a: Action)
    requires ProcInv(s) && ComesInv(s, past) && Can(s, a)
    ensures ComesInv(Do(s, a), past + [a])
  {
    var t := Do(s, a);
    StepFrame(s, a);
    Arrivals(s, a, Power);
    Arrivals(s, a, Reset);
    forall i | 0 <= i < |t.procs| ensures Comes(t, past + [a], i) {
      if i < |s.procs| {
        assert Comes(s, past, i);
        if i == Actor(a) {
          ActorComes(s, past, a, i);
        } else {
          OthersCome(s, past, a, i);
        }
      } else {
        NewcomerComes(s, past, a, i);
      }
    }
  }

  lemma NewcomerComes(s: State, past: seq<Action>, a: Action, i: nat)
    requires InRange(s, Power) && InRange(s, Reset) && Can(s, a) && |s.procs| <= i < |Do(s, a).procs|
    ensures Comes(Do(s, a), past + [a], i)
  {
    StepFrame(s, a);
    Arrivals(s, a, Do(s, a).procs[i].b);
    assert i !in s.arrived.At(Do(s, a).procs[i].b);
  }

  // ---------------------------------------------------------------- which sessions were cancelled

  /** Call `i` is done with its session. */
  predicate IsOver(s: State, i: nat) {
    i < |s.procs| && s.procs[i].Rpc? && s.procs[i].session.Over?
  }

  ghost predicate Over(s: State, i: nat) {
    i < |s.procs| && (s.procs[i].Rpc? ==> IsOver(s, i))
  }

  /** The closed sessions of a button that drove nothing are those that were cancelled. */
  ghost predicate EndsAt(s: State, past: seq<Action>, b: Button) {
    var m, done, served := s.managers.At(b), s.done.At(b), s.served.At(b);
    && |done| <= |served|
    && (forall k :: 0 <= k < |served| ==> served[k] < |s.procs| && s.procs[served[k]].b == b)
    && (forall k :: 0 <= k < |done| ==> Over(s, served[k]) && (done[k] == [] <==> Cancel(served[k]) in past))
    && (m.Serving? && m.ch in s.closed ==> Over(s, m.owner) && (m.seen == [] <==> Cancel(m.owner) in past))
  }

  ghost predicate EndsInv(s: State, past: seq<Action>) {
    && EndsAt(s, past, Power) && EndsAt(s, past, Reset)
    && forall i: nat {:trigger Cancel(i)} :: Cancel(i) in past ==> IsOver(s, i)
  }

  lemma OverStays(s: State, a: Action, i: nat)
    requires ProcInv(s) && OwnerInv(s) && Can(s, a) && Over(s, i)
    ensures Over(Do(s, a), i)
  {
    StepFrame(s, a);
    assert Consistent(s.procs[i]);
  }

  /** Steps that neither begin a session nor end one. */
  predicate IsMiddle(a: Action) {
    !a.Accept? && !a.Cancel? && !a.Close? && !a.Finish?
  }

  lemma MiddleFrame(s: State, a: Action, b: Button)
    requires Inv(s) && Can(s, a) && IsMiddle(a)
    ensures var t := Do(s, a);
            && t.done == s.done && t.served == s.served && t.closed == s.closed
            && (t.managers.At(b).Serving? ==> s.managers.At(b).Serving? && t.managers.At(b).ch == s.managers.At(b).ch)
            && (t.managers.At(b).Serving? && t.managers.At(b).ch in t.closed ==> t.managers.At(b) == s.managers.At(b))
  {}

  lemma MiddleEnds(s: State, past: seq<Action>, a: Action, b: Button)
    requires Inv(s) && EndsAt(s, past, b) && Can(s, a) && IsMiddle(a)
    ensures EndsAt(Do(s, a), past + [a], b)
  {
    MiddleFrame(s, a, b);
    StepFrame(s, a);
    OversStay(s, past, a, b);
  }

  lemma OversStay(s: State, past: seq<Action>, a: Action, b: Button)
    requires ProcInv(s) && OwnerInv(s) && EndsAt(s, past, b) && Can(s, a)
    ensures forall k :: 0 <= k < |s.done.At(b)| ==> Over(Do(s, a), s.served.At(b)[k])
    ensures s.managers.At(b).Serving? && s.managers.At(b).ch in s.closed ==> Over(Do(s, a), s.managers.At(b).owner)
  {
    forall k | 0 <= k < |s.done.At(b)| ensures Over(Do(s, a), s.served.At(b)[k]) {
      OverStays(s, a, s.served.At(b)[k]);
    }
    if s.managers.At(b).Serving? && s.managers.At(b).ch in s.closed {
      OverStays(s, a, s.managers.At(b).owner);
    }
  }

  lemma AcceptEnds(s: State, past: seq<Action>, i: nat, b: Button)
    requires ProcInv(s) && OwnerInv(s) && ServingInv(s) && TurnsOkAt(s, b) && EndsAt(s, past, b) && Can(s, Accept(i))
    ensures EndsAt(Do(s, Accept(i)), past + [Accept(i)], b)
  {
    StepFrame(s, Accept(i));
    OversStay(s, past, Accept(i), b);
  }

  lemma CloseEnds(s: State, past: seq<Action>, i: nat, a: Action, b: Button)
    requires ProcInv(s) && OwnerInv(s) && ServingInv(s) && EndsAt(s, past, b)
    requires Can(s, a) && (a == Cancel(i) || a == Close(i)) && Cancel(i) !in past
    ensures EndsAt(Do(s, a), past + [a], b)
  {
    StepFrame(s, a);
    OversStay(s, past, a, b);
  }

  lemma FinishEnds(s: State, past: seq<Action>, mb: Button, b: Button)
    requires ProcInv(s) && OwnerInv(s) && TurnsOkAt(s, b) && EndsAt(s, past, b) && Can(s, Finish(mb))
    ensures EndsAt(Do(s, Finish(mb)), past + [Finish(mb)], b)
  {
    StepFrame(s, Finish(mb));
    OversStay(s, past, Finish(mb), b);
  }

  lemma StepEnds(s: State, past: seq<Action>, a: Action)
    requires Inv(s) && EndsInv(s, past) && Can(s, a)
    ensures EndsInv(Do(s, a), past + [a])
  {
    forall b: Button ensures EndsAt(Do(s, a), past + [a], b) {
      assert EndsAt(s, past, b) && TurnsOkAt(s, b);
      if IsMiddle(a) {
        MiddleEnds(s, past, a, b);
      } else if a.Accept? {
        AcceptEnds(s, past, a.i, b);
      } else if a.Finish? {
        FinishEnds(s, past, a.mb, b);
      } else {
        CloseEnds(s, past, a.i, a, b);
      }
    }
    KeepsCancelled(s, past, a);
  }

  lemma KeepsCancelled(s: State, past: seq<Action>, a: Action)
    requires Inv(s) && EndsInv(s, past) && Can(s, a)
    ensures forall i: nat {:trigger Cancel(i)} :: Cancel(i) in past + [a] ==> IsOver(Do(s, a), i)
  {
    forall i: nat | Cancel(i) in past + [a] ensures IsOver(Do(s, a), i) {
      if Cancel(i) in past {
        OverStays(s, a, i);
        StepFrame(s, a);
      } else {
        assert a == Cancel(i);
      }
    }
  }

  // ---------------------------------------------------------------- who was turned away

  /** The call has come past its lookup of the channel. */
  predicate LookedUp(p: Proc) {
    p.Rpc? && p.caller in {Sending, Blocked, Unlocking, Returned}
  }

  /** The step registers a channel for `b`: its manager does, or a handler of the button. */
  predicate Makes(procs: seq<Proc>, a: Action, b: Button) {
    && a.Register?
    && match a.w
       case ByManager(m) => m == b
       case ByHandler(i) => i < |procs| && procs[i].Handler? && procs[i].b == b
  }

  /** A call has looked up the channel exactly when it is past that place, and a channel is there once registered. */
  ghost predicate LooksInv(s: State, past: seq<Action>) {
    && (forall i: nat {:trigger Lookup(i)} :: Lookup(i) in past <==> i < |s.procs| && LookedUp(s.procs[i]))
    && (forall b :: b in s.known <==> exists a :: a in past && Makes(s.procs, a, b))
  }

  lemma StepLooks(s: State, past: seq<Action>, a: Action)
    requires ProcInv(s) && LooksInv(s, past) && Can(s, a)
    ensures LooksInv(Do(s, a), past + [a])
  {
    var t := Do(s, a);
    StepFrame(s, a);
    forall i: nat ensures Lookup(i) in past + [a] <==> i < |t.procs| && LookedUp(t.procs[i]) {
      if i < |s.procs| {
        assert Consistent(s.procs[i]);
        ActorLooks(s, a, i);
      }
    }
    forall b: Button ensures b in t.known <==> exists x :: x in past + [a] && Makes(t.procs, x, b) {
      StepKnows(s, past, a, b);
    }
  }

  lemma ActorLooks(s: State, a: Action, i: nat)
    requires i < |s.procs| && Consistent(s.procs[i]) && Can(s, a)
    ensures i < |Do(s, a).procs|
    ensures LookedUp(Do(s, a).procs[i]) <==> LookedUp(s.procs[i]) || a == Lookup(i)
  {
    StepFrame(s, a);
    if i == Actor(a) && IsSession(a) {
      SessionLooks(s, a, i);
    }
  }

  lemma SessionLooks(s: State, a: Action, i: nat)
    requires i < |s.procs| && Consistent(s.procs[i]) && Can(s, a) && IsSession(a) && i == Actor(a)
    ensures i < |Do(s, a).procs|
    ensures LookedUp(Do(s, a).procs[i]) <==> LookedUp(s.procs[i])
  {}

  lemma Knows(s: State, a: Action)
    requires Can(s, a)
    ensures forall b :: b in Do(s, a).known <==> b in s.known || Makes(s.procs, a, b)
  {}

  lemma StepKnows(s: State, past: seq<Action>, a: Action, b: Button)
    requires LooksInv(s, past) && Can(s, a)
    ensures b in Do(s, a).known <==> exists x :: x in past + [a] && Makes(Do(s, a).procs, x, b)
  {
    var t := Do(s, a);
    StepFrame(s, a);
    Knows(s, a);
    assert forall x :: x in past ==> x in past + [a] && (Makes(s.procs, x, b) <==> Makes(t.procs, x, b));
    if Makes(s.procs, a, b) {
      assert a in past + [a] && Makes(t.procs, a, b);
    }
  }

  // ---------------------------------------------------------------- a button is held down in between

  predicate InHold(p: Proc) {
    p.session.Live? && p.session.at.Holding?
  }

  predicate AfterHold(p: Proc) {
    p.session.Live? && p.session.at.AtFalse?
  }

  /** Each press of a process is followed by the end of a hold, and that by a release. */
  ghost predicate Holds(s: State, past: seq<Action>, i: nat) {
    var holds := multiset(past)[EndHold(i)];
    && multiset(past)[SendTrue(i)] == holds + (if i < |s.procs| && InHold(s.procs[i]) then 1 else 0)
    && holds == multiset(past)[SendFalse(i)] + (if i < |s.procs| && AfterHold(s.procs[i]) then 1 else 0)
  }

  ghost predicate HoldsInv(s: State, past: seq<Action>) {
    && (forall i: nat :: Holds(s, past, i))
    && (forall i: nat {:trigger MissRelease(i)} :: MissRelease(i) !in past)
  }

  lemma ActorHolds(s: State, past: seq<Action>, a: Action, i: nat)
    requires i < |s.procs| && Consistent(s.procs[i]) && Can(s, a) && i == Actor(a) && !a.MissRelease?
    requires Holds(s, past, i)
    ensures Holds(Do(s, a), past + [a], i)
  {
    var t := Do(s, a);
    if a.SendTrue? || a.EndHold? || a.SendFalse? {
      assert multiset(past + [a]) == multiset(past) + multiset{a};
    } else {
      ActorElsewhere(s, a, i);
    }
  }

  lemma ActorElsewhere(s: State, a: Action, i: nat)
    requires i < |s.procs| && Consistent(s.procs[i]) && Can(s, a) && i == Actor(a)
    requires !a.MissRelease? && !a.SendTrue? && !a.EndHold? && !a.SendFalse?
    ensures var t := Do(s, a);
            && i < |t.procs| && (InHold(t.procs[i]) <==> InHold(s.procs[i]))
            && (AfterHold(t.procs[i]) <==> AfterHold(s.procs[i]))
  {}

  lemma StepHolds(s: State, past: seq<Action>, a: Action)
    requires s.alternating && ProcInv(s) && HoldsInv(s, past) && Can(s, a)
    ensures HoldsInv(Do(s, a), past + [a])
  {
    forall i: nat ensures Holds(Do(s, a), past + [a], i) {
      assert Holds(s, past, i);
      StepFrame(s, a);
      if i == Actor(a) {
        assert Consistent(s.procs[i]);
        ActorHolds(s, past, a, i);
      } else {
        OthersHold(s, past, a, i);
      }
    }
  }

  lemma OthersHold(s: State, past: seq<Action>, a: Action, i: nat)
    requires Can(s, a) && i != Actor(a) && Holds(s, past, i)
    ensures Holds(Do(s, a), past + [a], i)
  {
    StepFrame(s, a);
  }

  // ---------------------------------------------------------------- until when a push can be cancelled

  /** The call's push was begun or cancelled. */
  predicate Decided(p: Proc) {
    p.Rpc? && (p.session.Over? || (p.session.Live? && p.session.at != Start))
  }

  ghost predicate DecidedInv(s: State, past: seq<Action>) {
    forall i: nat {:trigger Commit(i)} {:trigger Cancel(i)} ::
      Commit(i) in past || Cancel(i) in past <==> i < |s.procs| && Decided(s.procs[i])
  }

  lemma ActorDecides(s: State, a: Action, i: nat)
    requires i < |s.procs| && Consistent(s.procs[i]) && Can(s, a) && i == Actor(a)
    ensures i < |Do(s, a).procs|
    ensures Decided(Do(s, a).procs[i]) <==> Decided(s.procs[i]) || a == Commit(i) || a == Cancel(i)
  {}

  lemma StepDecides(s: State, past: seq<Action>, a: Action)
    requires ProcInv(s) && DecidedInv(s, past) && Can(s, a)
    ensures DecidedInv(Do(s, a), past + [a])
  {
    var t := Do(s, a);
    StepFrame(s, a);
    forall i: nat ensures Commit(i) in past + [a] || Cancel(i) in past + [a] <==> i < |t.procs| && Decided(t.procs[i]) {
      assert Commit(i) in past || Cancel(i) in past <==> i < |s.procs| && Decided(s.procs[i]);
      if i == Actor(a) {
        assert Consistent(s.procs[i]);
        ActorDecides(s, a, i);
      }
    }
  }

  // ---------------------------------------------------------------- over whole runs

  /** What the steps so far say about the state. */
  ghost predicate Tells(s: State, past: seq<Action>) {
    && Inv(s) && ComesInv(s, past) && EndsInv(s, past)
    && LooksInv(s, past) && DecidedInv(s, past) && HoldsInv(s, past)
  }

  lemma StepTells(s: State, past: seq<Action>, a: Action)
    requires Tells(s, past) && Can(s, a)
    ensures Tells(Do(s, a), past + [a])
  {
    StepKeepsInv(s, a);
    StepComes(s, past, a);
    StepEnds(s, past, a);
    StepLooks(s, past, a);
    StepDecides(s, past, a);
    StepHolds(s, past, a);
  }

  lemma {:induction false} RunTells(s: State, past: seq<Action>, acts: seq<Action>, all: seq<Action>)
    requires Tells(s, past) && IsRun(s, acts) && all == past + acts
    ensures Tells(End(s, acts), all)
    decreases |acts|
  {
    if acts == [] {
      assert all == past;
    } else {
      StepTells(s, past, acts[0]);
      Regroup(past, acts);
      RunTells(Do(s, acts[0]), past + [acts[0]], acts[1..], all);
    }
  }

  lemma Regroup(past: seq<Action>, acts: seq<Action>)
    requires acts != []
    ensures past + acts == past + [acts[0]] + acts[1..]
  {}

  lemma StartTells(handlers: seq<Button>, inverted: Both<bool>)
    ensures Tells(Init(handlers, inverted, true), [])
  {
    InitInv(handlers, inverted);
    StartComes(handlers, inverted, true);
    StartLooks(handlers, inverted);
  }

  lemma StartComes(handlers: seq<Button>, inverted: Both<bool>, alternating: bool)
    ensures ComesInv(Init(handlers, inverted, alternating), [])
  {
    var s := Init(handlers, inverted, alternating);
    forall i | 0 <= i < |s.procs| ensures Comes(s, [], i) {
      assert s.procs[i] == Handler(handlers[i], Idle, NoSession);
    }
  }

  lemma StartLooks(handlers: seq<Button>, inverted: Both<bool>)
    ensures LooksInv(Init(handlers, inverted, true), []) && EndsInv(Init(handlers, inverted, true), [])
    ensures DecidedInv(Init(handlers, inverted, true), []) && HoldsInv(Init(handlers, inverted, true), [])
  {}

  lemma FromStart(handlers: seq<Button>, inverted: Both<bool>, acts: seq<Action>)
    requires IsRun(Init(handlers, inverted, true), acts)
    ensures Tells(End(Init(handlers, inverted, true), acts), acts)
  {
    StartTells(handlers, inverted);
    RunTells(Init(handlers, inverted, true), [], acts, acts);
  }

  /**
   * In every run, a finished session pressed and released its button, unless it was cancelled; then it did nothing.
   */
  lemma CancelledOrPushed(handlers: seq<Button>, inverted: Both<bool>, acts: seq<Action>, b: Button, k: nat)
    requires IsRun(Init(handlers, inverted, true), acts)
    requires k < |End(Init(handlers, inverted, true), acts).done.At(b)|
    ensures var s := End(Init(handlers, inverted, true), acts);
            && k < |s.served.At(b)|
            && s.done.At(b)[k] == if Cancel(s.served.At(b)[k]) in acts then [] else [true, false]
  {
    FromStart(handlers, inverted, acts);
    var s := End(Init(handlers, inverted, true), acts);
    assert EndsAt(s, acts, b) && LineInvAt(s, b);
  }

  /** In every run, a process that is not in a hold has ended one for each press, and each release came after one. */
  lemma HeldBetween(handlers: seq<Button>, inverted: Both<bool>, acts: seq<Action>, i: nat)
    requires IsRun(Init(handlers, inverted, true), acts)
    requires i < |End(Init(handlers, inverted, true), acts).procs|
    ensures var p := End(Init(handlers, inverted, true), acts).procs[i];
            && multiset(acts)[SendTrue(i)] == multiset(acts)[EndHold(i)] + (if InHold(p) then 1 else 0)
            && multiset(acts)[EndHold(i)] == multiset(acts)[SendFalse(i)] + (if AfterHold(p) then 1 else 0)
  {
    FromStart(handlers, inverted, acts);
    assert Holds(End(Init(handlers, inverted, true), acts), acts, i);
  }

  lemma {:induction false} RunComes(s: State, past: seq<Action>, acts: seq<Action>, all: seq<Action>)
    requires ProcInv(s) && ComesInv(s, past) && IsRun(s, acts) && all == past + acts
    ensures ComesInv(End(s, acts), all)
    decreases |acts|
  {
    if acts == [] {
      assert all == past;
    } else {
      StepComes(s, past, acts[0]);
      KeepsProc(s, acts[0]);
      Regroup(past, acts);
      RunComes(Do(s, acts[0]), past + [acts[0]], acts[1..], all);
    }
  }

  /** In every run, missed releases or not, a physical button queues up once for each press edge. */
  lemma EveryEdgeQueues(handlers: seq<Button>, inverted: Both<bool>, alternating: bool, acts: seq<Action>, i: nat)
    requires IsRun(Init(handlers, inverted, alternating), acts)
    requires var s := End(Init(handlers, inverted, alternating), acts); i < |s.procs| && s.procs[i].Handler?
    ensures var s := End(Init(handlers, inverted, alternating), acts);
            multiset(acts)[Press(i)] + multiset(acts)[MissRelease(i)]
            == multiset(s.arrived.At(s.procs[i].b))[i] + if OnTheWay(s.procs[i]) then 1 else 0
  {
    StartComes(handlers, inverted, alternating);
    RunComes(Init(handlers, inverted, alternating), [], acts, acts);
    assert Comes(End(Init(handlers, inverted, alternating), acts), acts, i);
  }

  /** In every run, a call's push can be cancelled exactly from its turn until it is begun. */
  lemma CancelOpenIff(handlers: seq<Button>, inverted: Both<bool>, acts: seq<Action>, i: nat)
    requires IsRun(Init(handlers, inverted, true), acts)
    requires i < |End(Init(handlers, inverted, true), acts).procs|
    requires End(Init(handlers, inverted, true), acts).procs[i].Rpc?
    ensures var s := End(Init(handlers, inverted, true), acts);
            Can(s, Cancel(i)) <==>
              i in s.served.At(s.procs[i].b) && Commit(i) !in acts && Cancel(i) !in acts
  {
    FromStart(handlers, inverted, acts);
    var s := End(Init(handlers, inverted, true), acts);
    assert Comes(s, acts, i);
    Turns(s, acts, i);
  }

  lemma Turns(s: State, past: seq<Action>, i: nat)
    requires Inv(s) && i < |s.procs| && s.procs[i].Rpc? && Comes(s, past, i)
    ensures i in s.served.At(s.procs[i].b) <==> !s.procs[i].session.NoSession?
  {
    var b := s.procs[i].b;
    assert QueueInvAt(s, b) && Consistent(s.procs[i]);
    assert i in s.waiting.At(b) <==> i in multiset(s.waiting.At(b));
    assert i in s.served.At(b) <==> i in multiset(s.served.At(b));
  }

  lemma LineEmpty(procs: seq<Proc>, line: seq<nat>, b: Button)
    ensures LineUp(procs, line, b) && (forall i :: 0 <= i < |procs| ==> Finished(procs[i])) ==> line == []
  {
    if LineUp(procs, line, b) && line != [] {
      assert line[0] in line;
    }
  }

  /**
   * In every run that ends with all pushes finished, a button's handler has had a turn for each time it was pressed,
   * and a call one turn if it has had a session and none otherwise.
   */
  lemma OneTurnEach(handlers: seq<Button>, inverted: Both<bool>, acts: seq<Action>, i: nat)
    requires IsRun(Init(handlers, inverted, true), acts)
    requires var s := End(Init(handlers, inverted, true), acts); i < |s.procs| && AllFinished(s)
    ensures var s := End(Init(handlers, inverted, true), acts);
            multiset(s.served.At(s.procs[i].b))[i] == if s.procs[i].Handler? then multiset(acts)[Press(i)]
                                                      else if s.procs[i].session.Over? then 1
                                                      else 0
  {
    FromStart(handlers, inverted, acts);
    var s := End(Init(handlers, inverted, true), acts);
    var b := s.procs[i].b;
    assert Comes(s, acts, i) && QueueInvAt(s, b) && Finished(s.procs[i]);
    LineEmpty(s.procs, s.waiting.At(b), b);
    assert MissRelease(i) !in acts;
    assert s.arrived.At(b) == s.served.At(b);
  }

  /** A call that has found the channel stays on its way to a session; one that has not never gets one. */
  predicate Found(p: Proc) {
    p.Rpc? && (p.caller in {Sending, Blocked} || !p.session.NoSession?)
  }

  predicate TurnedAway(p: Proc) {
    p.Rpc? && p.caller in {Unlocking, Returned} && p.session.NoSession?
  }

  lemma StepDecided(s: State, a: Action, i: nat)
    requires Can(s, a) && i < |s.procs|
    ensures i < |Do(s, a).procs|
    ensures Found(s.procs[i]) && ProcInv(s) && OwnerInv(s) ==> Found(Do(s, a).procs[i])
    ensures TurnedAway(s.procs[i]) ==> TurnedAway(Do(s, a).procs[i])
  {
    StepFrame(s, a);
  }

  lemma {:induction false} StaysDecided(s: State, acts: seq<Action>, i: nat)
    requires Inv(s) && IsRun(s, acts) && i < |s.procs|
    ensures i < |End(s, acts).procs|
    ensures Found(s.procs[i]) ==> Found(End(s, acts).procs[i])
    ensures TurnedAway(s.procs[i]) ==> TurnedAway(End(s, acts).procs[i])
    decreases |acts|
  {
    if acts != [] {
      StepKeepsInv(s, acts[0]);
      StepDecided(s, acts[0], i);
      StaysDecided(Do(s, acts[0]), acts[1..], i);
    }
  }

  /**
   * In every run, a call that has returned looked up the channel, and it has had its turn exactly if somebody had
   * registered the channel by then.
   */
  lemma {:induction false} ServedIff(handlers: seq<Button>, inverted: Both<bool>, acts: seq<Action>, i: nat)
    returns (n: nat)
    requires IsRun(Init(handlers, inverted, true), acts)
    requires RpcAt(End(Init(handlers, inverted, true), acts), i, Returned)
    ensures n < |acts| && acts[n] == Lookup(i)
    ensures var s := End(Init(handlers, inverted, true), acts);
            i in s.served.At(s.procs[i].b) <==> exists a :: a in acts[..n] && Makes(s.procs, a, s.procs[i].b)
  {
    var init := Init(handlers, inverted, true);
    var s := End(init, acts);
    FromStart(handlers, inverted, acts);
    n := LookedAt(s, acts, i);
    Split(init, acts, n);
    FromStart(handlers, inverted, acts[..n]);
    LookupDecides(End(init, acts[..n]), acts[..n], acts[n + 1..], i);
    HadTurn(s, acts, i);
  }

  lemma LookedAt(s: State, past: seq<Action>, i: nat) returns (n: nat)
    requires LooksInv(s, past) && RpcAt(s, i, Returned)
    ensures n < |past| && past[n] == Lookup(i)
  {
    assert Lookup(i) in past;
    n :| 0 <= n < |past| && past[n] == Lookup(i);
  }

  lemma HadTurn(s: State, past: seq<Action>, i: nat)
    requires Tells(s, past) && RpcAt(s, i, Returned)
    ensures i in s.served.At(s.procs[i].b) <==> Found(s.procs[i])
  {
    assert Comes(s, past, i);
    Turns(s, past, i);
  }

  lemma LookupDecides(s: State, past: seq<Action>, acts: seq<Action>, i: nat)
    requires Tells(s, past) && Can(s, Lookup(i)) && IsRun(Do(s, Lookup(i)), acts)
    ensures var t := End(Do(s, Lookup(i)), acts);
            && i < |t.procs|
            && (RpcAt(t, i, Returned) ==>
                  (Found(t.procs[i]) <==> exists a :: a in past && Makes(t.procs, a, t.procs[i].b)))
  {
    var next := Do(s, Lookup(i));
    StepKeepsInv(s, Lookup(i));
    LookupFinds(s, i);
    StaysDecided(next, acts, i);
    ProcsStay(next, acts);
    var t := End(next, acts);
    SameMakers(s, t, past, s.procs[i].b);
  }

  lemma LookupFinds(s: State, i: nat)
    requires ProcInv(s) && Can(s, Lookup(i))
    ensures var t := Do(s, Lookup(i));
            && SameProcs(s, t)
            && if s.procs[i].b in s.known then Found(t.procs[i]) else TurnedAway(t.procs[i])
  {
    assert Consistent(s.procs[i]);
  }

  lemma SameMakers(s: State, t: State, past: seq<Action>, b: Button)
    requires LooksInv(s, past) && SameProcs(s, t)
    ensures b in s.known <==> exists a :: a in past && Makes(t.procs, a, b)
  {
    assert forall a :: Makes(t.procs, a, b) <==> Makes(s.procs, a, b);
  }

  lemma {:induction false} ProcsStay(s: State, acts: seq<Action>)
    requires IsRun(s, acts)
    ensures SameProcs(s, End(s, acts))
    decreases |acts|
  {
    if acts != [] {
      StepFrame(s, acts[0]);
      ProcsStay(Do(s, acts[0]), acts[1..]);
    }
  }

  /** A run cut in two, at the step it takes at place `n`. */
  lemma {:induction false} Split(s: State, acts: seq<Action>, n: nat)
    requires IsRun(s, acts) && n < |acts|
    ensures IsRun(s, acts[..n]) && Can(End(s, acts[..n]), acts[n])
    ensures IsRun(Do(End(s, acts[..n]), acts[n]), acts[n + 1..])
    ensures End(s, acts) == End(Do(End(s, acts[..n]), acts[n]), acts[n + 1..])
    decreases n
  {
    if n > 0 {
      Split(Do(s, acts[0]), acts[1..], n - 1);
      assert acts[..n][1..] == acts[1..][..n - 1] && acts[1..][n..] == acts[n + 1..];
    }
  }

  // ---------------------------------------------------------------- writers go first

  /** While a writer waits, no call gets the lock that did not have it when the writer asked. */
  lemma {:induction false} NoneOvertakes(s: State, acts: seq<Action>)
    requires s.writer.Some? && IsRun(s, acts) && Register(s.writer.value) !in acts
    ensures End(s, acts).writer == s.writer && End(s, acts).readers <= s.readers
    decreases |acts|
  {
    if acts != [] {
      assert acts[0] in acts;
      WriterHolds(s, acts[0]);
      NoneOvertakes(Do(s, acts[0]), acts[1..]);
    }
  }

  lemma WriterHolds(s: State, a: Action)
    requires s.writer.Some? && Can(s, a) && a != Register(s.writer.value)
    ensures Do(s, a).writer == s.writer && Do(s, a).readers <= s.readers
  {}
}
