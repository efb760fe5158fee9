/** Exactly when button pushes get stuck: before the managers have registered, and after a missed release edge. */
module ButtonsStuck {
  import opened Wrappers
  import opened Buttons
  import opened ButtonsLaws

  // ---------------------------------------------------------------- pushes that can never finish

  /** The button has a channel, or will have one when the announced writer is done. */
  predicate WillKnow(s: State, b: Button) {
    || b in s.known
    || (s.writer.Some? && s.writer.value.ByHandler? && s.writer.value.i < |s.procs| && s.procs[s.writer.value.i].b == b)
  }

  /** The RPC holds the read lock and waits, or will wait, for the button's manager. */
  predicate HoldsOut(s: State, i: nat)
    requires i < |s.procs| && s.procs[i].Rpc?
  {
    var p := s.procs[i];
    i in s.readers && (p.caller in {Sending, Blocked} || (p.caller in {Acquiring, Locked} && p.b in s.known))
  }

  /** The RPC will be let in by a writer other than the manager, and find the channel. */
  predicate WillHoldOut(s: State, i: nat)
    requires i < |s.procs| && s.procs[i].Rpc?
  {
    var p := s.procs[i];
    && i in s.queued && p.caller == Acquiring
    && s.writer.Some? && s.writer != Some(ByManager(p.b)) && WillKnow(s, p.b)
  }

  /** An RPC that keeps its button's manager from ever taking the write lock. */
  predicate Doomed(s: State, i: nat) {
    && i < |s.procs| && s.procs[i].Rpc? && !RegisteredAt(s, s.procs[i].b)
    && (HoldsOut(s, i) || WillHoldOut(s, i))
  }

  lemma WriterKeepsDoomed(s: State, a: Action, i: nat)
    requires LockInv(s) && Doomed(s, i) && Can(s, a) && (a.Announce? || a.Register?)
    ensures Doomed(Do(s, a), i)
  {}

  lemma ApproachKeepsDoomed(s: State, a: Action, i: nat)
    requires LockInv(s) && Doomed(s, i) && Can(s, a) && IsApproach(a) && !a.Announce? && !a.Register?
    ensures Doomed(Do(s, a), i)
  {
    if i in s.queued {
      assert !Reads(s, i);
      assert i !in s.readers;
    }
  }

  lemma SessionKeepsDoomed(s: State, a: Action, i: nat)
    requires LockInv(s) && ProcInv(s) && Doomed(s, i) && Can(s, a) && IsSession(a)
    ensures Doomed(Do(s, a), i)
  {}

  /** No run gets a doomed RPC back, and its manager never registers. */
  lemma {:induction false} DoomedForever(s: State, acts: seq<Action>, i: nat)
    requires Inv(s) && Doomed(s, i) && IsRun(s, acts)
    ensures Doomed(End(s, acts), i) && !RpcAt(End(s, acts), i, Returned) && !AllFinished(End(s, acts))
    decreases |acts|
  {
    if acts == [] {
      assert !Finished(s.procs[i]);
    } else {
      if acts[0].Announce? || acts[0].Register? {
        WriterKeepsDoomed(s, acts[0], i);
      } else if IsApproach(acts[0]) {
        ApproachKeepsDoomed(s, acts[0], i);
      } else {
        SessionKeepsDoomed(s, acts[0], i);
      }
      StepKeepsInv(s, acts[0]);
      DoomedForever(Do(s, acts[0]), acts[1..], i);
    }
  }

  // ---------------------------------------------------------------- one RPC at its channel

  ghost predicate AtChannel(s: State, i: nat) {
    RpcAt(s, i, Sending) || RpcAt(s, i, Blocked)
  }

  /** The steps left until the manager of `b` waits again. */
  ghost function ServeRank(s: State, b: Button): nat
    requires ServingInv(s)
  {
    var m := s.managers.At(b);
    if !m.Serving? then 0
    else if m.ch in s.closed then 1
    else 1 + SessionRank(s.procs[m.owner].session)
  }

  lemma InsideServes(s: State, a: Action, b: Button)
    requires Inv(s) && Can(s, a) && Serves(s, a, b) && ServingInv(Do(s, a))
    ensures ServeRank(Do(s, a), b) < ServeRank(s, b)
  {
    var m, t := s.managers.At(b), Do(s, a);
    if !a.Finish? {
      assert t.managers.At(b).Serving? && t.managers.At(b).ch == m.ch && t.managers.At(b).owner == m.owner;
    }
  }

  lemma InsideLeaves(s: State, a: Action, i: nat)
    requires Inv(s) && Can(s, a) && IsInside(a) && RpcAt(s, i, Blocked)
    ensures RpcAt(Do(s, a), i, Blocked) && Do(s, a).procs[i].b == s.procs[i].b && Do(s, a).waiting == s.waiting
  {
    assert Consistent(s.procs[i]);
  }

  /** The manager's turn of a process in line: after those before it. */
  lemma {:induction false} TurnComes(s: State, i: nat, pos: nat) returns (acts: seq<Action>)
    requires Inv(s) && RpcAt(s, i, Blocked) && RegisteredAt(s, s.procs[i].b)
    requires pos < |s.waiting.At(s.procs[i].b)| && s.waiting.At(s.procs[i].b)[pos] == i
    ensures IsRun(s, acts) && AllProgress(acts) && RpcAt(End(s, acts), i, Returned)
    decreases pos, ServeRank(s, s.procs[i].b)
  {
    var b := s.procs[i].b;
    if s.managers.At(b).Serving? {
      var a := ServingCanMove(s, b);
      StepKeepsInv(s, a);
      StepKeepsRegistered(s, a, b);
      InsideServes(s, a, b);
      InsideLeaves(s, a, i);
      var rest := TurnComes(Do(s, a), i, pos);
      RunFrom(s, a, rest);
      acts := [a] + rest;
    } else {
      var a := FirstCanMove(s, i);
      StepKeepsInv(s, a);
      StepKeepsRegistered(s, a, b);
      if pos == 0 {
        Returns(s, i);
        acts := [Accept(i)] + ([RUnlock(i)] + []);
      } else {
        NotFirst(s, i, pos);
        var rest := TurnComes(Do(s, a), i, pos - 1);
        RunFrom(s, a, rest);
        acts := [a] + rest;
      }
    }
  }

  lemma {:induction false} Returns(s: State, i: nat)
    requires Can(s, Accept(i)) && s.procs[i].Rpc?
    ensures var acts := [Accept(i)] + ([RUnlock(i)] + []);
            IsRun(s, acts) && AllProgress(acts) && RpcAt(End(s, acts), i, Returned)
  {
    RunFrom(Do(s, Accept(i)), RUnlock(i), []);
    RunFrom(s, Accept(i), [RUnlock(i)] + []);
  }

  lemma NotFirst(s: State, i: nat, pos: nat)
    requires Inv(s) && i < |s.procs| && 0 < pos < |s.waiting.At(s.procs[i].b)| && s.waiting.At(s.procs[i].b)[pos] == i
    ensures s.waiting.At(s.procs[i].b)[0] != i && s.waiting.At(s.procs[i].b)[1..][pos - 1] == i
  {
    assert QueueInvAt(s, s.procs[i].b);
  }

  lemma GetsTurn(s: State, i: nat) returns (acts: seq<Action>)
    requires Inv(s) && AtChannel(s, i) && RegisteredAt(s, s.procs[i].b)
    ensures IsRun(s, acts) && AllProgress(acts) && RpcAt(End(s, acts), i, Returned)
  {
    var b := s.procs[i].b;
    assert QueueInvAt(s, b);
    if RpcAt(s, i, Blocked) {
      assert i in s.waiting.At(b);
      var pos :| 0 <= pos < |s.waiting.At(b)| && s.waiting.At(b)[pos] == i;
      acts := TurnComes(s, i, pos);
    } else {
      var t := Do(s, Enqueue(i));
      StepKeepsInv(s, Enqueue(i));
      assert t.waiting.At(b)[|s.waiting.At(b)|] == i;
      var rest := TurnComes(t, i, |s.waiting.At(b)|);
      RunFrom(s, Enqueue(i), rest);
      acts := [Enqueue(i)] + rest;
    }
  }

  /** Some run of the system returns the RPC. */
  ghost predicate CanReturn(s: State, i: nat) {
    exists acts :: IsRun(s, acts) && AllProgress(acts) && RpcAt(End(s, acts), i, Returned)
  }

  /** An RPC that has found its channel can return if and only if the button's manager has registered. */
  lemma ReturnsIff(s: State, i: nat)
    requires Inv(s) && AtChannel(s, i)
    ensures CanReturn(s, i) <==> RegisteredAt(s, s.procs[i].b)
  {
    if RegisteredAt(s, s.procs[i].b) {
      var acts := GetsTurn(s, i);
    } else {
      assert Reads(s, i);
      assert Doomed(s, i);
      forall acts | IsRun(s, acts) && AllProgress(acts)
        ensures !RpcAt(End(s, acts), i, Returned)
      {
        DoomedForever(s, acts, i);
      }
    }
  }

  // ---------------------------------------------------------------- all pushes

  ghost predicate NoneDoomed(s: State) {
    forall i :: 0 <= i < |s.procs| ==> !Doomed(s, i)
  }

  lemma RegisteredNotDoomed(s: State)
    requires Registered(s)
    ensures NoneDoomed(s)
  {
    forall i | 0 <= i < |s.procs| ensures !Doomed(s, i) {
      assert RegisteredAt(s, s.procs[i].b);
    }
  }

  lemma InsideSafe(s: State, a: Action)
    requires Inv(s) && NoneDoomed(s) && Can(s, a) && (IsInside(a) || a.Cancel?)
    ensures NoneDoomed(Do(s, a))
  {
    var t := Do(s, a);
    InsideFrame(s, a);
    forall i | 0 <= i < |t.procs| ensures !Doomed(t, i) {
      assert !Doomed(s, i);
      UnrelatedFree(s, t, i);
    }
  }

  ghost predicate Unrelated(s: State, t: State) {
    && |t.procs| == |s.procs|
    && t.readers == s.readers && t.queued == s.queued && t.known == s.known && t.writer == s.writer
    && forall i :: 0 <= i < |s.procs| ==>
         SameWay(s.procs[i], t.procs[i]) && RegisteredAt(t, s.procs[i].b) == RegisteredAt(s, s.procs[i].b)
  }

  predicate SameWay(p: Proc, q: Proc) {
    q.Rpc? == p.Rpc? && q.b == p.b && (p.Rpc? ==> q.caller == p.caller)
  }

  lemma UnrelatedFree(s: State, t: State, i: nat)
    requires Unrelated(s, t) && i < |s.procs| && !Doomed(s, i)
    ensures !Doomed(t, i)
  {
    assert SameWay(s.procs[i], t.procs[i]);
    if s.writer.Some? && s.writer.value.ByHandler? && s.writer.value.i < |s.procs| {
      assert SameWay(s.procs[s.writer.value.i], t.procs[s.writer.value.i]);
    }
  }

  /** A step inside a session leaves the lock, the channels and everybody's way to them alone. */
  lemma InsideFrame(s: State, a: Action)
    requires Can(s, a) && (IsInside(a) || a.Cancel?)
    ensures Unrelated(s, Do(s, a))
  {}

  lemma AcceptSafe(s: State, i: nat)
    requires Inv(s) && NoneDoomed(s) && Can(s, Accept(i))
    ensures NoneDoomed(Do(s, Accept(i)))
  {
    var t := Do(s, Accept(i));
    forall j | 0 <= j < |t.procs| ensures !Doomed(t, j) {
      assert !Doomed(s, j);
    }
  }

  lemma ReaderSafe(s: State, i: nat, a: Action)
    requires Inv(s) && NoneDoomed(s) && Can(s, a) && i in s.readers
    requires a in [Granted(i), Lookup(i), RUnlock(i), Enqueue(i)]
    ensures NoneDoomed(Do(s, a))
  {
    var t := Do(s, a);
    forall j | 0 <= j < |t.procs| ensures !Doomed(t, j) {
      assert !Doomed(s, j);
    }
  }

  lemma RegisterSafe(s: State, w: Writer)
    requires Inv(s) && NoneDoomed(s) && Can(s, Register(w))
    ensures NoneDoomed(Do(s, Register(w)))
  {
    var t := Do(s, Register(w));
    forall j | 0 <= j < |t.procs| ensures !Doomed(t, j) {
      assert !Doomed(s, j);
      assert j in s.queued ==> RpcAt(s, j, Acquiring);
    }
  }

  lemma AnnounceSafe(s: State, w: Writer)
    requires Inv(s) && NoneDoomed(s) && Can(s, Announce(w))
    ensures NoneDoomed(Do(s, Announce(w)))
  {
    assert s.queued == {};
    var t := Do(s, Announce(w));
    forall j | 0 <= j < |t.procs| ensures !Doomed(t, j) {
      assert !Doomed(s, j);
    }
  }

  /** While nobody is doomed and somebody is unfinished, some step of the system dooms nobody. */
  lemma SafeStep(s: State) returns (a: Action)
    requires Inv(s) && NoneDoomed(s) && !AllFinished(s)
    ensures IsProgress(a) && Can(s, a) && NoneDoomed(Do(s, a))
  {
    if Registered(s) {
      a := NoDeadlock(s);
      StepKeepsRegistered(s, a, Power);
      StepKeepsRegistered(s, a, Reset);
      RegisteredNotDoomed(Do(s, a));
    } else if b :| s.managers.At(b).Serving? {
      a := ServingCanMove(s, b);
      InsideSafe(s, a);
    } else if i :| i in s.readers {
      a := SafeReader(s, i);
    } else if s.writer.Some? {
      WriterCanMove(s);
      a := Register(s.writer.value);
      RegisterSafe(s, s.writer.value);
    } else {
      var b := if RegisteredAt(s, Power) then Reset else Power;
      assert !s.managers.At(b).Registering?;
      a := Announce(ByManager(b));
      AnnounceSafe(s, ByManager(b));
    }
  }

  lemma SafeReader(s: State, i: nat) returns (a: Action)
    requires Inv(s) && NoneDoomed(s) && i in s.readers && forall b :: !s.managers.At(b).Serving?
    ensures IsProgress(a) && Can(s, a) && NoneDoomed(Do(s, a)) && !a.RLock? && !a.Announce?
  {
    assert Reads(s, i);
    assert !Doomed(s, i);
    a := ReaderCanMove(s, i);
    if a.Accept? {
      AcceptSafe(s, a.i);
    } else {
      ReaderSafe(s, i, a);
    }
  }

  lemma {:induction false} FinishAll(s: State) returns (acts: seq<Action>)
    requires Inv(s) && NoneDoomed(s)
    ensures IsRun(s, acts) && AllProgress(acts) && AllFinished(End(s, acts))
    decreases Rank(s)
  {
    acts := [];
    if !AllFinished(s) {
      var a := SafeStep(s);
      StepKeepsInv(s, a);
      StepLowersRank(s, a);
      var rest := FinishAll(Do(s, a));
      RunFrom(s, a, rest);
      acts := [a] + rest;
    }
  }

  ghost predicate CanFinish(s: State) {
    exists acts :: IsRun(s, acts) && AllProgress(acts) && AllFinished(End(s, acts))
  }

  /** All pushes can still be finished if and only if no RPC is doomed. */
  lemma FinishIff(s: State)
    requires Inv(s)
    ensures CanFinish(s) <==> NoneDoomed(s)
  {
    if NoneDoomed(s) {
      var acts := FinishAll(s);
    } else {
      var i :| 0 <= i < |s.procs| && Doomed(s, i);
      forall acts | IsRun(s, acts) && AllProgress(acts)
        ensures !AllFinished(End(s, acts))
      {
        DoomedForever(s, acts, i);
      }
    }
  }

  /** The system stands still with a push unfinished only where somebody is doomed. */
  lemma StandsStillOnlyIfDoomed(s: State)
    requires Inv(s) && !AllFinished(s) && forall a :: IsProgress(a) ==> !Can(s, a)
    ensures !NoneDoomed(s)
  {
    if NoneDoomed(s) {
      var a := SafeStep(s);
    }
  }

  // ---------------------------------------------------------------- a start that stops for good

  /** A physical press has made the channel; its handler is about to send. */
  function StartupOffered(): State {
    Init([Power], Both(true, true), true).(procs := [Handler(Power, Offering, NoSession)], known := {Power})
  }

  /** Then an RPC has looked the channel up, and only now does the manager ask for the lock. */
  function StartupFound(): State {
    StartupOffered().(procs := [Handler(Power, Offering, NoSession), Rpc(Power, Sending, NoSession)], readers := {1},
                      managers := Both(Registering, Unregistered), writer := Some(ByManager(Power)))
  }

  /** Both senders are in line for a manager that waits for the lock. */
  function StartupStuck(): State {
    StartupFound().(procs := [Handler(Power, Stalled, NoSession), Rpc(Power, Blocked, NoSession)],
                    waiting := Both([0, 1], []), arrived := Both([0, 1], []))
  }

  lemma {:induction false} StartupPress(rest: seq<Action>)
    requires IsRun(StartupOffered(), rest)
    ensures var acts := [Press(0)] + ([Announce(ByHandler(0))] + ([Register(ByHandler(0))] + rest));
            var s := Init([Power], Both(true, true), true);
            IsRun(s, acts) && End(s, acts) == End(StartupOffered(), rest)
  {
    var s0, s3 := Init([Power], Both(true, true), true), StartupOffered();
    var s1 := s0.(procs := [Handler(Power, WantsLock, NoSession)]);
    var s2 := s0.(procs := [Handler(Power, Announced, NoSession)], writer := Some(ByHandler(0)));
    assert s1 == Do(s0, Press(0)) && s2 == Do(s1, Announce(ByHandler(0))) && s3 == Do(s2, Register(ByHandler(0)));
    RunFrom(s2, Register(ByHandler(0)), rest);
    RunFrom(s1, Announce(ByHandler(0)), [Register(ByHandler(0))] + rest);
    RunFrom(s0, Press(0), [Announce(ByHandler(0))] + ([Register(ByHandler(0))] + rest));
  }

  lemma {:induction false} StartupCall(rest: seq<Action>)
    requires IsRun(StartupFound(), rest)
    ensures var acts := [Arrive(Power)] + ([RLock(1)] + ([Lookup(1)] + ([Announce(ByManager(Power))] + rest)));
            IsRun(StartupOffered(), acts) && End(StartupOffered(), acts) == End(StartupFound(), rest)
  {
    var s3 := StartupOffered();
    var s4 := s3.(procs := s3.procs + [Rpc(Power, Calling, NoSession)]);
    var s5 := s3.(procs := s3.procs + [Rpc(Power, Locked, NoSession)], readers := {1});
    var s6 := s3.(procs := s3.procs + [Rpc(Power, Sending, NoSession)], readers := {1});
    assert s4 == Do(s3, Arrive(Power)) && s5 == Do(s4, RLock(1)) && s6 == Do(s5, Lookup(1));
    assert StartupFound() == Do(s6, Announce(ByManager(Power)));
    RunFrom(s6, Announce(ByManager(Power)), rest);
    RunFrom(s5, Lookup(1), [Announce(ByManager(Power))] + rest);
    RunFrom(s4, RLock(1), [Lookup(1)] + ([Announce(ByManager(Power))] + rest));
    RunFrom(s3, Arrive(Power), [RLock(1)] + ([Lookup(1)] + ([Announce(ByManager(Power))] + rest)));
  }

  lemma {:induction false} StartupQueue()
    ensures var acts := [Enqueue(0)] + ([Enqueue(1)] + []);
            IsRun(StartupFound(), acts) && End(StartupFound(), acts) == StartupStuck()
  {
    var s := StartupFound();
    var t := s.(procs := [Handler(Power, Stalled, NoSession), Rpc(Power, Sending, NoSession)],
                waiting := Both([0], []), arrived := Both([0], []));
    assert JoinLine(s, 0).waiting.power == [0] && JoinLine(s, 0).arrived.power == [0];
    assert JoinLine(s, 0).procs == t.procs && t == Do(s, Enqueue(0));
    assert JoinLine(t, 1).waiting.power == [0, 1] && JoinLine(t, 1).arrived.power == [0, 1];
    assert JoinLine(t, 1).procs == StartupStuck().procs && StartupStuck() == Do(t, Enqueue(1));
    RunFrom(t, Enqueue(1), []);
    RunFrom(s, Enqueue(0), [Enqueue(1)] + []);
  }

  lemma {:induction false} StartupReachable()
    ensures Reachable(StartupStuck())
  {
    var last := [Enqueue(0)] + ([Enqueue(1)] + []);
    StartupQueue();
    StartupCall(last);
    StartupPress([Arrive(Power)] + ([RLock(1)] + ([Lookup(1)] + ([Announce(ByManager(Power))] + last))));
  }

  /**
   * At startup the protocol can come to stand still: the state is reached, and no step of the system is possible in it.
   */
  lemma StartupDeadlock()
    ensures Reachable(StartupStuck()) && Doomed(StartupStuck(), 1) && !AllFinished(StartupStuck())
    ensures forall a :: IsProgress(a) ==> !Can(StartupStuck(), a)
  {
    StartupReachable();
    assert !Finished(StartupStuck().procs[1]);
  }

  // ---------------------------------------------------------------- missed edges

  /** The manager of `b` serves a session that nobody owns and nobody has closed. */
  ghost predicate Orphaned(s: State, b: Button) {
    && s.managers.At(b).Serving? && s.managers.At(b).ch < s.nextCh && s.managers.At(b).ch !in s.closed
    && s.writer != Some(ByManager(b))
    && forall i :: 0 <= i < |s.procs| && s.procs[i].session.Live? ==> s.procs[i].session.ch != s.managers.At(b).ch
  }

  /** `s` as it would be with alternating edges. */
  function Tidy(s: State): State {
    s.(alternating := true)
  }

  /** Whether edges alternate matters to no other step than the missed edge. */
  lemma TidyStep(s: State, a: Action)
    requires Can(s, a) && !a.MissRelease?
    ensures Can(Tidy(s), a) && Do(Tidy(s), a) == Tidy(Do(s, a))
  {}

  lemma NoOrphans(s: State, b: Button)
    requires Inv(Tidy(s))
    ensures !Orphaned(s, b)
  {
    var m := s.managers.At(b);
    assert Tidy(s).managers.At(b) == m;
    if m.Serving? && m.ch !in s.closed {
      assert s.procs[m.owner].session.Live? && s.procs[m.owner].session.ch == m.ch;
    }
  }

  /** A missed release edge orphans the session, with the line at the pressed level. */
  lemma MissedReleaseOrphans(s: State, i: nat)
    requires Reachable(Tidy(s)) && Can(s, MissRelease(i))
    ensures Orphaned(Do(s, MissRelease(i)), Power)
    ensures LineLevel(Do(s, MissRelease(i)), Power) == !s.inverted.At(Power)
  {
    var r := Tidy(s);
    ReachableInv(r);
    MissOrphans(s, i);
    SessionsNeverInterleave(r, Power);
    WholeSessionsAlternate(s.done.At(Power));
    var d := s.driven.At(Power);
    assert r.managers.At(Power) == Serving(s.procs[i].session.ch, [true], i);
    assert |d| == |Concat(s.done.At(Power))| + 1;
    assert d[|d| - 1] == (((|d| - 1) % 2 == 0) != s.inverted.At(Power));
  }

  lemma MissOrphans(s: State, i: nat)
    requires Inv(Tidy(s)) && Can(s, MissRelease(i))
    ensures Orphaned(Do(s, MissRelease(i)), Power)
  {
    var r := Tidy(s);
    assert r.managers.At(Power) == Serving(s.procs[i].session.ch, [true], i);
    forall j | 0 <= j < |s.procs| && j != i && s.procs[j].session.Live?
      ensures s.procs[j].session.ch != s.procs[i].session.ch
    {
      assert r.managers.At(r.procs[j].b) == Serving(s.procs[j].session.ch, Sent(s.procs[j].session.at), j);
    }
    assert !r.managers.At(Power).Registering?;
  }

  /** The orphaned session is the same one, and the line has not moved. */
  ghost predicate StillOrphaned(s: State, t: State, b: Button) {
    Orphaned(t, b) && t.managers.At(b) == s.managers.At(b) && t.driven.At(b) == s.driven.At(b)
  }

  lemma WriterLeavesOrphan(s: State, a: Action, b: Button)
    requires Orphaned(s, b) && Can(s, a) && (a.Announce? || a.Register?)
    ensures StillOrphaned(s, Do(s, a), b)
  {}

  lemma ApproachLeavesOrphan(s: State, a: Action, b: Button)
    requires Orphaned(s, b) && Can(s, a) && IsApproach(a)
    ensures StillOrphaned(s, Do(s, a), b)
  {
    if a.Announce? || a.Register? {
      WriterLeavesOrphan(s, a, b);
    }
  }

  lemma SessionLeavesOrphan(s: State, a: Action, b: Button)
    requires Orphaned(s, b) && Can(s, a) && !IsApproach(a)
    ensures StillOrphaned(s, Do(s, a), b)
  {}

  /** From then on no run changes the line or frees the manager. */
  lemma {:induction false} OrphanedForever(s: State, acts: seq<Action>, b: Button)
    requires Orphaned(s, b) && IsRun(s, acts)
    ensures StillOrphaned(s, End(s, acts), b)
    decreases |acts|
  {
    if acts != [] {
      if IsApproach(acts[0]) {
        ApproachLeavesOrphan(s, acts[0], b);
      } else {
        SessionLeavesOrphan(s, acts[0], b);
      }
      OrphanedForever(Do(s, acts[0]), acts[1..], b);
    }
  }

  ghost predicate AnyOrphan(s: State) {
    Orphaned(s, Power) || Orphaned(s, Reset)
  }

  predicate Misses(acts: seq<Action>) {
    acts != [] && (acts[0].MissRelease? || Misses(acts[1..]))
  }

  lemma {:induction false} OrphansIffFrom(s: State, acts: seq<Action>)
    requires Inv(Tidy(s)) && IsRun(s, acts)
    ensures AnyOrphan(End(s, acts)) <==> Misses(acts)
    decreases |acts|
  {
    if acts == [] {
      NoOrphans(s, Power);
      NoOrphans(s, Reset);
    } else if acts[0].MissRelease? {
      MissOrphans(s, acts[0].i);
      OrphanedForever(Do(s, acts[0]), acts[1..], Power);
    } else {
      TidyStep(s, acts[0]);
      StepKeepsInv(Tidy(s), acts[0]);
      OrphansIffFrom(Do(s, acts[0]), acts[1..]);
    }
  }

  /**
   * Over every run, with edges that need not alternate: a session is orphaned if and only if a release edge was missed.
   */
  lemma OrphansIff(handlers: seq<Button>, inverted: Both<bool>, acts: seq<Action>)
    requires IsRun(Init(handlers, inverted, false), acts)
    ensures AnyOrphan(End(Init(handlers, inverted, false), acts)) <==> Misses(acts)
  {
    var s := Init(handlers, inverted, false);
    InitInv(handlers, inverted);
    assert Tidy(s) == Init(handlers, inverted, true);
    OrphansIffFrom(s, acts);
  }
}
