/**
 * The race for a first roughtime answer, as a machine of interleaved steps, and the choice of the
 * time to set. Times and durations are integers in one unit (nanoseconds).
 */
module Roughtime {
  import opened Wrappers

  datatype Reply = Reply(midpoint: int, radius: nat)

  /** One configured server: not looked at yet, skipped for a corrupt key, or queried. */
  datatype Status = Idle | Skipped | Querying | Holding(r: Reply) | Sent(r: Reply) | Failed

  /** The calling goroutine: starting queries, waiting for the first value, or back with it. */
  datatype Caller = Starting(next: nat) | Receiving | Returned(got: Option<Reply>)

  /** The goroutine that waits for the group: it ends with or without having queued a nil. */
  datatype Waiter = NotStarted | Waiting | HoldingNil | EndedQuiet | EndedNil

  /**
   * `keys[i]` tells whether server i's key decodes; `cr` is the channel, with room for |keys| values;
   * `log` is the history of everything ever put on the channel (nil is None).
   */
  datatype State = State(
    keys: seq<bool>, servers: seq<Status>, caller: Caller, waiter: Waiter,
    cr: seq<Option<Reply>>, log: seq<Option<Reply>>)

  datatype Action =
    | Start
    | Answer(i: nat, r: Option<Reply>)
    | Send(i: nat)
    | Wait
    | SendNil
    | Receive

  function Init(keys: seq<bool>): State {
    State(keys, seq(|keys|, i => Idle), Starting(0), NotStarted, [], [])
  }

  predicate Settled(x: Status) { x.Skipped? || x.Sent? || x.Failed? }

  predicate AllSettled(s: State) { forall i :: 0 <= i < |s.servers| ==> Settled(s.servers[i]) }

  predicate AnyFailed(s: State) { exists i :: 0 <= i < |s.servers| && s.servers[i] == Failed }

  predicate Can(s: State, a: Action) {
    match a
    case Start => s.caller.Starting? && |s.servers| == |s.keys|
    case Answer(i, _) => i < |s.servers| && s.servers[i] == Querying
    case Send(i) => i < |s.servers| && s.servers[i].Holding? && |s.cr| < |s.keys|
    case Wait => s.waiter == Waiting && AllSettled(s)
    case SendNil => s.waiter == HoldingNil && |s.cr| < |s.keys|
    case Receive => s.caller.Receiving? && s.cr != []
  }

  function Do(s: State, a: Action): State
    requires Can(s, a)
  {
    match a
    case Start =>
      var i := s.caller.next;
      if i < |s.keys| then
        s.(servers := s.servers[i := if s.keys[i] then Querying else Skipped], caller := Starting(i + 1))
      else
        s.(caller := Receiving, waiter := Waiting)
    case Answer(i, r) => s.(servers := s.servers[i := if r.Some? then Holding(r.value) else Failed])
    case Send(i) =>
      var r := s.servers[i].r;
      s.(servers := s.servers[i := Sent(r)], cr := s.cr + [Some(r)], log := s.log + [Some(r)])
    case Wait => s.(waiter := if AnyFailed(s) then HoldingNil else EndedQuiet)
    case SendNil => s.(waiter := EndedNil, cr := s.cr + [None], log := s.log + [None])
    case Receive => s.(caller := Returned(s.cr[0]), cr := s.cr[1..])
  }

  /** Every action can be taken in turn. */
  ghost predicate IsRun(s: State, acts: seq<Action>)
    decreases |acts|
  {
    acts == [] || (Can(s, acts[0]) && IsRun(Do(s, acts[0]), acts[1..]))
  }

  ghost function End(s: State, acts: seq<Action>): State
    requires IsRun(s, acts)
    decreases |acts|
  {
    if acts == [] then s else End(Do(s, acts[0]), acts[1..])
  }

  // ---------------------------------------------------------------- the invariant

  function SentCount(servers: seq<Status>): (n: nat)
    ensures n <= |servers|
  {
    if servers == [] then 0 else SentCount(servers[1..]) + if servers[0].Sent? then 1 else 0
  }

  lemma {:induction false} SentUpdate(servers: seq<Status>, i: nat, x: Status)
    requires i < |servers| && !servers[i].Sent?
    ensures SentCount(servers[i := x]) == SentCount(servers) + if x.Sent? then 1 else 0
    ensures SentCount(servers) < |servers|
    decreases |servers|
  {
    var u := servers[i := x];
    if i == 0 {
      assert u[1..] == servers[1..];
    } else {
      SentUpdate(servers[1..], i - 1, x);
      assert u[1..] == servers[1..][i - 1 := x];
    }
  }

  lemma {:induction false} NoneSent(servers: seq<Status>)
    requires forall i :: 0 <= i < |servers| ==> !servers[i].Sent?
    ensures SentCount(servers) == 0
    decreases |servers|
  {
    if servers != [] {
      NoneSent(servers[1..]);
    }
  }

  /** Server i's status fits its key and the caller's progress; what it sent is on the log. */
  ghost predicate Started(s: State, i: nat)
    requires i < |s.keys| == |s.servers|
  {
    && (s.servers[i].Idle? <==> s.caller.Starting? && s.caller.next <= i)
    && match s.servers[i]
       case Idle => true
       case Skipped => !s.keys[i]
       case Sent(r) => s.keys[i] && Some(r) in s.log
       case _ => s.keys[i]
  }

  /** Everything on the log was sent by a server, but for a nil at its end. */
  ghost predicate LogOk(s: State) {
    forall j :: 0 <= j < |s.log| ==>
      if s.log[j].Some? then exists i :: 0 <= i < |s.servers| && s.servers[i] == Sent(s.log[j].value)
      else j == |s.log| - 1 && s.waiter == EndedNil
  }

  ghost predicate WaiterOk(s: State) {
    && (s.waiter == NotStarted <==> s.caller.Starting?)
    && (s.waiter in {HoldingNil, EndedQuiet, EndedNil} ==> AllSettled(s))
    && (s.waiter in {HoldingNil, EndedNil} ==> AnyFailed(s))
    && (s.waiter == EndedQuiet ==> !AnyFailed(s))
    && (s.waiter == EndedNil ==> None in s.log)
  }

  ghost predicate Inv(s: State) {
    && |s.servers| == |s.keys|
    && (s.caller.Starting? ==> s.caller.next <= |s.keys|)
    && (forall i :: 0 <= i < |s.keys| ==> Started(s, i))
    && |s.log| == SentCount(s.servers) + (if s.waiter == EndedNil then 1 else 0)
    && LogOk(s)
    && WaiterOk(s)
    && if s.caller.Returned? then s.log != [] && s.caller.got == s.log[0] && s.cr == s.log[1..] else s.cr == s.log
  }

  lemma InitInv(keys: seq<bool>)
    ensures Inv(Init(keys))
  {
    NoneSent(Init(keys).servers);
  }

  lemma FailedBounds(s: State)
    requires AnyFailed(s)
    ensures SentCount(s.servers) < |s.servers|
  {
    var i :| 0 <= i < |s.servers| && s.servers[i] == Failed;
    SentUpdate(s.servers, i, Failed);
  }

  lemma StartKeeps(s: State)
    requires Inv(s) && Can(s, Start)
    ensures Inv(Do(s, Start))
  {
    var i, t := s.caller.next, Do(s, Start);
    forall k | 0 <= k < |t.keys| ensures Started(t, k) {
      assert Started(s, k);
    }
    if i < |s.keys| {
      assert Started(s, i);
      SentUpdate(s.servers, i, if s.keys[i] then Querying else Skipped);
      KeepsLog(s, t, i);
    }
  }

  /** Changing one server that has sent nothing keeps the log explained. */
  lemma KeepsLog(s: State, t: State, i: nat)
    requires LogOk(s) && i < |s.servers| && !s.servers[i].Sent?
    requires t.log == s.log && t.waiter == s.waiter && |t.servers| == |s.servers|
    requires forall k :: 0 <= k < |s.servers| && k != i ==> t.servers[k] == s.servers[k]
    ensures LogOk(t)
  {
    forall j | 0 <= j < |t.log| && t.log[j].Some?
      ensures exists k :: 0 <= k < |t.servers| && t.servers[k] == Sent(t.log[j].value)
    {
      var k :| 0 <= k < |s.servers| && s.servers[k] == Sent(s.log[j].value);
      assert t.servers[k] == Sent(t.log[j].value);
    }
  }

  lemma AnswerKeeps(s: State, i: nat, r: Option<Reply>)
    requires Inv(s) && Can(s, Answer(i, r))
    ensures Inv(Do(s, Answer(i, r)))
  {
    var t := Do(s, Answer(i, r));
    SentUpdate(s.servers, i, t.servers[i]);
    forall k | 0 <= k < |t.keys| ensures Started(t, k) {
      assert Started(s, k);
    }
    KeepsLog(s, t, i);
    assert !Settled(s.servers[i]);
  }

  lemma SendKeeps(s: State, i: nat)
    requires Inv(s) && Can(s, Send(i))
    ensures Inv(Do(s, Send(i)))
  {
    var t := Do(s, Send(i));
    SentUpdate(s.servers, i, t.servers[i]);
    assert !Settled(s.servers[i]);
    forall k | 0 <= k < |t.keys| ensures Started(t, k) {
      assert Started(s, k);
    }
    var mid := t.(log := s.log);
    KeepsLog(s, mid, i);
    forall j | 0 <= j < |t.log|
      ensures t.log[j].Some? && exists k :: 0 <= k < |t.servers| && t.servers[k] == Sent(t.log[j].value)
    {
      if j == |s.log| {
        assert t.servers[i] == Sent(t.log[j].value);
      } else {
        assert t.log[j] == mid.log[j];
      }
    }
  }

  lemma SendNilKeeps(s: State)
    requires Inv(s) && Can(s, SendNil)
    ensures Inv(Do(s, SendNil))
  {
    var t := Do(s, SendNil);
    assert t.log[|s.log|] == None;
    forall k | 0 <= k < |t.keys| ensures Started(t, k) {
      assert Started(s, k);
    }
    forall j | 0 <= j < |s.log| ensures s.log[j].Some? {}
  }

  lemma StepKeepsInv(s: State, a: Action)
    requires Inv(s) && Can(s, a)
    ensures Inv(Do(s, a))
  {
    match a
    case Start => StartKeeps(s);
    case Answer(i, r) => AnswerKeeps(s, i, r);
    case Send(i) => SendKeeps(s, i);
    case SendNil => SendNilKeeps(s);
    case _ =>
      var t := Do(s, a);
      forall k | 0 <= k < |t.keys| ensures Started(t, k) {
        assert Started(s, k);
      }
  }

  lemma {:induction false} RunKeepsInv(s: State, acts: seq<Action>)
    requires Inv(s) && IsRun(s, acts)
    ensures Inv(End(s, acts))
    decreases |acts|
  {
    if acts != [] {
      StepKeepsInv(s, acts[0]);
      RunKeepsInv(Do(s, acts[0]), acts[1..]);
    }
  }

  // ---------------------------------------------------------------- the theorems

  ghost predicate Reachable(s: State) {
    exists keys, acts :: IsRun(Init(keys), acts) && End(Init(keys), acts) == s
  }

  lemma ReachableInv(s: State)
    requires Reachable(s)
    ensures Inv(s)
  {
    var keys, acts :| IsRun(Init(keys), acts) && End(Init(keys), acts) == s;
    InitInv(keys);
    RunKeepsInv(Init(keys), acts);
  }

  /** The channel has room whenever anyone wants to send: no sender ever blocks. */
  lemma NoSenderBlocks(s: State)
    requires Reachable(s)
    ensures |s.cr| <= |s.keys|
    ensures forall i :: 0 <= i < |s.servers| && s.servers[i].Holding? ==> Can(s, Send(i)) && |s.cr| < |s.keys|
    ensures s.waiter == HoldingNil ==> Can(s, SendNil) && |s.cr| < |s.keys|
  {
    ReachableInv(s);
    forall i | 0 <= i < |s.servers| && s.servers[i].Holding?
      ensures Can(s, Send(i)) && |s.cr| < |s.keys|
    {
      SentUpdate(s.servers, i, Failed);
      assert !Settled(s.servers[i]);
    }
    if AnyFailed(s) {
      FailedBounds(s);
    }
  }

  /** nil is received only if every server that was queried failed; a reply only if one sent it. */
  lemma NilOnlyIfAllFailed(s: State)
    requires Reachable(s) && s.caller.Returned?
    ensures |s.servers| == |s.keys|
    ensures s.caller.got.None? ==> forall i :: 0 <= i < |s.keys| && s.keys[i] ==> s.servers[i] == Failed
    ensures s.caller.got.Some? ==>
              exists i :: 0 <= i < |s.keys| && s.keys[i] && s.servers[i] == Sent(s.caller.got.value)
  {
    ReachableInv(s);
    if s.caller.got.None? {
      assert s.log[0].None?;
      assert |s.log| == 1;
      forall i | 0 <= i < |s.keys| && s.keys[i] ensures s.servers[i] == Failed {
        assert Started(s, i);
        assert Settled(s.servers[i]);
      }
    } else {
      var i :| 0 <= i < |s.servers| && s.servers[i] == Sent(s.log[0].value);
      assert Started(s, i);
    }
  }

  /** With no usable key nothing is ever queued, so the caller never returns, in any run. */
  lemma NoKeyNeverReturns(s: State)
    requires Reachable(s) && forall i :: 0 <= i < |s.keys| ==> !s.keys[i]
    ensures !s.caller.Returned?
  {
    ReachableInv(s);
    forall i | 0 <= i < |s.servers| ensures !s.servers[i].Sent? && s.servers[i] != Failed {
      assert Started(s, i);
    }
    NoneSent(s.servers);
  }

  ghost predicate Stuck(s: State) {
    forall a :: !Can(s, a)
  }

  /**
   * A run that can go no further has ended every goroutine it started, and the caller has its
   * value exactly when at least one key decoded. With no usable key it waits forever.
   */
  lemma ServedIffAKeyDecodes(s: State)
    requires Reachable(s) && Stuck(s)
    ensures s.caller.Returned? <==> exists i :: 0 <= i < |s.keys| && s.keys[i]
    ensures AllSettled(s) && s.waiter in {EndedQuiet, EndedNil}
  {
    ReachableInv(s);
    NoSenderBlocks(s);
    assert !Can(s, Start) && !Can(s, Wait) && !Can(s, SendNil) && !Can(s, Receive);
    forall i | 0 <= i < |s.servers| ensures Settled(s.servers[i]) {
      assert Started(s, i);
      assert !Can(s, Answer(i, None)) && !Can(s, Send(i));
    }
    if i :| 0 <= i < |s.keys| && s.keys[i] {
      assert Started(s, i);
      assert s.log != [];
    } else {
      NoKeyNeverReturns(s);
    }
  }

  // ---------------------------------------------------------------- every run ends

  function Left(x: Status): nat {
    match x
    case Idle => 3
    case Querying => 2
    case Holding(_) => 1
    case _ => 0
  }

  function LeftAll(servers: seq<Status>): nat {
    if servers == [] then 0 else Left(servers[0]) + LeftAll(servers[1..])
  }

  lemma {:induction false} LeftUpdate(servers: seq<Status>, i: nat, x: Status)
    requires i < |servers|
    ensures LeftAll(servers[i := x]) == LeftAll(servers) - Left(servers[i]) + Left(x)
    decreases |servers|
  {
    var u := servers[i := x];
    if i == 0 {
      assert u[1..] == servers[1..];
    } else {
      LeftUpdate(servers[1..], i - 1, x);
      assert u[1..] == servers[1..][i - 1 := x];
    }
  }

  function Rank(s: State): nat
  {
    LeftAll(s.servers)
    + (match s.caller case Starting(_) => 2 case Receiving => 1 case Returned(_) => 0)
    + (match s.waiter case NotStarted => 3 case Waiting => 2 case HoldingNil => 1 case _ => 0)
  }

  /** Every step lowers the rank. */
  lemma StepLowersRank(s: State, a: Action)
    requires Inv(s) && Can(s, a)
    ensures Rank(Do(s, a)) < Rank(s)
  {
    match a
    case Start =>
      var i := s.caller.next;
      if i < |s.keys| {
        assert Started(s, i);
        LeftUpdate(s.servers, i, Do(s, a).servers[i]);
      }
    case Answer(i, r) => LeftUpdate(s.servers, i, Do(s, a).servers[i]);
    case Send(i) => LeftUpdate(s.servers, i, Do(s, a).servers[i]);
    case _ =>
  }

  lemma {:induction false} InitRank(n: nat)
    ensures LeftAll(seq(n, i => Idle)) == 3 * n
  {
    if n > 0 {
      var w := seq(n, i => Idle);
      assert w[1..] == seq(n - 1, i => Idle);
      InitRank(n - 1);
    }
  }

  lemma {:induction false} RankBoundsRun(s: State, acts: seq<Action>)
    requires Inv(s) && IsRun(s, acts)
    ensures |acts| + Rank(End(s, acts)) <= Rank(s)
    decreases |acts|
  {
    if acts != [] {
      StepLowersRank(s, acts[0]);
      StepKeepsInv(s, acts[0]);
      RankBoundsRun(Do(s, acts[0]), acts[1..]);
    }
  }

  /** No run is longer than 3 * |keys| + 5 steps: every run comes to a state that can go no further. */
  lemma RunsAreShort(keys: seq<bool>, acts: seq<Action>)
    requires IsRun(Init(keys), acts)
    ensures |acts| <= 3 * |keys| + 5
  {
    InitInv(keys);
    RankBoundsRun(Init(keys), acts);
    InitRank(|keys|);
    assert Init(keys).servers == seq(|keys|, i => Idle);
  }

  // ---------------------------------------------------------------- the time to set

  /** What one NTP server gave, and the clock when it was looked at. */
  datatype NtpReply = NtpReply(t: Option<int>, now: int)

  /** The reply is usable: at `now` it lies in the roughtime window, widened by the time passed since `start`. */
  predicate InWindow(rt: Reply, start: int, n: NtpReply) {
    n.t.Some? && rt.midpoint - rt.radius <= n.t.value <= rt.midpoint + rt.radius + (n.now - start)
  }

  /** `t` is the first NTP time inside the window, or the roughtime midpoint if there is none. */
  ghost predicate IsChoice(rt: Reply, start: int, ntps: seq<NtpReply>, t: int) {
    || (exists k :: 0 <= k < |ntps| && InWindow(rt, start, ntps[k]) && Some(t) == ntps[k].t
          && forall j :: 0 <= j < k ==> !InWindow(rt, start, ntps[j]))
    || (t == rt.midpoint && forall j :: 0 <= j < |ntps| ==> !InWindow(rt, start, ntps[j]))
  }

  /**
   * The first NTP time inside the window, or the roughtime midpoint if there is none; None for the
   * error that no roughtime server is available.
   */
  method AcquireTime(rt: Option<Reply>, start: int, ntps: seq<NtpReply>) returns (r: Option<int>)
    ensures r.None? <==> rt.None?
    ensures r.Some? ==> IsChoice(rt.value, start, ntps, r.value)
  {
    if rt.None? {
      return None;
    }
    var midpoint, radius := rt.value.midpoint, rt.value.radius;
    var earliest, latest := midpoint - radius, midpoint + radius;
    var k := 0;
    while k < |ntps|
      invariant 0 <= k <= |ntps|
      invariant forall j :: 0 <= j < k ==> !InWindow(rt.value, start, ntps[j])
    {
      if ntps[k].t.None? {
        k := k + 1;
        continue;
      }
      var t := ntps[k].t.value;
      var diff := ntps[k].now - start;
      var ct := t - diff;
      if ct > latest {
        k := k + 1;
        continue;
      }
      if t < earliest {
        k := k + 1;
        continue;
      }
      return Some(t);
    }
    return Some(midpoint);
  }

  predicate Within(rt: Reply, t: int, elapsed: nat) {
    rt.midpoint - rt.radius <= t <= rt.midpoint + rt.radius + elapsed
  }

  /**
   * The whole acquisition after any complete race: with a usable key and a clock that does not run
   * backwards, the result is within the winning server's window, widened by the time elapsed.
   */
  method AcquireAfterRace(s: State, start: int, ntps: seq<NtpReply>, end: int) returns (r: Option<int>)
    requires Reachable(s) && s.caller.Returned?
    requires start <= end && forall k :: 0 <= k < |ntps| ==> start <= ntps[k].now <= end
    ensures r.None? ==> |s.servers| == |s.keys| && forall i :: 0 <= i < |s.keys| && s.keys[i] ==> s.servers[i] == Failed
    ensures r.Some? ==> s.caller.got.Some? && Within(s.caller.got.value, r.value, end - start)
    ensures r.Some? ==> IsChoice(s.caller.got.value, start, ntps, r.value)
    ensures r.Some? ==> exists i :: 0 <= i < |s.servers| && s.servers[i] == Sent(s.caller.got.value)
  {
    r := AcquireTime(s.caller.got, start, ntps);
    NilOnlyIfAllFailed(s);
    if r.Some? {
      assert Within(s.caller.got.value, r.value, end - start);
    }
  }

  /** The earliest and the latest time accepted from a server that is looked at when `now - start` has passed. */
  lemma WindowEnds(rt: Reply, start: int, now: int, t: int)
    requires start <= now
    ensures InWindow(rt, start, NtpReply(Some(rt.midpoint - rt.radius), now))
    ensures InWindow(rt, start, NtpReply(Some(rt.midpoint + rt.radius + (now - start)), now))
    ensures InWindow(rt, start, NtpReply(Some(t), now)) ==>
              rt.midpoint - rt.radius <= t && t - (now - start) <= rt.midpoint + rt.radius
    ensures !InWindow(rt, start, NtpReply(None, now))
  {}

  /**
   * Only the upper bound is checked on the rewound time; the lower one is checked on the time as
   * received. So a time that was too early when the query began is accepted exactly when time has passed.
   */
  lemma AcceptsTooEarlyIff(rt: Reply, start: int, now: int)
    requires start <= now
    ensures (exists t :: InWindow(rt, start, NtpReply(Some(t), now)) && t - (now - start) < rt.midpoint - rt.radius)
       <==> start < now
  {
    if start < now {
      assert InWindow(rt, start, NtpReply(Some(rt.midpoint - rt.radius), now));
    }
  }
}
