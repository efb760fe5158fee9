/**
 * The button protocol as a machine of interleaved steps. Pushers (RPCs and physical button handlers) queue
 * one session each on a button's channel; a manager per button serves the sessions and drives the line.
 */
module Buttons {
  import opened Wrappers

  datatype Button = Power | Reset

  datatype Both<T> = Both(power: T, reset: T)
  {
    function At(b: Button): T {
      if b == Power then power else reset
    }

    function With(b: Button, v: T): (r: Both<T>)
      ensures r.At(b) == v
      ensures forall c :: c != b ==> r.At(c) == At(c)
    {
      if b == Power then this.(power := v) else this.(reset := v)
    }
  }

  /** Where a session's owner is: deciding, sending true, holding the button, sending false, about to close. */
  datatype Push = Start | AtTrue | Holding | AtFalse | AtClose

  datatype Session = NoSession | Live(ch: nat, at: Push) | Over

  /** An RPC's own goroutine: it holds the read lock from Locked to Unlocking, also while it is blocked in its send. */
  datatype Caller = Calling | Acquiring | Locked | Sending | Blocked | Unlocking | Returned

  /** A physical button's handler: it takes the write lock to look up the channel, and sends after giving it back. */
  datatype HandlerAt = Idle | WantsLock | Announced | Offering | Stalled | Pushing

  datatype Proc =
    | Rpc(b: Button, caller: Caller, session: Session)
    | Handler(b: Button, at: HandlerAt, session: Session)

  /** A manager registers its channel under the write lock, then serves; `seen` is what the session sent so far. */
  datatype Manager = Unregistered | Registering | Waiting | Serving(ch: nat, seen: seq<bool>, owner: nat)

  datatype Writer = ByManager(m: Button) | ByHandler(i: nat)

  /**
   * `writer` is the announced writer; while there is one, new readers are queued, and they are let in together when
   * it is done. `known` holds the buttons that have a channel, and `waiting` who is blocked sending on it, in order.
   * `alternating` says that the edges of physical buttons alternate. `driven` and `done` record the values put on each
   * line and the sessions each manager has finished; `arrived` and `served` who queued up, and whose turn it has been.
   */
  datatype State = State(
    procs: seq<Proc>, managers: Both<Manager>, known: set<Button>,
    writer: Option<Writer>, readers: set<nat>, queued: set<nat>,
    waiting: Both<seq<nat>>, nextCh: nat, closed: set<nat>, alternating: bool,
    inverted: Both<bool>, driven: Both<seq<bool>>, done: Both<seq<seq<bool>>>,
    arrived: Both<seq<nat>>, served: Both<seq<nat>>)

  datatype Action =
    | Arrive(rb: Button)
    | Press(i: nat) | MissRelease(i: nat)
    | RLock(i: nat) | Granted(i: nat) | Lookup(i: nat) | RUnlock(i: nat)
    | Announce(w: Writer) | Register(w: Writer)
    | Enqueue(i: nat) | Accept(i: nat)
    | Commit(i: nat) | Cancel(i: nat)
    | SendTrue(i: nat) | EndHold(i: nat) | SendFalse(i: nat) | Close(i: nat)
    | Finish(mb: Button)

  function Init(handlers: seq<Button>, inverted: Both<bool>, alternating: bool): (s: State) {
    State(seq(|handlers|, i requires 0 <= i < |handlers| => Handler(handlers[i], Idle, NoSession)),
          Both(Unregistered, Unregistered), {}, None, {}, {}, Both([], []), 0, {}, alternating,
          inverted, Both([], []), Both([], []), Both([], []), Both([], []))
  }

  /** The process is blocked sending its session to the manager. */
  predicate InLine(p: Proc) {
    if p.Rpc? then p.caller == Blocked else p.at == Stalled
  }

  predicate RpcAt(s: State, i: nat, c: Caller) {
    i < |s.procs| && s.procs[i].Rpc? && s.procs[i].caller == c
  }

  predicate HandlerIs(s: State, i: nat, a: HandlerAt) {
    i < |s.procs| && s.procs[i].Handler? && s.procs[i].at == a
  }

  predicate PushAt(s: State, i: nat, p: Push) {
    i < |s.procs| && s.procs[i].session.Live? && s.procs[i].session.at == p
  }

  /** The manager of `i`'s button is receiving on `i`'s session channel. */
  predicate Served(s: State, i: nat)
    requires i < |s.procs| && s.procs[i].session.Live?
  {
    var m := s.managers.At(s.procs[i].b);
    m.Serving? && m.ch == s.procs[i].session.ch
  }

  predicate Can(s: State, a: Action) {
    match a
    case Arrive(_) => true
    case Press(i) => HandlerIs(s, i, Idle)
    case MissRelease(i) =>
      !s.alternating && HandlerIs(s, i, Pushing) && PushAt(s, i, Holding) && s.procs[i].b == Power
    case RLock(i) => RpcAt(s, i, Calling)
    case Granted(i) => RpcAt(s, i, Acquiring) && i in s.readers
    case Lookup(i) => RpcAt(s, i, Locked)
    case RUnlock(i) => RpcAt(s, i, Unlocking)
    case Announce(w) => s.writer.None? && WriterWants(s, w)
    case Register(w) => s.writer == Some(w) && s.readers == {} && WriterWaits(s, w)
    case Enqueue(i) => RpcAt(s, i, Sending) || HandlerIs(s, i, Offering)
    case Accept(i) =>
      && i < |s.procs| && InLine(s.procs[i]) && s.managers.At(s.procs[i].b).Waiting?
      && s.waiting.At(s.procs[i].b) != [] && s.waiting.At(s.procs[i].b)[0] == i
    case Commit(i) => PushAt(s, i, Start)
    case Cancel(i) => PushAt(s, i, Start) && s.procs[i].Rpc?
    case SendTrue(i) => PushAt(s, i, AtTrue) && Served(s, i)
    case EndHold(i) => PushAt(s, i, Holding)
    case SendFalse(i) => PushAt(s, i, AtFalse) && Served(s, i)
    case Close(i) => PushAt(s, i, AtClose)
    case Finish(b) => s.managers.At(b).Serving? && s.managers.At(b).ch in s.closed
  }

  predicate WriterWants(s: State, w: Writer) {
    match w
    case ByManager(b) => s.managers.At(b).Unregistered?
    case ByHandler(i) => HandlerIs(s, i, WantsLock)
  }

  predicate WriterWaits(s: State, w: Writer) {
    match w
    case ByManager(b) => s.managers.At(b).Registering?
    case ByHandler(i) => HandlerIs(s, i, Announced)
  }

  function SetCaller(s: State, i: nat, c: Caller): State
    requires i < |s.procs| && s.procs[i].Rpc?
  {
    s.(procs := s.procs[i := s.procs[i].(caller := c)])
  }

  function SetHandler(s: State, i: nat, a: HandlerAt): State
    requires i < |s.procs| && s.procs[i].Handler?
  {
    s.(procs := s.procs[i := s.procs[i].(at := a)])
  }

  function SetPush(s: State, i: nat, p: Push): State
    requires i < |s.procs| && s.procs[i].session.Live?
  {
    s.(procs := s.procs[i := s.procs[i].(session := Live(s.procs[i].session.ch, p))])
  }

  /** The session's channel is closed; an RPC is done with it, a handler goes back to waiting for its button. */
  function EndSession(s: State, i: nat): State
    requires i < |s.procs| && s.procs[i].session.Live?
  {
    var p := s.procs[i];
    var q := if p.Rpc? then Rpc(p.b, p.caller, Over) else Handler(p.b, Idle, NoSession);
    s.(procs := s.procs[i := q], closed := s.closed + {p.session.ch})
  }

  /** The manager of `i`'s button takes a value off the session channel and drives its line with it. */
  function Receive(s: State, i: nat, v: bool): State
    requires i < |s.procs| && s.procs[i].session.Live? && Served(s, i)
  {
    var b := s.procs[i].b;
    var m := s.managers.At(b);
    s.(managers := s.managers.With(b, m.(seen := m.seen + [v])),
       driven := s.driven.With(b, s.driven.At(b) + [Level(s.inverted.At(b), v)]))
  }

  function Level(inverted: bool, v: bool): bool {
    if inverted then !v else v
  }

  /** The sender joins the end of the channel's line. */
  function JoinLine(s: State, i: nat): State
    requires i < |s.procs|
  {
    var p := s.procs[i];
    var q := if p.Rpc? then p.(caller := Blocked) else p.(at := Stalled);
    s.(procs := s.procs[i := q], waiting := s.waiting.With(p.b, s.waiting.At(p.b) + [i]),
       arrived := s.arrived.With(p.b, s.arrived.At(p.b) + [i]))
  }

  function StartServing(s: State, i: nat): State
    requires i < |s.procs| && s.waiting.At(s.procs[i].b) != []
  {
    var p := s.procs[i];
    var q := if p.Rpc? then Rpc(p.b, Unlocking, Live(s.nextCh, Start))
             else Handler(p.b, Pushing, Live(s.nextCh, AtTrue));
    s.(procs := s.procs[i := q], managers := s.managers.With(p.b, Serving(s.nextCh, [], i)), nextCh := s.nextCh + 1,
       waiting := s.waiting.With(p.b, s.waiting.At(p.b)[1..]), served := s.served.With(p.b, s.served.At(p.b) + [i]))
  }

  /** Holding the write lock: make the channel if there is none, release the lock, let the queued readers in. */
  function RegisterChannel(s: State, w: Writer): State
    requires w.ByHandler? ==> w.i < |s.procs| && s.procs[w.i].Handler?
  {
    var t := match w
             case ByManager(b) => s.(managers := s.managers.With(b, Waiting), known := s.known + {b})
             case ByHandler(i) => SetHandler(s, i, Offering).(known := s.known + {s.procs[i].b});
    t.(writer := None, readers := s.queued, queued := {})
  }

  function Do(s: State, a: Action): (t: State)
    requires Can(s, a)
  {
    match a
    case Arrive(b) => s.(procs := s.procs + [Rpc(b, Calling, NoSession)])
    case Press(i) => SetHandler(s, i, WantsLock)
    case MissRelease(i) => s.(procs := s.procs[i := Handler(s.procs[i].b, WantsLock, NoSession)])
    case RLock(i) =>
      if s.writer.None? then SetCaller(s, i, Locked).(readers := s.readers + {i})
      else SetCaller(s, i, Acquiring).(queued := s.queued + {i})
    case Granted(i) => SetCaller(s, i, Locked)
    case Lookup(i) => SetCaller(s, i, if s.procs[i].b in s.known then Sending else Unlocking)
    case RUnlock(i) => SetCaller(s, i, Returned).(readers := s.readers - {i})
    case Announce(w) =>
      (match w
       case ByManager(b) => s.(managers := s.managers.With(b, Registering))
       case ByHandler(i) => SetHandler(s, i, Announced)).(writer := Some(w))
    case Register(w) => RegisterChannel(s, w)
    case Enqueue(i) => JoinLine(s, i)
    case Accept(i) => StartServing(s, i)
    case Commit(i) => SetPush(s, i, AtTrue)
    case Cancel(i) => EndSession(s, i)
    case SendTrue(i) => SetPush(Receive(s, i, true), i, Holding)
    case EndHold(i) => SetPush(s, i, AtFalse)
    case SendFalse(i) => SetPush(Receive(s, i, false), i, AtClose)
    case Close(i) => EndSession(s, i)
    case Finish(b) =>
      s.(managers := s.managers.With(b, Waiting), done := s.done.With(b, s.done.At(b) + [s.managers.At(b).seen]))
  }

  predicate IsRun(s: State, acts: seq<Action>)
    decreases |acts|
  {
    acts == [] || (Can(s, acts[0]) && IsRun(Do(s, acts[0]), acts[1..]))
  }

  function End(s: State, acts: seq<Action>): (t: State)
    requires IsRun(s, acts)
    decreases |acts|
  {
    if acts == [] then s else End(Do(s, acts[0]), acts[1..])
  }

  // ---------------------------------------------------------------- what every step keeps

  /** What a session in this position has sent. */
  function Sent(p: Push): seq<bool> {
    match p
    case Start => []
    case AtTrue => []
    case Holding => [true]
    case AtFalse => [true]
    case AtClose => [true, false]
  }

  /** A whole session: press then release, or nothing if it was cancelled. */
  predicate Whole(seen: seq<bool>) {
    seen == [] || seen == [true, false]
  }

  /** A live session is the one its button's manager is serving, and the manager has received what it sent. */
  ghost predicate OwnerInv(s: State) {
    forall i :: 0 <= i < |s.procs| && s.procs[i].session.Live? ==>
      && s.managers.At(s.procs[i].b) == Serving(s.procs[i].session.ch, Sent(s.procs[i].session.at), i)
      && s.procs[i].session.ch < s.nextCh && s.procs[i].session.ch !in s.closed
  }

  /** A session being served is closed and whole, or its owner is live in it. */
  ghost predicate ServingInv(s: State) {
    && (forall b {:trigger s.managers.At(b)} :: s.managers.At(b).Serving? ==>
      var m := s.managers.At(b);
      && m.ch < s.nextCh
      && (m.ch in s.closed ==> Whole(m.seen))
      && (m.ch !in s.closed ==>
           && m.owner < |s.procs| && s.procs[m.owner].b == b
           && s.procs[m.owner].session.Live? && s.procs[m.owner].session.ch == m.ch))
    && (s.managers.power.Serving? && s.managers.reset.Serving? ==> s.managers.power.ch != s.managers.reset.ch)
    && (forall c :: c in s.closed ==> c < s.nextCh)
  }

  /**
   * A process's two parts agree: no session before it is accepted, and a handler pushes exactly while its session is
   * live.
   */
  predicate Consistent(p: Proc) {
    match p
    case Rpc(_, c, ses) => c in {Calling, Acquiring, Locked, Sending, Blocked} ==> ses.NoSession?
    case Handler(_, a, ses) => if a.Pushing? then ses.Live? && ses.at != Start else ses.NoSession?
  }

  ghost predicate ProcInv(s: State) {
    forall i :: 0 <= i < |s.procs| ==> Consistent(s.procs[i])
  }

  /** RPC `i` holds the read lock. */
  predicate Reads(s: State, i: nat)
    requires i < |s.procs|
  {
    && s.procs[i].Rpc?
    && (s.procs[i].caller in {Locked, Sending, Blocked, Unlocking} || (s.procs[i].caller.Acquiring? && i !in s.queued))
  }

  ghost predicate LockInv(s: State) {
    && (forall i :: i in s.readers <==> 0 <= i < |s.procs| && Reads(s, i))
    && (forall i :: i in s.queued ==> RpcAt(s, i, Acquiring))
    && (s.queued != {} ==> s.writer.Some?)
    && (forall b :: s.managers.At(b).Registering? <==> s.writer == Some(ByManager(b)))
    && (forall i: nat :: HandlerIs(s, i, Announced) <==> s.writer == Some(ByHandler(i)))
  }

  function Concat(ss: seq<seq<bool>>): seq<bool> {
    if ss == [] then [] else Concat(ss[..|ss| - 1]) + ss[|ss| - 1]
  }

  function Levels(inverted: bool, vs: seq<bool>): (r: seq<bool>)
    ensures |r| == |vs|
  {
    seq(|vs|, i requires 0 <= i < |vs| => Level(inverted, vs[i]))
  }

  function Current(m: Manager): seq<bool> {
    if m.Serving? then m.seen else []
  }

  /** A line has been driven by whole sessions, one after the other, and the part of the current one. */
  ghost predicate LineOk(inverted: bool, done: seq<seq<bool>>, current: seq<bool>, driven: seq<bool>) {
    && (forall k :: 0 <= k < |done| ==> Whole(done[k]))
    && driven == Levels(inverted, Concat(done) + current)
  }

  ghost predicate LineInvAt(s: State, b: Button) {
    LineOk(s.inverted.At(b), s.done.At(b), Current(s.managers.At(b)), s.driven.At(b))
  }

  ghost predicate LineInv(s: State) {
    LineInvAt(s, Power) && LineInvAt(s, Reset)
  }

  lemma LineReceives(inverted: bool, done: seq<seq<bool>>, current: seq<bool>, driven: seq<bool>, v: bool)
    requires LineOk(inverted, done, current, driven)
    ensures LineOk(inverted, done, current + [v], driven + [v != inverted])
  {
    assert Concat(done) + (current + [v]) == Concat(done) + current + [v];
  }

  lemma LineFinishes(inverted: bool, done: seq<seq<bool>>, current: seq<bool>, driven: seq<bool>)
    requires LineOk(inverted, done, current, driven) && Whole(current)
    ensures LineOk(inverted, done + [current], [], driven)
  {
    assert (done + [current])[..|done|] == done;
    assert Concat(done + [current]) + [] == Concat(done) + current;
  }

  /** The line of a button holds each process that is blocked sending to it, once. */
  ghost predicate LineUp(procs: seq<Proc>, line: seq<nat>, b: Button) {
    && (forall j, k :: 0 <= j < k < |line| ==> line[j] != line[k])
    && (forall i :: i in line <==> 0 <= i < |procs| && procs[i].b == b && InLine(procs[i]))
  }

  /** Turns go by arrival, one finished session for each turn but the current one. */
  ghost predicate TurnsOk(m: Manager, done: seq<seq<bool>>, arrived: seq<nat>, served: seq<nat>, line: seq<nat>) {
    && arrived == served + line
    && |served| == |done| + (if m.Serving? then 1 else 0)
    && (m.Serving? ==> served[|served| - 1] == m.owner)
  }

  ghost predicate TurnsOkAt(s: State, b: Button) {
    TurnsOk(s.managers.At(b), s.done.At(b), s.arrived.At(b), s.served.At(b), s.waiting.At(b))
  }

  ghost predicate QueueInvAt(s: State, b: Button) {
    LineUp(s.procs, s.waiting.At(b), b) && TurnsOkAt(s, b)
  }

  ghost predicate QueueInv(s: State) {
    QueueInvAt(s, Power) && QueueInvAt(s, Reset)
  }

  /** What holds in every state, as long as the edges of physical buttons alternate. */
  ghost predicate Inv(s: State) {
    s.alternating && OwnerInv(s) && ServingInv(s) && ProcInv(s) && LockInv(s) && LineInv(s) && QueueInv(s)
  }

  lemma InitInv(handlers: seq<Button>, inverted: Both<bool>)
    ensures Inv(Init(handlers, inverted, true))
  {}

  /**
   * Steps that only move processes towards a session; the others are steps of sessions and managers, or a missed edge.
   */
  predicate IsApproach(a: Action) {
    || a.Arrive? || a.Press? || a.RLock? || a.Granted? || a.Lookup? || a.RUnlock? || a.Announce? || a.Register?
    || a.Enqueue?
  }

  predicate IsSession(a: Action) {
    !IsApproach(a) && !a.MissRelease?
  }

  lemma ApproachKeepsProc(s: State, a: Action)
    requires ProcInv(s) && Can(s, a) && IsApproach(a)
    ensures ProcInv(Do(s, a))
  {}

  lemma KeepsProc(s: State, a: Action)
    requires ProcInv(s) && Can(s, a)
    ensures ProcInv(Do(s, a))
  {
    if IsApproach(a) {
      ApproachKeepsProc(s, a);
    }
  }

  // ---------------------------------------------------------------- the line of senders

  lemma LineUpSame(procs: seq<Proc>, next: seq<Proc>, line: seq<nat>, b: Button)
    requires LineUp(procs, line, b) && |procs| <= |next|
    requires forall i :: 0 <= i < |procs| ==> next[i].b == procs[i].b && InLine(next[i]) == InLine(procs[i])
    requires forall i :: |procs| <= i < |next| ==> !InLine(next[i])
    ensures LineUp(next, line, b)
  {}

  lemma LineUpJoins(procs: seq<Proc>, line: seq<nat>, b: Button, i: nat, p: Proc)
    requires LineUp(procs, line, b) && i < |procs| && !InLine(procs[i]) && p.b == procs[i].b && InLine(p)
    ensures LineUp(procs[i := p], if p.b == b then line + [i] else line, b)
  {}

  lemma LineUpLeaves(procs: seq<Proc>, line: seq<nat>, b: Button, p: Proc)
    requires LineUp(procs, line, b) && line != [] && p.b == b && !InLine(p)
    ensures line[0] < |procs| && LineUp(procs[line[0] := p], line[1..], b)
  {
    var i, rest := line[0], line[1..];
    assert i in line;
    assert line == [i] + rest;
    assert forall k :: 0 <= k < |rest| ==> rest[k] == line[k + 1];
    assert i !in rest;
    assert forall x :: x in rest <==> x in line && x != i;
  }

  lemma LineUpElsewhere(procs: seq<Proc>, line: seq<nat>, b: Button, i: nat, p: Proc)
    requires LineUp(procs, line, b) && i < |procs| && p.b == procs[i].b != b
    ensures LineUp(procs[i := p], line, b)
  {}

  ghost predicate SamePlaces(s: State, t: State) {
    && |s.procs| <= |t.procs| && t.waiting == s.waiting
    && (forall i :: 0 <= i < |s.procs| ==> t.procs[i].b == s.procs[i].b && InLine(t.procs[i]) == InLine(s.procs[i]))
    && (forall i :: |s.procs| <= i < |t.procs| ==> !InLine(t.procs[i]))
  }

  lemma WriterKeepsPlaces(s: State, a: Action)
    requires Can(s, a) && (a.Announce? || a.Register?)
    ensures SamePlaces(s, Do(s, a))
  {}

  lemma ApproachKeepsPlaces(s: State, a: Action)
    requires Can(s, a) && IsApproach(a) && !a.Enqueue?
    ensures SamePlaces(s, Do(s, a))
  {
    if a.Announce? || a.Register? {
      WriterKeepsPlaces(s, a);
    }
  }

  lemma SessionKeepsPlaces(s: State, a: Action)
    requires ProcInv(s) && Can(s, a) && !IsApproach(a) && !a.Accept?
    ensures SamePlaces(s, Do(s, a))
  {}

  lemma KeepsLineUp(s: State, a: Action, b: Button)
    requires LineUp(s.procs, s.waiting.At(b), b) && ProcInv(s) && Can(s, a)
    ensures LineUp(Do(s, a).procs, Do(s, a).waiting.At(b), b)
  {
    var t := Do(s, a);
    if a.Enqueue? {
      LineUpJoins(s.procs, s.waiting.At(b), b, a.i, t.procs[a.i]);
    } else if a.Accept? {
      if s.procs[a.i].b == b {
        LineUpLeaves(s.procs, s.waiting.At(b), b, t.procs[a.i]);
      } else {
        LineUpElsewhere(s.procs, s.waiting.At(b), b, a.i, t.procs[a.i]);
      }
    } else {
      if IsApproach(a) {
        ApproachKeepsPlaces(s, a);
      } else {
        SessionKeepsPlaces(s, a);
      }
      LineUpSame(s.procs, t.procs, s.waiting.At(b), b);
    }
  }

  lemma ApproachKeepsTurns(s: State, a: Action, b: Button)
    requires QueueInvAt(s, b) && Can(s, a) && IsApproach(a)
    ensures TurnsOkAt(Do(s, a), b)
  {}

  lemma KeepsTurns(s: State, a: Action, b: Button)
    requires QueueInvAt(s, b) && Can(s, a)
    ensures TurnsOkAt(Do(s, a), b)
  {
    var line := s.waiting.At(b);
    if IsApproach(a) {
      ApproachKeepsTurns(s, a, b);
    } else if a.Accept? && s.procs[a.i].b == b {
      assert s.served.At(b) + line == s.served.At(b) + [line[0]] + line[1..];
    }
  }

  // ---------------------------------------------------------------- steps

  lemma RegisterKeepsLock(s: State, w: Writer)
    requires LockInv(s) && ProcInv(s) && Can(s, Register(w))
    ensures LockInv(Do(s, Register(w)))
  {
    var t := Do(s, Register(w));
    forall i | 0 <= i < |t.procs|
      ensures i in t.readers <==> Reads(t, i)
    {
      assert i !in s.readers;
      assert i in s.queued ==> RpcAt(s, i, Acquiring);
    }
    forall i: nat
      ensures !HandlerIs(t, i, Announced)
    {
      assert HandlerIs(s, i, Announced) <==> s.writer == Some(ByHandler(i));
    }
  }

  lemma ReaderKeepsLock(s: State, a: Action)
    requires LockInv(s) && Can(s, a) && (a.RLock? || a.Granted? || a.Lookup? || a.RUnlock?)
    ensures LockInv(Do(s, a))
  {}

  lemma OutsideKeepsLock(s: State, a: Action)
    requires LockInv(s) && Can(s, a) && (a.Arrive? || a.Press? || a.Announce? || a.Enqueue?)
    ensures LockInv(Do(s, a))
  {}

  lemma ApproachKeepsLock(s: State, a: Action)
    requires LockInv(s) && ProcInv(s) && Can(s, a) && IsApproach(a)
    ensures LockInv(Do(s, a))
  {
    if a.Register? {
      RegisterKeepsLock(s, a.w);
    } else if a.RLock? || a.Granted? || a.Lookup? || a.RUnlock? {
      ReaderKeepsLock(s, a);
    } else {
      OutsideKeepsLock(s, a);
    }
  }

  lemma AcceptKeepsLock(s: State, i: nat)
    requires LockInv(s) && ProcInv(s) && Can(s, Accept(i))
    ensures LockInv(Do(s, Accept(i)))
  {}

  lemma SessionKeepsLock(s: State, a: Action)
    requires LockInv(s) && ProcInv(s) && Can(s, a) && IsSession(a)
    ensures LockInv(Do(s, a))
  {
    if a.Accept? {
      AcceptKeepsLock(s, a.i);
    }
  }

  /** An approach changes no session, and a manager only while it is not serving. */
  lemma ApproachTouchesNoSession(s: State, a: Action)
    requires Can(s, a) && IsApproach(a)
    ensures var t := Do(s, a);
            && |s.procs| <= |t.procs| && t.nextCh == s.nextCh && t.closed == s.closed
            && (forall i :: 0 <= i < |s.procs| ==>
                  t.procs[i].b == s.procs[i].b && t.procs[i].session == s.procs[i].session)
            && (forall i :: |s.procs| <= i < |t.procs| ==> !t.procs[i].session.Live?)
            && (forall b {:trigger s.managers.At(b)} {:trigger t.managers.At(b)} ::
                  t.managers.At(b) == s.managers.At(b) || (!s.managers.At(b).Serving? && !t.managers.At(b).Serving?))
  {}

  lemma ApproachKeepsSessions(s: State, a: Action)
    requires OwnerInv(s) && ServingInv(s) && Can(s, a) && IsApproach(a)
    ensures OwnerInv(Do(s, a)) && ServingInv(Do(s, a))
  {
    ApproachTouchesNoSession(s, a);
    var t := Do(s, a);
    assert t.managers.At(Power) == t.managers.power && t.managers.At(Reset) == t.managers.reset;
  }

  lemma ApproachKeepsLine(s: State, a: Action, b: Button)
    requires LineInvAt(s, b) && Can(s, a) && IsApproach(a)
    ensures LineInvAt(Do(s, a), b)
  {
    var t := Do(s, a);
    assert Current(t.managers.At(b)) == Current(s.managers.At(b));
    assert t.driven == s.driven && t.done == s.done && t.inverted == s.inverted;
  }

  /** Steps by which a session begins or ends. */
  predicate IsTurnover(a: Action) {
    a.Accept? || a.Cancel? || a.Close? || a.Finish?
  }

  lemma TurnoverKeepsOwner(s: State, a: Action)
    requires OwnerInv(s) && ServingInv(s) && ProcInv(s) && Can(s, a) && IsTurnover(a)
    ensures OwnerInv(Do(s, a))
  {}

  lemma PushKeepsOwner(s: State, a: Action)
    requires OwnerInv(s) && Can(s, a) && IsSession(a) && !IsTurnover(a)
    ensures OwnerInv(Do(s, a))
  {}

  lemma BeginKeepsServing(s: State, i: nat)
    requires OwnerInv(s) && ServingInv(s) && ProcInv(s) && Can(s, Accept(i))
    ensures ServingInv(Do(s, Accept(i)))
  {
    assert s.managers.At(Power).Serving? ==> s.managers.At(Power).ch < s.nextCh;
    assert s.managers.At(Reset).Serving? ==> s.managers.At(Reset).ch < s.nextCh;
  }

  lemma EndKeepsServing(s: State, a: Action)
    requires OwnerInv(s) && ServingInv(s) && ProcInv(s) && Can(s, a) && IsTurnover(a) && !a.Accept?
    ensures ServingInv(Do(s, a))
  {}

  lemma PushKeepsServing(s: State, a: Action)
    requires OwnerInv(s) && ServingInv(s) && Can(s, a) && IsSession(a) && !IsTurnover(a)
    ensures ServingInv(Do(s, a))
  {}

  lemma SessionKeepsSessions(s: State, a: Action)
    requires OwnerInv(s) && ServingInv(s) && ProcInv(s) && Can(s, a) && IsSession(a)
    ensures OwnerInv(Do(s, a)) && ServingInv(Do(s, a))
  {
    if IsTurnover(a) {
      TurnoverKeepsOwner(s, a);
      if a.Accept? {
        BeginKeepsServing(s, a.i);
      } else {
        EndKeepsServing(s, a);
      }
    } else {
      PushKeepsOwner(s, a);
      PushKeepsServing(s, a);
    }
  }

  lemma SessionKeepsLine(s: State, a: Action, b: Button)
    requires LineInvAt(s, b) && ServingInv(s) && Can(s, a) && IsSession(a)
    ensures LineInvAt(Do(s, a), b)
  {
    var inv, done, cur, driven := s.inverted.At(b), s.done.At(b), Current(s.managers.At(b)), s.driven.At(b);
    if a.SendTrue? || a.SendFalse? {
      LineReceives(inv, done, cur, driven, a.SendTrue?);
    } else if a == Finish(b) {
      LineFinishes(inv, done, cur, driven);
    } else {
      assert Current(Do(s, a).managers.At(b)) == cur;
    }
  }

  lemma StepKeepsInv(s: State, a: Action)
    requires Inv(s) && Can(s, a)
    ensures Inv(Do(s, a))
  {
    KeepsProc(s, a);
    KeepsLineUp(s, a, Power);
    KeepsLineUp(s, a, Reset);
    KeepsTurns(s, a, Power);
    KeepsTurns(s, a, Reset);
    if IsApproach(a) {
      ApproachKeepsLock(s, a);
      ApproachKeepsSessions(s, a);
      ApproachKeepsLine(s, a, Power);
      ApproachKeepsLine(s, a, Reset);
    } else {
      SessionKeepsLock(s, a);
      SessionKeepsSessions(s, a);
      SessionKeepsLine(s, a, Power);
      SessionKeepsLine(s, a, Reset);
    }
  }
}
