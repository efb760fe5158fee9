/**
 * The UART fan-out: a receiver that copies each chunk to the readers it saw, while readers come, go and drain their
 * queues. The reader list is a slice over shared backing arrays, as appends and snapshots see it.
 */
module Uart {
  const QUEUE_LIMIT := 1024

  /** The first `len` cells of backing array `arr`. Array 0 is the empty one behind the nil slice. */
  datatype Slice = Slice(arr: nat, len: nat)

  const NIL := Slice(0, 0)

  /** A registered stream: chunk numbers its consumer has taken, waiting in its channel, and dropped as it was full. */
  datatype Reader = Reader(taken: seq<nat>, queue: seq<nat>, drops: seq<nat>)
  {
    function Stream(): seq<nat> {
      taken + queue
    }
  }

  /** The receive loop: blocked in Read, holding a chunk before the lock, or handing it out from a snapshot. */
  datatype Receiver = Reading | Holding | Offering(rs: Slice, pos: nat)

  /**
   * `arrays` are the backing arrays, `grow` how much spare room a reallocating append leaves; `chunks` counts the
   * reads, `overruns` is the counter of dropped chunks. `snapshot` and `past` are bookkeeping: the list as it was when
   * the current snapshot was taken, and all snapshots before it, one for each chunk.
   */
  datatype State = State(
    arrays: seq<seq<nat>>, grow: nat -> nat, readers: Slice, table: seq<Reader>,
    chunks: nat, receiver: Receiver, overruns: nat, snapshot: seq<nat>, past: seq<seq<nat>>)

  datatype Action = Register | Remove(r: nat) | Read | Snapshot | Offer | Loop | Take(r: nat)

  function Init(grow: nat -> nat): State {
    State([[]], grow, NIL, [], 0, Reading, 0, [], [])
  }

  // ---------------------------------------------------------------- slices

  predicate InBounds(arrays: seq<seq<nat>>, s: Slice) {
    s.arr < |arrays| && s.len <= |arrays[s.arr]|
  }

  function Contents(arrays: seq<seq<nat>>, s: Slice): (c: seq<nat>)
    requires InBounds(arrays, s)
    ensures |c| == s.len
  {
    arrays[s.arr][..s.len]
  }

  /** Go's append: in place while there is room, otherwise into a new, larger array. */
  function Append(arrays: seq<seq<nat>>, grow: nat -> nat, s: Slice, x: nat): (r: (seq<seq<nat>>, Slice))
    requires InBounds(arrays, s)
    ensures InBounds(r.0, r.1) && Contents(r.0, r.1) == Contents(arrays, s) + [x]
    ensures |r.0| >= |arrays|
    ensures forall a :: 0 <= a < |arrays| ==> |r.0[a]| == |arrays[a]|
    ensures forall a :: 0 <= a < |arrays| && a != s.arr ==> r.0[a] == arrays[a]
    ensures r.0[s.arr][..s.len] == arrays[s.arr][..s.len]
    ensures s.len < |arrays[s.arr]| ==> r.1.arr == s.arr && |r.0| == |arrays|
    ensures s.len == |arrays[s.arr]| ==> r.1.arr == |arrays| && |r.0| == |arrays| + 1
  {
    if s.len < |arrays[s.arr]| then
      var cells: seq<nat> := arrays[s.arr][..s.len] + [x] + arrays[s.arr][s.len + 1..];
      (arrays[s.arr := cells], Slice(s.arr, s.len + 1))
    else
      (arrays + [arrays[s.arr][..s.len] + [x] + seq(grow(s.len), _ => 0)], Slice(|arrays|, s.len + 1))
  }

  function Without(xs: seq<nat>, x: nat): (r: seq<nat>) {
    if xs == [] then []
    else Without(xs[..|xs| - 1], x) + if xs[|xs| - 1] == x then [] else [xs[|xs| - 1]]
  }

  /** The removal loop: everything but `x` appended to a slice that starts out nil. */
  function Rebuild(arrays: seq<seq<nat>>, grow: nat -> nat, xs: seq<nat>, x: nat): (r: (seq<seq<nat>>, Slice))
    requires |arrays| > 0 && arrays[0] == []
    ensures InBounds(r.0, r.1) && Contents(r.0, r.1) == Without(xs, x)
    ensures |r.0| >= |arrays|
    ensures r.1 == NIL || r.1.arr >= |arrays|
    ensures forall a :: 0 <= a < |arrays| ==> r.0[a] == arrays[a]
  {
    if xs == [] then (arrays, NIL)
    else
      var (h, s) := Rebuild(arrays, grow, xs[..|xs| - 1], x);
      if xs[|xs| - 1] == x then (h, s) else Append(h, grow, s, xs[|xs| - 1])
  }

  // ---------------------------------------------------------------- the machine

  predicate Can(s: State, a: Action) {
    match a
    case Register => InBounds(s.arrays, s.readers)
    case Remove(r) => InBounds(s.arrays, s.readers) && |s.arrays| > 0 && s.arrays[0] == []
    case Read => s.receiver.Reading?
    case Snapshot => s.receiver.Holding? && InBounds(s.arrays, s.readers)
    case Offer =>
      && s.receiver.Offering? && s.receiver.pos < s.receiver.rs.len && InBounds(s.arrays, s.receiver.rs)
      && s.arrays[s.receiver.rs.arr][s.receiver.pos] < |s.table| && s.chunks > 0
    case Loop => s.receiver.Offering? && s.receiver.pos == s.receiver.rs.len
    case Take(r) => r < |s.table| && s.table[r].queue != []
  }

  function Do(s: State, a: Action): (t: State)
    requires Can(s, a)
  {
    match a
    case Register =>
      var (h, r) := Append(s.arrays, s.grow, s.readers, |s.table|);
      s.(arrays := h, readers := r, table := s.table + [Reader([], [], [])])
    case Remove(x) =>
      var (h, r) := Rebuild(s.arrays, s.grow, Contents(s.arrays, s.readers), x);
      s.(arrays := h, readers := r)
    case Read => s.(chunks := s.chunks + 1, receiver := Holding)
    case Snapshot => s.(receiver := Offering(s.readers, 0), snapshot := Contents(s.arrays, s.readers))
    case Offer =>
      var r := s.arrays[s.receiver.rs.arr][s.receiver.pos];
      var next := Offering(s.receiver.rs, s.receiver.pos + 1);
      var q := s.table[r];
      if |q.queue| < QUEUE_LIMIT
      then s.(table := s.table[r := q.(queue := q.queue + [s.chunks - 1])], receiver := next)
      else s.(table := s.table[r := q.(drops := q.drops + [s.chunks - 1])], overruns := s.overruns + 1,
              receiver := next)
    case Loop => s.(receiver := Reading, past := s.past + [s.snapshot])
    case Take(r) =>
      var q := s.table[r];
      s.(table := s.table[r := Reader(q.taken + [q.queue[0]], q.queue[1..], q.drops)])
  }

  predicate IsRun(s: State, acts: seq<Action>)
    decreases |acts|
  {
    acts == [] || (Can(s, acts[0]) && IsRun(Do(s, acts[0]), acts[1..]))
  }

  function End(s: State, acts: seq<Action>): (t: State)
    requires IsRun(s, acts)
    decreases |acts|
  {
    if acts == [] then s else End(Do(s, acts[0]), acts[1..])
  }

  // ---------------------------------------------------------------- what every step keeps

  ghost predicate Distinct(xs: seq<nat>) {
    forall i, j :: 0 <= i < j < |xs| ==> xs[i] != xs[j]
  }

  ghost predicate AllBelow(xs: seq<nat>, n: nat) {
    forall i :: 0 <= i < |xs| ==> xs[i] < n
  }

  ghost predicate Increasing(xs: seq<nat>) {
    forall i, j :: 0 <= i < j < |xs| ==> xs[i] < xs[j]
  }

  /** The reader list is in its array, without repetition, and so is the snapshot, unaltered since it was taken. */
  ghost predicate ListInv(s: State) {
    && |s.arrays| > 0 && s.arrays[0] == []
    && InBounds(s.arrays, s.readers)
    && Distinct(Contents(s.arrays, s.readers)) && AllBelow(Contents(s.arrays, s.readers), |s.table|)
    && (s.receiver.Offering? ==>
         && InBounds(s.arrays, s.receiver.rs) && Contents(s.arrays, s.receiver.rs) == s.snapshot
         && Distinct(s.snapshot) && AllBelow(s.snapshot, |s.table|)
         && s.receiver.pos <= s.receiver.rs.len
         && (s.receiver.rs.arr == s.readers.arr ==> s.receiver.rs.len <= s.readers.len))
  }

  /** The chunk in the receiver's hands has gone to reader `r` already. */
  ghost predicate Reached(s: State, r: nat) {
    s.receiver.Offering? && s.receiver.pos <= |s.snapshot| && r in s.snapshot[..s.receiver.pos]
  }

  /** How many chunks can have gone to reader `r` so far. */
  function Limit(s: State, reached: bool): int {
    if s.receiver.Reading? || reached then s.chunks else s.chunks - 1
  }

  ghost predicate StreamOk(s: State, r: nat)
    requires r < |s.table|
  {
    && Increasing(s.table[r].Stream()) && |s.table[r].queue| <= QUEUE_LIMIT
    && forall k :: 0 <= k < |s.table[r].Stream()| ==> s.table[r].Stream()[k] < Limit(s, Reached(s, r))
  }

  ghost predicate StreamInv(s: State) {
    && (!s.receiver.Reading? ==> s.chunks > 0)
    && forall r :: 0 <= r < |s.table| ==> StreamOk(s, r)
  }

  function Delivered(table: seq<Reader>): nat {
    if table == [] then 0 else Delivered(table[..|table| - 1]) + |table[|table| - 1].Stream()|
  }

  /** The sizes of all snapshots, added up. */
  function Sizes(past: seq<seq<nat>>): nat {
    if past == [] then 0 else Sizes(past[..|past| - 1]) + |past[|past| - 1]|
  }

  /** Everything offered was delivered or counted as an overrun. */
  ghost predicate CountInv(s: State) {
    Delivered(s.table) + s.overruns == Sizes(s.past) + if s.receiver.Offering? then s.receiver.pos else 0
  }

  /** The chunks whose snapshots held reader `r`. */
  function Due(past: seq<seq<nat>>, r: nat): seq<nat> {
    if past == [] then []
    else Due(past[..|past| - 1], r) + if r in past[|past| - 1] then [|past| - 1] else []
  }

  /** The chunks offered to reader `r` so far. */
  ghost function Offered(s: State, r: nat): seq<nat> {
    Due(s.past, r) + if Reached(s, r) then [|s.past|] else []
  }

  /** `both` has exactly the members of `xs` and of `ys`, which share none. */
  ghost predicate Splits(both: seq<nat>, xs: seq<nat>, ys: seq<nat>) {
    && |both| == |xs| + |ys|
    && (forall c :: c in both <==> c in xs || c in ys)
    && (forall c :: c in xs ==> c !in ys)
  }

  /** What was offered to a reader is what it received and what it lost, and nothing else. */
  ghost predicate Shared(s: State, r: nat)
    requires r < |s.table|
  {
    Splits(Offered(s, r), s.table[r].Stream(), s.table[r].drops) && Increasing(s.table[r].drops)
  }

  ghost predicate ShareInv(s: State) {
    && s.chunks == |s.past| + (if s.receiver.Reading? then 0 else 1)
    && forall r :: 0 <= r < |s.table| ==> Shared(s, r)
  }

  /** No snapshot, past or present, holds a reader that has not registered yet. */
  ghost predicate PastInv(s: State) {
    forall k :: 0 <= k < |s.past| ==> AllBelow(s.past[k], |s.table|)
  }

  ghost predicate Inv(s: State) {
    ListInv(s) && StreamInv(s) && CountInv(s) && PastInv(s) && ShareInv(s)
  }

  lemma InitInv(grow: nat -> nat)
    ensures Inv(Init(grow))
  {}

  lemma {:induction false} WithoutIs(xs: seq<nat>, x: nat)
    requires Distinct(xs)
    ensures Distinct(Without(xs, x))
    ensures forall y :: y in Without(xs, x) <==> y in xs && y != x
  {
    if xs != [] {
      var ys, last := xs[..|xs| - 1], xs[|xs| - 1];
      assert forall i :: 0 <= i < |ys| ==> ys[i] == xs[i];
      WithoutIs(ys, x);
      assert xs == ys + [last];
      assert last !in ys;
    }
  }

  lemma KeepsList(s: State, a: Action)
    requires ListInv(s) && Can(s, a)
    ensures ListInv(Do(s, a))
  {
    if a.Remove? {
      var xs := Contents(s.arrays, s.readers);
      WithoutIs(xs, a.r);
      var ys := Without(xs, a.r);
      assert forall i :: 0 <= i < |ys| ==> ys[i] in xs;
    }
  }

  lemma OfferKeepsStream(s: State, q: nat)
    requires ListInv(s) && StreamInv(s) && Can(s, Offer) && q < |s.table|
    ensures StreamOk(Do(s, Offer), q)
  {
    var t, pos := Do(s, Offer), s.receiver.pos;
    var r := s.snapshot[pos];
    assert s.arrays[s.receiver.rs.arr][pos] == r;
    assert r !in s.snapshot[..pos];
    assert s.snapshot[..pos + 1] == s.snapshot[..pos] + [r];
    assert StreamOk(s, q);
    if q == r && t.table[q].queue != s.table[q].queue {
      assert t.table[q].Stream() == s.table[q].Stream() + [s.chunks - 1];
    } else {
      assert t.table[q].Stream() == s.table[q].Stream();
    }
  }

  lemma KeepsStreams(s: State, a: Action)
    requires ListInv(s) && StreamInv(s) && Can(s, a)
    ensures StreamInv(Do(s, a))
  {
    var t := Do(s, a);
    forall q | 0 <= q < |t.table|
      ensures StreamOk(t, q)
    {
      if a.Offer? {
        OfferKeepsStream(s, q);
      } else if q < |s.table| {
        assert StreamOk(s, q);
        assert t.table[q].Stream() == s.table[q].Stream();
      }
    }
  }

  lemma {:induction false} DeliveredUpdate(table: seq<Reader>, r: nat, x: Reader)
    requires r < |table|
    ensures Delivered(table[r := x]) == Delivered(table) - |table[r].Stream()| + |x.Stream()|
  {
    var n := |table| - 1;
    if r < n {
      DeliveredUpdate(table[..n], r, x);
      assert table[r := x][..n] == table[..n][r := x];
    } else {
      assert table[r := x][..n] == table[..n];
    }
  }

  lemma KeepsCount(s: State, a: Action)
    requires ListInv(s) && CountInv(s) && Can(s, a)
    ensures CountInv(Do(s, a))
  {
    var t := Do(s, a);
    match a
    case Register => assert t.table[..|s.table|] == s.table;
    case Offer =>
      var r := s.arrays[s.receiver.rs.arr][s.receiver.pos];
      DeliveredUpdate(s.table, r, t.table[r]);
    case Take(r) => DeliveredUpdate(s.table, r, t.table[r]);
    case _ =>
  }

  lemma KeepsPast(s: State, a: Action)
    requires ListInv(s) && PastInv(s) && Can(s, a)
    ensures PastInv(Do(s, a))
  {
    var t := Do(s, a);
    forall k | 0 <= k < |t.past| ensures AllBelow(t.past[k], |t.table|) {
      if k < |s.past| {
        assert AllBelow(s.past[k], |s.table|);
      }
    }
  }

  lemma SplitsMore(both: seq<nat>, xs: seq<nat>, ys: seq<nat>, x: nat)
    requires Splits(both, xs, ys) && x !in both
    ensures Splits(both + [x], xs + [x], ys) && Splits(both + [x], xs, ys + [x])
  {}

  lemma {:induction false} DueMember(past: seq<seq<nat>>, r: nat, c: nat)
    ensures c in Due(past, r) <==> c < |past| && r in past[c]
  {
    if past != [] {
      DueMember(past[..|past| - 1], r, c);
    }
  }

  lemma {:induction false} DueIncreasing(past: seq<seq<nat>>, r: nat)
    ensures Increasing(Due(past, r))
  {
    if past != [] {
      var before := Due(past[..|past| - 1], r);
      DueIncreasing(past[..|past| - 1], r);
      forall k | 0 <= k < |before| ensures before[k] < |past| - 1 {
        DueMember(past[..|past| - 1], r, before[k]);
      }
    }
  }

  /** The chunks whose snapshots held a reader, in order. */
  lemma DueIs(past: seq<seq<nat>>, r: nat)
    ensures Increasing(Due(past, r))
    ensures forall c: nat :: c in Due(past, r) <==> c < |past| && r in past[c]
  {
    DueIncreasing(past, r);
    forall c: nat ensures c in Due(past, r) <==> c < |past| && r in past[c] {
      DueMember(past, r, c);
    }
  }

  lemma {:induction false} DueNone(past: seq<seq<nat>>, n: nat)
    requires forall k :: 0 <= k < |past| ==> AllBelow(past[k], n)
    ensures Due(past, n) == []
  {
    if past != [] {
      DueNone(past[..|past| - 1], n);
      assert AllBelow(past[|past| - 1], n);
    }
  }

  /** The reader whose turn it is has the chunk put in its queue or counted among its drops. */
  lemma TurnShares(s: State, t: State, q: nat)
    requires q < |s.table| == |t.table| && Shared(s, q) && !Reached(s, q)
    requires t.past == s.past && Reached(t, q)
    requires (t.table[q].drops == s.table[q].drops && t.table[q].Stream() == s.table[q].Stream() + [|s.past|])
          || (t.table[q].drops == s.table[q].drops + [|s.past|] && t.table[q].Stream() == s.table[q].Stream())
    ensures Shared(t, q)
  {
    var offered, x := Offered(s, q), |s.past|;
    DueIs(s.past, q);
    SplitsMore(offered, s.table[q].Stream(), s.table[q].drops, x);
    assert Offered(t, q) == offered + [x];
    assert forall k :: 0 <= k < |s.table[q].drops| ==> s.table[q].drops[k] in offered;
  }

  lemma OfferShares(s: State, q: nat)
    requires ListInv(s) && ShareInv(s) && Can(s, Offer) && q < |s.table|
    ensures Shared(Do(s, Offer), q)
  {
    var t, pos := Do(s, Offer), s.receiver.pos;
    var r := s.snapshot[pos];
    assert s.arrays[s.receiver.rs.arr][pos] == r;
    assert r !in s.snapshot[..pos];
    assert s.snapshot[..pos + 1] == s.snapshot[..pos] + [r];
    assert Shared(s, q);
    if q == r {
      assert s.table[q].taken + (s.table[q].queue + [s.chunks - 1]) == s.table[q].Stream() + [s.chunks - 1];
      TurnShares(s, t, q);
    } else {
      assert Offered(t, q) == Offered(s, q);
    }
  }

  lemma LoopShares(s: State, q: nat)
    requires ListInv(s) && ShareInv(s) && Can(s, Loop) && q < |s.table|
    ensures Offered(Do(s, Loop), q) == Offered(s, q)
  {
    var t := Do(s, Loop);
    assert t.past[..|s.past|] == s.past;
    assert s.snapshot[..s.receiver.pos] == s.snapshot;
  }

  lemma KeepsShares(s: State, a: Action)
    requires ListInv(s) && PastInv(s) && ShareInv(s) && Can(s, a)
    ensures ShareInv(Do(s, a))
  {
    var t := Do(s, a);
    forall q | 0 <= q < |t.table|
      ensures Shared(t, q)
    {
      if a.Offer? {
        OfferShares(s, q);
      } else if q < |s.table| {
        assert Shared(s, q);
        assert t.table[q].Stream() == s.table[q].Stream();
        if a.Loop? {
          LoopShares(s, q);
        } else {
          assert Offered(t, q) == Offered(s, q);
        }
      } else {
        DueNone(s.past, q);
        assert !Reached(s, q);
        assert Offered(t, q) == [];
      }
    }
  }

  lemma StepKeepsInv(s: State, a: Action)
    requires Inv(s) && Can(s, a)
    ensures Inv(Do(s, a))
  {
    KeepsList(s, a);
    KeepsStreams(s, a);
    KeepsCount(s, a);
    KeepsPast(s, a);
    KeepsShares(s, a);
  }

  lemma {:induction false} RunKeepsInv(s: State, acts: seq<Action>)
    requires Inv(s) && IsRun(s, acts)
    ensures Inv(End(s, acts))
    decreases |acts|
  {
    if acts != [] {
      StepKeepsInv(s, acts[0]);
      RunKeepsInv(Do(s, acts[0]), acts[1..]);
    }
  }

  // ---------------------------------------------------------------- what holds of every run

  ghost predicate Reachable(s: State) {
    exists grow: nat -> nat, acts: seq<Action> :: IsRun(Init(grow), acts) && End(Init(grow), acts) == s
  }

  lemma ReachableInv(s: State)
    requires Reachable(s)
    ensures Inv(s)
  {
    var grow: nat -> nat, acts: seq<Action> :| IsRun(Init(grow), acts) && End(Init(grow), acts) == s;
    InitInv(grow);
    RunKeepsInv(Init(grow), acts);
  }

  /** Each reader gets chunks in order, none twice, none that was not read, and never has more than 1024 waiting. */
  lemma StreamsAreSubsequences(s: State, r: nat)
    requires Reachable(s) && r < |s.table|
    ensures Increasing(s.table[r].Stream()) && AllBelow(s.table[r].Stream(), s.chunks)
    ensures |s.table[r].queue| <= 1024
  {
    ReachableInv(s);
    assert StreamOk(s, r);
  }

  /** Deliveries and overruns add up to the sizes of the snapshots offered. */
  lemma NothingLostUncounted(s: State)
    requires Reachable(s)
    ensures Delivered(s.table) + s.overruns == Sizes(s.past) + if s.receiver.Offering? then s.receiver.pos else 0
  {
    ReachableInv(s);
  }

  /**
   * For each reader: the chunks offered to it are the ones it received and the ones dropped at its full queue, each in
   * order and none of them both; so the two add up, and it gets nothing it was not offered.
   */
  lemma EachReaderAccounted(s: State, r: nat)
    requires Reachable(s) && r < |s.table|
    ensures |s.table[r].Stream()| + |s.table[r].drops| == |Offered(s, r)|
    ensures forall c :: c in Offered(s, r) <==> c in s.table[r].Stream() || c in s.table[r].drops
    ensures forall c :: c in s.table[r].Stream() ==> c !in s.table[r].drops
    ensures Increasing(s.table[r].Stream()) && Increasing(s.table[r].drops)
  {
    ReachableInv(s);
    assert Shared(s, r) && StreamOk(s, r);
  }

  /**
   * An offer to a reader: the current chunk goes to the end of its queue if fewer than 1024 chunks are waiting there,
   * and otherwise among its drops, with one more overrun. Nobody else's stream changes.
   */
  lemma DroppedOnlyWhenFull(s: State)
    requires Reachable(s) && Can(s, Offer)
    ensures s.receiver.pos < |s.snapshot|
    ensures var t, r := Do(s, Offer), s.snapshot[s.receiver.pos];
            && r < |s.table| == |t.table|
            && (|s.table[r].queue| < 1024 ==>
                  && t.table[r] == s.table[r].(queue := s.table[r].queue + [s.chunks - 1])
                  && t.overruns == s.overruns)
            && (|s.table[r].queue| == 1024 ==>
                  && t.table[r] == s.table[r].(drops := s.table[r].drops + [s.chunks - 1])
                  && t.overruns == s.overruns + 1)
            && |s.table[r].queue| <= 1024
            && forall q :: 0 <= q < |s.table| && q != r ==> t.table[q] == s.table[q]
  {
    ReachableInv(s);
    var r := s.snapshot[s.receiver.pos];
    assert s.arrays[s.receiver.rs.arr][s.receiver.pos] == r;
    assert StreamOk(s, r);
  }

  /** Reader `r` has fewer than 1024 chunks waiting whenever something is offered. */
  ghost predicate AlwaysRoom(s: State, acts: seq<Action>, r: nat)
    requires IsRun(s, acts)
    decreases |acts|
  {
    acts == [] ||
    ((acts[0].Offer? && r < |s.table| ==> |s.table[r].queue| < 1024) && AlwaysRoom(Do(s, acts[0]), acts[1..], r))
  }

  lemma {:induction false} RoomMeansNoDrops(s: State, acts: seq<Action>, r: nat)
    requires Inv(s) && IsRun(s, acts) && AlwaysRoom(s, acts, r) && (r < |s.table| ==> s.table[r].drops == [])
    ensures r < |End(s, acts).table| ==> End(s, acts).table[r].drops == []
    decreases |acts|
  {
    if acts != [] {
      StepKeepsInv(s, acts[0]);
      RoomMeansNoDrops(Do(s, acts[0]), acts[1..], r);
    }
  }

  lemma LastApart(xs: seq<nat>)
    requires xs != [] && Increasing(xs)
    ensures forall c :: c in xs[..|xs| - 1] <==> c in xs && c != xs[|xs| - 1]
  {
    assert xs == xs[..|xs| - 1] + [xs[|xs| - 1]];
  }

  lemma {:induction false} SameMembers(xs: seq<nat>, ys: seq<nat>)
    requires Increasing(xs) && Increasing(ys) && |xs| == |ys| && forall c :: c in xs <==> c in ys
    ensures xs == ys
    decreases |xs|
  {
    if xs != [] {
      var n := |xs| - 1;
      assert xs[n] in ys && ys[n] in xs;
      assert xs[n] == ys[n];
      LastApart(xs);
      LastApart(ys);
      var a, b := xs[..n], ys[..n];
      forall c: nat ensures c in a <==> c in b {
        assert c in a <==> c in xs && c != xs[n];
        assert c in b <==> c in ys && c != ys[n];
      }
      SameMembers(a, b);
    }
  }

  /** A reader that always has room receives exactly what is offered to it, and loses nothing. */
  lemma RoomMeansAll(grow: nat -> nat, acts: seq<Action>, r: nat)
    requires IsRun(Init(grow), acts) && AlwaysRoom(Init(grow), acts, r) && r < |End(Init(grow), acts).table|
    ensures var s := End(Init(grow), acts); s.table[r].Stream() == Offered(s, r) && s.table[r].drops == []
  {
    var s := End(Init(grow), acts);
    InitInv(grow);
    RunKeepsInv(Init(grow), acts);
    RoomMeansNoDrops(Init(grow), acts, r);
    assert Shared(s, r) && StreamOk(s, r);
    OfferedIs(s, r, 0);
    SameMembers(s.table[r].Stream(), Offered(s, r));
  }

  /**
   * A chunk is offered to a reader, once, if and only if the snapshot taken for it held the reader: one of those done
   * with, or the current one as far as the receiver has come with it.
   */
  lemma OfferedIs(s: State, r: nat, c: nat)
    ensures Increasing(Offered(s, r))
    ensures c in Offered(s, r) <==> (c < |s.past| && r in s.past[c]) || (c == |s.past| && Reached(s, r))
  {
    DueIs(s.past, r);
    assert forall k :: 0 <= k < |Due(s.past, r)| ==> Due(s.past, r)[k] in Due(s.past, r);
  }

  /** The list never holds a reader twice, and a snapshot in use still shows the list as it was when it was taken. */
  lemma SnapshotsAreStable(s: State)
    requires Reachable(s)
    ensures InBounds(s.arrays, s.readers) && Distinct(Contents(s.arrays, s.readers))
    ensures s.receiver.Offering? ==>
              InBounds(s.arrays, s.receiver.rs) && Contents(s.arrays, s.receiver.rs) == s.snapshot
  {
    ReachableInv(s);
  }

  /** The receiver is never stuck: in every reachable state it can take its next step. */
  lemma ReceiverNeverBlocks(s: State) returns (a: Action)
    requires Reachable(s)
    ensures a in [Read, Snapshot, Offer, Loop] && Can(s, a)
  {
    ReachableInv(s);
    match s.receiver
    case Reading => a := Read;
    case Holding => a := Snapshot;
    case Offering(rs, pos) =>
      if pos == rs.len {
        a := Loop;
      } else {
        assert s.arrays[rs.arr][pos] == s.snapshot[pos];
        a := Offer;
      }
  }

  /** Registration adds the new reader at the end; removal takes out that reader and no other. */
  lemma ListChanges(s: State, x: nat)
    requires Inv(s)
    ensures var t := Do(s, Register); Contents(t.arrays, t.readers) == Contents(s.arrays, s.readers) + [|s.table|]
    ensures var t := Do(s, Remove(x));
            forall y :: y in Contents(t.arrays, t.readers) <==> y in Contents(s.arrays, s.readers) && y != x
  {
    WithoutIs(Contents(s.arrays, s.readers), x);
  }
}
