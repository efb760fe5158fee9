/** What happens to nonces and to requests in the end: none is lost without a reason, and every request goes on. */
module NoncesLaws {
  import opened Wrappers
  import opened Nonces

  // ---------------------------------------------------------------- where a nonce can go

  ghost predicate Held(s: State, v: Nonce) {
    exists i :: 0 <= i < |s.requests| && InHand(s.requests[i]) == v
  }

  /** The nonce is stored, in some request's hands, or signed. */
  ghost predicate Kept(s: State, v: Nonce) {
    v in s.pool || Held(s, v) || v in s.signed
  }

  /** The reasons for which an unsigned nonce is given up: the wipe, a full pool, and a request that fails to sign. */
  predicate Excuse(s: State, a: Action, v: Nonce)
    requires Can(s, a)
  {
    || (a.Clear? && v in s.pool)
    || (a.Add? && s.requests[a.i].offered == v && |s.pool| >= 100)
    || (a.SignFails? && s.requests[a.i].nonce == v)
  }

  lemma StillHeld(s: State, a: Action, v: Nonce, j: nat)
    requires Inv(s) && Can(s, a) && v != "" && j < |s.requests| && InHand(s.requests[j]) == v
    ensures Kept(Do(s, a), v) || Excuse(s, a, v)
  {
    var t := Do(s, a);
    if j < |t.requests| && InHand(t.requests[j]) == v {
      assert Held(t, v);
    } else {
      assert a.SignAndPost? || a.SignFails? || a.Add?;
      assert a.SignAndPost? ==> t.signed[|s.signed|] == v;
    }
  }

  /** A step loses a nonce only for one of the three reasons. */
  lemma LostOnlyFor(s: State, a: Action, v: Nonce)
    requires Inv(s) && Can(s, a) && v != "" && Kept(s, v)
    ensures Kept(Do(s, a), v) || Excuse(s, a, v)
  {
    var t := Do(s, a);
    if v in s.signed {
      var k :| 0 <= k < |s.signed| && s.signed[k] == v;
      assert t.signed[k] == v;
    } else if v in s.pool {
      assert a.Pop? && a.v == v ==> InHand(t.requests[a.i]) == v;
    } else {
      var j :| 0 <= j < |s.requests| && InHand(s.requests[j]) == v;
      StillHeld(s, a, v, j);
    }
  }

  /** And what the server issues is kept. */
  lemma IssuedIsKept(s: State, a: Action, v: Nonce)
    requires Inv(s) && Can(s, a) && v in Do(s, a).issued && v !in s.issued
    ensures Kept(Do(s, a), v)
  {
    assert a.FetchOk? || a.Answer?;
    assert InHand(Do(s, a).requests[a.i]) == v;
  }

  /** The steps of a run, from `s` on, that lose `v`. */
  ghost predicate LosesOnTheWay(s: State, acts: seq<Action>, v: Nonce)
    requires IsRun(s, acts)
    decreases |acts|
  {
    acts != [] && (Excuse(s, acts[0], v) || LosesOnTheWay(Do(s, acts[0]), acts[1..], v))
  }

  /** In every run, an issued nonce is stored, in hand or signed, unless the run had one of the three reasons. */
  lemma {:induction false} EveryNonceAccounted(s: State, acts: seq<Action>, v: Nonce)
    requires Inv(s) && IsRun(s, acts) && (v in s.issued ==> Kept(s, v)) && v in End(s, acts).issued
    ensures Kept(End(s, acts), v) || LosesOnTheWay(s, acts, v)
    decreases |acts|
  {
    if acts != [] && !Excuse(s, acts[0], v) {
      var t := Do(s, acts[0]);
      StepKeepsInv(s, acts[0]);
      if v in t.issued {
        if v in s.issued {
          LostOnlyFor(s, acts[0], v);
        } else {
          IssuedIsKept(s, acts[0], v);
        }
      }
      EveryNonceAccounted(t, acts[1..], v);
    }
  }

  // ---------------------------------------------------------------- requests come to an end

  function Rank(r: Request): nat {
    match r
    case Starting => 6
    case Fetching => 5
    case Holding(_) => 4
    case Posted => 3
    case Answered(_, _) => 2
    case Clearing => 1
    case Finished => 0
  }

  /** The step is one of request `i`. */
  predicate IsOf(a: Action, i: nat) {
    !a.Begin? && a.i == i
  }

  /** How many steps of a run are request `i`'s. */
  function StepsOf(acts: seq<Action>, i: nat): nat {
    if acts == [] then 0 else StepsOf(acts[1..], i) + if IsOf(acts[0], i) then 1 else 0
  }

  lemma OthersStay(s: State, a: Action, i: nat)
    requires NotesInv(s) && Can(s, a) && i < |s.requests| && !IsOf(a, i)
    ensures var t := Do(s, a);
            i < |t.requests| && i < |t.notes| && t.requests[i] == s.requests[i] && t.notes[i] == s.notes[i]
  {}

  lemma OwnStep(s: State, a: Action, i: nat)
    requires NotesInv(s) && Can(s, a) && i < |s.requests| && IsOf(a, i) && !a.Clear?
    ensures var t := Do(s, a);
            && i < |t.requests| && i < |t.notes| && Rank(t.requests[i]) < Rank(s.requests[i])
            && (|| t.notes[i] == s.notes[i]
                || t.notes[i] == s.notes[i] + [Post]
                || t.notes[i] == s.notes[i] + [Reply(true)]
                || t.notes[i] == s.notes[i] + [Reply(false)])
  {}

  lemma OwnWipe(s: State, i: nat)
    requires NotesInv(s) && Can(s, Clear(i))
    ensures var t := Do(s, Clear(i));
            && i < |t.requests| && i < |t.notes| && s.requests[i] == Clearing && t.requests[i] == Starting
            && t.notes[i] == s.notes[i] + [Wiped]
  {}

  /** What is left of a request's steps: its rank, and what it has already been given for each wipe. */
  function Left(s: State, i: nat): int
    requires i < |s.requests| && i < |s.notes|
  {
    Rank(s.requests[i]) - 6 * Count(s.notes[i], Wiped)
  }

  /** A request's own step takes it further, except that a wipe starts it over; other steps leave it alone. */
  lemma StepRank(s: State, a: Action, i: nat)
    requires NotesInv(s) && Can(s, a) && i < |s.requests|
    ensures i < |Do(s, a).requests| && i < |Do(s, a).notes|
    ensures Left(Do(s, a), i) <= Left(s, i) - if IsOf(a, i) then 1 else 0
  {
    if !IsOf(a, i) {
      OthersStay(s, a, i);
    } else if a.Clear? {
      OwnWipe(s, i);
      CountMore(s.notes[i], Wiped);
    } else {
      OwnStep(s, a, i);
      CountMore(s.notes[i], Post);
      CountMore(s.notes[i], Reply(true));
      CountMore(s.notes[i], Reply(false));
    }
  }

  lemma {:induction false} CountMore(ns: seq<Note>, n: Note)
    ensures Count(ns + [n], Wiped) == Count(ns, Wiped) + if n == Wiped then 1 else 0
  {
    assert (ns + [n])[..|ns|] == ns;
  }

  lemma {:induction false} RankBounds(s: State, acts: seq<Action>, i: nat)
    requires Inv(s) && IsRun(s, acts) && i < |s.requests|
    ensures i < |End(s, acts).requests| && i < |End(s, acts).notes|
    ensures StepsOf(acts, i) + Left(End(s, acts), i) <= Left(s, i)
    decreases |acts|
  {
    if acts != [] {
      StepRank(s, acts[0], i);
      StepKeepsInv(s, acts[0]);
      RankBounds(Do(s, acts[0]), acts[1..], i);
    }
  }

  lemma {:induction false} NotYetThere(s: State, acts: seq<Action>, i: nat)
    requires Inv(s) && IsRun(s, acts) && |s.requests| <= i < |End(s, acts).requests|
    ensures i < |End(s, acts).notes|
    ensures StepsOf(acts, i) + Left(End(s, acts), i) <= 6
    decreases |acts|
  {
    if acts != [] {
      var t := Do(s, acts[0]);
      StepKeepsInv(s, acts[0]);
      assert !IsOf(acts[0], i);
      if i < |t.requests| {
        RankBounds(t, acts[1..], i);
      } else {
        NotYetThere(t, acts[1..], i);
      }
    }
  }

  /** In every run, a request takes at most six steps for each time the pool was wiped on its account, and six more. */
  lemma RequestsAreBounded(acts: seq<Action>, i: nat)
    requires IsRun(Init(), acts) && i < |End(Init(), acts).requests|
    ensures i < |End(Init(), acts).notes|
    ensures StepsOf(acts, i) <= 6 + 6 * Count(End(Init(), acts).notes[i], Wiped)
  {
    InitInv();
    NotYetThere(Init(), acts, i);
  }

  // ---------------------------------------------------------------- requests go on

  /** A string longer than all of a set is not in it. */
  lemma {:induction false} LongerThanAll(vs: set<Nonce>) returns (n: nat)
    ensures forall v :: v in vs ==> |v| < n
    decreases |vs|
  {
    n := 1;
    if v :| v in vs {
      var m := LongerThanAll(vs - {v});
      n := if m <= |v| then |v| + 1 else m;
      assert forall w :: w in vs ==> w == v || w in vs - {v};
    }
  }

  lemma FreshExists(s: State) returns (v: Nonce)
    ensures v != "" && v !in s.issued
  {
    var n := LongerThanAll(s.issued);
    v := seq(n + 1, _ => 'x');
  }

  /** Whatever is stored or not, a request about to start can be posted, by its own steps, if the mutex is free. */
  lemma {:induction false} CanPost(s: State, i: nat) returns (acts: seq<Action>)
    requires Inv(s) && At(s, i, Starting) && s.holder.None?
    ensures IsRun(s, acts) && i < |End(s, acts).notes| && End(s, acts).notes[i] == s.notes[i] + [Post]
    ensures At(End(s, acts), i, Posted) && |End(s, acts).signed| == |s.signed| + 1
    ensures s.pool != {} ==> End(s, acts).signed[|s.signed|] in s.pool && End(s, acts).issued == s.issued
  {
    if v :| v in s.pool {
      acts := [Pop(i, v), SignAndPost(i)];
      Two(s, Pop(i, v), SignAndPost(i));
    } else {
      assert s.pool == {};
      var v := FreshExists(s);
      acts := [StartFetch(i), FetchOk(i, v), SignAndPost(i)];
      var t := Do(s, StartFetch(i));
      Two(t, FetchOk(i, v), SignAndPost(i));
      assert acts[1..] == [FetchOk(i, v), SignAndPost(i)];
    }
  }

  lemma {:induction false} Two(s: State, a: Action, b: Action)
    requires Can(s, a) && Can(Do(s, a), b)
    ensures IsRun(s, [a, b]) && End(s, [a, b]) == Do(Do(s, a), b)
  {
    assert [a, b][1..] == [b] && [b][1..] == [];
    assert IsRun(Do(s, a), [b]) && End(Do(s, a), [b]) == Do(Do(s, a), b);
  }

  /** A new request can begin at any time, and be posted if the mutex is free. */
  lemma BeginsAndPosts(s: State) returns (acts: seq<Action>)
    requires Inv(s) && s.holder.None?
    ensures IsRun(s, acts) && |s.requests| < |End(s, acts).notes| && End(s, acts).notes[|s.requests|] == [Post]
  {
    var t := Do(s, Begin);
    StepKeepsInv(s, Begin);
    var rest := CanPost(t, |s.requests|);
    acts := [Begin] + rest;
    assert acts[1..] == rest;
  }

  /** After a badNonce answer a request can wipe the pool and be posted again, with a nonce the server issues then. */
  lemma WipesAndPostsAgain(s: State, i: nat) returns (acts: seq<Action>)
    requires Inv(s) && At(s, i, Clearing) && s.holder.None?
    ensures IsRun(s, acts) && i < |End(s, acts).notes| && End(s, acts).notes[i] == s.notes[i] + [Wiped, Post]
    ensures |End(s, acts).signed| == |s.signed| + 1 && End(s, acts).signed[|s.signed|] !in s.issued
  {
    var t := Do(s, Clear(i));
    StepKeepsInv(s, Clear(i));
    var v := FreshExists(t);
    var u := Do(t, StartFetch(i));
    Two(u, FetchOk(i, v), SignAndPost(i));
    Two(s, Clear(i), StartFetch(i));
    acts := [Clear(i), StartFetch(i), FetchOk(i, v), SignAndPost(i)];
    assert acts[1..] == [StartFetch(i), FetchOk(i, v), SignAndPost(i)];
    assert acts[1..][1..] == [FetchOk(i, v), SignAndPost(i)];
    assert s.notes[i] + [Wiped] + [Post] == s.notes[i] + [Wiped, Post];
  }

  /** While a request is unfinished, some request can take a step: waiting for the mutex never blocks them all. */
  lemma SomebodyCanMove(s: State) returns (a: Action)
    requires Inv(s) && exists i :: 0 <= i < |s.requests| && s.requests[i] != Finished
    ensures Can(s, a) && !a.Begin?
  {
    var i :| 0 <= i < |s.requests| && s.requests[i] != Finished;
    if s.holder.Some? {
      assert At(s, s.holder.value, Fetching);
      a := FetchFails(s.holder.value);
    } else {
      assert !At(s, i, Fetching);
      match s.requests[i]
      case Starting =>
        if v :| v in s.pool {
          a := Pop(i, v);
        } else {
          assert s.pool == {};
          a := StartFetch(i);
        }
      case Holding(_) => a := SignAndPost(i);
      case Posted => a := PostFails(i);
      case Answered(_, _) => a := Add(i);
      case Clearing => a := Clear(i);
    }
  }
}
