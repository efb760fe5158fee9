/** The ACME client's pool of replay nonces, under any number of concurrent requests and badNonce retries. */
module Nonces {
  import opened Wrappers

  const MAX_NONCES := 100

  type Nonce = string

  /** The pool after a response header carried `v`: empty values are ignored, and a full pool stays as it is. */
  function Stored(pool: set<Nonce>, v: Nonce): (r: set<Nonce>) {
    if v == "" || |pool| >= MAX_NONCES then pool else pool + {v}
  }

  /** The part of the client that the nonce mutex guards. */
  class Pool {
    var nonces: set<Nonce>

    constructor ()
      ensures nonces == {}
    {
      nonces := {};
    }

    /** Takes some stored nonce out, or reports that one must be fetched. */
    method PopStored() returns (r: Option<Nonce>)
      modifies this
      ensures old(nonces) == {} ==> r.None? && nonces == {}
      ensures old(nonces) != {} ==> r.Some? && r.value in old(nonces) && nonces == old(nonces) - {r.value}
    {
      if nonces == {} {
        return None;
      }
      var nonce :| nonce in nonces;
      nonces := nonces - {nonce};
      return Some(nonce);
    }

    method AddNonce(v: Nonce)
      modifies this
      ensures nonces == Stored(old(nonces), v)
    {
      if v == "" {
        return;
      }
      if |nonces| >= MAX_NONCES {
        return;
      }
      nonces := nonces + {v};
    }

    method ClearNonces()
      modifies this
      ensures nonces == {}
    {
      nonces := {};
    }
  }

  // ---------------------------------------------------------------- concurrent requests

  /**
   * Where one request is: about to take a nonce; fetching one (with the mutex held); holding a nonce it has not signed;
   * waiting for the answer to its POST; holding the answer, with the nonce that came along; about to clear the pool
   * after badNonce; finished.
   */
  datatype Request =
    | Starting | Fetching | Holding(nonce: Nonce) | Posted | Answered(offered: Nonce, bad: bool) | Clearing | Finished

  /** What has happened to one request: a POST sent, an answer (badNonce or not), the pool wiped on its account. */
  datatype Note = Post | Reply(bad: bool) | Wiped

  /**
   * `issued` is what the server has handed out; `signed` the nonces of the POSTs sent, in order; `notes` each request's
   * own history.
   */
  datatype State = State(
    pool: set<Nonce>, holder: Option<nat>, requests: seq<Request>, issued: set<Nonce>, signed: seq<Nonce>,
    notes: seq<seq<Note>>)

  datatype Action =
    | Begin
    | Pop(i: nat, v: Nonce)
    | StartFetch(i: nat) | FetchOk(i: nat, v: Nonce) | FetchFails(i: nat)
    | SignAndPost(i: nat) | SignFails(i: nat)
    | Answer(i: nat, v: Nonce, bad: bool) | PostFails(i: nat)
    | Add(i: nat)
    | Clear(i: nat) | GiveUp(i: nat)

  function Init(): State {
    State({}, None, [], {}, [], [])
  }

  predicate At(s: State, i: nat, r: Request) {
    i < |s.requests| && s.requests[i] == r
  }

  /** The server never issues the same value twice; the empty value stands for a response without a nonce. */
  predicate Fresh(s: State, v: Nonce) {
    v == "" || v !in s.issued
  }

  predicate Can(s: State, a: Action) {
    match a
    case Begin => true
    case Pop(i, v) => At(s, i, Starting) && s.holder.None? && v in s.pool
    case StartFetch(i) => At(s, i, Starting) && s.holder.None? && s.pool == {}
    case FetchOk(i, v) => At(s, i, Fetching) && v != "" && Fresh(s, v)
    case FetchFails(i) => At(s, i, Fetching)
    case SignAndPost(i) => i < |s.requests| && s.requests[i].Holding?
    case SignFails(i) => i < |s.requests| && s.requests[i].Holding?
    case Answer(i, v, _) => At(s, i, Posted) && Fresh(s, v)
    case PostFails(i) => At(s, i, Posted)
    case Add(i) => i < |s.requests| && s.requests[i].Answered? && (s.requests[i].offered != "" ==> s.holder.None?)
    case Clear(i) => At(s, i, Clearing) && s.holder.None?
    case GiveUp(i) => At(s, i, Starting) && i < |s.notes| && LastIs(s.notes[i], Wiped)
  }

  predicate LastIs(ns: seq<Note>, n: Note) {
    ns != [] && ns[|ns| - 1] == n
  }

  function Move(s: State, i: nat, r: Request): State
    requires i < |s.requests|
  {
    s.(requests := s.requests[i := r])
  }

  function Noted(s: State, i: nat, n: Note): State {
    if i < |s.notes| then s.(notes := s.notes[i := s.notes[i] + [n]]) else s
  }

  function Issue(s: State, v: Nonce): State {
    if v == "" then s else s.(issued := s.issued + {v})
  }

  function Do(s: State, a: Action): (t: State)
    requires Can(s, a)
  {
    match a
    case Begin => s.(requests := s.requests + [Starting], notes := s.notes + [[]])
    case Pop(i, v) => Move(s, i, Holding(v)).(pool := s.pool - {v})
    case StartFetch(i) => Move(s, i, Fetching).(holder := Some(i))
    case FetchOk(i, v) => Issue(Move(s, i, Holding(v)).(holder := None), v)
    case FetchFails(i) => Move(s, i, Finished).(holder := None)
    case SignAndPost(i) => Noted(Move(s, i, Posted).(signed := s.signed + [s.requests[i].nonce]), i, Post)
    case SignFails(i) => Move(s, i, Finished)
    case Answer(i, v, bad) => Noted(Issue(Move(s, i, Answered(v, bad)), v), i, Reply(bad))
    case PostFails(i) => Move(s, i, Finished)
    case Add(i) =>
      Move(s, i, if s.requests[i].bad then Clearing else Finished).(pool := Stored(s.pool, s.requests[i].offered))
    case Clear(i) => Noted(Move(s, i, Starting).(pool := {}), i, Wiped)
    case GiveUp(i) => Move(s, i, Finished)
  }

  predicate IsRun(s: State, acts: seq<Action>)
    decreases |acts|
  {
    acts == [] || (Can(s, acts[0]) && IsRun(Do(s, acts[0]), acts[1..]))
  }

  function End(s: State, acts: seq<Action>): (t: State)
    requires IsRun(s, acts)
    decreases |acts|
  {
    if acts == [] then s else End(Do(s, acts[0]), acts[1..])
  }

  // ---------------------------------------------------------------- what every step keeps

  /** The unused nonce a request has in its hands, or the empty value. */
  function InHand(r: Request): Nonce {
    match r
    case Holding(n) => n
    case Answered(v, _) => v
    case _ => ""
  }

  ghost predicate Unused(s: State, v: Nonce) {
    v in s.issued && v !in s.signed
  }

  /** Every nonce in the pool was issued and is unsigned. */
  ghost predicate PoolInv(s: State) {
    "" !in s.issued && forall v :: v in s.pool ==> Unused(s, v)
  }

  /** So is every nonce in a request's hands, and it is neither in the pool nor in another request's hands. */
  ghost predicate HandsInv(s: State) {
    && (forall i :: 0 <= i < |s.requests| && InHand(s.requests[i]) != "" ==>
          Unused(s, InHand(s.requests[i])) && InHand(s.requests[i]) !in s.pool)
    && (forall i, j :: 0 <= i < |s.requests| && 0 <= j < |s.requests| && i != j && InHand(s.requests[i]) != "" ==>
          InHand(s.requests[i]) != InHand(s.requests[j]))
    && (forall i :: 0 <= i < |s.requests| && s.requests[i].Holding? ==> s.requests[i].nonce != "")
  }

  ghost predicate SignedInv(s: State) {
    && (forall v :: v in s.signed ==> v in s.issued)
    && (forall i, j :: 0 <= i < j < |s.signed| ==> s.signed[i] != s.signed[j])
  }

  ghost predicate LockInv(s: State) {
    |s.pool| <= MAX_NONCES && forall i: nat :: At(s, i, Fetching) <==> s.holder == Some(i)
  }

  /** Each note of a request follows the one it must follow. */
  ghost predicate InSequence(ns: seq<Note>) {
    && (forall k :: 0 <= k < |ns| && ns[k] == Post ==> k == 0 || ns[k - 1] == Wiped)
    && (forall k :: 0 <= k < |ns| && ns[k].Reply? ==> k > 0 && ns[k - 1] == Post)
    && (forall k :: 0 <= k < |ns| && ns[k] == Wiped ==> k > 0 && ns[k - 1] == Reply(true))
  }

  /** Where a request is and what has happened to it last agree. */
  ghost predicate Agree(r: Request, ns: seq<Note>) {
    match r
    case Posted => LastIs(ns, Post)
    case Answered(_, bad) => LastIs(ns, Reply(bad))
    case Clearing => LastIs(ns, Reply(true))
    case Finished => !LastIs(ns, Reply(true))
    case _ => ns == [] || LastIs(ns, Wiped)
  }

  ghost predicate NotesInv(s: State) {
    && |s.notes| == |s.requests|
    && forall i :: 0 <= i < |s.requests| ==> InSequence(s.notes[i]) && Agree(s.requests[i], s.notes[i])
  }

  ghost predicate Inv(s: State) {
    PoolInv(s) && HandsInv(s) && SignedInv(s) && LockInv(s) && NotesInv(s)
  }

  lemma InitInv()
    ensures Inv(Init())
  {}

  lemma KeepsPool(s: State, a: Action)
    requires PoolInv(s) && HandsInv(s) && SignedInv(s) && Can(s, a)
    ensures PoolInv(Do(s, a))
  {
    var t := Do(s, a);
    forall v | v in t.pool ensures Unused(t, v) {
      if v in s.pool {
        assert Unused(s, v);
        assert a.SignAndPost? ==> InHand(s.requests[a.i]) != v;
      } else {
        assert a.Add? && InHand(s.requests[a.i]) == v;
      }
    }
  }

  /** A request takes a nonce in hand: from the pool, from a fetch, or with an answer. */
  predicate IsGain(a: Action) {
    a.Pop? || a.FetchOk? || a.Answer?
  }

  /** The nonce gained is unused, out of the pool, and in nobody else's hands. */
  lemma GainIsNew(s: State, a: Action)
    requires PoolInv(s) && HandsInv(s) && SignedInv(s) && Can(s, a) && IsGain(a) && a.v != ""
    ensures Unused(Do(s, a), a.v) && a.v !in Do(s, a).pool
    ensures forall k :: 0 <= k < |s.requests| ==> InHand(s.requests[k]) != a.v
  {}

  /** Apart from the request that gains, nothing that matters to the others is lost. */
  lemma GainKeepsOthers(s: State, a: Action)
    requires PoolInv(s) && Can(s, a) && IsGain(a)
    ensures var t := Do(s, a);
            && |t.requests| == |s.requests| && a.i < |s.requests| && InHand(t.requests[a.i]) == a.v
            && (t.requests[a.i].Holding? ==> a.v != "" && t.requests[a.i].nonce == a.v)
            && s.issued <= t.issued && t.signed == s.signed && t.pool <= s.pool
            && (forall k :: 0 <= k < |s.requests| && k != a.i ==> t.requests[k] == s.requests[k])
  {}

  lemma GainKeepsHands(s: State, a: Action)
    requires PoolInv(s) && HandsInv(s) && SignedInv(s) && Can(s, a) && IsGain(a)
    ensures HandsInv(Do(s, a))
  {
    GainKeepsOthers(s, a);
    if a.v != "" {
      GainIsNew(s, a);
    }
  }

  lemma OtherKeepsHands(s: State, a: Action)
    requires PoolInv(s) && HandsInv(s) && SignedInv(s) && Can(s, a) && !IsGain(a)
    ensures HandsInv(Do(s, a))
  {
    var t := Do(s, a);
    assert forall k :: 0 <= k < |t.requests| && InHand(t.requests[k]) != "" ==>
             k < |s.requests| && t.requests[k] == s.requests[k];
  }

  lemma KeepsSigned(s: State, a: Action)
    requires HandsInv(s) && SignedInv(s) && Can(s, a)
    ensures SignedInv(Do(s, a))
  {}

  /** Adding to the pool never takes it over its bound. */
  lemma PoolBounded(s: State, a: Action)
    requires |s.pool| <= MAX_NONCES && Can(s, a)
    ensures |Do(s, a).pool| <= MAX_NONCES
  {
    if a.Pop? {
      assert |s.pool - {a.v}| <= |s.pool|;
    }
  }

  lemma KeepsLock(s: State, a: Action)
    requires LockInv(s) && Can(s, a)
    ensures LockInv(Do(s, a))
  {
    PoolBounded(s, a);
    var t := Do(s, a);
    forall i: nat ensures At(t, i, Fetching) <==> t.holder == Some(i) {
      assert At(s, i, Fetching) <==> s.holder == Some(i);
    }
  }

  lemma SequenceGrows(ns: seq<Note>, n: Note)
    requires InSequence(ns)
    requires match n
             case Post => ns == [] || LastIs(ns, Wiped)
             case Reply(_) => LastIs(ns, Post)
             case Wiped => LastIs(ns, Reply(true))
    ensures InSequence(ns + [n]) && LastIs(ns + [n], n)
  {}

  lemma KeepsNotes(s: State, a: Action)
    requires NotesInv(s) && Can(s, a)
    ensures NotesInv(Do(s, a))
  {
    var t := Do(s, a);
    forall i | 0 <= i < |t.requests|
      ensures InSequence(t.notes[i]) && Agree(t.requests[i], t.notes[i])
    {
      if i < |s.requests| {
        assert InSequence(s.notes[i]) && Agree(s.requests[i], s.notes[i]);
        if a.SignAndPost? && a.i == i {
          SequenceGrows(s.notes[i], Post);
        } else if a.Answer? && a.i == i {
          SequenceGrows(s.notes[i], Reply(a.bad));
        } else if a.Clear? && a.i == i {
          SequenceGrows(s.notes[i], Wiped);
        }
      }
    }
  }

  lemma StepKeepsInv(s: State, a: Action)
    requires Inv(s) && Can(s, a)
    ensures Inv(Do(s, a))
  {
    KeepsPool(s, a);
    if IsGain(a) {
      GainKeepsHands(s, a);
    } else {
      OtherKeepsHands(s, a);
    }
    KeepsSigned(s, a);
    KeepsLock(s, a);
    KeepsNotes(s, a);
  }

  lemma {:induction false} RunKeepsInv(s: State, acts: seq<Action>)
    requires Inv(s) && IsRun(s, acts)
    ensures Inv(End(s, acts))
    decreases |acts|
  {
    if acts != [] {
      StepKeepsInv(s, acts[0]);
      RunKeepsInv(Do(s, acts[0]), acts[1..]);
    }
  }

  /**
   * In every run: no nonce is signed into two POSTs, every stored one was issued and is unused, and the pool holds at
   * most 100.
   */
  lemma NoncesUsedOnce(acts: seq<Action>)
    requires IsRun(Init(), acts)
    ensures var s := End(Init(), acts);
            && (forall i, j :: 0 <= i < j < |s.signed| ==> s.signed[i] != s.signed[j])
            && (forall v :: v in s.pool ==> v in s.issued && v !in s.signed)
            && |s.pool| <= 100
  {
    InitInv();
    RunKeepsInv(Init(), acts);
  }

  function Count(ns: seq<Note>, n: Note): nat {
    if ns == [] then 0 else Count(ns[..|ns| - 1], n) + if ns[|ns| - 1] == n then 1 else 0
  }

  lemma {:induction false} PostsCounted(ns: seq<Note>)
    requires InSequence(ns)
    ensures Count(ns, Post) <= 1 + Count(ns, Reply(true))
    ensures ns == [] || LastIs(ns, Wiped) || LastIs(ns, Reply(true)) ==> Count(ns, Post) <= Count(ns, Reply(true))
  {
    if ns != [] {
      var n := |ns| - 1;
      assert InSequence(ns[..n]);
      PostsCounted(ns[..n]);
    }
  }

  ghost predicate OnlyAfterBad(ns: seq<Note>) {
    && (forall k :: 0 < k < |ns| && ns[k] == Post ==> k > 1 && ns[k - 1] == Wiped && ns[k - 2] == Reply(true))
    && (forall k :: 0 <= k < |ns| && ns[k] == Wiped ==> k > 0 && ns[k - 1] == Reply(true))
    && (forall k :: 0 <= k < |ns| && ns[k] == Reply(false) ==> k == |ns| - 1)
  }

  lemma NothingFollows(ns: seq<Note>, k: nat)
    requires InSequence(ns) && 0 < k < |ns|
    ensures ns[k - 1] != Reply(false)
  {
    assert ns[k].Post? || ns[k].Reply? || ns[k].Wiped?;
  }

  lemma SequenceTells(ns: seq<Note>)
    requires InSequence(ns)
    ensures OnlyAfterBad(ns)
  {
    forall k | 0 < k < |ns| && ns[k] == Post
      ensures k > 1 && ns[k - 1] == Wiped && ns[k - 2] == Reply(true)
    {
      assert ns[k - 1] == Wiped;
      assert ns[k - 1 - 1] == Reply(true);
    }
    forall k | 0 <= k < |ns| && ns[k] == Reply(false) ensures k == |ns| - 1 {
      if k + 1 < |ns| {
        NothingFollows(ns, k + 1);
      }
    }
  }

  /**
   * In every run, for every request: it is posted again only after a badNonce answer and the wipe that follows it; the
   * pool is wiped on its account only after a badNonce answer; any other answer is the last thing that happens to it; a
   * badNonce answer never ends it; and it is posted at most once more than it was answered badNonce.
   */
  lemma RetriedOnBadNonceOnly(acts: seq<Action>, i: nat)
    requires IsRun(Init(), acts) && i < |End(Init(), acts).requests|
    ensures |End(Init(), acts).notes| == |End(Init(), acts).requests|
    ensures var ns, r := End(Init(), acts).notes[i], End(Init(), acts).requests[i];
            && OnlyAfterBad(ns)
            && (LastIs(ns, Reply(false)) ==> r.Answered? || r.Finished?)
            && (LastIs(ns, Reply(true)) ==> r.Answered? || r.Clearing?)
            && Count(ns, Post) <= 1 + Count(ns, Reply(true))
  {
    InitInv();
    RunKeepsInv(Init(), acts);
    var s := End(Init(), acts);
    assert InSequence(s.notes[i]) && Agree(s.requests[i], s.notes[i]);
    PostsCounted(s.notes[i]);
    SequenceTells(s.notes[i]);
  }

  /** An issued nonce that was never signed, and is neither stored nor in anybody's hands. */
  ghost predicate Gone(s: State, v: Nonce) {
    && v != "" && Unused(s, v) && v !in s.pool
    && forall i :: 0 <= i < |s.requests| ==> InHand(s.requests[i]) != v
  }

  /** Wiping the pool loses what was stored in it. */
  lemma WipeLoses(s: State, i: nat, v: Nonce)
    requires Inv(s) && Can(s, Clear(i)) && v in s.pool
    ensures Do(s, Clear(i)).pool == {} && Gone(Do(s, Clear(i)), v)
  {
    assert Unused(s, v);
  }

  lemma OthersNeverFind(s: State, a: Action, v: Nonce)
    requires Inv(s) && Gone(s, v) && Can(s, a) && !IsGain(a)
    ensures Gone(Do(s, a), v)
  {
    var t := Do(s, a);
    forall i | 0 <= i < |t.requests| ensures InHand(t.requests[i]) != v {
      assert i < |s.requests| ==> InHand(s.requests[i]) != v;
    }
  }

  lemma GoneStays(s: State, a: Action, v: Nonce)
    requires Inv(s) && Gone(s, v) && Can(s, a)
    ensures Gone(Do(s, a), v)
  {
    if IsGain(a) {
      GainKeepsOthers(s, a);
    } else {
      OthersNeverFind(s, a, v);
    }
  }

  /** A nonce that is gone, such as one that was stored when a badNonce answer had the pool wiped, is never signed. */
  lemma {:induction false} NeverSignedAfterWipe(s: State, acts: seq<Action>, v: Nonce)
    requires Inv(s) && Gone(s, v) && IsRun(s, acts)
    ensures v !in End(s, acts).signed
    decreases |acts|
  {
    if acts != [] {
      StepKeepsInv(s, acts[0]);
      GoneStays(s, acts[0], v);
      NeverSignedAfterWipe(Do(s, acts[0]), acts[1..], v);
    }
  }

  // ---------------------------------------------------------------- the pool in a run

  /** What a request does while it holds the mutex. */
  datatype Visit = ToPop | ToAdd | ToClear

  /** Request `i` has come to that visit, and the mutex is free. */
  predicate Due(s: State, i: nat, visit: Visit) {
    && i < |s.requests| && s.holder.None?
    && match visit
       case ToPop => s.requests[i] == Starting
       case ToAdd => s.requests[i].Answered?
       case ToClear => s.requests[i] == Clearing
  }

  /** The step that the visit amounts to; which stored nonce is popped is left open. */
  predicate IsVisit(s: State, i: nat, visit: Visit, a: Action) {
    match visit
    case ToPop => if s.pool == {} then a == StartFetch(i) else a.Pop? && a.i == i
    case ToAdd => a == Add(i)
    case ToClear => a == Clear(i)
  }

  /** The pool's methods do what the steps of the machine say; which stored nonce is popped is the pool's choice. */
  method Call(p: Pool, s: State, i: nat, visit: Visit) returns (a: Action)
    requires p.nonces == s.pool && Due(s, i, visit)
    modifies p
    ensures Can(s, a) && p.nonces == Do(s, a).pool && IsVisit(s, i, visit, a)
  {
    match visit
    case ToPop =>
      var r := p.PopStored();
      a := if r.None? then StartFetch(i) else Pop(i, r.value);
    case ToAdd =>
      p.AddNonce(s.requests[i].offered);
      a := Add(i);
    case ToClear =>
      p.ClearNonces();
      a := Clear(i);
  }

  /** A step that does not touch the pool, or a visit to it. */
  datatype Item = Outside(a: Action) | Inside(i: nat, visit: Visit)

  predicate TouchesPool(s: State, a: Action)
    requires Can(s, a)
  {
    a.Pop? || a.StartFetch? || a.Clear? || (a.Add? && s.requests[a.i].offered != "")
  }

  lemma {:induction false} RunSnoc(s: State, acts: seq<Action>, a: Action)
    requires IsRun(s, acts) && Can(End(s, acts), a)
    ensures IsRun(s, acts + [a]) && End(s, acts + [a]) == Do(End(s, acts), a)
    decreases |acts|
  {
    if acts == [] {
      assert [a][1..] == [];
    } else {
      RunSnoc(Do(s, acts[0]), acts[1..], a);
      assert (acts + [a])[1..] == acts[1..] + [a];
    }
  }

  /** What an item of a schedule does in a state: its step, or nothing if its turn has not come. */
  predicate Makes(s: State, item: Item, step: Option<Action>) {
    match item
    case Outside(a) => step == if Can(s, a) && !TouchesPool(s, a) then Some(a) else None
    case Inside(i, visit) =>
      if Due(s, i, visit) then step.Some? && IsVisit(s, i, visit, step.value) && Can(s, step.value) else step.None?
  }

  function Taken(steps: seq<Option<Action>>): seq<Action> {
    if steps == [] then []
    else
      var last := steps[|steps| - 1];
      Taken(steps[..|steps| - 1]) + if last.Some? then [last.value] else []
  }

  /** Item `k` of the schedule made step `k`, in the state that the steps before it led to. */
  ghost predicate MadeAt(plan: seq<Item>, steps: seq<Option<Action>>, k: nat)
    requires k < |plan| == |steps|
  {
    IsRun(Init(), Taken(steps[..k])) && Makes(End(Init(), Taken(steps[..k])), plan[k], steps[k])
  }

  ghost predicate Follows(plan: seq<Item>, steps: seq<Option<Action>>) {
    |plan| == |steps| && forall k :: 0 <= k < |plan| ==> MadeAt(plan, steps, k)
  }

  function Next(s: State, step: Option<Action>): State
    requires step.Some? ==> Can(s, step.value)
  {
    if step.Some? then Do(s, step.value) else s
  }

  lemma {:induction false} TakenOneMore(steps: seq<Option<Action>>, step: Option<Action>)
    requires IsRun(Init(), Taken(steps)) && (step.Some? ==> Can(End(Init(), Taken(steps)), step.value))
    ensures Taken(steps + [step]) == Taken(steps) + if step.Some? then [step.value] else []
    ensures IsRun(Init(), Taken(steps + [step]))
    ensures End(Init(), Taken(steps + [step])) == Next(End(Init(), Taken(steps)), step)
  {
    assert (steps + [step])[..|steps|] == steps;
    if step.Some? {
      RunSnoc(Init(), Taken(steps), step.value);
    } else {
      assert Taken(steps + [step]) == Taken(steps);
    }
  }

  lemma {:induction false} FollowsOneMore(plan: seq<Item>, steps: seq<Option<Action>>, item: Item, step: Option<Action>)
    requires Follows(plan, steps) && IsRun(Init(), Taken(steps)) && Makes(End(Init(), Taken(steps)), item, step)
    ensures Follows(plan + [item], steps + [step])
  {
    var longer, more := plan + [item], steps + [step];
    assert more[..|steps|] == steps;
    forall j | 0 <= j < |longer| ensures MadeAt(longer, more, j) {
      if j < |plan| {
        assert MadeAt(plan, steps, j);
        assert more[..j] == steps[..j];
      }
    }
  }

  /** After `plan`, whose items made `steps`, the machine is in state `s`. */
  ghost predicate OnTrack(plan: seq<Item>, steps: seq<Option<Action>>, s: State) {
    Follows(plan, steps) && IsRun(Init(), Taken(steps)) && s == End(Init(), Taken(steps))
  }

  lemma OnTrackNext(plan: seq<Item>, steps: seq<Option<Action>>, s: State, item: Item, step: Option<Action>)
    requires OnTrack(plan, steps, s) && Makes(s, item, step)
    ensures OnTrack(plan + [item], steps + [step], Next(s, step))
  {
    FollowsOneMore(plan, steps, item, step);
    TakenOneMore(steps, step);
  }

  /** One item of a schedule. */
  method Take(p: Pool, s: State, item: Item) returns (step: Option<Action>)
    requires p.nonces == s.pool
    modifies p
    ensures Makes(s, item, step) && p.nonces == Next(s, step).pool
  {
    step := None;
    match item
    case Outside(a) =>
      if Can(s, a) && !TouchesPool(s, a) {
        step := Some(a);
      }
    case Inside(i, visit) =>
      if Due(s, i, visit) {
        var a := Call(p, s, i, visit);
        step := Some(a);
      }
  }

  /**
   * Any schedule of requests on a real pool. `steps` are what its items made, each in the state the ones before it led
   * to, with the popped nonces as the pool chose them. Together they are a run of the machine with the machine's pool:
   * so no nonce is signed twice, and the pool holds at most 100 nonces, issued and unused.
   */
  method Follow(plan: seq<Item>) returns (p: Pool, s: State, ghost steps: seq<Option<Action>>)
    ensures Follows(plan, steps)
    ensures IsRun(Init(), Taken(steps)) && s == End(Init(), Taken(steps)) && p.nonces == s.pool
    ensures forall i, j :: 0 <= i < j < |s.signed| ==> s.signed[i] != s.signed[j]
    ensures |p.nonces| <= 100 && forall v :: v in p.nonces ==> v in s.issued && v !in s.signed
  {
    p := new Pool();
    s, steps := Init(), [];
    for k := 0 to |plan|
      invariant fresh(p) && OnTrack(plan[..k], steps, s) && p.nonces == s.pool
    {
      var step := Take(p, s, plan[k]);
      OnTrackNext(plan[..k], steps, s, plan[k], step);
      assert plan[..k + 1] == plan[..k] + [plan[k]];
      s, steps := Next(s, step), steps + [step];
    }
    assert plan[..|plan|] == plan;
    NoncesUsedOnce(Taken(steps));
  }

  function ItemOf(s: State, a: Action): (item: Item)
    requires Can(s, a)
    ensures Makes(s, item, Some(a))
  {
    if !TouchesPool(s, a) then Outside(a)
    else Inside(a.i, if a.Clear? then ToClear else if a.Add? then ToAdd else ToPop)
  }

  lemma {:induction false} RunInit(s: State, acts: seq<Action>, a: Action)
    requires IsRun(s, acts + [a])
    ensures IsRun(s, acts) && Can(End(s, acts), a)
    decreases |acts|
  {
    if acts != [] {
      assert (acts + [a])[1..] == acts[1..] + [a] && (acts + [a])[0] == acts[0];
      RunInit(Do(s, acts[0]), acts[1..], a);
    }
  }

  /** And every run of the machine is what some schedule makes: schedules leave no interleaving out. */
  lemma {:induction false} EveryRunIsScheduled(acts: seq<Action>) returns (plan: seq<Item>, steps: seq<Option<Action>>)
    requires IsRun(Init(), acts)
    ensures Follows(plan, steps) && Taken(steps) == acts
    decreases |acts|
  {
    plan, steps := [], [];
    if acts != [] {
      var before, a := acts[..|acts| - 1], acts[|acts| - 1];
      assert acts == before + [a];
      RunInit(Init(), before, a);
      plan, steps := EveryRunIsScheduled(before);
      var item := ItemOf(End(Init(), before), a);
      FollowsOneMore(plan, steps, item, Some(a));
      TakenOneMore(steps, Some(a));
      plan, steps := plan + [item], steps + [Some(a)];
    }
  }
}
