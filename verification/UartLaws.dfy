/** What one round of the receiver does, and what a consumer gets: nothing stays undone. */
module UartLaws {
  import opened Uart

  lemma {:induction false} RunFrom(s: State, a: Action, rest: seq<Action>)
    requires Can(s, a) && IsRun(Do(s, a), rest)
    ensures IsRun(s, [a] + rest) && End(s, [a] + rest) == End(Do(s, a), rest)
  {
    assert ([a] + rest)[1..] == rest;
  }

  /** What a reader is after chunk `c` was offered to it. */
  function Given(q: Reader, c: nat): Reader {
    if |q.queue| < 1024 then q.(queue := q.queue + [c]) else q.(drops := q.drops + [c])
  }

  /** The readers from position `k` of the list on have been given chunk `c`, and nothing else has changed. */
  ghost predicate GaveFrom(table: seq<Reader>, next: seq<Reader>, list: seq<nat>, k: nat, c: nat)
    requires k <= |list| && AllBelow(list, |table|)
  {
    && |next| == |table|
    && (forall i :: k <= i < |list| ==> next[list[i]] == Given(table[list[i]], c))
    && (forall r :: 0 <= r < |table| && r !in list[k..] ==> next[r] == table[r])
  }

  /** Everything but the readers' streams and the count of overruns is as before. */
  ghost predicate SameList(s: State, t: State) {
    && t.arrays == s.arrays && t.readers == s.readers
    && t.chunks == s.chunks && t.snapshot == s.snapshot && t.past == s.past
  }

  lemma OfferGives(s: State)
    requires Inv(s) && s.receiver.Offering? && s.receiver.pos < s.receiver.rs.len
    ensures Can(s, Offer)
    ensures var t, r := Do(s, Offer), s.snapshot[s.receiver.pos];
            && SameList(s, t) && t.receiver == Offering(s.receiver.rs, s.receiver.pos + 1)
            && r < |s.table| && t.table == s.table[r := Given(s.table[r], s.chunks - 1)]
  {
    assert s.arrays[s.receiver.rs.arr][s.receiver.pos] == s.snapshot[s.receiver.pos];
  }

  lemma GaveOne(table: seq<Reader>, mid: seq<Reader>, next: seq<Reader>, list: seq<nat>, k: nat, c: nat)
    requires k < |list| && Distinct(list) && AllBelow(list, |table|)
    requires mid == table[list[k] := Given(table[list[k]], c)] && GaveFrom(mid, next, list, k + 1, c)
    ensures GaveFrom(table, next, list, k, c)
  {
    assert list[k..] == [list[k]] + list[k + 1..];
    forall i | k <= i < |list| ensures next[list[i]] == Given(table[list[i]], c) {
      if i == k {
        assert list[k] !in list[k + 1..];
      }
    }
  }

  /** The rest of the offers of a round. */
  lemma {:induction false} OffersAll(s: State) returns (acts: seq<Action>)
    requires Inv(s) && s.receiver.Offering?
    ensures IsRun(s, acts)
    ensures var t := End(s, acts);
            && Inv(t) && SameList(s, t) && t.receiver == Offering(s.receiver.rs, s.receiver.rs.len)
            && GaveFrom(s.table, t.table, s.snapshot, s.receiver.pos, s.chunks - 1)
    decreases s.receiver.rs.len - s.receiver.pos
  {
    if s.receiver.pos == s.receiver.rs.len {
      acts := [];
    } else {
      OfferGives(s);
      StepKeepsInv(s, Offer);
      var t := Do(s, Offer);
      var rest := OffersAll(t);
      RunFrom(s, Offer, rest);
      GaveOne(s.table, t.table, End(t, rest).table, s.snapshot, s.receiver.pos, s.chunks - 1);
      acts := [Offer] + rest;
    }
  }

  /**
   * One round: the receiver reads a chunk, takes a snapshot of the list, and offers the chunk to every reader in
   * it; each has it at the end of its queue, or among its drops if 1024 chunks were waiting. Then the receiver
   * reads again.
   */
  lemma Round(s: State) returns (acts: seq<Action>)
    requires Inv(s) && s.receiver.Reading?
    ensures IsRun(s, acts)
    ensures var t, list := End(s, acts), Contents(s.arrays, s.readers);
            && t.receiver.Reading? && t.chunks == s.chunks + 1 && t.past == s.past + [list]
            && t.arrays == s.arrays && t.readers == s.readers && GaveFrom(s.table, t.table, list, 0, s.chunks)
  {
    var s1 := Do(s, Read);
    StepKeepsInv(s, Read);
    var s2 := Do(s1, Snapshot);
    StepKeepsInv(s1, Snapshot);
    var offers := OffersAll(s2);
    var s3 := End(s2, offers);
    Append1(s2, offers, Loop);
    RunFrom(s1, Snapshot, offers + [Loop]);
    RunFrom(s, Read, [Snapshot] + (offers + [Loop]));
    acts := [Read] + ([Snapshot] + (offers + [Loop]));
  }

  lemma {:induction false} Append1(s: State, acts: seq<Action>, a: Action)
    requires IsRun(s, acts) && Can(End(s, acts), a)
    ensures IsRun(s, acts + [a]) && End(s, acts + [a]) == Do(End(s, acts), a)
    decreases |acts|
  {
    if acts == [] {
      assert [a][1..] == [] && [] + [a] == [a];
    } else {
      Append1(Do(s, acts[0]), acts[1..], a);
      assert (acts + [a])[1..] == acts[1..] + [a] && (acts + [a])[0] == acts[0];
    }
  }

  /** A consumer gets what is waiting for it, in order, and nobody else is concerned. */
  lemma {:induction false} Drains(s: State, r: nat) returns (acts: seq<Action>)
    requires r < |s.table|
    ensures IsRun(s, acts) && |acts| == |s.table[r].queue|
    ensures End(s, acts) == s.(table := s.table[r := Reader(s.table[r].taken + s.table[r].queue, [], s.table[r].drops)])
    decreases |s.table[r].queue|
  {
    var q := s.table[r];
    if q.queue == [] {
      acts := [];
      assert q.taken + q.queue == q.taken;
      assert s.table[r := Reader(q.taken + q.queue, [], q.drops)] == s.table;
    } else {
      var t := Do(s, Take(r));
      assert q.taken + q.queue == q.taken + [q.queue[0]] + q.queue[1..];
      var rest := Drains(t, r);
      RunFrom(s, Take(r), rest);
      acts := [Take(r)] + rest;
    }
  }
}
