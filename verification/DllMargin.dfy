/** The DRAM read-delay search: pass-window walks over two 32-bit words, and the choice among 32 delays. */
module DllMargin {
  import opened Bytes

  /** A 32-bit register, bit 0 first. */
  type Word = w: seq<bool> | |w| == 32 witness seq(32, _ => false)

  function Lsl1(w: Word): Word {
    [false] + w[..31]
  }

  function Lsr1(w: Word): Word {
    w[1..] + [false]
  }

  /** The `tst` instruction: some bit is set in both registers. */
  predicate Tst(w: Word, m: Word) {
    exists i :: 0 <= i < 32 && w[i] && m[i]
  }

  /** The word with only bit `k` set, or none if `k` is no bit number: a test mask shifted out at either end. */
  function Mask(k: int): Word {
    seq(32, i => i == k)
  }

  lemma MaskShifts(k: int)
    requires 0 <= k < 32
    ensures Lsr1(Mask(k)) == Mask(k - 1)
    ensures Lsl1(Mask(k)) == Mask(k + 1)
  {}

  /** Test results of 64 DLL steps, one bit each, in two words. */
  datatype Window = Window(lo: Word, hi: Word)

  /** Smallest and largest passing DLL step of one delay, in each phase. */
  datatype Entry = Entry(minP: byte, maxP: byte, minN: byte, maxN: byte)

  predicate Bit(w: Word, k: int) {
    0 <= k < 32 && w[k]
  }

  lemma TstMask(w: Word, k: int)
    ensures Tst(w, Mask(k)) <==> Bit(w, k)
  {
    if Bit(w, k) {
      assert w[k] && Mask(k)[k];
    }
  }

  /** Step `i` of the window passed its test. */
  predicate Pass(w: Window, i: int)
    requires 0 <= i < 64
  {
    if i < 32 then Bit(w.lo, i) else Bit(w.hi, i - 32)
  }

  // ---------------------------------------------------------------- the runs the walks measure

  /** Passing steps from `i` down, not counting step 0. */
  function RunDown(w: Window, i: int): (n: nat)
    requires 0 <= i < 64
    ensures n <= i
  {
    if i > 0 && Pass(w, i) then 1 + RunDown(w, i - 1) else 0
  }

  /** Passing steps from `i` up to the end of the window. */
  function RunUp(w: Window, i: int): (n: nat)
    requires 0 <= i <= 64
    ensures n <= 64 - i
    decreases 64 - i
  {
    if i < 64 && Pass(w, i) then 1 + RunUp(w, i + 1) else 0
  }

  /** Set bits of one word from `k` down: what is measured when the start lies outside the window. */
  function WordDown(word: Word, k: int): (n: nat)
    requires k < 32
    decreases k + 1
  {
    if k >= 0 && Bit(word, k) then 1 + WordDown(word, k - 1) else 0
  }

  function WordUp(word: Word, k: int): (n: nat)
    requires 0 <= k <= 32
    decreases 32 - k
  {
    if k < 32 && Bit(word, k) then 1 + WordUp(word, k + 1) else 0
  }

  /** What the downward walk measures for any byte it may start from. */
  function DownSteps(w: Window, start: byte): (n: nat) {
    if start == 0 then WordDown(w.lo, 0)
    else if start < 64 then RunDown(w, start)
    else WordDown(w.hi, start % 32)
  }

  function UpSteps(w: Window, start: byte): (n: nat) {
    if start < 64 then RunUp(w, start) else WordUp(w.hi, start % 32)
  }

  /** RunDown is the length of the longest passing run that ends at `i` and stays above step 0. */
  lemma {:induction false} RunDownIsLongest(w: Window, i: int)
    requires 0 <= i < 64
    ensures forall j :: i - RunDown(w, i) < j <= i ==> 0 < j < 64 && Pass(w, j)
    ensures RunDown(w, i) == i || !Pass(w, i - RunDown(w, i))
  {
    if i > 0 && Pass(w, i) {
      RunDownIsLongest(w, i - 1);
      assert RunDown(w, i) == 1 + RunDown(w, i - 1);
      forall j | i - RunDown(w, i) < j <= i
        ensures 0 < j < 64 && Pass(w, j)
      {
        assert j == i || i - 1 - RunDown(w, i - 1) < j <= i - 1;
      }
    } else {
      assert RunDown(w, i) == 0;
    }
  }

  /** RunUp is the length of the longest passing run that begins at `i`. */
  lemma {:induction false} RunUpIsLongest(w: Window, i: int)
    requires 0 <= i <= 64
    ensures forall j :: i <= j < i + RunUp(w, i) ==> Pass(w, j)
    ensures i + RunUp(w, i) == 64 || !Pass(w, i + RunUp(w, i))
    decreases 64 - i
  {
    if i < 64 && Pass(w, i) {
      RunUpIsLongest(w, i + 1);
    }
  }

  // ---------------------------------------------------------------- the walks

  /**
   * The walk that began at `start` stands at step `r1`, testing bit `k` of `word`; `left` steps are still to be
   * counted.
   */
  ghost predicate DownAt(w: Window, start: byte, r1: int, word: Word, k: int, left: nat) {
    if start == 0 then word == w.lo && k == r1 && -1 <= k <= 0 && left == WordDown(word, k)
    else if start < 64 then
      && 0 < r1 <= start && left == RunDown(w, r1)
      && word == (if r1 >= 32 then w.hi else w.lo) && k == (if r1 >= 32 then r1 - 32 else r1)
    else word == w.hi && r1 - k >= 64 && -1 <= k < 32 && left == WordDown(word, k)
  }

  ghost predicate UpAt(w: Window, start: byte, r1: int, word: Word, k: int, left: nat) {
    if start < 64 then
      && start <= r1 < 64 && left == RunUp(w, r1)
      && word == (if r1 >= 32 then w.hi else w.lo) && k == (if r1 >= 32 then r1 - 32 else r1)
    else word == w.hi && r1 - k >= 64 && 0 <= k <= 32 && left == WordUp(word, k)
  }

  /** A passing test moves the walk one step on, and is counted once. */
  lemma {:induction false} DownNext(w: Window, start: byte, r1: int, word: Word, k: int, left: nat)
    requires DownAt(w, start, r1, word, k, left) && k >= 0 && Bit(word, k)
    ensures left > 0
    ensures r1 - 1 == 0 ==> left == 1
    ensures r1 != 1 && r1 == 32 ==> DownAt(w, start, r1 - 1, w.lo, 31, left - 1)
    ensures r1 != 1 && r1 != 32 ==> DownAt(w, start, r1 - 1, word, k - 1, left - 1)
  {}

  lemma {:induction false} UpNext(w: Window, start: byte, r1: int, word: Word, k: int, left: nat)
    requires UpAt(w, start, r1, word, k, left) && k < 32 && Bit(word, k)
    ensures left > 0
    ensures r1 + 1 == 64 ==> left == 1
    ensures r1 != 63 && r1 == 31 ==> UpAt(w, start, r1 + 1, w.hi, 0, left - 1)
    ensures r1 != 63 && r1 != 31 ==> UpAt(w, start, r1 + 1, word, k + 1, left - 1)
  {}

  /** A failing test ends the count. */
  lemma {:induction false} DownEnd(w: Window, start: byte, r1: int, word: Word, k: int, left: nat)
    requires DownAt(w, start, r1, word, k, left) && !Bit(word, k)
    ensures left == 0
  {}

  lemma {:induction false} UpEnd(w: Window, start: byte, r1: int, word: Word, k: int, left: nat)
    requires UpAt(w, start, r1, word, k, left) && !Bit(word, k)
    ensures left == 0
  {}

  /** Walks down from `start`, one mask shift to a step, switching words between steps 32 and 31. */
  method WalkDown(w: Window, start: byte) returns (margin: int)
    ensures margin == DownSteps(w, start)
  {
    var r1: int := start;
    var r2: Word := if start >= 32 then w.hi else w.lo;
    var r10: Word := Mask(start % 32);
    ghost var k, left := start % 32, DownSteps(w, start);
    TstMask(r2, k);
    while Tst(r2, r10)
      invariant r10 == Mask(k) && -1 <= k < 32
      invariant DownAt(w, start, r1, r2, k, left)
      invariant start - r1 + left == DownSteps(w, start)
      invariant Tst(r2, r10) <==> Bit(r2, k)
      decreases left
    {
      MaskShifts(k);
      DownNext(w, start, r1, r2, k, left);
      r10, k, left := Lsr1(r10), k - 1, left - 1;
      if r1 == 32 {
        r2, r10, k := w.lo, Mask(31), 31;
      }
      TstMask(r2, k);
      r1 := r1 - 1;
      if r1 == 0 {
        return start - r1;
      }
    }
    DownEnd(w, start, r1, r2, k, left);
    return start - r1;
  }

  /** Walks up from `start`, switching words between steps 31 and 32, and stops at step 64. */
  method WalkUp(w: Window, start: byte) returns (margin: int)
    ensures margin == UpSteps(w, start)
  {
    var r1: int := start;
    var r2: Word := if start >= 32 then w.hi else w.lo;
    var r10: Word := Mask(start % 32);
    ghost var k, left := start % 32, UpSteps(w, start);
    TstMask(r2, k);
    while Tst(r2, r10)
      invariant r10 == Mask(k) && 0 <= k <= 32
      invariant UpAt(w, start, r1, r2, k, left)
      invariant r1 - start + left == UpSteps(w, start)
      invariant Tst(r2, r10) <==> Bit(r2, k)
      decreases left
    {
      MaskShifts(k);
      UpNext(w, start, r1, r2, k, left);
      r10, k, left := Lsl1(r10), k + 1, left - 1;
      if r1 == 31 {
        r2, r10, k := w.hi, Mask(0), 0;
      }
      TstMask(r2, k);
      r1 := r1 + 1;
      if r1 == 64 {
        return r1 - start;
      }
    }
    UpEnd(w, start, r1, r2, k, left);
    return r1 - start;
  }

  /** The smaller of the passing runs on either side of a delay's range. */
  function Side(w: Window, min: byte, max: byte): (n: nat) {
    if UpSteps(w, max) < DownSteps(w, min) then UpSteps(w, max) else DownSteps(w, min)
  }

  method SideMargin(w: Window, min: byte, max: byte) returns (side: int)
    ensures side == Side(w, min, max)
    ensures 1 <= min <= max <= 63 ==>
              side == if RunUp(w, max) < RunDown(w, min) then RunUp(w, max) else RunDown(w, min)
  {
    side := WalkDown(w, min);
    var up := WalkUp(w, max);
    if up < side {
      side := up;
    }
  }

  // ---------------------------------------------------------------- the choice of a delay

  function Margin(min: byte, max: byte): (n: nat) {
    if max < min then 0 else max - min
  }

  /** One delay in its better phase: `code` is the delay number, plus 0x80 for the N phase. */
  datatype Candidate = Candidate(code: int, margin: nat, side: nat)

  function CandidateAt(e: Entry, p: Window, n: Window, delay: int): Candidate {
    var mp, mn := Margin(e.minP, e.maxP), Margin(e.minN, e.maxN);
    if mp < mn then Candidate(delay + 0x80, mn, Side(n, e.minN, e.maxN))
    else Candidate(delay, mp, Side(p, e.minP, e.maxP))
  }

  datatype Best = Best(code: int, margin: nat, side: nat, maxMargin: nat)

  /** The search takes the candidate: three rules, behind the gate of two steps below the best margin. */
  predicate Accepts(b: Best, c: Candidate) {
    && c.margin > 0
    && c.margin + 2 >= b.maxMargin
    && (|| (c.code <= 20 && c.margin > b.margin && c.side >= b.side)
        || (c.margin > b.margin + 1 && c.side >= b.side)
        || (b.side < 8 && c.side > b.side))
  }

  function Taking(b: Best, c: Candidate): Best {
    Best(c.code, c.margin, c.side, if c.margin > b.maxMargin then c.margin else b.maxMargin)
  }

  function Consider(b: Best, c: Candidate): Best {
    if Accepts(b, c) then Taking(b, c) else b
  }

  function Candidates(t: seq<Entry>, p: Window, n: Window): (cs: seq<Candidate>) {
    seq(|t|, i requires 0 <= i < |t| => CandidateAt(t[i], p, n, i))
  }

  /** The search state after the first `k` candidates. */
  function After(cs: seq<Candidate>, k: nat): (b: Best)
    requires k <= |cs|
  {
    if k == 0 then Best(0, 0, 0, 0) else Consider(After(cs, k - 1), cs[k - 1])
  }

  /** The search loop, with the branches of the assembly. */
  method Search(t: seq<Entry>, p: Window, n: Window) returns (b: Best)
    requires |t| == 32
    ensures b == After(Candidates(t, p, n), 32)
  {
    var r5 := 0;
    var gMargin, maxMargin, r8, r7 := 0, 0, 0, 0;
    while r5 < 0x20
      invariant 0 <= r5 <= 32
      invariant gMargin >= 0 && maxMargin >= 0 && r8 >= 0
      invariant Best(r7, gMargin, r8, maxMargin) == After(Candidates(t, p, n), r5)
    {
      var e := t[r5];
      var accept, margin, code, side := Weigh(e, p, n, r5, gMargin, maxMargin, r8);
      if accept {
        if margin > maxMargin {
          maxMargin := margin;
        }
        gMargin, r7, r8 := margin, code, side;
      }
      r5 := r5 + 1;
    }
    b := Best(r7, gMargin, r8, maxMargin);
  }

  /** One delay: both margins, the gate, the walks, and the three rules in the order the assembly tries them. */
  method Weigh(e: Entry, p: Window, n: Window, delay: int, gMargin: nat, maxMargin: nat, gSide: nat)
    returns (accept: bool, margin: nat, code: int, side: nat)
    requires 0 <= delay < 32
    ensures var c := CandidateAt(e, p, n, delay);
            && accept == Accepts(Best(0, gMargin, gSide, maxMargin), c)
            && (accept ==> c == Candidate(code, margin, side))
  {
    code, margin, side := delay, 0, 0;
    var r2 := if e.maxP - e.minP < 0 then 0 else e.maxP - e.minP;
    var r3 := if e.maxN - e.minN < 0 then 0 else e.maxN - e.minN;
    if r2 + r3 == 0 {
      return false, margin, code, side;
    }
    var w, min, max := p, e.minP, e.maxP;
    if r2 < r3 {
      code := code + 0x80;
      w, min, max := n, e.minN, e.maxN;
    } else {
      r3 := r2;
    }
    margin := r3;
    if r3 + 2 < maxMargin {
      return false, margin, code, side;
    }
    side := SideMargin(w, min, max);
    if code <= 20 {
      if r3 > gMargin && side >= gSide {
        return true, margin, code, side;
      }
    }
    if r3 > gMargin + 1 && side >= gSide {
      return true, margin, code, side;
    }
    if gSide >= 8 || side <= gSide {
      return false, margin, code, side;
    }
    return true, margin, code, side;
  }

  // ---------------------------------------------------------------- what the search guarantees

  /** Delay `i` was taken when its turn came. */
  predicate Taken(cs: seq<Candidate>, i: nat)
    requires i < |cs|
  {
    Accepts(After(cs, i), cs[i])
  }

  /** The recorded side margin and the best margin never decrease along the search. */
  lemma {:induction false} NeverDecreases(cs: seq<Candidate>, j: nat, k: nat)
    requires j <= k <= |cs|
    ensures After(cs, j).side <= After(cs, k).side
    ensures After(cs, j).maxMargin <= After(cs, k).maxMargin
  {
    if j < k {
      NeverDecreases(cs, j, k - 1);
    }
  }

  lemma {:induction false} MarginNearMax(cs: seq<Candidate>, k: nat)
    requires k <= |cs|
    ensures After(cs, k).margin <= After(cs, k).maxMargin <= After(cs, k).margin + 2
  {
    if k > 0 {
      MarginNearMax(cs, k - 1);
    }
  }

  lemma TakenBelowMax(cs: seq<Candidate>, i: nat, k: nat)
    requires i < k <= |cs| && Taken(cs, i)
    ensures cs[i].margin <= After(cs, k).maxMargin
  {
    NeverDecreases(cs, i + 1, k);
  }

  lemma {:induction false} MaxIsTaken(cs: seq<Candidate>, k: nat) returns (i: nat)
    requires k <= |cs| && After(cs, k).maxMargin > 0
    ensures i < k && Taken(cs, i) && cs[i].margin == After(cs, k).maxMargin
  {
    if After(cs, k - 1).maxMargin == After(cs, k).maxMargin {
      i := MaxIsTaken(cs, k - 1);
    } else {
      i := k - 1;
    }
  }

  /**
   * The best margin is the maximum over the delays taken, and the chosen margin is never more than two steps below it.
   */
  lemma MaxOfTaken(cs: seq<Candidate>, k: nat)
    requires k <= |cs|
    ensures var b := After(cs, k);
            && (forall i :: 0 <= i < k && Taken(cs, i) ==> cs[i].margin <= b.maxMargin)
            && (b.maxMargin > 0 ==> exists i :: 0 <= i < k && Taken(cs, i) && cs[i].margin == b.maxMargin)
            && b.margin <= b.maxMargin <= b.margin + 2
  {
    var b := After(cs, k);
    MarginNearMax(cs, k);
    forall i | 0 <= i < k && Taken(cs, i) ensures cs[i].margin <= b.maxMargin {
      TakenBelowMax(cs, i, k);
    }
    if b.maxMargin > 0 {
      var i := MaxIsTaken(cs, k);
    }
  }

  /**
   * The result is the last delay taken: its code, its margin, its side margin; or, with `i` at -1, nothing was taken.
   */
  lemma {:induction false} ChosenIsTaken(cs: seq<Candidate>, k: nat) returns (i: int)
    requires k <= |cs|
    ensures -1 <= i < k
    ensures forall j :: i < j < k ==> !Taken(cs, j)
    ensures i == -1 ==> After(cs, k) == Best(0, 0, 0, 0)
    ensures i >= 0 ==> Taken(cs, i) && cs[i] == Candidate(After(cs, k).code, After(cs, k).margin, After(cs, k).side)
  {
    if k == 0 {
      i := -1;
    } else if Taken(cs, k - 1) {
      i := k - 1;
    } else {
      i := ChosenIsTaken(cs, k - 1);
    }
  }

  /**
   * Nothing better was passed over. A working delay whose margin is within two steps of the best has no more side
   * margin than the result, unless the result already has eight steps; and a working delay with as much side margin
   * as the result has at most three steps more margin.
   */
  lemma NothingBetterPassedOver(cs: seq<Candidate>, i: nat)
    requires i < |cs|
    ensures var c, b := cs[i], After(cs, |cs|);
            && (c.margin > 0 && c.margin + 2 >= b.maxMargin ==> c.side <= b.side || b.side >= 8)
            && (c.side >= b.side ==> c.margin <= b.margin + 3)
  {
    NeverDecreases(cs, i, |cs|);
    NeverDecreases(cs, i + 1, |cs|);
    MaxOfTaken(cs, i);
    MaxOfTaken(cs, |cs|);
  }

  // ---------------------------------------------------------------- what a candidate measures

  /** `d` is the number of passing steps from `i` down, as far as they go without reaching step 0. */
  ghost predicate PassesDown(w: Window, i: int, d: nat)
    requires 0 <= i < 64
  {
    && d <= i && (forall j :: i - d < j <= i ==> Pass(w, j))
    && (d == i || !Pass(w, i - d))
  }

  /** `u` is the number of passing steps from `i` up, as far as they go. */
  ghost predicate PassesUp(w: Window, i: int, u: nat)
    requires 0 <= i < 64
  {
    && i + u <= 64 && (forall j :: i <= j < i + u ==> Pass(w, j))
    && (i + u == 64 || !Pass(w, i + u))
  }

  /** The candidate for delay number `delay`: its phase, its margin, and its side margin in that phase's own window. */
  ghost predicate Measures(c: Candidate, e: Entry, p: Window, n: Window, delay: nat, down: nat, up: nat) {
    var mp, mn := if e.maxP > e.minP then e.maxP - e.minP else 0, if e.maxN > e.minN then e.maxN - e.minN else 0;
    if mn > mp then
      && c.code == 0x80 + delay && c.margin == mn
      && (1 <= e.minN && e.maxN <= 63 ==>
            PassesDown(n, e.minN, down) && PassesUp(n, e.maxN, up) && c.side == if up < down then up else down)
    else
      && c.code == delay && c.margin == mp
      && (1 <= e.minP <= e.maxP <= 63 ==>
            PassesDown(p, e.minP, down) && PassesUp(p, e.maxP, up) && c.side == if up < down then up else down)
  }

  lemma CandidateMeasures(e: Entry, p: Window, n: Window, delay: nat) returns (down: nat, up: nat)
    ensures Measures(CandidateAt(e, p, n, delay), e, p, n, delay, down, up)
  {
    down, up := 0, 0;
    var mp, mn := Margin(e.minP, e.maxP), Margin(e.minN, e.maxN);
    if mp < mn && 1 <= e.minN && e.maxN <= 63 {
      down, up := RunDown(n, e.minN), RunUp(n, e.maxN);
      RunDownIsLongest(n, e.minN);
      RunUpIsLongest(n, e.maxN);
    } else if mn <= mp && 1 <= e.minP <= e.maxP <= 63 {
      down, up := RunDown(p, e.minP), RunUp(p, e.maxP);
      RunDownIsLongest(p, e.minP);
      RunUpIsLongest(p, e.maxP);
    }
  }

  /**
   * What the search returns for any table and any two windows: nothing, or one of the 32 delays in the phase with the
   * larger margin (P if they are equal), with that margin, and with its side margin measured at the entry's own steps
   * in the window of that phase.
   */
  lemma ResultMeasures(t: seq<Entry>, p: Window, n: Window) returns (i: nat, down: nat, up: nat)
    requires |t| == 32
    ensures var b := After(Candidates(t, p, n), 32);
            || b == Best(0, 0, 0, 0)
            || (i < 32 && Measures(Candidate(b.code, b.margin, b.side), t[i], p, n, i, down, up))
  {
    var cs := Candidates(t, p, n);
    var k := ChosenIsTaken(cs, 32);
    i, down, up := 0, 0, 0;
    if k >= 0 {
      i := k;
      CandidateIs(t, p, n, i);
      down, up := CandidateMeasures(t[i], p, n, i);
    }
  }

  // ---------------------------------------------------------------- the rule as its comment states it

  /** The delay number of a candidate, without the phase flag. */
  function DelayOf(c: Candidate): int {
    if c.code >= 0x80 then c.code - 0x80 else c.code
  }

  /** The three rules with the first one limited to delay numbers up to 20, in either phase. */
  predicate AcceptsAsCommented(b: Best, c: Candidate) {
    && c.margin > 0
    && c.margin + 2 >= b.maxMargin
    && (|| (DelayOf(c) <= 20 && c.margin > b.margin && c.side >= b.side)
        || (c.margin > b.margin + 1 && c.side >= b.side)
        || (b.side < 8 && c.side > b.side))
  }

  /** An N phase candidate that the first rule would take, by one step of margin, but for the phase flag. */
  predicate Skipped(b: Best, c: Candidate) {
    && c.code >= 0x80 && DelayOf(c) <= 20
    && c.margin == b.margin + 1 && c.margin + 2 >= b.maxMargin
    && c.side >= b.side && (b.side >= 8 || c.side == b.side)
  }

  /** The code and its comment disagree on a candidate if and only if the code skips it; it never takes one too many. */
  lemma DiffersIffSkipped(b: Best, c: Candidate)
    ensures Accepts(b, c) != AcceptsAsCommented(b, c) <==> Skipped(b, c)
    ensures Accepts(b, c) ==> AcceptsAsCommented(b, c)
  {}

  function AfterAsCommented(cs: seq<Candidate>, k: nat): (b: Best)
    requires k <= |cs|
  {
    if k == 0 then Best(0, 0, 0, 0)
    else
      var b, c := AfterAsCommented(cs, k - 1), cs[k - 1];
      if AcceptsAsCommented(b, c) then Taking(b, c) else b
  }

  ghost predicate NoneSkipped(cs: seq<Candidate>, n: nat)
    requires n <= |cs|
  {
    forall k :: 0 <= k < n ==> !Skipped(After(cs, k), cs[k])
  }

  ghost predicate SameSoFar(cs: seq<Candidate>, n: nat)
    requires n <= |cs|
  {
    forall k :: 0 <= k <= n ==> After(cs, k) == AfterAsCommented(cs, k)
  }

  /** The two searches agree at every delay if and only if the code skips none. */
  lemma {:induction false} SearchesAgreeIff(cs: seq<Candidate>, n: nat)
    requires n <= |cs|
    ensures SameSoFar(cs, n) <==> NoneSkipped(cs, n)
  {
    if n > 0 {
      SearchesAgreeIff(cs, n - 1);
      if SameSoFar(cs, n - 1) {
        OneMoreAgrees(cs, n);
      }
    }
  }

  lemma OneMoreAgrees(cs: seq<Candidate>, n: nat)
    requires 0 < n <= |cs| && After(cs, n - 1) == AfterAsCommented(cs, n - 1)
    ensures After(cs, n) == AfterAsCommented(cs, n) <==> !Skipped(After(cs, n - 1), cs[n - 1])
  {
    var b, c := After(cs, n - 1), cs[n - 1];
    DiffersIffSkipped(b, c);
  }

  function AllPassWord(): Word {
    seq(32, i => true)
  }

  function AllPass(): Window {
    Window(AllPassWord(), AllPassWord())
  }

  /** In a window where everything passes the side margin is the distance to the nearer end. */
  lemma AllPassSide(min: byte, max: byte)
    requires 1 <= min <= max <= 63
    ensures Side(AllPass(), min, max) == if 64 - max < min then 64 - max else min
  {
    RunDownIsLongest(AllPass(), min);
    RunUpIsLongest(AllPass(), max);
    assert forall i :: 0 <= i < 64 ==> Pass(AllPass(), i);
  }

  /** Nothing passed at this delay. */
  function NothingPassed(): Entry {
    Entry(0xff, 0, 0xff, 0)
  }

  /**
   * Delay 0 passes at steps 10 to 20 in the P phase, delay 1 at steps 10 to 21 in the N phase, no other delay at all.
   */
  function SkippingTable(): (t: seq<Entry>)
    ensures |t| == 32
  {
    [Entry(10, 20, 0xff, 0), Entry(0xff, 0, 10, 21)] + seq(30, i => NothingPassed())
  }

  lemma CandidateIs(t: seq<Entry>, p: Window, n: Window, i: nat)
    requires i < |t|
    ensures |Candidates(t, p, n)| == |t| && Candidates(t, p, n)[i] == CandidateAt(t[i], p, n, i)
  {}

  lemma SkippingCandidates()
    ensures var cs := Candidates(SkippingTable(), AllPass(), AllPass());
            && |cs| == 32 && cs[0] == Candidate(0, 10, 10) && cs[1] == Candidate(0x81, 11, 10)
            && forall k :: 2 <= k < 32 ==> cs[k].margin == 0
  {
    var t: seq<Entry>, w: Window := SkippingTable(), AllPass();
    AllPassSide(10, 20);
    AllPassSide(10, 21);
    assert t[0] == Entry(10, 20, 0xff, 0) && t[1] == Entry(0xff, 0, 10, 21);
    CandidateIs(t, w, w, 0);
    CandidateIs(t, w, w, 1);
    forall k | 2 <= k < 32 ensures Candidates(t, w, w)[k].margin == 0 {
      CandidateIs(t, w, w, k);
      assert t[k] == NothingPassed();
    }
  }

  lemma {:induction false} NothingMore(cs: seq<Candidate>, k: nat)
    requires 2 <= k <= |cs| && forall i :: 2 <= i < k ==> cs[i].margin == 0
    ensures After(cs, k) == After(cs, 2) && AfterAsCommented(cs, k) == AfterAsCommented(cs, 2)
  {
    if k > 2 {
      NothingMore(cs, k - 1);
    }
  }

  /** A whole search whose result is not the one the comment describes: the code stays at delay 0, one step worse. */
  lemma SearchDiffers()
    ensures var cs := Candidates(SkippingTable(), AllPass(), AllPass());
            |cs| == 32 && After(cs, 32) == Best(0, 10, 10, 10) && AfterAsCommented(cs, 32) == Best(0x81, 11, 10, 11)
  {
    SkippingCandidates();
    var cs := Candidates(SkippingTable(), AllPass(), AllPass());
    NothingMore(cs, 32);
    FirstTwo(cs);
  }

  lemma FirstTwo(cs: seq<Candidate>)
    requires |cs| >= 2 && cs[0] == Candidate(0, 10, 10) && cs[1] == Candidate(0x81, 11, 10)
    ensures After(cs, 2) == Best(0, 10, 10, 10) && AfterAsCommented(cs, 2) == Best(0x81, 11, 10, 11)
  {
    assert After(cs, 1) == Best(0, 10, 10, 10) && AfterAsCommented(cs, 1) == Best(0, 10, 10, 10);
  }
}
