/** Recording the range of passing DLL steps in the packed words the margin search reads. */
module DllRecord {
  import opened Bytes
  import opened DllMargin

  /** A table word, low byte first: lowest and highest step of the P phase, then of the N phase. */
  function Unpack(word: uint32): Entry {
    Entry(ByteOf(word, 0), ByteOf(word, 1), ByteOf(word, 2), ByteOf(word, 3))
  }

  function Pack(e: Entry): uint32 {
    e.minP + e.maxP * B8 + e.minN * B16 + e.maxN * B24
  }

  lemma PackUnpack(word: uint32)
    ensures Pack(Unpack(word)) == word
  {
    BytesOfInt(word);
  }

  lemma UnpackPack(e: Entry)
    ensures Unpack(Pack(e)) == e
  {
    Cut(e.minP, e.maxP, e.minN, e.maxN);
  }

  function Min(x: byte, y: byte): byte { if x < y then x else y }

  function Max(x: byte, y: byte): byte { if x < y then y else x }

  /** The entry after `step` passed in one phase. */
  function Recorded(e: Entry, high: bool, step: byte): Entry {
    if high then e.(minN := Min(e.minN, step), maxN := Max(e.maxN, step))
    else e.(minP := Min(e.minP, step), maxP := Max(e.maxP, step))
  }

  /** The macro for the P phase: the low half word of a table word is updated in place. */
  method RecordPassRange(table: array<uint32>, i: nat, step: byte)
    requires i < table.Length
    modifies table
    ensures Unpack(table[i]) == Recorded(Unpack(old(table[i])), false, step)
    ensures forall k :: 0 <= k < table.Length && k != i ==> table[k] == old(table[k])
  {
    var r1 := table[i];
    ghost var e := Unpack(r1);
    PackUnpack(r1);
    var r2 := ByteOf(r1, 0);
    if r2 > step {
      r1 := r1 - r2 + step;
    }
    UnpackPack(e.(minP := Min(e.minP, step)));
    r2 := ByteOf(r1, 1);
    if step > r2 {
      r1 := r1 - r2 * B8 + step * B8;
    }
    UnpackPack(Recorded(e, false, step));
    table[i] := r1;
  }

  /** The macro for the N phase: the high half word. */
  method RecordPassRangeH(table: array<uint32>, i: nat, step: byte)
    requires i < table.Length
    modifies table
    ensures Unpack(table[i]) == Recorded(Unpack(old(table[i])), true, step)
    ensures forall k :: 0 <= k < table.Length && k != i ==> table[k] == old(table[k])
  {
    var r1 := table[i];
    ghost var e := Unpack(r1);
    PackUnpack(r1);
    var r2 := ByteOf(r1, 2);
    if r2 > step {
      r1 := r1 - r2 * B16 + step * B16;
    }
    UnpackPack(e.(minN := Min(e.minN, step)));
    r2 := ByteOf(r1, 3);
    if step > r2 {
      r1 := r1 - r2 * B24 + step * B24;
    }
    UnpackPack(Recorded(e, true, step));
    table[i] := r1;
  }

  /** A failing pattern before the fifth pass forgets the phase's range. */
  function Forgotten(e: Entry, high: bool): Entry {
    if high then e.(minN := 0xff, maxN := 0) else e.(minP := 0xff, maxP := 0)
  }

  function RecordedAll(e: Entry, high: bool, steps: seq<byte>): Entry {
    if steps == [] then e else Recorded(RecordedAll(e, high, steps[..|steps| - 1]), high, steps[|steps| - 1])
  }

  ghost predicate IsRange(min: byte, max: byte, steps: seq<byte>) {
    && min in steps && max in steps
    && forall i :: 0 <= i < |steps| ==> min <= steps[i] <= max
  }

  /**
   * After any run of passes in either phase, in any order, the word holds the lowest and the highest passing step,
   * and the other phase is untouched. The margin the search then computes is the width of that range, and zero if
   * nothing passed.
   */
  lemma {:induction false} RecordsRange(e: Entry, high: bool, steps: seq<byte>)
    ensures var r := RecordedAll(Forgotten(e, high), high, steps);
            var min, max := if high then r.minN else r.minP, if high then r.maxN else r.maxP;
            && (steps == [] ==> min == 0xff && max == 0 && Margin(min, max) == 0)
            && (steps != [] ==> IsRange(min, max, steps) && Margin(min, max) == max - min)
            && (if high then r.minP == e.minP && r.maxP == e.maxP else r.minN == e.minN && r.maxN == e.maxN)
    decreases |steps|
  {
    if steps != [] {
      var init, last := steps[..|steps| - 1], steps[|steps| - 1];
      RecordsRange(e, high, init);
      assert steps == init + [last];
      var r := RecordedAll(Forgotten(e, high), high, init);
      RangeMore(if high then r.minN else r.minP, if high then r.maxN else r.maxP, init, last);
    }
  }

  lemma RangeMore(min: byte, max: byte, steps: seq<byte>, step: byte)
    requires if steps == [] then min == 0xff && max == 0 else IsRange(min, max, steps)
    ensures IsRange(Min(min, step), Max(max, step), steps + [step])
  {
    assert (steps + [step])[|steps|] == step;
    assert forall x :: x in steps ==> x in steps + [step];
  }

  /** The order in which the steps passed, and repeats, make no difference. */
  lemma OrderDoesNotMatter(e: Entry, high: bool, xs: seq<byte>, ys: seq<byte>)
    requires forall x :: x in xs <==> x in ys
    ensures RecordedAll(Forgotten(e, high), high, xs) == RecordedAll(Forgotten(e, high), high, ys)
  {
    RecordsRange(e, high, xs);
    RecordsRange(e, high, ys);
    assert xs == [] <==> ys == [] by {
      assert xs != [] ==> xs[0] in ys;
      assert ys != [] ==> ys[0] in xs;
    }
  }
}
