/**
 * Alignment arithmetic of `common::MathUtil` (`IsAligned`, `AlignTo`) and the
 * running-offset layout rule that `ExecutionContext::ComputeTupleSize` applies to
 * the columns of an output schema.
 */
module MathUtil {

  /** `IsAligned(value, alignment)`: the value is a multiple of the alignment. */
  predicate IsAligned(value: nat, alignment: nat)
    requires alignment > 0
  {
    value % alignment == 0
  }

  /** Sign facts about a multiple of a positive number. */
  lemma MulSign(d: int, a: int)
    requires a > 0
    ensures d >= 1 ==> d * a >= a
    ensures d <= -1 ==> d * a <= -a
    ensures d == 0 ==> d * a == 0
  {
  }

  /** Euclidean division is unique: a quotient and remainder that fit are the ones `/` and `%` give. */
  lemma DivModUnique(x: nat, a: nat, q: int, rem: int)
    requires a > 0 && 0 <= rem < a && x == q * a + rem
    ensures x / a == q && x % a == rem
  {
    var d := x / a - q;
    assert d * a == rem - x % a;
    MulSign(d, a);
  }

  /** `AlignTo(value, alignment)`: the smallest multiple of `alignment` that is >= `value`. */
  function AlignTo(value: nat, alignment: nat): (r: nat)
    requires alignment > 0
    ensures IsAligned(r, alignment)
    ensures value <= r < value + alignment
    ensures IsAligned(value, alignment) ==> r == value
  {
    var rem := value % alignment;
    if rem == 0 then value
    else
      var q := value / alignment;
      var r := value + (alignment - rem);
      assert r == (q + 1) * alignment + 0;
      DivModUnique(r, alignment, q + 1, 0);
      r
  }

  /** No aligned value lies in `[value, AlignTo(value, alignment))`: `AlignTo` is the least one. */
  lemma AlignToIsLeast(value: nat, alignment: nat, other: nat)
    requires alignment > 0
    requires value <= other && IsAligned(other, alignment)
    ensures AlignTo(value, alignment) <= other
  {
    var r := AlignTo(value, alignment);
    var q1, q2 := other / alignment, r / alignment;
    assert other == q1 * alignment && r == q2 * alignment;
    assert r - other == (q2 - q1) * alignment;
    MulSign(q2 - q1, alignment);
  }

  /** A column of a row layout: its byte size and its required alignment. */
  datatype Column = Column(size: nat, alignment: nat)

  predicate WellFormed(cols: seq<Column>)
  {
    forall i :: 0 <= i < |cols| ==> cols[i].alignment > 0
  }

  /** Sum of the column sizes, ignoring padding. */
  function SumSizes(cols: seq<Column>): nat
  {
    if cols == [] then 0 else SumSizes(cols[..|cols| - 1]) + cols[|cols| - 1].size
  }

  /**
   * End of a packed layout: each column is placed at the smallest offset that is at
   * least the running size and aligned to that column, then its size is added.
   */
  function LayoutEnd(cols: seq<Column>): nat
    requires WellFormed(cols)
  {
    if cols == [] then 0
    else
      var last := cols[|cols| - 1];
      AlignTo(LayoutEnd(cols[..|cols| - 1]), last.alignment) + last.size
  }

  /** Offset at which column `i` is placed. */
  function OffsetOf(cols: seq<Column>, i: nat): (r: nat)
    requires WellFormed(cols) && i < |cols|
    ensures IsAligned(r, cols[i].alignment)
    ensures r + cols[i].size <= LayoutEnd(cols)
  {
    LayoutPrefixMonotone(cols, i + 1);
    assert cols[..i + 1][..i] == cols[..i];
    AlignTo(LayoutEnd(cols[..i]), cols[i].alignment)
  }

  /** The layout of a longer prefix never ends earlier. */
  lemma {:induction false} LayoutPrefixMonotone(cols: seq<Column>, k: nat)
    requires WellFormed(cols) && k <= |cols|
    ensures LayoutEnd(cols[..k]) <= LayoutEnd(cols)
    decreases |cols| - k
  {
    if k < |cols| {
      var init := cols[..|cols| - 1];
      assert init[..k] == cols[..k];
      LayoutPrefixMonotone(init, k);
      assert LayoutEnd(init) <= LayoutEnd(cols);
    } else {
      assert cols[..k] == cols;
    }
  }

  /** Padding only ever adds bytes: the layout is at least the sum of the column sizes. */
  lemma {:induction false} LayoutCoversSizes(cols: seq<Column>)
    requires WellFormed(cols)
    ensures LayoutEnd(cols) >= SumSizes(cols)
  {
    if cols != [] {
      LayoutCoversSizes(cols[..|cols| - 1]);
    }
  }

  /** Every column starts at a running total that is already aligned for it. */
  predicate NaturallyAligned(cols: seq<Column>)
    requires WellFormed(cols)
  {
    forall i :: 0 <= i < |cols| ==> IsAligned(SumSizes(cols[..i]), cols[i].alignment)
  }

  /** When no column needs padding, the layout is exactly the sum of the column sizes. */
  lemma {:induction false} LayoutOfAlignedIsSum(cols: seq<Column>)
    requires WellFormed(cols) && NaturallyAligned(cols)
    ensures LayoutEnd(cols) == SumSizes(cols)
  {
    if cols != [] {
      var n := |cols| - 1;
      var init := cols[..n];
      forall i | 0 <= i < |init|
        ensures IsAligned(SumSizes(init[..i]), init[i].alignment)
      {
        assert init[..i] == cols[..i];
      }
      LayoutOfAlignedIsSum(init);
      assert IsAligned(SumSizes(cols[..n]), cols[n].alignment);
    }
  }
}
