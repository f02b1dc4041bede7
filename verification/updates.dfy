/**
  The three in-place range updates of the brute-force oracles, stated as
  pure functions on sequences: add `x`, multiply by `x`, or assign `x` to
  every index of `[l, r]`. `MapRange` performs the loop one index at a
  time, from `l` upwards, exactly as the oracles do.
 */
module RangeUpdates {
  import opened Ranges
  import opened Reductions

  /** Replaces `s[k]` by `f(s[k])` for every `k` in `[l, r]`, one index at a
      time from `l` upwards; the other indices keep their values. */
  function MapRange(s: seq<int>, l: int, r: int, f: int -> int): (t: seq<int>)
    requires ValidRange(|s|, l, r)
    ensures |t| == |s|
    ensures forall k :: 0 <= k < |s| && l <= k <= r ==> t[k] == f(s[k])
    ensures forall k :: 0 <= k < |s| && !(l <= k <= r) ==> t[k] == s[k]
    decreases r - l
  {
    if l > r then s else MapRange(s[l := f(s[l])], l + 1, r, f)
  }

  /** `values[i] += x` for every `i` in `[l, r]`. */
  function AddRange(s: seq<int>, l: int, r: int, x: int): (t: seq<int>)
    requires ValidRange(|s|, l, r)
    ensures |t| == |s|
    ensures forall k :: 0 <= k < |s| && l <= k <= r ==> t[k] == s[k] + x
    ensures forall k :: 0 <= k < |s| && !(l <= k <= r) ==> t[k] == s[k]
  {
    MapRange(s, l, r, v => v + x)
  }

  /** `values[i] *= x` for every `i` in `[l, r]`. */
  function MulRange(s: seq<int>, l: int, r: int, x: int): (t: seq<int>)
    requires ValidRange(|s|, l, r)
    ensures |t| == |s|
    ensures forall k :: 0 <= k < |s| && l <= k <= r ==> t[k] == s[k] * x
    ensures forall k :: 0 <= k < |s| && !(l <= k <= r) ==> t[k] == s[k]
  {
    MapRange(s, l, r, v => v * x)
  }

  /** `values[i] = x` for every `i` in `[l, r]`. */
  function AssignRange(s: seq<int>, l: int, r: int, x: int): (t: seq<int>)
    requires ValidRange(|s|, l, r)
    ensures |t| == |s|
    ensures forall k :: 0 <= k < |s| && l <= k <= r ==> t[k] == x
    ensures forall k :: 0 <= k < |s| && !(l <= k <= r) ==> t[k] == s[k]
  {
    MapRange(s, l, r, _ => x)
  }

  // ---------------------------------------------------------------------
  // Range sums after an update

  /** After assigning `x` to `[l, r]`, the sum over `[l, r]` is `x` times
      the width of the range. */
  lemma SumAfterAssign(s: seq<int>, l: int, r: int, x: int)
    requires ValidRange(|s|, l, r)
    ensures Sum(AssignRange(s, l, r, x), l, r) == Width(l, r) * x
  {
    SumConstant(AssignRange(s, l, r, x), l, r, x);
  }

  /** After adding `x` to `[l, r]`, the sum over `[l, r]` grows by `x` times
      the width of the range. */
  lemma SumAfterAdd(s: seq<int>, l: int, r: int, x: int)
    requires ValidRange(|s|, l, r)
    ensures Sum(AddRange(s, l, r, x), l, r) == Sum(s, l, r) + Width(l, r) * x
  {
    SumShifted(s, AddRange(s, l, r, x), l, r, x);
  }

  /** After multiplying `[l, r]` by `x`, the sum over `[l, r]` is multiplied
      by `x`. */
  lemma SumAfterMul(s: seq<int>, l: int, r: int, x: int)
    requires ValidRange(|s|, l, r)
    ensures Sum(MulRange(s, l, r, x), l, r) == Sum(s, l, r) * x
  {
    SumScaled(s, MulRange(s, l, r, x), l, r, x);
  }

  /** After adding `x` to `[l, r]`, the sum over any range `[a, b]` grows by
      `x` for each index the two ranges share. */
  lemma {:induction false} SumAfterAddAnywhere(s: seq<int>, l: int, r: int, x: int, a: int, b: int)
    requires ValidRange(|s|, l, r) && ValidRange(|s|, a, b)
    ensures Sum(AddRange(s, l, r, x), a, b)
         == Sum(s, a, b) + Width(if a < l then l else a, if b < r then b else r) * x
    decreases b - a
  {
    if a <= b {
      SumAfterAddAnywhere(s, l, r, x, a, b - 1);
      var lo := if a < l then l else a;
      if l <= b <= r {
        assert Width(lo, b) == Width(lo, b - 1) + 1;
      }
    }
  }

  /** After assigning `x` to `[l, r]`, the sum over any range `[a, b]` loses
      the old values the two ranges share and gains `x` for each of them. */
  lemma SumAfterAssignAnywhere(s: seq<int>, l: int, r: int, x: int, a: int, b: int)
    requires ValidRange(|s|, l, r) && ValidRange(|s|, a, b)
    ensures var lo := if a < l then l else a;
            var hi := if b < r then b else r;
            ValidRange(|s|, lo, hi)
            && Sum(AssignRange(s, l, r, x), a, b) == Sum(s, a, b) - Sum(s, lo, hi) + Width(lo, hi) * x
  {
    var t := AssignRange(s, l, r, x);
    var lo := if a < l then l else a;
    var hi := if b < r then b else r;
    if lo > hi {
      SumFrame(s, t, a, b);
    } else {
      SumSplit(s, a, lo - 1, b);
      SumSplit(s, lo, hi, b);
      SumSplit(t, a, lo - 1, b);
      SumSplit(t, lo, hi, b);
      SumFrame(s, t, a, lo - 1);
      SumFrame(s, t, hi + 1, b);
      SumConstant(t, lo, hi, x);
    }
  }

  // ---------------------------------------------------------------------
  // Minimum and maximum after an update

  /** After assigning `x` to a non-empty `[l, r]`, its minimum and maximum
      are both `x`. */
  lemma MinMaxAfterAssign(s: seq<int>, l: int, r: int, x: int)
    requires 0 <= l <= r < |s|
    ensures Min(AssignRange(s, l, r, x), l, r) == x
    ensures Max(AssignRange(s, l, r, x), l, r) == x
  {
  }

  /** After adding `x` to a non-empty `[l, r]`, its minimum and maximum both
      move by `x`. */
  lemma MinMaxAfterAdd(s: seq<int>, l: int, r: int, x: int)
    requires 0 <= l <= r < |s|
    ensures Min(AddRange(s, l, r, x), l, r) == Min(s, l, r) + x
    ensures Max(AddRange(s, l, r, x), l, r) == Max(s, l, r) + x
  {
    MinShifted(s, AddRange(s, l, r, x), l, r, x);
    MaxShifted(s, AddRange(s, l, r, x), l, r, x);
  }

  // ---------------------------------------------------------------------
  // Composing updates

  /** Assigning the same value to the same range twice is the same as doing
      it once. */
  lemma AssignIdempotent(s: seq<int>, l: int, r: int, x: int)
    requires ValidRange(|s|, l, r)
    ensures AssignRange(AssignRange(s, l, r, x), l, r, x) == AssignRange(s, l, r, x)
  {
  }

  /** A later assignment wins on the indices it covers; the earlier one
      survives on the rest of its range; everything else is untouched. */
  lemma AssignOverrides(s: seq<int>, l1: int, r1: int, x: int, l2: int, r2: int, y: int)
    requires ValidRange(|s|, l1, r1) && ValidRange(|s|, l2, r2)
    ensures var t := AssignRange(AssignRange(s, l1, r1, x), l2, r2, y);
            forall k :: 0 <= k < |s| ==>
              t[k] == if l2 <= k <= r2 then y else if l1 <= k <= r1 then x else s[k]
  {
  }

  /** An assignment that covers an earlier one erases it entirely. */
  lemma AssignCovered(s: seq<int>, l1: int, r1: int, x: int, l2: int, r2: int, y: int)
    requires ValidRange(|s|, l1, r1) && ValidRange(|s|, l2, r2)
    requires l1 <= r1 ==> l2 <= l1 && r1 <= r2
    ensures AssignRange(AssignRange(s, l1, r1, x), l2, r2, y) == AssignRange(s, l2, r2, y)
  {
  }

  /** Two additions to the same range combine into one addition of the sum. */
  lemma AddCombine(s: seq<int>, l: int, r: int, x: int, y: int)
    requires ValidRange(|s|, l, r)
    ensures AddRange(AddRange(s, l, r, x), l, r, y) == AddRange(s, l, r, x + y)
  {
  }

  /** Additions commute, whatever ranges they cover. */
  lemma AddCommute(s: seq<int>, l1: int, r1: int, x: int, l2: int, r2: int, y: int)
    requires ValidRange(|s|, l1, r1) && ValidRange(|s|, l2, r2)
    ensures AddRange(AddRange(s, l1, r1, x), l2, r2, y) == AddRange(AddRange(s, l2, r2, y), l1, r1, x)
  {
  }

  /** Two multiplications of the same range combine into one multiplication
      by the product. */
  lemma MulCombine(s: seq<int>, l: int, r: int, x: int, y: int)
    requires ValidRange(|s|, l, r)
    ensures MulRange(MulRange(s, l, r, x), l, r, y) == MulRange(s, l, r, x * y)
  {
    var t := MulRange(MulRange(s, l, r, x), l, r, y);
    var u := MulRange(s, l, r, x * y);
    forall k | 0 <= k < |s|
      ensures t[k] == u[k]
    {
      if l <= k <= r {
        assert s[k] * x * y == s[k] * (x * y);
      }
    }
  }
}
