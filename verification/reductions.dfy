/**
  Specifications of the three range reductions the brute-force oracles
  compute over an inclusive range `[l, r]`: sum, minimum and maximum.
  Each folds from left to right, in the order the oracles' loops visit
  the indices. Values are mathematical integers (Java `long` wrap-around
  is not modelled).
 */
module Reductions {
  import opened Ranges

  /** Sum of `s[l..r]` inclusive; 0 for an empty range. */
  function Sum(s: seq<int>, l: int, r: int): int
    requires ValidRange(|s|, l, r)
    decreases r - l
  {
    if l > r then 0 else Sum(s, l, r - 1) + s[r]
  }

  /** Smallest of `s[l..r]` inclusive: a lower bound of the range that is
      attained in it. */
  function Min(s: seq<int>, l: int, r: int): (m: int)
    requires 0 <= l <= r < |s|
    ensures forall k :: l <= k <= r ==> m <= s[k]
    ensures exists k :: l <= k <= r && m == s[k]
    decreases r - l
  {
    if l == r then s[l]
    else
      var m := Min(s, l, r - 1);
      if m <= s[r] then m else s[r]
  }

  /** Largest of `s[l..r]` inclusive: an upper bound of the range that is
      attained in it. */
  function Max(s: seq<int>, l: int, r: int): (m: int)
    requires 0 <= l <= r < |s|
    ensures forall k :: l <= k <= r ==> s[k] <= m
    ensures exists k :: l <= k <= r && m == s[k]
    decreases r - l
  {
    if l == r then s[l]
    else
      var m := Max(s, l, r - 1);
      if m >= s[r] then m else s[r]
  }

  /** The minimum is the only lower bound of the range that occurs in it. */
  lemma MinIsUnique(s: seq<int>, l: int, r: int, v: int)
    requires 0 <= l <= r < |s|
    requires forall k :: l <= k <= r ==> v <= s[k]
    requires exists k :: l <= k <= r && v == s[k]
    ensures v == Min(s, l, r)
  {
  }

  /** The maximum is the only upper bound of the range that occurs in it. */
  lemma MaxIsUnique(s: seq<int>, l: int, r: int, v: int)
    requires 0 <= l <= r < |s|
    requires forall k :: l <= k <= r ==> s[k] <= v
    requires exists k :: l <= k <= r && v == s[k]
    ensures v == Max(s, l, r)
  {
  }

  /** Splitting a range at any point splits its sum. */
  lemma {:induction false} SumSplit(s: seq<int>, l: int, m: int, r: int)
    requires ValidRange(|s|, l, r)
    requires l - 1 <= m <= r
    ensures ValidRange(|s|, l, m) && ValidRange(|s|, m + 1, r)
    ensures Sum(s, l, r) == Sum(s, l, m) + Sum(s, m + 1, r)
    decreases r - m
  {
    if m < r {
      SumSplit(s, l, m, r - 1);
    }
  }

  /** The sum over a range depends only on the values inside it. */
  lemma {:induction false} SumFrame(s: seq<int>, t: seq<int>, l: int, r: int)
    requires ValidRange(|s|, l, r) && ValidRange(|t|, l, r)
    requires forall k :: l <= k <= r ==> s[k] == t[k]
    ensures Sum(s, l, r) == Sum(t, l, r)
    decreases r - l
  {
    if l <= r {
      SumFrame(s, t, l, r - 1);
    }
  }

  /** A range holding one value `x` throughout sums to `x` times its width. */
  lemma {:induction false} SumConstant(s: seq<int>, l: int, r: int, x: int)
    requires ValidRange(|s|, l, r)
    requires forall k :: l <= k <= r ==> s[k] == x
    ensures Sum(s, l, r) == Width(l, r) * x
    decreases r - l
  {
    if l <= r {
      SumConstant(s, l, r - 1, x);
      assert Width(l, r) == Width(l, r - 1) + 1;
    }
  }

  /** Adding `x` to every value of a range adds `x` times its width to the
      sum. */
  lemma {:induction false} SumShifted(s: seq<int>, t: seq<int>, l: int, r: int, x: int)
    requires ValidRange(|s|, l, r) && ValidRange(|t|, l, r)
    requires forall k :: l <= k <= r ==> t[k] == s[k] + x
    ensures Sum(t, l, r) == Sum(s, l, r) + Width(l, r) * x
    decreases r - l
  {
    if l <= r {
      SumShifted(s, t, l, r - 1, x);
      assert Width(l, r) == Width(l, r - 1) + 1;
    }
  }

  /** Multiplying every value of a range by `x` multiplies the sum by `x`. */
  lemma {:induction false} SumScaled(s: seq<int>, t: seq<int>, l: int, r: int, x: int)
    requires ValidRange(|s|, l, r) && ValidRange(|t|, l, r)
    requires forall k :: l <= k <= r ==> t[k] == s[k] * x
    ensures Sum(t, l, r) == Sum(s, l, r) * x
    decreases r - l
  {
    if l <= r {
      SumScaled(s, t, l, r - 1, x);
      assert (Sum(s, l, r - 1) + s[r]) * x == Sum(s, l, r - 1) * x + s[r] * x;
    }
  }

  /** Adding `x` to every value of a range raises its minimum by `x`. */
  lemma MinShifted(s: seq<int>, t: seq<int>, l: int, r: int, x: int)
    requires 0 <= l <= r < |s| && r < |t|
    requires forall k :: l <= k <= r ==> t[k] == s[k] + x
    ensures Min(t, l, r) == Min(s, l, r) + x
  {
  }

  /** Adding `x` to every value of a range raises its maximum by `x`. */
  lemma MaxShifted(s: seq<int>, t: seq<int>, l: int, r: int, x: int)
    requires 0 <= l <= r < |s| && r < |t|
    requires forall k :: l <= k <= r ==> t[k] == s[k] + x
    ensures Max(t, l, r) == Max(s, l, r) + x
  {
  }
}
