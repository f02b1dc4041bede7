/**
  The oracle side of the segment-tree test: a run of assignments applied
  to the plain array one after another, as the randomized test does to keep
  its reference array in step, and the literal arrays the fixed tests use.
 */
module Scenarios {
  import opened Ranges
  import opened Reductions
  import opened RangeUpdates

  /** One call `bruteForceAssignRangeUpdate(values, l, r, x)`. */
  datatype Assignment = Assignment(l: int, r: int, x: int)

  /** Every assignment of the run stays inside an array of length `n`. */
  predicate AllValid(n: nat, ops: seq<Assignment>) {
    forall i :: 0 <= i < |ops| ==> ValidRange(n, ops[i].l, ops[i].r)
  }

  /** The array after applying `ops` in order, first to last. */
  function ApplyAll(s: seq<int>, ops: seq<Assignment>): (t: seq<int>)
    requires AllValid(|s|, ops)
    ensures |t| == |s|
    decreases |ops|
  {
    if ops == [] then s
    else ApplyAll(AssignRange(s, ops[0].l, ops[0].r, ops[0].x), ops[1..])
  }

  /** Reference reading of a run: index `k` holds the value of the LAST
      assignment covering it, or `v` if none does. */
  function LastWrite(ops: seq<Assignment>, k: int, v: int): int
    decreases |ops|
  {
    if ops == [] then v
    else
      var op := ops[|ops| - 1];
      if op.l <= k <= op.r then op.x else LastWrite(ops[..|ops| - 1], k, v)
  }

  /** Peeling the first assignment off a run: it only matters when no later
      assignment covers `k`. */
  lemma {:induction false} LastWriteFirst(ops: seq<Assignment>, k: int, v: int)
    requires ops != []
    ensures LastWrite(ops, k, v)
         == LastWrite(ops[1..], k, if ops[0].l <= k <= ops[0].r then ops[0].x else v)
    decreases |ops|
  {
    if |ops| > 1 {
      var front := ops[..|ops| - 1];
      assert front[1..] == ops[1..][..|ops[1..]| - 1];
      LastWriteFirst(front, k, v);
    }
  }

  /** Applying a run of assignments leaves every index holding the value of
      the last assignment that covers it, and its original value otherwise:
      later assignments override earlier ones. */
  lemma {:induction false} ApplyAllIsLastWrite(s: seq<int>, ops: seq<Assignment>)
    requires AllValid(|s|, ops)
    ensures forall k :: 0 <= k < |s| ==> ApplyAll(s, ops)[k] == LastWrite(ops, k, s[k])
    decreases |ops|
  {
    if ops != [] {
      var s1 := AssignRange(s, ops[0].l, ops[0].r, ops[0].x);
      ApplyAllIsLastWrite(s1, ops[1..]);
      forall k | 0 <= k < |s|
        ensures ApplyAll(s, ops)[k] == LastWrite(ops, k, s[k])
      {
        LastWriteFirst(ops, k, s[k]);
      }
    }
  }

  /** After any run of assignments, the sum over the last assignment's
      range is its value times the range's width. */
  lemma SumAfterLastAssignment(s: seq<int>, ops: seq<Assignment>)
    requires AllValid(|s|, ops) && ops != []
    ensures var op := ops[|ops| - 1];
            Sum(ApplyAll(s, ops), op.l, op.r) == Width(op.l, op.r) * op.x
  {
    var op := ops[|ops| - 1];
    var t := ApplyAll(s, ops);
    ApplyAllIsLastWrite(s, ops);
    SumConstant(t, op.l, op.r, op.x);
  }

  // ---------------------------------------------------------------------
  // The literal arrays of the fixed tests

  /** Sums over `{1, 2, 3, 4, 5}`: 3 over `[0, 1]`, 3 over `[2, 2]`, 15 over
      `[0, 4]`. */
  lemma SumQueryScenario()
    ensures Sum([1, 2, 3, 4, 5], 0, 1) == 3
    ensures Sum([1, 2, 3, 4, 5], 2, 2) == 3
    ensures Sum([1, 2, 3, 4, 5], 0, 4) == 15
  {
  }

  /** The additive oracle on `{1, 2, 1, 2, 1}` with `(0, 1, 5)`, `(3, 4, 2)`,
      `(0, 4, 3)` gives `{9, 10, 4, 7, 6}`, whose point and range sums are
      the values the fixed test expects. */
  lemma AdditiveScenario()
    ensures var t := AddRange(AddRange(AddRange([1, 2, 1, 2, 1], 0, 1, 5), 3, 4, 2), 0, 4, 3);
            && t == [9, 10, 4, 7, 6]
            && Sum(t, 0, 1) == 19 && Sum(t, 0, 2) == 23
            && Sum(t, 3, 4) == 13 && Sum(t, 0, 4) == 36
  {
  }

  /** The assignment oracle on the same array and the same three updates
      gives `{3, 3, 3, 3, 3}` with total 15, not the 36 of the additive
      reading: the last update covers the whole array. */
  lemma AssignScenario()
    ensures var t := AssignRange(AssignRange(AssignRange([1, 2, 1, 2, 1], 0, 1, 5), 3, 4, 2), 0, 4, 3);
            t == [3, 3, 3, 3, 3] && Sum(t, 0, 4) == 15
  {
  }
}
