# Brute-force range oracles of the sum-query / assign-update segment tree test

`SumQueryAssignUpdateSegmentTreeTest` checks a segment tree against six
brute-force reference routines over a plain `long[]`:

- three range reductions over an inclusive range `[l, r]`: `bruteForceSum`, `bruteForceMin` and `bruteForceMax`;
- three in-place range updates over `[l, r]`: `bruteForceSumRangeUpdate` (add `x`), `bruteForceMulRangeUpdate` (multiply by `x`) and `bruteForceAssignRangeUpdate` (set to `x`).

This project models those six routines and proves what they compute.

The project has five modules:

- `Ranges` (`ranges.dfy`) defines three things:
  - a valid inclusive range (`ValidRange`) and its width (`Width`);
  - the index at which the loop `for (int i = l; i <= r; i++)` first leaves the array (`FaultIndex`);
  - `Result`, which holds either a value or the index at which Java would throw ArrayIndexOutOfBoundsException.
- `Reductions` (`reductions.dfy`) has the specification functions `Sum`, `Min` and `Max` over `seq<int>`.
  - Each folds left to right, as the loops do.
  - `Min` and `Max` are proved to be an attained lower and upper bound of the range.
  - It also holds the lemmas about sums that the rest of the model uses: split, frame, constant, shift and scale.
- `RangeUpdates` (`updates.dfy`) has the three updates as pure functions.
  - All three are built on `MapRange`, which applies `f` to one index at a time from `l` upwards.
  - It also has the lemmas that relate updates to later queries, and the lemmas on composing updates.
- `BruteForce` (`brute_force.dfy`) has the six routines as loops over `array<int>`.
  - Each is proved equal to the specification on the normal path.
  - Each also models the exception path.
- `Scenarios` (`scenarios.dfy`) covers two things:
  - a run of assignments applied in order, as the randomized test does to keep its reference array in step with the tree;
  - the literal arrays of the fixed tests.

Where the Java code reads or writes outside the array, the model returns `IndexOutOfBounds(i)` with the first offending index `i`.

- The reductions return no value in that case.
- The updates keep what the loop had already written before the fault.

`bruteForceMin` and `bruteForceMax` read `values[l]` before their loop. So:

- they fault on an out-of-range `l` even when the range is empty;
- for an empty range (`l > r`) with a valid `l` they return `values[l]`.

The model keeps both behaviours. `bruteForceSum` returns 0 on an empty range.

Combining `bruteForceAssignRangeUpdate` with `bruteForceSum`, the model derives that after assigning `x` to `[l, r]` the sum over `[l, r]` is `x` times the number of indices in the range. Written as `(r - l + 1) * x`, this holds only for `l <= r + 1`, because the sum over an empty range is 0. The lemmas therefore state it with `Width(l, r)`, the number of indices in the range.

## Model

| member | source | states |
|---|---|---|
| Ranges.FaultIndex | src/test/java/com/williamfiset/algorithms/datastructures/segmenttree/SumQueryAssignUpdateSegmentTreeTest.java:103-104 | the index a walk from `l` faults at is out of bounds, is at least `l`, and every index from `l` up to it exists, so it is the first out-of-bounds index the walk meets |
| Reductions.Sum | src/test/java/com/williamfiset/algorithms/datastructures/segmenttree/SumQueryAssignUpdateSegmentTreeTest.java:101-107 | reference sum of `values[l..r]`, folded left to right as the loop accumulates it, 0 on an empty range; it carries no contract of its own, and `BruteForce.BruteForceSum` proves the loop equals it while `SumSplit`, `SumFrame`, `SumConstant`, `SumShifted` and `SumScaled` characterise it |
| Reductions.Min | src/test/java/com/williamfiset/algorithms/datastructures/segmenttree/SumQueryAssignUpdateSegmentTreeTest.java:110-116 | the left-to-right `Math.min` fold over `[l, r]` is at most every value of the range and equals one of them |
| Reductions.Max | src/test/java/com/williamfiset/algorithms/datastructures/segmenttree/SumQueryAssignUpdateSegmentTreeTest.java:119-125 | the left-to-right `Math.max` fold over `[l, r]` is at least every value of the range and equals one of them |
| Reductions.MinIsUnique | src/test/java/com/williamfiset/algorithms/datastructures/segmenttree/SumQueryAssignUpdateSegmentTreeTest.java:110-116 | any attained lower bound of the range is the minimum, so the declarative and folded readings agree |
| Reductions.MaxIsUnique | src/test/java/com/williamfiset/algorithms/datastructures/segmenttree/SumQueryAssignUpdateSegmentTreeTest.java:119-125 | any attained upper bound of the range is the maximum |
| Reductions.SumSplit | src/test/java/com/williamfiset/algorithms/datastructures/segmenttree/SumQueryAssignUpdateSegmentTreeTest.java:101-107 | the sum over `[l, r]` is the sum over `[l, m]` plus the sum over `[m + 1, r]`, for any split point |
| Reductions.SumFrame | src/test/java/com/williamfiset/algorithms/datastructures/segmenttree/SumQueryAssignUpdateSegmentTreeTest.java:101-107 | the range sum depends only on the values inside the range |
| Reductions.SumConstant | src/test/java/com/williamfiset/algorithms/datastructures/segmenttree/SumQueryAssignUpdateSegmentTreeTest.java:101-107 | a range holding `x` everywhere sums to `x` times its width |
| Reductions.SumShifted | src/test/java/com/williamfiset/algorithms/datastructures/segmenttree/SumQueryAssignUpdateSegmentTreeTest.java:101-107 | raising every value of a range by `x` raises its sum by `x` times its width |
| Reductions.SumScaled | src/test/java/com/williamfiset/algorithms/datastructures/segmenttree/SumQueryAssignUpdateSegmentTreeTest.java:101-107 | multiplying every value of a range by `x` multiplies its sum by `x` |
| Reductions.MinShifted | src/test/java/com/williamfiset/algorithms/datastructures/segmenttree/SumQueryAssignUpdateSegmentTreeTest.java:110-116 | raising every value of a range by `x` raises its minimum by `x` |
| Reductions.MaxShifted | src/test/java/com/williamfiset/algorithms/datastructures/segmenttree/SumQueryAssignUpdateSegmentTreeTest.java:119-125 | raising every value of a range by `x` raises its maximum by `x` |
| RangeUpdates.MapRange | src/test/java/com/williamfiset/algorithms/datastructures/segmenttree/SumQueryAssignUpdateSegmentTreeTest.java:127-143 | updating one index at a time from `l` to `r` leaves `f(old)` at every index of `[l, r]`, the old value everywhere else, and the same length |
| RangeUpdates.AddRange | src/test/java/com/williamfiset/algorithms/datastructures/segmenttree/SumQueryAssignUpdateSegmentTreeTest.java:127-131 | each index in `[l, r]` becomes its old value plus `x`, every other index is unchanged |
| RangeUpdates.MulRange | src/test/java/com/williamfiset/algorithms/datastructures/segmenttree/SumQueryAssignUpdateSegmentTreeTest.java:133-137 | each index in `[l, r]` becomes its old value times `x`, every other index is unchanged |
| RangeUpdates.AssignRange | src/test/java/com/williamfiset/algorithms/datastructures/segmenttree/SumQueryAssignUpdateSegmentTreeTest.java:139-143 | each index in `[l, r]` holds `x`, every other index keeps its old value |
| RangeUpdates.SumAfterAssign | src/test/java/com/williamfiset/algorithms/datastructures/segmenttree/SumQueryAssignUpdateSegmentTreeTest.java:139-143 | after assigning `x` to `[l, r]`, the sum over `[l, r]` is `x` times the width of the range |
| RangeUpdates.SumAfterAdd | src/test/java/com/williamfiset/algorithms/datastructures/segmenttree/SumQueryAssignUpdateSegmentTreeTest.java:127-131 | after adding `x` to `[l, r]`, the sum over `[l, r]` grows by exactly `x` times the width |
| RangeUpdates.SumAfterMul | src/test/java/com/williamfiset/algorithms/datastructures/segmenttree/SumQueryAssignUpdateSegmentTreeTest.java:133-137 | after multiplying `[l, r]` by `x`, the sum over `[l, r]` is multiplied by `x` |
| RangeUpdates.SumAfterAddAnywhere | src/test/java/com/williamfiset/algorithms/datastructures/segmenttree/SumQueryAssignUpdateSegmentTreeTest.java:127-131 | after adding `x` to `[l, r]`, the sum over any range grows by `x` per index shared with `[l, r]` |
| RangeUpdates.SumAfterAssignAnywhere | src/test/java/com/williamfiset/algorithms/datastructures/segmenttree/SumQueryAssignUpdateSegmentTreeTest.java:139-143 | after assigning `x` to `[l, r]`, the sum over any range replaces the old sum of the shared indices with `x` per shared index |
| RangeUpdates.MinMaxAfterAssign | src/test/java/com/williamfiset/algorithms/datastructures/segmenttree/SumQueryAssignUpdateSegmentTreeTest.java:139-143 | after assigning `x` to a non-empty range, its minimum and maximum are both `x` |
| RangeUpdates.MinMaxAfterAdd | src/test/java/com/williamfiset/algorithms/datastructures/segmenttree/SumQueryAssignUpdateSegmentTreeTest.java:127-131 | after adding `x` to a non-empty range, its minimum and maximum both move by `x` |
| RangeUpdates.AssignIdempotent | src/test/java/com/williamfiset/algorithms/datastructures/segmenttree/SumQueryAssignUpdateSegmentTreeTest.java:139-143 | assigning the same `(l, r, x)` twice gives the same array as once |
| RangeUpdates.AssignOverrides | src/test/java/com/williamfiset/algorithms/datastructures/segmenttree/SumQueryAssignUpdateSegmentTreeTest.java:139-143 | a later assignment wins on its range, an earlier one survives outside it, other indices are untouched |
| RangeUpdates.AssignCovered | src/test/java/com/williamfiset/algorithms/datastructures/segmenttree/SumQueryAssignUpdateSegmentTreeTest.java:139-143 | an assignment whose range covers an earlier one's erases the earlier one completely |
| RangeUpdates.AddCombine | src/test/java/com/williamfiset/algorithms/datastructures/segmenttree/SumQueryAssignUpdateSegmentTreeTest.java:127-131 | adding `x` then `y` to the same range is adding `x + y` |
| RangeUpdates.AddCommute | src/test/java/com/williamfiset/algorithms/datastructures/segmenttree/SumQueryAssignUpdateSegmentTreeTest.java:127-131 | two additive updates give the same array in either order, whatever their ranges |
| RangeUpdates.MulCombine | src/test/java/com/williamfiset/algorithms/datastructures/segmenttree/SumQueryAssignUpdateSegmentTreeTest.java:133-137 | multiplying by `x` then `y` on the same range is multiplying by `x * y` |
| BruteForce.BruteForceSum | src/test/java/com/williamfiset/algorithms/datastructures/segmenttree/SumQueryAssignUpdateSegmentTreeTest.java:101-107 | returns the sum of `values[l..r]` (0 when `l > r`) exactly when the range is valid, and otherwise faults at the first index outside the array, which lies inside `[l, r]` |
| BruteForce.BruteForceMin | src/test/java/com/williamfiset/algorithms/datastructures/segmenttree/SumQueryAssignUpdateSegmentTreeTest.java:110-116 | succeeds exactly when `0 <= l < n` and `r < n`; then the result is at most every `values[k]` in `[l, r]` and equals one of them (or `values[l]` when `l > r`); otherwise faults at the first bad index |
| BruteForce.BruteForceMax | src/test/java/com/williamfiset/algorithms/datastructures/segmenttree/SumQueryAssignUpdateSegmentTreeTest.java:119-125 | mirror of `BruteForceMin`: at least every `values[k]` in `[l, r]` and equal to one of them, with the same success and fault conditions |
| BruteForce.UpdateRange | src/test/java/com/williamfiset/algorithms/datastructures/segmenttree/SumQueryAssignUpdateSegmentTreeTest.java:127-143 | the shared in-place loop: succeeds exactly on valid ranges and then equals `MapRange`; on a fault, which happens at the first out-of-bounds index inside `[l, r]`, the indices already visited are updated and the rest are untouched |
| BruteForce.BruteForceSumRangeUpdate | src/test/java/com/williamfiset/algorithms/datastructures/segmenttree/SumQueryAssignUpdateSegmentTreeTest.java:127-131 | in place: indices in `[l, r]` gain `x`, all others keep their values; the array equals `AddRange` of the old one |
| BruteForce.BruteForceMulRangeUpdate | src/test/java/com/williamfiset/algorithms/datastructures/segmenttree/SumQueryAssignUpdateSegmentTreeTest.java:133-137 | in place: indices in `[l, r]` are multiplied by `x`, all others keep their values; the array equals `MulRange` of the old one |
| BruteForce.BruteForceAssignRangeUpdate | src/test/java/com/williamfiset/algorithms/datastructures/segmenttree/SumQueryAssignUpdateSegmentTreeTest.java:139-143 | in place: indices in `[l, r]` hold `x`, all others keep their values; the array equals `AssignRange` of the old one |
| Scenarios.ApplyAll | src/test/java/com/williamfiset/algorithms/datastructures/segmenttree/SumQueryAssignUpdateSegmentTreeTest.java:89-95 | the reference array after a run of `bruteForceAssignRangeUpdate` calls applied first to last; its own contract gives only that the length is kept, and its meaning (each index holds the last covering assignment) is proved in `Scenarios.ApplyAllIsLastWrite` against the reference definition `Scenarios.LastWrite` |
| Scenarios.LastWriteFirst | src/test/java/com/williamfiset/algorithms/datastructures/segmenttree/SumQueryAssignUpdateSegmentTreeTest.java:89-95 | in a run of assignments, the first one decides index `k` only when no later one covers `k` |
| Scenarios.ApplyAllIsLastWrite | src/test/java/com/williamfiset/algorithms/datastructures/segmenttree/SumQueryAssignUpdateSegmentTreeTest.java:89-95 | after a run of assignment updates, each index holds the value of the last update covering it, or its original value if none does |
| Scenarios.SumAfterLastAssignment | src/test/java/com/williamfiset/algorithms/datastructures/segmenttree/SumQueryAssignUpdateSegmentTreeTest.java:89-95 | after any run of assignments, the last one's range sums to its value times the range's width |
| Scenarios.SumQueryScenario | src/test/java/com/williamfiset/algorithms/datastructures/segmenttree/SumQueryAssignUpdateSegmentTreeTest.java:22-27 | on `{1, 2, 3, 4, 5}` the sums over `[0, 1]`, `[2, 2]` and `[0, 4]` are 3, 3 and 15 |
| Scenarios.AdditiveScenario | src/test/java/com/williamfiset/algorithms/datastructures/segmenttree/SumQueryAssignUpdateSegmentTreeTest.java:48-67 | the additive oracle with the test's three updates turns `{1, 2, 1, 2, 1}` into `{9, 10, 4, 7, 6}`, whose range sums are the test's 19, 23, 13 and 36 |
| Scenarios.AssignScenario | src/test/java/com/williamfiset/algorithms/datastructures/segmenttree/SumQueryAssignUpdateSegmentTreeTest.java:48-54 | the assignment oracle with the same updates gives `{3, 3, 3, 3, 3}` with total 15 |

## Left out

- The segment tree itself: its construction, `rangeQuery1`, `rangeUpdate1` and lazy propagation. `SumQueryAssignUpdateSegmentTree.java` is not part of this model, so no tree contract can be stated.
- The tree-facing assertions of the tests are not encoded as contracts, because they contradict each other:
  - lines 57-67 expect additive results from the "assign update" tree;
  - lines 84-86 compare `bruteForceMin` with a sum query.
  
  `Scenarios.AdditiveScenario` and `Scenarios.AssignScenario` state what each oracle gives on the literal input. Neither is a claim about the tree.
- Random input generation: `TestUtils.randomLongArray` and `TestUtils.randValue` come from a file that is not part of this model. The randomized test is modelled as an arbitrary run of assignments (`Scenarios.ApplyAll`).
- Test plumbing is not modelled:
  - the `System.out.printf` logging;
  - the JUnit `@Before`/`@Test` wiring;
  - the Truth `assertThat` calls.
- Java `long` overflow: values are mathematical integers. The sums, products and additions of the oracles are not reduced modulo 2^64. The tests keep values within ±1000.
- A `null` array: Java's `long[] values` may be null, and every oracle would then throw NullPointerException on its first access. `array<int>` is non-null, and no call in the tests passes null.
- The 32-bit `int` loop counter is not modelled. It cannot overflow before the array access faults, because arrays are shorter than `Integer.MAX_VALUE`.
- The multiplicative and additive oracles have no tree counterpart in the tests. They are modelled as oracles only.
