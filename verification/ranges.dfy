/**
  Inclusive index ranges `[l, r]` over an array of length `n`, as the
  brute-force oracles of the segment-tree test walk them with
  `for (int i = l; i <= r; i++)`, and the outcome of such a walk when it
  steps outside the array (Java raises ArrayIndexOutOfBoundsException).
 */
module Ranges {

  /** The value an oracle returns, or the index whose access raised
      ArrayIndexOutOfBoundsException. */
  datatype Result<T> = Ok(value: T) | IndexOutOfBounds(index: int)

  /** The loop `for (int i = l; i <= r; i++)` touches only indices of an
      array of length `n`: either it does not run at all, or every index
      from `l` to `r` exists. */
  predicate ValidRange(n: nat, l: int, r: int) {
    l > r || (0 <= l && r < n)
  }

  /** Index `j` exists in an array of length `n`. */
  predicate InBounds(n: nat, j: int) {
    0 <= j < n
  }

  /** Number of indices in `[l, r]`; an empty range (`l > r`) has none. */
  function Width(l: int, r: int): nat {
    if l <= r then r - l + 1 else 0
  }

  /** The index at which a left-to-right walk starting at `l` first leaves
      an array of length `n`: `l` itself when it is already outside,
      otherwise `n`. */
  function FaultIndex(n: nat, l: int): (k: int)
    ensures k < 0 || k >= n
    ensures l <= k
    ensures forall j :: l <= j < k ==> InBounds(n, j)
  {
    if 0 <= l < n then n else l
  }
}
