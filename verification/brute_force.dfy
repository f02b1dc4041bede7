/**
  The six brute-force oracles of the segment-tree test, as loops over an
  `array<int>`. Each walks `i` from `l` while `i <= r`; an access outside
  the array ends the walk with `IndexOutOfBounds(i)` where Java throws
  ArrayIndexOutOfBoundsException. The queries only read the array; the
  updates change it in place, up to the index that faulted.
 */
module BruteForce {
  import opened Ranges
  import opened Reductions
  import opened RangeUpdates

  /** `bruteForceSum`: the sum of `values[l..r]` inclusive, 0 when `l > r`. */
  method BruteForceSum(values: array<int>, l: int, r: int) returns (res: Result<int>)
    ensures res.Ok? <==> ValidRange(values.Length, l, r)
    ensures res.Ok? ==> res.value == Sum(values[..], l, r)
    ensures l > r ==> res == Ok(0)
    ensures res.IndexOutOfBounds? ==> res.index == FaultIndex(values.Length, l)
    ensures res.IndexOutOfBounds? ==> l <= res.index <= r
  {
    var s := 0;
    var i := l;
    while i <= r
      invariant l <= i
      invariant i <= if l <= r then r + 1 else l
      invariant l < i ==> 0 <= l && i <= values.Length
      invariant s == Sum(values[..], l, i - 1)
    {
      if i < 0 || i >= values.Length {
        return IndexOutOfBounds(i);
      }
      s := s + values[i];
      i := i + 1;
    }
    return Ok(s);
  }

  /** `bruteForceMin`: reads `values[l]` before the loop, even when the
      range is empty, so a non-empty range yields its minimum and an empty
      one (`l > r`) yields `values[l]`. */
  method BruteForceMin(values: array<int>, l: int, r: int) returns (res: Result<int>)
    ensures res.Ok? <==> 0 <= l < values.Length && r < values.Length
    ensures res.Ok? && l <= r ==> res.value == Min(values[..], l, r)
    ensures res.Ok? ==> forall k :: l <= k <= r ==> res.value <= values[k]
    ensures res.Ok? ==> exists k :: l <= k <= (if r < l then l else r) && res.value == values[k]
    ensures res.Ok? && r < l ==> res.value == values[l]
    ensures res.IndexOutOfBounds? ==> res.index == FaultIndex(values.Length, l)
  {
    if l < 0 || l >= values.Length {
      return IndexOutOfBounds(l);
    }
    var m := values[l];
    var i := l;
    while i <= r
      invariant l <= i < values.Length + 1
      invariant i <= if l <= r then r + 1 else l
      invariant m == Min(values[..], l, if i == l then l else i - 1)
    {
      if i >= values.Length {
        return IndexOutOfBounds(i);
      }
      m := if m <= values[i] then m else values[i];  // Math.min(m, values[i])
      i := i + 1;
    }
    return Ok(m);
  }

  /** `bruteForceMax`: the mirror image of `BruteForceMin`. */
  method BruteForceMax(values: array<int>, l: int, r: int) returns (res: Result<int>)
    ensures res.Ok? <==> 0 <= l < values.Length && r < values.Length
    ensures res.Ok? && l <= r ==> res.value == Max(values[..], l, r)
    ensures res.Ok? ==> forall k :: l <= k <= r ==> values[k] <= res.value
    ensures res.Ok? ==> exists k :: l <= k <= (if r < l then l else r) && res.value == values[k]
    ensures res.Ok? && r < l ==> res.value == values[l]
    ensures res.IndexOutOfBounds? ==> res.index == FaultIndex(values.Length, l)
  {
    if l < 0 || l >= values.Length {
      return IndexOutOfBounds(l);
    }
    var m := values[l];
    var i := l;
    while i <= r
      invariant l <= i < values.Length + 1
      invariant i <= if l <= r then r + 1 else l
      invariant m == Max(values[..], l, if i == l then l else i - 1)
    {
      if i >= values.Length {
        return IndexOutOfBounds(i);
      }
      m := if m >= values[i] then m else values[i];  // Math.max(m, values[i])
      i := i + 1;
    }
    return Ok(m);
  }

  /** The loop shared by the three update oracles: `values[i] = f(values[i])`
      for `i` from `l` while `i <= r`. On a fault, the indices visited before
      it have already been updated. */
  method UpdateRange(values: array<int>, l: int, r: int, f: int -> int) returns (res: Result<()>)
    modifies values
    ensures res.Ok? <==> ValidRange(values.Length, l, r)
    ensures res.IndexOutOfBounds? ==> res.index == FaultIndex(values.Length, l)
    ensures res.IndexOutOfBounds? ==> l <= res.index <= r
    ensures forall k :: 0 <= k < values.Length ==>
              values[k] == if 0 <= l <= k <= r then f(old(values[k])) else old(values[k])
    ensures res.Ok? ==> values[..] == MapRange(old(values[..]), l, r, f)
  {
    var i := l;
    while i <= r
      invariant l <= i
      invariant i <= if l <= r then r + 1 else l
      invariant l < i ==> 0 <= l && i <= values.Length
      invariant forall k :: 0 <= k < values.Length ==>
                  values[k] == if l <= k < i then f(old(values[k])) else old(values[k])
    {
      if i < 0 || i >= values.Length {
        return IndexOutOfBounds(i);
      }
      values[i] := f(values[i]);
      i := i + 1;
    }
    return Ok(());
  }

  /** `bruteForceSumRangeUpdate`: `values[i] += x` over `[l, r]`. */
  method BruteForceSumRangeUpdate(values: array<int>, l: int, r: int, x: int) returns (res: Result<()>)
    modifies values
    ensures res.Ok? <==> ValidRange(values.Length, l, r)
    ensures res.IndexOutOfBounds? ==> res.index == FaultIndex(values.Length, l)
    ensures res.IndexOutOfBounds? ==> l <= res.index <= r
    ensures forall k :: 0 <= k < values.Length ==>
              values[k] == if 0 <= l <= k <= r then old(values[k]) + x else old(values[k])
    ensures res.Ok? ==> values[..] == AddRange(old(values[..]), l, r, x)
  {
    res := UpdateRange(values, l, r, v => v + x);
  }

  /** `bruteForceMulRangeUpdate`: `values[i] *= x` over `[l, r]`. */
  method BruteForceMulRangeUpdate(values: array<int>, l: int, r: int, x: int) returns (res: Result<()>)
    modifies values
    ensures res.Ok? <==> ValidRange(values.Length, l, r)
    ensures res.IndexOutOfBounds? ==> res.index == FaultIndex(values.Length, l)
    ensures res.IndexOutOfBounds? ==> l <= res.index <= r
    ensures forall k :: 0 <= k < values.Length ==>
              values[k] == if 0 <= l <= k <= r then old(values[k]) * x else old(values[k])
    ensures res.Ok? ==> values[..] == MulRange(old(values[..]), l, r, x)
  {
    res := UpdateRange(values, l, r, v => v * x);
  }

  /** `bruteForceAssignRangeUpdate`: `values[i] = x` over `[l, r]`. */
  method BruteForceAssignRangeUpdate(values: array<int>, l: int, r: int, x: int) returns (res: Result<()>)
    modifies values
    ensures res.Ok? <==> ValidRange(values.Length, l, r)
    ensures res.IndexOutOfBounds? ==> res.index == FaultIndex(values.Length, l)
    ensures res.IndexOutOfBounds? ==> l <= res.index <= r
    ensures forall k :: 0 <= k < values.Length ==>
              values[k] == if 0 <= l <= k <= r then x else old(values[k])
    ensures res.Ok? ==> values[..] == AssignRange(old(values[..]), l, r, x)
  {
    res := UpdateRange(values, l, r, _ => x);
  }
}
