/** Binary search over a sub-range of a vector (HomeWork/BinarySerach.cpp). */
module BinarySearch {

  predicate SortedBetween(a: seq<int>, lo: int, hi: int)
    requires 0 <= lo && hi < |a|
  {
    forall p, q :: lo <= p <= q <= hi ==> a[p] <= a[q]
  }

  /**
   * Searches arr[left..right] (both ends included). The source does no bounds check, so a
   * non-empty range must lie inside the vector.
   */
  method Search(arr: seq<int>, left: int, right: int, target: int) returns (r: int)
    requires left <= right ==> 0 <= left && right < |arr|
    ensures r == -1 || (left <= r <= right && arr[r] == target)
    ensures (left <= right && SortedBetween(arr, left, right) &&
             (exists k :: left <= k <= right && arr[k] == target)) ==> r != -1
  {
    var lo, hi := left, right;
    while lo <= hi
      invariant left <= lo && hi <= right
      invariant (left <= right && SortedBetween(arr, left, right) &&
                 (exists k :: left <= k <= right && arr[k] == target)) ==>
                (exists k :: lo <= k <= hi && arr[k] == target)
      decreases hi - lo
    {
      var mid := lo + (hi - lo) / 2;
      assert lo <= mid <= hi;
      if arr[mid] == target {
        return mid;
      }
      if arr[mid] > target {
        hi := mid - 1;
      } else {
        lo := mid + 1;
      }
    }
    return -1;
  }
}

/** Left rotation of a vector by d places (HomeWork/LeftRotation.cpp). */
module LeftRotation {
  import opened CStd

  /** The rotation the loop computes, for a non-negative shift. */
  function Rotated(a: seq<int>, d: nat): seq<int>
  {
    seq(|a|, i requires 0 <= i < |a| => a[(i + d) % |a|])
  }

  /** The index the source reads for output position i: (i + d) % n with C++'s remainder. */
  function SourceIndex(i: int, d: int, n: int): int
    requires n > 0
  {
    CRem(i + d, n)
  }

  /**
   * rotLeft(a, d): rotated[i] = a[(i + d) % n] with C++'s remainder. The source indexes with that
   * remainder unchecked, so every index it forms must be non-negative (always so when d >= 0),
   * and `n`, `d` and the sum `i + d` are ints, so none of them may leave the int range.
   */
  method RotLeft(a: seq<int>, d: int) returns (rotated: seq<int>)
    requires |a| <= INT_MAX && INT_MIN <= d && |a| - 1 + d <= INT_MAX
    requires forall i :: 0 <= i < |a| ==> SourceIndex(i, d, |a|) >= 0
    ensures |rotated| == |a|
    ensures forall i :: 0 <= i < |a| ==> 0 <= SourceIndex(i, d, |a|) < |a| && rotated[i] == a[SourceIndex(i, d, |a|)]
    ensures d >= 0 ==> rotated == Rotated(a, d)
  {
    var n := |a|;
    var buf := new int[n];
    for i := 0 to n
      invariant forall k :: 0 <= k < i ==> 0 <= SourceIndex(k, d, n) < n && buf[k] == a[SourceIndex(k, d, n)]
    {
      assert SourceIndex(i, d, n) >= 0;
      buf[i] := a[CRem(i + d, n)];
    }
    rotated := buf[..];
    if d >= 0 {
      forall i | 0 <= i < n
        ensures rotated[i] == Rotated(a, d)[i]
      {
        assert SourceIndex(i, d, n) == (i + d) % n;
      }
    }
  }

  lemma RotatedIsSplit(a: seq<int>, d: nat)
    requires |a| > 0
    ensures Rotated(a, d) == a[d % |a|..] + a[..d % |a|]
  {
    var n, k := |a|, d % |a|;
    forall i | 0 <= i < n
      ensures Rotated(a, d)[i] == (a[k..] + a[..k])[i]
    {
      if i < n - k {
        assert (i + d) % n == i + k by { ModShift(i, d, n, 0); }
      } else {
        assert (i + d) % n == i + k - n by { ModShift(i, d, n, 1); }
      }
    }
  }

  lemma ModShift(i: nat, d: nat, n: nat, j: nat)
    requires n > 0 && j <= 1 && j * n <= i + d % n < (j + 1) * n
    ensures (i + d) % n == i + d % n - j * n
  {
    var q := d / n;
    assert d == q * n + d % n;
    assert i + d == (i + d % n - j * n) + (q + j) * n;
    LemmaModUnique(i + d, n, q + j, i + d % n - j * n);
  }

  lemma LemmaModUnique(x: int, n: int, q: int, r: int)
    requires n > 0 && 0 <= r < n && x == q * n + r
    ensures x % n == r
  {
    var q', r' := x / n, x % n;
    var t := q - q';
    assert t * n == r' - r by {
      assert x == q' * n + r';
      assert q * n - q' * n == (q - q') * n;
    }
    if t > 0 {
      MulAtLeast(t, n);
    } else if t < 0 {
      MulAtLeast(-t, n);
    }
  }

  lemma {:induction false} MulAtLeast(t: int, n: int)
    requires t >= 1 && n > 0
    ensures t * n >= n
  {
    if t > 1 {
      MulAtLeast(t - 1, n);
      assert t * n == (t - 1) * n + n;
    }
  }

  /** For a non-negative shift the result is a permutation of the input. */
  lemma RotatedIsPermutation(a: seq<int>, d: nat)
    ensures multiset(Rotated(a, d)) == multiset(a)
  {
    if |a| > 0 {
      var k := d % |a|;
      RotatedIsSplit(a, d);
      assert a == a[..k] + a[k..];
    }
  }

  /** A shift by a multiple of the length gives back the input. */
  lemma RotateByMultiple(a: seq<int>, m: nat)
    ensures Rotated(a, m * |a|) == a
  {
    if |a| > 0 {
      assert (m * |a|) % |a| == 0 by { LemmaModUnique(m * |a|, |a|, m, 0); }
      RotatedIsSplit(a, m * |a|);
    }
  }

  /** Rotating by d and then by n - d % n restores the input. */
  lemma RotateBack(a: seq<int>, d: nat)
    requires |a| > 0
    ensures Rotated(Rotated(a, d), |a| - d % |a|) == a
  {
    var n, k := |a|, d % |a|;
    var b := Rotated(a, d);
    RotatedIsSplit(a, d);
    RotatedIsSplit(b, n - k);
    if k == 0 {
      assert (n - k) % n == 0 by { LemmaModUnique(n, n, 1, 0); }
    } else {
      assert (n - k) % n == n - k by { LemmaModUnique(n - k, n, 0, n - k); }
      assert b[n - k..] == a[..k];
      assert b[..n - k] == a[k..];
    }
  }
}

/** Maximum hourglass sum of a 6x6 grid (HomeWork/2DArray.cpp). */
module HourglassArray {
  import opened CStd

  predicate IsGrid6(arr: seq<seq<int>>)
  {
    |arr| >= 6 && forall i :: 0 <= i < 6 ==> |arr[i]| >= 6
  }

  /** The hourglass with its top-left cell at (i, j): three top cells, the middle, three bottom. */
  function HourglassAt(arr: seq<seq<int>>, i: int, j: int): int
    requires IsGrid6(arr) && 0 <= i < 4 && 0 <= j < 4
  {
    arr[i][j] + arr[i][j + 1] + arr[i][j + 2]
    + arr[i + 1][j + 1]
    + arr[i + 2][j] + arr[i + 2][j + 1] + arr[i + 2][j + 2]
  }

  predicate IsInt(v: int)
  {
    INT_MIN <= v <= INT_MAX
  }

  /**
   * The seven cells of the hourglass at (i, j) are ints, and so is each of the six partial sums
   * the source forms adding them left to right; the last partial sum is HourglassAt.
   */
  predicate AdditionsFit(arr: seq<seq<int>>, i: int, j: int)
    requires IsGrid6(arr) && 0 <= i < 4 && 0 <= j < 4
  {
    var s1 := arr[i][j] + arr[i][j + 1];
    var s2 := s1 + arr[i][j + 2];
    var s3 := s2 + arr[i + 1][j + 1];
    var s4 := s3 + arr[i + 2][j];
    var s5 := s4 + arr[i + 2][j + 1];
    var s6 := s5 + arr[i + 2][j + 2];
    IsInt(arr[i][j]) && IsInt(arr[i][j + 1]) && IsInt(arr[i][j + 2]) && IsInt(arr[i + 1][j + 1])
    && IsInt(arr[i + 2][j]) && IsInt(arr[i + 2][j + 1]) && IsInt(arr[i + 2][j + 2])
    && IsInt(s1) && IsInt(s2) && IsInt(s3) && IsInt(s4) && IsInt(s5) && IsInt(s6)
  }

  /**
   * hourglassSum: starts from INT_MIN and keeps the maximum of the 16 hourglass sums. The source
   * adds C++ ints left to right, so every cell and every partial sum must be representable.
   */
  method HourglassSum(arr: seq<seq<int>>) returns (maxSum: int)
    requires IsGrid6(arr)
    requires forall i, j :: 0 <= i < 4 && 0 <= j < 4 ==> AdditionsFit(arr, i, j)
    ensures forall i, j :: 0 <= i < 4 && 0 <= j < 4 ==> HourglassAt(arr, i, j) <= maxSum
    ensures exists i, j :: 0 <= i < 4 && 0 <= j < 4 && maxSum == HourglassAt(arr, i, j)
    ensures IsInt(maxSum)
  {
    maxSum := INT_MIN;
    ghost var wi, wj := 0, 0;
    for i := 0 to 4
      invariant forall p, q :: 0 <= p < i && 0 <= q < 4 ==> HourglassAt(arr, p, q) <= maxSum
      invariant i > 0 ==> 0 <= wi < 4 && 0 <= wj < 4 && maxSum == HourglassAt(arr, wi, wj)
      invariant i == 0 ==> maxSum == INT_MIN
      invariant IsInt(maxSum)
    {
      for j := 0 to 4
        invariant forall p, q :: (0 <= p < i && 0 <= q < 4) || (p == i && 0 <= q < j) ==> HourglassAt(arr, p, q) <= maxSum
        invariant i > 0 || j > 0 ==> 0 <= wi < 4 && 0 <= wj < 4 && maxSum == HourglassAt(arr, wi, wj)
        invariant i == 0 && j == 0 ==> maxSum == INT_MIN
        invariant IsInt(maxSum)
      {
        assert AdditionsFit(arr, i, j);
        var currentSum := HourglassAt(arr, i, j);
        if currentSum >= maxSum {
          maxSum, wi, wj := currentSum, i, j;
        }
      }
    }
  }
}
