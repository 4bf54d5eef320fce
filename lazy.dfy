/**
 * VectorPairOps: element-wise arithmetic over two equally long vectors
 * (HomeWorks2dSemester/Lazy/lazy_evaluation.cpp and lazy_evaluation.hpp), with T = int.
 */
module Lazy {
  import opened Common
  import opened CStd

  /** The exceptions the class throws: invalid_argument (SizeMismatch), out_of_range from `at`, domain_error. */
  datatype PairError = SizeMismatch | IndexOutOfRange | DivisionByZero

  datatype VectorPair = VectorPair(left: seq<int>, right: seq<int>)
  {
    /** The class invariant the constructors establish. */
    predicate Valid()
    {
      |left| == |right|
    }

    function Size(): nat
    {
      |left|
    }
  }

  /** Both constructors (copying and moving): they throw when the sizes differ. */
  function MakePair(left: seq<int>, right: seq<int>): (r: Result<VectorPair, PairError>)
    ensures r.Ok? <==> |left| == |right|
    ensures r.Ok? ==> r.value.Valid() && r.value.left == left && r.value.right == right
    ensures r.Err? ==> r.error == SizeMismatch
  {
    if |left| != |right| then Err(SizeMismatch) else Ok(VectorPair(left, right))
  }

  function ElementSum(p: VectorPair, ind: nat): (r: Result<int, PairError>)
    requires p.Valid()
    ensures r.Ok? <==> ind < p.Size()
    ensures r.Err? ==> r.error == IndexOutOfRange
    ensures r.Ok? ==> r.value == p.left[ind] + p.right[ind]
  {
    if ind < |p.left| then Ok(p.left[ind] + p.right[ind]) else Err(IndexOutOfRange)
  }

  function ElementDiff(p: VectorPair, ind: nat): (r: Result<int, PairError>)
    requires p.Valid()
    ensures r.Ok? <==> ind < p.Size()
    ensures r.Err? ==> r.error == IndexOutOfRange
    ensures r.Ok? ==> r.value == p.left[ind] - p.right[ind]
  {
    if ind < |p.left| then Ok(p.left[ind] - p.right[ind]) else Err(IndexOutOfRange)
  }

  function ElementProduct(p: VectorPair, ind: nat): (r: Result<int, PairError>)
    requires p.Valid()
    ensures r.Ok? <==> ind < p.Size()
    ensures r.Err? ==> r.error == IndexOutOfRange
    ensures r.Ok? ==> r.value == p.left[ind] * p.right[ind]
  {
    if ind < |p.left| then Ok(p.left[ind] * p.right[ind]) else Err(IndexOutOfRange)
  }

  /** Integer division truncating toward zero, refused on a zero divisor. */
  function ElementDivision(p: VectorPair, ind: nat): (r: Result<int, PairError>)
    requires p.Valid()
    ensures r.Ok? <==> ind < p.Size() && p.right[ind] != 0
    ensures r.Err? && ind < p.Size() ==> r.error == DivisionByZero
    ensures r.Err? && ind >= p.Size() ==> r.error == IndexOutOfRange
    ensures r.Ok? ==> p.left[ind] == r.value * p.right[ind] + CRem(p.left[ind], p.right[ind])
  {
    if ind >= |p.right| then Err(IndexOutOfRange)
    else if p.right[ind] == 0 then Err(DivisionByZero)
    else Ok(CDiv(p.left[ind], p.right[ind]))
  }

  /** std::accumulate of both vectors, added. */
  function SumOfElements(p: VectorPair): int
  {
    Sum(p.left) + Sum(p.right)
  }

  /** std::accumulate of both vectors, subtracted. */
  function DifferenceOfElements(p: VectorPair): int
  {
    Sum(p.left) - Sum(p.right)
  }

  /** std::transform of both vectors through `op` into a new vector. */
  function CombineVectors(p: VectorPair, op: (int, int) -> int): (r: seq<int>)
    requires p.Valid()
    ensures |r| == p.Size()
    ensures forall i :: 0 <= i < |r| ==> r[i] == op(p.left[i], p.right[i])
  {
    seq(|p.left|, i requires 0 <= i < |p.left| => op(p.left[i], p.right[i]))
  }

  function ContainerOfSums(p: VectorPair): (r: seq<int>)
    requires p.Valid()
    ensures |r| == p.Size()
    ensures forall i :: 0 <= i < |r| ==> ElementSum(p, i) == Ok(r[i])
  {
    seq(|p.left|, i requires 0 <= i < |p.left| => p.left[i] + p.right[i])
  }

  function ContainerOfDifferences(p: VectorPair): (r: seq<int>)
    requires p.Valid()
    ensures |r| == p.Size()
    ensures forall i :: 0 <= i < |r| ==> ElementDiff(p, i) == Ok(r[i])
  {
    seq(|p.left|, i requires 0 <= i < |p.left| => p.left[i] - p.right[i])
  }

  function Max(a: int, b: int): int
  {
    if a < b then b else a
  }

  function ContainerOfMax(p: VectorPair): (r: seq<int>)
    requires p.Valid()
    ensures |r| == p.Size()
    ensures forall i :: 0 <= i < |r| ==> r[i] >= p.left[i] && r[i] >= p.right[i]
    ensures forall i :: 0 <= i < |r| ==> r[i] == p.left[i] || r[i] == p.right[i]
  {
    seq(|p.left|, i requires 0 <= i < |p.left| => Max(p.left[i], p.right[i]))
  }

  function Empty(p: VectorPair): (b: bool)
    ensures b <==> p.Size() == 0
  {
    |p.left| == 0
  }

  /** The element-wise containers are `combine_vectors` with plus, minus and max. */
  lemma ContainersAreCombinations(p: VectorPair)
    requires p.Valid()
    ensures ContainerOfSums(p) == CombineVectors(p, (a, b) => a + b)
    ensures ContainerOfDifferences(p) == CombineVectors(p, (a, b) => a - b)
    ensures ContainerOfMax(p) == CombineVectors(p, Max)
  {
  }

  /** Sum distributes over pointwise addition. */
  lemma {:induction false} SumPointwisePlus(z: seq<int>, l: seq<int>, r: seq<int>)
    requires |z| == |l| == |r|
    requires forall i :: 0 <= i < |z| ==> z[i] == l[i] + r[i]
    ensures Sum(z) == Sum(l) + Sum(r)
    decreases |z|
  {
    if z != [] {
      var n := |z| - 1;
      SumPointwisePlus(z[..n], l[..n], r[..n]);
    }
  }

  /** Sum distributes over pointwise subtraction. */
  lemma {:induction false} SumPointwiseMinus(z: seq<int>, l: seq<int>, r: seq<int>)
    requires |z| == |l| == |r|
    requires forall i :: 0 <= i < |z| ==> z[i] == l[i] - r[i]
    ensures Sum(z) == Sum(l) - Sum(r)
    decreases |z|
  {
    if z != [] {
      var n := |z| - 1;
      SumPointwiseMinus(z[..n], l[..n], r[..n]);
    }
  }

  /** Adding up the container of sums gives sum_of_elements. */
  lemma SumOfContainerOfSums(p: VectorPair)
    requires p.Valid()
    ensures Sum(ContainerOfSums(p)) == SumOfElements(p)
  {
    SumPointwisePlus(ContainerOfSums(p), p.left, p.right);
  }

  /** Adding up the container of differences gives difference_of_elements. */
  lemma SumOfContainerOfDifferences(p: VectorPair)
    requires p.Valid()
    ensures Sum(ContainerOfDifferences(p)) == DifferenceOfElements(p)
  {
    SumPointwiseMinus(ContainerOfDifferences(p), p.left, p.right);
  }

  /** Swapping the two vectors negates every difference and leaves sums and maxima alone. */
  lemma SwapSymmetry(p: VectorPair)
    requires p.Valid()
    ensures var q := VectorPair(p.right, p.left);
      q.Valid() && ContainerOfSums(q) == ContainerOfSums(p) && ContainerOfMax(q) == ContainerOfMax(p) &&
      DifferenceOfElements(q) == -DifferenceOfElements(p) &&
      (forall i :: 0 <= i < p.Size() ==> ElementDiff(q, i).value == -ElementDiff(p, i).value) &&
      forall i :: 0 <= i < p.Size() ==> ElementProduct(q, i) == ElementProduct(p, i)
  {
  }
}
