/**
 * The N-dimensional half-open box `start .. end` (src/types.rs).
 *
 * A coordinate has one non-negative integer per axis; the rank is the length of
 * the sequence and is fixed for a given range.
 */
module Types {

  import opened Arith

  /** One position: a value per axis, axis 0 first. */
  type Coord = seq<nat>

  /** The half-open box `start .. end`; immutable once built. */
  datatype NdRange = NdRange(start: Coord, end: Coord)

  function Rank(r: NdRange): nat
  {
    |r.start|
  }

  /** Both bounds have the same rank and no axis has `start > end`. */
  predicate Bounded(r: NdRange)
  {
    |r.end| == |r.start| && forall i :: 0 <= i < |r.start| ==> r.start[i] <= r.end[i]
  }

  /** Every axis holds at least one value. */
  predicate NonEmpty(r: NdRange)
  {
    Bounded(r) && forall i :: 0 <= i < |r.start| ==> r.start[i] < r.end[i]
  }

  /** `NdRange::new`: both bounds are stored as given. */
  function New(start: Coord, end: Coord): (r: NdRange)
    requires |start| == |end|
    ensures r.start == start && r.end == end
    ensures Rank(r) == |end|
  {
    NdRange(start, end)
  }

  /** The number of values axis `i` takes. */
  function Extent(r: NdRange, i: nat): (e: nat)
    requires Bounded(r) && i < Rank(r)
    ensures e == 0 <==> r.start[i] == r.end[i]
  {
    r.end[i] - r.start[i]
  }

  /** The product of the extents of the first `k` axes. */
  function ExtentProduct(r: NdRange, k: nat): nat
    requires Bounded(r) && k <= Rank(r)
  {
    if k == 0 then 1 else Mul(ExtentProduct(r, k - 1), Extent(r, k - 1))
  }

  /** The product is non-zero exactly when none of its axes is empty. */
  lemma {:induction false} ExtentProductPositive(r: NdRange, k: nat)
    requires Bounded(r) && k <= Rank(r)
    ensures ExtentProduct(r, k) > 0 <==> forall i :: 0 <= i < k ==> r.start[i] < r.end[i]
  {
    if k > 0 {
      ExtentProductPositive(r, k - 1);
      MulPositive(ExtentProduct(r, k - 1), Extent(r, k - 1));
    }
  }

  /**
   * `NdRange::len`: the element-wise difference `end - start` (which needs
   * `start <= end` on every axis, or the unsigned subtraction underflows),
   * multiplied out. It is zero exactly when some axis is empty.
   */
  function Len(r: NdRange): (n: nat)
    requires Bounded(r)
    ensures n > 0 <==> NonEmpty(r)
  {
    ExtentProductPositive(r, Rank(r));
    ExtentProduct(r, Rank(r))
  }

  /** For rank 3, the length is the product of the three extents. */
  lemma LenRank3(r: NdRange)
    requires |r.start| == |r.end| == 3
    requires r.start[0] <= r.end[0] && r.start[1] <= r.end[1] && r.start[2] <= r.end[2]
    ensures Bounded(r)
    ensures Len(r) == (r.end[0] - r.start[0]) * (r.end[1] - r.start[1]) * (r.end[2] - r.start[2])
  {
    var e0, e1, e2 := r.end[0] - r.start[0], r.end[1] - r.start[1], r.end[2] - r.start[2];
    assert ExtentProduct(r, 1) == e0 by {
      MulIsProduct(1, e0);
    }
    assert ExtentProduct(r, 2) == e0 * e1 by {
      MulIsProduct(e0, e1);
    }
    assert ExtentProduct(r, 3) == e0 * e1 * e2 by {
      MulIsProduct(e0 * e1, e2);
    }
  }

  /** The lengths the source's own unit test expects, on boxes with at most one non-unit axis. */
  lemma LenExamplesUnit()
    ensures Bounded(New([0, 0, 0], [1, 1, 1])) && Len(New([0, 0, 0], [1, 1, 1])) == 1
    ensures Bounded(New([0, 0, 0], [1, 1, 5])) && Len(New([0, 0, 0], [1, 1, 5])) == 5
    ensures Bounded(New([0, 0, 0], [1, 5, 1])) && Len(New([0, 0, 0], [1, 5, 1])) == 5
    ensures Bounded(New([0, 0, 0], [5, 1, 1])) && Len(New([0, 0, 0], [5, 1, 1])) == 5
  {
    LenRank3(New([0, 0, 0], [1, 1, 1]));
    LenRank3(New([0, 0, 0], [1, 1, 5]));
    LenRank3(New([0, 0, 0], [1, 5, 1]));
    LenRank3(New([0, 0, 0], [5, 1, 1]));
  }

  /** The lengths the source's own unit test expects, on boxes not anchored at the origin. */
  lemma LenExamplesOffset()
    ensures Bounded(New([1, 1, 1], [5, 2, 3])) && Len(New([1, 1, 1], [5, 2, 3])) == 8
    ensures Bounded(New([5, 6, 7], [10, 10, 10])) && Len(New([5, 6, 7], [10, 10, 10])) == 5 * 4 * 3
    ensures Bounded(New([100, 10, 100], [102, 19, 133])) && Len(New([100, 10, 100], [102, 19, 133])) == 2 * 9 * 33
  {
    LenRank3(New([1, 1, 1], [5, 2, 3]));
    LenRank3(New([5, 6, 7], [10, 10, 10]));
    LenRank3(New([100, 10, 100], [102, 19, 133]));
  }
}
