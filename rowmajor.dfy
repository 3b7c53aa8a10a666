/**
 * Row-major numbering of the positions of a box: the reference against which
 * the stepping and jumping of the iteration state are specified.
 *
 * `Lin` reads a coordinate as a mixed-radix number with axis 0 most
 * significant and the last axis least significant ("last axis fastest"); axis 0
 * is left unbounded so that the one-past-the-end marker built by `from_range`
 * has a number too. `Decompose`/`Pos` turn a number back into a coordinate the
 * way `at` does (src/iter/state.rs:54-67): every axis, axis 0 included, keeps
 * its digit modulo its extent, so numbers wrap around modulo `Len`.
 */
module RowMajor {
  import opened Arith
  import opened Types

  // ---------------------------------------------------------------------------
  // Linear index and its inverse
  // ---------------------------------------------------------------------------

  /** `c` is a prefix coordinate lying at or above `start` on each of its axes. */
  predicate Above(r: NdRange, c: Coord)
  {
    Bounded(r) && |c| <= Rank(r) && forall i {:trigger c[i]} :: 0 <= i < |c| ==> r.start[i] <= c[i]
  }

  /** Every axis of the prefix coordinate `c` lies in `start[i] .. end[i]`. */
  predicate Digits(r: NdRange, c: Coord)
  {
    Above(r, c) && forall i {:trigger c[i]} :: 0 <= i < |c| ==> c[i] < r.end[i]
  }

  /** `c` is a position of the box. */
  predicate InBox(r: NdRange, c: Coord)
  {
    |c| == Rank(r) && Digits(r, c)
  }

  /** A box that has a position has every axis non-empty. */
  lemma InBoxNonEmpty(r: NdRange, c: Coord)
    requires InBox(r, c)
    ensures NonEmpty(r)
  {
    forall i | 0 <= i < |r.start|
      ensures r.start[i] < r.end[i]
    {
      assert r.start[i] <= c[i];
    }
  }

  /**
   * The row-major number of the first `m` axes of `c`, counted from `start`:
   * axis `m - 1` is the least significant digit.
   */
  function LinPrefix(r: NdRange, c: Coord, m: nat): nat
    requires Above(r, c) && m <= |c|
    decreases m
  {
    if m == 0 then 0
    else Mul(LinPrefix(r, c, m - 1), Extent(r, m - 1)) + (c[m - 1] - r.start[m - 1])
  }

  /** The row-major number of the coordinate `c`, counted from `start`. */
  function Lin(r: NdRange, c: Coord): nat
    requires Above(r, c)
  {
    LinPrefix(r, c, |c|)
  }

  /** The number of a prefix depends on the axes of that prefix only. */
  lemma {:induction false} LinPrefixAgree(r: NdRange, a: Coord, b: Coord, m: nat)
    requires Above(r, a) && Above(r, b) && m <= |a| && m <= |b|
    requires forall j :: 0 <= j < m ==> a[j] == b[j]
    ensures LinPrefix(r, a, m) == LinPrefix(r, b, m)
    decreases m
  {
    if m > 0 {
      LinPrefixAgree(r, a, b, m - 1);
    }
  }

  /**
   * The coordinate of the first `k` axes for the number `q`, decomposed the way
   * `at` does: from the last axis to the first, each axis keeps its digit and
   * passes the quotient on.
   */
  function Decompose(r: NdRange, q: nat, k: nat): (c: Coord)
    requires NonEmpty(r) && k <= Rank(r)
    ensures |c| == k
    decreases k
  {
    if k == 0 then []
    else
      var e := Extent(r, k - 1);
      var front := Decompose(r, Quot(q, e), k - 1);
      front + [r.start[k - 1] + Rem(q, e)]
  }

  /** The position with row-major number `p`, wrapping modulo `Len(r)`. */
  function Pos(r: NdRange, p: nat): Coord
    requires NonEmpty(r)
  {
    Decompose(r, p, Rank(r))
  }

  /** For rank 3, the axes of position `p` are its digits in the mixed radix of the extents. */
  lemma PosRank3(r: NdRange, p: nat)
    requires NonEmpty(r) && Rank(r) == 3
    ensures Pos(r, p) == [r.start[0] + Rem(Quot(Quot(p, Extent(r, 2)), Extent(r, 1)), Extent(r, 0)),
                          r.start[1] + Rem(Quot(p, Extent(r, 2)), Extent(r, 1)),
                          r.start[2] + Rem(p, Extent(r, 2))]
  {
  }

  /** For rank 2, likewise. */
  lemma PosRank2(r: NdRange, p: nat)
    requires NonEmpty(r) && Rank(r) == 2
    ensures Pos(r, p) == [r.start[0] + Rem(Quot(p, Extent(r, 1)), Extent(r, 0)), r.start[1] + Rem(p, Extent(r, 1))]
  {
  }

  lemma {:induction false} LinPrefixBound(r: NdRange, c: Coord, m: nat)
    requires Digits(r, c) && m <= |c|
    ensures LinPrefix(r, c, m) < ExtentProduct(r, m)
    decreases m
  {
    if m > 0 {
      var k := m - 1;
      var e := Extent(r, k);
      LinPrefixBound(r, c, k);
      var hi, p := LinPrefix(r, c, k), ExtentProduct(r, k);
      assert c[k] < r.end[k];
      MulMono(hi + 1, p, e);
      MulAdd(hi, 1, e);
    }
  }

  lemma LinBound(r: NdRange, c: Coord)
    requires Digits(r, c)
    ensures Lin(r, c) < ExtentProduct(r, |c|)
  {
    LinPrefixBound(r, c, |c|);
  }

  lemma {:induction false} DecomposeDigits(r: NdRange, q: nat, k: nat)
    requires NonEmpty(r) && k <= Rank(r)
    ensures Digits(r, Decompose(r, q, k))
    decreases k
  {
    if k > 0 {
      var e := Extent(r, k - 1);
      var front := Decompose(r, Quot(q, e), k - 1);
      var digit := Rem(q, e);
      QuotRem(q, e);
      DecomposeDigits(r, Quot(q, e), k - 1);
      assert Decompose(r, q, k) == front + [r.start[k - 1] + digit];
    }
  }

  /** Reading back a decomposed number gives it modulo the box size of the prefix. */
  lemma {:induction false} LinDecompose(r: NdRange, q: nat, k: nat)
    requires NonEmpty(r) && k <= Rank(r)
    ensures Above(r, Decompose(r, q, k))
    ensures ExtentProduct(r, k) > 0 && Lin(r, Decompose(r, q, k)) == Rem(q, ExtentProduct(r, k))
    decreases k
  {
    ExtentProductPositive(r, k);
    DecomposeDigits(r, q, k);
    if k == 0 {
      QuotRem(q, 1);
    } else {
      var e := Extent(r, k - 1);
      var c := Decompose(r, q, k);
      var front := Decompose(r, Quot(q, e), k - 1);
      assert forall j :: 0 <= j < k - 1 ==> c[j] == front[j];
      DecomposeDigits(r, Quot(q, e), k - 1);
      LinPrefixAgree(r, c, front, k - 1);
      LinDecompose(r, Quot(q, e), k - 1);
      assert Lin(r, c) == Mul(Lin(r, front), e) + Rem(q, e);
      RemOfProduct(q, ExtentProduct(r, k - 1), e);
    }
  }

  /** Decomposing the number of a prefix gives the prefix back. */
  lemma {:induction false} DecomposeLinPrefix(r: NdRange, c: Coord, m: nat)
    requires NonEmpty(r) && Digits(r, c) && m <= |c|
    ensures Decompose(r, LinPrefix(r, c, m), m) == c[..m]
    decreases m
  {
    if m > 0 {
      var k := m - 1;
      var e := Extent(r, k);
      QuotRemUnique(LinPrefix(r, c, m), e, LinPrefix(r, c, k), c[k] - r.start[k]);
      DecomposeLinPrefix(r, c, k);
      assert c[..m] == c[..k] + [c[k]];
    }
  }

  /** Decomposing the number of a coordinate of the box gives the coordinate back. */
  lemma DecomposeLin(r: NdRange, c: Coord)
    requires NonEmpty(r) && Digits(r, c)
    ensures Decompose(r, Lin(r, c), |c|) == c
  {
    DecomposeLinPrefix(r, c, |c|);
    assert c[..|c|] == c;
  }

  /** Decomposition only depends on the number modulo the box size of the prefix. */
  lemma DecomposeMod(r: NdRange, q: nat, k: nat)
    requires NonEmpty(r) && k <= Rank(r)
    ensures ExtentProduct(r, k) > 0 && Decompose(r, q, k) == Decompose(r, Rem(q, ExtentProduct(r, k)), k)
  {
    var c := Decompose(r, q, k);
    DecomposeDigits(r, q, k);
    LinDecompose(r, q, k);
    DecomposeLin(r, c);
  }

  /**
   * One step of the decomposition, seen from a coordinate `c` plus an offset:
   * adding `extra` to the number of the first `k + 1` axes of `c` leaves digit
   * `(c[k] - start[k] + extra) mod e` on axis `k` and carries the quotient into
   * the axes before it. This is the step shared by `increment`,
   * `increment_back` and `at`.
   */
  lemma DecomposeStep(r: NdRange, c: Coord, k: nat, extra: nat)
    requires NonEmpty(r) && Above(r, c) && k < |c|
    ensures Decompose(r, LinPrefix(r, c, k + 1) + extra, k + 1)
         == Decompose(r, LinPrefix(r, c, k) + Quot(c[k] - r.start[k] + extra, Extent(r, k)), k)
            + [r.start[k] + Rem(c[k] - r.start[k] + extra, Extent(r, k))]
  {
    var e := Extent(r, k);
    var off := c[k] - r.start[k] + extra;
    QuotRemShift(LinPrefix(r, c, k), e, off);
  }

  // ---------------------------------------------------------------------------
  // Positions of the whole box
  // ---------------------------------------------------------------------------

  /** Every number names a position of a non-empty box. */
  lemma PosInBox(r: NdRange, p: nat)
    requires NonEmpty(r)
    ensures InBox(r, Pos(r, p))
  {
    DecomposeDigits(r, p, Rank(r));
  }

  /** Reading back the position of `p` gives `p` modulo the number of positions. */
  lemma LinPos(r: NdRange, p: nat)
    requires NonEmpty(r)
    ensures InBox(r, Pos(r, p))
    ensures Lin(r, Pos(r, p)) == Rem(p, Len(r))
  {
    PosInBox(r, p);
    LinDecompose(r, p, Rank(r));
  }

  /** Every position of the box has a number below `Len`, and that number leads back to it. */
  lemma PosLin(r: NdRange, c: Coord)
    requires InBox(r, c)
    ensures NonEmpty(r)
    ensures Lin(r, c) < Len(r)
    ensures Pos(r, Lin(r, c)) == c
  {
    InBoxNonEmpty(r, c);
    LinBound(r, c);
    DecomposeLin(r, c);
  }

  /** Numbers that agree modulo `Len` name the same position. */
  lemma PosMod(r: NdRange, p: nat)
    requires NonEmpty(r)
    ensures Pos(r, p) == Pos(r, Rem(p, Len(r)))
  {
    DecomposeMod(r, p, Rank(r));
  }

  /** Two numbers that differ by a multiple of `Len` name the same position. */
  lemma PosPeriodic(r: NdRange, p: nat, k: nat)
    requires NonEmpty(r)
    ensures Pos(r, p + Mul(k, Len(r))) == Pos(r, p)
  {
    PosMod(r, p + Mul(k, Len(r)));
    PosMod(r, p);
    RemAddMultiple(p, k, Len(r));
  }

  /** Adding `Len` to a number does not change its position. */
  lemma PosAddLen(r: NdRange, p: nat)
    requires NonEmpty(r)
    ensures Pos(r, p + Len(r)) == Pos(r, p)
  {
    PosPeriodic(r, p, 1);
    assert Mul(1, Len(r)) == Len(r);
  }

  /** A number and its remainder modulo `Len` name the same positions from there on. */
  lemma PosShift(r: NdRange, x: nat, k: nat)
    requires NonEmpty(r)
    ensures Pos(r, Rem(x, Len(r)) + k) == Pos(r, x + k)
  {
    var n := Len(r);
    QuotRem(x, n);
    PosPeriodic(r, Rem(x, n) + k, Quot(x, n));
  }

  // ---------------------------------------------------------------------------
  // Distinguished coordinates
  // ---------------------------------------------------------------------------

  /**
   * The one-past-the-end marker `from_range` puts in `tail`: `start` with axis
   * 0 replaced by `end[0]` (src/iter/state.rs:42-44).
   */
  function Sentinel(r: NdRange): (t: Coord)
    requires Bounded(r) && Rank(r) >= 1
    ensures |t| == Rank(r) && Above(r, t)
  {
    r.start[0 := r.end[0]]
  }

  /** The last position of the box: every axis at `end - 1`. */
  function Last(r: NdRange): (c: Coord)
    requires NonEmpty(r)
    ensures InBox(r, c)
  {
    seq(Rank(r), i requires 0 <= i < Rank(r) => r.end[i] - 1)
  }

  lemma {:induction false} LinStartPrefix(r: NdRange, m: nat)
    requires Bounded(r) && m <= Rank(r)
    ensures Above(r, r.start) && LinPrefix(r, r.start, m) == 0
    decreases m
  {
    if m > 0 {
      LinStartPrefix(r, m - 1);
    }
  }

  lemma {:induction false} LinLastPrefix(r: NdRange, m: nat)
    requires NonEmpty(r) && m <= Rank(r)
    ensures LinPrefix(r, Last(r), m) == ExtentProduct(r, m) - 1
    decreases m
  {
    if m > 0 {
      LinLastPrefix(r, m - 1);
      var p, e := ExtentProduct(r, m - 1), Extent(r, m - 1);
      ExtentProductPositive(r, m - 1);
      MulAdd(p - 1, 1, e);
    }
  }

  lemma {:induction false} LinSentinelPrefix(r: NdRange, m: nat)
    requires Bounded(r) && 1 <= m <= Rank(r)
    ensures LinPrefix(r, Sentinel(r), m) == ExtentProduct(r, m)
    decreases m
  {
    if m > 1 {
      LinSentinelPrefix(r, m - 1);
    }
  }

  /** `start` is number 0. */
  lemma LinStart(r: NdRange)
    requires Bounded(r)
    ensures Above(r, r.start) && Lin(r, r.start) == 0
  {
    LinStartPrefix(r, Rank(r));
  }

  /** The one-past-the-end marker is number `Len`: one past the last position. */
  lemma LinSentinel(r: NdRange)
    requires Bounded(r) && Rank(r) >= 1
    ensures Lin(r, Sentinel(r)) == Len(r)
  {
    LinSentinelPrefix(r, Rank(r));
  }

  /** The last position is number `Len - 1`. */
  lemma LinLast(r: NdRange)
    requires NonEmpty(r)
    ensures Lin(r, Last(r)) == Len(r) - 1
  {
    LinLastPrefix(r, Rank(r));
  }

  // ---------------------------------------------------------------------------
  // Successor and predecessor: the odometer
  // ---------------------------------------------------------------------------

  /** The row-major successor of a position, wrapping from the last to `start`. */
  function Succ(r: NdRange, c: Coord): (n: Coord)
    requires InBox(r, c)
    ensures NonEmpty(r) && InBox(r, n)
  {
    InBoxNonEmpty(r, c);
    PosInBox(r, Lin(r, c) + 1);
    Pos(r, Lin(r, c) + 1)
  }

  /**
   * The row-major predecessor of `c`, wrapping from number 0 to the last
   * position; `c` may be the one-past-the-end marker.
   */
  function Pred(r: NdRange, c: Coord): (n: Coord)
    requires NonEmpty(r) && Above(r, c)
    ensures InBox(r, n)
  {
    PosInBox(r, Lin(r, c) + Len(r) - 1);
    Pos(r, Lin(r, c) + Len(r) - 1)
  }

  /**
   * `hi` is `lo` with one carried into axis `k`: they agree before `k`, axis
   * `k` of `hi` is one more, and after `k`, `lo` sits on the last value and
   * `hi` on `start`. Then the number of `hi` is one more than that of `lo`.
   */
  lemma {:induction false} CarryLin(r: NdRange, lo: Coord, hi: Coord, k: nat, m: nat)
    requires Above(r, lo) && Above(r, hi) && |lo| == |hi|
    requires k < m <= |lo|
    requires forall j :: 0 <= j < k ==> hi[j] == lo[j]
    requires hi[k] == lo[k] + 1
    requires forall j :: k < j < |lo| ==> lo[j] + 1 == r.end[j] && hi[j] == r.start[j]
    ensures LinPrefix(r, hi, m) == LinPrefix(r, lo, m) + 1
    decreases m
  {
    if m > k + 1 {
      CarryLin(r, lo, hi, k, m - 1);
      MulAdd(LinPrefix(r, lo, m - 1), 1, Extent(r, m - 1));
    } else {
      LinPrefixAgree(r, lo, hi, k);
    }
  }

  /** `CarryLin` over the whole coordinate. */
  lemma CarryLinFull(r: NdRange, lo: Coord, hi: Coord, k: nat)
    requires Above(r, lo) && Above(r, hi) && |lo| == |hi|
    requires k < |lo|
    requires forall j :: 0 <= j < k ==> hi[j] == lo[j]
    requires hi[k] == lo[k] + 1
    requires forall j :: k < j < |lo| ==> lo[j] + 1 == r.end[j] && hi[j] == r.start[j]
    ensures Lin(r, hi) == Lin(r, lo) + 1
  {
    CarryLin(r, lo, hi, k, |lo|);
  }

  /**
   * Odometer forward step: if axis `k` can still grow and every later axis is
   * at its last value, the successor grows axis `k` by one and resets every
   * later axis to `start` (src/iter/state.rs:18-24).
   */
  lemma SuccCarry(r: NdRange, c: Coord, k: nat)
    requires InBox(r, c) && k < |c|
    requires c[k] + 1 < r.end[k]
    requires forall j :: k < j < |c| ==> c[j] + 1 == r.end[j]
    ensures Succ(r, c) == c[..k] + [c[k] + 1] + r.start[k + 1..]
  {
    var t := c[..k] + [c[k] + 1] + r.start[k + 1..];
    assert InBox(r, t) && Lin(r, t) == Lin(r, c) + 1 by {
      assert forall j :: 0 <= j < k ==> t[j] == c[j];
      CarryLinFull(r, c, t, k);
    }
    assert Pos(r, Lin(r, t)) == t by {
      PosLin(r, t);
    }
  }

  /** The successor of the position numbered `x` is the one numbered `x + 1`. */
  lemma SuccPos(r: NdRange, x: nat)
    requires NonEmpty(r)
    ensures InBox(r, Pos(r, x)) && Succ(r, Pos(r, x)) == Pos(r, x + 1)
  {
    LinPos(r, x);
    assert Succ(r, Pos(r, x)) == Pos(r, Rem(x, Len(r)) + 1);
    PosShift(r, x, 1);
  }

  /** Odometer wrap: from the last position the successor is `start` again. */
  lemma SuccWrap(r: NdRange, c: Coord)
    requires InBox(r, c)
    requires forall j :: 0 <= j < |c| ==> c[j] + 1 == r.end[j]
    ensures Succ(r, c) == r.start
  {
    assert c == Last(r);
    LinLast(r);
    PosMod(r, Len(r));
    LinStart(r);
    assert InBox(r, r.start);
    PosLin(r, r.start);
  }

  /**
   * Odometer backward step: if axis `k` is above `start` and every later axis
   * is at `start`, the predecessor lowers axis `k` by one and sets every later
   * axis to its last value (src/iter/state.rs:32-38).
   */
  lemma PredBorrow(r: NdRange, c: Coord, k: nat)
    requires InBox(r, c) && k < |c|
    requires c[k] > r.start[k]
    requires forall j :: k < j < |c| ==> c[j] == r.start[j]
    ensures Pred(r, c) == c[..k] + [c[k] - 1] + Last(r)[k + 1..]
  {
    var t := c[..k] + [c[k] - 1] + Last(r)[k + 1..];
    BorrowLin(r, c, k);
    PredOfNext(r, c, t);
  }

  /** The number of the borrowed coordinate of `PredBorrow` is one less. */
  lemma BorrowLin(r: NdRange, c: Coord, k: nat)
    requires InBox(r, c) && k < |c|
    requires c[k] > r.start[k]
    requires forall j :: k < j < |c| ==> c[j] == r.start[j]
    ensures InBox(r, c[..k] + [c[k] - 1] + Last(r)[k + 1..])
    ensures Lin(r, c) == Lin(r, c[..k] + [c[k] - 1] + Last(r)[k + 1..]) + 1
  {
    var t := c[..k] + [c[k] - 1] + Last(r)[k + 1..];
    assert InBox(r, t) by {
      forall j | 0 <= j < |t|
        ensures r.start[j] <= t[j] < r.end[j]
      {
        if j > k {
          assert t[j] == r.end[j] - 1;
        } else if j < k {
          assert t[j] == c[j];
        }
      }
    }
    assert Lin(r, c) == Lin(r, t) + 1 by {
      assert forall j :: 0 <= j < k ==> c[j] == t[j];
      CarryLinFull(r, t, c, k);
    }
  }

  /** The predecessor of the position numbered one past `t` is `t`. */
  lemma PredOfNext(r: NdRange, c: Coord, t: Coord)
    requires NonEmpty(r) && Above(r, c) && InBox(r, t) && Lin(r, c) == Lin(r, t) + 1
    ensures Pred(r, c) == t
  {
    var p := Lin(r, t);
    var x := Lin(r, c) + Len(r) - 1;
    assert x == p + Len(r);
    assert Pred(r, c) == Pos(r, x);
    assert Pos(r, p) == t by {
      PosLin(r, t);
    }
    PosAddLen(r, p);
  }

  /** From the one-past-the-end marker the predecessor is the last position. */
  lemma PredSentinel(r: NdRange)
    requires NonEmpty(r) && Rank(r) >= 1
    ensures Pred(r, Sentinel(r)) == Last(r)
  {
    assert InBox(r, Last(r)) && Lin(r, Sentinel(r)) == Lin(r, Last(r)) + 1 by {
      LinSentinel(r);
      LinLast(r);
    }
    PredOfNext(r, Sentinel(r), Last(r));
  }

  /** Odometer wrap backward: from `start` the predecessor is the last position. */
  lemma PredWrap(r: NdRange)
    requires NonEmpty(r)
    ensures Pred(r, r.start) == Last(r)
  {
    assert Lin(r, r.start) + Len(r) - 1 == Lin(r, Last(r)) by {
      LinStart(r);
      LinLast(r);
    }
    assert Pos(r, Lin(r, Last(r))) == Last(r) by {
      PosLin(r, Last(r));
    }
  }

  // ---------------------------------------------------------------------------
  // Row-major order is lexicographic order
  // ---------------------------------------------------------------------------

  /** `a` comes before `b` lexicographically, axis 0 deciding first. */
  predicate LexLess(a: Coord, b: Coord)
  {
    exists k :: 0 <= k < |a| && k < |b| && a[..k] == b[..k] && a[k] < b[k]
  }

  lemma {:induction false} LexLin(r: NdRange, a: Coord, b: Coord, k: nat, m: nat)
    requires InBox(r, a) && InBox(r, b)
    requires k < m <= |a|
    requires forall j :: 0 <= j < k ==> a[j] == b[j]
    requires a[k] < b[k]
    ensures LinPrefix(r, a, m) < LinPrefix(r, b, m)
    decreases m
  {
    var e := Extent(r, m - 1);
    var da, db := a[m - 1] - r.start[m - 1], b[m - 1] - r.start[m - 1];
    assert da < e;
    if m > k + 1 {
      LexLin(r, a, b, k, m - 1);
      var la, lb := LinPrefix(r, a, m - 1), LinPrefix(r, b, m - 1);
      MulMono(la + 1, lb, e);
      MulAdd(la, 1, e);
    } else {
      LinPrefixAgree(r, a, b, k);
    }
  }

  lemma LexImpliesLin(r: NdRange, a: Coord, b: Coord)
    requires InBox(r, a) && InBox(r, b)
    ensures LexLess(a, b) ==> Lin(r, a) < Lin(r, b)
  {
    if LexLess(a, b) {
      var k :| 0 <= k < |a| && k < |b| && a[..k] == b[..k] && a[k] < b[k];
      forall j | 0 <= j < k
        ensures a[j] == b[j]
      {
        assert a[j] == a[..k][j];
      }
      LexLin(r, a, b, k, |a|);
    }
  }

  lemma FirstDifference(a: Coord, b: Coord) returns (k: nat)
    requires |a| == |b| && a != b
    ensures k < |a| && a[..k] == b[..k] && a[k] != b[k]
  {
    k := 0;
    while a[k] == b[k]
      invariant k < |a| && a[..k] == b[..k]
      decreases |a| - k
    {
      assert a[..k + 1] == b[..k + 1];
      k := k + 1;
    }
  }

  /**
   * Row-major numbering is lexicographic order with axis 0 most significant,
   * i.e. the last axis varies fastest.
   */
  lemma RowMajorOrder(r: NdRange, a: Coord, b: Coord)
    requires InBox(r, a) && InBox(r, b)
    ensures Lin(r, a) < Lin(r, b) <==> LexLess(a, b)
  {
    LexImpliesLin(r, a, b);
    LexImpliesLin(r, b, a);
    if a != b {
      var k := FirstDifference(a, b);
      if a[k] < b[k] {
        assert LexLess(a, b);
      } else {
        assert LexLess(b, a);
      }
    }
  }

  // ---------------------------------------------------------------------------
  // Runs of consecutive positions
  // ---------------------------------------------------------------------------

  /** The `n` positions numbered `Lin(h)`, `Lin(h) + 1`, ... (wrapping). */
  function Window(r: NdRange, h: Coord, n: nat): (w: seq<Coord>)
    requires Bounded(r) && (n > 0 ==> InBox(r, h))
    ensures |w| == n
  {
    if n == 0 then []
    else
      InBoxNonEmpty(r, h);
      seq(n, k requires 0 <= k < n => Pos(r, Lin(r, h) + k))
  }

  /** Every position of the box, in row-major order. */
  function Enumerate(r: NdRange): (w: seq<Coord>)
    requires Bounded(r)
    ensures |w| == Len(r)
  {
    if Len(r) == 0 then []
    else
      assert InBox(r, r.start);
      Window(r, r.start, Len(r))
  }

  /**
   * Row-major traversal visits each position of the box exactly once, in
   * strictly increasing lexicographic order, and nothing else.
   */
  lemma EnumerateRowMajor(r: NdRange)
    requires Bounded(r)
    ensures |Enumerate(r)| == Len(r)
    ensures forall i :: 0 <= i < |Enumerate(r)| ==> InBox(r, Enumerate(r)[i])
    ensures forall i, j :: 0 <= i < j < |Enumerate(r)| ==> LexLess(Enumerate(r)[i], Enumerate(r)[j])
    ensures forall c :: InBox(r, c) <==> c in Enumerate(r)
  {
    var e := Enumerate(r);
    forall c | InBox(r, c)
      ensures NonEmpty(r)
    {
      InBoxNonEmpty(r, c);
    }
    if Len(r) > 0 {
      LinStart(r);
      forall i | 0 <= i < |e|
        ensures InBox(r, e[i]) && Lin(r, e[i]) == i
      {
        LinPos(r, i);
      }
      forall i, j | 0 <= i < j < |e|
        ensures LexLess(e[i], e[j])
      {
        RowMajorOrder(r, e[i], e[j]);
      }
      forall c | InBox(r, c)
        ensures c in e
      {
        PosLin(r, c);
        assert e[Lin(r, c)] == c;
      }
    }
  }

  /** `k` forward steps from position `c`. */
  function Steps(r: NdRange, c: Coord, k: nat): (d: Coord)
    requires InBox(r, c)
    ensures InBox(r, d)
  {
    if k == 0 then c else Succ(r, Steps(r, c, k - 1))
  }

  /** `k` forward steps land on the position numbered `Lin(c) + k`, wrapping. */
  lemma {:induction false} StepsIsPos(r: NdRange, c: Coord, k: nat)
    requires InBox(r, c)
    ensures NonEmpty(r) && Steps(r, c, k) == Pos(r, Lin(r, c) + k)
  {
    InBoxNonEmpty(r, c);
    if k > 0 {
      var x := Lin(r, c) + (k - 1);
      assert Steps(r, c, k - 1) == Pos(r, x) by {
        StepsIsPos(r, c, k - 1);
      }
      SuccPos(r, x);
      assert x + 1 == Lin(r, c) + k;
    } else {
      PosLin(r, c);
    }
  }

  /**
   * A run of `n` positions is its first `i` positions followed by the run of
   * `n - i` positions starting at number `Lin(h) + i`.
   */
  lemma WindowSplit(r: NdRange, h: Coord, n: nat, i: nat)
    requires InBox(r, h) && i <= n
    ensures NonEmpty(r) && InBox(r, Pos(r, Lin(r, h) + i))
    ensures Window(r, h, n) == Window(r, h, i) + Window(r, Pos(r, Lin(r, h) + i), n - i)
  {
    InBoxNonEmpty(r, h);
    var x := Lin(r, h) + i;
    var m := Pos(r, x);
    assert InBox(r, m) && Lin(r, m) == Rem(x, Len(r)) by {
      LinPos(r, x);
    }
    var whole, left, right := Window(r, h, n), Window(r, h, i), Window(r, m, n - i);
    forall k | 0 <= k < n - i
      ensures right[k] == whole[i + k]
    {
      assert right[k] == Pos(r, Rem(x, Len(r)) + k);
      PosShift(r, x, k);
    }
    assert whole == left + right;
  }

  /** Dropping the first position of a run starts it at the successor. */
  lemma WindowSucc(r: NdRange, h: Coord, n: nat)
    requires InBox(r, h) && n > 0
    ensures Window(r, Succ(r, h), n - 1) == Window(r, h, n)[1..]
  {
    var x := Lin(r, h) + 1;
    var s := Succ(r, h);
    assert s == Pos(r, x) && Lin(r, s) == Rem(x, Len(r)) by {
      LinPos(r, x);
    }
    var whole, rest := Window(r, h, n), Window(r, s, n - 1);
    forall k | 0 <= k < n - 1
      ensures rest[k] == whole[1 + k]
    {
      PosShift(r, x, k);
    }
  }

  /** The first position of a run is its starting position. */
  lemma WindowHead(r: NdRange, h: Coord, n: nat)
    requires InBox(r, h) && n > 0
    ensures Window(r, h, n)[0] == h
  {
    PosLin(r, h);
  }
}
