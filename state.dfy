/**
 * The iteration state shared by the sequential and parallel iterators
 * (src/iter/state.rs): a range, a front cursor `head`, a back cursor `tail`
 * and the number `len` of positions still to be produced.
 *
 * The remaining positions are the `len` positions starting at `head` in
 * row-major order; `tail` is the position right after the last of them, which
 * is the one-past-the-end marker for a fresh state, and position `start` when
 * `split_at` cut exactly at the end of the box (`at` wraps around).
 */
module State {
  import opened Arith
  import opened Types
  import opened RowMajor

  // ---------------------------------------------------------------------------
  // The invariant, on values
  // ---------------------------------------------------------------------------

  /**
   * What every state built by `from_range`, `increment`, `increment_back` and
   * `split_at` satisfies: the cursors have the rank of the range and lie at or
   * above `start`; when the box has positions, `head` is one of them and
   * `tail` is one of them or the one-past-the-end marker; and while positions
   * remain, `tail` is `len` steps after `head` (or position `start`, when
   * those steps reach exactly the end of the box).
   */
  ghost predicate Inv(r: NdRange, h: Coord, t: Coord, n: nat)
  {
    && Bounded(r) && Rank(r) >= 1
    && |h| == Rank(r) && |t| == Rank(r)
    && Above(r, h) && Above(r, t)
    && n <= Len(r)
    && (Len(r) > 0 ==> InBox(r, h) && (InBox(r, t) || t == Sentinel(r)))
    && (n > 0 ==>
          && Lin(r, h) + n <= Len(r)
          && (Lin(r, t) == Lin(r, h) + n || (Lin(r, t) == 0 && Lin(r, h) + n == Len(r))))
  }

  /**
   * `increment_back` subtracts one from an axis only after every later axis
   * was found at `start`; it is free of unsigned underflow on `t` exactly when
   * no axis it reaches that way is 0.
   */
  ghost predicate BorrowSafe(r: NdRange, t: Coord)
  {
    && |t| == Rank(r)
    && forall i :: 0 <= i < |t| && (forall j :: i < j < |t| ==> t[j] <= r.start[j]) ==> t[i] > 0
  }

  /**
   * No axis after the first starts at 0: from the one-past-the-end marker,
   * `increment_back` borrows through exactly those axes.
   */
  predicate LaterStartsPositive(r: NdRange)
  {
    forall i :: 1 <= i < Rank(r) ==> r.start[i] > 0
  }

  // ---------------------------------------------------------------------------
  // The invariant is established and kept
  // ---------------------------------------------------------------------------

  /**
   * `from_range` starts at `start` with the one-past-the-end marker as tail
   * and every position of the box to go, in row-major order.
   */
  lemma FromRangeInv(r: NdRange)
    requires Bounded(r) && Rank(r) >= 1
    ensures Inv(r, r.start, Sentinel(r), Len(r))
    ensures Window(r, r.start, Len(r)) == Enumerate(r)
  {
    LinStart(r);
    LinSentinel(r);
    if Len(r) > 0 {
      assert InBox(r, r.start);
    }
  }

  /**
   * Stepping `head` forward keeps the invariant and drops the first remaining
   * position.
   */
  lemma SuccInv(r: NdRange, h: Coord, t: Coord, n: nat)
    requires Inv(r, h, t, n) && n > 0
    ensures InBox(r, h) && Inv(r, Succ(r, h), t, n - 1)
    ensures Window(r, Succ(r, h), n - 1) == Window(r, h, n)[1..]
  {
    var x := Lin(r, h) + 1;
    assert Succ(r, h) == Pos(r, x) && InBox(r, Pos(r, x)) && Lin(r, Pos(r, x)) == Rem(x, Len(r)) by {
      LinPos(r, x);
    }
    if n > 1 {
      assert Rem(x, Len(r)) == x;
    }
    WindowSucc(r, h, n);
  }

  /**
   * Stepping `tail` backward keeps the invariant, lands on the last remaining
   * position, and drops it.
   */
  lemma PredInv(r: NdRange, h: Coord, t: Coord, n: nat)
    requires Inv(r, h, t, n) && n > 0
    ensures NonEmpty(r) && InBox(r, h) && Inv(r, h, Pred(r, t), n - 1)
    ensures Pred(r, t) == Window(r, h, n)[n - 1]
    ensures Window(r, h, n - 1) == Window(r, h, n)[..n - 1]
  {
    var x := Lin(r, h) + (n - 1);
    assert Pred(r, t) == Pos(r, x) by {
      if Lin(r, t) == Lin(r, h) + n {
        assert Lin(r, t) + Len(r) - 1 == x + Len(r);
        PosAddLen(r, x);
      } else {
        assert Lin(r, t) + Len(r) - 1 == x;
      }
    }
    assert InBox(r, Pos(r, x)) && Lin(r, Pos(r, x)) == x by {
      LinPos(r, x);
      assert Rem(x, Len(r)) == x;
    }
  }

  /**
   * Splitting at `i` gives two states that satisfy the invariant, the left one
   * ending where the right one starts, whose remaining positions together are
   * those of the state split.
   */
  lemma SplitInv(r: NdRange, h: Coord, t: Coord, n: nat, i: nat, m: Coord)
    requires Inv(r, h, t, n) && NonEmpty(r) && i <= n && m == Pos(r, Lin(r, h) + i)
    ensures Inv(r, h, m, i) && Inv(r, m, t, n - i)
    ensures Window(r, h, i) + Window(r, m, n - i) == Window(r, h, n)
  {
    var x := Lin(r, h) + i;
    assert m == Pos(r, x);
    LinPos(r, x);
    if x < Len(r) {
      assert Rem(x, Len(r)) == x;
    } else {
      PosLin(r, h);
      assert x == Mul(1, Len(r)) + 0;
      QuotRemUnique(x, Len(r), 1, 0);
    }
    WindowSplit(r, h, n, i);
  }

  /** Where the backward loop stops at axis `i`, it has built the predecessor. */
  lemma BackStepDone(r: NdRange, t: Coord, c: Coord, i: nat)
    requires NonEmpty(r) && Rank(r) >= 1 && (InBox(r, t) || t == Sentinel(r))
    requires i < |t| == |c| && c[..i] == t[..i] && t[i] > r.start[i] && c[i] == t[i] - 1
    requires forall j :: i < j < |t| ==> t[j] == r.start[j] && c[j] == r.end[j] - 1
    ensures c == Pred(r, t)
  {
    assert c == t[..i] + [t[i] - 1] + Last(r)[i + 1..];
    if InBox(r, t) {
      PredBorrow(r, t, i);
    } else {
      assert i == 0 && c == Last(r);
      PredSentinel(r);
    }
  }

  /** Where the backward loop runs past axis 0, `t` was `start` and the result is the last position. */
  lemma BackStepWrapped(r: NdRange, t: Coord, c: Coord)
    requires NonEmpty(r) && Rank(r) >= 1 && (InBox(r, t) || t == Sentinel(r)) && |c| == |t|
    requires forall j :: 0 <= j < |t| ==> t[j] == r.start[j] && c[j] == r.end[j] - 1
    ensures c == Pred(r, t)
  {
    assert t == r.start;
    assert c == Last(r);
    PredWrap(r);
  }

  /**
   * From the one-past-the-end marker, `increment_back` borrows through every
   * axis after the first (they all sit at `start`), so it is free of underflow
   * exactly when none of those axes starts at 0.
   */
  lemma SentinelBorrowSafe(r: NdRange)
    requires NonEmpty(r) && Rank(r) >= 1
    ensures BorrowSafe(r, Sentinel(r)) <==> LaterStartsPositive(r)
  {
    var t := Sentinel(r);
    if LaterStartsPositive(r) {
      forall i | 0 <= i < |t|
        ensures t[i] > 0
      {
        if i == 0 {
          assert t[0] == r.end[0] > r.start[0];
        }
      }
    } else {
      var i :| 1 <= i < Rank(r) && r.start[i] == 0;
      assert forall j :: i < j < |t| ==> t[j] <= r.start[j];
      assert t[i] == 0;
    }
  }

  /**
   * On a box where no axis starts at 0, `increment_back` never underflows:
   * every coordinate at or above `start` is positive on every axis.
   */
  lemma PositiveStartsBorrowSafe(r: NdRange, t: Coord)
    requires Bounded(r) && |t| == Rank(r) && Above(r, t)
    requires forall i :: 0 <= i < Rank(r) ==> r.start[i] > 0
    ensures BorrowSafe(r, t)
  {
    forall i | 0 <= i < |t|
      ensures t[i] > 0
    {
      assert t[i] >= r.start[i];
    }
  }

  /**
   * On a box where no axis after the first starts at 0, `increment_back`
   * never underflows from a tail other than `start`: it reaches axis 0 only
   * when every later axis is at `start`, and axis 0 at 0 would then make the
   * tail `start` itself.
   */
  lemma NonStartBorrowSafe(r: NdRange, t: Coord)
    requires Bounded(r) && |t| == Rank(r) && Above(r, t) && t != r.start
    requires LaterStartsPositive(r)
    ensures BorrowSafe(r, t)
  {
    if forall j :: 0 < j < |t| ==> t[j] <= r.start[j] {
      forall j | 0 < j < |t|
        ensures t[j] == r.start[j]
      {
        assert r.start[j] <= t[j];
      }
      assert t[0] != r.start[0];
    }
    forall i | 1 <= i < |t|
      ensures t[i] > 0
    {
      assert r.start[i] <= t[i];
    }
  }

  /**
   * While more than one position remains, the last of them, which
   * `increment_back` makes the new tail, is not `start`: its number is at
   * least `len - 1`, and `start` is number 0.
   */
  lemma LastRemainingNotStart(r: NdRange, h: Coord, t: Coord, n: nat)
    requires Inv(r, h, t, n) && n > 1
    ensures Window(r, h, n)[n - 1] != r.start
  {
    PredInv(r, h, t, n);
    LinStart(r);
    assert Lin(r, Pred(r, t)) == Lin(r, h) + n - 1;
  }

  /**
   * Reversing the box `(0, 0) .. (2, 2)`: the first `increment_back` starts
   * from the marker `(2, 0)` and subtracts one from axis 1, which is 0, so the
   * step as written underflows; the position it should reach is the last one,
   * `(1, 1)`, which the checked step does.
   */
  lemma BackUnderflowExample()
    ensures NonEmpty(New([0, 0], [2, 2])) && Sentinel(New([0, 0], [2, 2])) == [2, 0]
    ensures !BorrowSafe(New([0, 0], [2, 2]), Sentinel(New([0, 0], [2, 2])))
    ensures Pred(New([0, 0], [2, 2]), Sentinel(New([0, 0], [2, 2]))) == [1, 1]
  {
    var r := New([0, 0], [2, 2]);
    assert NonEmpty(r);
    SentinelBorrowSafe(r);
    assert r.start[1] == 0;
    PredSentinel(r);
    assert Last(r) == [1, 1];
  }

  /**
   * The box of the `split_at` example, `(0, 3, 8) .. (4, 5, 12)`: 32
   * positions, and `from_range` puts the marker `(4, 3, 8)` in `tail`.
   */
  lemma SplitAtExampleBox()
    ensures NonEmpty(New([0, 3, 8], [4, 5, 12])) && Len(New([0, 3, 8], [4, 5, 12])) == 32
    ensures Sentinel(New([0, 3, 8], [4, 5, 12])) == [4, 3, 8]
  {
    var r := New([0, 3, 8], [4, 5, 12]);
    assert Extent(r, 0) == 4 && Extent(r, 1) == 2 && Extent(r, 2) == 4;
  }

  /** Its first cut, 3 steps after `start`, is position number 3, `(0, 3, 11)`. */
  lemma SplitAtExampleFirstCut()
    ensures NonEmpty(New([0, 3, 8], [4, 5, 12]))
    ensures Pos(New([0, 3, 8], [4, 5, 12]), 3) == [0, 3, 11]
    ensures InBox(New([0, 3, 8], [4, 5, 12]), [0, 3, 11]) && Lin(New([0, 3, 8], [4, 5, 12]), [0, 3, 11]) == 3
  {
    var r := New([0, 3, 8], [4, 5, 12]);
    assert Extent(r, 0) == 4 && Extent(r, 1) == 2 && Extent(r, 2) == 4;
    PosRank3(r, 3);
    SplitAtExampleBox();
    LinPos(r, 3);
    assert Rem(3, 32) == 3;
  }

  /** Its second cut, 15 steps after the first, is position number 18, `(2, 3, 10)`. */
  lemma SplitAtExampleSecondCut()
    ensures NonEmpty(New([0, 3, 8], [4, 5, 12]))
    ensures Pos(New([0, 3, 8], [4, 5, 12]), 3 + 15) == [2, 3, 10]
  {
    var r := New([0, 3, 8], [4, 5, 12]);
    assert Extent(r, 0) == 4 && Extent(r, 1) == 2 && Extent(r, 2) == 4;
    PosRank3(r, 18);
  }

  /**
   * The box of the `at` example, `(2, 2, 1) .. (5, 3, 5)`: from `start`,
   * position `p` is `(2 + p / 4, 2, 1 + p % 4)` for each of its 12 positions.
   */
  lemma AtExample(p: nat)
    requires p < 12
    ensures NonEmpty(New([2, 2, 1], [5, 3, 5])) && Len(New([2, 2, 1], [5, 3, 5])) == 12
    ensures Pos(New([2, 2, 1], [5, 3, 5]), p) == [2 + p / 4, 2, 1 + p % 4]
  {
    var r := New([2, 2, 1], [5, 3, 5]);
    assert Extent(r, 0) == 3 && Extent(r, 1) == 1 && Extent(r, 2) == 4;
    PosRank3(r, p);
    QuotRemBuiltin(p, 4);
    QuotRemBuiltin(p / 4, 1);
    QuotRemBuiltin(p / 4, 3);
  }

  /**
   * The same box with `head` moved to `(3, 2, 2)`, which is position 5:
   * `at(k)` is then position `5 + k`.
   */
  lemma AtExampleMovedHead(k: nat)
    requires k < 6
    ensures NonEmpty(New([2, 2, 1], [5, 3, 5])) && InBox(New([2, 2, 1], [5, 3, 5]), [3, 2, 2])
    ensures Pos(New([2, 2, 1], [5, 3, 5]), Lin(New([2, 2, 1], [5, 3, 5]), [3, 2, 2]) + k)
         == [2 + (5 + k) / 4, 2, 1 + (5 + k) % 4]
  {
    var r := New([2, 2, 1], [5, 3, 5]);
    AtExample(5);
    LinPos(r, 5);
    assert Rem(5, 12) == 5;
    AtExample(5 + k);
  }

  // ---------------------------------------------------------------------------
  // The odometer loops, on a cursor value
  // ---------------------------------------------------------------------------

  /**
   * The loop of `increment` (src/iter/state.rs:15-24): from the last axis
   * backward, add one; stop if the axis is still below its end, else reset it
   * to `start` and carry into the axis before. The result is the row-major
   * successor, wrapping from the last position to `start`.
   */
  method Step(r: NdRange, h: Coord) returns (c: Coord)
    requires InBox(r, h)
    ensures c == Succ(r, h)
  {
    c := h;
    var i := |c|;
    while i > 0
      invariant 0 <= i <= |h| && |c| == |h|
      invariant c[..i] == h[..i]
      invariant forall j :: i <= j < |h| ==> h[j] + 1 == r.end[j] && c[j] == r.start[j]
      decreases i
    {
      i := i - 1;
      c := c[i := c[i] + 1];
      if c[i] < r.end[i] {
        assert c == h[..i] + [h[i] + 1] + r.start[i + 1..];
        SuccCarry(r, h, i);
        return;
      }
      c := c[i := r.start[i]];
    }
    assert c == r.start;
    SuccWrap(r, h);
  }

  /**
   * The loop of `increment_back` as written (src/iter/state.rs:29-38): from
   * the last axis backward, subtract one; stop if the axis is still at or
   * above its start, else set it to `end - 1` and borrow from the axis before.
   * The subtraction comes before the comparison, so an axis at 0 that is
   * reached underflows; `BorrowSafe` excludes that. The result is the
   * row-major predecessor, also from the one-past-the-end marker.
   */
  method StepBack(r: NdRange, t: Coord) returns (c: Coord)
    requires NonEmpty(r) && Rank(r) >= 1 && (InBox(r, t) || t == Sentinel(r))
    requires BorrowSafe(r, t)
    ensures c == Pred(r, t)
  {
    c := t;
    var i := |c|;
    while i > 0
      invariant 0 <= i <= |t| && |c| == |t|
      invariant c[..i] == t[..i]
      invariant forall j :: i <= j < |t| ==> t[j] == r.start[j] && c[j] == r.end[j] - 1
      decreases i
    {
      i := i - 1;
      assert c[i] == t[i] > 0;
      c := c[i := c[i] - 1];
      if c[i] >= r.start[i] {
        BackStepDone(r, t, c, i);
        return;
      }
      c := c[i := r.end[i] - 1];
    }
    BackStepWrapped(r, t, c);
  }

  /**
   * `StepBack` with the comparison made before the subtraction: the same
   * predecessor, with no underflow to exclude.
   */
  method StepBackChecked(r: NdRange, t: Coord) returns (c: Coord)
    requires NonEmpty(r) && Rank(r) >= 1 && (InBox(r, t) || t == Sentinel(r))
    ensures c == Pred(r, t)
  {
    c := t;
    var i := |c|;
    while i > 0
      invariant 0 <= i <= |t| && |c| == |t|
      invariant c[..i] == t[..i]
      invariant forall j :: i <= j < |t| ==> t[j] == r.start[j] && c[j] == r.end[j] - 1
      decreases i
    {
      i := i - 1;
      if c[i] > r.start[i] {
        c := c[i := c[i] - 1];
        BackStepDone(r, t, c, i);
        return;
      }
      c := c[i := r.end[i] - 1];
    }
    BackStepWrapped(r, t, c);
  }

  /**
   * The first `i` axes as the loop of `at` leaves them when it reaches axis
   * `i - 1` with `rest` still to add.
   */
  ghost function OffsetLoop(r: NdRange, h: Coord, i: nat, rest: nat): (c: Coord)
    requires NonEmpty(r) && Above(r, h) && i <= |h|
    ensures |c| == i
  {
    if i == 0 then []
    else
      var size, offset := r.end[i - 1] - r.start[i - 1], h[i - 1] - r.start[i - 1] + rest;
      OffsetLoop(r, h, i - 1, offset / size) + [offset % size + r.start[i - 1]]
  }

  /** What the loop of `at` leaves is the row-major decomposition of the offset. */
  lemma {:induction false} OffsetLoopDecompose(r: NdRange, h: Coord, i: nat, rest: nat)
    requires NonEmpty(r) && Above(r, h) && i <= |h|
    ensures OffsetLoop(r, h, i, rest) == Decompose(r, LinPrefix(r, h, i) + rest, i)
    decreases i
  {
    if i > 0 {
      var k := i - 1;
      var size, offset := r.end[k] - r.start[k], h[k] - r.start[k] + rest;
      OffsetLoopDecompose(r, h, k, offset / size);
      DecomposeStep(r, h, k, rest);
      QuotRemBuiltin(offset, size);
    }
  }

  /** One iteration of the loop of `at` keeps what it has built together with what remains to build. */
  lemma OffsetLoopStep(r: NdRange, h: Coord, i: nat, rest: nat, mid: Coord, target: Coord)
    requires NonEmpty(r) && Above(r, h) && i < |h| == |mid|
    requires OffsetLoop(r, h, i + 1, rest) + mid[i + 1..] == target
    ensures OffsetLoop(r, h, i, (h[i] - r.start[i] + rest) / (r.end[i] - r.start[i]))
            + mid[i := (h[i] - r.start[i] + rest) % (r.end[i] - r.start[i]) + r.start[i]][i..] == target
  {
    var size, offset := r.end[i] - r.start[i], h[i] - r.start[i] + rest;
    var next := mid[i := offset % size + r.start[i]];
    assert next[i..] == [offset % size + r.start[i]] + mid[i + 1..];
  }

  /**
   * The loop of `at` (src/iter/state.rs:55-66): from the last axis backward,
   * the axis keeps `(head[i] - start[i] + index) % size` above `start[i]` and
   * the quotient becomes the index for the axis before. The result is the
   * position `index` steps after `h` in row-major order, wrapping around.
   * Every extent must be non-zero (the remainder divides by it) and `h` must
   * not lie below `start` (the offset is an unsigned difference).
   */
  method Offset(r: NdRange, h: Coord, index: nat) returns (mid: Coord)
    requires NonEmpty(r) && |h| == Rank(r) && Above(r, h)
    ensures mid == Pos(r, Lin(r, h) + index)
  {
    ghost var target := OffsetLoop(r, h, |h|, index);
    mid := h;
    var rest := index;
    var i := |mid|;
    while i > 0
      invariant 0 <= i <= |h| && |mid| == |h|
      invariant OffsetLoop(r, h, i, rest) + mid[i..] == target
      decreases i
    {
      i := i - 1;
      var size := r.end[i] - r.start[i];
      var offset := h[i] - r.start[i] + rest;
      OffsetLoopStep(r, h, i, rest, mid, target);
      mid := mid[i := offset % size + r.start[i]];
      rest := offset / size;
    }
    assert mid[0..] == mid;
    assert target == Pos(r, Lin(r, h) + index) by {
      OffsetLoopDecompose(r, h, |h|, index);
    }
  }

  // ---------------------------------------------------------------------------
  // The state
  // ---------------------------------------------------------------------------

  class IterState {
    const range: NdRange
    var head: Coord
    var tail: Coord
    var len: nat

    ghost predicate Valid()
      reads this
    {
      Inv(range, head, tail, len)
    }

    /** The positions still to be produced, in order. */
    ghost function Remaining(): (w: seq<Coord>)
      reads this
      requires Valid()
      ensures |w| == len
    {
      Window(range, head, len)
    }

    /**
     * The struct literal `split_at` builds, from fields that satisfy the
     * invariant: the remaining positions are the `len` that follow `head`.
     */
    constructor (range: NdRange, head: Coord, tail: Coord, len: nat)
      requires Inv(range, head, tail, len)
      ensures this.range == range && this.head == head && this.tail == tail && this.len == len
      ensures Valid() && Remaining() == Window(range, head, len)
    {
      this.range := range;
      this.head := head;
      this.tail := tail;
      this.len := len;
    }

    /**
     * `from_range`: the head is `start`, the tail is `start` with axis 0 moved
     * to `end[0]`, and every position of the box remains. Axis 0 must exist,
     * and `start <= end` on every axis for the length to be computed.
     */
    constructor FromRange(range: NdRange)
      requires Bounded(range) && Rank(range) >= 1
      ensures this.range == range && head == range.start && tail == Sentinel(range) && len == Len(range)
      ensures Valid() && Remaining() == Enumerate(range)
    {
      this.range := range;
      head := range.start;
      var t := range.start;
      t := t[0 := range.end[0]];
      tail := t;
      len := Len(range);
      FromRangeInv(range);
    }

    /**
     * `increment`: the odometer step of `head`; `len` must be positive, as
     * its unsigned decrement demands.
     */
    method Increment()
      requires Valid() && len > 0
      modifies this
      ensures head == Succ(range, old(head)) && tail == old(tail) && len == old(len) - 1
      ensures Valid() && Remaining() == old(Remaining())[1..]
    {
      SuccInv(range, head, tail, len);
      head := Step(range, head);
      len := len - 1;
    }

    /**
     * `increment_back`, as written: the backward odometer step of `tail`,
     * which must not reach an axis at 0 (`BorrowSafe`).
     */
    method IncrementBack()
      requires Valid() && len > 0 && BorrowSafe(range, tail)
      modifies this
      ensures tail == Pred(range, old(tail)) && head == old(head) && len == old(len) - 1
      ensures tail == old(Remaining())[old(len) - 1]
      ensures Valid() && Remaining() == old(Remaining())[..old(len) - 1]
    {
      PredInv(range, head, tail, len);
      tail := StepBack(range, tail);
      len := len - 1;
    }

    /** `increment_back` with the underflow avoided: the same step, for every valid state. */
    method IncrementBackChecked()
      requires Valid() && len > 0
      modifies this
      ensures tail == Pred(range, old(tail)) && head == old(head) && len == old(len) - 1
      ensures tail == old(Remaining())[old(len) - 1]
      ensures Valid() && Remaining() == old(Remaining())[..old(len) - 1]
    {
      PredInv(range, head, tail, len);
      tail := StepBackChecked(range, tail);
      len := len - 1;
    }

    /**
     * `at`: the position `index` steps after `head`, in row-major order; from
     * a `head` in the box, the same position `index` calls of `increment`
     * reach (so `at(0)` is `head`). The state is not changed.
     */
    method At(index: nat) returns (mid: Coord)
      requires NonEmpty(range) && |head| == Rank(range) && Above(range, head)
      ensures mid == Pos(range, Lin(range, head) + index)
      ensures InBox(range, head) ==> mid == Steps(range, head, index)
    {
      mid := Offset(range, head, index);
      if InBox(range, head) {
        StepsIsPos(range, head, index);
      }
    }

    /**
     * `split_at`: the left state keeps `head` and ends at `at(index)` with
     * `index` positions; the right one starts there, keeps `tail` and has the
     * other `len - index`. `index <= len`, as the unsigned subtraction demands,
     * and every extent non-zero, as `at` does.
     */
    method SplitAt(index: nat) returns (left: IterState, right: IterState)
      requires Valid() && NonEmpty(range) && index <= len
      ensures fresh(left) && fresh(right)
      ensures left.range == range && left.head == head && left.len == index
      ensures right.range == range && right.tail == tail && right.len == len - index
      ensures left.tail == right.head == Pos(range, Lin(range, head) + index)
      ensures left.Valid() && right.Valid()
      ensures left.Remaining() + right.Remaining() == Remaining()
    {
      var r, h, t, n := range, head, tail, len;
      var mid := At(index);
      SplitInv(r, h, t, n, index, mid);
      left := new IterState(r, h, mid, index);
      right := new IterState(r, mid, t, n - index);
    }
  }

  /**
   * The source's `split_at` example: a fresh state on `(0, 3, 8) .. (4, 5, 12)`
   * split at 3, and its right half split again at 15. Each piece holds the
   * number of points its `len` says, and the cuts are `(0, 3, 11)` and
   * `(2, 3, 10)`.
   */
  method SplitAtExampleRun() returns (left: IterState, right: IterState, left2: IterState, right2: IterState)
    ensures left.Valid() && right.Valid() && left2.Valid() && right2.Valid()
    ensures left.len == 3 && |left.Remaining()| == 3 && left.head == [0, 3, 8] && left.tail == [0, 3, 11]
    ensures right.len == 29 && |right.Remaining()| == 29 && right.head == [0, 3, 11] && right.tail == [4, 3, 8]
    ensures left2.len == 15 && |left2.Remaining()| == 15 && left2.head == [0, 3, 11] && left2.tail == [2, 3, 10]
    ensures right2.len == 14 && |right2.Remaining()| == 14 && right2.head == [2, 3, 10] && right2.tail == [4, 3, 8]
  {
    left, right := SplitAtExampleFirstSplit();
    left2, right2 := SplitAtExampleSecondSplit(right);
  }

  /** The first `split_at` of the example: at 3, from a fresh state. */
  method SplitAtExampleFirstSplit() returns (left: IterState, right: IterState)
    ensures left.Valid() && right.Valid() && right.range == New([0, 3, 8], [4, 5, 12])
    ensures left.len == 3 && |left.Remaining()| == 3 && left.head == [0, 3, 8] && left.tail == [0, 3, 11]
    ensures right.len == 29 && |right.Remaining()| == 29 && right.head == [0, 3, 11] && right.tail == [4, 3, 8]
  {
    var r := New([0, 3, 8], [4, 5, 12]);
    SplitAtExampleBox();
    SplitAtExampleFirstCut();
    var state := new IterState.FromRange(r);
    left, right := state.SplitAt(3);
  }

  /** The second `split_at` of the example: at 15, from the right half of the first. */
  method SplitAtExampleSecondSplit(state: IterState) returns (left: IterState, right: IterState)
    requires state.Valid() && state.range == New([0, 3, 8], [4, 5, 12])
    requires state.head == [0, 3, 11] && state.tail == [4, 3, 8] && state.len == 29
    ensures left.Valid() && right.Valid()
    ensures left.len == 15 && |left.Remaining()| == 15 && left.head == [0, 3, 11] && left.tail == [2, 3, 10]
    ensures right.len == 14 && |right.Remaining()| == 14 && right.head == [2, 3, 10] && right.tail == [4, 3, 8]
  {
    SplitAtExampleFirstCut();
    SplitAtExampleSecondCut();
    left, right := state.SplitAt(15);
  }

}
