/**
 * The sequential iterator (src/iter/sequential.rs): a wrapper around one
 * iteration state that yields `head` from the front and the position before
 * `tail` from the back, until `len` reaches 0.
 *
 * What one call yields and leaves is stated through `Take`, and what a whole
 * series of front and back calls yields through `Drain`; the lemmas below say
 * what those produce.
 */
module Sequential {
  import opened Arith
  import opened Types
  import opened RowMajor
  import opened State

  datatype Option<T> = None | Some(value: T)

  /** Which end a call consumes: `next` or `next_back`. */
  datatype End = Front | Back

  // ---------------------------------------------------------------------------
  // Consuming a run of positions from either end, on values
  // ---------------------------------------------------------------------------

  /**
   * One call on the remaining positions `w`: nothing when `w` is empty,
   * otherwise its first (front) or last (back) element, which is removed.
   */
  function Take(w: seq<Coord>, e: End): (res: (Option<Coord>, seq<Coord>))
    ensures res.0.None? <==> |w| == 0
    ensures res.0.None? ==> res.1 == w
    ensures res.0.Some? ==> |res.1| == |w| - 1
    ensures res.0.Some? && e == Front ==> res.0.value == w[0] && w == [w[0]] + res.1
    ensures res.0.Some? && e == Back ==> res.0.value == w[|w| - 1] && w == res.1 + [w[|w| - 1]]
  {
    if |w| == 0 then (None, w)
    else if e == Front then (Some(w[0]), w[1..])
    else (Some(w[|w| - 1]), w[..|w| - 1])
  }

  /** The items a series of calls yields from `w`, and what remains after them. */
  function Drain(w: seq<Coord>, ends: seq<End>): (res: (seq<Option<Coord>>, seq<Coord>))
    ensures |res.0| == |ends|
    decreases |ends|
  {
    if |ends| == 0 then ([], w)
    else
      var before := Drain(w, ends[..|ends| - 1]);
      var step := Take(before.1, ends[|ends| - 1]);
      (before.0 + [step.0], step.1)
  }

  /** `k` calls at the same end. */
  function Repeat(e: End, k: nat): (ends: seq<End>)
    ensures |ends| == k && forall i :: 0 <= i < k ==> ends[i] == e
  {
    seq(k, _ => e)
  }

  /** How many of the calls took a position from the front. */
  function FrontsTaken(w: seq<Coord>, ends: seq<End>): nat
    decreases |ends|
  {
    if |ends| == 0 then 0
    else
      var before := Drain(w, ends[..|ends| - 1]);
      FrontsTaken(w, ends[..|ends| - 1])
        + (if ends[|ends| - 1] == Front && |before.1| > 0 then 1 else 0)
  }

  /** The positions among a series of items, in order. */
  function Produced(items: seq<Option<Coord>>): (p: seq<Coord>)
    ensures |p| <= |items|
  {
    if |items| == 0 then []
    else Produced(items[..|items| - 1]) + (if items[|items| - 1].Some? then [items[|items| - 1].value] else [])
  }

  /**
   * Whatever the order of front and back calls, the positions produced and
   * the positions remaining are, together, the positions there were: none is
   * produced twice and none is lost.
   */
  lemma {:induction false} DrainPartition(w: seq<Coord>, ends: seq<End>)
    ensures multiset(Produced(Drain(w, ends).0)) + multiset(Drain(w, ends).1) == multiset(w)
    ensures |Produced(Drain(w, ends).0)| + |Drain(w, ends).1| == |w|
    decreases |ends|
  {
    if |ends| > 0 {
      var init := ends[..|ends| - 1];
      var before := Drain(w, init);
      DrainPartition(w, init);
      var step := Take(before.1, ends[|ends| - 1]);
      var items := before.0 + [step.0];
      assert Drain(w, ends) == (items, step.1);
      assert items[..|items| - 1] == before.0;
      if step.0.Some? {
        assert Produced(items) == Produced(before.0) + [step.0.value];
      } else {
        assert Produced(items) == Produced(before.0);
      }
    }
  }

  /**
   * What remains is the contiguous part of `w` that follows the positions
   * taken from the front.
   */
  lemma {:induction false} DrainContiguous(w: seq<Coord>, ends: seq<End>)
    ensures FrontsTaken(w, ends) + |Drain(w, ends).1| <= |w|
    ensures Drain(w, ends).1 == w[FrontsTaken(w, ends)..FrontsTaken(w, ends) + |Drain(w, ends).1|]
    decreases |ends|
  {
    if |ends| > 0 {
      var init := ends[..|ends| - 1];
      var before := Drain(w, init);
      DrainContiguous(w, init);
      TakeContiguous(w, FrontsTaken(w, init), before.1, ends[|ends| - 1]);
      assert Drain(w, ends).1 == Take(before.1, ends[|ends| - 1]).1;
    }
  }

  /** One call on a contiguous piece of `w` leaves a contiguous piece, one further on after a front call. */
  lemma TakeContiguous(w: seq<Coord>, a: nat, rest: seq<Coord>, e: End)
    requires a + |rest| <= |w| && rest == w[a..a + |rest|]
    ensures var b := if e == Front && |rest| > 0 then a + 1 else a;
      b + |Take(rest, e).1| <= |w| && Take(rest, e).1 == w[b..b + |Take(rest, e).1|]
  {
    if |rest| > 0 {
      if e == Front {
        assert rest[1..] == w[a + 1..a + |rest|];
      } else {
        assert rest[..|rest| - 1] == w[a..a + |rest| - 1];
      }
    }
  }

  /** Once there are at least as many calls as positions, nothing remains. */
  lemma DrainExhausts(w: seq<Coord>, ends: seq<End>)
    requires |ends| >= |w|
    ensures Drain(w, ends).1 == []
    ensures multiset(Produced(Drain(w, ends).0)) == multiset(w)
  {
    DrainNoneOnlyWhenEmpty(w, ends);
    DrainPartition(w, ends);
  }

  /** A call yields nothing only once nothing remains. */
  lemma {:induction false} DrainNoneOnlyWhenEmpty(w: seq<Coord>, ends: seq<End>)
    ensures |Drain(w, ends).1| == if |ends| <= |w| then |w| - |ends| else 0
    ensures forall k :: 0 <= k < |ends| ==> (Drain(w, ends).0[k].None? <==> k >= |w|)
    decreases |ends|
  {
    if |ends| > 0 {
      var init := ends[..|ends| - 1];
      DrainNoneOnlyWhenEmpty(w, init);
      var before := Drain(w, init);
      assert Drain(w, ends).0 == before.0 + [Take(before.1, ends[|ends| - 1]).0];
    }
  }

  /**
   * `k` front calls yield the first `k` positions in order and leave the rest;
   * calls beyond the last position yield nothing.
   */
  lemma {:induction false} DrainFront(w: seq<Coord>, k: nat)
    ensures Drain(w, Repeat(Front, k)).1 == w[if k <= |w| then k else |w|..]
    ensures forall i :: 0 <= i < k ==> Drain(w, Repeat(Front, k)).0[i] == if i < |w| then Some(w[i]) else None
  {
    if k > 0 {
      var ends := Repeat(Front, k);
      assert ends[..k - 1] == Repeat(Front, k - 1);
      DrainFront(w, k - 1);
      var before := Drain(w, Repeat(Front, k - 1));
      var step := Take(before.1, Front);
      assert Drain(w, ends) == (before.0 + [step.0], step.1);
    }
  }

  /**
   * `k` back calls yield the last `k` positions, last first, and leave the
   * rest; calls beyond the first position yield nothing.
   */
  lemma {:induction false} DrainBack(w: seq<Coord>, k: nat)
    ensures Drain(w, Repeat(Back, k)).1 == w[..if k <= |w| then |w| - k else 0]
    ensures forall i :: 0 <= i < k ==> Drain(w, Repeat(Back, k)).0[i] == if i < |w| then Some(w[|w| - 1 - i]) else None
  {
    if k > 0 {
      var ends := Repeat(Back, k);
      assert ends[..k - 1] == Repeat(Back, k - 1);
      DrainBack(w, k - 1);
      var before := Drain(w, Repeat(Back, k - 1));
      var step := Take(before.1, Back);
      assert Drain(w, ends) == (before.0 + [step.0], step.1);
    }
  }

  /** On the box `(7, 1) .. (9, 4)`, position `p` is `(7 + p / 3, 1 + p % 3)`. */
  lemma PosExample(p: nat)
    requires p < 6
    ensures NonEmpty(New([7, 1], [9, 4]))
    ensures Pos(New([7, 1], [9, 4]), p) == [7 + p / 3, 1 + p % 3]
  {
    var r := New([7, 1], [9, 4]);
    assert Extent(r, 0) == 2 && Extent(r, 1) == 3;
    PosRank2(r, p);
    QuotRemBuiltin(p, 3);
    QuotRemBuiltin(p / 3, 2);
  }

  /** The box of the source's `len` examples, `(7, 1) .. (9, 4)`, in row-major order. */
  lemma EnumerateExample()
    ensures Bounded(New([7, 1], [9, 4]))
    ensures Enumerate(New([7, 1], [9, 4])) == [[7, 1], [7, 2], [7, 3], [8, 1], [8, 2], [8, 3]]
  {
    var r := New([7, 1], [9, 4]);
    assert Len(r) == 6 && Extent(r, 0) == 2 && Extent(r, 1) == 3;
    LinStart(r);
    var w := Enumerate(r);
    forall k | 0 <= k < 6
      ensures w[k] == [7 + k / 3, 1 + k % 3]
    {
      PosExample(k);
    }
  }

  /** On the box `(1, 2, 3) .. (5, 4, 6)`, position `p` is `(1 + p / 6, 2 + p / 3 % 2, 3 + p % 3)`. */
  lemma PosExampleRank3(p: nat)
    requires p < 24
    ensures NonEmpty(New([1, 2, 3], [5, 4, 6]))
    ensures Pos(New([1, 2, 3], [5, 4, 6]), p) == [1 + p / 6, 2 + p / 3 % 2, 3 + p % 3]
  {
    var r := New([1, 2, 3], [5, 4, 6]);
    assert Extent(r, 0) == 4 && Extent(r, 1) == 2 && Extent(r, 2) == 3;
    PosRank3(r, p);
    QuotRemBuiltin(p, 3);
    QuotRemBuiltin(p / 3, 2);
    QuotRemBuiltin(p / 3 / 2, 4);
    assert p / 3 / 2 == p / 6 < 4;
  }

  /** The 24 positions the source's `into_iter` example lists, in that order. */
  lemma EnumerateExampleRank3()
    ensures Bounded(New([1, 2, 3], [5, 4, 6])) && |Enumerate(New([1, 2, 3], [5, 4, 6]))| == 24
    ensures forall k :: 0 <= k < 24 ==> Enumerate(New([1, 2, 3], [5, 4, 6]))[k] == [1 + k / 6, 2 + k / 3 % 2, 3 + k % 3]
  {
    var r := New([1, 2, 3], [5, 4, 6]);
    assert Len(r) == 24 && Extent(r, 0) == 4 && Extent(r, 1) == 2 && Extent(r, 2) == 3;
    LinStart(r);
    var w := Enumerate(r);
    forall k | 0 <= k < 24
      ensures w[k] == [1 + k / 6, 2 + k / 3 % 2, 3 + k % 3]
    {
      PosExampleRank3(k);
    }
  }

  /**
   * The source's `len` example: nine `next` calls on `(7, 1) .. (9, 4)` yield
   * its six positions in row-major order, then nothing.
   */
  lemma FrontCallsExample()
    ensures Bounded(New([7, 1], [9, 4]))
    ensures Drain(Enumerate(New([7, 1], [9, 4])), Repeat(Front, 9)).0
      == [Some([7, 1]), Some([7, 2]), Some([7, 3]), Some([8, 1]), Some([8, 2]), Some([8, 3]), None, None, None]
  {
    EnumerateExample();
    DrainFront(Enumerate(New([7, 1], [9, 4])), 9);
  }

  /**
   * The source's `into_iter_rev` example: 24 `next_back` calls on
   * `(1, 2, 3) .. (5, 4, 6)` yield its positions in reverse row-major order.
   */
  lemma BackCallsExample()
    ensures Bounded(New([1, 2, 3], [5, 4, 6]))
    ensures forall i :: 0 <= i < 24 ==>
              Drain(Enumerate(New([1, 2, 3], [5, 4, 6])), Repeat(Back, 24)).0[i]
                == Some([1 + (23 - i) / 6, 2 + (23 - i) / 3 % 2, 3 + (23 - i) % 3])
  {
    var w := Enumerate(New([1, 2, 3], [5, 4, 6]));
    EnumerateExampleRank3();
    DrainBack(w, 24);
    forall i | 0 <= i < 24
      ensures Drain(w, Repeat(Back, 24)).0[i] == Some([1 + (23 - i) / 6, 2 + (23 - i) / 3 % 2, 3 + (23 - i) % 3])
    {
      assert w[23 - i] == [1 + (23 - i) / 6, 2 + (23 - i) / 3 % 2, 3 + (23 - i) % 3];
    }
  }

  /** On the box `(0, 1) .. (2, 3)`, position `p` is `(p / 2, 1 + p % 2)`. */
  lemma PosExampleZeroStart(p: nat)
    requires p < 4
    ensures NonEmpty(New([0, 1], [2, 3]))
    ensures Pos(New([0, 1], [2, 3]), p) == [p / 2, 1 + p % 2]
  {
    var r := New([0, 1], [2, 3]);
    assert Extent(r, 0) == 2 && Extent(r, 1) == 2;
    PosRank2(r, p);
    QuotRemBuiltin(p, 2);
    QuotRemBuiltin(p / 2, 2);
  }

  /** The box `(0, 1) .. (2, 3)`, whose axis 0 starts at 0, in row-major order. */
  lemma EnumerateExampleZeroStart()
    ensures Bounded(New([0, 1], [2, 3]))
    ensures Enumerate(New([0, 1], [2, 3])) == [[0, 1], [0, 2], [1, 1], [1, 2]]
  {
    var r := New([0, 1], [2, 3]);
    assert Len(r) == 4 && Extent(r, 0) == 2 && Extent(r, 1) == 2;
    LinStart(r);
    var w := Enumerate(r);
    forall k | 0 <= k < 4
      ensures w[k] == [k / 2, 1 + k % 2]
    {
      PosExampleZeroStart(k);
    }
  }

  /** One more call after a series: `Drain` unfolded once. */
  lemma DrainSnoc(w: seq<Coord>, ends: seq<End>, e: End)
    ensures Drain(w, ends + [e]) == (Drain(w, ends).0 + [Take(Drain(w, ends).1, e).0], Take(Drain(w, ends).1, e).1)
  {
    assert (ends + [e])[..|ends|] == ends;
  }

  /** `DrainSnoc` from a known state of the series. */
  lemma DrainStep(w: seq<Coord>, ends: seq<End>, e: End, items: seq<Option<Coord>>, rest: seq<Coord>, longer: seq<End>)
    requires Drain(w, ends).0 == items && Drain(w, ends).1 == rest && longer == ends + [e]
    ensures Drain(w, longer).0 == items + [Take(rest, e).0] && Drain(w, longer).1 == Take(rest, e).1
  {
    DrainSnoc(w, ends, e);
  }

  /** The first three calls of that series: back, back, front. */
  lemma MixedEndsFirstThree(w: seq<Coord>)
    requires |w| == 6
    ensures Drain(w, [Back, Back, Front]).0
      == [Some(w[5]), Some(w[4]), Some(w[0])]
    ensures Drain(w, [Back, Back, Front]).1 == w[1..4]
  {
    DrainStep(w, [], Back, [], w, [Back]);
    assert Take(w, Back).0 == Some(w[5]) && Take(w, Back).1 == w[..5];
    DrainStep(w, [Back], Back, [Some(w[5])], w[..5], [Back, Back]);
    assert Take(w[..5], Back).0 == Some(w[4]) && Take(w[..5], Back).1 == w[..4];
    DrainStep(w, [Back, Back], Front, [Some(w[5]), Some(w[4])], w[..4], [Back, Back, Front]);
    assert Take(w[..4], Front).0 == Some(w[0]) && Take(w[..4], Front).1 == w[1..4];
  }

  /** A fourth call, at the back. */
  lemma MixedEndsFirstFour(w: seq<Coord>)
    requires |w| == 6
    ensures Drain(w, [Back, Back, Front, Back]).0 == [Some(w[5]), Some(w[4]), Some(w[0]), Some(w[3])]
    ensures Drain(w, [Back, Back, Front, Back]).1 == w[1..3]
  {
    MixedEndsFirstThree(w);
    DrainStep(w, [Back, Back, Front], Back, [Some(w[5]), Some(w[4]), Some(w[0])], w[1..4], [Back, Back, Front, Back]);
    assert Take(w[1..4], Back).0 == Some(w[3]) && Take(w[1..4], Back).1 == w[1..3] by {
      assert w[1..3] == w[1..4][..2];
    }
  }

  /** Two more calls, both at the front; every position is now taken. */
  lemma MixedEndsFirstSix(w: seq<Coord>)
    requires |w| == 6
    ensures Drain(w, [Back, Back, Front, Back, Front, Front]).0
      == [Some(w[5]), Some(w[4]), Some(w[0]), Some(w[3]), Some(w[1]), Some(w[2])]
    ensures Drain(w, [Back, Back, Front, Back, Front, Front]).1 == []
  {
    MixedEndsFirstFour(w);
    DrainStep(w, [Back, Back, Front, Back], Front, [Some(w[5]), Some(w[4]), Some(w[0]), Some(w[3])], w[1..3], [Back, Back, Front, Back, Front]);
    assert Take(w[1..3], Front).0 == Some(w[1]) && Take(w[1..3], Front).1 == w[2..3] by {
      assert w[2..3] == w[1..3][1..];
    }
    DrainStep(w, [Back, Back, Front, Back, Front], Front, [Some(w[5]), Some(w[4]), Some(w[0]), Some(w[3]), Some(w[1])], w[2..3], [Back, Back, Front, Back, Front, Front]);
    assert Take(w[2..3], Front).0 == Some(w[2]) && Take(w[2..3], Front).1 == [] by {
      assert |w[2..3]| == 1;
    }
  }

  /**
   * The calls of the source's `len_reverse` example on six positions: back,
   * back, front, back, front, front, then three more front calls. The count
   * left falls from 6 to 0 and stays there.
   */
  lemma MixedEndsOrder(w: seq<Coord>)
    requires |w| == 6
    ensures Drain(w, [Back, Back, Front, Back, Front, Front, Front, Front, Front]).0
      == [Some(w[5]), Some(w[4]), Some(w[0]), Some(w[3]), Some(w[1]), Some(w[2]), None, None, None]
    ensures Drain(w, [Back, Back, Front, Back, Front, Front, Front, Front, Front]).1 == []
  {
    MixedEndsFirstSix(w);
    DrainStep(w, [Back, Back, Front, Back, Front, Front], Front, [Some(w[5]), Some(w[4]), Some(w[0]), Some(w[3]), Some(w[1]), Some(w[2])], [], [Back, Back, Front, Back, Front, Front, Front]);
    assert Take([], Front).0 == None && Take([], Front).1 == [];
    DrainStep(w, [Back, Back, Front, Back, Front, Front, Front], Front, [Some(w[5]), Some(w[4]), Some(w[0]), Some(w[3]), Some(w[1]), Some(w[2]), None], [], [Back, Back, Front, Back, Front, Front, Front, Front]);
    assert Take([], Front).0 == None && Take([], Front).1 == [];
    DrainStep(w, [Back, Back, Front, Back, Front, Front, Front, Front], Front, [Some(w[5]), Some(w[4]), Some(w[0]), Some(w[3]), Some(w[1]), Some(w[2]), None, None], [], [Back, Back, Front, Back, Front, Front, Front, Front, Front]);
    assert Take([], Front).0 == None && Take([], Front).1 == [];
  }

  /** That example on the box `(7, 1) .. (9, 4)`, as the source spells it out. */
  lemma MixedEndsExample()
    ensures Bounded(New([7, 1], [9, 4]))
    ensures Drain(Enumerate(New([7, 1], [9, 4])), [Back, Back, Front, Back, Front, Front, Front, Front, Front]).0
      == [Some([8, 3]), Some([8, 2]), Some([7, 1]), Some([8, 1]), Some([7, 2]), Some([7, 3]), None, None, None]
  {
    EnumerateExample();
    MixedEndsOrder(Enumerate(New([7, 1], [9, 4])));
  }

  // ---------------------------------------------------------------------------
  // The iterator
  // ---------------------------------------------------------------------------

  class IntoIter {
    const state: IterState

    ghost predicate Valid()
      reads this, state
    {
      state.Valid()
    }

    /** The positions still to be yielded, front first. */
    ghost function Remaining(): (w: seq<Coord>)
      reads this, state
      requires Valid()
      ensures |w| == state.len
    {
      state.Remaining()
    }

    /** `into_iter_from_state`: an iterator over the given state. */
    constructor FromState(state: IterState)
      ensures this.state == state
    {
      this.state := state;
    }

    /** `into_iter`: an iterator over every position of the range, in row-major order. */
    constructor (range: NdRange)
      requires Bounded(range) && Rank(range) >= 1
      ensures fresh(state) && state.range == range
      ensures state.head == range.start && state.tail == Sentinel(range) && state.len == Types.Len(range)
      ensures Valid() && Remaining() == Enumerate(range)
    {
      state := new IterState.FromRange(range);
    }

    /** `next`: the front position, or nothing once `len` is 0. */
    method Next() returns (item: Option<Coord>)
      requires Valid()
      modifies state
      ensures Valid()
      ensures (item, Remaining()) == Take(old(Remaining()), Front)
      ensures item.Some? ==> item.value == old(state.head)
      ensures state.tail == old(state.tail)
      ensures item.None? ==> unchanged(state)
    {
      if state.len == 0 {
        return None;
      }
      WindowHead(state.range, state.head, state.len);
      var value := state.head;
      state.Increment();
      item := Some(value);
    }

    /**
     * `next_back`, as written: the back position, or nothing once `len` is 0.
     * Its step of `tail` must be free of underflow.
     */
    method NextBack() returns (item: Option<Coord>)
      requires Valid()
      requires state.len > 0 ==> BorrowSafe(state.range, state.tail)
      modifies state
      ensures Valid()
      ensures (item, Remaining()) == Take(old(Remaining()), Back)
      ensures item.Some? ==> item.value == state.tail && state.head == old(state.head)
      ensures item.None? ==> unchanged(state)
    {
      if state.len == 0 {
        return None;
      }
      state.IncrementBack();
      item := Some(state.tail);
    }

    /** `next_back` over the underflow-free step, for every valid state. */
    method NextBackChecked() returns (item: Option<Coord>)
      requires Valid()
      modifies state
      ensures Valid()
      ensures (item, Remaining()) == Take(old(Remaining()), Back)
      ensures item.Some? ==> item.value == state.tail && state.head == old(state.head)
      ensures item.None? ==> unchanged(state)
    {
      if state.len == 0 {
        return None;
      }
      state.IncrementBackChecked();
      item := Some(state.tail);
    }

    /** `len`: the number of positions still to be yielded. */
    method Len() returns (n: nat)
      ensures Valid() ==> n == |Remaining()|
    {
      n := state.len;
    }

    /** `size_hint`: the exact count, as both bounds. */
    method SizeHint() returns (lower: nat, upper: Option<nat>)
      ensures upper == Some(lower)
      ensures Valid() ==> lower == |Remaining()|
    {
      lower := state.len;
      upper := Some(lower);
    }
  }

  /**
   * A series of `next` and `next_back` calls on one iterator yields what
   * `Drain` says.
   */
  method Drive(it: IntoIter, ends: seq<End>) returns (items: seq<Option<Coord>>)
    requires it.Valid()
    modifies it.state
    ensures it.Valid()
    ensures (items, it.Remaining()) == Drain(old(it.Remaining()), ends)
  {
    ghost var w := it.Remaining();
    items := [];
    for i := 0 to |ends|
      invariant it.Valid()
      invariant (items, it.Remaining()) == Drain(w, ends[..i])
    {
      assert ends[..i + 1][..i] == ends[..i];
      var item;
      if ends[i] == Front {
        item := it.Next();
      } else {
        item := it.NextBackChecked();
      }
      items := items + [item];
    }
    assert ends[..|ends|] == ends;
  }

  /**
   * A series of `next` and the as-written `next_back` calls yields what
   * `Drain` says, from an iterator that, while positions remain, has no axis
   * after the first starting at 0 and a tail other than `start` (as every
   * fresh one on such a range, and every empty one): then no backward step
   * underflows.
   */
  method DriveAsWritten(it: IntoIter, ends: seq<End>) returns (items: seq<Option<Coord>>)
    requires it.Valid()
    requires it.state.len > 0 ==> LaterStartsPositive(it.state.range)
    requires it.state.len > 0 ==> it.state.tail != it.state.range.start
    modifies it.state
    ensures it.Valid()
    ensures (items, it.Remaining()) == Drain(old(it.Remaining()), ends)
  {
    ghost var w := it.Remaining();
    items := [];
    for i := 0 to |ends|
      invariant it.Valid() && it.state.len <= old(it.state.len)
      invariant it.state.len > 0 ==> LaterStartsPositive(it.state.range)
      invariant it.state.len > 0 ==> it.state.tail != it.state.range.start
      invariant (items, it.Remaining()) == Drain(w, ends[..i])
    {
      assert ends[..i + 1][..i] == ends[..i];
      var item;
      if ends[i] == Front {
        item := it.Next();
      } else {
        ghost var before := it.Remaining();
        if it.state.len > 0 {
          NonStartBorrowSafe(it.state.range, it.state.tail);
          if it.state.len > 1 {
            LastRemainingNotStart(it.state.range, it.state.head, it.state.tail, it.state.len);
          }
        }
        item := it.NextBack();
        assert |before| > 1 ==> it.state.tail == before[|before| - 1] != it.state.range.start;
      }
      items := items + [item];
    }
    assert ends[..|ends|] == ends;
  }

  /**
   * The source's `into_iter_rev` example run on the iterator: 24 as-written
   * `next_back` calls on `(1, 2, 3) .. (5, 4, 6)` yield its points in reverse
   * row-major order.
   */
  method BackCallsRun() returns (items: seq<Option<Coord>>)
    ensures |items| == 24
    ensures forall i :: 0 <= i < 24 ==> items[i] == Some([1 + (23 - i) / 6, 2 + (23 - i) / 3 % 2, 3 + (23 - i) % 3])
  {
    var r := New([1, 2, 3], [5, 4, 6]);
    var it := new IntoIter(r);
    BackCallsExample();
    items := DriveAsWritten(it, Repeat(Back, 24));
  }

  /**
   * The source's `len_reverse` example run on the iterator: the nine
   * interleaved `next` and as-written `next_back` calls on `(7, 1) .. (9, 4)`.
   */
  method MixedEndsRun() returns (items: seq<Option<Coord>>)
    ensures items == [Some([8, 3]), Some([8, 2]), Some([7, 1]), Some([8, 1]), Some([7, 2]), Some([7, 3]), None, None, None]
  {
    var r := New([7, 1], [9, 4]);
    var it := new IntoIter(r);
    MixedEndsExample();
    items := DriveAsWritten(it, [Back, Back, Front, Back, Front, Front, Front, Front, Front]);
  }

  /**
   * Five as-written `next_back` calls on `(0, 1) .. (2, 3)`, whose axis 0
   * starts at 0: the tail walks back through `(1, 2)`, `(1, 1)`, `(0, 2)` and
   * `(0, 1)` without an axis at 0 being lowered, and the fifth call yields
   * nothing.
   */
  method ZeroStartBackRun() returns (items: seq<Option<Coord>>)
    ensures items == [Some([1, 2]), Some([1, 1]), Some([0, 2]), Some([0, 1]), None]
  {
    var r := New([0, 1], [2, 3]);
    var it := new IntoIter(r);
    EnumerateExampleZeroStart();
    DrainBack(Enumerate(r), 5);
    items := DriveAsWritten(it, Repeat(Back, 5));
  }

  /**
   * One as-written `next_back` call on the empty box `(0, 0) .. (2, 0)`:
   * `len` is 0, so the call yields nothing before any step could underflow.
   */
  method EmptyBackRun() returns (items: seq<Option<Coord>>)
    ensures items == [None]
  {
    var r := New([0, 0], [2, 0]);
    assert Len(r) == 0 by {
      assert Extent(r, 1) == 0;
      ExtentProductPositive(r, 2);
    }
    var it := new IntoIter(r);
    items := DriveAsWritten(it, [Back]);
  }
}
