# rust-ndrange in Dafny

A model of the iteration engine of `rust-ndrange`. The crate iterates over the
integer points of an N-dimensional half-open box `start .. end`, one point per
call, in row-major order: axis 0 varies slowest and the last axis fastest. It
can iterate from both ends and can cut the remaining points into two pieces.

The model has five modules:

- `Arith` (`arith.dfy`): multiplication, quotient and remainder as recursive
  functions that only add and subtract, tied to `*`, `/` and `%`.
- `Types` (`types.dfy`): the `NdRange` value (src/types.rs). A coordinate is a
  `seq<nat>`, with one entry per axis. `Len` is the product of the extents.
- `RowMajor` (`rowmajor.dfy`): the reference numbering of the points.
  - `Lin` reads a coordinate as a mixed-radix number with axis 0 most
    significant. Axis 0 is unbounded, so that the one-past-the-end marker has
    number `Len`.
  - `Pos` decomposes a number the way `at` does. Every axis is reduced modulo
    its extent, so numbers wrap around modulo `Len`.
  - `Succ` and `Pred` are the row-major successor and predecessor.
  - `Window(r, h, n)` is the run of `n` points that starts at `h`.
  - `Enumerate` is every point of the box.
- `State` (`state.dfy`): `IterState`, a class with a `range` field and the
  mutable `head`, `tail` and `len` fields (src/iter/state.rs).
  - The odometer loops of `increment`, `increment_back` and `at` are methods
    with loop invariants. Each is proved equal to `Succ`, `Pred` or `Pos`.
  - `Inv` is the invariant every state satisfies. While `len > 0`, the
    remaining points are the `len` points starting at `head`. `tail` is the
    point right after them, or `start` when they run exactly to the end of
    the box. The second case arises from `split_at(len)`, because `at` wraps
    around.
- `Sequential` (`sequential.dfy`): `IntoIter`, the double-ended, exact-size
  iterator over one `IterState` (src/iter/sequential.rs).
  - `Take` is what one `next` or `next_back` call returns and leaves.
  - `Drain` is what a whole series of such calls yields.

The methods are specified by the remaining sequence:

- `Remaining()` is `Window(range, head, len)`.
- `Next` and `NextBack` return the front or back element of that sequence and
  remove it.
- `SplitAt` cuts it into two sequences whose concatenation is the original.

## Model

| member | source | states |
|---|---|---|
| Types.New | src/types.rs:12-16 | the range keeps `start` and `end` exactly as given; both have the same rank |
| Types.Len | src/types.rs:18-20 | the number of points is positive exactly when every axis has `start < end` |
| Types.ExtentProductPositive | src/types.rs:18-20 | the product of the first `k` extents is non-zero exactly when none of those axes is empty |
| Types.LenRank3 | src/types.rs:18-20 | for rank 3, the length is the product of the three extents `end[i] - start[i]` |
| Types.LenExamplesUnit | src/types.rs:36-39 | the unit-test lengths 1, 5, 5 and 5 of boxes with at most one non-unit axis |
| Types.LenExamplesOffset | src/types.rs:40-42 | the unit-test lengths 8, 5·4·3 and 2·9·33 of boxes not anchored at the origin |
| RowMajor.PosRank3 | src/iter/state.rs:58-64 | for rank 3, the axes `at` computes are the mixed-radix digits of the offset, each reduced modulo its extent |
| RowMajor.LinPos | src/iter/state.rs:54-67 | the position `at` gives for number `p` lies in the box and reads back as `p mod Len` |
| RowMajor.PosLin | src/iter/state.rs:54-67 | every point of the box has a number below `Len`, and decomposing that number gives the point back |
| RowMajor.PosPeriodic | src/iter/state.rs:62 | numbers that differ by a multiple of `Len` give the same position, because axis 0 is reduced too |
| RowMajor.LinSentinel | src/iter/state.rs:42-44 | the tail `from_range` builds, `start` with `end[0]` on axis 0, has number exactly `Len` (one past the last point) |
| RowMajor.SuccCarry | src/iter/state.rs:18-24 | if axis `k` can still grow and every later axis is at its last value, the successor adds one to axis `k` and resets every later axis to `start` |
| RowMajor.SuccWrap | src/iter/state.rs:23 | from the last point the successor is `start`, because the reset also applies to axis 0 |
| RowMajor.SuccPos | src/iter/state.rs:14-24 | the successor of the point numbered `x` is the point numbered `x + 1` |
| RowMajor.PredBorrow | src/iter/state.rs:32-38 | if axis `k` is above `start` and every later axis is at `start`, the predecessor lowers axis `k` by one and sets every later axis to `end - 1` |
| RowMajor.PredSentinel | src/iter/state.rs:28-44 | from the initial tail, the first backward step reaches `(end[0]-1, …, end[n-1]-1)` |
| RowMajor.PredWrap | src/iter/state.rs:32-38 | from `start` the predecessor is the last point |
| RowMajor.RowMajorOrder | src/iter/sequential.rs:64-76 | one point has a smaller number than another exactly when it comes first lexicographically, axis 0 deciding first |
| RowMajor.EnumerateRowMajor | src/iter/sequential.rs:19-23 | iterating a fresh range visits `Len` points, all in the box, in strictly increasing lexicographic order, and every point of the box among them |
| RowMajor.StepsIsPos | src/iter/state.rs:54-67 | `k` calls of `increment` from a point reach the point `at(k)` computes (numbered `Lin + k`, wrapping) |
| RowMajor.WindowSplit | src/iter/state.rs:69-84 | the run of `n` points from `h` is its first `i` points followed by the `n - i` points from `at(i)` |
| RowMajor.WindowSucc | src/iter/state.rs:14-26 | dropping the first point of a run leaves the run that starts at the successor |
| State.FromRangeInv | src/iter/state.rs:42-52 | the initial state satisfies the invariant, and its remaining points are every point of the box in row-major order |
| State.SuccInv | src/iter/state.rs:14-26 | stepping `head` and decrementing `len` keeps the invariant and drops exactly the first remaining point |
| State.PredInv | src/iter/state.rs:28-40 | stepping `tail` back and decrementing `len` keeps the invariant; the new tail is the last remaining point, which is dropped |
| State.SplitInv | src/iter/state.rs:69-84 | both halves of a split satisfy the invariant, and their remaining points together are the original ones in order |
| State.SentinelBorrowSafe | src/iter/state.rs:33 | the first backward step from the initial tail avoids underflow exactly when no axis after axis 0 starts at 0 |
| State.PositiveStartsBorrowSafe | src/iter/state.rs:33 | on a box where no axis starts at 0, every backward step is free of underflow |
| State.NonStartBorrowSafe | src/iter/state.rs:32-38 | on a box where no axis after the first starts at 0, a backward step from any tail other than `start` is free of underflow |
| State.LastRemainingNotStart | src/iter/state.rs:28-40 | while more than one point remains, the point `increment_back` moves the tail to is not `start` |
| State.BackUnderflowExample | src/iter/state.rs:33 | on `(0, 0) .. (2, 2)`, the first backward step subtracts one from a 0, although the intended result `(1, 1)` exists |
| State.SplitAtExampleBox | src/iter/state.rs:129-132 | the split example box has 32 points and initial tail `(4, 3, 8)` |
| State.SplitAtExampleFirstCut | src/iter/state.rs:135-143 | its first cut, `at(3)` from `start`, is `(0, 3, 11)`, which is point number 3 |
| State.SplitAtExampleSecondCut | src/iter/state.rs:145-153 | its second cut, 15 points further, is `(2, 3, 10)` |
| State.SplitAtExampleFirstSplit | src/iter/state.rs:129-143 | splitting the fresh state at 3 gives valid pieces of 3 and 29 points, cut at `(0, 3, 11)` |
| State.SplitAtExampleSecondSplit | src/iter/state.rs:145-153 | splitting that right piece at 15 gives valid pieces of 15 and 14 points, cut at `(2, 3, 10)` |
| State.SplitAtExampleRun | src/iter/state.rs:128-154 | splitting a fresh state on `(0, 3, 8) .. (4, 5, 12)` at 3, then its right half at 15, gives pieces of 3, 29, 15 and 14 points (their `len` and the length of their remaining runs), with the heads and tails the test expects |
| State.AtExample | src/iter/state.rs:97-109 | on `(2, 2, 1) .. (5, 3, 5)`, `at(p)` from `start` is `(2 + p / 4, 2, 1 + p % 4)` for all 12 points |
| State.AtExampleMovedHead | src/iter/state.rs:111-120 | with `head` moved to `(3, 2, 2)`, `at(k)` is `(2 + (5 + k) / 4, 2, 1 + (5 + k) % 4)` for `k < 6` |
| State.Step | src/iter/state.rs:15-24 | the loop of `increment` turns a point of the box into its row-major successor |
| State.StepBack | src/iter/state.rs:29-38 | the loop of `increment_back` as written turns a point, or the one-past-the-end marker, into its predecessor, provided no axis it reaches is 0 |
| State.StepBackChecked | src/iter/state.rs:29-38 | the same loop with the comparison made before the subtraction gives the predecessor for every point and for the marker |
| State.OffsetLoopDecompose | src/iter/state.rs:58-64 | what the loop of `at` leaves in the first `i` axes is the mixed-radix decomposition of the offset |
| State.Offset | src/iter/state.rs:54-67 | the loop of `at` returns the position `index` steps after `head` in row-major order, wrapping modulo `Len` |
| State.IterState.constructor | src/iter/state.rs:71-82 | a state built from fields that satisfy the invariant is valid, and its remaining points are the `len` points after `head` |
| State.IterState.FromRange | src/iter/state.rs:42-52 | `head = start`, `tail = start` with `end[0]` on axis 0, `len = Len`, and every point of the box remains in row-major order |
| State.IterState.Increment | src/iter/state.rs:14-26 | `head` becomes its successor, `len` drops by one, `tail` is unchanged, the state stays valid, and the first remaining point is dropped |
| State.IterState.IncrementBack | src/iter/state.rs:28-40 | `tail` becomes its predecessor, which is the last remaining point; `len` drops by one, `head` is unchanged, and that point is dropped |
| State.IterState.IncrementBackChecked | src/iter/state.rs:28-40 | the same as `IncrementBack`, for every valid state with `len > 0` |
| State.IterState.At | src/iter/state.rs:54-67 | `at(index)` leaves the state unchanged and returns the point `index` increments from `head` reach, which for index 0 is `head` |
| State.IterState.SplitAt | src/iter/state.rs:69-84 | left is `(head, at(index), index)` and right is `(at(index), tail, len - index)`; both are valid, and left's points followed by right's are the original ones |
| Sequential.Take | src/iter/sequential.rs:29-56 | one call yields nothing exactly when nothing remains; otherwise it yields the front (or back) point and leaves the others |
| Sequential.DrainPartition | src/iter/sequential.rs:26-57 | in any series of front and back calls, the points yielded and the points left are together exactly the points there were, with none repeated or lost |
| Sequential.DrainContiguous | src/iter/sequential.rs:26-57 | what is left after a series of calls is a contiguous piece of the original sequence |
| Sequential.DrainExhausts | src/iter/sequential.rs:26-57 | after as many calls as there were points, nothing is left and every point was yielded once |
| Sequential.DrainNoneOnlyWhenEmpty | src/iter/sequential.rs:30 | the count left falls by one per call down to 0, and a call yields nothing exactly when it comes after the last point |
| Sequential.DrainFront | src/iter/sequential.rs:29-36 | `k` `next` calls yield the first `k` points in order, then nothing |
| Sequential.DrainBack | src/iter/sequential.rs:52-56 | `k` `next_back` calls yield the last `k` points, last first, so backward traversal is the reverse of forward traversal |
| Sequential.PosExample | src/iter/sequential.rs:95-113 | on `(7, 1) .. (9, 4)`, point number `p` is `(7 + p / 3, 1 + p % 3)` |
| Sequential.EnumerateExample | src/iter/sequential.rs:93-123 | the points of `(7, 1) .. (9, 4)` are `(7,1), (7,2), (7,3), (8,1), (8,2), (8,3)` in that order |
| Sequential.PosExampleRank3 | src/iter/sequential.rs:64-76 | on `(1, 2, 3) .. (5, 4, 6)`, point number `p` is `(1 + p / 6, 2 + p / 3 % 2, 3 + p % 3)` |
| Sequential.EnumerateExampleRank3 | src/iter/sequential.rs:64-76 | iterating `(1, 2, 3) .. (5, 4, 6)` forward yields the 24 listed points, last axis fastest |
| Sequential.FrontCallsExample | src/iter/sequential.rs:93-123 | nine `next` calls on `(7, 1) .. (9, 4)` yield its six points in order, then nothing three times |
| Sequential.PosExampleZeroStart | src/iter/state.rs:54-67 | on `(0, 1) .. (2, 3)`, position `p` is `(p / 2, 1 + p % 2)` |
| Sequential.EnumerateExampleZeroStart | src/iter/sequential.rs:19-23 | iterating `(0, 1) .. (2, 3)` forward yields `(0,1), (0,2), (1,1), (1,2)` |
| Sequential.BackCallsExample | src/iter/sequential.rs:78-91 | 24 `next_back` calls on `(1, 2, 3) .. (5, 4, 6)` yield its points in reverse order |
| Sequential.MixedEndsFirstThree | src/iter/sequential.rs:125-136 | back, back, front on six points yield the 6th, 5th and 1st points and leave the 2nd to 4th |
| Sequential.MixedEndsFirstFour | src/iter/sequential.rs:125-139 | a fourth call, at the back, yields the 4th point and leaves the 2nd and 3rd |
| Sequential.MixedEndsFirstSix | src/iter/sequential.rs:125-145 | two more calls, both at the front, yield the 2nd and 3rd points and leave nothing |
| Sequential.MixedEndsOrder | src/iter/sequential.rs:125-155 | the nine interleaved calls of `len_reverse` yield each of the six points once, then nothing |
| Sequential.MixedEndsExample | src/iter/sequential.rs:125-155 | on `(7, 1) .. (9, 4)` those calls yield `(8,3), (8,2), (7,1), (8,1), (7,2), (7,3)`, then nothing three times |
| Sequential.IntoIter.FromState | src/iter/sequential.rs:11-13 | the iterator wraps exactly the given state |
| Sequential.IntoIter.constructor | src/iter/sequential.rs:19-23 | `into_iter` gives a valid iterator whose state has `head` at `start`, the one-past-the-end marker as `tail` and `len` the number of points, and which yields every point of the range in row-major order |
| Sequential.IntoIter.Next | src/iter/sequential.rs:29-36 | `next` returns the front remaining point, which is the old `head`, and removes it, leaving `tail` as it was; with nothing left it returns nothing and changes nothing |
| Sequential.IntoIter.NextBack | src/iter/sequential.rs:52-56 | `next_back` returns the back remaining point, which is the new `tail`, and removes it, leaving `head` as it was; with nothing left it returns nothing and changes nothing |
| Sequential.IntoIter.NextBackChecked | src/iter/sequential.rs:52-56 | the same as `NextBack`, over the underflow-free step, for every valid iterator |
| Sequential.IntoIter.Len | src/iter/sequential.rs:46-48 | `len()` is the number of points still to be yielded |
| Sequential.IntoIter.SizeHint | src/iter/sequential.rs:38-41 | both bounds of `size_hint` are the exact number of points still to be yielded |
| Sequential.Drive | src/iter/sequential.rs:26-57 | a series of `next` and underflow-free `next_back` calls on one iterator yields what `Drain` says and leaves what it says |
| Sequential.DriveAsWritten | src/iter/sequential.rs:26-57 | the same for `next` and the as-written `next_back`, from any iterator that, while points remain, has no axis after the first starting at 0 and `tail` not at `start` (every fresh iterator on such a range, and every empty one) |
| Sequential.BackCallsRun | src/iter/sequential.rs:78-91 | 24 as-written `next_back` calls on a fresh iterator over `(1, 2, 3) .. (5, 4, 6)` return its 24 points in reverse row-major order |
| Sequential.ZeroStartBackRun | src/iter/sequential.rs:51-57 | five as-written `next_back` calls on a fresh iterator over `(0, 1) .. (2, 3)` return `(1,2), (1,1), (0,2), (0,1)`, then nothing |
| Sequential.EmptyBackRun | src/iter/sequential.rs:52-53 | an as-written `next_back` call on a fresh iterator over the empty box `(0, 0) .. (2, 0)` returns nothing |
| Sequential.MixedEndsRun | src/iter/sequential.rs:125-155 | the nine calls of `len_reverse`, with the as-written `next_back`, on a fresh iterator over `(7, 1) .. (9, 4)` return `(8,3), (8,2), (7,1), (8,1), (7,2), (7,3)`, then nothing three times |

## Left out

- Machine integers: coordinates, `len` and `index` are unbounded naturals. Overflow at the top of `usize` is not modelled: `*c += 1` in `increment`, the offset sum in `at`, and the product in `len`.
- The low-end underflows are preconditions:
  - `len` needs `start <= end` on every axis (`Bounded`);
  - `increment` and `increment_back` need `len > 0`;
  - `split_at` needs `index <= len`;
  - `at` and `split_at` need every extent non-zero, since `at` divides by each one;
  - `from_range` needs rank at least 1, since it indexes axis 0.
- State.StepBack: as written, the step may not reach an axis at 0 (`BorrowSafe`). The model does not say what happens then: a panic in debug builds, or a wrap-around to `usize::MAX` in release builds. See Findings.
- State.IterState.IncrementBack: requires `BorrowSafe` on `tail`, for the same reason.
- Sequential.IntoIter.NextBack: requires `BorrowSafe` on `tail` while `len > 0`, for the same reason.
- Sequential.DriveAsWritten: while points remain, requires every axis after the first to start above 0, and `tail` not at `start`. On other non-empty ranges, the first `next_back` of a fresh iterator already underflows (`SentinelBorrowSafe`, Findings). Empty ranges are admitted, because there `next_back` returns before it steps (`EmptyBackRun`). A state that `split_at(len)` wrapped to `start` may underflow on axis 0. A series of calls on such an iterator that happens to avoid both cases is left to `Drive`.
- Sequential.IntoIter.Len: states the count only for a valid iterator. One built by `into_iter_from_state` from arbitrary fields has no meaning to compare with.
- Sequential.IntoIter.SizeHint: states the count only for a valid iterator, as `Len` does.
- ndarray's `Dimension` machinery is replaced by plain sequences: `into_dimension`, `into_pattern`, `slice_mut`, `size`, and the rank aliases `Range1` to `Range5`. `into_pattern` only turns a coordinate into a tuple, so the model returns the coordinate itself.
- Ownership is simplified. `split_at` consumes `self` in the source. The model builds two fresh states and leaves the original untouched. `Clone` of a state is not modelled.
- The parallel iterator (src/iter/parallel.rs) is not part of this model. It forwards to `split_at`, `len` and `into_iter_from_state`, whose contracts are here.
- The test helper `get_real_length` (src/iter/state.rs:123-125) counts points by iterating a clone. The model does not iterate. `SplitAtExampleRun` states each piece's count as the length of its remaining run, which is what a full iteration yields (`DrainExhausts`).

## Findings

| source | as written | input that shows it | evidently intended | confidence | as-written member | corrected member |
|---|---|---|---|---|---|---|
| src/iter/state.rs:33 | `increment_back` subtracts one from an axis before comparing it with `start`, on an unsigned value | `NdRange::new((0, 0), (2, 2)).into_iter().next_back()`: the tail `(2, 0)` has 0 on axis 1, so `0 - 1` underflows | compare first and borrow without subtracting below `start`; the result is `(1, 1)`, the last point | not executed | State.BackUnderflowExample | State.IterState.IncrementBackChecked |

`State.StepBack` models the loop as written. `State.SentinelBorrowSafe` shows that, on a non-empty range, the first `next_back` of a fresh iterator is safe exactly when no axis after axis 0 starts at 0.

`State.StepBackChecked` and `Sequential.IntoIter.NextBackChecked` are the corrected step and call. `Sequential.Drive` uses them for every range.

`Sequential.DriveAsWritten` drives the step as written on every range where no axis after the first starts at 0, from every fresh iterator, and on every empty range. The source's own backward tests are such runs (`BackCallsRun` and `MixedEndsRun`). So are `ZeroStartBackRun`, whose axis 0 starts at 0, and `EmptyBackRun`.
