/** The JavaScript array built-ins the pages rely on, over `seq`:
    `filter` with a boolean callback and `reduce` with an initial value. */
module Seqs {

  /** `xs.filter(keep)`: the elements `keep` accepts, in their order. */
  function Filter<T>(xs: seq<T>, keep: T -> bool): (r: seq<T>)
    ensures |r| <= |xs|
    ensures forall k :: 0 <= k < |r| ==> r[k] in xs && keep(r[k])
    ensures forall j :: 0 <= j < |xs| && keep(xs[j]) ==> xs[j] in r
  {
    if xs == [] then []
    else
      var rest := Filter(xs[1..], keep);
      if keep(xs[0]) then [xs[0]] + rest else rest
  }

  /** `idx` lists, in increasing order, the positions of `xs` that `r` takes
      its elements from, and those are exactly the positions `keep` accepts. */
  ghost predicate SelectsKept<T>(idx: seq<int>, r: seq<T>, xs: seq<T>, keep: T -> bool) {
    && |idx| == |r|
    && (forall k :: 0 <= k < |idx| ==> 0 <= idx[k] < |xs| && r[k] == xs[idx[k]])
    && (forall k, l :: 0 <= k < l < |idx| ==> idx[k] < idx[l])
    && (forall j :: 0 <= j < |xs| ==> (keep(xs[j]) <==> j in idx))
  }

  function Shift(idx: seq<int>): (r: seq<int>)
    ensures |r| == |idx|
    ensures forall k :: 0 <= k < |idx| ==> r[k] == idx[k] + 1
  {
    seq(|idx|, k requires 0 <= k < |idx| => idx[k] + 1)
  }

  lemma ShiftMembership(idx: seq<int>, j: int)
    ensures j in Shift(idx) <==> j - 1 in idx
  {
    var r := Shift(idx);
    if j in r {
      var k :| 0 <= k < |r| && r[k] == j;
      assert idx[k] == j - 1;
    }
    if j - 1 in idx {
      var k :| 0 <= k < |idx| && idx[k] == j - 1;
      assert r[k] == j;
    }
  }

  /** Position 0 followed by the shifted positions keeps the increasing
      order. */
  lemma ConsIncreasing(idx': seq<int>)
    requires forall k :: 0 <= k < |idx'| ==> 0 <= idx'[k]
    requires forall k, l :: 0 <= k < l < |idx'| ==> idx'[k] < idx'[l]
    ensures forall k, l :: 0 <= k < l < |[0] + Shift(idx')| ==> ([0] + Shift(idx'))[k] < ([0] + Shift(idx'))[l]
  {
    var idx := [0] + Shift(idx');
    forall k, l | 0 <= k < l < |idx|
      ensures idx[k] < idx[l]
    {
      if k > 0 {
        assert idx[k] == idx'[k - 1] + 1;
      }
      assert idx[l] == idx'[l - 1] + 1;
    }
  }

  /** The positions are exactly the accepted ones. */
  lemma ConsKeptPositions<T>(x0: T, tail: seq<T>, idx': seq<int>, keep: T -> bool)
    requires forall j :: 0 <= j < |tail| ==> (keep(tail[j]) <==> j in idx')
    requires keep(x0)
    ensures forall j :: 0 <= j < |[x0] + tail| ==> (keep(([x0] + tail)[j]) <==> j in [0] + Shift(idx'))
  {
    var xs := [x0] + tail;
    forall j | 0 <= j < |xs|
      ensures keep(xs[j]) <==> j in [0] + Shift(idx')
    {
      ShiftMembership(idx', j);
      if j > 0 {
        assert xs[j] == tail[j - 1];
      }
    }
  }

  /** Putting an accepted element in front of the input: the old positions
      move one place up and position 0 joins them. */
  lemma ConsKept<T>(x0: T, tail: seq<T>, rest: seq<T>, idx': seq<int>, keep: T -> bool)
    requires SelectsKept(idx', rest, tail, keep)
    requires keep(x0)
    ensures SelectsKept([0] + Shift(idx'), [x0] + rest, [x0] + tail, keep)
  {
    var xs := [x0] + tail;
    var idx := [0] + Shift(idx');
    var r := [x0] + rest;
    forall k | 0 <= k < |idx|
      ensures 0 <= idx[k] < |xs| && r[k] == xs[idx[k]]
    {
      if k > 0 {
        assert idx[k] == idx'[k - 1] + 1;
        assert r[k] == rest[k - 1];
      }
    }
    ConsIncreasing(idx');
    ConsKeptPositions(x0, tail, idx', keep);
  }

  /** Putting a rejected element in front of the input: the old positions
      move one place up. */
  lemma ConsDropped<T>(x0: T, tail: seq<T>, rest: seq<T>, idx': seq<int>, keep: T -> bool)
    requires SelectsKept(idx', rest, tail, keep)
    requires !keep(x0)
    ensures SelectsKept(Shift(idx'), rest, [x0] + tail, keep)
  {
    var xs := [x0] + tail;
    var shifted := Shift(idx');
    assert forall k :: 0 <= k < |shifted| ==> 1 <= shifted[k] < |xs| && rest[k] == xs[shifted[k]];
    forall j | 0 <= j < |xs|
      ensures j in shifted <==> j >= 1 && keep(xs[j])
    {
      ShiftMembership(idx', j);
    }
  }

  /** The filtered sequence is the order-preserving subsequence made of
      exactly the accepted elements. */
  lemma {:induction false} FilterSelectsKept<T>(xs: seq<T>, keep: T -> bool)
    ensures exists idx :: SelectsKept(idx, Filter(xs, keep), xs, keep)
  {
    if xs == [] {
      assert SelectsKept([], Filter(xs, keep), xs, keep);
    } else {
      var tail := xs[1..];
      var rest := Filter(tail, keep);
      FilterSelectsKept(tail, keep);
      var idx' :| SelectsKept(idx', rest, tail, keep);
      assert xs == [xs[0]] + tail;
      if keep(xs[0]) {
        ConsKept(xs[0], tail, rest, idx', keep);
        assert SelectsKept([0] + Shift(idx'), Filter(xs, keep), xs, keep);
      } else {
        ConsDropped(xs[0], tail, rest, idx', keep);
        assert SelectsKept(Shift(idx'), Filter(xs, keep), xs, keep);
      }
    }
  }

  /** A filter that accepts everything returns its input. */
  lemma {:induction false} FilterAll<T>(xs: seq<T>, keep: T -> bool)
    requires forall x :: x in xs ==> keep(x)
    ensures Filter(xs, keep) == xs
  {
    if xs != [] {
      FilterAll(xs[1..], keep);
    }
  }

  /** Filtering twice with the same callback is filtering once. */
  lemma FilterIdempotent<T>(xs: seq<T>, keep: T -> bool)
    ensures Filter(Filter(xs, keep), keep) == Filter(xs, keep)
  {
    FilterAll(Filter(xs, keep), keep);
  }

  /** `xs.reduce((acc, x) => acc + f(x), acc)`: a left-to-right running sum. */
  function SumLeft<T>(xs: seq<T>, f: T -> int, acc: int): int
  {
    if xs == [] then acc else SumLeft(xs[1..], f, acc + f(xs[0]))
  }

  /** The sum of `f` over `xs`, defined from the right. */
  function Sum<T>(xs: seq<T>, f: T -> int): int
  {
    if xs == [] then 0 else f(xs[0]) + Sum(xs[1..], f)
  }

  /** The running sum that `reduce` computes is the initial value plus the
      sum. */
  lemma {:induction false} SumLeftIsSum<T>(xs: seq<T>, f: T -> int, acc: int)
    ensures SumLeft(xs, f, acc) == acc + Sum(xs, f)
  {
    if xs != [] {
      SumLeftIsSum(xs[1..], f, acc + f(xs[0]));
    }
  }

  /** The sum over two lists placed end to end is the sum of their sums. */
  lemma {:induction false} SumAppend<T>(xs: seq<T>, ys: seq<T>, f: T -> int)
    ensures Sum(xs + ys, f) == Sum(xs, f) + Sum(ys, f)
  {
    if xs != [] {
      assert (xs + ys)[1..] == xs[1..] + ys;
      SumAppend(xs[1..], ys, f);
    } else {
      assert xs + ys == ys;
    }
  }

  /** A sum of terms that are each at most the matching term of another sum
      is at most that sum. */
  lemma {:induction false} SumMonotone<T>(xs: seq<T>, f: T -> int, g: T -> int)
    requires forall x :: x in xs ==> f(x) <= g(x)
    ensures Sum(xs, f) <= Sum(xs, g)
  {
    if xs != [] {
      SumMonotone(xs[1..], f, g);
    }
  }
}
