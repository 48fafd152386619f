// Sums of a weight over a sequence, the bookkeeping behind the potential arguments.
module Sums {
  ghost function Sum<T>(weight: T -> int, xs: seq<T>): int {
    if xs == [] then 0 else weight(xs[0]) + Sum(weight, xs[1..])
  }

  // The sequence without its element at `i`.
  function RemoveAt<T>(xs: seq<T>, i: nat): (ys: seq<T>)
    requires i < |xs|
    ensures |ys| == |xs| - 1
    ensures forall y :: y in ys ==> y in xs
  {
    xs[..i] + xs[i + 1..]
  }

  lemma {:induction false} SumAppend<T>(weight: T -> int, xs: seq<T>, ys: seq<T>)
    ensures Sum(weight, xs + ys) == Sum(weight, xs) + Sum(weight, ys)
  {
    if xs == [] {
      assert xs + ys == ys;
    } else {
      assert (xs + ys)[1..] == xs[1..] + ys;
      SumAppend(weight, xs[1..], ys);
    }
  }

  lemma SumRemoveAt<T>(weight: T -> int, xs: seq<T>, i: nat)
    requires i < |xs|
    ensures Sum(weight, RemoveAt(xs, i)) == Sum(weight, xs) - weight(xs[i])
  {
    assert xs == xs[..i] + ([xs[i]] + xs[i + 1..]);
    SumAppend(weight, xs[..i], [xs[i]] + xs[i + 1..]);
    SumAppend(weight, [xs[i]], xs[i + 1..]);
    SumAppend(weight, xs[..i], xs[i + 1..]);
  }

  // Elements that all weigh `w` weigh `w` times their number.
  lemma {:induction false} SumConstant<T>(weight: T -> int, xs: seq<T>, w: int)
    requires forall x :: x in xs ==> weight(x) == w
    ensures Sum(weight, xs) == |xs| * w
  {
    if xs != [] {
      assert forall x :: x in xs[1..] ==> x in xs;
      SumConstant(weight, xs[1..], w);
    }
  }

  lemma {:induction false} SumNonNegative<T>(weight: T -> int, xs: seq<T>)
    requires forall x :: x in xs ==> weight(x) >= 0
    ensures Sum(weight, xs) >= 0
  {
    if xs != [] {
      assert forall x :: x in xs[1..] ==> x in xs;
      SumNonNegative(weight, xs[1..]);
    }
  }
}
