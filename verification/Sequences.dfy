/** Sequences without repetitions, and sums over sequences. */
module Sequences {

  predicate Distinct<T(==)>(xs: seq<T>) { forall i, j :: 0 <= i < j < |xs| ==> xs[i] != xs[j] }

  /** Every occurrence taken out. */
  function Minus<T(==,!new)>(xs: seq<T>, x: T): (r: seq<T>)
    ensures forall y :: y in r <==> y in xs && y != x
  {
    if xs == [] then []
    else (if xs[0] == x then [] else [xs[0]]) + Minus(xs[1..], x)
  }

  lemma ConsDistinct<T>(x: T, xs: seq<T>)
    requires Distinct(xs) && x !in xs
    ensures Distinct([x] + xs)
  {
    var all := [x] + xs;
    assert forall i :: 1 <= i < |all| ==> all[i] == xs[i - 1] && all[i] in xs;
  }

  lemma {:induction false} MinusDistinct<T(!new)>(xs: seq<T>, x: T)
    requires Distinct(xs)
    ensures Distinct(Minus(xs, x))
    ensures |Minus(xs, x)| == if x in xs then |xs| - 1 else |xs|
  {
    if xs != [] {
      MinusDistinct(xs[1..], x);
      assert xs[0] !in xs[1..];
      if xs[0] != x {
        ConsDistinct(xs[0], Minus(xs[1..], x));
      }
    }
  }

  // ---- sums --------------------------------------------------------------------------

  /** The sum of a quantity over the elements. */
  function Total<T>(xs: seq<T>, f: T -> int): int {
    if |xs| == 0 then 0 else f(xs[0]) + Total(xs[1..], f)
  }

  lemma {:induction false} TotalUpdate<T>(xs: seq<T>, i: nat, x: T, f: T -> int)
    requires i < |xs|
    ensures Total(xs[i := x], f) == Total(xs, f) - f(xs[i]) + f(x)
  {
    if i == 0 {
      assert xs[0 := x][1..] == xs[1..];
    } else {
      TotalUpdate(xs[1..], i - 1, x, f);
      assert xs[i := x][1..] == xs[1..][i - 1 := x];
    }
  }

  lemma {:induction false} TotalAppend<T>(xs: seq<T>, x: T, f: T -> int)
    ensures Total(xs + [x], f) == Total(xs, f) + f(x)
  {
    if |xs| == 0 {
      assert xs + [x] == [x];
    } else {
      TotalAppend(xs[1..], x, f);
      assert (xs + [x])[1..] == xs[1..] + [x];
    }
  }

  /** With no negative terms, two terms never exceed the sum. */
  lemma {:induction false} TotalBounds<T>(xs: seq<T>, i: nat, j: nat, f: T -> int)
    requires forall x :: x in xs ==> 0 <= f(x)
    requires i < |xs| && j < |xs|
    ensures 0 <= Total(xs, f) && f(xs[i]) <= Total(xs, f)
    ensures i != j ==> f(xs[i]) + f(xs[j]) <= Total(xs, f)
    decreases |xs|
  {
    if |xs| > 1 {
      assert forall x :: x in xs[1..] ==> x in xs;
      TotalBounds(xs[1..], if i == 0 then 0 else i - 1, if j == 0 then 0 else j - 1, f);
    }
  }

  lemma {:induction false} TotalJoin<T>(xs: seq<T>, ys: seq<T>, f: T -> int)
    ensures Total(xs + ys, f) == Total(xs, f) + Total(ys, f)
  {
    if |xs| == 0 {
      assert xs + ys == ys;
    } else {
      assert (xs + ys)[1..] == xs[1..] + ys;
      TotalJoin(xs[1..], ys, f);
    }
  }
}
