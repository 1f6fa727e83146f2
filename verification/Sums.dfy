/** Sums of a weight over a list. */
module Sums {

  function SumOf<T>(xs: seq<T>, f: T -> int): int {
    if xs == [] then 0 else SumOf(xs[..|xs| - 1], f) + f(xs[|xs| - 1])
  }

  lemma {:induction false} SumUpdate<T>(xs: seq<T>, i: nat, x: T, f: T -> int)
    requires i < |xs|
    ensures SumOf(xs[i := x], f) == SumOf(xs, f) - f(xs[i]) + f(x)
  {
    var init := xs[..|xs| - 1];
    if i == |xs| - 1 {
      assert xs[i := x][..|xs| - 1] == init;
    } else {
      SumUpdate(init, i, x, f);
      assert xs[i := x][..|xs| - 1] == init[i := x];
    }
  }

  lemma SumAppend<T>(xs: seq<T>, x: T, f: T -> int)
    ensures SumOf(xs + [x], f) == SumOf(xs, f) + f(x)
  {
    assert (xs + [x])[..|xs|] == xs;
  }

  lemma {:induction false} SumZero<T>(xs: seq<T>, f: T -> int)
    requires forall x | x in xs :: f(x) == 0
    ensures SumOf(xs, f) == 0
  {
    if xs != [] {
      assert xs[|xs| - 1] in xs;
      SumZero(xs[..|xs| - 1], f);
    }
  }

  lemma {:induction false} SumMonotone<T>(xs: seq<T>, f: T -> int, f': T -> int)
    requires forall x | x in xs :: f(x) <= f'(x)
    ensures SumOf(xs, f) <= SumOf(xs, f')
  {
    if xs != [] {
      assert xs[|xs| - 1] in xs;
      SumMonotone(xs[..|xs| - 1], f, f');
    }
  }

  /** How many elements satisfy `p`. */
  function CountOf<T>(xs: seq<T>, p: T -> bool): nat {
    if xs == [] then 0 else CountOf(xs[..|xs| - 1], p) + if p(xs[|xs| - 1]) then 1 else 0
  }

  /** A weight of +1, -1 or 0 adds up to a difference of counts. */
  lemma {:induction false} SumIsDifference<T>(xs: seq<T>, f: T -> int, plus: T -> bool, minus: T -> bool)
    requires forall x | x in xs :: f(x) == (if plus(x) then 1 else 0) - if minus(x) then 1 else 0
    ensures SumOf(xs, f) == CountOf(xs, plus) - CountOf(xs, minus)
  {
    if xs != [] {
      assert xs[|xs| - 1] in xs;
      SumIsDifference(xs[..|xs| - 1], f, plus, minus);
    }
  }

  lemma {:induction false} CountNone<T>(xs: seq<T>, p: T -> bool)
    requires forall x | x in xs :: !p(x)
    ensures CountOf(xs, p) == 0
  {
    if xs != [] {
      assert xs[|xs| - 1] in xs;
      CountNone(xs[..|xs| - 1], p);
    }
  }
}
