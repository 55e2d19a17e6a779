/** Optional values, and integer-valued sums over sequences. */
module Wrappers {

  datatype Option<+T> = None | Some(value: T)

  /** The sum of f over the elements of xs. */
  ghost function SumBy<T>(f: T -> int, xs: seq<T>): int {
    if xs == [] then 0 else f(xs[0]) + SumBy(f, xs[1..])
  }

  lemma {:induction false} SumByAppend<T>(f: T -> int, xs: seq<T>, x: T)
    ensures SumBy(f, xs + [x]) == SumBy(f, xs) + f(x)
  {
    if xs == [] {
      assert (xs + [x])[1..] == [];
    } else {
      SumByAppend(f, xs[1..], x);
      assert (xs + [x])[1..] == xs[1..] + [x];
    }
  }

  lemma {:induction false} SumByUpdate<T>(f: T -> int, xs: seq<T>, i: nat, x: T)
    requires i < |xs|
    ensures SumBy(f, xs[i := x]) == SumBy(f, xs) - f(xs[i]) + f(x)
  {
    if i == 0 {
      assert xs[0 := x][1..] == xs[1..];
    } else {
      SumByUpdate(f, xs[1..], i - 1, x);
      assert xs[i := x][1..] == xs[1..][i - 1 := x];
    }
  }

  /** A sum of non-negative terms bounds each of them. */
  lemma {:induction false} SumByTerm<T>(f: T -> int, xs: seq<T>, i: nat)
    requires i < |xs|
    requires forall x <- xs :: f(x) >= 0
    ensures SumBy(f, xs) >= f(xs[i])
  {
    SumByNonNegative(f, xs[1..]);
    if i > 0 {
      SumByTerm(f, xs[1..], i - 1);
    }
  }

  lemma {:induction false} SumByNonNegative<T>(f: T -> int, xs: seq<T>)
    requires forall x <- xs :: f(x) >= 0
    ensures SumBy(f, xs) >= 0
  {
    if xs != [] {
      SumByNonNegative(f, xs[1..]);
    }
  }

  lemma {:induction false} SumByZero<T>(f: T -> int, xs: seq<T>)
    requires forall x <- xs :: f(x) == 0
    ensures SumBy(f, xs) == 0
  {
    if xs != [] {
      SumByZero(f, xs[1..]);
    }
  }

  lemma {:induction false} SumByAtMostLength<T>(f: T -> int, xs: seq<T>)
    requires forall x <- xs :: f(x) <= 1
    ensures SumBy(f, xs) <= |xs|
  {
    if xs != [] {
      SumByAtMostLength(f, xs[1..]);
    }
  }
}
