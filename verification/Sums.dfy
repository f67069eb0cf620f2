/** Sums over sequences that do not depend on order. */
module Sums {
  import opened Sorting

  function SumBy<T>(xs: seq<T>, f: T -> nat): nat {
    if xs == [] then 0 else SumBy(xs[..|xs| - 1], f) + f(xs[|xs| - 1])
  }

  lemma SumNext<T>(xs: seq<T>, i: nat, f: T -> nat)
    requires i < |xs|
    ensures SumBy(xs[..i + 1], f) == SumBy(xs[..i], f) + f(xs[i])
  {
    assert xs[..i + 1][..i] == xs[..i];
  }

  lemma {:induction false} SumConcat<T>(x: seq<T>, y: seq<T>, f: T -> nat)
    ensures SumBy(x + y, f) == SumBy(x, f) + SumBy(y, f)
  {
    if y == [] {
      assert x + y == x;
    } else {
      SumConcat(x, y[..|y| - 1], f);
      assert (x + y)[..|x + y| - 1] == x + y[..|y| - 1];
    }
  }

  lemma SumOne<T>(x: T, f: T -> nat)
    ensures SumBy([x], f) == f(x)
  {
    assert [x][..0] == [];
  }

  lemma SumSplit<T>(xs: seq<T>, j: nat, f: T -> nat)
    requires j < |xs|
    ensures SumBy(xs, f) == f(xs[j]) + SumBy(xs[..j] + xs[j + 1..], f)
  {
    hide SumBy;
    assert xs == xs[..j] + ([xs[j]] + xs[j + 1..]);
    SumConcat(xs[..j], [xs[j]] + xs[j + 1..], f);
    SumConcat([xs[j]], xs[j + 1..], f);
    SumOne(xs[j], f);
    SumConcat(xs[..j], xs[j + 1..], f);
  }

  lemma SumSnoc<T>(xs: seq<T>, x: T, f: T -> nat)
    ensures SumBy(xs + [x], f) == SumBy(xs, f) + f(x)
  {
    assert (xs + [x])[..|xs|] == xs;
  }

  lemma SumUpdate<T>(xs: seq<T>, k: nat, x: T, f: T -> nat)
    requires k < |xs|
    ensures SumBy(xs[k := x], f) + f(xs[k]) == SumBy(xs, f) + f(x)
  {
    hide SumBy;
    SumSplit(xs, k, f);
    SumSplit(xs[k := x], k, f);
    assert xs[k := x][..k] + xs[k := x][k + 1..] == xs[..k] + xs[k + 1..];
  }

  /** Rearranging the terms leaves the sum. */
  lemma {:induction false} SumPermuted<T>(a: seq<T>, b: seq<T>, f: T -> nat)
    requires multiset(a) == multiset(b)
    ensures SumBy(a, f) == SumBy(b, f)
    decreases |a|
  {
    if a == [] {
      SameElements(a, b);
    } else {
      var j := MatchHead(a, b);
      SumSplit(a, 0, f);
      assert a[..0] + a[1..] == a[1..];
      SumSplit(b, j, f);
      SumPermuted(a[1..], b[..j] + b[j + 1..], f);
    }
  }

  /** Sums of equal terms are equal, of smaller terms smaller. */
  lemma {:induction false} SumCompare<T>(xs: seq<T>, f: T -> nat, g: T -> nat)
    requires forall i :: 0 <= i < |xs| ==> f(xs[i]) <= g(xs[i])
    ensures SumBy(xs, f) <= SumBy(xs, g)
  {
    if xs != [] {
      SumCompare(xs[..|xs| - 1], f, g);
    }
  }

  lemma {:induction false} SumLinear<T>(xs: seq<T>, f: T -> nat, g: T -> nat, h: T -> nat)
    requires forall i :: 0 <= i < |xs| ==> f(xs[i]) + g(xs[i]) == h(xs[i])
    ensures SumBy(xs, f) + SumBy(xs, g) == SumBy(xs, h)
  {
    if xs != [] {
      SumLinear(xs[..|xs| - 1], f, g, h);
    }
  }
}
