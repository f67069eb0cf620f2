/** Loops that stop at the first refused element. */
module Folds {
  import opened Prelude

  /** Run `f` over `xs` from the left; the first error ends the run. */
  function Fold<S, T, E>(f: (S, T) -> Fallible<S, E>, start: S, xs: seq<T>): Fallible<S, E> {
    if xs == [] then Ok(start)
    else
      var before := Fold(f, start, xs[..|xs| - 1]);
      if before.Err? then before else f(before.value, xs[|xs| - 1])
  }

  lemma FoldNothing<S, T, E>(f: (S, T) -> Fallible<S, E>, start: S, xs: seq<T>)
    ensures Fold(f, start, xs[..0]) == Ok(start)
  {
  }

  lemma {:induction false} FoldFails<S, T, E>(f: (S, T) -> Fallible<S, E>, start: S, xs: seq<T>, k: nat)
    requires k <= |xs| && Fold(f, start, xs[..k]).Err?
    ensures Fold(f, start, xs) == Fold(f, start, xs[..k])
  {
    if k == |xs| {
      assert xs[..k] == xs;
    } else {
      assert xs[..|xs| - 1][..k] == xs[..k];
      FoldFails(f, start, xs[..|xs| - 1], k);
    }
  }

  /** One iteration of the loop, and what an error in it means for the whole run. */
  lemma FoldStep<S, T, E>(f: (S, T) -> Fallible<S, E>, start: S, xs: seq<T>, i: nat, sofar: S)
    requires i < |xs| && Fold(f, start, xs[..i]) == Ok(sofar)
    ensures Fold(f, start, xs[..i + 1]) == f(sofar, xs[i])
    ensures f(sofar, xs[i]).Err? ==> Fold(f, start, xs) == f(sofar, xs[i])
  {
    assert xs[..i + 1][..i] == xs[..i];
    if f(sofar, xs[i]).Err? {
      FoldFails(f, start, xs, i + 1);
    }
  }

  lemma FoldAll<S, T, E>(f: (S, T) -> Fallible<S, E>, start: S, xs: seq<T>)
    ensures Fold(f, start, xs[..|xs|]) == Fold(f, start, xs)
  {
    assert xs[..|xs|] == xs;
  }

  /** A run over two parts is a run over their concatenation. */
  lemma {:induction false} FoldConcat<S, T, E>(f: (S, T) -> Fallible<S, E>, start: S, xs: seq<T>, ys: seq<T>)
    ensures Fold(f, start, xs + ys)
            == (var first := Fold(f, start, xs); if first.Err? then first else Fold(f, first.value, ys))
  {
    if ys == [] {
      assert xs + ys == xs;
    } else {
      FoldConcat(f, start, xs, ys[..|ys| - 1]);
      assert (xs + ys)[..|xs + ys| - 1] == xs + ys[..|ys| - 1];
    }
  }
}
