/** Accumulating a sequence when the order of its elements does not matter. */
module Folding {

  function Fold<A, X>(f: (A, X) -> A, a: A, xs: seq<X>): A {
    if xs == [] then a else f(Fold(f, a, xs[..|xs| - 1]), xs[|xs| - 1])
  }

  ghost predicate Commutes<A(!new), X(!new)>(f: (A, X) -> A) {
    forall a, x, y :: f(f(a, x), y) == f(f(a, y), x)
  }

  lemma {:induction false} FoldAppend<A, X>(f: (A, X) -> A, a: A, xs: seq<X>, x: X)
    ensures Fold(f, a, xs + [x]) == f(Fold(f, a, xs), x)
  {
    assert (xs + [x])[..|xs|] == xs;
  }

  /** An element can be taken out of its place and accumulated last. */
  lemma {:induction false} FoldMove<A(!new), X(!new)>(f: (A, X) -> A, a: A, before: seq<X>, x: X, after: seq<X>)
    requires Commutes(f)
    ensures Fold(f, a, before + [x] + after) == f(Fold(f, a, before + after), x)
    decreases |after|
  {
    if after == [] {
      assert before + [x] + after == before + [x] && before + after == before;
      FoldAppend(f, a, before, x);
    } else {
      var rest, y := after[..|after| - 1], after[|after| - 1];
      assert before + [x] + after == (before + [x] + rest) + [y];
      assert before + after == (before + rest) + [y];
      FoldAppend(f, a, before + [x] + rest, y);
      FoldAppend(f, a, before + rest, y);
      FoldMove(f, a, before, x, rest);
    }
  }

  lemma RemoveAt<X>(xs: seq<X>, i: nat)
    requires i < |xs|
    ensures multiset(xs[..i] + xs[i + 1..]) == multiset(xs) - multiset{xs[i]}
  {
    assert xs == xs[..i] + [xs[i]] + xs[i + 1..];
  }

  /** Permuting the elements does not change what a commuting step accumulates. */
  lemma {:induction false} FoldPermutation<A(!new), X(!new)>(f: (A, X) -> A, a: A, xs: seq<X>, ys: seq<X>)
    requires Commutes(f) && multiset(xs) == multiset(ys)
    ensures Fold(f, a, xs) == Fold(f, a, ys)
    decreases |xs|
  {
    if xs == [] {
      assert |multiset(ys)| == 0;
      assert ys == [];
    } else {
      var rest, x := xs[..|xs| - 1], xs[|xs| - 1];
      assert x in multiset(xs);
      var i :| 0 <= i < |ys| && ys[i] == x;
      var others := ys[..i] + ys[i + 1..];
      RemoveAt(ys, i);
      RemoveAt(xs, |xs| - 1);
      assert xs[..|xs| - 1] + xs[|xs|..] == rest;
      assert ys == ys[..i] + [x] + ys[i + 1..];
      FoldMove(f, a, ys[..i], x, ys[i + 1..]);
      FoldPermutation(f, a, rest, others);
    }
  }
}
