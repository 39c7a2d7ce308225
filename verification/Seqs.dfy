/** Sequences without repetition, and non-empty sets. */
module Seqs {
  ghost predicate Distinct<T>(xs: seq<T>) {
    forall i, j :: 0 <= i < j < |xs| ==> xs[i] != xs[j]
  }

  lemma {:induction false} DistinctCounts<T>(xs: seq<T>)
    ensures Distinct(xs) <==> forall x :: multiset(xs)[x] <= 1
  {
    if xs != [] {
      var n := |xs| - 1;
      var init := xs[..n];
      DistinctCounts(init);
      assert xs == init + [xs[n]];
      assert multiset(xs) == multiset(init) + multiset{xs[n]};
      if Distinct(xs) {
        assert forall i :: 0 <= i < n ==> init[i] == xs[i];
        assert xs[n] !in init;
      } else if Distinct(init) {
        var i :| 0 <= i < n && xs[i] == xs[n];
        assert init[i] == xs[n];
        assert multiset(init)[xs[n]] >= 1;
      }
      forall x ensures multiset(init)[x] <= multiset(xs)[x] {}
    }
  }

  lemma PermutationKeepsDistinct<T>(xs: seq<T>, ys: seq<T>)
    requires multiset(xs) == multiset(ys) && Distinct(xs)
    ensures Distinct(ys) && forall x :: x in xs <==> x in ys
  {
    DistinctCounts(xs);
    DistinctCounts(ys);
    forall x ensures x in xs <==> x in ys {
      assert x in xs <==> x in multiset(xs);
      assert x in ys <==> x in multiset(ys);
    }
  }

  lemma Inhabited(s: set<int>)
    ensures s != {} ==> exists x: int :: x in s
  {
    if forall x: int :: x !in s { assert s == {}; }
  }
}
