/** Sequence functions that the list-handling components share. */
module Sequences {
  /** The elements that satisfy p, in their order: the source's filter. */
  function Filter<T>(xs: seq<T>, p: T -> bool): (r: seq<T>)
    ensures forall x <- r :: x in xs && p(x)
  {
    if xs == [] then []
    else Filter(xs[..|xs| - 1], p) + if p(xs[|xs| - 1]) then [xs[|xs| - 1]] else []
  }

  function Map<S, T>(xs: seq<S>, f: S -> T): (r: seq<T>)
    ensures |r| == |xs| && forall k :: 0 <= k < |xs| ==> r[k] == f(xs[k])
  {
    seq(|xs|, k requires 0 <= k < |xs| => f(xs[k]))
  }

  lemma MapAppends<S, T>(xs: seq<S>, x: S, f: S -> T)
    ensures Map(xs + [x], f) == Map(xs, f) + [f(x)]
  {
  }

  lemma {:induction false} FilterSame<T>(xs: seq<T>, p: T -> bool, q: T -> bool)
    requires forall x <- xs :: p(x) <==> q(x)
    ensures Filter(xs, p) == Filter(xs, q)
    decreases |xs|
  {
    if xs != [] {
      FilterSame(xs[..|xs| - 1], p, q);
    }
  }

  /** The first occurrence of each element, in order. */
  function Distinct<T(==)>(xs: seq<T>): (r: seq<T>)
    ensures (forall x <- r :: x in xs) && forall x <- xs :: x in r
  {
    if xs == [] then []
    else
      var init := Distinct(xs[..|xs| - 1]);
      if xs[|xs| - 1] in init then init else init + [xs[|xs| - 1]]
  }

  ghost predicate NoRepeats<T>(xs: seq<T>) {
    forall i, j :: 0 <= i < j < |xs| ==> xs[i] != xs[j]
  }

  lemma DistinctAppends<T>(xs: seq<T>, x: T)
    ensures Distinct(xs + [x]) == if x in Distinct(xs) then Distinct(xs) else Distinct(xs) + [x]
  {
    assert (xs + [x])[..|xs|] == xs;
  }

  lemma NoRepeatsAppends<T>(xs: seq<T>, x: T)
    ensures NoRepeats(xs + [x]) <==> NoRepeats(xs) && x !in xs
  {
    var all := xs + [x];
    if NoRepeats(all) {
      forall i, j | 0 <= i < j < |xs| ensures xs[i] != xs[j] { assert all[i] != all[j]; }
      forall i | 0 <= i < |xs| ensures xs[i] != x { assert all[i] != all[|xs|]; }
    }
  }

  lemma {:induction false} DistinctHasNoRepeats<T>(xs: seq<T>)
    ensures NoRepeats(Distinct(xs))
    decreases |xs|
  {
    if xs != [] { DistinctHasNoRepeats(xs[..|xs| - 1]); }
  }
}
