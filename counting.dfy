/**
 * Counting over sequences: how often a value occurs, the distinct values in
 * order of first appearance (pandas `unique`, the keys of `groupby` and
 * `value_counts`), and the fact that the counts of the distinct values add
 * up to the length of the sequence.
 */
module Counting {

  /** `(xs == v).sum()` */
  function Count<T(==)>(xs: seq<T>, v: T): (r: nat)
    ensures r <= |xs|
    ensures r == 0 <==> v !in xs
  {
    if xs == [] then 0
    else Count(xs[..|xs| - 1], v) + (if xs[|xs| - 1] == v then 1 else 0)
  }

  predicate NoDuplicates<T(==)>(xs: seq<T>)
  {
    forall i, j :: 0 <= i < j < |xs| ==> xs[i] != xs[j]
  }

  /** The distinct values of `xs`, each once, in order of first appearance. */
  function Distinct<T(==,!new)>(xs: seq<T>): (r: seq<T>)
    ensures NoDuplicates(r)
    ensures forall v :: v in r <==> v in xs
    ensures |r| <= |xs|
  {
    if xs == [] then []
    else
      var d := Distinct(xs[..|xs| - 1]);
      assert forall v :: v in xs <==> v in xs[..|xs| - 1] || v == xs[|xs| - 1];
      if xs[|xs| - 1] in d then d else d + [xs[|xs| - 1]]
  }

  /** The sum of the counts in `xs` of each value of `vs`. */
  function SumCounts<T(==)>(vs: seq<T>, xs: seq<T>): nat
  {
    if vs == [] then 0 else SumCounts(vs[..|vs| - 1], xs) + Count(xs, vs[|vs| - 1])
  }

  lemma CountAppend<T>(xs: seq<T>, x: T, v: T)
    ensures Count(xs + [x], v) == Count(xs, v) + (if x == v then 1 else 0)
  {
    assert (xs + [x])[..|xs|] == xs;
  }

  /** Adding one element to `xs` adds one to the sum exactly when that element is among `vs`. */
  lemma {:induction false} SumCountsAppend<T>(vs: seq<T>, xs: seq<T>, x: T)
    requires NoDuplicates(vs)
    ensures SumCounts(vs, xs + [x]) == SumCounts(vs, xs) + (if x in vs then 1 else 0)
  {
    if vs != [] {
      var init := vs[..|vs| - 1];
      assert NoDuplicates(init);
      SumCountsAppend(init, xs, x);
      CountAppend(xs, x, vs[|vs| - 1]);
      assert x in vs <==> x in init || x == vs[|vs| - 1];
      if x == vs[|vs| - 1] {
        assert x !in init;
      }
    }
  }

  lemma SumCountsExtend<T>(vs: seq<T>, v: T, xs: seq<T>)
    ensures SumCounts(vs + [v], xs) == SumCounts(vs, xs) + Count(xs, v)
  {
    assert (vs + [v])[..|vs|] == vs;
  }

  /** Every element is counted once under its own distinct value. */
  lemma {:induction false} DistinctCountsSum<T(!new)>(xs: seq<T>)
    ensures SumCounts(Distinct(xs), xs) == |xs|
  {
    if xs != [] {
      var init := xs[..|xs| - 1];
      var x := xs[|xs| - 1];
      assert xs == init + [x];
      var d := Distinct(init);
      DistinctCountsSum(init);
      SumCountsAppend(d, init, x);
      if x !in d {
        SumCountsExtend(d, x, xs);
        CountAppend(init, x, x);
      }
    }
  }

  /** The counts of values that are all present in `xs` and pairwise different cannot exceed `|xs|`. */
  lemma {:induction false} SumCountsBound<T>(vs: seq<T>, xs: seq<T>)
    requires NoDuplicates(vs)
    ensures SumCounts(vs, xs) <= |xs|
    decreases |xs|
  {
    if xs != [] {
      var init := xs[..|xs| - 1];
      assert xs == init + [xs[|xs| - 1]];
      SumCountsBound(vs, init);
      SumCountsAppend(vs, init, xs[|xs| - 1]);
    } else {
      SumCountsOfEmpty(vs, xs);
    }
  }

  lemma {:induction false} SumCountsOfEmpty<T>(vs: seq<T>, xs: seq<T>)
    requires xs == []
    ensures SumCounts(vs, xs) == 0
  {
    if vs != [] {
      SumCountsOfEmpty(vs[..|vs| - 1], xs);
    }
  }

  /** `xs` with only the elements that satisfy `keep`, in order. */
  function Filter<T(!new)>(xs: seq<T>, keep: T -> bool): (r: seq<T>)
    ensures |r| <= |xs|
    ensures forall v :: v in r <==> v in xs && keep(v)
  {
    if xs == [] then []
    else
      var init := Filter(xs[..|xs| - 1], keep);
      assert forall v :: v in xs <==> v in xs[..|xs| - 1] || v == xs[|xs| - 1];
      if keep(xs[|xs| - 1]) then init + [xs[|xs| - 1]] else init
  }

  /** Keeping fewer elements keeps no more of them. */
  lemma {:induction false} FilterMono<T(!new)>(xs: seq<T>, p: T -> bool, q: T -> bool)
    requires forall x :: p(x) ==> q(x)
    ensures |Filter(xs, p)| <= |Filter(xs, q)|
  {
    if xs != [] {
      FilterMono(xs[..|xs| - 1], p, q);
    }
  }

  /** Two disjoint conditions that together make a third split its count. */
  lemma {:induction false} FilterSplit<T(!new)>(xs: seq<T>, a: T -> bool, b: T -> bool, whole: T -> bool)
    requires forall x :: whole(x) <==> a(x) || b(x)
    requires forall x :: !(a(x) && b(x))
    ensures |Filter(xs, a)| + |Filter(xs, b)| == |Filter(xs, whole)|
  {
    if xs != [] {
      FilterSplit(xs[..|xs| - 1], a, b, whole);
    }
  }

  /** A condition every element meets keeps them all. */
  lemma {:induction false} FilterAll<T(!new)>(xs: seq<T>, keep: T -> bool)
    requires forall i :: 0 <= i < |xs| ==> keep(xs[i])
    ensures Filter(xs, keep) == xs
  {
    if xs != [] {
      FilterAll(xs[..|xs| - 1], keep);
    }
  }

  /** Two conditions that agree on every element keep the same elements. */
  lemma {:induction false} FilterSame<T(!new)>(xs: seq<T>, p: T -> bool, q: T -> bool)
    requires forall i :: 0 <= i < |xs| ==> (p(xs[i]) <==> q(xs[i]))
    ensures Filter(xs, p) == Filter(xs, q)
  {
    if xs != [] {
      FilterSame(xs[..|xs| - 1], p, q);
    }
  }
}
