/**
 * Aggregates over lists of rates: `sum`, `max`, `min`, `max - min` and the
 * arithmetic mean, with the bounds the fairness metrics rely on.
 */
module Stats {

  import opened Wrappers

  function Sum(xs: seq<real>): real
  {
    if xs == [] then 0.0 else Sum(xs[..|xs| - 1]) + xs[|xs| - 1]
  }

  /** Python's `max` of a non-empty list. */
  function Max(xs: seq<real>): (r: real)
    requires xs != []
    ensures r in xs
    ensures forall i :: 0 <= i < |xs| ==> xs[i] <= r
  {
    if |xs| == 1 then xs[0]
    else
      var m := Max(xs[..|xs| - 1]);
      assert forall i :: 0 <= i < |xs| - 1 ==> xs[i] == xs[..|xs| - 1][i];
      if xs[|xs| - 1] > m then xs[|xs| - 1] else m
  }

  /** Python's `min` of a non-empty list. */
  function Min(xs: seq<real>): (r: real)
    requires xs != []
    ensures r in xs
    ensures forall i :: 0 <= i < |xs| ==> r <= xs[i]
  {
    if |xs| == 1 then xs[0]
    else
      var m := Min(xs[..|xs| - 1]);
      assert forall i :: 0 <= i < |xs| - 1 ==> xs[i] == xs[..|xs| - 1][i];
      if xs[|xs| - 1] < m then xs[|xs| - 1] else m
  }

  /** `max(xs) - min(xs)`: the spread of a non-empty list. */
  function Range(xs: seq<real>): (r: real)
    requires xs != []
    ensures r >= 0.0
  {
    Max(xs) - Min(xs)
  }

  /** `abs(x)` */
  function Abs(x: real): (r: real)
    ensures r >= 0.0 && (r == x || r == -x)
  {
    if x < 0.0 then -x else x
  }

  /** `np.mean(xs)`; the empty list, which numpy maps to NaN, is given 0. */
  function Mean(xs: seq<real>): real
  {
    if xs == [] then 0.0 else Sum(xs) / |xs| as real
  }

  /** `a / b` when `b > 0`, else 0, as the report writes every ratio. */
  function Ratio(a: nat, b: nat): (r: real)
    requires a <= b
    ensures 0.0 <= r <= 1.0
    ensures b == 0 ==> r == 0.0
    ensures b > 0 ==> r * b as real == a as real
  {
    if b > 0 then
      assert a as real <= b as real;
      a as real / b as real
    else 0.0
  }

  /** The whole over itself is 1. */
  lemma RatioWhole(n: nat)
    requires n > 0
    ensures Ratio(n, n) == 1.0
  {
  }

  /** A positive part of a whole is a positive ratio. */
  lemma RatioPositive(a: nat, b: nat)
    requires 0 < a <= b
    ensures Ratio(a, b) > 0.0
  {
    assert a as real > 0.0 && b as real > 0.0;
    assert a as real / b as real > 0.0;
  }

  /** Two ratios over the same whole add up to the ratio of the sum. */
  lemma RatioAdd(a: nat, b: nat, n: nat)
    requires a + b <= n
    ensures Ratio(a, n) + Ratio(b, n) == Ratio(a + b, n)
  {
    if n > 0 {
      var d := n as real;
      assert (a + b) as real / d == a as real / d + b as real / d;
    }
  }

  predicate Within(xs: seq<real>, lo: real, hi: real)
  {
    forall i :: 0 <= i < |xs| ==> lo <= xs[i] <= hi
  }

  /** The spread of values inside `[lo, hi]` is at most `hi - lo`. */
  lemma RangeWithin(xs: seq<real>, lo: real, hi: real)
    requires xs != [] && Within(xs, lo, hi)
    ensures 0.0 <= Range(xs) <= hi - lo
  {
    assert lo <= Min(xs) && Max(xs) <= hi;
  }

  /** Every value is its own maximum and minimum when all values agree. */
  lemma RangeOfConstant(xs: seq<real>, c: real)
    requires xs != [] && forall i :: 0 <= i < |xs| ==> xs[i] == c
    ensures Range(xs) == 0.0
  {
  }

  /** The maximum and minimum of values in `[lo, hi]` lie in `[lo, hi]`. */
  lemma MaxMinWithin(xs: seq<real>, lo: real, hi: real)
    requires xs != [] && Within(xs, lo, hi)
    ensures lo <= Min(xs) <= Max(xs) <= hi
  {
  }

  lemma {:induction false} SumWithin(xs: seq<real>, lo: real, hi: real)
    requires Within(xs, lo, hi)
    ensures |xs| as real * lo <= Sum(xs) <= |xs| as real * hi
  {
    if xs != [] {
      var init := xs[..|xs| - 1];
      var m := |init| as real;
      SumWithin(init, lo, hi);
      assert Sum(xs) == Sum(init) + xs[|xs| - 1];
      assert lo <= xs[|xs| - 1] <= hi;
      assert |xs| as real * lo == m * lo + lo;
      assert |xs| as real * hi == m * hi + hi;
    }
  }

  lemma {:induction false} SumNonNegative(xs: seq<real>)
    requires forall i :: 0 <= i < |xs| ==> xs[i] >= 0.0
    ensures Sum(xs) >= 0.0
  {
    if xs != [] {
      SumNonNegative(xs[..|xs| - 1]);
    }
  }

  /** The mean of values inside `[lo, hi]` lies in `[lo, hi]`. */
  lemma MeanWithin(xs: seq<real>, lo: real, hi: real)
    requires xs != [] && Within(xs, lo, hi)
    ensures lo <= Mean(xs) <= hi
  {
    SumWithin(xs, lo, hi);
    var n := |xs| as real;
    assert Sum(xs) / n >= lo by {
      assert Sum(xs) >= n * lo;
    }
    assert Sum(xs) / n <= hi by {
      assert Sum(xs) <= n * hi;
    }
  }

  lemma SumAppend(xs: seq<real>, x: real)
    ensures Sum(xs + [x]) == Sum(xs) + x
  {
    assert (xs + [x])[..|xs|] == xs;
  }

  /** `sum(p * w for p, w in zip(ps, ws))` */
  function Dot(ps: seq<real>, ws: seq<real>): real
    requires |ps| == |ws|
  {
    if ps == [] then 0.0 else Dot(ps[..|ps| - 1], ws[..|ws| - 1]) + ps[|ps| - 1] * ws[|ws| - 1]
  }

  /** A weighted sum of values in `[0, 1]` with non-negative weights is at most the total weight. */
  lemma {:induction false} DotWithin(ps: seq<real>, ws: seq<real>)
    requires |ps| == |ws|
    requires Within(ps, 0.0, 1.0)
    requires forall i :: 0 <= i < |ws| ==> ws[i] >= 0.0
    ensures 0.0 <= Dot(ps, ws) <= Sum(ws)
  {
    if ps != [] {
      var n := |ps| - 1;
      var ps', ws' := ps[..n], ws[..n];
      assert forall i :: 0 <= i < n ==> ps'[i] == ps[i] && ws'[i] == ws[i];
      DotWithin(ps', ws');
      var p, w := ps[n], ws[n];
      ScaleWithin(p, w);
      DotUnfold(ps, ws);
      var a, b := Dot(ps', ws'), p * w;
      assert Dot(ps, ws) == a + b;
    }
  }

  lemma DotUnfold(ps: seq<real>, ws: seq<real>)
    requires |ps| == |ws| && ps != []
    ensures Dot(ps, ws) == Dot(ps[..|ps| - 1], ws[..|ws| - 1]) + ps[|ps| - 1] * ws[|ws| - 1]
    ensures Sum(ws) == Sum(ws[..|ws| - 1]) + ws[|ws| - 1]
  {
  }

  lemma ScaleWithin(p: real, w: real)
    requires 0.0 <= p <= 1.0 && w >= 0.0
    ensures 0.0 <= p * w <= w
  {
    assert w - p * w == (1.0 - p) * w;
  }

  /** The defined results of `f` over `xs`, in order: a list filled by `append` inside a loop that may skip. */
  function Collect<T>(xs: seq<T>, f: T -> Option<real>): (r: seq<real>)
    ensures |r| <= |xs|
  {
    if xs == [] then []
    else
      var init := Collect(xs[..|xs| - 1], f);
      if f(xs[|xs| - 1]).Some? then init + [f(xs[|xs| - 1]).value] else init
  }

  lemma CollectStep<T>(xs: seq<T>, i: nat, f: T -> Option<real>)
    requires i < |xs|
    ensures Collect(xs[..i + 1], f) == Collect(xs[..i], f) + (if f(xs[i]).Some? then [f(xs[i]).value] else [])
  {
    assert xs[..i + 1][..i] == xs[..i];
  }

  /** Results of `f` that all lie in `[lo, hi]` make a list inside `[lo, hi]`. */
  lemma {:induction false} CollectWithin<T>(xs: seq<T>, f: T -> Option<real>, lo: real, hi: real)
    requires forall i :: 0 <= i < |xs| && f(xs[i]).Some? ==> lo <= f(xs[i]).value <= hi
    ensures Within(Collect(xs, f), lo, hi)
  {
    if xs != [] {
      CollectWithin(xs[..|xs| - 1], f, lo, hi);
    }
  }

  /** Nothing is collected exactly when `f` is undefined everywhere. */
  lemma {:induction false} CollectEmpty<T>(xs: seq<T>, f: T -> Option<real>)
    ensures Collect(xs, f) == [] <==> forall i :: 0 <= i < |xs| ==> f(xs[i]).None?
  {
    if xs != [] {
      CollectEmpty(xs[..|xs| - 1], f);
    }
  }

  /** Every result of `f` is the same value `c`: the collected list is constant. */
  lemma {:induction false} CollectConstant<T>(xs: seq<T>, f: T -> Option<real>, c: real)
    requires forall i :: 0 <= i < |xs| && f(xs[i]).Some? ==> f(xs[i]).value == c
    ensures forall i :: 0 <= i < |Collect(xs, f)| ==> Collect(xs, f)[i] == c
  {
    if xs != [] {
      CollectConstant(xs[..|xs| - 1], f, c);
    }
  }

  /** A defined result of `f` appears in the collected list. */
  lemma {:induction false} CollectHas<T>(xs: seq<T>, i: nat, f: T -> Option<real>)
    requires i < |xs| && f(xs[i]).Some?
    ensures f(xs[i]).value in Collect(xs, f)
  {
    if i < |xs| - 1 {
      CollectHas(xs[..|xs| - 1], i, f);
    }
  }

  /** The spread is zero exactly when all values agree. */
  lemma RangeZero(xs: seq<real>)
    requires xs != []
    ensures Range(xs) == 0.0 <==> forall i, j :: 0 <= i < |xs| && 0 <= j < |xs| ==> xs[i] == xs[j]
  {
  }

  /** The spread is at least the distance between any two of the values. */
  lemma RangeAtLeast(xs: seq<real>, a: real, b: real)
    requires a in xs && b in xs
    ensures Range(xs) >= a - b
  {
  }

  /** Values at most 1 with one of them 0 have a sum at most `|xs| - 1`. */
  lemma {:induction false} SumBelowTop(xs: seq<real>, i: nat)
    requires i < |xs| && xs[i] == 0.0 && Within(xs, 0.0, 1.0)
    ensures Sum(xs) <= (|xs| - 1) as real
  {
    var init := xs[..|xs| - 1];
    if i < |xs| - 1 {
      SumBelowTop(init, i);
    } else {
      SumWithin(init, 0.0, 1.0);
    }
  }

  /** Values in `[0, 1]` one of which is 0 have a mean below 1. */
  lemma MeanBelowTop(xs: seq<real>, i: nat)
    requires i < |xs| && xs[i] == 0.0 && Within(xs, 0.0, 1.0)
    ensures Mean(xs) < 1.0
  {
    SumBelowTop(xs, i);
    var n := |xs| as real;
    assert Sum(xs) < n;
  }

  /** Every collected value is the defined result of `f` on some element. */
  lemma {:induction false} CollectFrom<T>(xs: seq<T>, f: T -> Option<real>, v: real)
    requires v in Collect(xs, f)
    ensures exists i :: 0 <= i < |xs| && f(xs[i]) == Some(v)
  {
    var init := xs[..|xs| - 1];
    if v in Collect(init, f) {
      CollectFrom(init, f, v);
      var i :| 0 <= i < |init| && f(init[i]) == Some(v);
      assert xs[i] == init[i];
    } else {
      assert f(xs[|xs| - 1]) == Some(v);
    }
  }

  /** Complements `1 - x` have the same spread as the values themselves. */
  lemma RangeComplement(xs: seq<real>, ys: seq<real>)
    requires xs != [] && |ys| == |xs|
    requires forall i :: 0 <= i < |xs| ==> ys[i] == 1.0 - xs[i]
    ensures Range(ys) == Range(xs)
  {
    var lo :| 0 <= lo < |xs| && xs[lo] == Min(xs);
    var hi :| 0 <= hi < |xs| && xs[hi] == Max(xs);
    assert ys[lo] <= Max(ys) && ys[hi] >= Min(ys);
    var top :| 0 <= top < |ys| && ys[top] == Max(ys);
    var bottom :| 0 <= bottom < |ys| && ys[bottom] == Min(ys);
    assert xs[top] >= Min(xs) && xs[bottom] <= Max(xs);
  }

  /** Positive weights have a positive total. */
  lemma {:induction false} SumPositive(ws: seq<real>)
    requires ws != [] && forall i :: 0 <= i < |ws| ==> ws[i] > 0.0
    ensures Sum(ws) > 0.0
  {
    if |ws| > 1 {
      SumPositive(ws[..|ws| - 1]);
    }
  }

  /** A weighted sum of values at most `m` is at most `m` times the total weight. */
  lemma {:induction false} DotBelow(ps: seq<real>, ws: seq<real>, m: real)
    requires |ps| == |ws|
    requires forall i :: 0 <= i < |ps| ==> ps[i] <= m
    requires forall i :: 0 <= i < |ws| ==> ws[i] >= 0.0
    ensures Dot(ps, ws) <= m * Sum(ws)
  {
    if ps != [] {
      var n := |ps| - 1;
      var ps', ws' := ps[..n], ws[..n];
      assert forall i :: 0 <= i < n ==> ps'[i] == ps[i] && ws'[i] == ws[i];
      DotBelow(ps', ws', m);
      DotUnfold(ps, ws);
      var p, w := ps[n], ws[n];
      assert (m - p) * w >= 0.0;
      assert m * Sum(ws) == m * Sum(ws') + m * w;
    }
  }

  /** `a / b <= m` for a positive `b` and `a <= m * b`. */
  lemma DivBelow(a: real, b: real, m: real)
    requires b > 0.0 && a <= m * b
    ensures a / b <= m
  {
    assert a / b * b == a;
    assert (m - a / b) * b >= 0.0;
  }

  /** `0 <= a / b <= 1` for `0 <= a <= b` and a positive `b`. */
  lemma DivWithin(a: real, b: real)
    requires b > 0.0 && 0.0 <= a <= b
    ensures 0.0 <= a / b <= 1.0
  {
    DivBelow(a, b, 1.0);
  }

  /** Two partial functions defined on the same elements collect lists of one length. */
  lemma {:induction false} CollectAligned<T>(xs: seq<T>, f: T -> Option<real>, g: T -> Option<real>)
    requires forall i :: 0 <= i < |xs| ==> (f(xs[i]).Some? <==> g(xs[i]).Some?)
    ensures |Collect(xs, f)| == |Collect(xs, g)|
  {
    if xs != [] {
      CollectAligned(xs[..|xs| - 1], f, g);
    }
  }
}
