/**
 * The list-building loops the multi-class metrics are made of, written once
 * over a per-element function: appending the defined values, mapping, and
 * keeping a running maximum that starts at 0.
 */
module Loops {

  import opened Wrappers
  import Stats

  /** `out = []; for x in xs: if f(x) is defined: out.append(f(x))` */
  method CollectEach<T>(xs: seq<T>, f: T -> Option<real>) returns (out: seq<real>)
    ensures out == Stats.Collect(xs, f)
  {
    out := [];
    var i := 0;
    while i < |xs|
      invariant 0 <= i <= |xs|
      invariant out == Stats.Collect(xs[..i], f)
    {
      Stats.CollectStep(xs, i, f);
      var v := f(xs[i]);
      if v.Some? {
        out := out + [v.value];
      }
      i := i + 1;
    }
    assert xs[..i] == xs;
  }

  /** `[f(x) for x in xs]` */
  function Mapped<T>(xs: seq<T>, f: T -> real): (r: seq<real>)
    ensures |r| == |xs|
    ensures forall i :: 0 <= i < |xs| ==> r[i] == f(xs[i])
  {
    seq(|xs|, i requires 0 <= i < |xs| => f(xs[i]))
  }

  lemma MappedStep<T>(xs: seq<T>, i: nat, f: T -> real)
    requires i < |xs|
    ensures Mapped(xs[..i + 1], f) == Mapped(xs[..i], f) + [f(xs[i])]
  {
  }

  method MapEach<T>(xs: seq<T>, f: T -> real) returns (out: seq<real>)
    ensures out == Mapped(xs, f)
  {
    out := [];
    var i := 0;
    while i < |xs|
      invariant 0 <= i <= |xs|
      invariant out == Mapped(xs[..i], f)
    {
      out := out + [f(xs[i])];
      i := i + 1;
    }
    assert xs[..i] == xs;
  }

  /** `max(xs) if xs else 0.0` */
  function MaxOr0(xs: seq<real>): real
  {
    if xs == [] then 0.0 else Stats.Max(xs)
  }

  /** `m = 0.0; for x in xs: m = max(m, x)` */
  function Peak(xs: seq<real>): (r: real)
    ensures r >= 0.0
  {
    if xs == [] then 0.0
    else
      var m := Peak(xs[..|xs| - 1]);
      if xs[|xs| - 1] > m then xs[|xs| - 1] else m
  }

  /** Over values that are not negative, the running maximum from 0 is the maximum. */
  lemma {:induction false} PeakIsMax(xs: seq<real>)
    requires forall i :: 0 <= i < |xs| ==> xs[i] >= 0.0
    ensures Peak(xs) == MaxOr0(xs)
  {
    if |xs| > 1 {
      PeakIsMax(xs[..|xs| - 1]);
    }
  }

  method PeakEach<T>(xs: seq<T>, f: T -> real) returns (m: real)
    ensures m == Peak(Mapped(xs, f))
  {
    m := 0.0;
    var i := 0;
    while i < |xs|
      invariant 0 <= i <= |xs|
      invariant m == Peak(Mapped(xs[..i], f))
    {
      assert Mapped(xs[..i + 1], f)[..i] == Mapped(xs[..i], f);
      var d := f(xs[i]);
      m := if d > m then d else m;
      i := i + 1;
    }
    assert xs[..i] == xs;
  }

  /** `sum(xs)` as a loop. */
  method SumEach<T>(xs: seq<T>, f: T -> real) returns (total: real)
    ensures total == Stats.Sum(Mapped(xs, f))
  {
    total := 0.0;
    var i := 0;
    while i < |xs|
      invariant 0 <= i <= |xs|
      invariant total == Stats.Sum(Mapped(xs[..i], f))
    {
      assert Mapped(xs[..i + 1], f)[..i] == Mapped(xs[..i], f);
      total := total + f(xs[i]);
      i := i + 1;
    }
    assert xs[..i] == xs;
  }

  /** When `f` is defined everywhere, collecting is mapping. */
  lemma {:induction false} CollectTotal<T>(xs: seq<T>, f: T -> Option<real>, g: T -> real)
    requires forall i :: 0 <= i < |xs| ==> f(xs[i]) == Some(g(xs[i]))
    ensures Stats.Collect(xs, f) == Mapped(xs, g)
  {
    if xs != [] {
      CollectTotal(xs[..|xs| - 1], f, g);
      assert Mapped(xs, g) == Mapped(xs[..|xs| - 1], g) + [g(xs[|xs| - 1])];
    }
  }

  /** The running maximum of values in `[0, hi]` stays in `[0, hi]`. */
  lemma {:induction false} PeakWithin(xs: seq<real>, hi: real)
    requires hi >= 0.0 && Stats.Within(xs, 0.0, hi)
    ensures 0.0 <= Peak(xs) <= hi
  {
    if xs != [] {
      PeakWithin(xs[..|xs| - 1], hi);
    }
  }

  /** Over values that are not negative, the maximum is 0 exactly when every value is. */
  lemma MaxOr0Zero(xs: seq<real>)
    requires forall i :: 0 <= i < |xs| ==> xs[i] >= 0.0
    ensures MaxOr0(xs) == 0.0 <==> forall i :: 0 <= i < |xs| ==> xs[i] == 0.0
  {
  }

  /** The maximum, 0 for none, is at least every value. */
  lemma MaxOr0AtLeast(xs: seq<real>, x: real)
    requires x in xs
    ensures MaxOr0(xs) >= x
  {
    var i :| 0 <= i < |xs| && xs[i] == x;
    assert Stats.Max(xs) >= xs[i];
  }

  /** A maximum of values in `[lo, hi]`, 0 for none, lies in `[lo, hi]` when `lo <= 0 <= hi`. */
  lemma MaxOr0Within(xs: seq<real>, lo: real, hi: real)
    requires lo <= 0.0 <= hi && Stats.Within(xs, lo, hi)
    ensures lo <= MaxOr0(xs) <= hi
  {
  }
}
