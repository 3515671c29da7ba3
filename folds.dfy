/**
 * Left folds whose step may raise: the shape of every Python loop that
 * accumulates into a list or dictionary and may stop with an exception.
 */
module Folds {

  import opened Wrappers

  /** Run `step` over `xs` from the left, stopping at the first error. */
  function Fold<A, T>(xs: seq<T>, init: A, step: (A, T) -> Result<A>): Result<A>
    decreases |xs|
  {
    if xs == [] then Ok(init)
    else
      var acc :- Fold(xs[..|xs| - 1], init, step);
      step(acc, xs[|xs| - 1])
  }

  /** One more element is one more step. */
  lemma FoldStep<A, T>(xs: seq<T>, i: nat, init: A, step: (A, T) -> Result<A>)
    requires i < |xs|
    ensures Fold(xs[..i + 1], init, step) ==
            (match Fold(xs[..i], init, step)
             case Ok(acc) => step(acc, xs[i])
             case Err(e) => Err(e))
  {
    assert xs[..i + 1][..i] == xs[..i];
  }

  /** An error raised part-way through is the error of the whole loop. */
  lemma {:induction false} FoldErrSticks<A, T>(xs: seq<T>, i: nat, init: A, step: (A, T) -> Result<A>)
    requires i <= |xs| && Fold(xs[..i], init, step).Err?
    ensures Fold(xs, init, step) == Fold(xs[..i], init, step)
    decreases |xs| - i
  {
    if i == |xs| {
      assert xs[..i] == xs;
    } else {
      FoldStep(xs, i, init, step);
      FoldErrSticks(xs, i + 1, init, step);
    }
  }

  /** The fold of a concatenation is the fold of the tail from the fold of the head. */
  lemma {:induction false} FoldAppend<A, T>(xs: seq<T>, ys: seq<T>, init: A, step: (A, T) -> Result<A>)
    ensures Fold(xs + ys, init, step) ==
            (match Fold(xs, init, step)
             case Ok(acc) => Fold(ys, acc, step)
             case Err(e) => Err(e))
    decreases |ys|
  {
    if ys == [] {
      assert xs + ys == xs;
    } else {
      var zs := xs + ys;
      assert zs[..|zs| - 1] == xs + ys[..|ys| - 1];
      FoldAppend(xs, ys[..|ys| - 1], init, step);
    }
  }

  /**
   * The step of a loop that appends each success and, on a failure, either
   * raises it (`strict`) or skips the element.
   */
  function Gather<T, R>(strict: bool, f: T -> Result<R>): (seq<R>, T) -> Result<seq<R>>
  {
    (acc: seq<R>, x: T) =>
      match f(x)
      case Ok(v) => Ok(acc + [v])
      case Err(e) => if strict then Err(e) else Ok(acc)
  }

  /** The successful results of `f` over `xs`, in order. */
  function Successes<T, R>(xs: seq<T>, f: T -> Result<R>): (r: seq<R>)
    ensures |r| <= |xs|
  {
    if xs == [] then []
    else
      var prev := Successes(xs[..|xs| - 1], f);
      match f(xs[|xs| - 1])
      case Ok(v) => prev + [v]
      case Err(_) => prev
  }

  /** Skipping failures never raises and keeps exactly the successes, in order. */
  lemma {:induction false} LenientGather<T, R>(xs: seq<T>, f: T -> Result<R>)
    ensures Fold(xs, [], Gather(false, f)) == Ok(Successes(xs, f))
  {
    if xs != [] {
      LenientGather(xs[..|xs| - 1], f);
    }
  }

  /** Every kept result is the result of some element. */
  lemma {:induction false} SuccessesFrom<T, R>(xs: seq<T>, f: T -> Result<R>)
    ensures forall v :: v in Successes(xs, f) ==> exists x :: x in xs && f(x) == Ok(v)
  {
    if xs != [] {
      var init := xs[..|xs| - 1];
      SuccessesFrom(init, f);
      assert forall x :: x in init ==> x in xs;
    }
  }

  /** Raising on failures either fails or yields one result per element, in order. */
  lemma {:induction false} StrictGather<T, R>(xs: seq<T>, f: T -> Result<R>)
    ensures Fold(xs, [], Gather(true, f)).Ok? <==> forall i :: 0 <= i < |xs| ==> f(xs[i]).Ok?
    ensures Fold(xs, [], Gather(true, f)).Ok? ==>
      |Fold(xs, [], Gather(true, f)).value| == |xs| &&
      forall i :: 0 <= i < |xs| ==> Fold(xs, [], Gather(true, f)).value[i] == f(xs[i]).value
  {
    if xs != [] {
      var init := xs[..|xs| - 1];
      StrictGather(init, f);
      assert forall i :: 0 <= i < |init| ==> init[i] == xs[i];
    }
  }
}
