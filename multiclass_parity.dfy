/**
 * Multi-class weighted demographic parity (WDP) of
 * assurance/fairness/multiclass_parity.py: how far apart the groups'
 * prediction rates of each class lie, aggregated over the classes by one of
 * four strategies. The classes are the distinct predictions, a missing one
 * included; the groups are the distinct attribute values, a missing one
 * included (it selects no sample).
 */
module MulticlassParity {

  import opened Wrappers
  import opened Counting
  import opened Frames
  import opened Samples
  import Stats
  import Loops

  /** The strategies the source accepts. */
  predicate KnownStrategy(strategy: string)
  {
    strategy == "macro" || strategy == "micro" || strategy == "one-vs-rest" || strategy == "weighted"
  }

  /**
   * The validation: at least 30 samples, at least two distinct present
   * predictions (`nunique` skips the missing value) and at least two
   * groups (`unique` keeps it).
   */
  function CheckParity(s: seq<Sample>): (r: Option<Error>)
    ensures r.None? <==> |s| >= 30 && |Values(Preds(s))| >= 2 && |Groups(s)| >= 2
    ensures r.Some? ==> r.value.kind == ValueError
    ensures |s| < 30 ==> r == Some(Error(ValueError, "Minimum 30 samples required"))
  {
    if |s| < 30 then Some(Error(ValueError, "Minimum 30 samples required"))
    else if |Values(Preds(s))| < 2 then Some(Error(ValueError, "Need at least 2 classes"))
    else if |Groups(s)| < 2 then Some(Error(ValueError, "Need at least 2 protected groups"))
    else None
  }

  /** `(y_pred[mask] == cls).mean()` for a group with members; nothing for an empty group. */
  function GroupRate(s: seq<Sample>, cls: Cell, g: Cell): Option<real>
  {
    var m := Members(s, g);
    if m == [] then None else Some(RateEq(Preds(m), cls))
  }

  function GroupRateFn(s: seq<Sample>, cls: Cell): Cell -> Option<real>
  {
    g => GroupRate(s, cls, g)
  }

  /** The rates of class `cls` in the groups that have members, in group order. */
  function GroupRates(s: seq<Sample>, cls: Cell): seq<real>
  {
    Stats.Collect(Groups(s), GroupRateFn(s, cls))
  }

  /** `max(group_rates) - min(group_rates)`, when some group has members. */
  function Spread(s: seq<Sample>, cls: Cell): Option<real>
  {
    var rates := GroupRates(s, cls);
    if rates == [] then None else Some(Stats.Range(rates))
  }

  function SpreadFn(s: seq<Sample>): Cell -> Option<real>
  {
    cls => Spread(s, cls)
  }

  /** The spread with 0 for a class no group reports on. */
  function SpreadOr0(s: seq<Sample>, cls: Cell): real
  {
    match Spread(s, cls)
    case Some(d) => d
    case None => 0.0
  }

  function SpreadOr0Fn(s: seq<Sample>): Cell -> real
  {
    cls => SpreadOr0(s, cls)
  }

  /** `y_pred[mask].value_counts(normalize=True)` of every group, in group order. */
  function GroupOutcomes(s: seq<Sample>): (r: seq<seq<Cell>>)
    ensures |r| == |Groups(s)|
    ensures forall j :: 0 <= j < |r| ==> r[j] == Preds(Members(s, Groups(s)[j]))
  {
    var gs := Groups(s);
    seq(|gs|, j requires 0 <= j < |gs| => Preds(Members(s, gs[j])))
  }

  /** `group_outcomes.get(cls, 0.0)`: the share of `cls` among a group's present predictions. */
  function ShareOfFn(cls: Cell): seq<Cell> -> real
  {
    o => Share(o, cls)
  }

  /** The micro spread of a class: over every group, an empty one reading 0. */
  function MicroSpread(s: seq<Sample>, cls: Cell): real
  {
    var rates := Loops.Mapped(GroupOutcomes(s), ShareOfFn(cls));
    if rates == [] then 0.0 else Stats.Range(rates)
  }

  function MicroSpreadFn(s: seq<Sample>): Cell -> real
  {
    cls => MicroSpread(s, cls)
  }

  /**
   * `class_weights.get(cls, 1/len(classes))`: the share of the class among
   * the present predictions, or one over the number of classes for a class
   * that is not among them (the missing one). The class list is never empty
   * where a weight is asked for.
   */
  function Weight(s: seq<Sample>, cls: Cell): real
  {
    var classes := Distinct(Preds(s));
    if cls in Values(Preds(s)) then Share(Preds(s), cls)
    else if classes == [] then 0.0
    else 1.0 / |classes| as real
  }

  function Weighed(disparity: real, weight: real): real
  {
    disparity * weight
  }

  lemma WeighedWithin(disparity: real, weight: real)
    requires 0.0 <= disparity <= 1.0 && weight >= 0.0
    ensures 0.0 <= Weighed(disparity, weight) <= weight
  {
    Stats.ScaleWithin(disparity, weight);
  }

  lemma WeighedZero(weight: real)
    ensures Weighed(0.0, weight) == 0.0
  {
  }

  /** `disparity * weight` of one class. */
  function Term(s: seq<Sample>, cls: Cell): real
  {
    Weighed(SpreadOr0(s, cls), Weight(s, cls))
  }

  function TermFn(s: seq<Sample>): Cell -> real
  {
    cls => Term(s, cls)
  }

  /** `y_pred.unique()` */
  function Classes(s: seq<Sample>): seq<Cell>
  {
    Distinct(Preds(s))
  }

  /** `calc_weighted_demographic_parity_multiclass(y_true, y_pred, protected_attr, strategy)` */
  function WdpSpec(s: seq<Sample>, strategy: string): (r: Result<real>)
    ensures r.Err? <==> CheckParity(s).Some? || !KnownStrategy(strategy)
    ensures r.Err? ==> r.error.kind == ValueError
  {
    match CheckParity(s)
    case Some(e) => Err(e)
    case None =>
      var classes := Classes(s);
      if strategy == "macro" then Ok(Loops.MaxOr0(Stats.Collect(classes, SpreadFn(s))))
      else if strategy == "micro" then Ok(Loops.Peak(Loops.Mapped(classes, MicroSpreadFn(s))))
      else if strategy == "one-vs-rest" then Ok(Loops.MaxOr0(Loops.Mapped(classes, SpreadOr0Fn(s))))
      else if strategy == "weighted" then Ok(Stats.Sum(Loops.Mapped(classes, TermFn(s))))
      else Fail(ValueError, "Unknown strategy: " + strategy)
  }

  /** The inner group loop of the macro, one-vs-rest and weighted strategies. */
  method GroupRatesLoop(s: seq<Sample>, cls: Cell) returns (rates: seq<real>)
    ensures rates == GroupRates(s, cls)
  {
    rates := Loops.CollectEach(Groups(s), GroupRateFn(s, cls));
  }

  method SpreadOf(s: seq<Sample>, cls: Cell) returns (d: Option<real>)
    ensures d == Spread(s, cls)
  {
    var rates := GroupRatesLoop(s, cls);
    if rates != [] {
      d := Some(Stats.Range(rates));
    } else {
      d := None;
    }
  }

  method Macro(s: seq<Sample>) returns (v: real)
    ensures v == Loops.MaxOr0(Stats.Collect(Classes(s), SpreadFn(s)))
  {
    var classes := Classes(s);
    var disparities: seq<real> := [];
    var i := 0;
    while i < |classes|
      invariant 0 <= i <= |classes|
      invariant disparities == Stats.Collect(classes[..i], SpreadFn(s))
    {
      Stats.CollectStep(classes, i, SpreadFn(s));
      var d := SpreadOf(s, classes[i]);
      if d.Some? {
        disparities := disparities + [d.value];
      }
      i := i + 1;
    }
    assert classes[..i] == classes;
    v := if disparities != [] then Stats.Max(disparities) else 0.0;
  }

  /** The first loop of the micro strategy: each group's predictions, in group order. */
  method OutcomesLoop(s: seq<Sample>) returns (outcomes: seq<seq<Cell>>)
    ensures outcomes == GroupOutcomes(s)
  {
    var groups := Groups(s);
    outcomes := [];
    var j := 0;
    while j < |groups|
      invariant 0 <= j <= |groups|
      invariant outcomes == GroupOutcomes(s)[..j]
    {
      outcomes := outcomes + [Preds(Members(s, groups[j]))];
      j := j + 1;
    }
  }

  method MicroSpreadOf(s: seq<Sample>, outcomes: seq<seq<Cell>>, cls: Cell) returns (d: real)
    requires outcomes == GroupOutcomes(s)
    ensures d == MicroSpread(s, cls)
  {
    var rates := Loops.MapEach(outcomes, ShareOfFn(cls));
    d := if rates != [] then Stats.Range(rates) else 0.0;
  }

  method Micro(s: seq<Sample>) returns (v: real)
    ensures v == Loops.Peak(Loops.Mapped(Classes(s), MicroSpreadFn(s)))
  {
    var outcomes := OutcomesLoop(s);
    var classes := Classes(s);
    v := 0.0;
    var i := 0;
    while i < |classes|
      invariant 0 <= i <= |classes|
      invariant v == Loops.Peak(Loops.Mapped(classes[..i], MicroSpreadFn(s)))
    {
      Loops.MappedStep(classes, i, MicroSpreadFn(s));
      var d := MicroSpreadOf(s, outcomes, classes[i]);
      v := if d > v then d else v;
      i := i + 1;
    }
    assert classes[..i] == classes;
  }

  method OneVsRest(s: seq<Sample>) returns (v: real)
    ensures v == Loops.MaxOr0(Loops.Mapped(Classes(s), SpreadOr0Fn(s)))
  {
    var classes := Classes(s);
    var disparities: seq<real> := [];
    var i := 0;
    while i < |classes|
      invariant 0 <= i <= |classes|
      invariant disparities == Loops.Mapped(classes[..i], SpreadOr0Fn(s))
    {
      Loops.MappedStep(classes, i, SpreadOr0Fn(s));
      var d := SpreadOf(s, classes[i]);
      disparities := disparities + [if d.Some? then d.value else 0.0];
      i := i + 1;
    }
    assert classes[..i] == classes;
    v := if disparities != [] then Stats.Max(disparities) else 0.0;
  }

  method TermOf(s: seq<Sample>, cls: Cell) returns (t: real)
    ensures t == Term(s, cls)
  {
    var d := SpreadOf(s, cls);
    var disparity := if d.Some? then d.value else 0.0;
    assert disparity == SpreadOr0(s, cls);
    t := Weighed(disparity, Weight(s, cls));
  }

  method Weighted(s: seq<Sample>) returns (v: real)
    ensures v == Stats.Sum(Loops.Mapped(Classes(s), TermFn(s)))
  {
    var classes := Classes(s);
    var disparities: seq<real> := [];
    var i := 0;
    while i < |classes|
      invariant 0 <= i <= |classes|
      invariant disparities == Loops.Mapped(classes[..i], TermFn(s))
    {
      Loops.MappedStep(classes, i, TermFn(s));
      var t := TermOf(s, classes[i]);
      disparities := disparities + [t];
      i := i + 1;
    }
    assert classes[..i] == classes;
    v := Stats.Sum(disparities);
  }

  /** The metric itself: validation, then the chosen strategy's loops. */
  method WeightedDemographicParity(s: seq<Sample>, strategy: string) returns (r: Result<real>)
    ensures r == WdpSpec(s, strategy)
  {
    var check := CheckParity(s);
    if check.Some? {
      return Err(check.value);
    }
    var v: real;
    if strategy == "macro" {
      v := Macro(s);
    } else if strategy == "micro" {
      v := Micro(s);
    } else if strategy == "one-vs-rest" {
      v := OneVsRest(s);
    } else if strategy == "weighted" {
      v := Weighted(s);
    } else {
      return Fail(ValueError, "Unknown strategy: " + strategy);
    }
    return Ok(v);
  }

  /** Every group rate, and so every spread, lies in `[0, 1]`. */
  lemma SpreadWithin(s: seq<Sample>, cls: Cell)
    ensures Stats.Within(GroupRates(s, cls), 0.0, 1.0)
    ensures 0.0 <= SpreadOr0(s, cls) <= 1.0
  {
    Stats.CollectWithin(Groups(s), GroupRateFn(s, cls), 0.0, 1.0);
    if GroupRates(s, cls) != [] {
      Stats.RangeWithin(GroupRates(s, cls), 0.0, 1.0);
    }
  }

  /** Every micro spread lies in `[0, 1]`. */
  lemma MicroSpreadWithin(s: seq<Sample>, cls: Cell)
    ensures 0.0 <= MicroSpread(s, cls) <= 1.0
  {
    var rates := Loops.Mapped(GroupOutcomes(s), ShareOfFn(cls));
    if rates != [] {
      assert Stats.Within(rates, 0.0, 1.0);
      Stats.RangeWithin(rates, 0.0, 1.0);
    }
  }

  /** The missing class is predicted at rate 0 in every group, so its spread is 0. */
  lemma {:induction false} MissingClassSpreadZero(s: seq<Sample>)
    ensures SpreadOr0(s, Null) == 0.0
  {
    Stats.CollectConstant(Groups(s), GroupRateFn(s, Null), 0.0);
    if GroupRates(s, Null) != [] {
      Stats.RangeOfConstant(GroupRates(s, Null), 0.0);
    }
  }

  /** A class's weighted term lies between 0 and its share of the present predictions. */
  lemma TermBelowShare(s: seq<Sample>, cls: Cell)
    requires cls in Classes(s)
    ensures 0.0 <= Term(s, cls) <= Share(Preds(s), cls)
  {
    SpreadWithin(s, cls);
    if cls in Values(Preds(s)) {
      WeighedWithin(SpreadOr0(s, cls), Share(Preds(s), cls));
    } else {
      assert cls == Null;
      MissingClassSpreadZero(s);
      WeighedZero(Weight(s, cls));
    }
  }

  /** Terms bounded by the shares of distinct classes add up to at most the sum of those shares. */
  lemma {:induction false} TermsBelowShares(xs: seq<Cell>, cells: seq<Cell>, f: Cell -> real)
    requires forall i :: 0 <= i < |xs| ==> 0.0 <= f(xs[i]) <= Share(cells, xs[i])
    ensures 0.0 <= Stats.Sum(Loops.Mapped(xs, f)) <= ShareSum(xs, cells)
  {
    if xs != [] {
      var init := xs[..|xs| - 1];
      TermsBelowShares(init, cells, f);
      assert Loops.Mapped(xs, f) == Loops.Mapped(init, f) + [f(xs[|xs| - 1])];
    }
  }

  /** The weighted strategy's sum lies in `[0, 1]`: each term is at most its class's share. */
  lemma WeightedWithin(s: seq<Sample>)
    ensures 0.0 <= Stats.Sum(Loops.Mapped(Classes(s), TermFn(s))) <= 1.0
  {
    var classes := Classes(s);
    forall i | 0 <= i < |classes|
      ensures 0.0 <= TermFn(s)(classes[i]) <= Share(Preds(s), classes[i])
    {
      TermBelowShare(s, classes[i]);
    }
    TermsBelowShares(classes, Preds(s), TermFn(s));
    ShareSumBound(classes, Preds(s));
  }

  /** Every class's spread, where defined, lies in `[0, 1]`. */
  lemma SpreadsWithin(s: seq<Sample>)
    ensures Stats.Within(Stats.Collect(Classes(s), SpreadFn(s)), 0.0, 1.0)
  {
    var classes := Classes(s);
    forall i | 0 <= i < |classes| && SpreadFn(s)(classes[i]).Some?
      ensures 0.0 <= SpreadFn(s)(classes[i]).value <= 1.0
    {
      SpreadWithin(s, classes[i]);
    }
    Stats.CollectWithin(classes, SpreadFn(s), 0.0, 1.0);
  }

  /** Every strategy gives a disparity in `[0, 1]`. */
  lemma WdpWithin(s: seq<Sample>, strategy: string)
    ensures WdpSpec(s, strategy).Ok? ==> 0.0 <= WdpSpec(s, strategy).value <= 1.0
  {
    var classes := Classes(s);
    if strategy == "macro" {
      SpreadsWithin(s);
      Loops.MaxOr0Within(Stats.Collect(classes, SpreadFn(s)), 0.0, 1.0);
    } else if strategy == "micro" {
      forall i | 0 <= i < |classes|
        ensures 0.0 <= MicroSpreadFn(s)(classes[i]) <= 1.0
      {
        MicroSpreadWithin(s, classes[i]);
      }
      Loops.PeakWithin(Loops.Mapped(classes, MicroSpreadFn(s)), 1.0);
    } else if strategy == "one-vs-rest" {
      forall i | 0 <= i < |classes|
        ensures 0.0 <= SpreadOr0Fn(s)(classes[i]) <= 1.0
      {
        SpreadWithin(s, classes[i]);
      }
      Loops.MaxOr0Within(Loops.Mapped(classes, SpreadOr0Fn(s)), 0.0, 1.0);
    } else if strategy == "weighted" {
      WeightedWithin(s);
    }
  }

  /** Past validation some group has members, so every class has a spread. */
  lemma SpreadDefined(s: seq<Sample>, cls: Cell)
    requires |Groups(s)| >= 2
    ensures Spread(s, cls).Some?
  {
    SomeGroupHasMembers(s);
    var i :| 0 <= i < |Groups(s)| && Members(s, Groups(s)[i]) != [];
    Stats.CollectHas(Groups(s), i, GroupRateFn(s, cls));
  }

  /** Past validation the macro and one-vs-rest strategies agree: no class is skipped. */
  lemma MacroEqualsOneVsRest(s: seq<Sample>)
    requires CheckParity(s).None?
    ensures WdpSpec(s, "macro") == WdpSpec(s, "one-vs-rest")
  {
    var classes := Classes(s);
    forall i | 0 <= i < |classes|
      ensures SpreadFn(s)(classes[i]) == Some(SpreadOr0Fn(s)(classes[i]))
    {
      SpreadDefined(s, classes[i]);
    }
    Loops.CollectTotal(classes, SpreadFn(s), SpreadOr0Fn(s));
  }

  /** Every class is predicted at the same rate in every group that has members. */
  ghost predicate Independent(s: seq<Sample>)
  {
    forall cls, g, h :: cls in Classes(s) && GroupRate(s, cls, g).Some? && GroupRate(s, cls, h).Some? ==>
      GroupRate(s, cls, g) == GroupRate(s, cls, h)
  }

  /** A class's spread is 0 exactly when every group with members predicts it at the same rate. */
  lemma SpreadZeroIff(s: seq<Sample>, cls: Cell)
    requires Spread(s, cls).Some?
    ensures Spread(s, cls).value == 0.0 <==>
      forall g, h :: GroupRate(s, cls, g).Some? && GroupRate(s, cls, h).Some? ==> GroupRate(s, cls, g) == GroupRate(s, cls, h)
  {
    var gs := Groups(s);
    var f := GroupRateFn(s, cls);
    var rates := GroupRates(s, cls);
    Stats.RangeZero(rates);
    if Spread(s, cls).value == 0.0 {
      forall g, h | GroupRate(s, cls, g).Some? && GroupRate(s, cls, h).Some?
        ensures GroupRate(s, cls, g) == GroupRate(s, cls, h)
      {
        MembersListed(s, g);
        MembersListed(s, h);
        var ig :| 0 <= ig < |gs| && gs[ig] == g;
        var ih :| 0 <= ih < |gs| && gs[ih] == h;
        Stats.CollectHas(gs, ig, f);
        Stats.CollectHas(gs, ih, f);
      }
    } else {
      var i, j :| 0 <= i < |rates| && 0 <= j < |rates| && rates[i] != rates[j];
      Stats.CollectFrom(gs, f, rates[i]);
      Stats.CollectFrom(gs, f, rates[j]);
      var ig :| 0 <= ig < |gs| && f(gs[ig]) == Some(rates[i]);
      var ih :| 0 <= ih < |gs| && f(gs[ih]) == Some(rates[j]);
      assert GroupRate(s, cls, gs[ig]) != GroupRate(s, cls, gs[ih]);
    }
  }

  lemma MacroZeroIndependent(s: seq<Sample>)
    requires |Groups(s)| >= 2
    requires Loops.MaxOr0(Stats.Collect(Classes(s), SpreadFn(s))) == 0.0
    ensures Independent(s)
  {
    var classes := Classes(s);
    SpreadsWithin(s);
    Loops.MaxOr0Zero(Stats.Collect(classes, SpreadFn(s)));
    forall cls, g, h | cls in classes && GroupRate(s, cls, g).Some? && GroupRate(s, cls, h).Some?
      ensures GroupRate(s, cls, g) == GroupRate(s, cls, h)
    {
      var k :| 0 <= k < |classes| && classes[k] == cls;
      SpreadDefined(s, cls);
      Stats.CollectHas(classes, k, SpreadFn(s));
      SpreadZeroIff(s, cls);
    }
  }

  lemma IndependentMacroZero(s: seq<Sample>)
    requires Independent(s)
    ensures Loops.MaxOr0(Stats.Collect(Classes(s), SpreadFn(s))) == 0.0
  {
    var classes := Classes(s);
    var spreads := Stats.Collect(classes, SpreadFn(s));
    SpreadsWithin(s);
    forall i | 0 <= i < |spreads|
      ensures spreads[i] == 0.0
    {
      Stats.CollectFrom(classes, SpreadFn(s), spreads[i]);
      var k :| 0 <= k < |classes| && SpreadFn(s)(classes[k]) == Some(spreads[i]);
      SpreadZeroIff(s, classes[k]);
    }
    Loops.MaxOr0Zero(spreads);
  }

  /** The macro disparity is 0 exactly when predictions are independent of the group. */
  lemma MacroZeroIff(s: seq<Sample>)
    requires CheckParity(s).None?
    ensures WdpSpec(s, "macro") == Ok(0.0) <==> Independent(s)
  {
    if WdpSpec(s, "macro") == Ok(0.0) {
      MacroZeroIndependent(s);
    }
    if Independent(s) {
      IndependentMacroZero(s);
    }
  }
}
