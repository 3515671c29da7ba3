/**
 * The strictly validating group-fairness metrics of metrics/fairness.py:
 * binary demographic parity, equal opportunity, equalized odds and
 * predictive parity, their one-vs-rest multi-class versions, and the
 * multi-class confusion report. Every metric first demands the target,
 * prediction and dimension roles, each bound to a column.
 */
module FairnessMetrics {

  import opened Wrappers
  import opened Counting
  import opened Frames
  import opened Roles
  import opened Foreign
  import Ordered
  import Stats

  /** The three role columns, in the order target, prediction, dimension. */
  datatype Triple = Triple(target: string, pred: string, dim: string)

  /**
   * The shared validation: a role that is None or "MISSING" is a ValueError,
   * and so is a role naming a column the frame does not have.
   */
  function RequireRoles(df: Frame, kw: Kwargs): (r: Result<Triple>)
    ensures r.Ok? <==> (forall role :: role in ["target", "prediction", "dimension"] ==>
                          !Unset(Arg(kw, role)) && Arg(kw, role).value in df.columns)
    ensures r.Ok? ==> r.value == Triple(Arg(kw, "target").value, Arg(kw, "prediction").value, Arg(kw, "dimension").value)
    ensures r.Err? ==> r.error.kind == ValueError
  {
    var t, p, d := Arg(kw, "target"), Arg(kw, "prediction"), Arg(kw, "dimension");
    if Unset(t) || Unset(p) || Unset(d) then Fail(ValueError, "Missing required columns")
    else if t.value !in df.columns || p.value !in df.columns || d.value !in df.columns then
      Fail(ValueError, "Columns not found in DataFrame")
    else Ok(Triple(t.value, p.value, d.value))
  }

  /** A fairlearn failure is reported as a ValueError. */
  function AsValueError(r: Result<real>): (r': Result<real>)
    ensures r.Ok? ==> r' == r
    ensures r.Err? ==> r'.Err? && r'.error.kind == ValueError
  {
    if r.Ok? then r else Fail(ValueError, "Fairlearn calculation failed")
  }

  /** The rows of the group whose dimension value is `v`. */
  function GroupOf(df: Frame, dim: string, v: Cell): Frame
  {
    WhereEq(df, dim, v)
  }

  /** The mean prediction of a group (its positive prediction rate for 0/1 predictions). */
  function GroupMean(df: Frame, c: Triple, v: Cell): real
  {
    MeanOf(Column(GroupOf(df, c.dim, v), c.pred))
  }

  function PositiveRates(df: Frame, c: Triple): (r: seq<real>)
    ensures |r| == |GroupValues(df, c.dim)|
  {
    var groups := GroupValues(df, c.dim);
    seq(|groups|, i requires 0 <= i < |groups| => GroupMean(df, c, groups[i]))
  }

  /** `calc_demographic_parity`: the spread of the group prediction means. */
  function DemographicParity(df: Frame, kw: Kwargs, ext: Externals): (r: Result<real>)
    ensures RequireRoles(df, kw).Err? ==> r.Err? && r.error.kind == ValueError
    ensures r.Ok? && !ext.hasFairlearn ==>
      var c := RequireRoles(df, kw).value;
      PositiveRates(df, c) != [] && r.value == Stats.Range(PositiveRates(df, c))
    ensures RequireRoles(df, kw).Ok? && !ext.hasFairlearn ==>
      (r.Ok? <==> GroupValues(df, RequireRoles(df, kw).value.dim) != [])
    ensures RequireRoles(df, kw).Ok? && ext.hasFairlearn ==>
      var c := RequireRoles(df, kw).value;
      r == AsValueError(ext.dpDifference(Column(df, c.target), Column(df, c.pred), Column(df, c.dim)))
  {
    var c :- RequireRoles(df, kw);
    if ext.hasFairlearn then
      AsValueError(ext.dpDifference(Column(df, c.target), Column(df, c.pred), Column(df, c.dim)))
    else
      var pprs := PositiveRates(df, c);
      if pprs == [] then Fail(ValueError, "No groups found in dimension")
      else Ok(Stats.Range(pprs))
  }

  /** With 0/1 predictions, demographic parity lies in `[0, 1]`. */
  lemma DemographicParityWithin(df: Frame, kw: Kwargs, ext: Externals)
    requires !ext.hasFairlearn && RequireRoles(df, kw).Ok?
    requires Binary(Column(df, RequireRoles(df, kw).value.pred))
    ensures DemographicParity(df, kw, ext).Ok? ==> 0.0 <= DemographicParity(df, kw, ext).value <= 1.0
  {
    var c := RequireRoles(df, kw).value;
    var rates := PositiveRates(df, c);
    forall i | 0 <= i < |rates|
      ensures 0.0 <= rates[i] <= 1.0
    {
      var g := GroupOf(df, c.dim, GroupValues(df, c.dim)[i]);
      SubFrameWithin(df, g, c.pred, 0.0, 1.0);
      MeanOfWithin(Column(g, c.pred), 0.0, 1.0);
    }
    if rates != [] {
      Stats.RangeWithin(rates, 0.0, 1.0);
    }
  }

  /** The rows of a frame whose target is 1 (`grp[grp[target] == 1]`). */
  function Positives(g: Frame, target: string): Frame
  {
    WhereEq(g, target, Num(1.0))
  }

  /** `grp[grp[target] == 0]` */
  function Negatives(g: Frame, target: string): Frame
  {
    WhereEq(g, target, Num(0.0))
  }

  /** A group's true positive rate; undefined without positives, or when their predictions hold no number (NaN). */
  function Tpr(df: Frame, c: Triple, v: Cell): Option<real>
  {
    var pos := Positives(GroupOf(df, c.dim, v), c.target);
    if pos.rows == [] || Nums(Column(pos, c.pred)) == [] then None
    else Some(MeanOf(Column(pos, c.pred)))
  }

  function TprFn(df: Frame, c: Triple): Cell -> Option<real>
  {
    v => Tpr(df, c, v)
  }

  /** A group's false positive rate `(neg[pred] == 1).mean()`; undefined without negatives. */
  function Fpr(df: Frame, c: Triple, v: Cell): Option<real>
  {
    var neg := Negatives(GroupOf(df, c.dim, v), c.target);
    if neg.rows == [] then None else Some(RateEq(Column(neg, c.pred), Num(1.0)))
  }

  function FprFn(df: Frame, c: Triple): Cell -> Option<real>
  {
    v => Fpr(df, c, v)
  }

  /** A group's precision `tp / (tp + fp)`; undefined without predicted positives. */
  function Precision(df: Frame, c: Triple, v: Cell): Option<real>
  {
    var g := GroupOf(df, c.dim, v);
    var tp := CountBoth(g.rows, c, Num(1.0));
    var fp := CountBoth(g.rows, c, Num(0.0));
    if tp + fp > 0 then Some(tp as real / (tp + fp) as real) else None
  }

  function PrecisionFn(df: Frame, c: Triple): Cell -> Option<real>
  {
    v => Precision(df, c, v)
  }

  /** `((g[target] == y) & (g[pred] == 1)).sum()` */
  function CountBoth(rows: seq<Row>, c: Triple, y: Cell): nat
  {
    if rows == [] then 0
    else
      var last := rows[|rows| - 1];
      CountBoth(rows[..|rows| - 1], c, y) + (if Eq(At(last, c.target), y) && Eq(At(last, c.pred), Num(1.0)) then 1 else 0)
  }

  /** The equal-opportunity result from the collected rates. */
  function EqualOpportunitySpec(df: Frame, kw: Kwargs, ext: Externals): (r: Result<real>)
  {
    var c :- RequireRoles(df, kw);
    if ext.hasFairlearn then
      AsValueError(ext.eoDifference(Column(df, c.target), Column(df, c.pred), Column(df, c.dim)))
    else
      var tprs := Stats.Collect(GroupValues(df, c.dim), TprFn(df, c));
      if tprs == [] then Fail(ValueError, "No positive samples found for equal_opportunity calculation")
      else Ok(Stats.Range(tprs))
  }

  /** `calc_equal_opportunity`: the loop over the groups appending each defined TPR. */
  method EqualOpportunity(df: Frame, kw: Kwargs, ext: Externals) returns (r: Result<real>)
    ensures r == EqualOpportunitySpec(df, kw, ext)
  {
    var roles := RequireRoles(df, kw);
    if roles.Err? {
      return Err(roles.error);
    }
    var c := roles.value;
    if ext.hasFairlearn {
      return AsValueError(ext.eoDifference(Column(df, c.target), Column(df, c.pred), Column(df, c.dim)));
    }
    var groups := GroupValues(df, c.dim);
    var tprs: seq<real> := [];
    var i := 0;
    while i < |groups|
      invariant 0 <= i <= |groups|
      invariant tprs == Stats.Collect(groups[..i], TprFn(df, c))
    {
      Stats.CollectStep(groups, i, TprFn(df, c));
      var t := Tpr(df, c, groups[i]);
      if t.Some? {
        tprs := tprs + [t.value];
      }
      i := i + 1;
    }
    assert groups[..i] == groups;
    if tprs == [] {
      return Fail(ValueError, "No positive samples found for equal_opportunity calculation");
    }
    return Ok(Stats.Range(tprs));
  }

  /** With 0/1 predictions, equal opportunity lies in `[0, 1]`; it fails only when no group has a positive. */
  lemma EqualOpportunityWithin(df: Frame, kw: Kwargs, ext: Externals)
    requires !ext.hasFairlearn && RequireRoles(df, kw).Ok?
    requires Binary(Column(df, RequireRoles(df, kw).value.pred))
    ensures EqualOpportunitySpec(df, kw, ext).Ok? ==> 0.0 <= EqualOpportunitySpec(df, kw, ext).value <= 1.0
    ensures EqualOpportunitySpec(df, kw, ext).Err? <==>
      var c := RequireRoles(df, kw).value;
      forall v :: v in GroupValues(df, c.dim) ==> Tpr(df, c, v).None?
  {
    var c := RequireRoles(df, kw).value;
    var groups := GroupValues(df, c.dim);
    TprsWithin(df, c);
    Stats.CollectEmpty(groups, TprFn(df, c));
    var tprs := Stats.Collect(groups, TprFn(df, c));
    if tprs != [] {
      Stats.RangeWithin(tprs, 0.0, 1.0);
    }
  }

  lemma TprsWithin(df: Frame, c: Triple)
    requires Binary(Column(df, c.pred))
    ensures Stats.Within(Stats.Collect(GroupValues(df, c.dim), TprFn(df, c)), 0.0, 1.0)
  {
    var groups := GroupValues(df, c.dim);
    forall i | 0 <= i < |groups| && TprFn(df, c)(groups[i]).Some?
      ensures 0.0 <= TprFn(df, c)(groups[i]).value <= 1.0
    {
      var g := GroupOf(df, c.dim, groups[i]);
      var pos := Positives(g, c.target);
      SubFrameWithin(df, pos, c.pred, 0.0, 1.0);
      MeanOfWithin(Column(pos, c.pred), 0.0, 1.0);
    }
    Stats.CollectWithin(groups, TprFn(df, c), 0.0, 1.0);
  }

  lemma FprsWithin(df: Frame, c: Triple)
    ensures Stats.Within(Stats.Collect(GroupValues(df, c.dim), FprFn(df, c)), 0.0, 1.0)
  {
    Stats.CollectWithin(GroupValues(df, c.dim), FprFn(df, c), 0.0, 1.0);
  }

  /** The TPR spread plus the FPR spread; a ValueError when either list is empty. */
  function OddsGap(tprs: seq<real>, fprs: seq<real>): Result<real>
  {
    if tprs == [] || fprs == [] then Fail(ValueError, "Insufficient positive or negative samples for equalized_odds calculation")
    else Ok(Stats.Range(tprs) + Stats.Range(fprs))
  }

  function EqualizedOddsSpec(df: Frame, kw: Kwargs): (r: Result<real>)
  {
    var c :- RequireRoles(df, kw);
    OddsGap(Stats.Collect(GroupValues(df, c.dim), TprFn(df, c)), Stats.Collect(GroupValues(df, c.dim), FprFn(df, c)))
  }

  /** `calc_equalized_odds_ratio`: one loop filling both rate lists. */
  method EqualizedOdds(df: Frame, kw: Kwargs) returns (r: Result<real>)
    ensures r == EqualizedOddsSpec(df, kw)
  {
    var roles := RequireRoles(df, kw);
    if roles.Err? {
      return Err(roles.error);
    }
    var c := roles.value;
    var tprs, fprs := CollectBoth(GroupValues(df, c.dim), TprFn(df, c), FprFn(df, c));
    r := OddsGap(tprs, fprs);
  }

  /** The loop of `calc_equalized_odds_ratio`: each group appends its TPR and its FPR when defined. */
  method CollectBoth(groups: seq<Cell>, tpr: Cell -> Option<real>, fpr: Cell -> Option<real>)
    returns (tprs: seq<real>, fprs: seq<real>)
    ensures tprs == Stats.Collect(groups, tpr)
    ensures fprs == Stats.Collect(groups, fpr)
  {
    tprs, fprs := [], [];
    var i := 0;
    while i < |groups|
      invariant 0 <= i <= |groups|
      invariant tprs == Stats.Collect(groups[..i], tpr)
      invariant fprs == Stats.Collect(groups[..i], fpr)
    {
      Stats.CollectStep(groups, i, tpr);
      Stats.CollectStep(groups, i, fpr);
      var t := tpr(groups[i]);
      if t.Some? {
        tprs := tprs + [t.value];
      }
      var f := fpr(groups[i]);
      if f.Some? {
        fprs := fprs + [f.value];
      }
      i := i + 1;
    }
    assert groups[..i] == groups;
  }

  /** With 0/1 predictions, equalized odds (TPR spread plus FPR spread) lies in `[0, 2]`. */
  lemma EqualizedOddsWithin(df: Frame, kw: Kwargs)
    requires RequireRoles(df, kw).Ok?
    requires Binary(Column(df, RequireRoles(df, kw).value.pred))
    ensures EqualizedOddsSpec(df, kw).Ok? ==> 0.0 <= EqualizedOddsSpec(df, kw).value <= 2.0
  {
    var c := RequireRoles(df, kw).value;
    var groups := GroupValues(df, c.dim);
    var tprs := Stats.Collect(groups, TprFn(df, c));
    var fprs := Stats.Collect(groups, FprFn(df, c));
    TprsWithin(df, c);
    FprsWithin(df, c);
    if tprs != [] && fprs != [] {
      Stats.RangeWithin(tprs, 0.0, 1.0);
      Stats.RangeWithin(fprs, 0.0, 1.0);
    }
  }

  function PredictiveParitySpec(df: Frame, kw: Kwargs): (r: Result<real>)
  {
    var c :- RequireRoles(df, kw);
    var precisions := Stats.Collect(GroupValues(df, c.dim), PrecisionFn(df, c));
    if precisions == [] then Fail(ValueError, "No predictions found for precision calculation")
    else Ok(Stats.Range(precisions))
  }

  /** `calc_predictive_parity`: the loop over groups with at least one predicted positive. */
  method PredictiveParity(df: Frame, kw: Kwargs) returns (r: Result<real>)
    ensures r == PredictiveParitySpec(df, kw)
  {
    var roles := RequireRoles(df, kw);
    if roles.Err? {
      return Err(roles.error);
    }
    var c := roles.value;
    var groups := GroupValues(df, c.dim);
    var precisions: seq<real> := [];
    var i := 0;
    while i < |groups|
      invariant 0 <= i <= |groups|
      invariant precisions == Stats.Collect(groups[..i], PrecisionFn(df, c))
    {
      Stats.CollectStep(groups, i, PrecisionFn(df, c));
      var p := Precision(df, c, groups[i]);
      if p.Some? {
        precisions := precisions + [p.value];
      }
      i := i + 1;
    }
    assert groups[..i] == groups;
    if precisions == [] {
      return Fail(ValueError, "No predictions found for precision calculation");
    }
    return Ok(Stats.Range(precisions));
  }

  /** A precision is a fraction of counts, so predictive parity lies in `[0, 1]` on any data. */
  lemma PredictiveParityWithin(df: Frame, kw: Kwargs)
    ensures PredictiveParitySpec(df, kw).Ok? ==> 0.0 <= PredictiveParitySpec(df, kw).value <= 1.0
  {
    var roles := RequireRoles(df, kw);
    if roles.Ok? {
      var c := roles.value;
      var groups := GroupValues(df, c.dim);
      forall i | 0 <= i < |groups| && PrecisionFn(df, c)(groups[i]).Some?
        ensures 0.0 <= PrecisionFn(df, c)(groups[i]).value <= 1.0
      {
        var g := GroupOf(df, c.dim, groups[i]);
        var tp := CountBoth(g.rows, c, Num(1.0));
        var fp := CountBoth(g.rows, c, Num(0.0));
        FractionWithin(tp as real, (tp + fp) as real);
      }
      Stats.CollectWithin(groups, PrecisionFn(df, c), 0.0, 1.0);
      var ps := Stats.Collect(groups, PrecisionFn(df, c));
      if ps != [] {
        Stats.RangeWithin(ps, 0.0, 1.0);
      }
    }
  }

  // ---------------------------------------------------------------------
  // Multi-class, one class against the rest
  // ---------------------------------------------------------------------

  /** `kwargs.get('aggregation', 'max')` */
  function Aggregation(kw: Kwargs): string
  {
    match Arg(kw, "aggregation")
    case Some(a) => a
    case None => "max"
  }

  /** The share of rows whose target is `cls`: `(df[target] == cls).sum() / len(df)`. */
  function ClassWeight(df: Frame, target: string, cls: Cell): real
  {
    RateEq(Column(df, target), cls)
  }

  function ClassWeights(df: Frame, target: string, classes: seq<Cell>): (r: seq<real>)
    ensures |r| == |classes|
    ensures forall i :: 0 <= i < |r| ==> r[i] >= 0.0
  {
    if classes == [] then []
    else ClassWeights(df, target, classes[..|classes| - 1]) + [ClassWeight(df, target, classes[|classes| - 1])]
  }

  /** `macro` is the mean, `micro` the class-weighted sum, anything else the maximum. */
  function Aggregate(aggregation: string, parities: seq<real>, weights: seq<real>): real
    requires parities != [] && |parities| == |weights|
  {
    if aggregation == "macro" then Stats.Mean(parities)
    else if aggregation == "micro" then Stats.Dot(parities, weights)
    else Stats.Max(parities)
  }

  /** Aggregating spreads in `[0, 1]` stays in `[0, 1]` when the weights add up to at most 1. */
  lemma AggregateWithin(aggregation: string, parities: seq<real>, weights: seq<real>)
    requires parities != [] && |parities| == |weights|
    requires Stats.Within(parities, 0.0, 1.0)
    requires forall i :: 0 <= i < |weights| ==> weights[i] >= 0.0
    requires Stats.Sum(weights) <= 1.0
    ensures 0.0 <= Aggregate(aggregation, parities, weights) <= 1.0
  {
    if aggregation == "macro" {
      Stats.MeanWithin(parities, 0.0, 1.0);
    } else if aggregation == "micro" {
      Stats.DotWithin(parities, weights);
    }
  }

  /** The rate at which a group is predicted `cls`. */
  function ClassGroupRate(df: Frame, c: Triple, cls: Cell, v: Cell): Option<real>
  {
    Some(RateEq(Column(GroupOf(df, c.dim, v), c.pred), cls))
  }

  function ClassGroupRateFn(df: Frame, c: Triple, cls: Cell): Cell -> Option<real>
  {
    v => ClassGroupRate(df, c, cls, v)
  }

  /** The spread across groups of the rate of predicting `cls`; undefined without groups. */
  function ClassParity(df: Frame, c: Triple, cls: Cell): Option<real>
  {
    var pprs := Stats.Collect(GroupValues(df, c.dim), ClassGroupRateFn(df, c, cls));
    if pprs == [] then None else Some(Stats.Range(pprs))
  }

  function ClassParityFn(df: Frame, c: Triple): Cell -> Option<real>
  {
    cls => ClassParity(df, c, cls)
  }

  /** The TPR of a group for class `cls`; undefined when the group has no member of `cls`. */
  function ClassGroupTpr(df: Frame, c: Triple, cls: Cell, v: Cell): Option<real>
  {
    var pos := WhereEq(GroupOf(df, c.dim, v), c.target, cls);
    if pos.rows == [] then None else Some(RateEq(Column(pos, c.pred), cls))
  }

  function ClassGroupTprFn(df: Frame, c: Triple, cls: Cell): Cell -> Option<real>
  {
    v => ClassGroupTpr(df, c, cls, v)
  }

  function ClassTprParity(df: Frame, c: Triple, cls: Cell): Option<real>
  {
    var tprs := Stats.Collect(GroupValues(df, c.dim), ClassGroupTprFn(df, c, cls));
    if tprs == [] then None else Some(Stats.Range(tprs))
  }

  function ClassTprParityFn(df: Frame, c: Triple): Cell -> Option<real>
  {
    cls => ClassTprParity(df, c, cls)
  }

  /**
   * The multi-class skeleton: at least two target values (missing counts as
   * one), one parity per class that has one, and the aggregation.
   */
  function MulticlassSpec(df: Frame, kw: Kwargs, perClass: Triple -> Cell -> Option<real>): (r: Result<real>)
    ensures r.Ok? ==> RequireRoles(df, kw).Ok? && |Distinct(Column(df, RequireRoles(df, kw).value.target))| >= 2
  {
    var c :- RequireRoles(df, kw);
    var classes := Distinct(Column(df, c.target));
    if |classes| < 2 then Fail(ValueError, "Expected multi-class")
    else
      var parities := Stats.Collect(classes, perClass(c));
      if parities == [] then Fail(ValueError, "No parity scores calculated")
      else
        var weights := ClassWeights(df, c.target, classes);
        // `zip` stops at the shorter list
        Ok(Aggregate(Aggregation(kw), parities, weights[..|parities|]))
  }

  function DpPerClass(df: Frame): Triple -> Cell -> Option<real>
  {
    c => ClassParityFn(df, c)
  }

  function EoPerClass(df: Frame): Triple -> Cell -> Option<real>
  {
    c => ClassTprParityFn(df, c)
  }

  /** `calc_multiclass_demographic_parity` */
  method MulticlassDemographicParity(df: Frame, kw: Kwargs) returns (r: Result<real>)
    ensures r == MulticlassSpec(df, kw, DpPerClass(df))
  {
    r := MulticlassLoop(df, kw, DpPerClass(df));
  }

  /** `calc_multiclass_equal_opportunity` */
  method MulticlassEqualOpportunity(df: Frame, kw: Kwargs) returns (r: Result<real>)
    ensures r == MulticlassSpec(df, kw, EoPerClass(df))
  {
    r := MulticlassLoop(df, kw, EoPerClass(df));
  }

  /** The class loop shared by both multi-class metrics. */
  method MulticlassLoop(df: Frame, kw: Kwargs, perClass: Triple -> Cell -> Option<real>) returns (r: Result<real>)
    ensures r == MulticlassSpec(df, kw, perClass)
  {
    var roles := RequireRoles(df, kw);
    if roles.Err? {
      return Err(roles.error);
    }
    var c := roles.value;
    var classes := Distinct(Column(df, c.target));
    if |classes| < 2 {
      return Fail(ValueError, "Expected multi-class");
    }
    var parities: seq<real> := [];
    var i := 0;
    while i < |classes|
      invariant 0 <= i <= |classes|
      invariant parities == Stats.Collect(classes[..i], perClass(c))
    {
      Stats.CollectStep(classes, i, perClass(c));
      var p := perClass(c)(classes[i]);
      if p.Some? {
        parities := parities + [p.value];
      }
      i := i + 1;
    }
    assert classes[..i] == classes;
    if parities == [] {
      return Fail(ValueError, "No parity scores calculated");
    }
    var weights := ClassWeights(df, c.target, classes);
    return Ok(Aggregate(Aggregation(kw), parities, weights[..|parities|]));
  }

  /** The class weights add up to at most 1: every row counts for at most one class. */
  lemma ClassWeightsSum(df: Frame, target: string)
    ensures Stats.Sum(ClassWeights(df, target, Distinct(Column(df, target)))) <= 1.0
  {
    var col := Column(df, target);
    var classes := Distinct(col);
    if df.rows != [] {
      var n := |df.rows| as real;
      WeightsBelowCounts(df, target, classes);
      DistinctCountsSum(col);
      var s := SumCounts(classes, col) as real;
      assert s == n;
      DivSelf(n);
    } else {
      assert |classes| <= |col| == 0;
    }
  }

  lemma DivSelf(n: real)
    requires n > 0.0
    ensures n / n == 1.0
  {
  }

  /** Each class weight is its count over the number of rows, or less for a missing class. */
  lemma {:induction false} WeightsBelowCounts(df: Frame, target: string, classes: seq<Cell>)
    requires df.rows != []
    ensures Stats.Sum(ClassWeights(df, target, classes))
      <= SumCounts(classes, Column(df, target)) as real / |df.rows| as real
  {
    var col := Column(df, target);
    var n := |df.rows| as real;
    if classes != [] {
      var init, last := classes[..|classes| - 1], classes[|classes| - 1];
      WeightsBelowCounts(df, target, init);
      Stats.SumAppend(ClassWeights(df, target, init), ClassWeight(df, target, last));
      var a, b := SumCounts(init, col) as real, Count(col, last) as real;
      assert ClassWeight(df, target, last) <= b / n by {
        DivMono(CountEq(col, last) as real, b, n);
      }
      assert SumCounts(classes, col) as real == a + b;
      DivAdd(a, b, n);
    }
  }

  lemma FractionWithin(a: real, b: real)
    requires 0.0 <= a <= b && b > 0.0
    ensures 0.0 <= a / b <= 1.0
  {
  }

  lemma DivAdd(a: real, b: real, n: real)
    requires n > 0.0
    ensures a / n + b / n == (a + b) / n
  {
  }

  lemma DivMono(a: real, b: real, n: real)
    requires n > 0.0 && a <= b
    ensures a / n <= b / n
  {
  }

  /** Multi-class parities lie in `[0, 1]` for every aggregation. */
  lemma MulticlassWithin(df: Frame, kw: Kwargs, perClass: Triple -> Cell -> Option<real>)
    requires forall c: Triple, cls: Cell :: perClass(c)(cls).Some? ==> 0.0 <= perClass(c)(cls).value <= 1.0
    ensures MulticlassSpec(df, kw, perClass).Ok? ==> 0.0 <= MulticlassSpec(df, kw, perClass).value <= 1.0
  {
    var roles := RequireRoles(df, kw);
    if roles.Ok? {
      var c := roles.value;
      var classes := Distinct(Column(df, c.target));
      Stats.CollectWithin(classes, perClass(c), 0.0, 1.0);
      var parities := Stats.Collect(classes, perClass(c));
      if |classes| >= 2 && parities != [] {
        var weights := ClassWeights(df, c.target, classes);
        ClassWeightsSum(df, c.target);
        PrefixSumBelow(weights, |parities|);
        AggregateWithin(Aggregation(kw), parities, weights[..|parities|]);
      }
    }
  }

  lemma {:induction false} PrefixSumBelow(ws: seq<real>, k: nat)
    requires k <= |ws| && forall i :: 0 <= i < |ws| ==> ws[i] >= 0.0
    ensures Stats.Sum(ws[..k]) <= Stats.Sum(ws)
  {
    if k < |ws| {
      PrefixSumBelow(ws[..|ws| - 1], k);
      assert ws[..|ws| - 1][..k] == ws[..k];
    } else {
      assert ws[..k] == ws;
    }
  }

  /** Both multi-class metrics compare rates, so every class parity lies in `[0, 1]`. */
  lemma DpPerClassWithin(df: Frame)
    ensures forall c: Triple, cls: Cell :: DpPerClass(df)(c)(cls).Some? ==> 0.0 <= DpPerClass(df)(c)(cls).value <= 1.0
  {
    forall c: Triple, cls: Cell | DpPerClass(df)(c)(cls).Some?
      ensures 0.0 <= DpPerClass(df)(c)(cls).value <= 1.0
    {
      var groups := GroupValues(df, c.dim);
      Stats.CollectWithin(groups, ClassGroupRateFn(df, c, cls), 0.0, 1.0);
      Stats.RangeWithin(Stats.Collect(groups, ClassGroupRateFn(df, c, cls)), 0.0, 1.0);
    }
  }

  lemma EoPerClassWithin(df: Frame)
    ensures forall c: Triple, cls: Cell :: EoPerClass(df)(c)(cls).Some? ==> 0.0 <= EoPerClass(df)(c)(cls).value <= 1.0
  {
    forall c: Triple, cls: Cell | EoPerClass(df)(c)(cls).Some?
      ensures 0.0 <= EoPerClass(df)(c)(cls).value <= 1.0
    {
      var groups := GroupValues(df, c.dim);
      Stats.CollectWithin(groups, ClassGroupTprFn(df, c, cls), 0.0, 1.0);
      Stats.RangeWithin(Stats.Collect(groups, ClassGroupTprFn(df, c, cls)), 0.0, 1.0);
    }
  }
}
