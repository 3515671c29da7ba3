/**
 * The lenient binary group-fairness metrics of
 * assurance/fairness/fairness_binary.py. Unlike the strict versions they
 * only refuse unset roles; a role that names no column fails with pandas'
 * KeyError at the first access, and a metric with nothing to compare is 0.
 * Demographic parity and equal opportunity score the prediction when it is
 * given and the target otherwise (data-audit mode).
 */
module BinaryFairness {

  import opened Wrappers
  import opened Frames
  import opened Roles
  import opened Foreign
  import Stats
  import opened FairnessMetrics

  /** `pred if (pred and pred != "MISSING") else target` */
  function Outcome(kw: Kwargs): Option<string>
  {
    var pred := Arg(kw, "prediction");
    if !Falsy(pred) && pred != Some(Missing) then pred else Arg(kw, "target")
  }

  /** `df[target]`, `df[outcome]`, `df[dim]` handed to fairlearn; a missing column is pandas' KeyError. */
  function Fairlearn(df: Frame, target: Option<string>, outcome: string, dim: string,
                     metric: (Series, Series, Series) -> Result<real>): (r: Result<real>)
    ensures target.None? || target.value !in df.columns || outcome !in df.columns || dim !in df.columns ==>
      r.Err? && r.error.kind == KeyError
  {
    if target.None? then Fail(KeyError, "None")
    else if target.value !in df.columns then Fail(KeyError, target.value)
    else if outcome !in df.columns then Fail(KeyError, outcome)
    else if dim !in df.columns then Fail(KeyError, dim)
    else metric(Column(df, target.value), Column(df, outcome), Column(df, dim))
  }

  // ---------------------------------------------------------------------
  // Demographic parity
  // ---------------------------------------------------------------------

  /** `[grp[outcome].mean() for _, grp in df.groupby(dim)]` */
  function OutcomeMeans(df: Frame, outcome: string, dim: string): (r: seq<real>)
    ensures |r| == |GroupValues(df, dim)|
  {
    var groups := GroupValues(df, dim);
    seq(|groups|, i requires 0 <= i < |groups| => MeanOf(Column(GroupOf(df, dim, groups[i]), outcome)))
  }

  /** `calc_demographic_parity` */
  function DemographicParity(df: Frame, kw: Kwargs, ext: Externals): (r: Result<real>)
    ensures Unset(Outcome(kw)) || Unset(Arg(kw, "dimension")) ==> r.Err? && r.error.kind == ValueError
    ensures !Unset(Outcome(kw)) && !Unset(Arg(kw, "dimension")) && !ext.hasFairlearn ==>
      var outcome, dim := Outcome(kw).value, Arg(kw, "dimension").value;
      (r.Err? <==> dim !in df.columns || (GroupValues(df, dim) != [] && outcome !in df.columns)) &&
      (r.Err? ==> r.error.kind == KeyError) &&
      (r.Ok? && GroupValues(df, dim) == [] ==> r.value == 0.0)
  {
    var outcome, dim := Outcome(kw), Arg(kw, "dimension");
    if Unset(outcome) || Unset(dim) then Fail(ValueError, "Missing required columns for demographic_parity_diff")
    else if ext.hasFairlearn then Fairlearn(df, Arg(kw, "target"), outcome.value, dim.value, ext.dpDifference)
    else if dim.value !in df.columns then Fail(KeyError, dim.value)
    else
      var pprs := OutcomeMeans(df, outcome.value, dim.value);
      if pprs == [] then Ok(0.0)
      else if outcome.value !in df.columns then Fail(KeyError, outcome.value)
      else Ok(Stats.Range(pprs))
  }

  /** With a 0/1 outcome column the manual demographic parity lies in `[0, 1]`. */
  lemma DemographicParityWithin(df: Frame, kw: Kwargs, ext: Externals)
    requires !ext.hasFairlearn && !Unset(Outcome(kw))
    requires Binary(Column(df, Outcome(kw).value))
    ensures DemographicParity(df, kw, ext).Ok? ==> 0.0 <= DemographicParity(df, kw, ext).value <= 1.0
  {
    var outcome, dim := Outcome(kw), Arg(kw, "dimension");
    if !Unset(dim) {
      var means := OutcomeMeans(df, outcome.value, dim.value);
      forall i | 0 <= i < |means|
        ensures 0.0 <= means[i] <= 1.0
      {
        var g := GroupOf(df, dim.value, GroupValues(df, dim.value)[i]);
        SubFrameWithin(df, g, outcome.value, 0.0, 1.0);
        MeanOfWithin(Column(g, outcome.value), 0.0, 1.0);
      }
      if means != [] {
        Stats.RangeWithin(means, 0.0, 1.0);
      }
    }
  }

  /** Demographic parity is 0 exactly when every group has the same mean outcome. */
  lemma DemographicParityZero(df: Frame, kw: Kwargs, ext: Externals)
    requires !ext.hasFairlearn && DemographicParity(df, kw, ext).Ok?
    ensures var means := OutcomeMeans(df, Outcome(kw).value, Arg(kw, "dimension").value);
      DemographicParity(df, kw, ext).value == 0.0 <==>
        forall i, j :: 0 <= i < |means| && 0 <= j < |means| ==> means[i] == means[j]
  {
    var means := OutcomeMeans(df, Outcome(kw).value, Arg(kw, "dimension").value);
    if means != [] {
      Stats.RangeZero(means);
    }
  }

  // ---------------------------------------------------------------------
  // Equal opportunity
  // ---------------------------------------------------------------------

  /** `len(grp[grp[target] == 1]) > 0` */
  predicate HasPositives(df: Frame, c: Triple, v: Cell)
  {
    Positives(GroupOf(df, c.dim, v), c.target).rows != []
  }

  predicate HasNegatives(df: Frame, c: Triple, v: Cell)
  {
    Negatives(GroupOf(df, c.dim, v), c.target).rows != []
  }

  /**
   * The rate line 56 appends: the mean outcome of the WHOLE group, taken
   * when the group has a positive; NaN (no number) is filtered out.
   */
  function WholeGroupRate(df: Frame, c: Triple, v: Cell): Option<real>
  {
    var g := GroupOf(df, c.dim, v);
    if !HasPositives(df, c, v) || Nums(Column(g, c.pred)) == [] then None
    else Some(MeanOf(Column(g, c.pred)))
  }

  function AsWrittenRate(df: Frame): Triple -> Cell -> Option<real>
  {
    c => v => WholeGroupRate(df, c, v)
  }

  /** The true positive rate the metric is named after: the mean outcome of the group's positives. */
  function IntendedRate(df: Frame): Triple -> Cell -> Option<real>
  {
    c => TprFn(df, c)
  }

  /** The roles of equal opportunity, with the outcome in the prediction slot. */
  function OutcomeTriple(kw: Kwargs): Triple
    requires !Unset(Arg(kw, "target")) && !Unset(Outcome(kw)) && !Unset(Arg(kw, "dimension"))
  {
    Triple(Arg(kw, "target").value, Outcome(kw).value, Arg(kw, "dimension").value)
  }

  /** The manual equal opportunity after the role check, for a given per-group rate. */
  function ManualGap(df: Frame, c: Triple, rate: Triple -> Cell -> Option<real>): Result<real>
  {
    if c.dim !in df.columns then Fail(KeyError, c.dim)
    else
      var tprs :- RateSweep(GroupValues(df, c.dim), c, df.columns, g => HasPositives(df, c, g), rate(c));
      if tprs == [] then Ok(0.0) else Ok(Stats.Range(tprs))
  }

  /**
   * The group loop: every group reads the target column, and a group with a
   * positive reads the outcome column, so those must exist; the defined
   * rates are collected.
   */
  function RateSweep(groups: seq<Cell>, c: Triple, columns: seq<string>, hasPositives: Cell -> bool, rate: Cell -> Option<real>): (r: Result<seq<real>>)
    ensures r.Err? ==> r.error.kind == KeyError
    ensures r.Ok? ==> r.value == Stats.Collect(groups, rate)
  {
    if groups != [] && c.target !in columns then Fail(KeyError, c.target)
    else if c.pred !in columns && exists i :: 0 <= i < |groups| && hasPositives(groups[i]) then Fail(KeyError, c.pred)
    else Ok(Stats.Collect(groups, rate))
  }

  method RateLoop(groups: seq<Cell>, c: Triple, columns: seq<string>, hasPositives: Cell -> bool, rate: Cell -> Option<real>)
    returns (r: Result<seq<real>>)
    ensures r == RateSweep(groups, c, columns, hasPositives, rate)
  {
    var tprs: seq<real> := [];
    var i := 0;
    while i < |groups|
      invariant 0 <= i <= |groups|
      invariant i > 0 ==> c.target in columns
      invariant forall j :: 0 <= j < i ==> !hasPositives(groups[j]) || c.pred in columns
      invariant tprs == Stats.Collect(groups[..i], rate)
    {
      if c.target !in columns {
        return Fail(KeyError, c.target);
      }
      if hasPositives(groups[i]) && c.pred !in columns {
        return Fail(KeyError, c.pred);
      }
      Stats.CollectStep(groups, i, rate);
      var t := rate(groups[i]);
      if t.Some? {
        tprs := tprs + [t.value];
      }
      i := i + 1;
    }
    assert groups[..i] == groups;
    return Ok(tprs);
  }

  function EqualOpportunitySpec(df: Frame, kw: Kwargs, ext: Externals, rate: Triple -> Cell -> Option<real>): (r: Result<real>)
    ensures Unset(Arg(kw, "target")) || Unset(Outcome(kw)) || Unset(Arg(kw, "dimension")) ==>
      r.Err? && r.error.kind == ValueError
  {
    var target, outcome, dim := Arg(kw, "target"), Outcome(kw), Arg(kw, "dimension");
    if Unset(target) || Unset(outcome) || Unset(dim) then Fail(ValueError, "Missing required columns for equal_opportunity_diff")
    else if ext.hasFairlearn then Fairlearn(df, target, outcome.value, dim.value, ext.eoDifference)
    else ManualGap(df, OutcomeTriple(kw), rate)
  }

  /** The loop of `calc_equal_opportunity`, for a given per-group rate. */
  method EqualOpportunityWith(df: Frame, kw: Kwargs, ext: Externals, rate: Triple -> Cell -> Option<real>)
    returns (r: Result<real>)
    ensures r == EqualOpportunitySpec(df, kw, ext, rate)
  {
    var target, outcome, dim := Arg(kw, "target"), Outcome(kw), Arg(kw, "dimension");
    if Unset(target) || Unset(outcome) || Unset(dim) {
      return Fail(ValueError, "Missing required columns for equal_opportunity_diff");
    }
    if ext.hasFairlearn {
      return Fairlearn(df, target, outcome.value, dim.value, ext.eoDifference);
    }
    var c := OutcomeTriple(kw);
    if c.dim !in df.columns {
      return Fail(KeyError, c.dim);
    }
    var tprs :- RateLoop(GroupValues(df, c.dim), c, df.columns, g => HasPositives(df, c, g), rate(c));
    if tprs == [] {
      return Ok(0.0);
    }
    return Ok(Stats.Range(tprs));
  }

  /** `calc_equal_opportunity` as written: each group with a positive contributes its whole-group mean. */
  method EqualOpportunityAsWritten(df: Frame, kw: Kwargs, ext: Externals) returns (r: Result<real>)
    ensures r == EqualOpportunitySpec(df, kw, ext, AsWrittenRate(df))
  {
    r := EqualOpportunityWith(df, kw, ext, AsWrittenRate(df));
  }

  /** `calc_equal_opportunity` with the rate of line 56 taken over the positives. */
  method EqualOpportunity(df: Frame, kw: Kwargs, ext: Externals) returns (r: Result<real>)
    ensures r == EqualOpportunitySpec(df, kw, ext, IntendedRate(df))
  {
    r := EqualOpportunityWith(df, kw, ext, IntendedRate(df));
  }

  /** With a 0/1 outcome column, equal opportunity lies in `[0, 1]`. */
  lemma EqualOpportunityWithin(df: Frame, kw: Kwargs, ext: Externals)
    requires !ext.hasFairlearn && !Unset(Arg(kw, "target")) && !Unset(Outcome(kw)) && !Unset(Arg(kw, "dimension"))
    requires Binary(Column(df, Outcome(kw).value))
    ensures var r := EqualOpportunitySpec(df, kw, ext, IntendedRate(df));
      r.Ok? ==> 0.0 <= r.value <= 1.0
  {
    var c := OutcomeTriple(kw);
    TprsWithin(df, c);
    var tprs := Stats.Collect(GroupValues(df, c.dim), TprFn(df, c));
    if tprs != [] {
      Stats.RangeWithin(tprs, 0.0, 1.0);
    }
  }

  /** Every row's prediction equals its target. */
  predicate Perfect(df: Frame, c: Triple)
  {
    forall row :: row in df.rows ==> At(row, c.pred) == At(row, c.target)
  }

  /** With perfect predictions every defined TPR is 1. */
  lemma PerfectTpr(df: Frame, c: Triple, v: Cell)
    requires Perfect(df, c)
    ensures Tpr(df, c, v).Some? ==> Tpr(df, c, v).value == 1.0
  {
    var pos := Positives(GroupOf(df, c.dim, v), c.target);
    var col := Column(pos, c.pred);
    forall i | 0 <= i < |col| && col[i].Num?
      ensures 1.0 <= col[i].x <= 1.0
    {
      assert pos.rows[i] in pos.rows;
    }
    MeanOfWithin(col, 1.0, 1.0);
  }

  /** With perfect predictions every defined FPR is 0. */
  lemma PerfectFpr(df: Frame, c: Triple, v: Cell)
    requires Perfect(df, c)
    ensures Fpr(df, c, v).Some? ==> Fpr(df, c, v).value == 0.0
  {
    var neg := Negatives(GroupOf(df, c.dim, v), c.target);
    var col := Column(neg, c.pred);
    forall i | 0 <= i < |col|
      ensures col[i] != Num(1.0)
    {
      assert neg.rows[i] in neg.rows;
    }
  }

  /** The corrected equal opportunity is 0 for perfect predictions. */
  lemma EqualOpportunityPerfect(df: Frame, kw: Kwargs, ext: Externals)
    requires !ext.hasFairlearn && !Unset(Arg(kw, "target")) && !Unset(Outcome(kw)) && !Unset(Arg(kw, "dimension"))
    requires Perfect(df, OutcomeTriple(kw))
    ensures var r := EqualOpportunitySpec(df, kw, ext, IntendedRate(df));
      r.Ok? ==> r.value == 0.0
  {
    var c := OutcomeTriple(kw);
    var groups := GroupValues(df, c.dim);
    forall i | 0 <= i < |groups| && TprFn(df, c)(groups[i]).Some?
      ensures TprFn(df, c)(groups[i]).value == 1.0
    {
      PerfectTpr(df, c, groups[i]);
    }
    Stats.CollectConstant(groups, TprFn(df, c), 1.0);
    var tprs := Stats.Collect(groups, TprFn(df, c));
    if tprs != [] {
      Stats.RangeOfConstant(tprs, 1.0);
    }
  }

  /** As written, a group holding a negative has, under perfect predictions, a whole-group mean below 1. */
  lemma WholeGroupBelowOne(df: Frame, c: Triple, v: Cell, k: nat)
    requires Perfect(df, c) && Binary(Column(df, c.target)) && HasPositives(df, c, v)
    requires k < |GroupOf(df, c.dim, v).rows| && At(GroupOf(df, c.dim, v).rows[k], c.target) == Num(0.0)
    ensures WholeGroupRate(df, c, v).Some? && WholeGroupRate(df, c, v).value < 1.0
  {
    var g := GroupOf(df, c.dim, v);
    var col := Column(g, c.pred);
    assert g.rows[k] in g.rows;
    assert col[k] == Num(0.0);
    NumsHas(col, k);
    SubFrameWithin(df, g, c.target, 0.0, 1.0);
    forall m | 0 <= m < |col| && col[m].Num?
      ensures 0.0 <= col[m].x <= 1.0
    {
      assert g.rows[m] in g.rows;
      assert Column(g, c.target)[m] == col[m];
    }
    NumsWithinStats(col, 0.0, 1.0);
    var z :| 0 <= z < |Nums(col)| && Nums(col)[z] == 0.0;
    Stats.MeanBelowTop(Nums(col), z);
  }

  /** Under perfect predictions, a group of positives only has a whole-group mean of 1. */
  lemma WholeGroupOne(df: Frame, c: Triple, v: Cell)
    requires Perfect(df, c) && v in GroupValues(df, c.dim)
    requires forall row :: row in GroupOf(df, c.dim, v).rows ==> At(row, c.target) == Num(1.0)
    ensures WholeGroupRate(df, c, v) == Some(1.0)
  {
    GroupOfOnes(df, c, v);
    PredictionsAllOne(df, c, v);
    RateOfOnes(df, c, v);
  }

  lemma RateOfOnes(df: Frame, c: Triple, v: Cell)
    requires HasPositives(df, c, v)
    requires NumsWithin(Column(GroupOf(df, c.dim, v), c.pred), 1.0, 1.0)
    requires Nums(Column(GroupOf(df, c.dim, v), c.pred)) != []
    ensures WholeGroupRate(df, c, v) == Some(1.0)
  {
    MeanOfWithin(Column(GroupOf(df, c.dim, v), c.pred), 1.0, 1.0);
  }

  lemma GroupOfOnes(df: Frame, c: Triple, v: Cell)
    requires Perfect(df, c) && v in GroupValues(df, c.dim)
    requires forall row :: row in GroupOf(df, c.dim, v).rows ==> At(row, c.target) == Num(1.0)
    ensures HasPositives(df, c, v) && Nums(Column(GroupOf(df, c.dim, v), c.pred)) != []
  {
    var g := GroupOf(df, c.dim, v);
    GroupValueNotEmpty(df, c.dim, v);
    var col := Column(g, c.pred);
    assert g.rows[0] in g.rows && g.rows[0] in df.rows;
    assert col[0] == Num(1.0);
    NumsHas(col, 0);
    assert g.rows[0] in Positives(g, c.target).rows;
  }

  lemma PredictionsAllOne(df: Frame, c: Triple, v: Cell)
    requires Perfect(df, c)
    requires forall row :: row in GroupOf(df, c.dim, v).rows ==> At(row, c.target) == Num(1.0)
    ensures NumsWithin(Column(GroupOf(df, c.dim, v), c.pred), 1.0, 1.0)
  {
    var g := GroupOf(df, c.dim, v);
    var col := Column(g, c.pred);
    forall m | 0 <= m < |col| && col[m].Num?
      ensures 1.0 <= col[m].x <= 1.0
    {
      assert g.rows[m] in g.rows && g.rows[m] in df.rows;
    }
  }

  /**
   * As written, perfect predictions still show a gap: a group holding a
   * negative has a whole-group mean below 1, while a group of positives only
   * has mean 1. The corrected metric is 0 on the same data.
   */
  lemma EqualOpportunityAsWrittenDiffers(df: Frame, kw: Kwargs, ext: Externals, i: nat, k: nat, j: nat)
    requires !ext.hasFairlearn && !Unset(Arg(kw, "target")) && !Unset(Outcome(kw)) && !Unset(Arg(kw, "dimension"))
    requires var c := OutcomeTriple(kw);
      Perfect(df, c) && Binary(Column(df, c.target)) && AllColumns(df, [c.target, c.pred, c.dim]) &&
      var groups := GroupValues(df, c.dim);
      i < |groups| && j < |groups| && HasPositives(df, c, groups[i]) &&
      k < |GroupOf(df, c.dim, groups[i]).rows| && At(GroupOf(df, c.dim, groups[i]).rows[k], c.target) == Num(0.0) &&
      (forall row :: row in GroupOf(df, c.dim, groups[j]).rows ==> At(row, c.target) == Num(1.0))
    ensures EqualOpportunitySpec(df, kw, ext, AsWrittenRate(df)).Ok?
    ensures EqualOpportunitySpec(df, kw, ext, AsWrittenRate(df)).value > 0.0
    ensures EqualOpportunitySpec(df, kw, ext, IntendedRate(df)) == Ok(0.0)
  {
    var c := OutcomeTriple(kw);
    assert c.target in df.columns && c.pred in df.columns && c.dim in df.columns;
    ManualGapOk(df, c, AsWrittenRate(df));
    ManualGapOk(df, c, IntendedRate(df));
    AsWrittenGapPositive(df, c, i, k, j);
    EqualOpportunityPerfect(df, kw, ext);
  }

  /** With every column present the manual gap is the spread of the defined rates. */
  lemma ManualGapOk(df: Frame, c: Triple, rate: Triple -> Cell -> Option<real>)
    requires c.target in df.columns && c.pred in df.columns && c.dim in df.columns
    ensures var tprs := Stats.Collect(GroupValues(df, c.dim), rate(c));
      ManualGap(df, c, rate) == Ok(if tprs == [] then 0.0 else Stats.Range(tprs))
  {
  }

  /** A group with a negative beside a group of positives only: the whole-group means are apart. */
  lemma AsWrittenGapPositive(df: Frame, c: Triple, i: nat, k: nat, j: nat)
    requires Perfect(df, c) && Binary(Column(df, c.target))
    requires var groups := GroupValues(df, c.dim);
      i < |groups| && j < |groups| && HasPositives(df, c, groups[i]) &&
      k < |GroupOf(df, c.dim, groups[i]).rows| && At(GroupOf(df, c.dim, groups[i]).rows[k], c.target) == Num(0.0) &&
      (forall row :: row in GroupOf(df, c.dim, groups[j]).rows ==> At(row, c.target) == Num(1.0))
    ensures var tprs := Stats.Collect(GroupValues(df, c.dim), AsWrittenRate(df)(c));
      tprs != [] && Stats.Range(tprs) > 0.0
  {
    var groups := GroupValues(df, c.dim);
    var rate := AsWrittenRate(df)(c);
    WholeGroupBelowOne(df, c, groups[i], k);
    WholeGroupOne(df, c, groups[j]);
    Stats.CollectHas(groups, i, rate);
    Stats.CollectHas(groups, j, rate);
    Stats.RangeAtLeast(Stats.Collect(groups, rate), 1.0, rate(groups[i]).value);
  }

  // ---------------------------------------------------------------------
  // Equalized odds and predictive parity
  // ---------------------------------------------------------------------

  /** Target, prediction and dimension, each refused when None or "MISSING". */
  function RequireSet(kw: Kwargs, message: string): (r: Result<Triple>)
    ensures r.Ok? <==> !Unset(Arg(kw, "target")) && !Unset(Arg(kw, "prediction")) && !Unset(Arg(kw, "dimension"))
    ensures r.Err? ==> r.error.kind == ValueError
    ensures r.Ok? ==> r.value == Triple(Arg(kw, "target").value, Arg(kw, "prediction").value, Arg(kw, "dimension").value)
  {
    var t, p, d := Arg(kw, "target"), Arg(kw, "prediction"), Arg(kw, "dimension");
    if Unset(t) || Unset(p) || Unset(d) then Fail(ValueError, message)
    else Ok(Triple(t.value, p.value, d.value))
  }

  /** A group whose rows the loop reads the prediction of: one with a positive or a negative. */
  predicate Touches(df: Frame, c: Triple, v: Cell)
  {
    HasPositives(df, c, v) || HasNegatives(df, c, v)
  }

  /**
   * The loop of equalized odds over the groups: the first group reads the
   * target column, a group with a positive or a negative reads the
   * prediction column, and the defined rates are collected.
   */
  function OddsSweep(groups: seq<Cell>, c: Triple, columns: seq<string>, touches: Cell -> bool,
                     tpr: Cell -> Option<real>, fpr: Cell -> Option<real>): Result<real>
  {
    if groups != [] && c.target !in columns then Fail(KeyError, c.target)
    else if c.pred !in columns && exists i :: 0 <= i < |groups| && touches(groups[i]) then Fail(KeyError, c.pred)
    else
      var tprs, fprs := Stats.Collect(groups, tpr), Stats.Collect(groups, fpr);
      if tprs == [] || fprs == [] then Ok(0.0) else Ok(Stats.Range(tprs) + Stats.Range(fprs))
  }

  function EqualizedOddsSpec(df: Frame, kw: Kwargs): (r: Result<real>)
  {
    var c :- RequireSet(kw, "Missing columns for equalized_odds_ratio");
    if c.dim !in df.columns then Fail(KeyError, c.dim)
    else OddsSweep(GroupValues(df, c.dim), c, df.columns, v => Touches(df, c, v), TprFn(df, c), FprFn(df, c))
  }

  /** `calc_equalized_odds_ratio` */
  method EqualizedOdds(df: Frame, kw: Kwargs) returns (r: Result<real>)
    ensures r == EqualizedOddsSpec(df, kw)
  {
    var roles := RequireSet(kw, "Missing columns for equalized_odds_ratio");
    if roles.Err? {
      return Err(roles.error);
    }
    var c := roles.value;
    if c.dim !in df.columns {
      return Fail(KeyError, c.dim);
    }
    r := OddsLoop(GroupValues(df, c.dim), c, df.columns, v => Touches(df, c, v), TprFn(df, c), FprFn(df, c));
  }

  /** One loop filling the TPR and the FPR lists, failing at the first column read that is missing. */
  method OddsLoop(groups: seq<Cell>, c: Triple, columns: seq<string>, touches: Cell -> bool,
                  tpr: Cell -> Option<real>, fpr: Cell -> Option<real>) returns (r: Result<real>)
    ensures r == OddsSweep(groups, c, columns, touches, tpr, fpr)
  {
    var tprs: seq<real>, fprs: seq<real> := [], [];
    var i := 0;
    while i < |groups|
      invariant 0 <= i <= |groups|
      invariant i > 0 ==> c.target in columns
      invariant forall j :: 0 <= j < i ==> !touches(groups[j]) || c.pred in columns
      invariant tprs == Stats.Collect(groups[..i], tpr)
      invariant fprs == Stats.Collect(groups[..i], fpr)
    {
      if c.target !in columns {
        return Fail(KeyError, c.target);
      }
      if touches(groups[i]) && c.pred !in columns {
        return Fail(KeyError, c.pred);
      }
      Stats.CollectStep(groups, i, tpr);
      Stats.CollectStep(groups, i, fpr);
      var t := tpr(groups[i]);
      if t.Some? {
        tprs := tprs + [t.value];
      }
      var f := fpr(groups[i]);
      if f.Some? {
        fprs := fprs + [f.value];
      }
      i := i + 1;
    }
    assert groups[..i] == groups;
    if tprs == [] || fprs == [] {
      return Ok(0.0);
    }
    return Ok(Stats.Range(tprs) + Stats.Range(fprs));
  }

  /** With 0/1 predictions, the lenient equalized odds lies in `[0, 2]`. */
  lemma EqualizedOddsWithin(df: Frame, kw: Kwargs)
    requires RequireSet(kw, "").Ok? && Binary(Column(df, RequireSet(kw, "").value.pred))
    ensures EqualizedOddsSpec(df, kw).Ok? ==> 0.0 <= EqualizedOddsSpec(df, kw).value <= 2.0
  {
    var c := RequireSet(kw, "").value;
    var groups := GroupValues(df, c.dim);
    TprsWithin(df, c);
    FprsWithin(df, c);
    var tprs, fprs := Stats.Collect(groups, TprFn(df, c)), Stats.Collect(groups, FprFn(df, c));
    if tprs != [] && fprs != [] {
      Stats.RangeWithin(tprs, 0.0, 1.0);
      Stats.RangeWithin(fprs, 0.0, 1.0);
    }
  }

  /** Perfect predictions have equal TPRs (1) and equal FPRs (0), so equalized odds is 0. */
  lemma EqualizedOddsPerfect(df: Frame, kw: Kwargs)
    requires RequireSet(kw, "").Ok? && Perfect(df, RequireSet(kw, "").value)
    ensures EqualizedOddsSpec(df, kw).Ok? ==> EqualizedOddsSpec(df, kw).value == 0.0
  {
    var c := RequireSet(kw, "").value;
    var groups := GroupValues(df, c.dim);
    forall i | 0 <= i < |groups| && TprFn(df, c)(groups[i]).Some?
      ensures TprFn(df, c)(groups[i]).value == 1.0
    {
      PerfectTpr(df, c, groups[i]);
    }
    forall i | 0 <= i < |groups| && FprFn(df, c)(groups[i]).Some?
      ensures FprFn(df, c)(groups[i]).value == 0.0
    {
      PerfectFpr(df, c, groups[i]);
    }
    Stats.CollectConstant(groups, TprFn(df, c), 1.0);
    Stats.CollectConstant(groups, FprFn(df, c), 0.0);
    var tprs, fprs := Stats.Collect(groups, TprFn(df, c)), Stats.Collect(groups, FprFn(df, c));
    if tprs != [] && fprs != [] {
      Stats.RangeOfConstant(tprs, 1.0);
      Stats.RangeOfConstant(fprs, 0.0);
    }
  }

  function PredictiveParitySpec(df: Frame, kw: Kwargs): (r: Result<real>)
  {
    var c :- RequireSet(kw, "Missing columns for predictive_parity");
    var groups := GroupValues(df, c.dim);
    if c.dim !in df.columns then Fail(KeyError, c.dim)
    else if groups != [] && c.target !in df.columns then Fail(KeyError, c.target)
    else if groups != [] && c.pred !in df.columns then Fail(KeyError, c.pred)
    else
      var precisions := Stats.Collect(groups, PrecisionFn(df, c));
      if precisions == [] then Ok(0.0) else Ok(Stats.Range(precisions))
  }

  /** `calc_predictive_parity`: the spread of the defined group precisions, or 0. */
  method PredictiveParity(df: Frame, kw: Kwargs) returns (r: Result<real>)
    ensures r == PredictiveParitySpec(df, kw)
  {
    var roles := RequireSet(kw, "Missing columns for predictive_parity");
    if roles.Err? {
      return Err(roles.error);
    }
    var c := roles.value;
    if c.dim !in df.columns {
      return Fail(KeyError, c.dim);
    }
    var groups := GroupValues(df, c.dim);
    var precisions: seq<real> := [];
    var i := 0;
    while i < |groups|
      invariant 0 <= i <= |groups|
      invariant i > 0 ==> c.target in df.columns && c.pred in df.columns
      invariant precisions == Stats.Collect(groups[..i], PrecisionFn(df, c))
    {
      if c.target !in df.columns {
        return Fail(KeyError, c.target);
      }
      if c.pred !in df.columns {
        return Fail(KeyError, c.pred);
      }
      Stats.CollectStep(groups, i, PrecisionFn(df, c));
      var p := Precision(df, c, groups[i]);
      if p.Some? {
        precisions := precisions + [p.value];
      }
      i := i + 1;
    }
    assert groups[..i] == groups;
    if precisions == [] {
      return Ok(0.0);
    }
    return Ok(Stats.Range(precisions));
  }

  /** Precisions are fractions of counts, so predictive parity lies in `[0, 1]` on any data. */
  lemma PredictiveParityWithin(df: Frame, kw: Kwargs)
    ensures PredictiveParitySpec(df, kw).Ok? ==> 0.0 <= PredictiveParitySpec(df, kw).value <= 1.0
  {
    var roles := RequireSet(kw, "Missing columns for predictive_parity");
    if roles.Ok? {
      var c := roles.value;
      var groups := GroupValues(df, c.dim);
      forall i | 0 <= i < |groups| && PrecisionFn(df, c)(groups[i]).Some?
        ensures 0.0 <= PrecisionFn(df, c)(groups[i]).value <= 1.0
      {
        var g := GroupOf(df, c.dim, groups[i]);
        FractionWithin(CountBoth(g.rows, c, Num(1.0)) as real,
                       (CountBoth(g.rows, c, Num(1.0)) + CountBoth(g.rows, c, Num(0.0))) as real);
      }
      Stats.CollectWithin(groups, PrecisionFn(df, c), 0.0, 1.0);
      var ps := Stats.Collect(groups, PrecisionFn(df, c));
      if ps != [] {
        Stats.RangeWithin(ps, 0.0, 1.0);
      }
    }
  }
}
