/**
 * Data-level metrics of the registry: disparate impact (the ratio of the
 * lowest to the highest group outcome rate, over groups with enough
 * support) and class imbalance (the ratio of the rarest to the most common
 * class).
 */
module DataMetrics {

  import opened Wrappers
  import opened Counting
  import opened Frames
  import opened Roles
  import opened Foreign
  import Stats

  /** Groups with fewer rows than this are left out of disparate impact. */
  const MinSupport := 5

  /** The groups of `dim` that have at least `MinSupport` rows. */
  function SupportedGroups(df: Frame, dim: string): (r: seq<Cell>)
    ensures forall v :: v in r <==> v in GroupValues(df, dim) && CountEq(Column(df, dim), v) >= MinSupport
  {
    Filter(GroupValues(df, dim), v => CountEq(Column(df, dim), v) >= MinSupport)
  }

  /** The mean outcome of the rows whose `dim` is `v`. */
  function GroupRate(df: Frame, dim: string, outcome: string, v: Cell): real
  {
    MeanOf(Column(WhereEq(df, dim, v), outcome))
  }

  /** `min(rates) / max(rates)`, or 1.0 for fewer than two rates or a zero maximum. */
  function RatioOfRates(rates: seq<real>): real
  {
    if |rates| < 2 || Stats.Max(rates) == 0.0 then 1.0 else Stats.Min(rates) / Stats.Max(rates)
  }

  /** Non-negative rates give a ratio in `[0, 1]`. */
  lemma RatioOfRatesWithin(rates: seq<real>)
    requires forall i :: 0 <= i < |rates| ==> rates[i] >= 0.0
    ensures 0.0 <= RatioOfRates(rates) <= 1.0
  {
    if |rates| >= 2 && Stats.Max(rates) != 0.0 {
      var lo, hi := Stats.Min(rates), Stats.Max(rates);
      assert 0.0 <= lo <= hi && hi > 0.0;
      assert lo / hi <= 1.0 by {
        assert lo <= hi;
      }
    }
  }

  /** Equal rates in every group give perfect parity, 1.0. */
  lemma RatioOfEqualRates(rates: seq<real>, c: real)
    requires rates != [] && forall i :: 0 <= i < |rates| ==> rates[i] == c
    ensures RatioOfRates(rates) == 1.0
  {
    if |rates| >= 2 && Stats.Max(rates) != 0.0 {
      assert Stats.Min(rates) == c == Stats.Max(rates);
      assert c != 0.0 && c / c == 1.0;
    }
  }

  /** The group rates of the supported groups, in group order. */
  function SupportedRates(df: Frame, dim: string, outcome: string): (r: seq<real>)
    ensures |r| == |SupportedGroups(df, dim)|
  {
    var groups := SupportedGroups(df, dim);
    seq(|groups|, i requires 0 <= i < |groups| => GroupRate(df, dim, outcome, groups[i]))
  }

  /**
   * Disparate impact once the outcome column is chosen: 1.0 when a role is
   * unusable or fewer than two groups have enough rows; otherwise fairlearn's
   * ratio over the supported rows, or the ratio of the group rates.
   */
  function DisparateImpactOn(df: Frame, target: Option<string>, outcome: Option<string>, dim: Option<string>,
                             ext: Externals): (r: Result<real>)
    ensures !BoundTo(outcome, df.columns) || !BoundTo(dim, df.columns) ==> r == Ok(1.0)
    ensures BoundTo(outcome, df.columns) && BoundTo(dim, df.columns) && |SupportedGroups(df, dim.value)| < 2 ==> r == Ok(1.0)
    ensures r.Err? ==> ext.hasFairlearn && BoundTo(outcome, df.columns) && BoundTo(dim, df.columns) && |SupportedGroups(df, dim.value)| >= 2
    ensures ext.hasFairlearn && BoundTo(outcome, df.columns) && BoundTo(dim, df.columns) && |SupportedGroups(df, dim.value)| >= 2 ==>
      if target.None? || target.value !in df.columns then r.Err? && r.error.kind == KeyError
      else r == ext.dpRatio(FilteredColumn(df, dim.value, target.value), FilteredColumn(df, dim.value, outcome.value),
                            FilteredColumn(df, dim.value, dim.value))
  {
    if Falsy(outcome) || Falsy(dim) || Unset(outcome) || Unset(dim) then Ok(1.0)
    else if outcome.value !in df.columns || dim.value !in df.columns then Ok(1.0)
    else
      var valid := SupportedGroups(df, dim.value);
      if |valid| < 2 then Ok(1.0)
      else if ext.hasFairlearn then
        // the filtered frame keeps every column, so the target is looked up in the frame's columns
        if target.None? || target.value !in df.columns then Fail(KeyError, "target column")
        else ext.dpRatio(FilteredColumn(df, dim.value, target.value), FilteredColumn(df, dim.value, outcome.value),
                         FilteredColumn(df, dim.value, dim.value))
      else Ok(RatioOfRates(SupportedRates(df, dim.value, outcome.value)))
  }

  /** A column of the rows whose `dim` value is a supported group. */
  function FilteredColumn(df: Frame, dim: string, col: string): Series
  {
    var valid := SupportedGroups(df, dim);
    Column(Where(df, row => At(row, dim) in valid), col)
  }

  /** Without fairlearn, a non-negative outcome column gives disparate impact in `[0, 1]`. */
  lemma DisparateImpactWithin(df: Frame, target: Option<string>, outcome: Option<string>, dim: Option<string>,
                              ext: Externals, hi: real)
    requires !ext.hasFairlearn
    requires outcome.Some? ==> NumsWithin(Column(df, outcome.value), 0.0, hi)
    ensures DisparateImpactOn(df, target, outcome, dim, ext).Ok?
    ensures 0.0 <= DisparateImpactOn(df, target, outcome, dim, ext).value <= 1.0
  {
    if BoundTo(outcome, df.columns) && BoundTo(dim, df.columns) {
      var rates := SupportedRates(df, dim.value, outcome.value);
      forall i | 0 <= i < |rates|
        ensures rates[i] >= 0.0
      {
        var v := SupportedGroups(df, dim.value)[i];
        var sub := WhereEq(df, dim.value, v);
        SubFrameWithin(df, sub, outcome.value, 0.0, hi);
        MeanOfWithin(Column(sub, outcome.value), 0.0, hi);
      }
      RatioOfRatesWithin(rates);
    }
  }

  /** metrics/data.py: the outcome is the prediction unless that is "MISSING", in which case the target. */
  function OutcomeRole(kw: Kwargs): Option<string>
  {
    if Arg(kw, "prediction") != Some(Missing) then Arg(kw, "prediction") else Arg(kw, "target")
  }

  /** `calc_disparate_impact` of metrics/data.py. */
  function DisparateImpact(df: Frame, kw: Kwargs, ext: Externals): (r: Result<real>)
    ensures Arg(kw, "prediction").None? ==> r == Ok(1.0)
  {
    DisparateImpactOn(df, Arg(kw, "target"), OutcomeRole(kw), Arg(kw, "dimension"), ext)
  }

  /** `calc_class_imbalance` of metrics/data.py: rarest over most common class count. */
  function ClassImbalance(df: Frame, kw: Kwargs): (r: real)
    ensures !BoundTo(Arg(kw, "target"), df.columns) ==> r == 0.0
    ensures BoundTo(Arg(kw, "target"), df.columns) && |GroupValues(df, Arg(kw, "target").value)| < 2 ==> r == 0.0
    ensures BoundTo(Arg(kw, "target"), df.columns) && |GroupValues(df, Arg(kw, "target").value)| >= 2 ==> 0.0 < r <= 1.0
  {
    var target := Arg(kw, "target");
    if Falsy(target) || target.value == Missing || target.value !in df.columns then 0.0
    else CountRatio(ValueCounts(Column(df, target.value)))
  }

  /** `counts.min() / counts.max()` for at least two counts, else 0.0. */
  function CountRatio(counts: seq<real>): (r: real)
    requires forall i :: 0 <= i < |counts| ==> counts[i] >= 1.0
    ensures |counts| < 2 ==> r == 0.0
    ensures |counts| >= 2 ==> 0.0 < r <= 1.0
  {
    if |counts| < 2 then 0.0
    else
      var lo, hi := Stats.Min(counts), Stats.Max(counts);
      assert 1.0 <= lo <= hi;
      lo / hi
  }
}
