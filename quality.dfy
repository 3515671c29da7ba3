/**
 * The data-quality metrics of the assurance package: disparate impact and
 * class imbalance in their assurance variants, the smallest per-group rate
 * of the top target value, and the mean fraction of filled cells.
 */
module QualityMetrics {

  import opened Wrappers
  import opened Counting
  import opened Frames
  import opened Roles
  import opened Foreign
  import Ordered
  import Stats
  import DataMetrics

  /** `kwargs.get(first) or kwargs.get(second)` */
  function EitherArg(kw: Kwargs, first: string, second: string): Option<string>
  {
    if !Falsy(Arg(kw, first)) then Arg(kw, first) else Arg(kw, second)
  }

  // ---------------------------------------------------------------- disparate impact

  /** The audited outcome: the prediction when it is set and not "MISSING", else the target. */
  function Outcome(kw: Kwargs): (r: Option<string>)
    ensures !Falsy(Arg(kw, "prediction")) && !Unset(Arg(kw, "prediction")) ==> r == Arg(kw, "prediction")
    ensures Falsy(Arg(kw, "prediction")) || Unset(Arg(kw, "prediction")) ==> r == Arg(kw, "target")
  {
    var pred := Arg(kw, "prediction");
    if !Falsy(pred) && pred.value != Missing then pred else Arg(kw, "target")
  }

  /** `calc_disparate_impact` of the assurance package. */
  function DisparateImpact(df: Frame, kw: Kwargs, ext: Externals): (r: Result<real>)
    ensures !BoundTo(Outcome(kw), df.columns) || !BoundTo(Arg(kw, "dimension"), df.columns) ==> r == Ok(1.0)
    ensures (BoundTo(Outcome(kw), df.columns) && BoundTo(Arg(kw, "dimension"), df.columns) &&
             |DataMetrics.SupportedGroups(df, Arg(kw, "dimension").value)| < 2) ==> r == Ok(1.0)
  {
    DataMetrics.DisparateImpactOn(df, Arg(kw, "target"), Outcome(kw), Arg(kw, "dimension"), ext)
  }

  /**
   * Without a usable prediction the assurance variant audits the target
   * column itself, where the registry's variant of metrics/data.py gives up
   * with 1.0 when the prediction is absent.
   */
  lemma TargetAudited(df: Frame, kw: Kwargs, ext: Externals)
    requires Arg(kw, "prediction").None?
    ensures DisparateImpact(df, kw, ext) == DataMetrics.DisparateImpactOn(df, Arg(kw, "target"), Arg(kw, "target"), Arg(kw, "dimension"), ext)
    ensures DataMetrics.DisparateImpact(df, kw, ext) == Ok(1.0)
  {
  }

  /** Without fairlearn and with a 0/1 outcome, disparate impact lies in `[0, 1]`. */
  lemma DisparateImpactWithin(df: Frame, kw: Kwargs, ext: Externals)
    requires !ext.hasFairlearn
    requires Outcome(kw).Some? ==> NumsWithin(Column(df, Outcome(kw).value), 0.0, 1.0)
    ensures DisparateImpact(df, kw, ext).Ok?
    ensures 0.0 <= DisparateImpact(df, kw, ext).value <= 1.0
  {
    DataMetrics.DisparateImpactWithin(df, Arg(kw, "target"), Outcome(kw), Arg(kw, "dimension"), ext, 1.0);
  }

  // ---------------------------------------------------------------- class imbalance

  /** The target role of the assurance metrics: `target`, or else `input:target`. */
  function Target(kw: Kwargs): Option<string>
  {
    EitherArg(kw, "target", "input:target")
  }

  /** The target column, or the ValueError raised when it is not given or not in the frame. */
  function TargetColumn(df: Frame, kw: Kwargs, metric: string): (r: Result<string>)
    ensures r.Ok? <==> !Falsy(Target(kw)) && Target(kw).value in df.columns
    ensures r.Ok? ==> r.value == Target(kw).value
    ensures r.Err? ==> r.error.kind == ValueError
  {
    var target := Target(kw);
    if Falsy(target) then Fail(ValueError, "Missing required role 'target' for " + metric)
    else if target.value !in df.columns then Fail(ValueError, "Target column not found in DataFrame")
    else Ok(target.value)
  }

  /** `calc_class_imbalance` of the assurance package: rarest over most common present class. */
  function ClassImbalance(df: Frame, kw: Kwargs): (r: Result<real>)
    ensures r.Err? <==> TargetColumn(df, kw, "calc_class_imbalance").Err?
    ensures r.Err? ==> r.error.kind == ValueError
    ensures r.Ok? ==> (r.value == 0.0 <==> |GroupValues(df, Target(kw).value)| < 2)
    ensures r.Ok? ==> 0.0 <= r.value <= 1.0
    ensures r.Ok? && |GroupValues(df, Target(kw).value)| >= 2 ==>
      var counts := ValueCounts(Column(df, Target(kw).value));
      r.value == Stats.Min(counts) / Stats.Max(counts)
  {
    var target :- TargetColumn(df, kw, "calc_class_imbalance");
    Ok(DataMetrics.CountRatio(ValueCounts(Column(df, target))))
  }

  /** Classes that occur equally often are perfectly balanced. */
  lemma BalancedClasses(df: Frame, kw: Kwargs, n: nat)
    requires ClassImbalance(df, kw).Ok? && |GroupValues(df, Target(kw).value)| >= 2
    requires forall v :: v in GroupValues(df, Target(kw).value) ==> CountEq(Column(df, Target(kw).value), v) == n
    ensures ClassImbalance(df, kw).value == 1.0
  {
    var col := Column(df, Target(kw).value);
    var counts := ValueCounts(col);
    var vs := Values(col);
    forall i | 0 <= i < |counts| ensures counts[i] == n as real {
      assert vs[i] in GroupValues(df, Target(kw).value);
    }
    EqualCounts(counts, n as real);
  }

  lemma EqualCounts(counts: seq<real>, c: real)
    requires |counts| >= 2 && forall i :: 0 <= i < |counts| ==> counts[i] == c
    requires c >= 1.0
    ensures DataMetrics.CountRatio(counts) == 1.0
  {
    var lo, hi := Stats.Min(counts), Stats.Max(counts);
    assert lo == c && hi == c;
  }

  // ---------------------------------------------------------------- smallest positive rate per group

  /** `pd.to_numeric(cell, errors="coerce")`, with the text-to-number parser given. */
  function ToNumeric(c: Cell, parse: string -> Option<real>): Cell
  {
    match c
    case Str(s) => if parse(s).Some? then Num(parse(s).value) else Null
    case _ => c
  }

  function NumericColumn(cells: seq<Cell>, parse: string -> Option<real>): (r: seq<Cell>)
    ensures |r| == |cells|
  {
    seq(|cells|, i requires 0 <= i < |cells| => ToNumeric(cells[i], parse))
  }

  /** The share of the present numbers equal to their maximum, 0.0 with no numbers. */
  function TopShare(xs: seq<real>): (r: real)
    ensures 0.0 <= r <= 1.0
    ensures xs == [] <==> r == 0.0
    ensures xs != [] ==> r * |xs| as real == Count(xs, Stats.Max(xs)) as real
  {
    if xs == [] then 0.0
    else
      var hits := Count(xs, Stats.Max(xs));
      assert hits >= 1;
      Stats.Ratio(hits, |xs|)
  }

  /** The positive rate of the group whose dimension value is `v`. */
  function PositiveRate(df: Frame, dim: string, target: string, parse: string -> Option<real>, v: Cell): (r: real)
    ensures 0.0 <= r <= 1.0
  {
    TopShare(Nums(NumericColumn(Column(WhereEq(df, dim, v), target), parse)))
  }

  function RateFn(df: Frame, dim: string, target: string, parse: string -> Option<real>): Cell -> real
  {
    v => PositiveRate(df, dim, target, parse, v)
  }

  /** The dimension role: `input:dimension`, or else `dimension`. */
  function Dimension(kw: Kwargs): Option<string>
  {
    EitherArg(kw, "input:dimension", "dimension")
  }

  /** The smallest value of a rate table, 0.0 for an empty one. */
  function SmallestRate(rates: Ordered.Dict<Cell, real>): (r: real)
    ensures rates == [] ==> r == 0.0
    ensures forall i :: 0 <= i < |rates| ==> r <= rates[i].1
    ensures rates != [] ==> exists i :: 0 <= i < |rates| && r == rates[i].1
  {
    if rates == [] then 0.0
    else
      var vs := Ordered.Values(rates);
      assert forall i :: 0 <= i < |rates| ==> vs[i] == rates[i].1;
      Stats.Min(vs)
  }

  /** The result of `calc_group_min_positive_rate`: the smallest rate and the table of rates per group. */
  function GroupMinPositiveRateSpec(df: Frame, kw: Kwargs, parse: string -> Option<real>)
    : (r: Result<(real, Ordered.Dict<Cell, real>)>)
    ensures r.Err? <==> Falsy(Arg(kw, "target")) || Falsy(Dimension(kw)) || Dimension(kw).value !in df.columns ||
                        (GroupValues(df, Dimension(kw).value) != [] && Arg(kw, "target").value !in df.columns)
    ensures r.Err? && (Falsy(Arg(kw, "target")) || Falsy(Dimension(kw)) || Dimension(kw).value !in df.columns) ==>
      r.error.kind == ValueError
    ensures r.Ok? ==> Ordered.Keys(r.value.1) == GroupValues(df, Dimension(kw).value)
    ensures r.Ok? ==> forall i :: 0 <= i < |r.value.1| ==>
      r.value.1[i].1 == PositiveRate(df, Dimension(kw).value, Arg(kw, "target").value, parse, r.value.1[i].0)
    ensures r.Ok? ==> r.value.0 == SmallestRate(r.value.1)
  {
    var target, dim := Arg(kw, "target"), Dimension(kw);
    if Falsy(target) || Falsy(dim) then Fail(ValueError, "Missing required roles for group_min_positive_rate")
    else if dim.value !in df.columns then Fail(ValueError, "Dimension column not found in DataFrame")
    else
      var groups := GroupValues(df, dim.value);
      if groups != [] && target.value !in df.columns then Fail(KeyError, target.value)
      else
        var rates := Ordered.Tabulate(groups, RateFn(df, dim.value, target.value, parse));
        Ok((SmallestRate(rates), rates))
  }

  /** The smallest positive rate lies in `[0, 1]` and is no larger than any group's rate. */
  lemma GroupMinPositiveRateWithin(df: Frame, kw: Kwargs, parse: string -> Option<real>)
    requires GroupMinPositiveRateSpec(df, kw, parse).Ok?
    ensures var (m, rates) := GroupMinPositiveRateSpec(df, kw, parse).value;
      0.0 <= m <= 1.0 && forall i :: 0 <= i < |rates| ==> 0.0 <= rates[i].1 <= 1.0 && m <= rates[i].1
  {
    var (m, rates) := GroupMinPositiveRateSpec(df, kw, parse).value;
    if rates != [] {
      var i :| 0 <= i < |rates| && m == rates[i].1;
    }
  }

  /** `calc_group_min_positive_rate`: one rate per group, filled in a loop, then the smallest. */
  method GroupMinPositiveRate(df: Frame, kw: Kwargs, parse: string -> Option<real>)
    returns (r: Result<(real, Ordered.Dict<Cell, real>)>)
    ensures r == GroupMinPositiveRateSpec(df, kw, parse)
  {
    var target, dim := Arg(kw, "target"), Dimension(kw);
    if Falsy(target) || Falsy(dim) {
      return Fail(ValueError, "Missing required roles for group_min_positive_rate");
    }
    if dim.value !in df.columns {
      return Fail(ValueError, "Dimension column not found in DataFrame");
    }
    var groups := GroupValues(df, dim.value);
    var rates :- RateTable(df, dim.value, target.value, parse, groups);
    r := Ok((SmallestRate(rates), rates));
  }

  /** The loop `for name, g in grouped: rates[str(name)] = ...`, keyed by the group's cell itself, failing at the first group when the target is no column. */
  method RateTable(df: Frame, dim: string, target: string, parse: string -> Option<real>, groups: seq<Cell>)
    returns (r: Result<Ordered.Dict<Cell, real>>)
    ensures r.Err? <==> groups != [] && target !in df.columns
    ensures r.Err? ==> r == Fail(KeyError, target)
    ensures r.Ok? ==> r.value == Ordered.Tabulate(groups, RateFn(df, dim, target, parse))
  {
    var rate := RateFn(df, dim, target, parse);
    var rates: Ordered.Dict<Cell, real> := [];
    for i := 0 to |groups|
      invariant target in df.columns || i == 0
      invariant rates == Ordered.Tabulate(groups[..i], rate)
    {
      if target !in df.columns {
        return Fail(KeyError, target);
      }
      assert groups[..i + 1][..i] == groups[..i];
      rates := rates + [(groups[i], rate(groups[i]))];
    }
    assert groups[..|groups|] == groups;
    r := Ok(rates);
  }

  // ---------------------------------------------------------------- data completeness

  /** `df[c].notna().sum() / len(df)` for a frame with rows. */
  function Filled(df: Frame, c: string): (r: real)
    ensures 0.0 <= r <= 1.0
  {
    Stats.Ratio(|Filter(Column(df, c), Present)|, |df.rows|)
  }

  /** The filled fraction of each column of `cols`, in order. */
  function FilledFractions(df: Frame, cols: seq<string>): (r: seq<real>)
    ensures |r| == |cols|
    ensures forall i :: 0 <= i < |r| ==> r[i] == Filled(df, cols[i])
  {
    if cols == [] then []
    else FilledFractions(df, cols[..|cols| - 1]) + [Filled(df, cols[|cols| - 1])]
  }

  /** `calc_data_completeness`: the mean filled fraction over the columns, 0.0 without columns or rows. */
  function CompletenessSpec(df: Frame): real
  {
    if df.columns == [] || df.rows == [] then 0.0 else Stats.Mean(FilledFractions(df, df.columns))
  }

  method DataCompleteness(df: Frame) returns (r: real)
    ensures r == CompletenessSpec(df)
  {
    if df.columns == [] || |df.rows| == 0 {
      return 0.0;
    }
    var fractions: seq<real> := [];
    for i := 0 to |df.columns|
      invariant fractions == FilledFractions(df, df.columns[..i])
    {
      assert df.columns[..i + 1][..i] == df.columns[..i];
      fractions := fractions + [Stats.Ratio(|Filter(Column(df, df.columns[i]), Present)|, |df.rows|)];
    }
    assert df.columns[..|df.columns|] == df.columns;
    r := Stats.Sum(fractions) / |fractions| as real;
  }

  /** Completeness is a fraction. */
  lemma CompletenessWithin(df: Frame)
    ensures 0.0 <= CompletenessSpec(df) <= 1.0
  {
    if df.columns != [] && df.rows != [] {
      Stats.MeanWithin(FilledFractions(df, df.columns), 0.0, 1.0);
    }
  }

  /** No cell of a named column is missing. */
  predicate NoMissing(df: Frame)
  {
    forall i, c :: 0 <= i < |df.rows| && c in df.columns ==> At(df.rows[i], c) != Null
  }

  /** A frame with rows and columns and no missing cell is complete, 1.0. */
  lemma FullFrame(df: Frame)
    requires df.columns != [] && df.rows != [] && NoMissing(df)
    ensures CompletenessSpec(df) == 1.0
  {
    var fs := FilledFractions(df, df.columns);
    forall i | 0 <= i < |fs| ensures fs[i] == 1.0 {
      FullColumn(df, df.columns[i]);
    }
    Stats.MeanWithin(fs, 1.0, 1.0);
  }

  lemma FullColumn(df: Frame, c: string)
    requires df.rows != [] && NoMissing(df) && c in df.columns
    ensures Filled(df, c) == 1.0
  {
    var col := Column(df, c);
    AllPresent(col);
    Stats.RatioWhole(|df.rows|);
  }

  lemma {:induction false} AllPresent(cells: seq<Cell>)
    requires forall i :: 0 <= i < |cells| ==> cells[i] != Null
    ensures Filter(cells, Present) == cells
  {
    if cells != [] {
      AllPresent(cells[..|cells| - 1]);
      assert cells[..|cells| - 1] + [cells[|cells| - 1]] == cells;
    }
  }
}
