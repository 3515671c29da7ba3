/**
 * The lenient one-vs-rest multi-class metrics of
 * assurance/fairness/fairness_multiclass_simple.py. Only unset roles are
 * refused; a role naming no column fails with pandas' KeyError when the
 * column is first read, and a metric with nothing to compare is 0. Every
 * distinct target value is a class, a missing one included.
 */
module SimpleMulticlass {

  import opened Wrappers
  import opened Counting
  import opened Frames
  import opened Roles
  import Ordered
  import Stats
  import opened FairnessMetrics
  import BinaryFairness
  import ConfusionMetrics

  /** `df[target].unique()` */
  function Classes(df: Frame, c: Triple): seq<Cell>
  {
    Distinct(Column(df, c.target))
  }

  /**
   * The class loop: every class reads the prediction column, then groups by
   * the dimension, so with at least one class both must exist; the defined
   * per-class spreads are collected.
   */
  function ClassSweep(classes: seq<Cell>, c: Triple, columns: seq<string>, perClass: Cell -> Option<real>): (r: Result<seq<real>>)
    ensures r.Err? ==> r.error.kind == KeyError
  {
    if classes != [] && c.pred !in columns then Fail(KeyError, c.pred)
    else if classes != [] && c.dim !in columns then Fail(KeyError, c.dim)
    else Ok(Stats.Collect(classes, perClass))
  }

  method ClassLoop(classes: seq<Cell>, c: Triple, columns: seq<string>, perClass: Cell -> Option<real>)
    returns (r: Result<seq<real>>)
    ensures r == ClassSweep(classes, c, columns, perClass)
  {
    var parities: seq<real> := [];
    var i := 0;
    while i < |classes|
      invariant 0 <= i <= |classes|
      invariant i > 0 ==> c.pred in columns && c.dim in columns
      invariant parities == Stats.Collect(classes[..i], perClass)
    {
      if c.pred !in columns {
        return Fail(KeyError, c.pred);
      }
      if c.dim !in columns {
        return Fail(KeyError, c.dim);
      }
      Stats.CollectStep(classes, i, perClass);
      var p := perClass(classes[i]);
      if p.Some? {
        parities := parities + [p.value];
      }
      i := i + 1;
    }
    assert classes[..i] == classes;
    return Ok(parities);
  }

  /** The per-class spreads after the role check, or the KeyError of the first missing column. */
  function Parities(df: Frame, kw: Kwargs, message: string, perClass: Triple -> Cell -> Option<real>): (r: Result<seq<real>>)
    ensures BinaryFairness.RequireSet(kw, message).Err? ==> r.Err? && r.error.kind == ValueError
  {
    var c :- BinaryFairness.RequireSet(kw, message);
    if c.target !in df.columns then Fail(KeyError, c.target)
    else ClassSweep(Classes(df, c), c, df.columns, perClass(c))
  }

  method ParitiesLoop(df: Frame, kw: Kwargs, message: string, perClass: Triple -> Cell -> Option<real>)
    returns (r: Result<seq<real>>)
    ensures r == Parities(df, kw, message, perClass)
  {
    var roles := BinaryFairness.RequireSet(kw, message);
    if roles.Err? {
      return Err(roles.error);
    }
    var c := roles.value;
    if c.target !in df.columns {
      return Fail(KeyError, c.target);
    }
    r := ClassLoop(Classes(df, c), c, df.columns, perClass(c));
  }

  /** `np.mean` for `macro`, else `max`; 0 without any class spread. */
  function Aggregated(aggregation: string, parities: seq<real>): real
  {
    if parities == [] then 0.0
    else if aggregation == "macro" then Stats.Mean(parities)
    else Stats.Max(parities)
  }

  function DemographicParitySpec(df: Frame, kw: Kwargs): Result<real>
  {
    var ps :- Parities(df, kw, "Missing columns for multiclass_demographic_parity", DpPerClass(df));
    Ok(Aggregated(Aggregation(kw), ps))
  }

  /** `calc_multiclass_demographic_parity` */
  method DemographicParity(df: Frame, kw: Kwargs) returns (r: Result<real>)
    ensures r == DemographicParitySpec(df, kw)
  {
    var ps :- ParitiesLoop(df, kw, "Missing columns for multiclass_demographic_parity", DpPerClass(df));
    r := Ok(Aggregated(Aggregation(kw), ps));
  }

  function EqualOpportunitySpec(df: Frame, kw: Kwargs): Result<real>
  {
    var ps :- Parities(df, kw, "Missing columns for multiclass_equal_opportunity", EoPerClass(df));
    Ok(if ps == [] then 0.0 else Stats.Max(ps))
  }

  /** `calc_multiclass_equal_opportunity`: always the worst class. */
  method EqualOpportunity(df: Frame, kw: Kwargs) returns (r: Result<real>)
    ensures r == EqualOpportunitySpec(df, kw)
  {
    var ps :- ParitiesLoop(df, kw, "Missing columns for multiclass_equal_opportunity", EoPerClass(df));
    r := Ok(if ps == [] then 0.0 else Stats.Max(ps));
  }

  /** Once the roles and columns pass, the metric sees the defined spread of every class. */
  lemma ParitiesValue(df: Frame, kw: Kwargs, message: string, perClass: Triple -> Cell -> Option<real>)
    requires Parities(df, kw, message, perClass).Ok?
    ensures var c := BinaryFairness.RequireSet(kw, message).value;
      Parities(df, kw, message, perClass).value == Stats.Collect(Classes(df, c), perClass(c))
  {
  }

  /** Both metrics lie in `[0, 1]`: every class spread compares rates. */
  lemma ParitiesWithin(df: Frame, kw: Kwargs, message: string, perClass: Triple -> Cell -> Option<real>)
    requires forall c: Triple, cls: Cell :: perClass(c)(cls).Some? ==> 0.0 <= perClass(c)(cls).value <= 1.0
    requires Parities(df, kw, message, perClass).Ok?
    ensures Stats.Within(Parities(df, kw, message, perClass).value, 0.0, 1.0)
  {
    var c := BinaryFairness.RequireSet(kw, message).value;
    ParitiesValue(df, kw, message, perClass);
    Stats.CollectWithin(Classes(df, c), perClass(c), 0.0, 1.0);
  }

  lemma DemographicParityWithin(df: Frame, kw: Kwargs)
    ensures DemographicParitySpec(df, kw).Ok? ==> 0.0 <= DemographicParitySpec(df, kw).value <= 1.0
  {
    var message := "Missing columns for multiclass_demographic_parity";
    var ps := Parities(df, kw, message, DpPerClass(df));
    if ps.Ok? {
      DpPerClassWithin(df);
      ParitiesWithin(df, kw, message, DpPerClass(df));
      if ps.value != [] {
        Stats.MeanWithin(ps.value, 0.0, 1.0);
        Stats.MaxMinWithin(ps.value, 0.0, 1.0);
      }
    }
  }

  lemma EqualOpportunityWithin(df: Frame, kw: Kwargs)
    ensures EqualOpportunitySpec(df, kw).Ok? ==> 0.0 <= EqualOpportunitySpec(df, kw).value <= 1.0
  {
    var message := "Missing columns for multiclass_equal_opportunity";
    var ps := Parities(df, kw, message, EoPerClass(df));
    if ps.Ok? {
      EoPerClassWithin(df);
      ParitiesWithin(df, kw, message, EoPerClass(df));
      if ps.value != [] {
        Stats.MaxMinWithin(ps.value, 0.0, 1.0);
      }
    }
  }

  /** The `macro` demographic parity never exceeds the default (`max`) one. */
  lemma MacroBelowMax(df: Frame, kw: Kwargs, kw': Kwargs)
    requires DemographicParitySpec(df, kw).Ok?
    requires Aggregation(kw) == "macro" && Aggregation(kw') != "macro"
    requires Arg(kw', "target") == Arg(kw, "target") && Arg(kw', "prediction") == Arg(kw, "prediction")
    requires Arg(kw', "dimension") == Arg(kw, "dimension")
    ensures DemographicParitySpec(df, kw').Ok?
    ensures DemographicParitySpec(df, kw).value <= DemographicParitySpec(df, kw').value
  {
    var message := "Missing columns for multiclass_demographic_parity";
    assert BinaryFairness.RequireSet(kw', message) == BinaryFairness.RequireSet(kw, message);
    var ps := Parities(df, kw, message, DpPerClass(df));
    assert Parities(df, kw', message, DpPerClass(df)) == ps;
    MeanBelowMax(Aggregation(kw'), ps.value);
  }

  lemma MeanBelowMax(aggregation: string, ps: seq<real>)
    requires aggregation != "macro"
    ensures Aggregated("macro", ps) <= Aggregated(aggregation, ps)
  {
    if ps != [] {
      Stats.MeanWithin(ps, Stats.Min(ps), Stats.Max(ps));
    }
  }

  /** With perfect predictions every class's TPR is 1 in every group, so equal opportunity is 0. */
  lemma EqualOpportunityPerfect(df: Frame, kw: Kwargs)
    requires BinaryFairness.RequireSet(kw, "").Ok?
    requires BinaryFairness.Perfect(df, BinaryFairness.RequireSet(kw, "").value)
    ensures EqualOpportunitySpec(df, kw).Ok? ==> EqualOpportunitySpec(df, kw).value == 0.0
  {
    var c := BinaryFairness.RequireSet(kw, "").value;
    var classes := Classes(df, c);
    forall i | 0 <= i < |classes| && EoPerClass(df)(c)(classes[i]).Some?
      ensures EoPerClass(df)(c)(classes[i]).value == 0.0
    {
      PerfectClassSpread(df, c, classes[i]);
    }
    Stats.CollectConstant(classes, EoPerClass(df)(c), 0.0);
  }

  lemma PerfectClassSpread(df: Frame, c: Triple, cls: Cell)
    requires BinaryFairness.Perfect(df, c)
    ensures ClassTprParity(df, c, cls).Some? ==> ClassTprParity(df, c, cls).value == 0.0
  {
    var groups := GroupValues(df, c.dim);
    forall i | 0 <= i < |groups| && ClassGroupTprFn(df, c, cls)(groups[i]).Some?
      ensures ClassGroupTprFn(df, c, cls)(groups[i]).value == 1.0
    {
      PerfectClassTpr(df, c, cls, groups[i]);
    }
    Stats.CollectConstant(groups, ClassGroupTprFn(df, c, cls), 1.0);
    var tprs := Stats.Collect(groups, ClassGroupTprFn(df, c, cls));
    if tprs != [] {
      Stats.RangeOfConstant(tprs, 1.0);
    }
  }

  /** Every member of class `cls` is predicted `cls`, so its rate of being predicted `cls` is 1. */
  lemma PerfectClassTpr(df: Frame, c: Triple, cls: Cell, v: Cell)
    requires BinaryFairness.Perfect(df, c)
    ensures ClassGroupTpr(df, c, cls, v).Some? ==> ClassGroupTpr(df, c, cls, v).value == 1.0
  {
    var g := GroupOf(df, c.dim, v);
    var pos := WhereEq(g, c.target, cls);
    var col := Column(pos, c.pred);
    if pos.rows != [] {
      forall i | 0 <= i < |col|
        ensures col[i] == cls
      {
        var row := pos.rows[i];
        assert row in pos.rows;
        assert row in g.rows && Eq(At(row, c.target), cls);
        assert row in df.rows;
      }
      assert cls != Null by {
        assert col[0] == cls && Eq(At(pos.rows[0], c.target), cls);
      }
      RateOfAllEqual(col, cls);
    }
  }

  lemma RateOfAllEqual(cells: seq<Cell>, v: Cell)
    requires cells != [] && v != Null && forall i :: 0 <= i < |cells| ==> cells[i] == v
    ensures RateEq(cells, v) == 1.0
  {
    AllEqualCount(cells, v);
    var n := |cells| as real;
    assert RateEq(cells, v) == n / n;
  }

  lemma {:induction false} AllEqualCount(cells: seq<Cell>, v: Cell)
    requires cells != [] && v != Null && forall i :: 0 <= i < |cells| ==> cells[i] == v
    ensures CountEq(cells, v) == |cells|
  {
    if |cells| > 1 {
      AllEqualCount(cells[..|cells| - 1], v);
      CountAppend(cells[..|cells| - 1], v, v);
      assert cells == cells[..|cells| - 1] + [v];
    } else {
      assert cells == [] + [v];
      CountAppend([], v, v);
    }
  }

  // ---------------------------------------------------------------------
  // Confusion metrics
  // ---------------------------------------------------------------------

  datatype ClassScores = ClassScores(precision: real, recall: real)

  datatype SimpleReport = SimpleReport(perClass: Ordered.Dict<Cell, ClassScores>, perGroup: Ordered.Dict<Cell, real>)

  /** `df[name]`: pandas' KeyError for None or for a name that is no column. */
  function ColumnName(df: Frame, name: Option<string>): (r: Result<string>)
    ensures r.Ok? <==> name.Some? && name.value in df.columns
    ensures r.Ok? ==> r.value == name.value
    ensures r.Err? ==> r.error.kind == KeyError
  {
    if name.None? then Fail(KeyError, "None")
    else if name.value !in df.columns then Fail(KeyError, name.value)
    else Ok(name.value)
  }

  /** `name` is set and names a column of `df`. */
  predicate Names(df: Frame, name: Option<string>)
  {
    name.Some? && name.value in df.columns
  }

  function PredictedAs(c: Triple, cls: Cell): Row -> bool
  {
    row => Eq(At(row, c.pred), cls)
  }

  function TrulyAs(c: Triple, cls: Cell): Row -> bool
  {
    row => Eq(At(row, c.target), cls)
  }

  /** `tp / mask_p.sum()` and `tp / mask_t.sum()`, each 0 when its mask is empty. */
  function ScoresOf(df: Frame, c: Triple, cls: Cell): (s: ClassScores)
    ensures 0.0 <= s.precision <= 1.0 && 0.0 <= s.recall <= 1.0
  {
    var tp := ConfusionMetrics.CountRows(df.rows, ConfusionMetrics.TruePositive(c, cls));
    FilterMono(df.rows, ConfusionMetrics.TruePositive(c, cls), PredictedAs(c, cls));
    FilterMono(df.rows, ConfusionMetrics.TruePositive(c, cls), TrulyAs(c, cls));
    ClassScores(
      Stats.Ratio(tp, ConfusionMetrics.CountRows(df.rows, PredictedAs(c, cls))),
      Stats.Ratio(tp, ConfusionMetrics.CountRows(df.rows, TrulyAs(c, cls))))
  }

  function ScoresFn(df: Frame, c: Triple): Cell -> ClassScores
  {
    cls => ScoresOf(df, c, cls)
  }

  /** The report of validated columns: scores per target value, accuracy per dimension value. */
  function ReportOf(df: Frame, c: Triple): SimpleReport
  {
    SimpleReport(
      Ordered.Tabulate(Classes(df, c), ScoresFn(df, c)),
      Ordered.Tabulate(Distinct(Column(df, c.dim)), ConfusionMetrics.AccuracyFn(df, c)))
  }

  /** Reading target and dimension, then (when there are rows) the prediction; no other validation. */
  function ConfusionColumns(df: Frame, kw: Kwargs): (r: Result<Triple>)
    ensures r.Err? ==> r.error.kind == KeyError
    ensures r.Ok? <==>
      && Names(df, Arg(kw, "target")) && Names(df, Arg(kw, "dimension"))
      && (df.rows != [] ==> Names(df, Arg(kw, "prediction")))
  {
    var target :- ColumnName(df, Arg(kw, "target"));
    var dim :- ColumnName(df, Arg(kw, "dimension"));
    var pred :- if df.rows != [] then ColumnName(df, Arg(kw, "prediction")) else Ok("");
    Ok(Triple(target, pred, dim))
  }

  function ConfusionSpec(df: Frame, kw: Kwargs): Result<SimpleReport>
  {
    var c :- ConfusionColumns(df, kw);
    Ok(ReportOf(df, c))
  }

  /** `calc_multiclass_confusion_metrics`: one loop over the classes, one over the dimension values. */
  method Confusion(df: Frame, kw: Kwargs) returns (r: Result<SimpleReport>)
    ensures r == ConfusionSpec(df, kw)
  {
    var c :- ConfusionColumns(df, kw);
    var perClass := ConfusionMetrics.TabulateLoop(Classes(df, c), ScoresFn(df, c));
    var perGroup := ConfusionMetrics.TabulateLoop(Distinct(Column(df, c.dim)), ConfusionMetrics.AccuracyFn(df, c));
    r := Ok(SimpleReport(perClass, perGroup));
  }

  /** The precision and the recall of `ScoresOf` in terms of the counts. */
  lemma ScoresRates(df: Frame, c: Triple, cls: Cell)
    ensures var tp := ConfusionMetrics.CountRows(df.rows, ConfusionMetrics.TruePositive(c, cls));
      var predicted := ConfusionMetrics.CountRows(df.rows, PredictedAs(c, cls));
      var actual := ConfusionMetrics.CountRows(df.rows, TrulyAs(c, cls));
      && tp <= predicted && tp <= actual
      && ScoresOf(df, c, cls).precision == Stats.Ratio(tp, predicted)
      && ScoresOf(df, c, cls).recall == Stats.Ratio(tp, actual)
  {
    FilterMono(df.rows, ConfusionMetrics.TruePositive(c, cls), PredictedAs(c, cls));
    FilterMono(df.rows, ConfusionMetrics.TruePositive(c, cls), TrulyAs(c, cls));
  }

  /** The lenient precision is the strict one: `tp / predicted` is `tp / (tp + fp)`. */
  lemma PrecisionAgrees(df: Frame, c: Triple, cls: Cell)
    ensures ScoresOf(df, c, cls).precision == ConfusionMetrics.StatsOf(df, c, cls).precision
  {
    FilterSplit(df.rows, ConfusionMetrics.TruePositive(c, cls), ConfusionMetrics.FalsePositive(c, cls), PredictedAs(c, cls));
    ScoresRates(df, c, cls);
    ConfusionMetrics.StatsRates(df, c, cls);
  }

  /** The lenient recall is the strict one: `tp / actual` is `tp / (tp + fn)`. */
  lemma RecallAgrees(df: Frame, c: Triple, cls: Cell)
    ensures ScoresOf(df, c, cls).recall == ConfusionMetrics.StatsOf(df, c, cls).recall
  {
    FilterSplit(df.rows, ConfusionMetrics.TruePositive(c, cls), ConfusionMetrics.FalseNegative(c, cls), TrulyAs(c, cls));
    ScoresRates(df, c, cls);
    ConfusionMetrics.StatsRates(df, c, cls);
  }

  /** A missing class scores 0 and 0: no cell equals a missing value. */
  lemma MissingClassScoresZero(df: Frame, c: Triple)
    ensures ScoresOf(df, c, Null) == ClassScores(0.0, 0.0)
  {
    ConfusionMetrics.NoneKept(df.rows, ConfusionMetrics.TruePositive(c, Null));
    ConfusionMetrics.NoneKept(df.rows, PredictedAs(c, Null));
    ConfusionMetrics.NoneKept(df.rows, TrulyAs(c, Null));
  }

  /** A missing dimension value has accuracy 0 (`mask.any()` is false). */
  lemma MissingGroupScoresZero(df: Frame, c: Triple)
    ensures ConfusionMetrics.GroupAccuracy(df, c, Null) == 0.0
  {
    ConfusionMetrics.NoneKept(df.rows, row => Eq(At(row, c.dim), Null));
  }

  /** The report scores every target value and every dimension value, in order of first appearance, within `[0, 1]`. */
  lemma ReportShape(df: Frame, c: Triple)
    ensures var rep := ReportOf(df, c);
      Ordered.Keys(rep.perClass) == Distinct(Column(df, c.target)) &&
      Ordered.Keys(rep.perGroup) == Distinct(Column(df, c.dim)) &&
      (forall i :: 0 <= i < |rep.perClass| ==>
        0.0 <= rep.perClass[i].1.precision <= 1.0 && 0.0 <= rep.perClass[i].1.recall <= 1.0) &&
      (forall i :: 0 <= i < |rep.perGroup| ==> 0.0 <= rep.perGroup[i].1 <= 1.0)
  {
  }
}
