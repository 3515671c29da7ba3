/**
 * `calc_multiclass_confusion_metrics` of metrics/fairness.py: a report of
 * the class shares, one-vs-rest precision, recall and F1 per class, the
 * accuracy of every group, and the macro and micro summaries.
 */
module ConfusionMetrics {

  import opened Wrappers
  import opened Counting
  import opened Frames
  import opened Roles
  import Ordered
  import Stats
  import FairnessMetrics

  datatype ClassStats = ClassStats(precision: real, recall: real, f1: real, support: nat)

  datatype ConfusionReport = ConfusionReport(
    numClasses: nat,
    numGroups: nat,
    classDistribution: Ordered.Dict<Cell, real>,
    perClass: Ordered.Dict<Cell, ClassStats>,
    groupAccuracy: Ordered.Dict<Cell, real>,
    macroPrecision: real,
    macroRecall: real,
    microAccuracy: real)

  /** The number of rows satisfying `p`. */
  function CountRows(rows: seq<Row>, p: Row -> bool): (r: nat)
    ensures r <= |rows|
  {
    |Filter(rows, p)|
  }

  /** `2 * p * r / (p + r)`, or 0 when both are 0. */
  function F1Of(p: real, r: real): real
  {
    if p + r > 0.0 then 2.0 * (p * r) / (p + r) else 0.0
  }

  /** F1 of two rates in `[0, 1]` lies in `[0, 1]`: `2pr <= p + r` since `pr <= p` and `pr <= r`. */
  lemma F1Within(p: real, r: real)
    requires 0.0 <= p <= 1.0 && 0.0 <= r <= 1.0
    ensures 0.0 <= F1Of(p, r) <= 1.0
  {
    if p + r > 0.0 {
      var pr := p * r;
      Stats.ScaleWithin(p, r);
      assert 0.0 <= pr <= r;
      var rp := r * p;
      Stats.ScaleWithin(r, p);
      assert rp <= p;
      assert rp == pr;
      DivBelowOne(2.0 * pr, p + r);
    }
  }

  lemma DivBelowOne(a: real, b: real)
    requires 0.0 <= a <= b && b > 0.0
    ensures 0.0 <= a / b <= 1.0
  {
    assert a / b * b == a;
  }

  /** When precision and recall agree, F1 equals them. */
  lemma F1OfEqual(p: real)
    requires p > 0.0
    ensures F1Of(p, p) == p
  {
    assert 2.0 * (p * p) == p * (p + p);
  }

  /** `(y_true == cls) & (y_pred == cls)`, one row at a time. */
  function TruePositive(c: FairnessMetrics.Triple, cls: Cell): Row -> bool
  {
    row => Eq(At(row, c.target), cls) && Eq(At(row, c.pred), cls)
  }

  /** `(y_true != cls) & (y_pred == cls)` */
  function FalsePositive(c: FairnessMetrics.Triple, cls: Cell): Row -> bool
  {
    row => !Eq(At(row, c.target), cls) && Eq(At(row, c.pred), cls)
  }

  /** `(y_true == cls) & (y_pred != cls)` */
  function FalseNegative(c: FairnessMetrics.Triple, cls: Cell): Row -> bool
  {
    row => Eq(At(row, c.target), cls) && !Eq(At(row, c.pred), cls)
  }

  /** One class against the rest: true positives, false positives, false negatives, support. */
  function StatsOf(df: Frame, c: FairnessMetrics.Triple, cls: Cell): (s: ClassStats)
    ensures StatsWithin(s)
    ensures s.support == CountEq(Column(df, c.target), cls)
  {
    var tp := CountRows(df.rows, TruePositive(c, cls));
    var fp := CountRows(df.rows, FalsePositive(c, cls));
    var fn := CountRows(df.rows, FalseNegative(c, cls));
    var precision := Stats.Ratio(tp, tp + fp);
    var recall := Stats.Ratio(tp, tp + fn);
    F1Within(precision, recall);
    ClassStats(precision, recall, F1Of(precision, recall), CountEq(Column(df, c.target), cls))
  }

  /** The precision and the recall of `StatsOf` in terms of the three counts. */
  lemma StatsRates(df: Frame, c: FairnessMetrics.Triple, cls: Cell)
    ensures var tp := CountRows(df.rows, TruePositive(c, cls));
      && StatsOf(df, c, cls).precision == Stats.Ratio(tp, tp + CountRows(df.rows, FalsePositive(c, cls)))
      && StatsOf(df, c, cls).recall == Stats.Ratio(tp, tp + CountRows(df.rows, FalseNegative(c, cls)))
  {
  }

  /** `(df[target] == cls).sum() / len(df)` */
  function Share(df: Frame, target: string, cls: Cell): (r: real)
    ensures 0.0 <= r <= 1.0
  {
    RateEq(Column(df, target), cls)
  }

  /** The accuracy inside one group: rows whose prediction equals the target, over the group size. */
  function GroupAccuracy(df: Frame, c: FairnessMetrics.Triple, g: Cell): (r: real)
    ensures 0.0 <= r <= 1.0
  {
    var rows := GroupOf(df, c, g).rows;
    Stats.Ratio(CountRows(rows, Agrees(c)), |rows|)
  }

  function GroupOf(df: Frame, c: FairnessMetrics.Triple, g: Cell): Frame
  {
    WhereEq(df, c.dim, g)
  }

  function Agrees(c: FairnessMetrics.Triple): Row -> bool
  {
    row => Eq(At(row, c.target), At(row, c.pred))
  }

  function ShareFn(df: Frame, c: FairnessMetrics.Triple): Cell -> real
  {
    cls => Share(df, c.target, cls)
  }

  function StatsFn(df: Frame, c: FairnessMetrics.Triple): Cell -> ClassStats
  {
    cls => StatsOf(df, c, cls)
  }

  function AccuracyFn(df: Frame, c: FairnessMetrics.Triple): Cell -> real
  {
    g => GroupAccuracy(df, c, g)
  }

  function Precisions(perClass: Ordered.Dict<Cell, ClassStats>): (r: seq<real>)
    ensures |r| == |perClass|
  {
    seq(|perClass|, i requires 0 <= i < |perClass| => perClass[i].1.precision)
  }

  function Recalls(perClass: Ordered.Dict<Cell, ClassStats>): (r: seq<real>)
    ensures |r| == |perClass|
  {
    seq(|perClass|, i requires 0 <= i < |perClass| => perClass[i].1.recall)
  }

  /** The report built from the validated roles. */
  function Report(df: Frame, c: FairnessMetrics.Triple): ConfusionReport
  {
    var classes := Distinct(Column(df, c.target));
    var groups := Distinct(Column(df, c.dim));
    var perClass := Ordered.Tabulate(classes, StatsFn(df, c));
    ConfusionReport(
      |classes|, |groups|,
      Ordered.Tabulate(classes, ShareFn(df, c)),
      perClass,
      Ordered.Tabulate(groups, AccuracyFn(df, c)),
      Stats.Mean(Precisions(perClass)),
      Stats.Mean(Recalls(perClass)),
      Stats.Ratio(CountRows(df.rows, Agrees(c)), |df.rows|))
  }

  function ConfusionSpec(df: Frame, kw: Kwargs): Result<ConfusionReport>
  {
    var c :- FairnessMetrics.RequireRoles(df, kw);
    Ok(Report(df, c))
  }

  /** `calc_multiclass_confusion_metrics`: the three loops filling the report's dictionaries. */
  method MulticlassConfusion(df: Frame, kw: Kwargs) returns (r: Result<ConfusionReport>)
    ensures r == ConfusionSpec(df, kw)
  {
    var roles := FairnessMetrics.RequireRoles(df, kw);
    if roles.Err? {
      return Err(roles.error);
    }
    var c := roles.value;
    var classes := Distinct(Column(df, c.target));
    var groups := Distinct(Column(df, c.dim));
    var distribution := TabulateLoop(classes, ShareFn(df, c));
    var perClass := TabulateLoop(classes, StatsFn(df, c));
    var accuracy := TabulateLoop(groups, AccuracyFn(df, c));
    r := Ok(ConfusionReport(
      |classes|, |groups|, distribution, perClass, accuracy,
      Stats.Mean(Precisions(perClass)),
      Stats.Mean(Recalls(perClass)),
      Stats.Ratio(CountRows(df.rows, Agrees(c)), |df.rows|)));
  }

  /** A loop `for k in keys: d[str(k)] = f(k)` over keys that are pairwise different, keyed by the cell itself. */
  method TabulateLoop<V>(keys: seq<Cell>, f: Cell -> V) returns (d: Ordered.Dict<Cell, V>)
    ensures d == Ordered.Tabulate(keys, f)
  {
    d := [];
    var i := 0;
    while i < |keys|
      invariant 0 <= i <= |keys|
      invariant d == Ordered.Tabulate(keys[..i], f)
    {
      assert keys[..i + 1][..i] == keys[..i];
      d := d + [(keys[i], f(keys[i]))];
      i := i + 1;
    }
    assert keys[..i] == keys;
  }

  /** Every ratio in the report lies in `[0, 1]`. */
  lemma ReportWithin(df: Frame, c: FairnessMetrics.Triple)
    ensures var rep := Report(df, c);
      && (forall i :: 0 <= i < |rep.perClass| ==> StatsWithin(rep.perClass[i].1))
      && (forall i :: 0 <= i < |rep.classDistribution| ==> 0.0 <= rep.classDistribution[i].1 <= 1.0)
      && (forall i :: 0 <= i < |rep.groupAccuracy| ==> 0.0 <= rep.groupAccuracy[i].1 <= 1.0)
      && 0.0 <= rep.macroPrecision <= 1.0 && 0.0 <= rep.macroRecall <= 1.0
      && 0.0 <= rep.microAccuracy <= 1.0
  {
    var classes := Distinct(Column(df, c.target));
    var perClass := Ordered.Tabulate(classes, StatsFn(df, c));
    assert forall i :: 0 <= i < |perClass| ==> StatsWithin(perClass[i].1);
    MacroWithin(perClass);
  }

  predicate StatsWithin(s: ClassStats)
  {
    0.0 <= s.precision <= 1.0 && 0.0 <= s.recall <= 1.0 && 0.0 <= s.f1 <= 1.0
  }

  /** The macro means of per-class rates in `[0, 1]` lie in `[0, 1]`. */
  lemma MacroWithin(perClass: Ordered.Dict<Cell, ClassStats>)
    requires forall i :: 0 <= i < |perClass| ==> StatsWithin(perClass[i].1)
    ensures 0.0 <= Stats.Mean(Precisions(perClass)) <= 1.0
    ensures 0.0 <= Stats.Mean(Recalls(perClass)) <= 1.0
  {
    var ps, rs := Precisions(perClass), Recalls(perClass);
    if ps != [] {
      Stats.MeanWithin(ps, 0.0, 1.0);
      Stats.MeanWithin(rs, 0.0, 1.0);
    }
  }

  /** The report has one entry per distinct target value, the missing value included, and reads back `StatsOf`. */
  lemma ReportPerClass(df: Frame, c: FairnessMetrics.Triple, cls: Cell)
    ensures var rep := Report(df, c);
      Ordered.Get(rep.perClass, cls) == if cls in Column(df, c.target) then Some(StatsOf(df, c, cls)) else None
    ensures Report(df, c).numClasses == |Report(df, c).perClass|
  {
    Ordered.TabulateGet(Distinct(Column(df, c.target)), StatsFn(df, c), cls);
  }

  /** A class that never occurs as a target has no support and no recall. */
  lemma AbsentClassHasNoRecall(df: Frame, c: FairnessMetrics.Triple, cls: Cell)
    requires forall i :: 0 <= i < |df.rows| ==> !Eq(At(df.rows[i], c.target), cls)
    ensures StatsOf(df, c, cls).support == 0 && StatsOf(df, c, cls).recall == 0.0
  {
    var col := Column(df, c.target);
    if cls != Null {
      assert cls !in col;
    }
    var hit := TruePositive(c, cls);
    var miss := FalseNegative(c, cls);
    NoneKept(df.rows, hit);
    NoneKept(df.rows, miss);
    assert StatsOf(df, c, cls).recall == Stats.Ratio(CountRows(df.rows, hit), CountRows(df.rows, hit) + CountRows(df.rows, miss));
  }

  lemma NoneKept(rows: seq<Row>, keep: Row -> bool)
    requires forall i :: 0 <= i < |rows| ==> !keep(rows[i])
    ensures Filter(rows, keep) == []
  {
  }

  /** With no missing target, the class shares add up to exactly 1. */
  lemma DistributionSumsToOne(df: Frame, c: FairnessMetrics.Triple)
    requires df.rows != [] && Null !in Column(df, c.target)
    ensures Stats.Sum(Ordered.Values(Report(df, c).classDistribution)) == 1.0
  {
    var col := Column(df, c.target);
    var classes := Distinct(col);
    var n := |df.rows| as real;
    SharesSum(df, c, classes);
    DistinctCountsSum(col);
    FairnessMetrics.DivSelf(n);
  }

  lemma {:induction false} SharesSum(df: Frame, c: FairnessMetrics.Triple, classes: seq<Cell>)
    requires df.rows != [] && Null !in classes
    ensures Stats.Sum(Ordered.Values(Ordered.Tabulate(classes, ShareFn(df, c))))
      == SumCounts(classes, Column(df, c.target)) as real / |df.rows| as real
  {
    var col := Column(df, c.target);
    var n := |df.rows| as real;
    if classes != [] {
      var init, last := classes[..|classes| - 1], classes[|classes| - 1];
      SharesSum(df, c, init);
      var vs := Ordered.Values(Ordered.Tabulate(classes, ShareFn(df, c)));
      var vs' := Ordered.Values(Ordered.Tabulate(init, ShareFn(df, c)));
      assert vs == vs' + [Share(df, c.target, last)];
      Stats.SumAppend(vs', Share(df, c.target, last));
      var a, b := SumCounts(init, col) as real, Count(col, last) as real;
      assert Share(df, c.target, last) == b / n;
      FairnessMetrics.DivAdd(a, b, n);
    }
  }
}
