/**
 * The error-rate metrics of assurance/fairness/multiclass_error.py:
 * macro-averaged equal opportunity (per class, how far apart the groups'
 * true-positive rates lie, the largest over the classes) and micro-averaged
 * equalized odds (how far apart the groups' accuracies and error rates lie).
 */
module MulticlassError {

  import opened Wrappers
  import opened Counting
  import opened Frames
  import opened Samples
  import Stats
  import Loops

  /** Every prediction equals its label. */
  predicate Perfect(s: seq<Sample>)
  {
    forall i :: 0 <= i < |s| ==> s[i].pred == s[i].truth
  }

  // ---------------------------------------------------------------------
  // Macro equal opportunity
  // ---------------------------------------------------------------------

  /** At least 30 samples, two distinct labels and two groups (`unique` keeps the missing value). */
  function CheckMacro(s: seq<Sample>): (r: Option<Error>)
    ensures r.None? <==> |s| >= 30 && |Distinct(Truths(s))| >= 2 && |Groups(s)| >= 2
    ensures r.Some? ==> r.value.kind == ValueError
    ensures |s| < 30 ==> r == Some(Error(ValueError, "Minimum 30 samples required"))
  {
    if |s| < 30 then Some(Error(ValueError, "Minimum 30 samples required"))
    else if |Distinct(Truths(s))| < 2 then Some(Error(ValueError, "Need at least 2 classes"))
    else if |Groups(s)| < 2 then Some(Error(ValueError, "Need at least 2 protected groups"))
    else None
  }

  /** `y_true == cls`, one sample at a time. */
  function Positive(cls: Cell): Sample -> bool
  {
    (x: Sample) => Eq(x.truth, cls)
  }

  /** `(y_true == cls) & (y_pred == cls)` */
  function Hit(cls: Cell): Sample -> bool
  {
    (x: Sample) => Eq(x.truth, cls) && Eq(x.pred, cls)
  }

  lemma HitsArePositives(m: seq<Sample>, cls: Cell)
    ensures CountWhere(m, Hit(cls)) <= CountWhere(m, Positive(cls))
  {
    FilterMono(m, Hit(cls), Positive(cls));
  }

  /** `tp / group_true.sum()` of a group with a positive of the class; nothing otherwise. */
  function GroupTpr(s: seq<Sample>, cls: Cell, g: Cell): (r: Option<real>)
    ensures r.Some? ==> 0.0 <= r.value <= 1.0
  {
    var m := Members(s, g);
    var positives := CountWhere(m, Positive(cls));
    if positives == 0 then None
    else
      HitsArePositives(m, cls);
      Some(Stats.Ratio(CountWhere(m, Hit(cls)), positives))
  }

  function GroupTprFn(s: seq<Sample>, cls: Cell): Cell -> Option<real>
  {
    g => GroupTpr(s, cls, g)
  }

  /** The true-positive rates of a class in the groups that have a positive of it. */
  function Tprs(s: seq<Sample>, cls: Cell): seq<real>
  {
    Stats.Collect(Groups(s), GroupTprFn(s, cls))
  }

  /**
   * The spread of a class's true-positive rates; nothing for a class with no
   * positive at all (the missing label among them) or no group to compare.
   */
  function ClassGap(s: seq<Sample>, cls: Cell): Option<real>
  {
    if CountEq(Truths(s), cls) == 0 then None
    else
      var tprs := Tprs(s, cls);
      if tprs == [] then None else Some(Stats.Range(tprs))
  }

  function ClassGapFn(s: seq<Sample>): Cell -> Option<real>
  {
    cls => ClassGap(s, cls)
  }

  /** `calc_macro_equal_opportunity_multiclass(y_true, y_pred, protected_attr)` */
  function MacroSpec(s: seq<Sample>): (r: Result<real>)
    ensures r.Err? <==> CheckMacro(s).Some?
    ensures r.Err? ==> r.error.kind == ValueError
  {
    match CheckMacro(s)
    case Some(e) => Err(e)
    case None => Ok(Loops.MaxOr0(Stats.Collect(Distinct(Truths(s)), ClassGapFn(s))))
  }

  method ClassGapOf(s: seq<Sample>, cls: Cell) returns (d: Option<real>)
    ensures d == ClassGap(s, cls)
  {
    if CountEq(Truths(s), cls) == 0 {
      return None;
    }
    var tprs := Loops.CollectEach(Groups(s), GroupTprFn(s, cls));
    if tprs != [] {
      d := Some(Stats.Range(tprs));
    } else {
      d := None;
    }
  }

  method MacroEqualOpportunity(s: seq<Sample>) returns (r: Result<real>)
    ensures r == MacroSpec(s)
  {
    var check := CheckMacro(s);
    if check.Some? {
      return Err(check.value);
    }
    var classes := Distinct(Truths(s));
    var disparities: seq<real> := [];
    var i := 0;
    while i < |classes|
      invariant 0 <= i <= |classes|
      invariant disparities == Stats.Collect(classes[..i], ClassGapFn(s))
    {
      Stats.CollectStep(classes, i, ClassGapFn(s));
      var d := ClassGapOf(s, classes[i]);
      if d.Some? {
        disparities := disparities + [d.value];
      }
      i := i + 1;
    }
    assert classes[..i] == classes;
    return Ok(if disparities != [] then Stats.Max(disparities) else 0.0);
  }

  lemma ClassGapWithin(s: seq<Sample>, cls: Cell)
    ensures ClassGap(s, cls).Some? ==> 0.0 <= ClassGap(s, cls).value <= 1.0
  {
    Stats.CollectWithin(Groups(s), GroupTprFn(s, cls), 0.0, 1.0);
    if Tprs(s, cls) != [] {
      Stats.RangeWithin(Tprs(s, cls), 0.0, 1.0);
    }
  }

  lemma GapsWithin(s: seq<Sample>)
    ensures Stats.Within(Stats.Collect(Distinct(Truths(s)), ClassGapFn(s)), 0.0, 1.0)
  {
    var classes := Distinct(Truths(s));
    forall i | 0 <= i < |classes| && ClassGapFn(s)(classes[i]).Some?
      ensures 0.0 <= ClassGapFn(s)(classes[i]).value <= 1.0
    {
      ClassGapWithin(s, classes[i]);
    }
    Stats.CollectWithin(classes, ClassGapFn(s), 0.0, 1.0);
  }

  /** The macro disparity lies in `[0, 1]`. */
  lemma MacroWithin(s: seq<Sample>)
    ensures MacroSpec(s).Ok? ==> 0.0 <= MacroSpec(s).value <= 1.0
  {
    GapsWithin(s);
    Loops.MaxOr0Within(Stats.Collect(Distinct(Truths(s)), ClassGapFn(s)), 0.0, 1.0);
  }

  /**
   * The macro disparity is at least the distance between the true-positive
   * rates of any two groups for any label that occurs.
   */
  lemma MacroAtLeast(s: seq<Sample>, cls: Cell, g: Cell, h: Cell)
    requires MacroSpec(s).Ok?
    requires cls in Truths(s) && cls != Null
    requires GroupTpr(s, cls, g).Some? && GroupTpr(s, cls, h).Some?
    ensures MacroSpec(s).value >= GroupTpr(s, cls, g).value - GroupTpr(s, cls, h).value
  {
    var k :| 0 <= k < |Truths(s)| && Truths(s)[k] == cls;
    CountPositive(Truths(s), k);
    ClassGapAtLeast(s, cls, g, h);
    var classes := Distinct(Truths(s));
    var c :| 0 <= c < |classes| && classes[c] == cls;
    Stats.CollectHas(classes, c, ClassGapFn(s));
    Loops.MaxOr0AtLeast(Stats.Collect(classes, ClassGapFn(s)), ClassGap(s, cls).value);
  }

  /** A class that occurs has a spread at least the distance between any two groups' rates. */
  lemma ClassGapAtLeast(s: seq<Sample>, cls: Cell, g: Cell, h: Cell)
    requires CountEq(Truths(s), cls) > 0
    requires GroupTpr(s, cls, g).Some? && GroupTpr(s, cls, h).Some?
    ensures ClassGap(s, cls).Some?
    ensures ClassGap(s, cls).value >= GroupTpr(s, cls, g).value - GroupTpr(s, cls, h).value
  {
    var gs := Groups(s);
    MembersListed(s, g);
    MembersListed(s, h);
    var ig :| 0 <= ig < |gs| && gs[ig] == g;
    var ih :| 0 <= ih < |gs| && gs[ih] == h;
    Stats.CollectHas(gs, ig, GroupTprFn(s, cls));
    Stats.CollectHas(gs, ih, GroupTprFn(s, cls));
    Stats.RangeAtLeast(Tprs(s, cls), GroupTpr(s, cls, g).value, GroupTpr(s, cls, h).value);
  }

  /** With every prediction right, every group with a positive finds all of them. */
  lemma PerfectTprOne(s: seq<Sample>, cls: Cell, g: Cell)
    requires Perfect(s) && GroupTpr(s, cls, g).Some?
    ensures GroupTpr(s, cls, g).value == 1.0
  {
    var m := Members(s, g);
    forall i | 0 <= i < |m|
      ensures Hit(cls)(m[i]) <==> Positive(cls)(m[i])
    {
      assert m[i] in s;
    }
    FilterSame(m, Hit(cls), Positive(cls));
    Stats.RatioWhole(CountWhere(m, Positive(cls)));
  }

  /** Perfect predictions show no disparity. */
  lemma MacroPerfect(s: seq<Sample>)
    requires Perfect(s) && MacroSpec(s).Ok?
    ensures MacroSpec(s).value == 0.0
  {
    var classes := Distinct(Truths(s));
    var gaps := Stats.Collect(classes, ClassGapFn(s));
    forall i | 0 <= i < |classes| && ClassGapFn(s)(classes[i]).Some?
      ensures ClassGapFn(s)(classes[i]).value == 0.0
    {
      var cls := classes[i];
      forall j | 0 <= j < |Groups(s)| && GroupTprFn(s, cls)(Groups(s)[j]).Some?
        ensures GroupTprFn(s, cls)(Groups(s)[j]).value == 1.0
      {
        PerfectTprOne(s, cls, Groups(s)[j]);
      }
      Stats.CollectConstant(Groups(s), GroupTprFn(s, cls), 1.0);
      Stats.RangeOfConstant(Tprs(s, cls), 1.0);
    }
    Stats.CollectConstant(classes, ClassGapFn(s), 0.0);
    GapsWithin(s);
    Loops.MaxOr0Zero(gaps);
  }

  // ---------------------------------------------------------------------
  // Micro equalized odds
  // ---------------------------------------------------------------------

  /** At least 30 samples and two groups. */
  function CheckMicro(s: seq<Sample>): (r: Option<Error>)
    ensures r.None? <==> |s| >= 30 && |Groups(s)| >= 2
    ensures r.Some? ==> r.value.kind == ValueError
    ensures |s| < 30 ==> r == Some(Error(ValueError, "Minimum 30 samples required"))
  {
    if |s| < 30 then Some(Error(ValueError, "Minimum 30 samples required"))
    else if |Groups(s)| < 2 then Some(Error(ValueError, "Need at least 2 protected groups"))
    else None
  }

  /** `correct / total if total > 0 else 0.0` of a group. */
  function Accuracy(s: seq<Sample>, g: Cell): (r: real)
    ensures 0.0 <= r <= 1.0
  {
    var m := Members(s, g);
    Stats.Ratio(Correct(m), |m|)
  }

  function AccuracyFn(s: seq<Sample>): Cell -> real
  {
    g => Accuracy(s, g)
  }

  function ErrorRateFn(s: seq<Sample>): Cell -> real
  {
    g => 1.0 - Accuracy(s, g)
  }

  /** One entry of `group_metrics`. */
  datatype GroupMetric = GroupMetric(accuracy: real, errorRate: real)

  /** `tpr_disparity + fpr_disparity`, each spread 0 for an empty list. */
  function Disparities(accuracies: seq<real>, errorRates: seq<real>): real
  {
    (if accuracies != [] then Stats.Range(accuracies) else 0.0) +
    (if errorRates != [] then Stats.Range(errorRates) else 0.0)
  }

  /** `calc_micro_equalized_odds_multiclass(y_true, y_pred, protected_attr)` */
  function MicroSpec(s: seq<Sample>): (r: Result<real>)
    ensures r.Err? <==> CheckMicro(s).Some?
    ensures r.Err? ==> r.error.kind == ValueError
  {
    match CheckMicro(s)
    case Some(e) => Err(e)
    case None =>
      var gs := Groups(s);
      Ok(Disparities(Loops.Mapped(gs, AccuracyFn(s)), Loops.Mapped(gs, ErrorRateFn(s))))
  }

  /** One group's entry: `correct / total if total > 0 else 0.0` and its complement. */
  method GroupMetricOf(s: seq<Sample>, g: Cell) returns (metric: GroupMetric)
    ensures metric == GroupMetric(Accuracy(s, g), 1.0 - Accuracy(s, g))
  {
    var m := Members(s, g);
    var correct := Correct(m);
    var total := |m|;
    var accuracy := if total > 0 then correct as real / total as real else 0.0;
    metric := GroupMetric(accuracy, 1.0 - accuracy);
  }

  /** The loop filling `group_metrics`, one entry per group in group order. */
  method GroupMetricsLoop(s: seq<Sample>, groups: seq<Cell>) returns (metrics: seq<GroupMetric>)
    ensures |metrics| == |groups|
    ensures forall j :: 0 <= j < |groups| ==> metrics[j] == GroupMetric(Accuracy(s, groups[j]), 1.0 - Accuracy(s, groups[j]))
  {
    metrics := [];
    var i := 0;
    while i < |groups|
      invariant 0 <= i <= |groups|
      invariant |metrics| == i
      invariant forall j :: 0 <= j < i ==> metrics[j] == GroupMetric(Accuracy(s, groups[j]), 1.0 - Accuracy(s, groups[j]))
    {
      var metric := GroupMetricOf(s, groups[i]);
      metrics := metrics + [metric];
      i := i + 1;
    }
  }

  method MicroEqualizedOdds(s: seq<Sample>) returns (r: Result<real>)
    ensures r == MicroSpec(s)
  {
    var check := CheckMicro(s);
    if check.Some? {
      return Err(check.value);
    }
    var groups := Groups(s);
    var metrics := GroupMetricsLoop(s, groups);
    var accuracies := seq(|metrics|, j requires 0 <= j < |metrics| => metrics[j].accuracy);
    var errorRates := seq(|metrics|, j requires 0 <= j < |metrics| => metrics[j].errorRate);
    assert accuracies == Loops.Mapped(groups, AccuracyFn(s));
    assert errorRates == Loops.Mapped(groups, ErrorRateFn(s));
    return Ok(Disparities(accuracies, errorRates));
  }

  /** The error rates spread exactly as far as the accuracies: the metric is twice the accuracy gap. */
  lemma MicroDouble(s: seq<Sample>)
    requires MicroSpec(s).Ok?
    ensures MicroSpec(s).value == 2.0 * Stats.Range(Loops.Mapped(Groups(s), AccuracyFn(s)))
  {
    var gs := Groups(s);
    Stats.RangeComplement(Loops.Mapped(gs, AccuracyFn(s)), Loops.Mapped(gs, ErrorRateFn(s)));
  }

  /** The micro disparity lies in `[0, 2]`. */
  lemma MicroWithin(s: seq<Sample>)
    ensures MicroSpec(s).Ok? ==> 0.0 <= MicroSpec(s).value <= 2.0
  {
    if MicroSpec(s).Ok? {
      MicroDouble(s);
      Stats.RangeWithin(Loops.Mapped(Groups(s), AccuracyFn(s)), 0.0, 1.0);
    }
  }

  /** No label is missing, so a right prediction is counted as correct. */
  predicate Labelled(s: seq<Sample>)
  {
    forall i :: 0 <= i < |s| ==> s[i].truth != Null
  }

  /** With every prediction right, a group with members has accuracy 1. */
  lemma PerfectAccuracyOne(s: seq<Sample>, g: Cell)
    requires Perfect(s) && Labelled(s) && Members(s, g) != []
    ensures Accuracy(s, g) == 1.0
  {
    var m := Members(s, g);
    forall i | 0 <= i < |m|
      ensures Eq(m[i].truth, m[i].pred)
    {
      assert m[i] in s;
    }
    FilterAll(m, (x: Sample) => Eq(x.truth, x.pred));
    Stats.RatioWhole(|m|);
  }

  /** Perfect predictions over present attributes show no disparity. */
  lemma MicroPerfect(s: seq<Sample>)
    requires Perfect(s) && Labelled(s) && Null !in Attrs(s) && MicroSpec(s).Ok?
    ensures MicroSpec(s).value == 0.0
  {
    var gs := Groups(s);
    forall j | 0 <= j < |gs|
      ensures Loops.Mapped(gs, AccuracyFn(s))[j] == 1.0
    {
      PresentGroupHasMembers(s, gs[j]);
      PerfectAccuracyOne(s, gs[j]);
    }
    Stats.RangeOfConstant(Loops.Mapped(gs, AccuracyFn(s)), 1.0);
    MicroDouble(s);
  }

  /**
   * A missing attribute value is a group of its own that selects no sample,
   * so its accuracy reads 0: with every prediction right the metric reports
   * the largest disparity there is.
   */
  lemma MicroMissingGroup(s: seq<Sample>, k: nat)
    requires Perfect(s) && Labelled(s) && Null in Attrs(s)
    requires k < |s| && s[k].attr != Null
    requires MicroSpec(s).Ok?
    ensures MicroSpec(s).value == 2.0
  {
    AccuracyGapOne(s, k);
    MicroDouble(s);
  }

  lemma AccuracyGapOne(s: seq<Sample>, k: nat)
    requires Perfect(s) && Labelled(s) && Null in Attrs(s)
    requires k < |s| && s[k].attr != Null
    ensures Groups(s) != [] && Stats.Range(Loops.Mapped(Groups(s), AccuracyFn(s))) == 1.0
  {
    var gs := Groups(s);
    var accs := Loops.Mapped(gs, AccuracyFn(s));
    assert Null in gs;
    var n :| 0 <= n < |gs| && gs[n] == Null;
    MissingGroupEmpty(s);
    assert accs[n] == 0.0;
    assert Attrs(s)[k] == s[k].attr;
    assert s[k].attr in gs;
    var p :| 0 <= p < |gs| && gs[p] == s[k].attr;
    PresentGroupHasMembers(s, gs[p]);
    PerfectAccuracyOne(s, gs[p]);
    assert accs[p] == 1.0;
    Stats.RangeWithin(accs, 0.0, 1.0);
    Stats.RangeAtLeast(accs, accs[p], accs[n]);
  }
}
