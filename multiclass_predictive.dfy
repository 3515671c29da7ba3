/**
 * Multi-class predictive parity of
 * assurance/fairness/multiclass_predictive.py: per predicted class, how far
 * apart the groups' precisions lie, aggregated as the largest spread or as
 * the spreads' average weighted by how often each class is predicted. The
 * result comes with the support counts as metadata.
 */
module MulticlassPredictive {

  import opened Wrappers
  import opened Counting
  import opened Frames
  import opened Samples
  import Ordered
  import Stats
  import Loops
  import Models
  import MulticlassParity

  /** `y_pred == cls`, one sample at a time. */
  function PredictedAs(cls: Cell): Sample -> bool
  {
    (x: Sample) => Eq(x.pred, cls)
  }

  /** `(y_pred == cls) & (y_true == cls)` */
  function TrueHit(cls: Cell): Sample -> bool
  {
    (x: Sample) => Eq(x.pred, cls) && Eq(x.truth, cls)
  }

  lemma HitsArePredicted(m: seq<Sample>, cls: Cell)
    ensures CountWhere(m, TrueHit(cls)) <= CountWhere(m, PredictedAs(cls))
  {
    FilterMono(m, TrueHit(cls), PredictedAs(cls));
  }

  /** `true_positives / predicted_positive` of a group that predicts the class; nothing otherwise. */
  function GroupPrecision(s: seq<Sample>, cls: Cell, g: Cell): (r: Option<real>)
    ensures r.Some? ==> 0.0 <= r.value <= 1.0
  {
    var m := Members(s, g);
    var predicted := CountWhere(m, PredictedAs(cls));
    if predicted == 0 then None
    else
      HitsArePredicted(m, cls);
      Some(Stats.Ratio(CountWhere(m, TrueHit(cls)), predicted))
  }

  function GroupPrecisionFn(s: seq<Sample>, cls: Cell): Cell -> Option<real>
  {
    g => GroupPrecision(s, cls, g)
  }

  function Precisions(s: seq<Sample>, cls: Cell): seq<real>
  {
    Stats.Collect(Groups(s), GroupPrecisionFn(s, cls))
  }

  /** `max(precisions) - min(precisions)`, for a class some group predicts. */
  function PrecisionGap(s: seq<Sample>, cls: Cell): Option<real>
  {
    var ps := Precisions(s, cls);
    if ps == [] then None else Some(Stats.Range(ps))
  }

  function PrecisionGapFn(s: seq<Sample>): Cell -> Option<real>
  {
    cls => PrecisionGap(s, cls)
  }

  /** The weight appended beside a class's spread, `value_counts(normalize=True).get(cls, 1/len(classes))`. */
  function ClassWeight(s: seq<Sample>, cls: Cell): Option<real>
  {
    if PrecisionGap(s, cls).Some? then Some(MulticlassParity.Weight(s, cls)) else None
  }

  function ClassWeightFn(s: seq<Sample>): Cell -> Option<real>
  {
    cls => ClassWeight(s, cls)
  }

  /** `disparities` */
  function Gaps(s: seq<Sample>): seq<real>
  {
    Stats.Collect(MulticlassParity.Classes(s), PrecisionGapFn(s))
  }

  /** `weights` */
  function Weights(s: seq<Sample>): seq<real>
  {
    Stats.Collect(MulticlassParity.Classes(s), ClassWeightFn(s))
  }

  /** Every spread has its weight beside it. */
  lemma GapsWeightsAligned(s: seq<Sample>)
    ensures |Gaps(s)| == |Weights(s)|
  {
    Stats.CollectAligned(MulticlassParity.Classes(s), PrecisionGapFn(s), ClassWeightFn(s));
  }

  /** A class some group predicts occurs among the predictions. */
  lemma PredictedClassOccurs(s: seq<Sample>, cls: Cell)
    requires PrecisionGap(s, cls).Some?
    ensures cls != Null
    ensures exists k :: 0 <= k < |s| && Preds(s)[k] == cls
  {
    var gs := Groups(s);
    Stats.CollectFrom(gs, GroupPrecisionFn(s, cls), Precisions(s, cls)[0]);
    var j :| 0 <= j < |gs| && GroupPrecision(s, cls, gs[j]).Some?;
    var m := Members(s, gs[j]);
    var x := Filter(m, PredictedAs(cls))[0];
    assert x in Filter(m, PredictedAs(cls));
    assert x in s;
    var k :| 0 <= k < |s| && s[k] == x;
    assert Preds(s)[k] == cls;
  }

  /** Every weight is positive: only a predicted class gets one, and it is its share. */
  lemma WeightsPositive(s: seq<Sample>)
    ensures forall i :: 0 <= i < |Weights(s)| ==> Weights(s)[i] > 0.0
  {
    var classes := MulticlassParity.Classes(s);
    forall i | 0 <= i < |Weights(s)|
      ensures Weights(s)[i] > 0.0
    {
      Stats.CollectFrom(classes, ClassWeightFn(s), Weights(s)[i]);
      var c :| 0 <= c < |classes| && ClassWeight(s, classes[c]) == Some(Weights(s)[i]);
      PredictedClassOccurs(s, classes[c]);
      var k :| 0 <= k < |s| && Preds(s)[k] == classes[c];
      assert classes[c] in Values(Preds(s));
      SharePositive(Preds(s), k);
    }
  }

  /** Every spread lies in `[0, 1]`. */
  lemma GapsWithin(s: seq<Sample>)
    ensures Stats.Within(Gaps(s), 0.0, 1.0)
  {
    var classes := MulticlassParity.Classes(s);
    forall i | 0 <= i < |classes| && PrecisionGapFn(s)(classes[i]).Some?
      ensures 0.0 <= PrecisionGapFn(s)(classes[i]).value <= 1.0
    {
      Stats.CollectWithin(Groups(s), GroupPrecisionFn(s, classes[i]), 0.0, 1.0);
      Stats.RangeWithin(Precisions(s, classes[i]), 0.0, 1.0);
    }
    Stats.CollectWithin(classes, PrecisionGapFn(s), 0.0, 1.0);
  }

  /** The spreads and weights as the loop leaves them. */
  predicate Aligned(gaps: seq<real>, weights: seq<real>)
  {
    |gaps| == |weights| && forall i :: 0 <= i < |weights| ==> weights[i] > 0.0
  }

  lemma SpreadsAligned(s: seq<Sample>)
    ensures Aligned(Gaps(s), Weights(s))
  {
    GapsWeightsAligned(s);
    WeightsPositive(s);
  }

  /**
   * The two strategies: the largest spread, or `sum(d * w) / sum(weights)`,
   * 0 with no spread at all; any other strategy is refused. The weights are
   * positive, so the division is defined.
   */
  function Aggregate(gaps: seq<real>, weights: seq<real>, strategy: string): (r: Result<real>)
    requires Aligned(gaps, weights)
    ensures r.Err? <==> strategy != "macro" && strategy != "weighted"
    ensures r.Err? ==> r.error.kind == ValueError
  {
    if strategy == "macro" then Ok(Loops.MaxOr0(gaps))
    else if strategy == "weighted" then
      if gaps == [] then Ok(0.0)
      else
        Stats.SumPositive(weights);
        Ok(Stats.Dot(gaps, weights) / Stats.Sum(weights))
    else Fail(ValueError, "Unknown strategy: " + strategy)
  }

  /** `min()` of a `value_counts()`, missing (NaN) when nothing is present. */
  function MinSupport(cells: seq<Cell>): Models.Datum
  {
    var counts := ValueCounts(cells);
    if counts == [] then Models.DNull else Models.DNum(Stats.Min(counts))
  }

  /** The metadata dictionary, in the source's key order. */
  function Support(s: seq<Sample>): (r: Models.Metadata)
    ensures Ordered.Get(r, "total_samples") == Some(Models.DNum(|s| as real))
  {
    [("total_samples", Models.DNum(|s| as real)),
     ("min_class_support", MinSupport(Truths(s))),
     ("min_prediction_support", MinSupport(Preds(s)))]
  }

  /** `calc_predictive_parity_multiclass(y_true, y_pred, protected_attr, strategy)` */
  function PredictiveSpec(s: seq<Sample>, strategy: string): (r: Result<(real, Models.Metadata)>)
    ensures r.Err? <==> |s| < 30 || (strategy != "macro" && strategy != "weighted")
    ensures r.Err? ==> r.error.kind == ValueError
    ensures r.Ok? ==> Ordered.Get(r.value.1, "total_samples") == Some(Models.DNum(|s| as real))
  {
    if |s| < 30 then Fail(ValueError, "Minimum 30 samples required")
    else
      SpreadsAligned(s);
      var v :- Aggregate(Gaps(s), Weights(s), strategy);
      Ok((v, Support(s)))
  }

  /** One class of the loop: its group precisions, then its spread. */
  method PrecisionGapOf(s: seq<Sample>, cls: Cell) returns (d: Option<real>)
    ensures d == PrecisionGap(s, cls)
  {
    var precisions := Loops.CollectEach(Groups(s), GroupPrecisionFn(s, cls));
    if precisions != [] {
      d := Some(Stats.Range(precisions));
    } else {
      d := None;
    }
  }

  /** The class loop filling `disparities` and `weights` side by side. */
  method GapsAndWeights(s: seq<Sample>) returns (gaps: seq<real>, weights: seq<real>)
    ensures gaps == Gaps(s) && weights == Weights(s)
  {
    var classes := MulticlassParity.Classes(s);
    gaps, weights := [], [];
    var i := 0;
    while i < |classes|
      invariant 0 <= i <= |classes|
      invariant gaps == Stats.Collect(classes[..i], PrecisionGapFn(s))
      invariant weights == Stats.Collect(classes[..i], ClassWeightFn(s))
    {
      Stats.CollectStep(classes, i, PrecisionGapFn(s));
      Stats.CollectStep(classes, i, ClassWeightFn(s));
      var d := PrecisionGapOf(s, classes[i]);
      if d.Some? {
        gaps := gaps + [d.value];
        weights := weights + [MulticlassParity.Weight(s, classes[i])];
      }
      i := i + 1;
    }
    assert classes[..i] == classes;
  }

  method PredictiveParity(s: seq<Sample>, strategy: string) returns (r: Result<(real, Models.Metadata)>)
    ensures r == PredictiveSpec(s, strategy)
  {
    if |s| < 30 {
      return Fail(ValueError, "Minimum 30 samples required");
    }
    var gaps, weights := GapsAndWeights(s);
    SpreadsAligned(s);
    var v :- Aggregate(gaps, weights, strategy);
    return Ok((v, Support(s)));
  }

  /** Both strategies give a value in `[0, 1]`. */
  lemma AggregateWithin(gaps: seq<real>, weights: seq<real>, strategy: string)
    requires Aligned(gaps, weights) && Stats.Within(gaps, 0.0, 1.0)
    ensures Aggregate(gaps, weights, strategy).Ok? ==> 0.0 <= Aggregate(gaps, weights, strategy).value <= 1.0
  {
    if strategy == "weighted" && gaps != [] {
      Stats.DotWithin(gaps, weights);
      Stats.SumPositive(weights);
      Stats.DivWithin(Stats.Dot(gaps, weights), Stats.Sum(weights));
    }
  }

  /** The weighted average never exceeds the largest spread. */
  lemma WeightedBelowMacro(gaps: seq<real>, weights: seq<real>)
    requires Aligned(gaps, weights)
    ensures Aggregate(gaps, weights, "weighted").value <= Aggregate(gaps, weights, "macro").value
  {
    if gaps != [] {
      var m := Stats.Max(gaps);
      Stats.DotBelow(gaps, weights, m);
      Stats.SumPositive(weights);
      Stats.DivBelow(Stats.Dot(gaps, weights), Stats.Sum(weights), m);
    }
  }

  /** Predictive parity lies in `[0, 1]`, and the weighted strategy is at most the macro one. */
  lemma PredictiveWithin(s: seq<Sample>, strategy: string)
    ensures PredictiveSpec(s, strategy).Ok? ==> 0.0 <= PredictiveSpec(s, strategy).value.0 <= 1.0
    ensures |s| >= 30 ==> PredictiveSpec(s, "weighted").value.0 <= PredictiveSpec(s, "macro").value.0
  {
    SpreadsAligned(s);
    GapsWithin(s);
    AggregateWithin(Gaps(s), Weights(s), strategy);
    WeightedBelowMacro(Gaps(s), Weights(s));
  }

  /** With every prediction right, every group that predicts a class is exact. */
  lemma PerfectPrecisionOne(s: seq<Sample>, cls: Cell, g: Cell)
    requires forall i :: 0 <= i < |s| ==> s[i].pred == s[i].truth
    requires GroupPrecision(s, cls, g).Some?
    ensures GroupPrecision(s, cls, g).value == 1.0
  {
    var m := Members(s, g);
    forall i | 0 <= i < |m|
      ensures TrueHit(cls)(m[i]) <==> PredictedAs(cls)(m[i])
    {
      assert m[i] in s;
    }
    FilterSame(m, TrueHit(cls), PredictedAs(cls));
    Stats.RatioWhole(CountWhere(m, PredictedAs(cls)));
  }

  /** Perfect predictions show no disparity under either strategy. */
  lemma PredictivePerfect(s: seq<Sample>, strategy: string)
    requires forall i :: 0 <= i < |s| ==> s[i].pred == s[i].truth
    requires PredictiveSpec(s, strategy).Ok?
    ensures PredictiveSpec(s, strategy).value.0 == 0.0
  {
    var classes := MulticlassParity.Classes(s);
    forall i | 0 <= i < |classes| && PrecisionGapFn(s)(classes[i]).Some?
      ensures PrecisionGapFn(s)(classes[i]).value == 0.0
    {
      var cls := classes[i];
      forall j | 0 <= j < |Groups(s)| && GroupPrecisionFn(s, cls)(Groups(s)[j]).Some?
        ensures GroupPrecisionFn(s, cls)(Groups(s)[j]).value == 1.0
      {
        PerfectPrecisionOne(s, cls, Groups(s)[j]);
      }
      Stats.CollectConstant(Groups(s), GroupPrecisionFn(s, cls), 1.0);
      Stats.RangeOfConstant(Precisions(s, cls), 1.0);
    }
    Stats.CollectConstant(classes, PrecisionGapFn(s), 0.0);
    SpreadsAligned(s);
    GapsWithin(s);
    Loops.MaxOr0Zero(Gaps(s));
    AggregateWithin(Gaps(s), Weights(s), strategy);
    WeightedBelowMacro(Gaps(s), Weights(s));
  }
}
