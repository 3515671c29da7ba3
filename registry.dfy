/**
 * METRIC_REGISTRY of metrics/__init__.py: the eight metric keys a control
 * may name, each bound to its metric function.
 */
module Registry {

  import opened Wrappers
  import opened Frames
  import opened Roles
  import opened Foreign
  import opened Models
  import Performance
  import FairnessMetrics
  import DataMetrics

  /** What a metric returns: a bare value, or a `(value, metadata)` pair. */
  datatype Outcome = Scalar(value: real) | Pair(value: real, meta: Metadata)

  /** A metric called as `calc_fn(data, **kwargs)`; raising is an `Err`. */
  type MetricFn = (Frame, Kwargs) -> Result<Outcome>

  function AsOutcome(r: Result<real>): (o: Result<Outcome>)
    ensures o.Ok? <==> r.Ok?
    ensures o.Ok? ==> o.value == Scalar(r.value)
    ensures o.Err? ==> o.error == r.error
  {
    match r
    case Ok(v) => Ok(Scalar(v))
    case Err(e) => Err(e)
  }

  const Keys: set<string> := {
    "accuracy_score", "precision_score", "recall_score", "f1_score",
    "demographic_parity_diff", "equal_opportunity_diff", "disparate_impact", "class_imbalance"
  }

  /** The registry, given the foreign scorers the metrics call into. */
  function Metrics(ext: Externals): (m: map<string, MetricFn>)
    ensures m.Keys == Keys
  {
    map[
      "accuracy_score" := (df, kw) => AsOutcome(Performance.Accuracy(df, kw, ext)),
      "precision_score" := (df, kw) => AsOutcome(Performance.Precision(df, kw, ext)),
      "recall_score" := (df, kw) => AsOutcome(Performance.Recall(df, kw, ext)),
      "f1_score" := (df, kw) => AsOutcome(Performance.F1(df, kw, ext)),
      "demographic_parity_diff" := (df, kw) => AsOutcome(FairnessMetrics.DemographicParity(df, kw, ext)),
      "equal_opportunity_diff" := (df, kw) => AsOutcome(FairnessMetrics.EqualOpportunitySpec(df, kw, ext)),
      "disparate_impact" := (df, kw) => AsOutcome(DataMetrics.DisparateImpact(df, kw, ext)),
      "class_imbalance" := (df, kw) => Ok(Scalar(DataMetrics.ClassImbalance(df, kw)))
    ]
  }

  /** Each key calls the function of its module with the data and the keyword arguments, and returns a bare value. */
  lemma RegistryBindings(ext: Externals, df: Frame, kw: Kwargs)
    ensures Metrics(ext)["accuracy_score"](df, kw) == AsOutcome(Performance.Accuracy(df, kw, ext))
    ensures Metrics(ext)["precision_score"](df, kw) == AsOutcome(Performance.Precision(df, kw, ext))
    ensures Metrics(ext)["recall_score"](df, kw) == AsOutcome(Performance.Recall(df, kw, ext))
    ensures Metrics(ext)["f1_score"](df, kw) == AsOutcome(Performance.F1(df, kw, ext))
    ensures Metrics(ext)["demographic_parity_diff"](df, kw) == AsOutcome(FairnessMetrics.DemographicParity(df, kw, ext))
    ensures Metrics(ext)["equal_opportunity_diff"](df, kw) == AsOutcome(FairnessMetrics.EqualOpportunitySpec(df, kw, ext))
    ensures Metrics(ext)["disparate_impact"](df, kw) == AsOutcome(DataMetrics.DisparateImpact(df, kw, ext))
    ensures Metrics(ext)["class_imbalance"](df, kw) == Ok(Scalar(DataMetrics.ClassImbalance(df, kw)))
  {
  }

  /** Every registered metric returns a bare value, never a `(value, metadata)` pair. */
  lemma RegistryBareValues(ext: Externals, df: Frame, kw: Kwargs, k: string)
    requires k in Metrics(ext) && Metrics(ext)[k](df, kw).Ok?
    ensures Metrics(ext)[k](df, kw).value.Scalar?
  {
    var m := Metrics(ext);
    assert k in Keys;
    if k == "accuracy_score" {
      assert m[k](df, kw) == AsOutcome(Performance.Accuracy(df, kw, ext));
    } else if k == "precision_score" {
      assert m[k](df, kw) == AsOutcome(Performance.Precision(df, kw, ext));
    } else if k == "recall_score" {
      assert m[k](df, kw) == AsOutcome(Performance.Recall(df, kw, ext));
    } else if k == "f1_score" {
      assert m[k](df, kw) == AsOutcome(Performance.F1(df, kw, ext));
    } else if k == "demographic_parity_diff" {
      assert m[k](df, kw) == AsOutcome(FairnessMetrics.DemographicParity(df, kw, ext));
    } else if k == "equal_opportunity_diff" {
      assert m[k](df, kw) == AsOutcome(FairnessMetrics.EqualOpportunitySpec(df, kw, ext));
    } else if k == "disparate_impact" {
      assert m[k](df, kw) == AsOutcome(DataMetrics.DisparateImpact(df, kw, ext));
    } else {
      assert m[k](df, kw) == Ok(Scalar(DataMetrics.ClassImbalance(df, kw)));
    }
  }

  const ScoreKeys: set<string> := {"accuracy_score", "precision_score", "recall_score", "f1_score"}

  /**
   * The SDK's own guards add no failure to the four scores: with target or
   * prediction unusable each returns 0.0, and otherwise each is exactly
   * scikit-learn's score of the two columns, raising what it raises.
   */
  lemma ScoresFailOnlyInScorer(ext: Externals, df: Frame, kw: Kwargs)
    ensures var t, p := Arg(kw, "target"), Arg(kw, "prediction");
      !(BoundTo(t, df.columns) && BoundTo(p, df.columns)) ==>
        forall k :: k in ScoreKeys ==> Metrics(ext)[k](df, kw) == Ok(Scalar(0.0))
    ensures var t, p := Arg(kw, "target"), Arg(kw, "prediction");
      BoundTo(t, df.columns) && BoundTo(p, df.columns) ==>
        var yt, yp := Column(df, t.value), Column(df, p.value);
        && Metrics(ext)["accuracy_score"](df, kw) == AsOutcome(ext.accuracy(yt, yp))
        && Metrics(ext)["precision_score"](df, kw) == AsOutcome(ext.precision(yt, yp))
        && Metrics(ext)["recall_score"](df, kw) == AsOutcome(ext.recall(yt, yp))
        && Metrics(ext)["f1_score"](df, kw) == AsOutcome(ext.f1(yt, yp))
  {
    var t, p := Arg(kw, "target"), Arg(kw, "prediction");
    if !(BoundTo(t, df.columns) && BoundTo(p, df.columns)) {
      forall k | k in ScoreKeys
        ensures Metrics(ext)[k](df, kw) == Ok(Scalar(0.0))
      {
        RegistryBindings(ext, df, kw);
      }
    } else {
      RegistryBindings(ext, df, kw);
    }
  }

  /** Class imbalance never raises: an unusable target gives 0.0. */
  lemma ClassImbalanceNeverFails(ext: Externals, df: Frame, kw: Kwargs)
    ensures Metrics(ext)["class_imbalance"](df, kw) == Ok(Scalar(DataMetrics.ClassImbalance(df, kw)))
  {
  }
}
