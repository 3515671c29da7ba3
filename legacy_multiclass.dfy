/**
 * fairness/multiclass.py, the earlier home of the multi-class metrics. Its
 * weighted demographic parity and both equal-opportunity metrics are the
 * ones of assurance/fairness/ line for line; its predictive parity also
 * refuses fewer than two predicted classes or groups and returns the bare
 * value, and its report holds six metrics, two strategies each for parity
 * and predictive parity.
 */
module LegacyMulticlass {

  import opened Wrappers
  import opened Counting
  import opened Frames
  import opened Samples
  import Ordered
  import Stats
  import Models
  import MulticlassParity
  import MulticlassError
  import MulticlassPredictive

  /** At least 30 samples, 2 predicted values (a missing one counts) and 2 groups. */
  function CheckPredictive(s: seq<Sample>): (r: Option<Error>)
    ensures r.None? <==> |s| >= 30 && |Distinct(Preds(s))| >= 2 && |Groups(s)| >= 2
    ensures r.Some? ==> r.value.kind == ValueError
  {
    if |s| < 30 then Some(Error(ValueError, "Minimum 30 samples required"))
    else if |Distinct(Preds(s))| < 2 then Some(Error(ValueError, "Need at least 2 classes"))
    else if |Groups(s)| < 2 then Some(Error(ValueError, "Need at least 2 protected groups"))
    else None
  }

  /** `calc_predictive_parity_multiclass(y_true, y_pred, protected_attr, strategy)`, the value alone. */
  function PredictiveSpec(s: seq<Sample>, strategy: string): (r: Result<real>)
    ensures r.Err? <==> CheckPredictive(s).Some? || (strategy != "macro" && strategy != "weighted")
    ensures r.Err? ==> r.error.kind == ValueError
  {
    match CheckPredictive(s)
    case Some(e) => Err(e)
    case None =>
      MulticlassPredictive.SpreadsAligned(s);
      MulticlassPredictive.Aggregate(MulticlassPredictive.Gaps(s), MulticlassPredictive.Weights(s), strategy)
  }

  method PredictiveParity(s: seq<Sample>, strategy: string) returns (r: Result<real>)
    ensures r == PredictiveSpec(s, strategy)
  {
    var check := CheckPredictive(s);
    if check.Some? {
      return Err(check.value);
    }
    var gaps, weights := MulticlassPredictive.GapsAndWeights(s);
    MulticlassPredictive.SpreadsAligned(s);
    r := MulticlassPredictive.Aggregate(gaps, weights, strategy);
  }

  /**
   * Where the earlier version accepts the data, it computes the value the
   * current version returns; it refuses more (a single predicted value, a
   * single group).
   */
  lemma PredictiveAgrees(s: seq<Sample>, strategy: string)
    ensures PredictiveSpec(s, strategy).Ok? ==>
      MulticlassPredictive.PredictiveSpec(s, strategy).Ok? &&
      PredictiveSpec(s, strategy).value == MulticlassPredictive.PredictiveSpec(s, strategy).value.0
    ensures CheckPredictive(s).None? ==>
      (PredictiveSpec(s, strategy).Ok? <==> MulticlassPredictive.PredictiveSpec(s, strategy).Ok?)
  {
  }

  /** A single group is refused here, while the current version returns a value for it. */
  lemma SingleGroupRefused(s: seq<Sample>, strategy: string)
    requires |s| >= 30 && |Groups(s)| < 2
    ensures PredictiveSpec(s, strategy).Err?
    ensures strategy == "macro" || strategy == "weighted" ==> MulticlassPredictive.PredictiveSpec(s, strategy).Ok?
  {
  }

  function ReportKeys(): seq<string>
  {
    ["weighted_demographic_parity_macro", "weighted_demographic_parity_weighted", "macro_equal_opportunity",
     "micro_equalized_odds", "predictive_parity_macro", "predictive_parity_weighted"]
  }

  function ReportEntries(wdpMacro: real, wdpWeighted: real, eo: real, odds: real, ppMacro: real, ppWeighted: real): (r: Models.Metadata)
    ensures Ordered.Keys(r) == ReportKeys()
    ensures |r| == 6
    ensures r[0].1 == Models.DNum(wdpMacro) && r[1].1 == Models.DNum(wdpWeighted) && r[2].1 == Models.DNum(eo)
    ensures r[3].1 == Models.DNum(odds) && r[4].1 == Models.DNum(ppMacro) && r[5].1 == Models.DNum(ppWeighted)
  {
    [("weighted_demographic_parity_macro", Models.DNum(wdpMacro)),
     ("weighted_demographic_parity_weighted", Models.DNum(wdpWeighted)),
     ("macro_equal_opportunity", Models.DNum(eo)),
     ("micro_equalized_odds", Models.DNum(odds)),
     ("predictive_parity_macro", Models.DNum(ppMacro)),
     ("predictive_parity_weighted", Models.DNum(ppWeighted))]
  }

  /** `calc_multiclass_fairness_report(y_true, y_pred, protected_attr)`: the first failure propagates. */
  function ReportSpec(s: seq<Sample>): (r: Result<Models.Metadata>)
    ensures r.Ok? ==> Ordered.Keys(r.value) == ReportKeys()
    ensures |s| < 30 ==> r == Fail(ValueError, "Minimum 30 samples required")
    ensures r.Ok? ==>
      && MulticlassParity.WdpSpec(s, "macro").Ok? && MulticlassParity.WdpSpec(s, "weighted").Ok?
      && MulticlassError.MacroSpec(s).Ok? && MulticlassError.MicroSpec(s).Ok?
      && PredictiveSpec(s, "macro").Ok? && PredictiveSpec(s, "weighted").Ok?
      && r.value == ReportEntries(MulticlassParity.WdpSpec(s, "macro").value, MulticlassParity.WdpSpec(s, "weighted").value,
                                  MulticlassError.MacroSpec(s).value, MulticlassError.MicroSpec(s).value,
                                  PredictiveSpec(s, "macro").value, PredictiveSpec(s, "weighted").value)
  {
    if |s| < 30 then Fail(ValueError, "Minimum 30 samples required")
    else
      var wdpMacro :- MulticlassParity.WdpSpec(s, "macro");
      var wdpWeighted :- MulticlassParity.WdpSpec(s, "weighted");
      var eo :- MulticlassError.MacroSpec(s);
      var odds :- MulticlassError.MicroSpec(s);
      var ppMacro :- PredictiveSpec(s, "macro");
      var ppWeighted :- PredictiveSpec(s, "weighted");
      Ok(ReportEntries(wdpMacro, wdpWeighted, eo, odds, ppMacro, ppWeighted))
  }

  method Report(s: seq<Sample>) returns (r: Result<Models.Metadata>)
    ensures r == ReportSpec(s)
  {
    if |s| < 30 {
      return Fail(ValueError, "Minimum 30 samples required");
    }
    var wdpMacro :- MulticlassParity.WeightedDemographicParity(s, "macro");
    var wdpWeighted :- MulticlassParity.WeightedDemographicParity(s, "weighted");
    var eo :- MulticlassError.MacroEqualOpportunity(s);
    var odds :- MulticlassError.MicroEqualizedOdds(s);
    var ppMacro :- PredictiveParity(s, "macro");
    var ppWeighted :- PredictiveParity(s, "weighted");
    return Ok(ReportEntries(wdpMacro, wdpWeighted, eo, odds, ppMacro, ppWeighted));
  }

  /** Every failure of the report is a ValueError, and it fails exactly when one of its metrics does. */
  lemma ReportFails(s: seq<Sample>)
    ensures ReportSpec(s).Err? ==> ReportSpec(s).error.kind == ValueError
    ensures ReportSpec(s).Err? <==>
      MulticlassParity.CheckParity(s).Some? || MulticlassError.CheckMacro(s).Some? ||
      MulticlassError.CheckMicro(s).Some? || CheckPredictive(s).Some?
  {
  }

  /** The bounds of the report's values, entry by entry. */
  predicate EntriesWithin(r: Models.Metadata)
  {
    && |r| == 6 && (forall i :: 0 <= i < 6 ==> r[i].1.DNum?)
    && (forall i :: 0 <= i < 6 && i != 3 ==> 0.0 <= r[i].1.num <= 1.0)
    && 0.0 <= r[3].1.num <= 2.0
    && r[5].1.num <= r[4].1.num
  }

  /**
   * The report's values: the parities, equal opportunity and predictive
   * parities lie in `[0, 1]`, equalized odds in `[0, 2]`, and weighting the
   * predictive-parity gaps never exceeds their maximum.
   */
  lemma ReportWithin(s: seq<Sample>)
    requires ReportSpec(s).Ok?
    ensures EntriesWithin(ReportSpec(s).value)
  {
    var wdpMacro, wdpWeighted := MulticlassParity.WdpSpec(s, "macro"), MulticlassParity.WdpSpec(s, "weighted");
    var eo, odds := MulticlassError.MacroSpec(s), MulticlassError.MicroSpec(s);
    var ppMacro, ppWeighted := PredictiveSpec(s, "macro"), PredictiveSpec(s, "weighted");
    assert wdpMacro.Ok? && wdpWeighted.Ok? && eo.Ok? && odds.Ok? && ppMacro.Ok? && ppWeighted.Ok?;
    assert ReportSpec(s).value == ReportEntries(wdpMacro.value, wdpWeighted.value, eo.value, odds.value, ppMacro.value, ppWeighted.value);
    MulticlassParity.WdpWithin(s, "macro");
    MulticlassParity.WdpWithin(s, "weighted");
    MulticlassError.MacroWithin(s);
    MulticlassError.MicroWithin(s);
    PredictiveOrdered(s);
    EntriesOfWithin(wdpMacro.value, wdpWeighted.value, eo.value, odds.value, ppMacro.value, ppWeighted.value);
  }

  lemma EntriesOfWithin(wdpMacro: real, wdpWeighted: real, eo: real, odds: real, ppMacro: real, ppWeighted: real)
    requires 0.0 <= wdpMacro <= 1.0 && 0.0 <= wdpWeighted <= 1.0 && 0.0 <= eo <= 1.0 && 0.0 <= odds <= 2.0
    requires 0.0 <= ppWeighted <= ppMacro <= 1.0
    ensures EntriesWithin(ReportEntries(wdpMacro, wdpWeighted, eo, odds, ppMacro, ppWeighted))
  {
    var r := ReportEntries(wdpMacro, wdpWeighted, eo, odds, ppMacro, ppWeighted);
    assert r[0].1.num == wdpMacro && r[1].1.num == wdpWeighted && r[2].1.num == eo;
  }

  /** The predictive parities lie in `[0, 1]` and the weighted one is at most the macro one. */
  lemma PredictiveOrdered(s: seq<Sample>)
    requires CheckPredictive(s).None?
    ensures 0.0 <= PredictiveSpec(s, "weighted").value <= PredictiveSpec(s, "macro").value <= 1.0
  {
    MulticlassPredictive.GapsWithin(s);
    MulticlassPredictive.SpreadsAligned(s);
    var gaps, weights := MulticlassPredictive.Gaps(s), MulticlassPredictive.Weights(s);
    MulticlassPredictive.AggregateWithin(gaps, weights, "macro");
    MulticlassPredictive.AggregateWithin(gaps, weights, "weighted");
    MulticlassPredictive.WeightedBelowMacro(gaps, weights);
  }
}
