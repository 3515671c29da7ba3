/**
 * output.py: the semantic risk level of a metric value, and the console
 * renderings of a list of results (a header with the pass count, one row
 * per result, recommendations for the failures). The metric catalogue the
 * interpretation imports is a parameter; `None` stands for the import that
 * fails, which the renderers catch. Number formatting is the given `fmt`
 * (a value and its number of decimals).
 */
module Output {

  import opened Wrappers
  import opened Models
  import Ordered
  import Core

  /** The metric catalogue: metric key to its descriptive metadata. */
  type Catalogue = Ordered.Dict<string, Metadata>

  datatype Risk = Low | Medium | High | Info

  function RiskLabel(r: Risk): string
  {
    match r
    case Low => "\U{1F7E2} LOW"
    case Medium => "\U{1F7E1} MEDIUM"
    case High => "\U{1F534} HIGH"
    case Info => "\U{26AA} INFO"
  }

  /** The dictionary `_get_metric_interpretation` returns. */
  datatype Interpretation = Interpretation(risk: Risk, interpretation: string, metadata: Metadata)

  /** Higher is better: the privacy metrics. */
  predicate HigherIsBetter(metricKey: string)
  {
    metricKey in ["k_anonymity", "l_diversity"]
  }

  /** Lower is better: the fairness differences and t-closeness. */
  predicate LowerIsBetter(metricKey: string)
  {
    metricKey in ["demographic_parity_diff", "equal_opportunity_diff", "t_closeness"]
  }

  /** The risk of a value against its threshold, by metric family and then by operator. */
  function RiskOf(metricKey: string, value: real, threshold: real, op: string): (r: Risk)
    ensures HigherIsBetter(metricKey) ==>
      && (r == Low <==> value >= threshold)
      && (r == Medium <==> value < threshold && value >= threshold * 7.0 / 10.0)
      && (r == High <==> value < threshold && value < threshold * 7.0 / 10.0)
    ensures LowerIsBetter(metricKey) ==>
      && (r == Low <==> value <= threshold)
      && (r == Medium <==> value > threshold && value <= threshold * 3.0 / 2.0)
      && (r == High <==> value > threshold && value > threshold * 3.0 / 2.0)
    ensures !HigherIsBetter(metricKey) && !LowerIsBetter(metricKey) ==>
      && (r == Info <==> op !in ["<", "lt", ">", "gt"])
      && (op in ["<", "lt"] ==> (r == Low <==> value <= threshold) && (r != Low ==> r == High))
      && (op in [">", "gt"] ==> (r == Low <==> value >= threshold) && (r != Low ==> r == High))
  {
    if HigherIsBetter(metricKey) then
      if value >= threshold then Low else if value >= threshold * 7.0 / 10.0 then Medium else High
    else if LowerIsBetter(metricKey) then
      if value <= threshold then Low else if value <= threshold * 3.0 / 2.0 then Medium else High
    else if op in ["<", "lt"] then
      if value <= threshold then Low else High
    else if op in [">", "gt"] then
      if value >= threshold then Low else High
    else Info
  }

  /** The interpretation text of each branch. */
  function Explanation(metricKey: string, value: real, threshold: real, op: string, fmt: (real, nat) -> string): string
  {
    var risk := RiskOf(metricKey, value, threshold, op);
    if HigherIsBetter(metricKey) then
      var v, t := fmt(value, 0), fmt(threshold, 0);
      match risk
      case Low => "Excellent: " + v + " \U{2265} " + t
      case Medium => "Fair: " + v + " is close to " + t
      case _ => "Poor: " + v + " < " + t + " (recommend \U{2265} " + t + ")"
    else
      var v, t := fmt(value, 4), fmt(threshold, 4);
      if LowerIsBetter(metricKey) then
        match risk
        case Low => "Perfect: " + v + " \U{2264} " + t
        case Medium => "Acceptable: " + v + " is close to " + t
        case _ => "Violation: " + v + " > " + t + " (recommend \U{2264} " + t + ")"
      else if op in ["<", "lt"] then
        if risk == Low then "Pass: " + v + " < " + t else "Fail: " + v + " \U{2265} " + t
      else if op in [">", "gt"] then
        if risk == Low then "Pass: " + v + " > " + t else "Fail: " + v + " \U{2264} " + t
      else "Value: " + v
  }

  /**
   * `_get_metric_interpretation(metric_key, actual_value, threshold, operator)`:
   * an ImportError when the catalogue is absent; else the risk, its
   * explanation and the catalogue's entry for the metric (empty when there
   * is none).
   */
  function MetricInterpretation(metricKey: string, value: real, threshold: real, op: string,
                                catalogue: Option<Catalogue>, fmt: (real, nat) -> string): (r: Result<Interpretation>)
    ensures r.Err? <==> catalogue.None?
    ensures r.Err? ==> r.error.kind == ImportError
    ensures r.Ok? ==> r.value.risk == RiskOf(metricKey, value, threshold, op)
    ensures r.Ok? && Ordered.Get(catalogue.value, metricKey).None? ==> r.value.metadata == []
    ensures r.Ok? && Ordered.Get(catalogue.value, metricKey).Some? ==>
      r.value.metadata == Ordered.Get(catalogue.value, metricKey).value
  {
    match catalogue
    case None => Fail(ImportError, "cannot import name 'METRIC_METADATA'")
    case Some(c) =>
      var metadata := match Ordered.Get(c, metricKey) case Some(m) => m case None => [];
      Ok(Interpretation(RiskOf(metricKey, value, threshold, op), Explanation(metricKey, value, threshold, op, fmt), metadata))
  }

  /** A better value never raises the risk: up for the privacy metrics, down for the differences. */
  lemma RiskMonotone(metricKey: string, v: real, w: real, threshold: real, op: string)
    requires v <= w
    ensures HigherIsBetter(metricKey) ==> Rank(RiskOf(metricKey, w, threshold, op)) <= Rank(RiskOf(metricKey, v, threshold, op))
    ensures LowerIsBetter(metricKey) ==> Rank(RiskOf(metricKey, v, threshold, op)) <= Rank(RiskOf(metricKey, w, threshold, op))
  {
  }

  /** Low, medium, high in order; information ranks with low. */
  function Rank(r: Risk): nat
  {
    match r
    case Low => 0
    case Info => 0
    case Medium => 1
    case High => 2
  }

  /**
   * For the other metrics the risk agrees with the control's own verdict
   * under `<`/`lt` and `>`/`gt`, except at the threshold itself, where the
   * control fails and the risk is low.
   */
  lemma RiskAgreesWithCheck(metricKey: string, value: real, threshold: real, op: string)
    requires !HigherIsBetter(metricKey) && !LowerIsBetter(metricKey) && op in ["<", "lt", ">", "gt"]
    ensures Core.CheckCondition(value, op, threshold) ==> RiskOf(metricKey, value, threshold, op) == Low
    ensures value != threshold ==> (RiskOf(metricKey, value, threshold, op) == Low <==> Core.CheckCondition(value, op, threshold))
    ensures value == threshold ==> RiskOf(metricKey, value, threshold, op) == Low && !Core.CheckCondition(value, op, threshold)
  {
  }

  // ---------------------------------------------------------------------
  // Rendering
  // ---------------------------------------------------------------------

  /** `(passed / total * 100) if total > 0 else 0` */
  function CompliancePercent(results: seq<ComplianceResult>): (p: real)
    ensures 0.0 <= p <= 100.0
    ensures results == [] ==> p == 0.0
    ensures results != [] ==> (p == 100.0 <==> PassedCount(results) == |results|)
    ensures p == 0.0 <==> PassedCount(results) == 0
  {
    var n := PassedCount(results);
    if |results| > 0 then Ratio(n, |results|) * 100.0 else 0.0
  }

  function Ratio(n: nat, total: nat): (r: real)
    requires n <= total && total > 0
    ensures 0.0 <= r <= 1.0 && (r == 1.0 <==> n == total) && (r == 0.0 <==> n == 0)
  {
    n as real / total as real
  }

  /** The header mark: all passed, some passed, none passed. */
  function StatusEmoji(results: seq<ComplianceResult>): (e: string)
    ensures e == "\U{2705}" <==> forall i :: 0 <= i < |results| ==> results[i].passed
    ensures e == "\U{26A0}\U{FE0F}" <==> PassedCount(results) > 0 && PassedCount(results) < |results|
    ensures e == "\U{274C}" <==> results != [] && forall i :: 0 <= i < |results| ==> !results[i].passed
  {
    var passed := PassedCount(results);
    if passed == |results| then "\U{2705}" else if passed > 0 then "\U{26A0}\U{FE0F}" else "\U{274C}"
  }

  /** One table row: control, metric, value, interpretation, risk. */
  datatype Row = Row(controlId: string, metricKey: string, value: string, interpretation: string, risk: string)

  /** A result's row; a failed interpretation falls back to its `INFO` row. */
  function RowOf(res: ComplianceResult, catalogue: Option<Catalogue>, fmt: (real, nat) -> string, showReal: real -> string): (r: Row)
    ensures r.controlId == res.controlId && r.metricKey == res.metricKey && r.value == fmt(res.actualValue, 4)
    ensures catalogue.None? ==> r.risk == RiskLabel(Info)
    ensures catalogue.Some? ==> r.risk == RiskLabel(RiskOf(res.metricKey, res.actualValue, res.threshold, res.operator))
  {
    match MetricInterpretation(res.metricKey, res.actualValue, res.threshold, res.operator, catalogue, fmt)
    case Ok(info) => Row(res.controlId, res.metricKey, fmt(res.actualValue, 4), info.interpretation, RiskLabel(info.risk))
    case Err(_) =>
      Row(res.controlId, res.metricKey, fmt(res.actualValue, 4),
          "Value: " + fmt(res.actualValue, 4) + " " + res.operator + " " + showReal(res.threshold), RiskLabel(Info))
  }

  /** The rendering `render_compliance_results` prints. */
  datatype Rendering = Rendering(emoji: string, passed: nat, total: nat, percent: real, policyName: string,
                                 rows: seq<Row>, recommendations: seq<string>)

  /** The control ids of the failed results, in order. */
  function FailedIds(results: seq<ComplianceResult>): (ids: seq<string>)
    ensures |ids| == |results| - PassedCount(results)
    ensures forall i :: 0 <= i < |results| && !results[i].passed ==> results[i].controlId in ids
  {
    if results == [] then []
    else
      var init := results[..|results| - 1];
      var last := results[|results| - 1];
      assert forall i :: 0 <= i < |init| ==> init[i] == results[i];
      FailedIds(init) + if last.passed then [] else [last.controlId]
  }

  /** `ys` holds `f` of each of `xs`, in order. */
  ghost predicate Each<T, U>(ys: seq<U>, xs: seq<T>, f: T -> U)
  {
    |ys| == |xs| && forall k :: 0 <= k < |xs| ==> ys[k] == f(xs[k])
  }

  lemma EachStep<T, U>(ys: seq<U>, xs: seq<T>, i: nat, f: T -> U)
    requires i < |xs| && Each(ys, xs[..i], f)
    ensures Each(ys + [f(xs[i])], xs[..i + 1], f)
  {
    assert forall k :: 0 <= k < i ==> xs[..i + 1][k] == xs[..i][k];
  }

  lemma FailedIdsStep(results: seq<ComplianceResult>, i: nat)
    requires i < |results|
    ensures FailedIds(results[..i + 1]) == FailedIds(results[..i]) + if results[i].passed then [] else [results[i].controlId]
  {
    assert results[..i + 1][..i] == results[..i];
  }

  /** `render_compliance_results(results, policy_name)` with rich output available. */
  method RenderComplianceResults(results: seq<ComplianceResult>, policyName: string, catalogue: Option<Catalogue>,
                                 fmt: (real, nat) -> string, showReal: real -> string)
    returns (out: Rendering)
    ensures out.passed == PassedCount(results) && out.total == |results|
    ensures out.emoji == StatusEmoji(results) && out.percent == CompliancePercent(results)
    ensures |out.rows| == |results|
    ensures forall i :: 0 <= i < |results| ==> out.rows[i] == RowOf(results[i], catalogue, fmt, showReal)
    ensures out.recommendations == FailedIds(results)
    ensures out.policyName == policyName
  {
    var rowOf := (res: ComplianceResult) => RowOf(res, catalogue, fmt, showReal);
    var rows: seq<Row> := [];
    var failed: seq<string> := [];
    var i := 0;
    while i < |results|
      invariant 0 <= i <= |results|
      invariant Each(rows, results[..i], rowOf)
      invariant failed == FailedIds(results[..i])
    {
      EachStep(rows, results, i, rowOf);
      rows := rows + [rowOf(results[i])];
      FailedIdsStep(results, i);
      if !results[i].passed {
        failed := failed + [results[i].controlId];
      }
      i := i + 1;
    }
    assert results[..i] == results;
    out := Rendering(StatusEmoji(results), PassedCount(results), |results|, CompliancePercent(results), policyName, rows, failed);
  }

  /** One entry of the plain rendering: the pass mark, the control, the interpretation, the risk. */
  datatype PlainEntry = PlainEntry(mark: string, controlId: string, interpretation: string, risk: string)

  /** `_render_plain`'s entry; its fallback risk is the bare circle. */
  function PlainEntryOf(res: ComplianceResult, catalogue: Option<Catalogue>, fmt: (real, nat) -> string,
                        showReal: real -> string): (e: PlainEntry)
    ensures e.mark == (if res.passed then "\U{2713}" else "\U{2717}") && e.controlId == res.controlId
    ensures catalogue.None? ==> e.risk == "\U{26AA}"
    ensures catalogue.Some? ==> e.risk == RiskLabel(RiskOf(res.metricKey, res.actualValue, res.threshold, res.operator))
  {
    var mark := if res.passed then "\U{2713}" else "\U{2717}";
    match MetricInterpretation(res.metricKey, res.actualValue, res.threshold, res.operator, catalogue, fmt)
    case Ok(info) => PlainEntry(mark, res.controlId, info.interpretation, RiskLabel(info.risk))
    case Err(_) =>
      PlainEntry(mark, res.controlId, fmt(res.actualValue, 4) + " " + res.operator + " " + showReal(res.threshold), "\U{26AA}")
  }

  /** `_render_plain(results, policy_name)`: the pass count and one entry per result. */
  method RenderPlain(results: seq<ComplianceResult>, catalogue: Option<Catalogue>, fmt: (real, nat) -> string,
                     showReal: real -> string)
    returns (passed: nat, total: nat, entries: seq<PlainEntry>)
    ensures passed == PassedCount(results) && total == |results|
    ensures |entries| == |results|
    ensures forall i :: 0 <= i < |results| ==> entries[i] == PlainEntryOf(results[i], catalogue, fmt, showReal)
  {
    var entryOf := (res: ComplianceResult) => PlainEntryOf(res, catalogue, fmt, showReal);
    passed, total := PassedCount(results), |results|;
    entries := [];
    for i := 0 to |results|
      invariant Each(entries, results[..i], entryOf)
    {
      EachStep(entries, results, i, entryOf);
      entries := entries + [entryOf(results[i])];
    }
    assert results[..|results|] == results;
  }

  /** `print_aha_moment(scenario, results)`: the closing message. */
  function AhaMessage(scenario: string, results: seq<ComplianceResult>, richAvailable: bool, show: nat -> string): (m: string)
    ensures !richAvailable ==> m == "\U{1F389} Aha! Moment: Scenario '" + scenario + "' completed!"
    ensures richAvailable && PassedCount(results) == |results| ==>
      m == "\U{1F389} Aha! Moment: All controls passed! Your model is compliant."
  {
    if !richAvailable then "\U{1F389} Aha! Moment: Scenario '" + scenario + "' completed!"
    else if PassedCount(results) == |results| then "\U{1F389} Aha! Moment: All controls passed! Your model is compliant."
    else "\U{26A0}\U{FE0F}  Compliance Check: " + show(PassedCount(results)) + "/" + show(|results|) + " controls passed."
  }

  /** The renderings agree: the header is all-passed exactly when nothing is recommended. */
  lemma HeaderMatchesRecommendations(results: seq<ComplianceResult>)
    ensures StatusEmoji(results) == "\U{2705}" <==> FailedIds(results) == []
    ensures CompliancePercent(results) == 100.0 <==> results != [] && FailedIds(results) == []
  {
  }
}
