/**
 * badges.py: the compliance badge (a status chosen from a status name or a
 * list of results, its colour and its text) and the metric badge (green
 * when the value is within its threshold). Rendering the SVG text and
 * writing the file are left out; a badge is the record of what it shows and
 * the path it is written to.
 */
module Badges {

  import opened Models

  /** The `status` argument: a status name, or a list of results. */
  datatype StatusArg = Named(name: string) | Results(results: seq<ComplianceResult>)

  /** The `output_path` argument: text, or a path already. */
  datatype PathArg = PathText(text: string) | PathValue(path: Path)

  datatype Path = Path(text: string)

  /** What a compliance badge shows and where it goes. */
  datatype Badge = Badge(path: Path, colour: string, statusText: string, policyName: string)

  /** What a metric badge shows and where it goes. */
  datatype MetricBadge = MetricBadge(path: Path, colour: string, mark: string, metricName: string, value: real)

  const Green := "#28a745"
  const Red := "#dc3545"
  const Gray := "#6c757d"

  /** A text path becomes a `Path`; a path is kept. */
  function ToPath(p: PathArg): (r: Path)
    ensures p.PathText? ==> r.text == p.text
    ensures p.PathValue? ==> r == p.path
  {
    match p
    case PathText(text) => Path(text)
    case PathValue(path) => path
  }

  /** An empty list is unknown; a list is passing when every result passed, else failing. */
  function FinalStatus(status: StatusArg): (r: string)
    ensures status.Named? ==> r == status.name
    ensures status.Results? ==>
      (r == "unknown" <==> status.results == []) &&
      (r == "passing" <==> status.results != [] && forall i :: 0 <= i < |status.results| ==> status.results[i].passed) &&
      (r == "failing" <==> exists i :: 0 <= i < |status.results| && !status.results[i].passed)
  {
    match status
    case Named(name) => name
    case Results(results) =>
      if results == [] then "unknown"
      else if forall i :: 0 <= i < |results| ==> results[i].passed then "passing"
      else "failing"
  }

  /** `colors.get(final_status, colors['unknown'])` */
  function Colour(status: string): (r: string)
    ensures r == Green <==> status == "passing"
    ensures r == Red <==> status == "failing"
    ensures r == Gray <==> status != "passing" && status != "failing"
  {
    if status == "passing" then Green
    else if status == "failing" then Red
    else Gray
  }

  function StatusText(status: string): (r: string)
    ensures r == "PASSING" <==> status == "passing"
    ensures r == "FAILING" <==> status == "failing"
    ensures r == "UNKNOWN" <==> status != "passing" && status != "failing"
  {
    if status == "passing" then "PASSING"
    else if status == "failing" then "FAILING"
    else "UNKNOWN"
  }

  /** `generate_compliance_badge(status, policy_name, date, output_path)` */
  function ComplianceBadge(status: StatusArg, policyName: string, outputPath: PathArg): (b: Badge)
    ensures b.path == ToPath(outputPath) && b.policyName == policyName
    ensures b.colour == Colour(FinalStatus(status)) && b.statusText == StatusText(FinalStatus(status))
  {
    var final := FinalStatus(status);
    Badge(ToPath(outputPath), Colour(final), StatusText(final), policyName)
  }

  /** The colour and the text always tell the same status. */
  lemma ColourMatchesText(status: StatusArg, policyName: string, outputPath: PathArg)
    ensures var b := ComplianceBadge(status, policyName, outputPath);
      && (b.colour == Green <==> b.statusText == "PASSING")
      && (b.colour == Red <==> b.statusText == "FAILING")
      && (b.colour == Gray <==> b.statusText == "UNKNOWN")
  {
  }

  /**
   * A badge for a list of results is green exactly when the list is not
   * empty and every result passed, red when one failed, and gray only for
   * the empty list.
   */
  lemma ResultsBadge(results: seq<ComplianceResult>, policyName: string, outputPath: PathArg)
    ensures var b := ComplianceBadge(Results(results), policyName, outputPath);
      && (b.colour == Green <==> results != [] && PassedCount(results) == |results|)
      && (b.colour == Red <==> PassedCount(results) < |results|)
      && (b.colour == Gray <==> results == [])
  {
    var final := FinalStatus(Results(results));
    if final == "failing" {
      var i :| 0 <= i < |results| && !results[i].passed;
    }
  }

  /** `generate_metric_badge(metric_name, value, threshold, output_path)`: at or below the threshold passes. */
  function MetricBadgeOf(metricName: string, value: real, threshold: real, outputPath: Path): (b: MetricBadge)
    ensures b.colour == Green <==> value <= threshold
    ensures b.colour == Red <==> value > threshold
    ensures (b.mark == "\U{2713}") == (b.colour == Green) && (b.mark == "\U{2717}") == (b.colour == Red)
    ensures b.path == outputPath && b.metricName == metricName && b.value == value
  {
    if value <= threshold then MetricBadge(outputPath, Green, "\U{2713}", metricName, value)
    else MetricBadge(outputPath, Red, "\U{2717}", metricName, value)
  }

  /** Lowering the value never turns a green metric badge red. */
  lemma MetricBadgeMonotone(metricName: string, v: real, w: real, threshold: real, outputPath: Path)
    requires v <= w
    ensures MetricBadgeOf(metricName, w, threshold, outputPath).colour == Green ==>
      MetricBadgeOf(metricName, v, threshold, outputPath).colour == Green
  {
  }
}
