/** The policy records: controls, policies and evaluation results. */
module Models {

  import Ordered

  /** One governance control: a metric, a threshold and a comparison. */
  datatype InternalControl = InternalControl(
    id: string,
    description: string,
    severity: string,
    metricKey: string,
    threshold: real,
    operator: string,
    requiredVars: seq<string>,
    inputMapping: Ordered.Dict<string, string>)   // role -> variable name

  datatype InternalPolicy = InternalPolicy(title: string, controls: seq<InternalControl>)

  /** A JSON-like value carried in metric side information. */
  datatype Datum =
    | DNull
    | DNum(num: real)
    | DText(text: string)
    | DList(items: seq<Datum>)
    | DMap(entries: Ordered.Dict<string, Datum>)

  /** Metric side information attached to a result (from a `(value, metadata)` return). */
  type Metadata = Ordered.Dict<string, Datum>

  /** The outcome of evaluating one control. */
  datatype ComplianceResult = ComplianceResult(
    controlId: string,
    description: string,
    metricKey: string,
    threshold: real,
    actualValue: real,
    operator: string,
    passed: bool,
    severity: string,
    metadata: Metadata)

  /** A control built with the dataclass defaults for its two collection fields. */
  function NewControl(id: string, description: string, severity: string, metricKey: string,
                      threshold: real, operator: string): (c: InternalControl)
    ensures c.requiredVars == [] && c.inputMapping == []
    ensures c.id == id && c.metricKey == metricKey && c.threshold == threshold && c.operator == operator
    ensures c.description == description && c.severity == severity
  {
    InternalControl(id, description, severity, metricKey, threshold, operator, [], [])
  }

  /** A policy built with only a title has no controls. */
  function NewPolicy(title: string): (p: InternalPolicy)
    ensures p.controls == [] && p.title == title
  {
    InternalPolicy(title, [])
  }

  /** `sum(1 for r in results if r.passed)` */
  function PassedCount(results: seq<ComplianceResult>): (n: nat)
    ensures n <= |results|
    ensures n == |results| <==> forall i :: 0 <= i < |results| ==> results[i].passed
    ensures n == 0 <==> forall i :: 0 <= i < |results| ==> !results[i].passed
  {
    if results == [] then 0
    else
      var rest := PassedCount(results[..|results| - 1]);
      assert forall i :: 0 <= i < |results| - 1 ==> results[..|results| - 1][i] == results[i];
      rest + if results[|results| - 1].passed then 1 else 0
  }
}
