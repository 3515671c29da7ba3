/**
 * formatting.py: the console summary of a list of results. The printed
 * lines are modelled by what each carries (colours, padding and the number
 * format of the value are presentation); the threshold and the metadata
 * values are rendered by the given `showReal` and `showDatum`.
 */
module Formatting {

  import opened Models
  import Ordered
  import Text

  /** `op_map.get(op, op)` */
  function OperatorSymbol(op: string): (s: string)
    ensures op == "gt" ==> s == ">"
    ensures op == "lt" ==> s == "<"
    ensures op == "ge" ==> s == ">="
    ensures op == "le" ==> s == "<="
    ensures op == "eq" ==> s == "=="
    ensures op == "ne" ==> s == "!="
    ensures op !in ["gt", "lt", "ge", "le", "eq", "ne"] ==> s == op
  {
    var table := [("gt", ">"), ("lt", "<"), ("ge", ">="), ("le", "<="), ("eq", "=="), ("ne", "!=")];
    match Ordered.Get(table, op)
    case Some(symbol) => symbol
    case None =>
      assert op !in Ordered.Keys(table);
      op
  }

  /** A description over 35 characters keeps its first 35 and gains "...". */
  function ShortDescription(d: string): (r: string)
    ensures |r| <= 38
    ensures |d| <= 35 ==> r == d
    ensures |d| > 35 ==> |r| == 38 && r[..35] == d[..35] && r[35..] == "..."
  {
    if |d| > 35 then d[..35] + "..." else d
  }

  /** `control_id[:20]` */
  function ShortId(id: string): (r: string)
    ensures |r| <= 20 && Text.StartsWith(id, r)
    ensures |id| <= 20 ==> r == id
  {
    if |id| > 20 then id[..20] else id
  }

  /** `", ".join(f"{k}={v}" for k, v in metadata.items())` */
  function MetadataText(metadata: Metadata, showDatum: Datum -> string): string
  {
    Text.Join(Pairs(metadata, showDatum), ", ")
  }

  function Pairs(metadata: Metadata, showDatum: Datum -> string): (r: seq<string>)
    ensures |r| == |metadata|
    ensures forall i :: 0 <= i < |r| ==> r[i] == metadata[i].0 + "=" + showDatum(metadata[i].1)
  {
    seq(|metadata|, i requires 0 <= i < |metadata| => metadata[i].0 + "=" + showDatum(metadata[i].1))
  }

  /** The lines `print_summary` prints, by what they carry. */
  datatype Line =
    | Header
    | Rule
    | ResultLine(controlId: string, description: string, actualValue: real, limit: string, passed: bool)
    | Stability(text: string)
    | Summary(policyMet: bool, passedCount: nat, total: nat)

  /** The limit column: the operator's symbol, a space, the threshold. */
  function Limit(r: ComplianceResult, showReal: real -> string): string
  {
    OperatorSymbol(r.operator) + " " + showReal(r.threshold)
  }

  /** A result's own line: its id and description shortened, its value, its limit, its verdict. */
  function LineOf(r: ComplianceResult, showReal: real -> string): Line
  {
    ResultLine(ShortId(r.controlId), ShortDescription(r.description), r.actualValue, Limit(r, showReal), r.passed)
  }

  /** A result's line, followed by its stability line when it has metadata. */
  function ResultLines(r: ComplianceResult, showReal: real -> string, showDatum: Datum -> string): (lines: seq<Line>)
    ensures |lines| == if r.metadata == [] then 1 else 2
    ensures lines[0] == LineOf(r, showReal)
    ensures r.metadata != [] ==> lines[1] == Stability(MetadataText(r.metadata, showDatum))
  {
    [LineOf(r, showReal)] + if r.metadata == [] then [] else [Stability(MetadataText(r.metadata, showDatum))]
  }

  /** The result lines of every result, in order. */
  function Body(results: seq<ComplianceResult>, showReal: real -> string, showDatum: Datum -> string): seq<Line>
  {
    if results == [] then []
    else Body(results[..|results| - 1], showReal, showDatum) + ResultLines(results[|results| - 1], showReal, showDatum)
  }

  /** Everything `print_summary(results, is_data_only)` prints. */
  function SummaryLines(results: seq<ComplianceResult>, showReal: real -> string, showDatum: Datum -> string): seq<Line>
  {
    if results == [] then []
    else
      var passed := PassedCount(results);
      [Header, Rule] + Body(results, showReal, showDatum) + [Rule, Summary(passed == |results|, passed, |results|)]
  }

  /** `print_summary`: nothing for no results, else the header, the body and the verdict. */
  method PrintSummary(results: seq<ComplianceResult>, showReal: real -> string, showDatum: Datum -> string)
    returns (lines: seq<Line>)
    ensures lines == SummaryLines(results, showReal, showDatum)
  {
    if results == [] {
      return [];
    }
    var passed := PassedCount(results);
    var body := PrintResults(results, showReal, showDatum);
    lines := [Header, Rule] + body + [Rule, Summary(passed == |results|, passed, |results|)];
  }

  /** The loop over the results, printing each one's lines. */
  method PrintResults(results: seq<ComplianceResult>, showReal: real -> string, showDatum: Datum -> string)
    returns (lines: seq<Line>)
    ensures lines == Body(results, showReal, showDatum)
  {
    lines := [];
    var i := 0;
    while i < |results|
      invariant 0 <= i <= |results|
      invariant lines == Body(results[..i], showReal, showDatum)
    {
      var r := results[i];
      BodyStep(results, i, showReal, showDatum);
      ghost var before := lines;
      lines := lines + [LineOf(r, showReal)];
      if r.metadata != [] {
        lines := lines + [Stability(MetadataText(r.metadata, showDatum))];
        assert lines == before + ResultLines(r, showReal, showDatum);
      } else {
        assert lines == before + ResultLines(r, showReal, showDatum);
      }
      i := i + 1;
    }
    assert results[..i] == results;
  }

  lemma BodyStep(results: seq<ComplianceResult>, i: nat, showReal: real -> string, showDatum: Datum -> string)
    requires i < |results|
    ensures Body(results[..i + 1], showReal, showDatum) == Body(results[..i], showReal, showDatum) + ResultLines(results[i], showReal, showDatum)
  {
    assert results[..i + 1][..i] == results[..i];
  }

  /** The body holds one line per result and one more per result with metadata. */
  lemma {:induction false} BodyLength(results: seq<ComplianceResult>, showReal: real -> string, showDatum: Datum -> string)
    ensures |Body(results, showReal, showDatum)| == |results| + |WithMetadata(results)|
  {
    if results != [] {
      BodyLength(results[..|results| - 1], showReal, showDatum);
    }
  }

  /** The result lines of the body are the results' own lines, in order. */
  lemma {:induction false} BodyResultLines(results: seq<ComplianceResult>, showReal: real -> string, showDatum: Datum -> string)
    ensures |ResultLinesOf(Body(results, showReal, showDatum))| == |results|
    ensures forall i :: 0 <= i < |results| ==> ResultLinesOf(Body(results, showReal, showDatum))[i] == LineOf(results[i], showReal)
  {
    if results != [] {
      var init := results[..|results| - 1];
      var last := results[|results| - 1];
      BodyResultLines(init, showReal, showDatum);
      ResultLinesAppend(Body(init, showReal, showDatum), ResultLines(last, showReal, showDatum));
      OwnResultLine(last, showReal, showDatum);
      var before := ResultLinesOf(Body(init, showReal, showDatum));
      var all := ResultLinesOf(Body(results, showReal, showDatum));
      assert all == before + [LineOf(last, showReal)];
      forall i | 0 <= i < |results|
        ensures all[i] == LineOf(results[i], showReal)
      {
        if i < |init| {
          assert all[i] == before[i] && init[i] == results[i];
        } else {
          assert i == |before| && results[i] == last;
        }
      }
    }
  }

  lemma OwnResultLine(r: ComplianceResult, showReal: real -> string, showDatum: Datum -> string)
    ensures ResultLinesOf(ResultLines(r, showReal, showDatum)) == [LineOf(r, showReal)]
  {
    var lines := ResultLines(r, showReal, showDatum);
    if r.metadata == [] {
      assert lines[..0] == [];
    } else {
      assert lines[..1] == [LineOf(r, showReal)];
      assert lines[..1][..0] == [];
      assert ResultLinesOf(lines) == ResultLinesOf(lines[..1]);
      assert ResultLinesOf(lines[..1]) == [LineOf(r, showReal)];
    }
  }

  /** The results that carry metadata. */
  function WithMetadata(results: seq<ComplianceResult>): seq<ComplianceResult>
  {
    if results == [] then []
    else
      var last := results[|results| - 1];
      WithMetadata(results[..|results| - 1]) + if last.metadata == [] then [] else [last]
  }

  /** The result lines among some lines. */
  function ResultLinesOf(lines: seq<Line>): seq<Line>
  {
    if lines == [] then []
    else
      var last := lines[|lines| - 1];
      ResultLinesOf(lines[..|lines| - 1]) + if last.ResultLine? then [last] else []
  }

  lemma {:induction false} ResultLinesAppend(a: seq<Line>, b: seq<Line>)
    ensures ResultLinesOf(a + b) == ResultLinesOf(a) + ResultLinesOf(b)
    decreases |b|
  {
    if b != [] {
      assert (a + b)[..|a + b| - 1] == a + b[..|b| - 1];
      ResultLinesAppend(a, b[..|b| - 1]);
    } else {
      assert a + b == a;
    }
  }

  /**
   * A non-empty summary: the verdict is "POLICY MET" exactly when every
   * result passed, the count shows passed out of total, and every result
   * has its line.
   */
  lemma SummaryShape(results: seq<ComplianceResult>, showReal: real -> string, showDatum: Datum -> string)
    requires results != []
    ensures var lines := SummaryLines(results, showReal, showDatum);
      && |lines| == |results| + |WithMetadata(results)| + 4
      && lines[..2] == [Header, Rule] && lines[|lines| - 2] == Rule
      && lines[|lines| - 1].Summary?
      && (lines[|lines| - 1].policyMet <==> forall i :: 0 <= i < |results| ==> results[i].passed)
      && lines[|lines| - 1].passedCount <= lines[|lines| - 1].total == |results|
  {
    BodyLength(results, showReal, showDatum);
  }
}
