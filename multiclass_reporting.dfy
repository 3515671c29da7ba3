/**
 * assurance/fairness/multiclass_reporting.py: intersectional slices (rows
 * sharing one combination of attribute values, labelled "a x b x ...")
 * compared by a per-slice metric, and the multi-class fairness report that
 * gathers the four core metrics and, when asked, the intersectional result.
 */
module MulticlassReporting {

  import opened Wrappers
  import opened Counting
  import opened Frames
  import opened Samples
  import Ordered
  import Stats
  import Text
  import Models
  import MulticlassParity
  import MulticlassError
  import MulticlassPredictive

  // ---------------------------------------------------------------------
  // Slice labels
  // ---------------------------------------------------------------------

  /** Every attribute series is as long as the labels and predictions. */
  predicate AlignedTo(cols: seq<seq<Cell>>, n: nat)
  {
    forall j :: 0 <= j < |cols| ==> |cols[j]| == n
  }

  /** The rendered values of row `i`, one per attribute, in dictionary order. */
  function Parts(cols: seq<seq<Cell>>, i: nat, show: Cell -> string): (r: seq<string>)
    requires forall j :: 0 <= j < |cols| ==> i < |cols[j]|
    ensures |r| == |cols|
  {
    seq(|cols|, j requires 0 <= j < |cols| => show(cols[j][i]))
  }

  /** `combined_attr`: each row's rendered values joined with " x ". */
  function Labels(cols: seq<seq<Cell>>, n: nat, show: Cell -> string): (r: seq<string>)
    requires AlignedTo(cols, n)
    ensures |r| == n
    ensures forall i :: 0 <= i < n ==> r[i] == Text.Join(Parts(cols, i, show), " x ")
  {
    seq(n, i requires 0 <= i < n => Text.Join(Parts(cols, i, show), " x "))
  }

  /** The name loop: the first attribute's text, then `+= " x " + next` per attribute. */
  method CombinedLabels(cols: seq<seq<Cell>>, n: nat, show: Cell -> string) returns (labels: seq<string>)
    requires cols != [] && AlignedTo(cols, n)
    ensures labels == Labels(cols, n, show)
  {
    labels := seq(n, i requires 0 <= i < n => show(cols[0][i]));
    var k := 1;
    while k < |cols|
      invariant 1 <= k <= |cols|
      invariant |labels| == n
      invariant forall i :: 0 <= i < n ==> labels[i] == Text.Join(Parts(cols[..k], i, show), " x ")
    {
      forall i | 0 <= i < n
        ensures Parts(cols[..k + 1], i, show) == Parts(cols[..k], i, show) + [show(cols[k][i])]
      {
      }
      forall i | 0 <= i < n
        ensures Text.Join(Parts(cols[..k + 1], i, show), " x ") == labels[i] + " x " + show(cols[k][i])
      {
        Text.JoinSnoc(Parts(cols[..k], i, show), show(cols[k][i]), " x ");
      }
      labels := seq(n, i requires 0 <= i < n => labels[i] + " x " + show(cols[k][i]));
      k := k + 1;
    }
    assert cols[..k] == cols;
  }

  // ---------------------------------------------------------------------
  // Slices
  // ---------------------------------------------------------------------

  /** `y_true[mask], y_pred[mask]` for `mask = combined_attr == name`, as samples. */
  function Pick(s: seq<Sample>, labels: seq<string>, name: string): (r: seq<Sample>)
    requires |labels| == |s|
    ensures |r| == Count(labels, name)
  {
    if s == [] then []
    else
      var init := Pick(s[..|s| - 1], labels[..|labels| - 1], name);
      assert labels == labels[..|labels| - 1] + [labels[|labels| - 1]];
      CountAppend(labels[..|labels| - 1], labels[|labels| - 1], name);
      if labels[|labels| - 1] == name then init + [s[|s| - 1]] else init
  }

  /** A slice is measured only with at least 5 rows. */
  const MinSliceRows: nat := 5

  /** `slice_metrics`: for each distinct name in order, its metric when it has enough rows. */
  function Details(slices: seq<string>, s: seq<Sample>, labels: seq<string>, metric: seq<Sample> -> real): (r: Ordered.Dict<string, real>)
    requires |labels| == |s|
    ensures |r| <= |slices|
    ensures forall k :: Ordered.HasKey(r, k) <==> k in slices && Count(labels, k) >= MinSliceRows
  {
    if slices == [] then []
    else
      var init := Details(slices[..|slices| - 1], s, labels, metric);
      var name := slices[|slices| - 1];
      var rows := Pick(s, labels, name);
      var r := if |rows| >= MinSliceRows then init + [(name, metric(rows))] else init;
      assert forall k :: Ordered.HasKey(r, k) <==> Ordered.HasKey(init, k) || (|rows| >= MinSliceRows && k == name) by {
        assert Ordered.Keys(r) == if |rows| >= MinSliceRows then Ordered.Keys(init) + [name] else Ordered.Keys(init);
      }
      r
  }

  /** The first key whose value is `v`: `min`/`max` over a dict by value keep the first of ties. */
  function FirstKeyWith(d: Ordered.Dict<string, real>, v: real): (k: string)
    requires v in Ordered.Values(d)
    ensures exists i :: 0 <= i < |d| && d[i] == (k, v) && forall j :: 0 <= j < i ==> d[j].1 != v
  {
    if d[0].1 == v then d[0].0
    else
      assert Ordered.Values(d) == [d[0].1] + Ordered.Values(d[1..]);
      var k := FirstKeyWith(d[1..], v);
      assert exists i :: 0 <= i < |d[1..]| && d[1..][i] == (k, v) && forall j :: 0 <= j < i ==> d[1..][j].1 != v;
      k
  }

  datatype Intersectional =
    | NoSlices                                   // {"disparity": 0.0, "slices": {}}
    | Slices(disparity: real, worst: string, best: string, details: Ordered.Dict<string, real>)

  /** `(t == p).mean()`: the share of a slice's rows predicted right. */
  function DefaultMetric(rows: seq<Sample>): (r: real)
    ensures 0.0 <= r <= 1.0
  {
    Stats.Ratio(Correct(rows), |rows|)
  }

  /** The result over a filled `slice_metrics`. */
  function Summarise(d: Ordered.Dict<string, real>): Intersectional
  {
    if d == [] then NoSlices
    else
      var vals := Ordered.Values(d);
      Slices(Stats.Range(vals), FirstKeyWith(d, Stats.Min(vals)), FirstKeyWith(d, Stats.Max(vals)), d)
  }

  /**
   * `calc_intersectional_metrics(y_true, y_pred, protected_attrs, metric_fn)`:
   * the attribute series are the dictionary's values in order; an empty
   * dictionary has no first name to index (IndexError). `show` is `str()` of
   * one value.
   */
  function IntersectionalSpec(s: seq<Sample>, attrs: Ordered.Dict<string, seq<Cell>>,
                              metricFn: Option<seq<Sample> -> real>, show: Cell -> string): (r: Result<Intersectional>)
    requires AlignedTo(Ordered.Values(attrs), |s|)
    ensures r.Err? <==> attrs == []
    ensures r.Err? ==> r.error.kind == IndexError
  {
    if attrs == [] then Fail(IndexError, "list index out of range")
    else
      var metric := if metricFn.Some? then metricFn.value else DefaultMetric;
      var labels := Labels(Ordered.Values(attrs), |s|, show);
      Ok(Summarise(Details(Distinct(labels), s, labels, metric)))
  }

  /** The slice loop filling `slice_metrics`. */
  method SliceLoop(slices: seq<string>, s: seq<Sample>, labels: seq<string>, metric: seq<Sample> -> real)
    returns (d: Ordered.Dict<string, real>)
    requires |labels| == |s|
    ensures d == Details(slices, s, labels, metric)
  {
    d := [];
    var i := 0;
    while i < |slices|
      invariant 0 <= i <= |slices|
      invariant d == Details(slices[..i], s, labels, metric)
    {
      assert slices[..i + 1][..i] == slices[..i];
      var rows := Pick(s, labels, slices[i]);
      if |rows| >= MinSliceRows {
        d := d + [(slices[i], metric(rows))];
      }
      i := i + 1;
    }
    assert slices[..i] == slices;
  }

  method IntersectionalMetrics(s: seq<Sample>, attrs: Ordered.Dict<string, seq<Cell>>,
                               metricFn: Option<seq<Sample> -> real>, show: Cell -> string)
    returns (r: Result<Intersectional>)
    requires AlignedTo(Ordered.Values(attrs), |s|)
    ensures r == IntersectionalSpec(s, attrs, metricFn, show)
  {
    if attrs == [] {
      return Fail(IndexError, "list index out of range");
    }
    var metric := if metricFn.Some? then metricFn.value else DefaultMetric;
    var labels := CombinedLabels(Ordered.Values(attrs), |s|, show);
    var details := SliceLoop(Distinct(labels), s, labels, metric);
    return Ok(Summarise(details));
  }

  /** Exactly the labels with at least 5 rows are measured, each once. */
  lemma DetailsDistinct(slices: seq<string>, s: seq<Sample>, labels: seq<string>, metric: seq<Sample> -> real)
    requires |labels| == |s| && NoDuplicates(slices)
    ensures Ordered.Distinct(Details(slices, s, labels, metric))
    decreases |slices|
  {
    if slices != [] {
      var init := slices[..|slices| - 1];
      assert NoDuplicates(init);
      DetailsDistinct(init, s, labels, metric);
      assert slices[|slices| - 1] !in init;
    }
  }

  /** There is no slice to report exactly when no name has 5 rows. */
  lemma NoSlicesIff(s: seq<Sample>, attrs: Ordered.Dict<string, seq<Cell>>,
                    metricFn: Option<seq<Sample> -> real>, show: Cell -> string)
    requires AlignedTo(Ordered.Values(attrs), |s|) && attrs != []
    ensures IntersectionalSpec(s, attrs, metricFn, show) == Ok(NoSlices) <==>
      forall i :: 0 <= i < |s| ==> Count(Labels(Ordered.Values(attrs), |s|, show), Labels(Ordered.Values(attrs), |s|, show)[i]) < MinSliceRows
  {
    var labels := Labels(Ordered.Values(attrs), |s|, show);
    var metric := if metricFn.Some? then metricFn.value else DefaultMetric;
    var d := Details(Distinct(labels), s, labels, metric);
    if d != [] {
      assert Ordered.HasKey(d, d[0].0);
      var i :| 0 <= i < |labels| && labels[i] == d[0].0;
    } else {
      forall i | 0 <= i < |s|
        ensures Count(labels, labels[i]) < MinSliceRows
      {
        assert !Ordered.HasKey(d, labels[i]);
      }
    }
  }

  /**
   * The worst and best slices read back the smallest and largest metric, and
   * the disparity is their difference; every slice lies between them.
   */
  lemma SlicesExtremes(s: seq<Sample>, attrs: Ordered.Dict<string, seq<Cell>>,
                       metricFn: Option<seq<Sample> -> real>, show: Cell -> string)
    requires AlignedTo(Ordered.Values(attrs), |s|)
    requires IntersectionalSpec(s, attrs, metricFn, show).Ok?
    ensures var r := IntersectionalSpec(s, attrs, metricFn, show).value;
      r.Slices? ==>
      && Ordered.Get(r.details, r.worst).Some?
      && Ordered.Get(r.details, r.best).Some?
      && r.disparity == Ordered.Get(r.details, r.best).value - Ordered.Get(r.details, r.worst).value
      && forall i :: 0 <= i < |r.details| ==>
           Ordered.Get(r.details, r.worst).value <= r.details[i].1 <= Ordered.Get(r.details, r.best).value
  {
    var labels := Labels(Ordered.Values(attrs), |s|, show);
    var metric := if metricFn.Some? then metricFn.value else DefaultMetric;
    var d := Details(Distinct(labels), s, labels, metric);
    DetailsDistinct(Distinct(labels), s, labels, metric);
    SummariseExtremes(d);
  }

  lemma SummariseExtremes(d: Ordered.Dict<string, real>)
    requires Ordered.Distinct(d)
    ensures var r := Summarise(d);
      r.Slices? ==>
      && Ordered.Get(r.details, r.worst).Some?
      && Ordered.Get(r.details, r.best).Some?
      && r.disparity == Ordered.Get(r.details, r.best).value - Ordered.Get(r.details, r.worst).value
      && forall i :: 0 <= i < |r.details| ==>
           Ordered.Get(r.details, r.worst).value <= r.details[i].1 <= Ordered.Get(r.details, r.best).value
  {
    if d != [] {
      var vals := Ordered.Values(d);
      var r := Summarise(d);
      GetDistinct(d, r.worst, Stats.Min(vals));
      GetDistinct(d, r.best, Stats.Max(vals));
      assert forall i :: 0 <= i < |d| ==> vals[i] == d[i].1;
    }
  }

  /** In a dictionary without repeated keys, an entry is what its key reads. */
  lemma GetDistinct(d: Ordered.Dict<string, real>, k: string, v: real)
    requires Ordered.Distinct(d) && exists i :: 0 <= i < |d| && d[i] == (k, v)
    ensures Ordered.Get(d, k) == Some(v)
  {
    var i :| 0 <= i < |d| && d[i] == (k, v);
    assert Ordered.HasKey(d, k);
    var j :| 0 <= j < |d| && d[j] == (k, Ordered.Get(d, k).value);
    assert i == j;
  }

  /** With the default metric (accuracy) the disparity lies in `[0, 1]`. */
  lemma DefaultDisparityWithin(s: seq<Sample>, attrs: Ordered.Dict<string, seq<Cell>>, show: Cell -> string)
    requires AlignedTo(Ordered.Values(attrs), |s|)
    requires IntersectionalSpec(s, attrs, None, show).Ok?
    requires IntersectionalSpec(s, attrs, None, show).value.Slices?
    ensures 0.0 <= IntersectionalSpec(s, attrs, None, show).value.disparity <= 1.0
  {
    var r := IntersectionalSpec(s, attrs, None, show).value;
    var labels := Labels(Ordered.Values(attrs), |s|, show);
    DetailsWithin(Distinct(labels), s, labels);
    Stats.RangeWithin(Ordered.Values(r.details), 0.0, 1.0);
  }

  lemma {:induction false} DetailsWithin(slices: seq<string>, s: seq<Sample>, labels: seq<string>)
    requires |labels| == |s|
    ensures Stats.Within(Ordered.Values(Details(slices, s, labels, DefaultMetric)), 0.0, 1.0)
  {
    if slices != [] {
      DetailsWithin(slices[..|slices| - 1], s, labels);
    }
  }

  // ---------------------------------------------------------------------
  // The report
  // ---------------------------------------------------------------------

  /**
   * The four core metrics, in the source's order; the first failure propagates,
   * so the report fails exactly when one metric's validation refuses the data.
   */
  function CoreReport(s: seq<Sample>): (r: Result<Models.Metadata>)
    ensures r.Ok? ==> Ordered.Keys(r.value) == CoreKeys()
    ensures r.Err? <==> CoreRefused(s)
    ensures r.Err? ==> r.error.kind == ValueError
    ensures r.Ok? ==> CoreValues(s, r.value)
  {
    var wdp :- MulticlassParity.WdpSpec(s, "macro");
    var eo :- MulticlassError.MacroSpec(s);
    var odds :- MulticlassError.MicroSpec(s);
    var pp :- MulticlassPredictive.PredictiveSpec(s, "macro");
    Ok(CoreEntries(wdp, eo, odds, pp.0))
  }

  /** Some metric of the report refuses the data in its validation. */
  predicate CoreRefused(s: seq<Sample>)
  {
    MulticlassParity.CheckParity(s).Some? || MulticlassError.CheckMacro(s).Some? || MulticlassError.CheckMicro(s).Some?
  }

  /** The report holds the values of the four metrics, in order. */
  predicate CoreValues(s: seq<Sample>, v: Models.Metadata)
  {
    && MulticlassParity.WdpSpec(s, "macro").Ok? && MulticlassError.MacroSpec(s).Ok?
    && MulticlassError.MicroSpec(s).Ok? && MulticlassPredictive.PredictiveSpec(s, "macro").Ok?
    && v == CoreEntries(MulticlassParity.WdpSpec(s, "macro").value, MulticlassError.MacroSpec(s).value,
                        MulticlassError.MicroSpec(s).value, MulticlassPredictive.PredictiveSpec(s, "macro").value.0)
  }

  function CoreKeys(): seq<string>
  {
    ["weighted_demographic_parity_macro", "macro_equal_opportunity", "micro_equalized_odds", "predictive_parity_macro"]
  }

  function CoreEntries(wdp: real, eo: real, odds: real, pp: real): (r: Models.Metadata)
    ensures Ordered.Keys(r) == CoreKeys()
    ensures |r| == 4
    ensures r[0].1 == Models.DNum(wdp) && r[1].1 == Models.DNum(eo)
    ensures r[2].1 == Models.DNum(odds) && r[3].1 == Models.DNum(pp)
  {
    [("weighted_demographic_parity_macro", Models.DNum(wdp)),
     ("macro_equal_opportunity", Models.DNum(eo)),
     ("micro_equalized_odds", Models.DNum(odds)),
     ("predictive_parity_macro", Models.DNum(pp))]
  }

  /** The entries the intersectional result adds to the report. */
  function InterEntries(found: Intersectional): (r: Models.Metadata)
    ensures r != [] && r[0] == ("intersectional_disparity", Models.DNum(if found.Slices? then found.disparity else 0.0))
    ensures found.NoSlices? ==> |r| == 1
    ensures found.Slices? ==> |r| == 2 && r[1] == ("worst_performing_slice", Models.DText(found.worst))
  {
    match found
    case NoSlices => [("intersectional_disparity", Models.DNum(0.0))]
    case Slices(d, worst, _, _) =>
      [("intersectional_disparity", Models.DNum(d)), ("worst_performing_slice", Models.DText(worst))]
  }

  /** `if intersectional_attrs:` — given and not empty. */
  predicate Asked(inter: Option<Ordered.Dict<string, seq<Cell>>>)
  {
    inter.Some? && inter.value != []
  }

  predicate InterAligned(s: seq<Sample>, inter: Option<Ordered.Dict<string, seq<Cell>>>)
  {
    inter.Some? ==> AlignedTo(Ordered.Values(inter.value), |s|)
  }

  /** The report with the intersectional entries after its own. */
  function WithInter(base: Models.Metadata, found: Intersectional): (r: Models.Metadata)
    ensures |r| > |base|
    ensures Ordered.Keys(r)[..|base|] == Ordered.Keys(base)
    ensures Ordered.Keys(r)[|base|] == "intersectional_disparity"
    ensures r[..|base|] == base && r[|base|..] == InterEntries(found)
  {
    base + InterEntries(found)
  }

  /**
   * The entries after the four core ones: the intersectional disparity, 0.0
   * when no slice was measured, and then the worst slice when there is one.
   */
  predicate InterReported(v: Models.Metadata, found: Intersectional)
    requires |v| > 4
  {
    && v[4] == ("intersectional_disparity", Models.DNum(if found.Slices? then found.disparity else 0.0))
    && (found.NoSlices? ==> |v| == 5)
    && (found.Slices? ==> |v| == 6 && v[5] == ("worst_performing_slice", Models.DText(found.worst)))
  }

  lemma WithInterReported(base: Models.Metadata, found: Intersectional)
    requires |base| == 4
    ensures var r := WithInter(base, found); |r| > 4 && r[..4] == base && InterReported(r, found)
  {
    var r := WithInter(base, found);
    assert r[4..] == InterEntries(found);
  }

  /**
   * The report as written: with no slice of 5 rows the intersectional result
   * has no "intersectional_disparity" key and reading it raises KeyError.
   */
  function ReportAsWritten(s: seq<Sample>, inter: Option<Ordered.Dict<string, seq<Cell>>>, show: Cell -> string): (r: Result<Models.Metadata>)
    requires InterAligned(s, inter)
  {
    var base :- CoreReport(s);
    if !Asked(inter) then Ok(base)
    else
      var found :- IntersectionalSpec(s, inter.value, None, show);
      match found
      case NoSlices => Fail(KeyError, "intersectional_disparity")
      case Slices(d, worst, _, _) =>
        Ok(base + [("intersectional_disparity", Models.DNum(d)), ("worst_performing_slice", Models.DText(worst))])
  }

  /**
   * `calc_multiclass_fairness_report(y_true, y_pred, protected_attr, intersectional_attrs)`,
   * with no measurable slice reported as the 0.0 disparity the intersectional
   * result carries and no worst slice.
   */
  function Report(s: seq<Sample>, inter: Option<Ordered.Dict<string, seq<Cell>>>, show: Cell -> string): (r: Result<Models.Metadata>)
    requires InterAligned(s, inter)
    ensures r.Err? <==> CoreReport(s).Err?
    ensures r.Ok? && !Asked(inter) ==> Ordered.Keys(r.value) == CoreKeys()
    ensures r.Ok? && Asked(inter) ==> |r.value| > 4 && Ordered.Keys(r.value)[..4] == CoreKeys() && r.value[4].0 == "intersectional_disparity"
    ensures r.Ok? && !Asked(inter) ==> r.value == CoreReport(s).value
    ensures r.Ok? && Asked(inter) ==>
      && |r.value| > 4 && r.value[..4] == CoreReport(s).value
      && IntersectionalSpec(s, inter.value, None, show).Ok?
      && InterReported(r.value, IntersectionalSpec(s, inter.value, None, show).value)
  {
    var base :- CoreReport(s);
    if !Asked(inter) then Ok(base)
    else
      var found := IntersectionalSpec(s, inter.value, None, show);
      WithInterReported(base, found.value);
      Ok(WithInter(base, found.value))
  }

  method FairnessReport(s: seq<Sample>, inter: Option<Ordered.Dict<string, seq<Cell>>>, show: Cell -> string)
    returns (r: Result<Models.Metadata>)
    requires InterAligned(s, inter)
    ensures r == Report(s, inter, show)
  {
    var wdp :- MulticlassParity.WeightedDemographicParity(s, "macro");
    var eo :- MulticlassError.MacroEqualOpportunity(s);
    var odds :- MulticlassError.MicroEqualizedOdds(s);
    var pp :- MulticlassPredictive.PredictiveParity(s, "macro");
    var report := CoreEntries(wdp, eo, odds, pp.0);
    if Asked(inter) {
      var found := IntersectionalMetrics(s, inter.value, None, show);
      report := WithInter(report, found.value);
    }
    return Ok(report);
  }

  /** With measurable slices, the corrected report is the report as written. */
  lemma ReportAgrees(s: seq<Sample>, inter: Option<Ordered.Dict<string, seq<Cell>>>, show: Cell -> string)
    requires InterAligned(s, inter)
    requires !Asked(inter) || IntersectionalSpec(s, inter.value, None, show) != Ok(NoSlices)
    ensures ReportAsWritten(s, inter, show) == Report(s, inter, show)
  {
  }

  /**
   * The report as written fails with KeyError on intersectional attributes
   * whose every combination has fewer than 5 rows, where the corrected
   * report succeeds with a 0.0 disparity.
   */
  lemma ReportAsWrittenFails(s: seq<Sample>, inter: Option<Ordered.Dict<string, seq<Cell>>>, show: Cell -> string)
    requires InterAligned(s, inter) && Asked(inter) && CoreReport(s).Ok?
    requires var labels := Labels(Ordered.Values(inter.value), |s|, show);
      forall i :: 0 <= i < |s| ==> Count(labels, labels[i]) < MinSliceRows
    ensures ReportAsWritten(s, inter, show).Err? && ReportAsWritten(s, inter, show).error.kind == KeyError
    ensures Report(s, inter, show).Ok?
    ensures Ordered.Get(Report(s, inter, show).value, "intersectional_disparity") == Some(Models.DNum(0.0))
  {
    NoSlicesIff(s, inter.value, None, show);
    AsWrittenOnNoSlices(s, inter, show);
    CorrectedOnNoSlices(s, inter, show);
  }

  lemma AsWrittenOnNoSlices(s: seq<Sample>, inter: Option<Ordered.Dict<string, seq<Cell>>>, show: Cell -> string)
    requires InterAligned(s, inter) && Asked(inter) && CoreReport(s).Ok?
    requires IntersectionalSpec(s, inter.value, None, show) == Ok(NoSlices)
    ensures ReportAsWritten(s, inter, show) == Fail(KeyError, "intersectional_disparity")
  {
  }

  lemma CorrectedOnNoSlices(s: seq<Sample>, inter: Option<Ordered.Dict<string, seq<Cell>>>, show: Cell -> string)
    requires InterAligned(s, inter) && Asked(inter) && CoreReport(s).Ok?
    requires IntersectionalSpec(s, inter.value, None, show) == Ok(NoSlices)
    ensures Report(s, inter, show).Ok?
    ensures Ordered.Get(Report(s, inter, show).value, "intersectional_disparity") == Some(Models.DNum(0.0))
  {
    var r := Report(s, inter, show).value;
    assert r[..4] == CoreReport(s).value;
    assert |r| == 5;
    assert r[4].0 == "intersectional_disparity";
    assert r[4].1 == Models.DNum(0.0);
    DisparityAfterCore(r, CoreReport(s).value);
  }

  /** In a report of the four core entries and one more, the fifth entry is where its key is found. */
  lemma DisparityAfterCore(r: Models.Metadata, base: Models.Metadata)
    requires |r| == 5 && r[..4] == base && Ordered.Keys(base) == CoreKeys() && r[4].0 == "intersectional_disparity"
    ensures Ordered.Get(r, "intersectional_disparity") == Some(r[4].1)
  {
    assert r == base + [(r[4].0, r[4].1)];
    Ordered.GetAppend(base, r[4].0, r[4].1, "intersectional_disparity");
  }
}
