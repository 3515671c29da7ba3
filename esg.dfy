/**
 * The ESG reporting metrics of assurance/quality/esg_metrics.py: balance of
 * the classification labels, coverage of distinct reports, completeness of
 * the provenance fields, and the diversity of chunks and of subtitles per
 * report.
 */
module EsgMetrics {

  import opened Wrappers
  import opened Counting
  import opened Frames
  import opened Roles
  import opened Text
  import Ordered
  import Stats
  import DataMetrics
  import QualityMetrics

  // ---------------------------------------------------------------- classification distribution

  /** `v / total * 100` of the present values, before rounding. */
  function Percent(cells: seq<Cell>, v: Cell): (r: real)
    ensures 0.0 <= r <= 100.0
  {
    100.0 * Share(cells, v)
  }

  function PercentFn(cells: seq<Cell>): Cell -> real
  {
    v => Percent(cells, v)
  }

  /** `calc_classification_distribution`: the balance score and the percentage of each present class. */
  function ClassificationDistribution(df: Frame, kw: Kwargs): (r: Result<(real, Ordered.Dict<Cell, real>)>)
    ensures r.Err? <==> QualityMetrics.TargetColumn(df, kw, "calc_classification_distribution").Err?
    ensures r.Err? ==> r.error.kind == ValueError
    ensures r.Ok? ==> Ordered.Keys(r.value.1) == GroupValues(df, QualityMetrics.Target(kw).value)
    ensures r.Ok? && r.value.1 == [] ==> r.value.0 == 0.0
    ensures r.Ok? && |r.value.1| == 1 ==> r.value.0 == 0.0
    ensures r.Ok? && |r.value.1| >= 2 ==> 0.0 < r.value.0 <= 1.0
  {
    var target :- QualityMetrics.TargetColumn(df, kw, "calc_classification_distribution");
    var col := Column(df, target);
    var counts := ValueCounts(col);
    if counts == [] then Ok((0.0, []))
    else
      var percentages := Ordered.Tabulate(Values(col), PercentFn(col));
      if |counts| == 1 then Ok((0.0, percentages))
      else Ok((DataMetrics.CountRatio(counts), percentages))
  }

  /** The balance score is the class imbalance of the same target. */
  lemma DistributionScoreIsImbalance(df: Frame, kw: Kwargs)
    ensures ClassificationDistribution(df, kw).Ok? <==> QualityMetrics.ClassImbalance(df, kw).Ok?
    ensures ClassificationDistribution(df, kw).Ok? ==>
      ClassificationDistribution(df, kw).value.0 == QualityMetrics.ClassImbalance(df, kw).value
  {
  }

  /** The class percentages add up to 100 whenever a class is present. */
  lemma PercentagesSumToHundred(df: Frame, kw: Kwargs)
    requires ClassificationDistribution(df, kw).Ok? && ClassificationDistribution(df, kw).value.1 != []
    ensures Stats.Sum(Ordered.Values(ClassificationDistribution(df, kw).value.1)) == 100.0
  {
    var col := Column(df, QualityMetrics.Target(kw).value);
    PercentSum(Values(col), col);
    SharesSumToOne(col);
  }

  lemma {:induction false} PercentSum(vs: seq<Cell>, cells: seq<Cell>)
    ensures Stats.Sum(Ordered.Values(Ordered.Tabulate(vs, PercentFn(cells)))) == 100.0 * ShareSum(vs, cells)
  {
    if vs != [] {
      var init, last := vs[..|vs| - 1], vs[|vs| - 1];
      PercentSum(init, cells);
      var ps := Ordered.Values(Ordered.Tabulate(vs, PercentFn(cells)));
      var ps' := Ordered.Values(Ordered.Tabulate(init, PercentFn(cells)));
      assert ps == ps' + [Percent(cells, last)];
      Stats.SumAppend(ps', Percent(cells, last));
    }
  }

  // ---------------------------------------------------------------- report coverage

  /** `calc_report_coverage`: distinct present reports over the number of rows, 0.0 for no rows. */
  function ReportCoverage(df: Frame, kw: Kwargs): (r: Result<real>)
    ensures r.Err? <==> QualityMetrics.TargetColumn(df, kw, "calc_report_coverage").Err?
    ensures r.Err? ==> r.error.kind == ValueError
    ensures r.Ok? ==> 0.0 <= r.value <= 1.0
    ensures r.Ok? ==> (r.value == 0.0 <==> GroupValues(df, QualityMetrics.Target(kw).value) == [])
    ensures r.Ok? && df.rows != [] ==>
      r.value == |GroupValues(df, QualityMetrics.Target(kw).value)| as real / |df.rows| as real
  {
    var target :- QualityMetrics.TargetColumn(df, kw, "calc_report_coverage");
    var col := Column(df, target);
    var unique := |Values(col)|;
    if |df.rows| == 0 then Ok(0.0)
    else
      assert unique <= |Filter(col, Present)| <= |col| by {
        DistinctCountsSum(Filter(col, Present));
        SumCountsBound(Values(col), Filter(col, Present));
      }
      Ok(Stats.Ratio(unique, |df.rows|))
  }

  /** Every row naming a different report gives full coverage. */
  lemma DistinctReportsCovered(df: Frame, kw: Kwargs)
    requires ReportCoverage(df, kw).Ok? && df.rows != []
    requires |GroupValues(df, QualityMetrics.Target(kw).value)| == |df.rows|
    ensures ReportCoverage(df, kw).value == 1.0
  {
    Stats.RatioWhole(|df.rows|);
  }

  // ---------------------------------------------------------------- provenance completeness

  const DefaultFields: seq<string> := ["page_number", "chunk_number"]

  /**
   * The provenance fields: `input:fields` read as a list literal (the
   * reader is given), or taken as a single field when it is not one; the
   * defaults when absent or empty.
   */
  function Fields(kw: Kwargs, literal: string -> Option<seq<string>>): (r: seq<string>)
    ensures r != []
    ensures Arg(kw, "input:fields").None? ==> r == DefaultFields
    ensures Arg(kw, "input:fields").Some? && literal(Arg(kw, "input:fields").value).None? ==>
      r == [Arg(kw, "input:fields").value]
  {
    var given := match Arg(kw, "input:fields")
      case None => DefaultFields
      case Some(s) => if literal(s).Some? then literal(s).value else [s];
    if given == [] then DefaultFields else given
  }

  /** A row carries every field. */
  predicate Traceable(row: Row, fields: seq<string>)
  {
    forall f :: f in fields ==> At(row, f) != Null
  }

  function TraceableFn(fields: seq<string>): Row -> bool
  {
    row => Traceable(row, fields)
  }

  /** `calc_provenance_completeness`: 0.0 when a field is not a column, else the share of traceable rows. */
  function ProvenanceCompleteness(df: Frame, kw: Kwargs, literal: string -> Option<seq<string>>): (r: real)
    ensures 0.0 <= r <= 1.0
    ensures !AllColumns(df, Fields(kw, literal)) ==> r == 0.0
    ensures df.rows != [] && AllColumns(df, Fields(kw, literal)) ==>
      r == |Filter(df.rows, TraceableFn(Fields(kw, literal)))| as real / |df.rows| as real
  {
    var fields := Fields(kw, literal);
    if !AllColumns(df, fields) then 0.0
    else Stats.Ratio(|Filter(df.rows, TraceableFn(fields))|, |df.rows|)
  }

  /** When every row carries every field, provenance is complete. */
  lemma FullyTraceable(df: Frame, kw: Kwargs, literal: string -> Option<seq<string>>)
    requires df.rows != [] && AllColumns(df, Fields(kw, literal))
    requires forall i :: 0 <= i < |df.rows| ==> Traceable(df.rows[i], Fields(kw, literal))
    ensures ProvenanceCompleteness(df, kw, literal) == 1.0
  {
    var keep := TraceableFn(Fields(kw, literal));
    KeepAll(df.rows, keep);
    Stats.RatioWhole(|df.rows|);
  }

  lemma {:induction false} KeepAll<T(!new)>(xs: seq<T>, keep: T -> bool)
    requires forall i :: 0 <= i < |xs| ==> keep(xs[i])
    ensures Filter(xs, keep) == xs
  {
    if xs != [] {
      KeepAll(xs[..|xs| - 1], keep);
      assert xs[..|xs| - 1] + [xs[|xs| - 1]] == xs;
    }
  }

  // ---------------------------------------------------------------- chunk and subtitle diversity

  /** The report and section columns, or the ValueError for a missing role or column. */
  function ReportColumns(df: Frame, kw: Kwargs): (r: Result<(string, string)>)
    ensures r.Ok? <==> (!Falsy(QualityMetrics.Target(kw)) && !Falsy(QualityMetrics.Dimension(kw)) &&
                        QualityMetrics.Target(kw).value in df.columns && QualityMetrics.Dimension(kw).value in df.columns)
    ensures r.Ok? ==> r.value == (QualityMetrics.Target(kw).value, QualityMetrics.Dimension(kw).value)
    ensures r.Err? ==> r.error.kind == ValueError
  {
    var target, dim := QualityMetrics.Target(kw), QualityMetrics.Dimension(kw);
    if Falsy(target) || Falsy(dim) then Fail(ValueError, "Missing required roles: 'target' and 'dimension'")
    else if dim.value !in df.columns || target.value !in df.columns then Fail(ValueError, "Columns not found")
    else Ok((target.value, dim.value))
  }

  /** `nunique` of `dim` within the report `g`. */
  function ChunkCount(df: Frame, target: string, dim: string, g: Cell): (r: nat)
    ensures r <= |WhereEq(df, target, g).rows|
  {
    var cells := Column(WhereEq(df, target, g), dim);
    DistinctCountsSum(Filter(cells, Present));
    SumCountsBound(Values(cells), Filter(cells, Present));
    |Values(cells)|
  }

  function ChunkCountFn(df: Frame, target: string, dim: string): Cell -> nat
  {
    g => ChunkCount(df, target, dim, g)
  }

  function AsReals(xs: seq<nat>): (r: seq<real>)
    ensures |r| == |xs| && forall i :: 0 <= i < |xs| ==> r[i] == xs[i] as real
  {
    seq(|xs|, i requires 0 <= i < |xs| => xs[i] as real)
  }

  /** `calc_chunk_diversity`: the mean number of distinct chunks per report, and the count of each report. */
  function ChunkDiversity(df: Frame, kw: Kwargs): (r: Result<(real, Ordered.Dict<Cell, nat>)>)
    ensures r.Err? <==> ReportColumns(df, kw).Err?
    ensures r.Err? ==> r.error.kind == ValueError
    ensures r.Ok? ==> Ordered.Keys(r.value.1) == GroupValues(df, QualityMetrics.Target(kw).value)
    ensures r.Ok? ==> forall i :: 0 <= i < |r.value.1| ==>
      r.value.1[i].1 <= |WhereEq(df, QualityMetrics.Target(kw).value, r.value.1[i].0).rows|
    ensures r.Ok? ==> r.value.0 == Stats.Mean(AsReals(Ordered.Values(r.value.1)))
  {
    var (target, dim) :- ReportColumns(df, kw);
    var counts := Ordered.Tabulate(GroupValues(df, target), ChunkCountFn(df, target, dim));
    Ok((Stats.Mean(AsReals(Ordered.Values(counts))), counts))
  }

  /** The mean chunk count lies between zero and the number of rows. */
  lemma ChunkDiversityWithin(df: Frame, kw: Kwargs)
    requires ChunkDiversity(df, kw).Ok?
    ensures 0.0 <= ChunkDiversity(df, kw).value.0 <= |df.rows| as real
  {
    var (target, dim) := ReportColumns(df, kw).value;
    var counts := ChunkDiversity(df, kw).value.1;
    var xs := AsReals(Ordered.Values(counts));
    if xs != [] {
      forall i | 0 <= i < |xs| ensures 0.0 <= xs[i] <= |df.rows| as real {
        WhereEqSize(df, target, counts[i].0);
      }
      Stats.MeanWithin(xs, 0.0, |df.rows| as real);
    }
  }

  /** Unique subtitles over ten, capped at one: 0 when no report names one, positive when one does. */
  function SubtitleScore(counts: seq<nat>): (r: real)
    ensures 0.0 <= r <= 1.0
    ensures (forall k :: 0 <= k < |counts| ==> counts[k] == 0) ==> r == 0.0
    ensures (exists k :: 0 <= k < |counts| && counts[k] > 0) ==> r > 0.0
  {
    var xs := AsReals(counts);
    var avg := Stats.Mean(xs);
    Stats.SumNonNegative(xs);
    ZeroOrPositive(xs);
    if avg / 10.0 < 1.0 then avg / 10.0 else 1.0
  }

  lemma ZeroOrPositive(xs: seq<real>)
    requires forall k :: 0 <= k < |xs| ==> xs[k] >= 0.0
    ensures (forall k :: 0 <= k < |xs| ==> xs[k] == 0.0) ==> Stats.Mean(xs) == 0.0
    ensures (exists k :: 0 <= k < |xs| && xs[k] >= 1.0) ==> Stats.Mean(xs) > 0.0
  {
    if k :| 0 <= k < |xs| && xs[k] >= 1.0 {
      MeanPositive(xs, k);
    } else if forall k :: 0 <= k < |xs| ==> xs[k] == 0.0 {
      Stats.SumWithin(xs, 0.0, 0.0);
    }
  }

  /**
   * `calc_subtitle_diversity` as written: `group[dim]` is a column, never a
   * list nor a text, so every report counts 0 unique subtitles.
   */
  function SubtitleDiversityAsWritten(df: Frame, kw: Kwargs): (r: Result<real>)
    ensures r.Err? <==> ReportColumns(df, kw).Err?
    ensures r.Ok? ==> r.value == 0.0
  {
    var (target, _) :- ReportColumns(df, kw);
    var counts: seq<nat> := seq(|GroupValues(df, target)|, i => 0);
    Ok(SubtitleScore(counts))
  }

  /** The distinct stripped, non-empty subtitles named in a report's text cells. */
  function Subtitles(cells: seq<Cell>): (r: seq<string>)
    ensures NoDuplicates(r)
    ensures forall i :: 0 <= i < |cells| && cells[i].Str? ==> forall p :: p in CommaParts(cells[i].s) ==> p in r
  {
    Distinct(AllParts(cells))
  }

  function AllParts(cells: seq<Cell>): (r: seq<string>)
    ensures forall i :: 0 <= i < |cells| && cells[i].Str? ==> forall p :: p in CommaParts(cells[i].s) ==> p in r
  {
    if cells == [] then []
    else
      var init := AllParts(cells[..|cells| - 1]);
      var last := cells[|cells| - 1];
      assert forall i :: 0 <= i < |cells| - 1 ==> cells[i] == cells[..|cells| - 1][i];
      match last
      case Str(s) => init + CommaParts(s)
      case _ => init
  }

  function SubtitleCountFn(df: Frame, target: string, dim: string): Cell -> nat
  {
    g => |Subtitles(Column(WhereEq(df, target, g), dim))|
  }

  /** `calc_subtitle_diversity` as evidently intended: each report's distinct subtitles counted. */
  function SubtitleDiversity(df: Frame, kw: Kwargs): (r: Result<real>)
    ensures r.Err? <==> ReportColumns(df, kw).Err?
    ensures r.Err? ==> r.error.kind == ValueError
    ensures r.Ok? ==> 0.0 <= r.value <= 1.0
  {
    var (target, dim) :- ReportColumns(df, kw);
    var counts := Ordered.Tabulate(GroupValues(df, target), SubtitleCountFn(df, target, dim));
    Ok(SubtitleScore(Ordered.Values(counts)))
  }

  /**
   * One report naming a subtitle is enough for the intended score to be
   * positive, while the score as written stays 0.
   */
  lemma SubtitleDiversityDiffers(df: Frame, kw: Kwargs, i: nat, j: nat)
    requires ReportColumns(df, kw).Ok?
    requires var (target, dim) := ReportColumns(df, kw).value;
      i < |GroupValues(df, target)| &&
      var cells := Column(WhereEq(df, target, GroupValues(df, target)[i]), dim);
      j < |cells| && cells[j].Str? && CommaParts(cells[j].s) != []
    ensures SubtitleDiversity(df, kw).value > 0.0
    ensures SubtitleDiversityAsWritten(df, kw).value == 0.0
  {
    var (target, dim) := ReportColumns(df, kw).value;
    var groups := GroupValues(df, target);
    var counts := Ordered.Values(Ordered.Tabulate(groups, SubtitleCountFn(df, target, dim)));
    var cells := Column(WhereEq(df, target, groups[i]), dim);
    var p := CommaParts(cells[j].s)[0];
    assert p in Subtitles(cells);
    assert counts[i] > 0;
  }

  lemma MeanPositive(xs: seq<real>, i: nat)
    requires i < |xs| && xs[i] >= 1.0 && forall k :: 0 <= k < |xs| ==> xs[k] >= 0.0
    ensures Stats.Mean(xs) > 0.0
  {
    SumAtLeast(xs, i);
  }

  lemma {:induction false} SumAtLeast(xs: seq<real>, i: nat)
    requires i < |xs| && forall k :: 0 <= k < |xs| ==> xs[k] >= 0.0
    ensures Stats.Sum(xs) >= xs[i]
  {
    var init := xs[..|xs| - 1];
    if i < |xs| - 1 {
      SumAtLeast(init, i);
      assert init[i] == xs[i];
    } else {
      Stats.SumNonNegative(init);
    }
  }
}
