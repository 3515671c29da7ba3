/**
 * assurance/fairness/multiclass.py: the public multi-class metrics take
 * either a data frame with the roles as keyword arguments, or the three
 * series positionally, and hand the three series to the implementations.
 */
module MulticlassDispatch {

  import opened Wrappers
  import opened Frames
  import opened Samples
  import opened Roles
  import Ordered
  import Models
  import MulticlassParity
  import MulticlassError
  import MulticlassPredictive
  import MulticlassReporting

  /** The first argument: a data frame, or the `y_true` series. */
  datatype Input = FrameInput(df: Frame) | SeriesInput(truths: seq<Cell>)

  /** The three series `_get_vitals` extracts. */
  datatype Vitals = Vitals(truths: seq<Cell>, preds: seq<Cell>, attrs: seq<Cell>)

  /** `not all([target, pred, dim]) or any(v in [None, "MISSING"] ...)` */
  predicate RolesMissing(kw: Kwargs)
  {
    exists role :: role in ["target", "prediction", "dimension"] && (Falsy(Arg(kw, role)) || Unset(Arg(kw, role)))
  }

  /**
   * `_get_vitals(df_or_series, *args, **kwargs)`: a frame needs the three
   * roles set (ValueError) and naming columns (pandas' KeyError on `df[c]`);
   * otherwise at least two further positional series are needed (TypeError).
   */
  function GetVitals(first: Input, args: seq<seq<Cell>>, kw: Kwargs): (r: Result<Vitals>)
    ensures r.Err? && first.FrameInput? ==> r.error.kind in {ValueError, KeyError}
    ensures r.Err? && first.SeriesInput? <==> |args| < 2 && first.SeriesInput?
    ensures r.Err? && first.SeriesInput? ==> r.error.kind == TypeError
    ensures r.Ok? && first.SeriesInput? ==> r.value == Vitals(first.truths, args[0], args[1])
    ensures first.FrameInput? ==> (r.Err? && r.error.kind == ValueError <==> RolesMissing(kw))
    ensures r.Ok? && first.FrameInput? ==>
      r.value == Vitals(Column(first.df, Arg(kw, "target").value), Column(first.df, Arg(kw, "prediction").value),
                        Column(first.df, Arg(kw, "dimension").value))
  {
    match first
    case FrameInput(df) =>
      if RolesMissing(kw) then Fail(ValueError, "Missing required roles: target, prediction, dimension")
      else
        var target, pred, dim := Arg(kw, "target").value, Arg(kw, "prediction").value, Arg(kw, "dimension").value;
        if !HasColumn(df, target) then Fail(KeyError, target)
        else if !HasColumn(df, pred) then Fail(KeyError, pred)
        else if !HasColumn(df, dim) then Fail(KeyError, dim)
        else Ok(Vitals(Column(df, target), Column(df, pred), Column(df, dim)))
    case SeriesInput(truths) =>
      if |args| < 2 then Fail(TypeError, "Expected either (df, **kwargs) or (y_true, y_pred, protected_attr)")
      else Ok(Vitals(truths, args[0], args[1]))
  }

  /** Positional series are taken to be aligned, as pandas aligns them on their index. */
  predicate SeriesAligned(first: Input, args: seq<seq<Cell>>)
  {
    first.SeriesInput? && |args| >= 2 ==> |args[0]| == |first.truths| && |args[1]| == |first.truths|
  }

  /** The samples of the extracted series. */
  function SamplesOf(first: Input, args: seq<seq<Cell>>, kw: Kwargs): (r: Result<seq<Sample>>)
    requires SeriesAligned(first, args)
    ensures r.Err? <==> GetVitals(first, args, kw).Err?
    ensures r.Ok? ==> Truths(r.value) == GetVitals(first, args, kw).value.truths
    ensures r.Ok? ==> Preds(r.value) == GetVitals(first, args, kw).value.preds
    ensures r.Ok? ==> Attrs(r.value) == GetVitals(first, args, kw).value.attrs
  {
    var v :- GetVitals(first, args, kw);
    ZipProjections(v.truths, v.preds, v.attrs);
    Ok(Zip(v.truths, v.preds, v.attrs))
  }

  /** The `strategy` keyword, defaulting to "macro". */
  function Strategy(kw: Kwargs): string
  {
    if Arg(kw, "strategy").Some? then Arg(kw, "strategy").value else "macro"
  }

  /** `calc_weighted_demographic_parity_multiclass(df_or_series, *args, **kwargs)` */
  function WeightedDemographicParity(first: Input, args: seq<seq<Cell>>, kw: Kwargs): (r: Result<real>)
    requires SeriesAligned(first, args)
    ensures GetVitals(first, args, kw).Err? ==> r == Err(GetVitals(first, args, kw).error)
    ensures SamplesOf(first, args, kw).Ok? ==> r == MulticlassParity.WdpSpec(SamplesOf(first, args, kw).value, Strategy(kw))
  {
    var s :- SamplesOf(first, args, kw);
    MulticlassParity.WdpSpec(s, Strategy(kw))
  }

  /** `calc_macro_equal_opportunity_multiclass(df_or_series, *args, **kwargs)` */
  function MacroEqualOpportunity(first: Input, args: seq<seq<Cell>>, kw: Kwargs): (r: Result<real>)
    requires SeriesAligned(first, args)
    ensures GetVitals(first, args, kw).Err? ==> r == Err(GetVitals(first, args, kw).error)
    ensures SamplesOf(first, args, kw).Ok? ==> r == MulticlassError.MacroSpec(SamplesOf(first, args, kw).value)
  {
    var s :- SamplesOf(first, args, kw);
    MulticlassError.MacroSpec(s)
  }

  /** `calc_micro_equalized_odds_multiclass(df_or_series, *args, **kwargs)` */
  function MicroEqualizedOdds(first: Input, args: seq<seq<Cell>>, kw: Kwargs): (r: Result<real>)
    requires SeriesAligned(first, args)
    ensures GetVitals(first, args, kw).Err? ==> r == Err(GetVitals(first, args, kw).error)
    ensures SamplesOf(first, args, kw).Ok? ==> r == MulticlassError.MicroSpec(SamplesOf(first, args, kw).value)
  {
    var s :- SamplesOf(first, args, kw);
    MulticlassError.MicroSpec(s)
  }

  /** `calc_predictive_parity_multiclass(df_or_series, *args, **kwargs)` */
  function PredictiveParity(first: Input, args: seq<seq<Cell>>, kw: Kwargs): (r: Result<(real, Models.Metadata)>)
    requires SeriesAligned(first, args)
    ensures GetVitals(first, args, kw).Err? ==> r == Err(GetVitals(first, args, kw).error)
    ensures SamplesOf(first, args, kw).Ok? ==> r == MulticlassPredictive.PredictiveSpec(SamplesOf(first, args, kw).value, Strategy(kw))
  {
    var s :- SamplesOf(first, args, kw);
    MulticlassPredictive.PredictiveSpec(s, Strategy(kw))
  }

  /**
   * `calc_multiclass_fairness_report(df_or_series, *args, **kwargs)`; the
   * optional intersectional attributes come as their own parameter, since
   * keyword arguments here carry text only.
   */
  function FairnessReport(first: Input, args: seq<seq<Cell>>, kw: Kwargs,
                          inter: Option<Ordered.Dict<string, seq<Cell>>>, show: Cell -> string): (r: Result<Models.Metadata>)
    requires SeriesAligned(first, args)
    requires SamplesOf(first, args, kw).Ok? ==> MulticlassReporting.InterAligned(SamplesOf(first, args, kw).value, inter)
    ensures GetVitals(first, args, kw).Err? ==> r == Err(GetVitals(first, args, kw).error)
    ensures SamplesOf(first, args, kw).Ok? ==> r == MulticlassReporting.Report(SamplesOf(first, args, kw).value, inter, show)
  {
    var s :- SamplesOf(first, args, kw);
    MulticlassReporting.Report(s, inter, show)
  }

  /** With a frame, a role left unset is refused before any column is read. */
  lemma FrameRolesRequired(df: Frame, args: seq<seq<Cell>>, kw: Kwargs, role: string)
    requires role in ["target", "prediction", "dimension"] && Unset(Arg(kw, role))
    ensures WeightedDemographicParity(FrameInput(df), args, kw) == Fail(ValueError, "Missing required roles: target, prediction, dimension")
    ensures MacroEqualOpportunity(FrameInput(df), args, kw) == Fail(ValueError, "Missing required roles: target, prediction, dimension")
  {
    assert RolesMissing(kw);
  }

  /**
   * The two call forms agree: a frame with its roles bound gives the metric
   * of the three columns passed positionally.
   */
  lemma CallFormsAgree(df: Frame, kw: Kwargs)
    requires !RolesMissing(kw)
    requires HasColumn(df, Arg(kw, "target").value) && HasColumn(df, Arg(kw, "prediction").value)
    requires HasColumn(df, Arg(kw, "dimension").value)
    ensures var args := [Column(df, Arg(kw, "prediction").value), Column(df, Arg(kw, "dimension").value)];
      var first := SeriesInput(Column(df, Arg(kw, "target").value));
      && WeightedDemographicParity(FrameInput(df), [], kw) == WeightedDemographicParity(first, args, kw)
      && MacroEqualOpportunity(FrameInput(df), [], kw) == MacroEqualOpportunity(first, args, kw)
      && MicroEqualizedOdds(FrameInput(df), [], kw) == MicroEqualizedOdds(first, args, kw)
      && PredictiveParity(FrameInput(df), [], kw) == PredictiveParity(first, args, kw)
  {
    var args := [Column(df, Arg(kw, "prediction").value), Column(df, Arg(kw, "dimension").value)];
    var first := SeriesInput(Column(df, Arg(kw, "target").value));
    assert GetVitals(FrameInput(df), [], kw) == GetVitals(first, args, kw);
  }
}
