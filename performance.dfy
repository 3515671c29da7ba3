/**
 * Classification scores behind the registry keys accuracy_score,
 * precision_score, recall_score and f1_score, and the generic mean. The
 * scores themselves come from scikit-learn, whose errors pass through
 * unchanged; what the SDK decides is when a score is not computed at all
 * and 0.0 is returned instead.
 */
module Performance {

  import opened Wrappers
  import opened Frames
  import opened Roles
  import opened Foreign

  /** The accuracy guard: a role absent, empty, None or "MISSING". */
  predicate AccuracyRefused(target: Option<string>, pred: Option<string>)
  {
    Falsy(target) || Falsy(pred) || Unset(target) || Unset(pred)
  }

  /** The guard of the other three scores: a role absent or empty, or equal to "MISSING". */
  predicate ScoreRefused(target: Option<string>, pred: Option<string>)
  {
    Falsy(target) || Falsy(pred) || target == Some(Missing) || pred == Some(Missing)
  }

  /** The two guards, written differently, refuse the same role pairs. */
  lemma GuardsAgree(target: Option<string>, pred: Option<string>)
    ensures AccuracyRefused(target, pred) <==> ScoreRefused(target, pred)
  {
  }

  /**
   * The common shape of the four scores: 0.0 when a role is refused or is
   * not a column of the frame, else the library score of the two columns.
   */
  function Score(df: Frame, kw: Kwargs, refused: bool, score: (Series, Series) -> Result<real>): Result<real>
  {
    var target := Arg(kw, "target");
    var pred := Arg(kw, "prediction");
    if refused || target.None? || pred.None? then Ok(0.0)
    else if target.value !in df.columns || pred.value !in df.columns then Ok(0.0)
    else score(Column(df, target.value), Column(df, pred.value))
  }

  function Accuracy(df: Frame, kw: Kwargs, ext: Externals): (r: Result<real>)
    ensures !BoundTo(Arg(kw, "target"), df.columns) || !BoundTo(Arg(kw, "prediction"), df.columns) ==> r == Ok(0.0)
    ensures BoundTo(Arg(kw, "target"), df.columns) && BoundTo(Arg(kw, "prediction"), df.columns) ==>
      r == ext.accuracy(Column(df, Arg(kw, "target").value), Column(df, Arg(kw, "prediction").value))
  {
    Score(df, kw, AccuracyRefused(Arg(kw, "target"), Arg(kw, "prediction")), ext.accuracy)
  }

  function Precision(df: Frame, kw: Kwargs, ext: Externals): (r: Result<real>)
    ensures !BoundTo(Arg(kw, "target"), df.columns) || !BoundTo(Arg(kw, "prediction"), df.columns) ==> r == Ok(0.0)
    ensures BoundTo(Arg(kw, "target"), df.columns) && BoundTo(Arg(kw, "prediction"), df.columns) ==>
      r == ext.precision(Column(df, Arg(kw, "target").value), Column(df, Arg(kw, "prediction").value))
  {
    Score(df, kw, ScoreRefused(Arg(kw, "target"), Arg(kw, "prediction")), ext.precision)
  }

  function Recall(df: Frame, kw: Kwargs, ext: Externals): (r: Result<real>)
    ensures !BoundTo(Arg(kw, "target"), df.columns) || !BoundTo(Arg(kw, "prediction"), df.columns) ==> r == Ok(0.0)
    ensures BoundTo(Arg(kw, "target"), df.columns) && BoundTo(Arg(kw, "prediction"), df.columns) ==>
      r == ext.recall(Column(df, Arg(kw, "target").value), Column(df, Arg(kw, "prediction").value))
  {
    Score(df, kw, ScoreRefused(Arg(kw, "target"), Arg(kw, "prediction")), ext.recall)
  }

  function F1(df: Frame, kw: Kwargs, ext: Externals): (r: Result<real>)
    ensures !BoundTo(Arg(kw, "target"), df.columns) || !BoundTo(Arg(kw, "prediction"), df.columns) ==> r == Ok(0.0)
    ensures BoundTo(Arg(kw, "target"), df.columns) && BoundTo(Arg(kw, "prediction"), df.columns) ==>
      r == ext.f1(Column(df, Arg(kw, "target").value), Column(df, Arg(kw, "prediction").value))
  {
    Score(df, kw, ScoreRefused(Arg(kw, "target"), Arg(kw, "prediction")), ext.f1)
  }

  /**
   * `calc_mean`: 0.0 when the target is not bound to a column, pandas'
   * TypeError when the column holds text, else the mean of its numbers.
   */
  function MeanScore(df: Frame, kw: Kwargs): (r: Result<real>)
    ensures !BoundTo(Arg(kw, "target"), df.columns) ==> r == Ok(0.0)
    ensures BoundTo(Arg(kw, "target"), df.columns) ==>
      var col := Column(df, Arg(kw, "target").value);
      && (r.Err? <==> HasText(col))
      && (r.Err? ==> r.error.kind == TypeError)
      && (r.Ok? ==> r.value == MeanOf(col))
  {
    var target := Arg(kw, "target");
    if Falsy(target) || target.value == Missing || target.value !in df.columns then Ok(0.0)
    else
      var col := Column(df, target.value);
      if HasText(col) then Fail(TypeError, "could not convert string to numeric")
      else Ok(MeanOf(col))
  }

  /** A bounded target column has a bounded mean. */
  lemma MeanScoreWithin(df: Frame, kw: Kwargs, lo: real, hi: real)
    requires lo <= 0.0 <= hi
    requires forall c :: c in df.columns ==> NumsWithin(Column(df, c), lo, hi)
    ensures MeanScore(df, kw).Ok? ==> lo <= MeanScore(df, kw).value <= hi
  {
    var target := Arg(kw, "target");
    if BoundTo(target, df.columns) {
      MeanOfWithin(Column(df, target.value), lo, hi);
    }
  }
}
