/**
 * metrics/causal.py: the causal path decomposition of the gap in an outcome
 * between every pair of protected groups into a direct and an indirect
 * (mediated) part, counterfactual fairness for a binary protected
 * attribute, and the diagnostic that gathers them under a verdict.
 * Correlations are the given `corr` of the numerical library; number
 * formatting is the given `fmt`, and rendering a group value is `show`.
 */
module Causal {

  import opened Wrappers
  import opened Counting
  import opened Frames
  import Ordered
  import Stats
  import Text
  import Loops
  import Foreign

  datatype CausalEffect = CausalEffect(total: real, direct: real, indirect: real, proportionMediated: real)

  // ---------------------------------------------------------------------
  // One comparison
  // ---------------------------------------------------------------------

  /** `df[df[protected_attr] == g][col].mean()` */
  function GroupMean(df: Frame, protectedAttr: string, g: Cell, col: string): real
  {
    MeanOf(Column(WhereEq(df, protectedAttr, g), col))
  }

  /** One mediator's path: `abs(mediator_diff * mediator_effect)`. */
  function PathTerm(diff: real, effect: real): (r: real)
    ensures r >= 0.0
  {
    Stats.Abs(diff * effect)
  }

  /** The path of mediator `med` between groups `a` and `b`. */
  function MediatorPath(df: Frame, protectedAttr: string, outcome: string, corr: (Foreign.Series, Foreign.Series) -> real,
                        a: Cell, b: Cell, med: string): (r: real)
    ensures r >= 0.0
  {
    PathTerm(GroupMean(df, protectedAttr, b, med) - GroupMean(df, protectedAttr, a, med),
             corr(Column(df, outcome), Column(df, med)))
  }

  function MediatorPathFn(df: Frame, protectedAttr: string, outcome: string, corr: (Foreign.Series, Foreign.Series) -> real,
                          a: Cell, b: Cell): string -> real
  {
    med => MediatorPath(df, protectedAttr, outcome, corr, a, b, med)
  }

  /**
   * The effect record from the total effect and the mediated paths: with
   * mediators the direct effect is what the paths leave of the total (never
   * below 0); without, all of the total is direct.
   */
  function Decompose(total: real, paths: seq<real>): (e: CausalEffect)
    requires total >= 0.0 && forall i :: 0 <= i < |paths| ==> paths[i] >= 0.0
    ensures e.total == total && e.indirect >= 0.0
    ensures 0.0 <= e.direct <= total && e.direct + e.indirect >= total
    ensures e.indirect <= total ==> e.direct + e.indirect == total && e.proportionMediated <= 1.0
    ensures e.proportionMediated >= 0.0
    ensures total == 0.0 ==> e.proportionMediated == 0.0
    ensures total > 0.0 ==> e.proportionMediated * total == e.indirect
    ensures paths == [] ==> e.direct == total && e.indirect == 0.0 && e.proportionMediated == 0.0
  {
    Stats.SumNonNegative(paths);
    var indirect := if paths != [] then Stats.Sum(paths) else 0.0;
    var direct := if paths != [] then (if total - indirect > 0.0 then total - indirect else 0.0) else total;
    var proportion := if total > 0.0 then indirect / total else 0.0;
    assert total > 0.0 && indirect <= total ==> proportion <= 1.0 by {
      if total > 0.0 && indirect <= total {
        Stats.DivWithin(indirect, total);
      }
    }
    CausalEffect(total, direct, indirect, proportion)
  }

  /** The effect of `a` versus `b`. */
  function Effect(df: Frame, protectedAttr: string, outcome: string, mediators: seq<string>,
                  corr: (Foreign.Series, Foreign.Series) -> real, a: Cell, b: Cell): (e: CausalEffect)
  {
    var total := Stats.Abs(GroupMean(df, protectedAttr, a, outcome) - GroupMean(df, protectedAttr, b, outcome));
    Decompose(total, Loops.Mapped(mediators, MediatorPathFn(df, protectedAttr, outcome, corr, a, b)))
  }

  function EffectFn(df: Frame, protectedAttr: string, outcome: string, mediators: seq<string>,
                    corr: (Foreign.Series, Foreign.Series) -> real): ((Cell, Cell)) -> CausalEffect
  {
    (p: (Cell, Cell)) => Effect(df, protectedAttr, outcome, mediators, corr, p.0, p.1)
  }

  method EffectOf(df: Frame, protectedAttr: string, outcome: string, mediators: seq<string>,
                  corr: (Foreign.Series, Foreign.Series) -> real, a: Cell, b: Cell) returns (e: CausalEffect)
    ensures e == Effect(df, protectedAttr, outcome, mediators, corr, a, b)
  {
    var meanA := GroupMean(df, protectedAttr, a, outcome);
    var meanB := GroupMean(df, protectedAttr, b, outcome);
    var total := Stats.Abs(meanA - meanB);
    var paths := Loops.MapEach(mediators, MediatorPathFn(df, protectedAttr, outcome, corr, a, b));
    PathsNonNegative(df, protectedAttr, outcome, mediators, corr, a, b);
    e := Decompose(total, paths);
  }

  lemma PathsNonNegative(df: Frame, protectedAttr: string, outcome: string, mediators: seq<string>,
                         corr: (Foreign.Series, Foreign.Series) -> real, a: Cell, b: Cell)
    ensures var paths := Loops.Mapped(mediators, MediatorPathFn(df, protectedAttr, outcome, corr, a, b));
      forall i :: 0 <= i < |paths| ==> paths[i] >= 0.0
  {
    var f := MediatorPathFn(df, protectedAttr, outcome, corr, a, b);
    forall i | 0 <= i < |mediators| ensures Loops.Mapped(mediators, f)[i] >= 0.0 {
      assert Loops.Mapped(mediators, f)[i] == MediatorPath(df, protectedAttr, outcome, corr, a, b, mediators[i]);
    }
  }

  // ---------------------------------------------------------------------
  // All comparisons
  // ---------------------------------------------------------------------

  /** The pairs `(groups[i], groups[j])` for `j > i`, in order of `j`. */
  function Row(groups: seq<Cell>, i: nat): (r: seq<(Cell, Cell)>)
    requires i < |groups|
    ensures |r| == |groups| - i - 1
    ensures forall k :: 0 <= k < |r| ==> r[k] == (groups[i], groups[i + 1 + k])
  {
    seq(|groups| - i - 1, k requires 0 <= k < |groups| - i - 1 => (groups[i], groups[i + 1 + k]))
  }

  /** The pairs visited by the first `n` rounds of the outer loop. */
  function PairsUpTo(groups: seq<Cell>, n: nat): seq<(Cell, Cell)>
    requires n <= |groups|
  {
    if n == 0 then [] else PairsUpTo(groups, n - 1) + Row(groups, n - 1)
  }

  /** Every unordered pair of groups once, the earlier group first. */
  function Pairs(groups: seq<Cell>): seq<(Cell, Cell)>
  {
    PairsUpTo(groups, |groups|)
  }

  /** `f"{group_a} vs {group_b}"` */
  function KeyFn(show: Cell -> string): ((Cell, Cell)) -> string
  {
    (p: (Cell, Cell)) => show(p.0) + " vs " + show(p.1)
  }

  /** `effects[key(p)] = eff(p)` for the pairs in order. */
  function Fill(ps: seq<(Cell, Cell)>, key: ((Cell, Cell)) -> string, eff: ((Cell, Cell)) -> CausalEffect): (d: Ordered.Dict<string, CausalEffect>)
    ensures |d| <= |ps|
  {
    if ps == [] then []
    else
      var init := Fill(ps[..|ps| - 1], key, eff);
      var last := ps[|ps| - 1];
      var d := Ordered.Put(init, key(last), eff(last));
      assert |Ordered.Keys(d)| <= |Ordered.Keys(init)| + 1;
      d
  }

  /** The keys stored are the keys of the pairs. */
  lemma {:induction false} FillKeys(ps: seq<(Cell, Cell)>, key: ((Cell, Cell)) -> string, eff: ((Cell, Cell)) -> CausalEffect, k: string)
    ensures Ordered.HasKey(Fill(ps, key, eff), k) <==> exists p :: p in ps && key(p) == k
  {
    if ps != [] {
      var init := ps[..|ps| - 1];
      var last := ps[|ps| - 1];
      FillKeys(init, key, eff, k);
      assert forall p :: p in ps <==> p in init || p == last;
      var d := Fill(ps, key, eff);
      assert Ordered.HasKey(d, k) <==> Ordered.HasKey(Fill(init, key, eff), k) || k == key(last);
    }
  }

  /** Every value stored is the effect of one of the pairs under its key. */
  lemma {:induction false} FillEntries(ps: seq<(Cell, Cell)>, key: ((Cell, Cell)) -> string, eff: ((Cell, Cell)) -> CausalEffect)
    ensures forall i :: 0 <= i < |Fill(ps, key, eff)| ==>
      exists p :: p in ps && Fill(ps, key, eff)[i] == (key(p), eff(p))
  {
    var d := Fill(ps, key, eff);
    forall i | 0 <= i < |d|
      ensures exists p :: p in ps && d[i] == (key(p), eff(p))
    {
      FillEntry(ps, key, eff, d[i]);
      var p :| p in ps && d[i] == (key(p), eff(p));
    }
  }

  lemma {:induction false} FillEntry(ps: seq<(Cell, Cell)>, key: ((Cell, Cell)) -> string, eff: ((Cell, Cell)) -> CausalEffect,
                                     e: (string, CausalEffect))
    requires e in Fill(ps, key, eff)
    ensures exists p :: p in ps && e == (key(p), eff(p))
    decreases |ps|
  {
    var init := ps[..|ps| - 1];
    var last := ps[|ps| - 1];
    var d := Fill(init, key, eff);
    Ordered.PutEntries(d, key(last), eff(last));
    assert Fill(ps, key, eff) == Ordered.Put(d, key(last), eff(last));
    if e in d {
      FillEntry(init, key, eff, e);
      var p :| p in init && e == (key(p), eff(p));
      assert p in ps;
    } else {
      assert e == (key(last), eff(last));
      assert last in ps;
    }
  }

  /** The pairs are exactly the pairs of an earlier and a later group. */
  lemma {:induction false} PairsListed(groups: seq<Cell>, n: nat, a: Cell, b: Cell)
    requires n <= |groups|
    ensures (a, b) in PairsUpTo(groups, n) <==>
      exists i, j :: 0 <= i < n && i < j < |groups| && groups[i] == a && groups[j] == b
  {
    if n > 0 {
      PairsListed(groups, n - 1, a, b);
      var row := Row(groups, n - 1);
      if (a, b) in row {
        var k :| 0 <= k < |row| && row[k] == (a, b);
        assert groups[n - 1] == a && groups[n + k] == b;
      }
      if exists j :: n - 1 < j < |groups| && groups[n - 1] == a && groups[j] == b {
        var j :| n - 1 < j < |groups| && groups[n - 1] == a && groups[j] == b;
        assert row[j - n] == (a, b);
      }
    }
  }

  /** `[protected_attr, outcome] + mediators` that are not columns. */
  function MissingColumns(df: Frame, protectedAttr: string, outcome: string, mediators: seq<string>): (r: seq<string>)
    ensures forall c :: c in r <==> c in [protectedAttr, outcome] + mediators && !HasColumn(df, c)
  {
    Filter([protectedAttr, outcome] + mediators, c => !HasColumn(df, c))
  }

  /**
   * `calc_path_decomposition(df, protected_attr, outcome, mediators)`: a
   * ValueError for a missing column, fewer than 30 rows, or fewer than two
   * groups (`unique()`, so a missing value is a group of its own); else one
   * effect per pair of groups, under the pair's key.
   */
  function PathSpec(df: Frame, protectedAttr: string, outcome: string, mediators: seq<string>,
                    corr: (Foreign.Series, Foreign.Series) -> real, show: Cell -> string): (r: Result<Ordered.Dict<string, CausalEffect>>)
    ensures r.Err? <==> MissingColumns(df, protectedAttr, outcome, mediators) != [] || |df.rows| < 30 ||
                        |Distinct(Column(df, protectedAttr))| < 2
    ensures r.Err? ==> r.error.kind == ValueError
  {
    if MissingColumns(df, protectedAttr, outcome, mediators) != [] then Fail(ValueError, "Columns not found")
    else if |df.rows| < 30 then Fail(ValueError, "Insufficient data for causal analysis (n < 30)")
    else
      var groups := Distinct(Column(df, protectedAttr));
      if |groups| < 2 then Fail(ValueError, "Protected attribute must have at least 2 groups")
      else
        Ok(Fill(Pairs(groups), KeyFn(show), EffectFn(df, protectedAttr, outcome, mediators, corr)))
  }

  /** The result holds one key "a vs b" for each pair of groups a before b. */
  lemma PathKeys(df: Frame, protectedAttr: string, outcome: string, mediators: seq<string>,
                 corr: (Foreign.Series, Foreign.Series) -> real, show: Cell -> string, k: string)
    requires PathSpec(df, protectedAttr, outcome, mediators, corr, show).Ok?
    ensures Ordered.HasKey(PathSpec(df, protectedAttr, outcome, mediators, corr, show).value, k) <==>
      exists a, b :: (a, b) in Pairs(Distinct(Column(df, protectedAttr))) && show(a) + " vs " + show(b) == k
  {
    var groups := Distinct(Column(df, protectedAttr));
    FillKeys(Pairs(groups), KeyFn(show), EffectFn(df, protectedAttr, outcome, mediators, corr), k);
  }

  /** The nested pair loops filling `effects`. */
  method PairLoop(groups: seq<Cell>, key: ((Cell, Cell)) -> string, df: Frame, protectedAttr: string, outcome: string,
                  mediators: seq<string>, corr: (Foreign.Series, Foreign.Series) -> real)
    returns (effects: Ordered.Dict<string, CausalEffect>)
    ensures effects == Fill(Pairs(groups), key, EffectFn(df, protectedAttr, outcome, mediators, corr))
  {
    effects := [];
    var i := 0;
    while i < |groups|
      invariant 0 <= i <= |groups|
      invariant effects == Fill(PairsUpTo(groups, i), key, EffectFn(df, protectedAttr, outcome, mediators, corr))
    {
      effects := RowLoop(effects, PairsUpTo(groups, i), Row(groups, i), key, df, protectedAttr, outcome, mediators, corr);
      i := i + 1;
    }
  }

  /** The inner loop: one group against every later group, the pairs `row`. */
  method RowLoop(start: Ordered.Dict<string, CausalEffect>, ghost before: seq<(Cell, Cell)>, row: seq<(Cell, Cell)>,
                 key: ((Cell, Cell)) -> string, df: Frame, protectedAttr: string, outcome: string, mediators: seq<string>,
                 corr: (Foreign.Series, Foreign.Series) -> real)
    returns (effects: Ordered.Dict<string, CausalEffect>)
    requires start == Fill(before, key, EffectFn(df, protectedAttr, outcome, mediators, corr))
    ensures effects == Fill(before + row, key, EffectFn(df, protectedAttr, outcome, mediators, corr))
  {
    ghost var eff := EffectFn(df, protectedAttr, outcome, mediators, corr);
    effects := start;
    var k := 0;
    TakeStep(before, row, 0);
    while k < |row|
      invariant 0 <= k <= |row|
      invariant effects == Fill(before + row[..k], key, eff)
    {
      var e := PairEffect(df, protectedAttr, outcome, mediators, corr, row[k]);
      effects := PutPair(effects, before + row[..k], row[k], e, key, eff);
      TakeStep(before, row, k);
      k := k + 1;
    }
    assert row[..k] == row;
  }

  lemma TakeStep(before: seq<(Cell, Cell)>, row: seq<(Cell, Cell)>, k: nat)
    requires k <= |row|
    ensures k == 0 ==> before + row[..k] == before
    ensures k < |row| ==> before + row[..k + 1] == before + row[..k] + [row[k]]
  {
    if k < |row| {
      assert row[..k + 1] == row[..k] + [row[k]];
    }
  }

  /** The effect of one pair, as `EffectFn` gives it. */
  method PairEffect(df: Frame, protectedAttr: string, outcome: string, mediators: seq<string>,
                    corr: (Foreign.Series, Foreign.Series) -> real, p: (Cell, Cell)) returns (e: CausalEffect)
    ensures e == EffectFn(df, protectedAttr, outcome, mediators, corr)(p)
  {
    e := EffectOf(df, protectedAttr, outcome, mediators, corr, p.0, p.1);
  }

  /** `effects[key(p)] = e` for the effect `e` of the next pair. */
  method PutPair(effects: Ordered.Dict<string, CausalEffect>, ghost done: seq<(Cell, Cell)>, p: (Cell, Cell), e: CausalEffect,
                 key: ((Cell, Cell)) -> string, ghost eff: ((Cell, Cell)) -> CausalEffect)
    returns (r: Ordered.Dict<string, CausalEffect>)
    requires effects == Fill(done, key, eff) && e == eff(p)
    ensures r == Fill(done + [p], key, eff)
  {
    FillStep(done, p, key, eff);
    r := Ordered.Put(effects, key(p), e);
  }

  lemma FillStep(ps: seq<(Cell, Cell)>, p: (Cell, Cell), key: ((Cell, Cell)) -> string, eff: ((Cell, Cell)) -> CausalEffect)
    ensures Fill(ps + [p], key, eff) == Ordered.Put(Fill(ps, key, eff), key(p), eff(p))
  {
    assert (ps + [p])[..|ps|] == ps;
  }

  method PathDecomposition(df: Frame, protectedAttr: string, outcome: string, mediators: seq<string>,
                           corr: (Foreign.Series, Foreign.Series) -> real, show: Cell -> string)
    returns (r: Result<Ordered.Dict<string, CausalEffect>>)
    ensures r == PathSpec(df, protectedAttr, outcome, mediators, corr, show)
  {
    if MissingColumns(df, protectedAttr, outcome, mediators) != [] {
      return Fail(ValueError, "Columns not found");
    }
    if |df.rows| < 30 {
      return Fail(ValueError, "Insufficient data for causal analysis (n < 30)");
    }
    var groups := Distinct(Column(df, protectedAttr));
    if |groups| < 2 {
      return Fail(ValueError, "Protected attribute must have at least 2 groups");
    }
    var effects := PairLoop(groups, KeyFn(show), df, protectedAttr, outcome, mediators, corr);
    return Ok(effects);
  }

  /**
   * Every effect reported is a well-formed decomposition: the direct part
   * lies between 0 and the total, and without mediators all of it is direct.
   */
  lemma EffectsShape(df: Frame, protectedAttr: string, outcome: string, mediators: seq<string>,
                     corr: (Foreign.Series, Foreign.Series) -> real, show: Cell -> string)
    requires PathSpec(df, protectedAttr, outcome, mediators, corr, show).Ok?
    ensures var d := PathSpec(df, protectedAttr, outcome, mediators, corr, show).value;
      forall i :: 0 <= i < |d| ==>
        && 0.0 <= d[i].1.direct <= d[i].1.total
        && d[i].1.indirect >= 0.0 && d[i].1.proportionMediated >= 0.0
        && (mediators == [] ==> d[i].1.direct == d[i].1.total && d[i].1.indirect == 0.0)
  {
    var groups := Distinct(Column(df, protectedAttr));
    FillEntries(Pairs(groups), KeyFn(show), EffectFn(df, protectedAttr, outcome, mediators, corr));
  }

  // ---------------------------------------------------------------------
  // Counterfactual fairness
  // ---------------------------------------------------------------------

  /**
   * `calc_counterfactual_fairness(df, protected_attr, outcome)`: both columns
   * must exist and the attribute must have exactly two values (ValueError);
   * the result is the gap between the two groups' outcome means.
   */
  function CounterfactualSpec(df: Frame, protectedAttr: string, outcome: string): (r: Result<real>)
    ensures r.Err? <==> !HasColumn(df, protectedAttr) || !HasColumn(df, outcome) || |Distinct(Column(df, protectedAttr))| != 2
    ensures r.Err? ==> r.error.kind == ValueError
    ensures r.Ok? ==> r.value >= 0.0
  {
    if !HasColumn(df, protectedAttr) || !HasColumn(df, outcome) then Fail(ValueError, "Columns not found")
    else
      var groups := Distinct(Column(df, protectedAttr));
      if |groups| != 2 then Fail(ValueError, "Counterfactual fairness requires binary protected attribute")
      else Ok(Stats.Abs(GroupMean(df, protectedAttr, groups[0], outcome) - GroupMean(df, protectedAttr, groups[1], outcome)))
  }

  /** For an outcome in `[0, 1]` (a rate) the counterfactual gap lies in `[0, 1]`. */
  lemma CounterfactualWithin(df: Frame, protectedAttr: string, outcome: string)
    requires forall row: Row :: row in df.rows && outcome in row && row[outcome].Num? ==> 0.0 <= row[outcome].x <= 1.0
    ensures CounterfactualSpec(df, protectedAttr, outcome).Ok? ==> CounterfactualSpec(df, protectedAttr, outcome).value <= 1.0
  {
    if CounterfactualSpec(df, protectedAttr, outcome).Ok? {
      var groups := Distinct(Column(df, protectedAttr));
      GroupMeanWithin(df, protectedAttr, groups[0], outcome);
      GroupMeanWithin(df, protectedAttr, groups[1], outcome);
    }
  }

  lemma GroupMeanWithin(df: Frame, protectedAttr: string, g: Cell, outcome: string)
    requires forall row: Row :: row in df.rows && outcome in row && row[outcome].Num? ==> 0.0 <= row[outcome].x <= 1.0
    ensures 0.0 <= GroupMean(df, protectedAttr, g, outcome) <= 1.0
  {
    var cells := Column(WhereEq(df, protectedAttr, g), outcome);
    forall i | 0 <= i < |cells| && cells[i].Num?
      ensures 0.0 <= cells[i].x <= 1.0
    {
      assert WhereEq(df, protectedAttr, g).rows[i] in df.rows;
    }
    MeanOfWithin(cells, 0.0, 1.0);
  }

  /**
   * With exactly two groups, counterfactual fairness is the total effect of
   * the one comparison the path decomposition makes.
   */
  lemma CounterfactualIsTotalEffect(df: Frame, protectedAttr: string, outcome: string, mediators: seq<string>,
                                    corr: (Foreign.Series, Foreign.Series) -> real, show: Cell -> string)
    requires CounterfactualSpec(df, protectedAttr, outcome).Ok?
    requires PathSpec(df, protectedAttr, outcome, mediators, corr, show).Ok?
    ensures var groups := Distinct(Column(df, protectedAttr));
      var d := PathSpec(df, protectedAttr, outcome, mediators, corr, show).value;
      && |d| == 1 && d[0].0 == show(groups[0]) + " vs " + show(groups[1])
      && d[0].1.total == CounterfactualSpec(df, protectedAttr, outcome).value
  {
    var groups := Distinct(Column(df, protectedAttr));
    assert Row(groups, 1) == [];
    assert Pairs(groups) == [(groups[0], groups[1])] by {
      assert PairsUpTo(groups, 1) == Row(groups, 0);
    }
  }

  // ---------------------------------------------------------------------
  // The diagnostic
  // ---------------------------------------------------------------------

  /**
   * `calc_fairness_through_awareness(df, protected_attr, outcome)` as far as
   * the diagnostic reads it: a ValueError for a missing column, else the
   * information-leakage score, the mean over the other columns of the given
   * absolute correlation with the protected attribute (0 with no columns).
   */
  function AwarenessSpec(df: Frame, protectedAttr: string, outcome: string, featureCorr: string -> real): (r: Result<real>)
    ensures r.Err? <==> !HasColumn(df, protectedAttr) || !HasColumn(df, outcome)
  {
    if !HasColumn(df, protectedAttr) || !HasColumn(df, outcome) then Fail(ValueError, "Protected attribute or outcome column missing")
    else
      var features := Filter(df.columns, c => c != protectedAttr && c != outcome);
      Ok(Stats.Mean(Loops.Mapped(features, featureCorr)))
  }

  /** What the path-decomposition entry of the diagnostic holds. */
  datatype PathOutcome = Effects(effects: Ordered.Dict<string, CausalEffect>) | PathError(message: string)

  datatype Diagnostic = Diagnostic(
    protectedAttribute: string,
    outcome: string,
    sampleSize: nat,
    mediators: seq<string>,
    path: PathOutcome,
    counterfactual: Option<real>,   // None where the computation raised
    leakage: Option<real>,          // None where awareness raised
    verdict: string)

  const Reasonable: string := "\U{2713} Causal fairness appears reasonable"
  const Warning: string := "\U{26A0}\U{FE0F} "

  /** The line of one comparison. */
  function DirectPart(comparison: string, e: CausalEffect, fmt: real -> string): string
  {
    if e.direct > 0.1 then Warning + "High direct effect (" + fmt(e.direct) + ") in " + comparison
    else "\U{2713} Low direct effect in " + comparison
  }

  function DirectParts(effects: Ordered.Dict<string, CausalEffect>, fmt: real -> string): (r: seq<string>)
    ensures |r| == |effects|
    ensures forall i :: 0 <= i < |effects| ==> r[i] == DirectPart(effects[i].0, effects[i].1, fmt)
  {
    seq(|effects|, i requires 0 <= i < |effects| => DirectPart(effects[i].0, effects[i].1, fmt))
  }

  /** The counterfactual and leakage lines: a gap above 0.15, a leakage score above 0.3. */
  function OtherParts(counterfactual: Option<real>, leakage: Option<real>, fmt: real -> string): seq<string>
  {
    (if counterfactual.Some? && counterfactual.value > 0.15
     then [Warning + "High counterfactual disparity (" + fmt(counterfactual.value) + ")"] else []) +
    (if leakage.Some? && leakage.value > 0.3
     then [Warning + "Information leakage detected (" + fmt(leakage.value) + ")"] else [])
  }

  /** `"; ".join(verdict_parts)`, or the all-clear line when there are none. */
  function Verdict(parts: seq<string>): string
  {
    if parts == [] then Reasonable else Text.Join(parts, "; ")
  }

  function Outcomes(df: Frame, protectedAttr: string, outcome: string, mediators: seq<string>,
                    corr: (Foreign.Series, Foreign.Series) -> real, show: Cell -> string,
                    featureCorr: string -> real): (PathOutcome, Option<real>, Option<real>)
  {
    var path := PathSpec(df, protectedAttr, outcome, mediators, corr, show);
    var cf := CounterfactualSpec(df, protectedAttr, outcome);
    var fta := AwarenessSpec(df, protectedAttr, outcome, featureCorr);
    (if path.Ok? then Effects(path.value) else PathError(path.error.message),
     if cf.Ok? then Some(cf.value) else None,
     if fta.Ok? then Some(fta.value) else None)
  }

  /**
   * The diagnostic as written: a failed path decomposition is stored as the
   * dictionary `{'error': message}`, which the verdict loop then reads as a
   * comparison, failing on the text's missing `direct_effect` attribute.
   */
  function DiagnosticAsWritten(df: Frame, protectedAttr: string, outcome: string, mediators: seq<string>,
                               corr: (Foreign.Series, Foreign.Series) -> real, show: Cell -> string,
                               featureCorr: string -> real, fmt: real -> string): (r: Result<Diagnostic>)
  {
    if |df.rows| < 30 then Fail(ValueError, "Insufficient data (minimum 30 rows)")
    else
      var (path, cf, leakage) := Outcomes(df, protectedAttr, outcome, mediators, corr, show, featureCorr);
      if path.PathError? then Fail(AttributeError, "'str' object has no attribute 'direct_effect'")
      else
        var parts := DirectParts(path.effects, fmt) + OtherParts(cf, leakage, fmt);
        Ok(Diagnostic(protectedAttr, outcome, |df.rows|, mediators, path, cf, leakage, Verdict(parts)))
  }

  /**
   * `calc_causal_fairness_diagnostic(df, protected_attr, outcome, mediators)`,
   * with a failed path decomposition recorded and contributing no line.
   */
  function DiagnosticSpec(df: Frame, protectedAttr: string, outcome: string, mediators: seq<string>,
                          corr: (Foreign.Series, Foreign.Series) -> real, show: Cell -> string,
                          featureCorr: string -> real, fmt: real -> string): (r: Result<Diagnostic>)
    ensures r.Err? <==> |df.rows| < 30
    ensures r.Err? ==> r.error.kind == ValueError
    ensures r.Ok? ==> r.value.sampleSize == |df.rows| && r.value.mediators == mediators
  {
    if |df.rows| < 30 then Fail(ValueError, "Insufficient data (minimum 30 rows)")
    else
      var (path, cf, leakage) := Outcomes(df, protectedAttr, outcome, mediators, corr, show, featureCorr);
      var parts := (if path.Effects? then DirectParts(path.effects, fmt) else []) + OtherParts(cf, leakage, fmt);
      Ok(Diagnostic(protectedAttr, outcome, |df.rows|, mediators, path, cf, leakage, Verdict(parts)))
  }

  /** The verdict loop over the comparisons. */
  method DirectPartsLoop(effects: Ordered.Dict<string, CausalEffect>, fmt: real -> string) returns (parts: seq<string>)
    ensures parts == DirectParts(effects, fmt)
  {
    parts := [];
    var i := 0;
    while i < |effects|
      invariant 0 <= i <= |effects|
      invariant parts == DirectParts(effects[..i], fmt)
    {
      parts := parts + [DirectPart(effects[i].0, effects[i].1, fmt)];
      i := i + 1;
    }
    assert effects[..i] == effects;
  }

  method CausalDiagnostic(df: Frame, protectedAttr: string, outcome: string, mediators: seq<string>,
                          corr: (Foreign.Series, Foreign.Series) -> real, show: Cell -> string,
                          featureCorr: string -> real, fmt: real -> string) returns (r: Result<Diagnostic>)
    ensures r == DiagnosticSpec(df, protectedAttr, outcome, mediators, corr, show, featureCorr, fmt)
  {
    if |df.rows| < 30 {
      return Fail(ValueError, "Insufficient data (minimum 30 rows)");
    }
    var pathResult := PathDecomposition(df, protectedAttr, outcome, mediators, corr, show);
    var path := if pathResult.Ok? then Effects(pathResult.value) else PathError(pathResult.error.message);
    var cfResult := CounterfactualSpec(df, protectedAttr, outcome);
    var cf := if cfResult.Ok? then Some(cfResult.value) else None;
    var ftaResult := AwarenessSpec(df, protectedAttr, outcome, featureCorr);
    var leakage := if ftaResult.Ok? then Some(ftaResult.value) else None;
    var parts: seq<string> := [];
    if path.Effects? {
      parts := DirectPartsLoop(path.effects, fmt);
    }
    parts := parts + OtherParts(cf, leakage, fmt);
    return Ok(Diagnostic(protectedAttr, outcome, |df.rows|, mediators, path, cf, leakage, Verdict(parts)));
  }

  /** The first part opens the joined verdict. */
  lemma {:induction false} JoinStartsWith(parts: seq<string>, sep: string)
    requires parts != []
    ensures |Text.Join(parts, sep)| >= |parts[0]| && Text.Join(parts, sep)[..|parts[0]|] == parts[0]
  {
    if |parts| > 1 {
      assert Text.Join(parts, sep) == parts[0] + (sep + Text.Join(parts[1..], sep));
    }
  }

  /** Every verdict line starts with a warning sign or with "✓ Low". */
  predicate Flagged(p: string)
  {
    |p| >= 3 && (p[..3] == Warning || p[..3] == "\U{2713} L")
  }

  /** The all-clear verdict is given exactly when there is no line to report. */
  lemma VerdictClear(parts: seq<string>)
    requires forall i :: 0 <= i < |parts| ==> Flagged(parts[i])
    ensures Verdict(parts) == Reasonable <==> parts == []
  {
    if parts != [] {
      JoinStartsWith(parts, "; ");
      var v := Text.Join(parts, "; ");
      assert v[2] == parts[0][2];
      assert parts[0][2] == ' ' || parts[0][2] == 'L' by {
        assert parts[0][2] == parts[0][..3][2];
      }
      assert Reasonable[2] == 'C';
    }
  }

  /**
   * A decomposition that succeeds always yields a line per comparison, so
   * the all-clear verdict is given exactly when the decomposition failed,
   * the counterfactual gap is at most 0.15 or failed, and the leakage score
   * is at most 0.3 or failed.
   */
  lemma DiagnosticClearIff(df: Frame, protectedAttr: string, outcome: string, mediators: seq<string>,
                           corr: (Foreign.Series, Foreign.Series) -> real, show: Cell -> string,
                           featureCorr: string -> real, fmt: real -> string)
    requires DiagnosticSpec(df, protectedAttr, outcome, mediators, corr, show, featureCorr, fmt).Ok?
    ensures var d := DiagnosticSpec(df, protectedAttr, outcome, mediators, corr, show, featureCorr, fmt).value;
      d.verdict == Reasonable <==>
        && PathSpec(df, protectedAttr, outcome, mediators, corr, show).Err?
        && (CounterfactualSpec(df, protectedAttr, outcome).Ok? ==> CounterfactualSpec(df, protectedAttr, outcome).value <= 0.15)
        && (AwarenessSpec(df, protectedAttr, outcome, featureCorr).Ok? ==> AwarenessSpec(df, protectedAttr, outcome, featureCorr).value <= 0.3)
  {
    var (path, cf, leakage) := Outcomes(df, protectedAttr, outcome, mediators, corr, show, featureCorr);
    var direct := if path.Effects? then DirectParts(path.effects, fmt) else [];
    DirectPartsFlagged(if path.Effects? then path.effects else [], fmt);
    PartsClear(direct, cf, leakage, fmt);
    if path.Effects? {
      PathsNotEmpty(df, protectedAttr, outcome, mediators, corr, show);
    }
  }

  lemma DirectPartsFlagged(effects: Ordered.Dict<string, CausalEffect>, fmt: real -> string)
    ensures forall i :: 0 <= i < |effects| ==> Flagged(DirectParts(effects, fmt)[i])
  {
    forall i | 0 <= i < |effects|
      ensures Flagged(DirectParts(effects, fmt)[i])
    {
      var e := effects[i].1;
      var p := DirectParts(effects, fmt)[i];
      if e.direct > 0.1 {
        assert p[..3] == Warning;
      } else {
        assert p[..3] == "\U{2713} L";
      }
    }
  }

  /** The verdict is the all-clear line exactly when no comparison is listed and no warning applies. */
  lemma PartsClear(direct: seq<string>, cf: Option<real>, leakage: Option<real>, fmt: real -> string)
    requires forall i :: 0 <= i < |direct| ==> Flagged(direct[i])
    ensures Verdict(direct + OtherParts(cf, leakage, fmt)) == Reasonable <==>
      direct == [] && (cf.Some? ==> cf.value <= 0.15) && (leakage.Some? ==> leakage.value <= 0.3)
  {
    var other := OtherParts(cf, leakage, fmt);
    forall i | 0 <= i < |other|
      ensures Flagged(other[i])
    {
      assert other[i][..3] == Warning;
    }
    var parts := direct + other;
    assert forall i :: 0 <= i < |parts| ==> Flagged(parts[i]) by {
      forall i | 0 <= i < |parts|
        ensures Flagged(parts[i])
      {
        if i < |direct| {
          assert parts[i] == direct[i];
        } else {
          assert parts[i] == other[i - |direct|];
        }
      }
    }
    VerdictClear(parts);
  }

  /** With two groups or more there is a comparison. */
  lemma PathsNotEmpty(df: Frame, protectedAttr: string, outcome: string, mediators: seq<string>,
                      corr: (Foreign.Series, Foreign.Series) -> real, show: Cell -> string)
    requires PathSpec(df, protectedAttr, outcome, mediators, corr, show).Ok?
    ensures PathSpec(df, protectedAttr, outcome, mediators, corr, show).value != []
  {
    var groups := Distinct(Column(df, protectedAttr));
    PairsListed(groups, |groups|, groups[0], groups[1]);
    var k := show(groups[0]) + " vs " + show(groups[1]);
    PathKeys(df, protectedAttr, outcome, mediators, corr, show, k);
    assert Ordered.HasKey(PathSpec(df, protectedAttr, outcome, mediators, corr, show).value, k);
  }

  /** Where the path decomposition succeeds, the diagnostic as written is the corrected one. */
  lemma DiagnosticAgrees(df: Frame, protectedAttr: string, outcome: string, mediators: seq<string>,
                         corr: (Foreign.Series, Foreign.Series) -> real, show: Cell -> string,
                         featureCorr: string -> real, fmt: real -> string)
    requires PathSpec(df, protectedAttr, outcome, mediators, corr, show).Ok?
    ensures DiagnosticAsWritten(df, protectedAttr, outcome, mediators, corr, show, featureCorr, fmt) ==
            DiagnosticSpec(df, protectedAttr, outcome, mediators, corr, show, featureCorr, fmt)
  {
  }

  /**
   * Thirty rows or more in a single protected group: the decomposition
   * refuses them, and the diagnostic as written then fails with an
   * AttributeError where the corrected one reports.
   */
  lemma DiagnosticAsWrittenFails(df: Frame, protectedAttr: string, outcome: string, mediators: seq<string>,
                                 corr: (Foreign.Series, Foreign.Series) -> real, show: Cell -> string,
                                 featureCorr: string -> real, fmt: real -> string)
    requires |df.rows| >= 30 && |Distinct(Column(df, protectedAttr))| < 2
    ensures DiagnosticAsWritten(df, protectedAttr, outcome, mediators, corr, show, featureCorr, fmt).Err?
    ensures DiagnosticAsWritten(df, protectedAttr, outcome, mediators, corr, show, featureCorr, fmt).error.kind == AttributeError
    ensures DiagnosticSpec(df, protectedAttr, outcome, mediators, corr, show, featureCorr, fmt).Ok?
    ensures DiagnosticSpec(df, protectedAttr, outcome, mediators, corr, show, featureCorr, fmt).value.path.PathError?
  {
  }
}
