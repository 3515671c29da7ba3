/**
 * Privacy metrics of assurance/privacy/metrics.py: k-anonymity (smallest
 * quasi-identifier group), l-diversity (fewest distinct sensitive values in
 * a group), t-closeness (largest half-L1 distance between a group's and the
 * whole table's distribution of the sensitive attribute) and the data
 * minimisation score.
 */
module Privacy {

  import opened Wrappers
  import opened Frames
  import opened Counting
  import opened Text
  import Stats

  /** A keyword argument that is either one text or a list of texts. */
  datatype Names = NamesText(text: string) | NamesList(names: seq<string>)

  /** Python truthiness of such an argument. */
  predicate Given(n: Names)
  {
    match n
    case NamesText(s) => s != ""
    case NamesList(xs) => xs != []
  }

  // ---------------------------------------------------------------- k-anonymity

  /**
   * The quasi-identifiers of `calc_k_anonymity`: a text is split on commas,
   * each part trimmed and blank parts dropped; a one-element list holding a
   * comma text is unpacked the same way; any other list is taken as it is.
   */
  function QuasiIdentifiers(q: Names): (r: seq<string>)
    ensures q.NamesList? && |q.names| == 1 && Contains(q.names[0], ",") ==> r == CommaParts(q.names[0])
    ensures q.NamesList? && !(|q.names| == 1 && Contains(q.names[0], ",")) ==> r == q.names
  {
    var listed := match q
      case NamesText(s) => CommaParts(s)
      case NamesList(xs) => xs;
    if |listed| == 1 && Contains(listed[0], ",") then CommaParts(listed[0]) else listed
  }

  /** A comma text is split once: the guard for a nested comma text never fires on it. */
  lemma TextSplitOnce(s: string)
    ensures QuasiIdentifiers(NamesText(s)) == CommaParts(s)
  {
    CommaPartsFree(s);
  }

  /** The size of each group of `df.groupby(qi)`, in group order. */
  function GroupSizes(df: Frame, qi: seq<string>): (r: seq<real>)
    ensures |r| == |GroupKeys(df, qi)|
    ensures forall i :: 0 <= i < |r| ==> r[i] == |Group(df, qi, GroupKeys(df, qi)[i]).rows| as real
  {
    var keys := GroupKeys(df, qi);
    seq(|keys|, i requires 0 <= i < |keys| => |Group(df, qi, keys[i]).rows| as real)
  }

  /** The smallest group of `df.groupby(qi)`, 0 when there is no group. */
  function SmallestGroup(df: Frame, qi: seq<string>): (r: real)
    ensures r == 0.0 <==> GroupKeys(df, qi) == []
    ensures forall key :: key in GroupKeys(df, qi) ==> r <= |Group(df, qi, key).rows| as real
    ensures GroupKeys(df, qi) != [] ==>
      r >= 1.0 && exists key :: key in GroupKeys(df, qi) && r == |Group(df, qi, key).rows| as real
  {
    var sizes := GroupSizes(df, qi);
    if sizes == [] then 0.0
    else
      var keys := GroupKeys(df, qi);
      forall i | 0 <= i < |keys| ensures sizes[i] >= 1.0 {
        GroupNotEmpty(df, qi, keys[i]);
      }
      assert forall key :: key in keys ==> exists i :: 0 <= i < |keys| && keys[i] == key;
      Stats.Min(sizes)
  }

  /** `calc_k_anonymity`: the smallest group size over the quasi-identifiers. */
  function KAnonymity(df: Frame, q: Names): (r: Result<real>)
    ensures r.Ok? <==> QuasiIdentifiers(q) != [] && AllColumns(df, QuasiIdentifiers(q))
    ensures r.Err? ==> r.error.kind == ValueError
    ensures r.Ok? ==> r.value == SmallestGroup(df, QuasiIdentifiers(q))
  {
    var qi := QuasiIdentifiers(q);
    if qi == [] then Fail(ValueError, "quasi_identifiers required for k-anonymity")
    else if !AllColumns(df, qi) then Fail(ValueError, "Quasi-identifier columns not found")
    else Ok(SmallestGroup(df, qi))
  }

  /** A table with at least one row whose quasi-identifiers are all present is at least 1-anonymous. */
  lemma KAtLeastOne(df: Frame, q: Names, i: nat)
    requires KAnonymity(df, q).Ok?
    requires i < |df.rows| && Complete(KeyOf(df.rows[i], QuasiIdentifiers(q)))
    ensures KAnonymity(df, q).value >= 1.0
  {
    var qi := QuasiIdentifiers(q);
    assert KeysOf(df.rows, qi)[i] == KeyOf(df.rows[i], qi);
    assert KeyOf(df.rows[i], qi) in GroupKeys(df, qi);
  }

  // ---------------------------------------------------------------- l-diversity and t-closeness

  /**
   * The shared argument checks of `calc_l_diversity` and `calc_t_closeness`:
   * both arguments required, and every named column present. A text
   * `quasi_identifiers` cannot be concatenated with a list.
   */
  function Checked(df: Frame, q: Names, sensitive: Option<string>, metric: string): (r: Result<seq<string>>)
    ensures r.Ok? <==> (q.NamesList? && q.names != [] && sensitive.Some? && sensitive.value != "" &&
                        AllColumns(df, q.names) && sensitive.value in df.columns)
    ensures r.Ok? ==> r.value == q.names
    ensures !Given(q) || sensitive.None? || sensitive.value == "" ==> r.Err? && r.error.kind == ValueError
  {
    if !Given(q) then Fail(ValueError, "quasi_identifiers required for " + metric)
    else if sensitive.None? || sensitive.value == "" then Fail(ValueError, "sensitive_attribute required for " + metric)
    else if q.NamesText? then Fail(TypeError, "can only concatenate str (not \"list\") to str")
    else if !(AllColumns(df, q.names) && sensitive.value in df.columns) then Fail(ValueError, "Columns not found")
    else Ok(q.names)
  }

  /** `nunique` of the sensitive column within each group, in group order. */
  function DistinctCounts(df: Frame, qi: seq<string>, sa: string): (r: seq<real>)
    ensures |r| == |GroupKeys(df, qi)|
    ensures forall i :: 0 <= i < |r| ==>
      r[i] == |Values(Column(Group(df, qi, GroupKeys(df, qi)[i]), sa))| as real
  {
    var keys := GroupKeys(df, qi);
    seq(|keys|, i requires 0 <= i < |keys| => |Values(Column(Group(df, qi, keys[i]), sa))| as real)
  }

  /** `calc_l_diversity`: the fewest distinct sensitive values in a group. An empty grouping gives 0,
      standing for the NaN that `min()` of an empty series gives. */
  function LDiversity(df: Frame, q: Names, sensitive: Option<string>): (r: Result<real>)
    ensures r.Ok? <==> Checked(df, q, sensitive, "l-diversity").Ok?
    ensures r.Ok? ==> r.value >= 0.0
    ensures r.Ok? ==> forall key :: key in GroupKeys(df, q.names) ==>
      r.value <= |Values(Column(Group(df, q.names, key), sensitive.value))| as real
    ensures r.Ok? && GroupKeys(df, q.names) != [] ==>
      exists key :: key in GroupKeys(df, q.names) &&
        r.value == |Values(Column(Group(df, q.names, key), sensitive.value))| as real
    ensures r.Ok? && GroupKeys(df, q.names) == [] ==> r.value == 0.0
  {
    var qi :- Checked(df, q, sensitive, "l-diversity");
    var counts := DistinctCounts(df, qi, sensitive.value);
    if counts == [] then Ok(0.0)
    else
      FewestDistinct(df, qi, sensitive.value);
      Ok(Stats.Min(counts))
  }

  /** The smallest distinct count is some group's count and at most every group's. */
  lemma FewestDistinct(df: Frame, qi: seq<string>, sa: string)
    requires DistinctCounts(df, qi, sa) != []
    ensures var m := Stats.Min(DistinctCounts(df, qi, sa));
      && m >= 0.0
      && (forall key :: key in GroupKeys(df, qi) ==> m <= |Values(Column(Group(df, qi, key), sa))| as real)
      && exists key :: key in GroupKeys(df, qi) && m == |Values(Column(Group(df, qi, key), sa))| as real
  {
    var keys := GroupKeys(df, qi);
    var counts := DistinctCounts(df, qi, sa);
    var m := Stats.Min(counts);
    forall key | key in keys
      ensures m <= |Values(Column(Group(df, qi, key), sa))| as real
    {
      var i :| 0 <= i < |keys| && keys[i] == key;
      assert m <= counts[i];
    }
    var j :| 0 <= j < |counts| && counts[j] == m;
    assert keys[j] in keys;
    assert m >= 0.0 by {
      assert counts[j] == |Values(Column(Group(df, qi, keys[j]), sa))| as real;
    }
  }

  /** A group cannot hold more distinct sensitive values than rows: l-diversity never exceeds k-anonymity. */
  lemma LDiversityAtMostK(df: Frame, qi: seq<string>, sensitive: string)
    requires LDiversity(df, NamesList(qi), Some(sensitive)).Ok?
    requires !(|qi| == 1 && Contains(qi[0], ","))
    ensures KAnonymity(df, NamesList(qi)).Ok?
    ensures LDiversity(df, NamesList(qi), Some(sensitive)).value <= KAnonymity(df, NamesList(qi)).value
  {
    var keys := GroupKeys(df, qi);
    var sizes := GroupSizes(df, qi);
    var counts := DistinctCounts(df, qi, sensitive);
    if keys != [] {
      var j :| 0 <= j < |sizes| && sizes[j] == Stats.Min(sizes);
      var g := Column(Group(df, qi, keys[j]), sensitive);
      assert |Values(g)| <= |g|;
      assert counts[j] <= sizes[j];
    }
  }

  /** The L1 distance between the value shares of `a` and `b`, over the values `vs`. */
  function L1(vs: seq<Cell>, a: seq<Cell>, b: seq<Cell>): (r: real)
    ensures r >= 0.0
  {
    if vs == [] then 0.0
    else L1(vs[..|vs| - 1], a, b) + Stats.Abs(Share(a, vs[|vs| - 1]) - Share(b, vs[|vs| - 1]))
  }

  lemma {:induction false} L1Bound(vs: seq<Cell>, a: seq<Cell>, b: seq<Cell>)
    ensures L1(vs, a, b) <= ShareSum(vs, a) + ShareSum(vs, b)
  {
    if vs != [] {
      L1Bound(vs[..|vs| - 1], a, b);
    }
  }

  /** The values present in either column, each once. */
  function AllValues(a: seq<Cell>, b: seq<Cell>): (r: seq<Cell>)
    ensures NoDuplicates(r) && Null !in r
  {
    Distinct(Values(a) + Values(b))
  }

  /** Half the L1 distance between the distributions of two columns. */
  function Distance(overall: seq<Cell>, group: seq<Cell>): real
  {
    L1(AllValues(overall, group), overall, group) / 2.0
  }

  /** Half an L1 distance between two distributions lies in `[0, 1]`. */
  lemma DistanceWithin(overall: seq<Cell>, group: seq<Cell>)
    ensures 0.0 <= Distance(overall, group) <= 1.0
  {
    var vs := AllValues(overall, group);
    L1Bound(vs, overall, group);
    ShareSumBound(vs, overall);
    ShareSumBound(vs, group);
  }

  /** The distance of every group, in group order. */
  function Distances(df: Frame, qi: seq<string>, sa: string): (r: seq<real>)
    ensures |r| == |GroupKeys(df, qi)|
  {
    var keys := GroupKeys(df, qi);
    seq(|keys|, i requires 0 <= i < |keys| => Distance(Column(df, sa), Column(Group(df, qi, keys[i]), sa)))
  }

  /** `max(0.0, d1, d2, ...)` */
  function Peak(ds: seq<real>): (r: real)
    ensures r >= 0.0
    ensures forall i :: 0 <= i < |ds| ==> ds[i] <= r
    ensures r == 0.0 || r in ds
  {
    if ds == [] then 0.0
    else
      var m := Peak(ds[..|ds| - 1]);
      assert forall i :: 0 <= i < |ds| - 1 ==> ds[i] == ds[..|ds| - 1][i];
      if ds[|ds| - 1] > m then ds[|ds| - 1] else m
  }

  /** What `calc_t_closeness` returns. */
  function TClosenessSpec(df: Frame, q: Names, sensitive: Option<string>): Result<real>
  {
    var qi :- Checked(df, q, sensitive, "t-closeness");
    Ok(Peak(Distances(df, qi, sensitive.value)))
  }

  /** t-closeness is a largest half-L1 distance, so it lies in `[0, 1]` and bounds every group's distance. */
  lemma TClosenessWithin(df: Frame, q: Names, sensitive: Option<string>)
    ensures TClosenessSpec(df, q, sensitive).Ok? <==> Checked(df, q, sensitive, "t-closeness").Ok?
    ensures TClosenessSpec(df, q, sensitive).Ok? ==>
      var t := TClosenessSpec(df, q, sensitive).value;
      0.0 <= t <= 1.0 &&
      forall key :: key in GroupKeys(df, q.names) ==>
        Distance(Column(df, sensitive.value), Column(Group(df, q.names, key), sensitive.value)) <= t
  {
    if Checked(df, q, sensitive, "t-closeness").Ok? {
      var qi := q.names;
      var sa := sensitive.value;
      var ds := Distances(df, qi, sa);
      var keys := GroupKeys(df, qi);
      forall i | 0 <= i < |ds| ensures 0.0 <= ds[i] <= 1.0 {
        DistanceWithin(Column(df, sa), Column(Group(df, qi, keys[i]), sa));
      }
      forall key | key in keys
        ensures Distance(Column(df, sa), Column(Group(df, qi, key), sa)) <= Peak(ds)
      {
        var i :| 0 <= i < |keys| && keys[i] == key;
        assert ds[i] == Distance(Column(df, sa), Column(Group(df, qi, key), sa));
      }
    }
  }

  /** `calc_t_closeness`: a loop over the groups keeping the largest distance. */
  method TCloseness(df: Frame, q: Names, sensitive: Option<string>) returns (r: Result<real>)
    ensures r == TClosenessSpec(df, q, sensitive)
  {
    var checked := Checked(df, q, sensitive, "t-closeness");
    if checked.Err? {
      return Err(checked.error);
    }
    var qi := checked.value;
    var sa := sensitive.value;
    var overall := Column(df, sa);
    var keys := GroupKeys(df, qi);
    ghost var ds := Distances(df, qi, sa);
    var maxDistance := 0.0;
    for i := 0 to |keys|
      invariant maxDistance == Peak(ds[..i])
    {
      var distance := GroupDistance(overall, Column(Group(df, qi, keys[i]), sa));
      assert distance == ds[i];
      PeakStep(ds, i);
      if distance > maxDistance {
        maxDistance := distance;
      }
    }
    assert ds[..|keys|] == ds;
    r := Ok(maxDistance);
  }

  lemma PeakStep(ds: seq<real>, i: nat)
    requires i < |ds|
    ensures Peak(ds[..i + 1]) == if ds[i] > Peak(ds[..i]) then ds[i] else Peak(ds[..i])
  {
    assert ds[..i + 1][..i] == ds[..i];
  }

  /** One group's distance: `distance += abs(overall_prob - group_prob)` over all values, halved. */
  method GroupDistance(overall: seq<Cell>, group: seq<Cell>) returns (distance: real)
    ensures distance == Distance(overall, group)
  {
    var vs := AllValues(overall, group);
    distance := 0.0;
    for j := 0 to |vs|
      invariant distance == L1(vs[..j], overall, group)
    {
      assert vs[..j + 1][..j] == vs[..j];
      distance := distance + Stats.Abs(Share(overall, vs[j]) - Share(group, vs[j]));
    }
    assert vs[..|vs|] == vs;
    distance := distance / 2.0;
  }

  // ---------------------------------------------------------------- data minimisation

  const SensitiveKeywords: seq<string> := [
    "age", "gender", "race", "ethnicity", "health", "medical",
    "income", "salary", "phone", "email", "ssn", "id"
  ]

  /** A column whose lower-cased name contains one of the keywords. */
  predicate LooksSensitive(c: string)
  {
    exists k :: k in SensitiveKeywords && Contains(Lower(c), k)
  }

  /** The explicit sensitive columns: a list as given; a text is iterated character by character. */
  function Explicit(s: Names): (r: seq<string>)
    ensures r == [] <==> !Given(s)
  {
    match s
    case NamesList(xs) => xs
    case NamesText(t) => seq(|t|, i requires 0 <= i < |t| => [t[i]])
  }

  /** `max(0.0, min(1.0, x))` */
  function Clamp(x: real): (r: real)
    ensures 0.0 <= r <= 1.0
  {
    if x < 0.0 then 0.0 else if x > 1.0 then 1.0 else x
  }

  /** `calc_data_minimization_score` */
  function DataMinimization(df: Frame, s: Names): (r: Result<real>)
    ensures r.Ok? ==> 0.0 <= r.value <= 1.0
    ensures r.Err? <==> Given(s) && !AllColumns(df, Explicit(s))
    ensures r.Err? ==> r.error.kind == ValueError
    ensures !Given(s) && (forall c :: c in df.columns ==> !LooksSensitive(c)) ==> r == Ok(1.0)
    ensures !Given(s) && (exists c :: c in df.columns && LooksSensitive(c)) ==>
      |df.columns| > 0 && r == Ok(Clamp(1.0 - |Filter(df.columns, LooksSensitive)| as real / |df.columns| as real))
    ensures Given(s) && AllColumns(df, Explicit(s)) ==>
      |df.columns| > 0 && r == Ok(Clamp(1.0 - |Explicit(s)| as real / |df.columns| as real))
  {
    var sensitive := if Given(s) then Explicit(s) else Filter(df.columns, LooksSensitive);
    if sensitive == [] then Ok(1.0)
    else if !AllColumns(df, sensitive) then Fail(ValueError, "Sensitive columns not found")
    else
      assert sensitive[0] in df.columns;
      Ok(Clamp(1.0 - |sensitive| as real / |df.columns| as real))
  }
}
