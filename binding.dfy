/**
 * Data-role binding: turning the names a policy asks for ("target",
 * "gender", "age, race") into the column names of the data frame at hand,
 * through a table of synonyms.
 */
module Binding {

  import opened Wrappers
  import opened Text
  import Ordered
  import Document

  /** Role name to candidate columns, in the order they are tried. */
  type SynonymTable = Ordered.Dict<string, seq<string>>

  /** The built-in synonym table. */
  const ColumnSynonyms: SynonymTable := [
    ("gender", ["sex", "gender", "sexo", "Attribute9"]),
    ("age", ["age", "age_group", "edad", "Attribute13"]),
    ("race", ["race", "ethnicity", "raza"]),
    ("target", ["target", "class", "label", "y", "true_label", "ground_truth", "approved", "default", "outcome"]),
    ("prediction", ["prediction", "pred", "y_pred", "predictions", "score", "proba", "output"]),
    ("dimension", ["sex", "gender", "age", "race", "Attribute9", "Attribute13"])
  ]

  const Missing := "MISSING"

  /** What `resolve_col_names` is given: a comma list, a list or tuple of names, or anything else. */
  datatype ColNames = CommaList(text: string) | Names(names: seq<string>) | Other(value: Document.Value)

  /** The table to use when the caller passes none. */
  function TableOrDefault(synonyms: Option<SynonymTable>): SynonymTable
  {
    if synonyms.Some? then synonyms.value else ColumnSynonyms
  }

  /** The first candidate that is a column. */
  function FirstPresent(cands: seq<string>, cols: seq<string>): (r: Option<string>)
    ensures r.Some? ==> r.value in cands && r.value in cols
    ensures r.None? <==> forall c :: c in cands ==> c !in cols
  {
    if cands == [] then None
    else if cands[0] in cols then Some(cands[0])
    else FirstPresent(cands[1..], cols)
  }

  /** A name that Python treats as a hit: present and not the empty string. */
  predicate Found(f: Option<string>)
  {
    f.Some? && f.value != ""
  }

  /** A synonym group applies to a name that is its key or one of its candidates. */
  predicate Matches(item: string, group: (string, seq<string>))
  {
    item in group.1 || item == group.0
  }

  /**
   * The synonym scan of `resolve_col_names`: each matching group replaces
   * `found` by its first present candidate, and the scan stops at the first
   * group that leaves a non-empty `found`.
   */
  function ScanGroups(item: string, groups: SynonymTable, cols: seq<string>, found: Option<string>): Option<string>
    decreases |groups|
  {
    if groups == [] then found
    else
      var f := if Matches(item, groups[0]) && FirstPresent(groups[0].1, cols).Some?
        then FirstPresent(groups[0].1, cols) else found;
      if Found(f) then f else ScanGroups(item, groups[1..], cols, f)
  }

  /** How one requested name is resolved. */
  function ResolveItem(item: string, cols: seq<string>, synonyms: SynonymTable): string
  {
    if item in cols then item
    else
      var found := ScanGroups(item, synonyms, cols, None);
      if Found(found) then found.value
      else if Lower(item) in cols then Lower(item)
      else item
  }

  /** The names to resolve, or None when the value is returned as it is. */
  function Parts(val: ColNames): Option<seq<string>>
  {
    match val
    case CommaList(text) => Some(CommaParts(text))
    case Names(names) => Some(names)
    case Other(_) => None
  }

  /** Everything the scan can return is a candidate that is a column, or what it started with. */
  lemma {:induction false} ScanGroupsResult(item: string, groups: SynonymTable, cols: seq<string>, found: Option<string>)
    ensures var r := ScanGroups(item, groups, cols, found); r == found || (r.Some? && r.value in cols)
    decreases |groups|
  {
    if groups != [] {
      var f := if Matches(item, groups[0]) && FirstPresent(groups[0].1, cols).Some?
        then FirstPresent(groups[0].1, cols) else found;
      if !Found(f) {
        ScanGroupsResult(item, groups[1..], cols, f);
      }
    }
  }

  /** A resolved name is a column of the frame, or the requested name kept as it was. */
  lemma ResolvedIsColumnOrItem(item: string, cols: seq<string>, synonyms: SynonymTable)
    ensures ResolveItem(item, cols, synonyms) in cols || ResolveItem(item, cols, synonyms) == item
  {
    ScanGroupsResult(item, synonyms, cols, None);
  }

  /** The first group, in table order, that applies to the name and has a candidate among the columns. */
  function FirstSynonym(item: string, groups: SynonymTable, cols: seq<string>): (r: Option<string>)
    ensures r.Some? ==> exists i :: 0 <= i < |groups| && Matches(item, groups[i]) && FirstPresent(groups[i].1, cols) == r
  {
    if groups == [] then None
    else if Matches(item, groups[0]) && FirstPresent(groups[0].1, cols).Some? then
      FirstPresent(groups[0].1, cols)
    else
      var r := FirstSynonym(item, groups[1..], cols);
      if r.Some? then
        var i :| 0 <= i < |groups[1..]| && Matches(item, groups[1..][i]) && FirstPresent(groups[1..][i].1, cols) == r;
        assert groups[i + 1] == groups[1..][i];
        r
      else r
  }

  /**
   * Without an empty-named column the scan is exactly "the first present
   * candidate of the first applicable group that has one".
   */
  lemma {:induction false} ScanIsFirstSynonym(item: string, groups: SynonymTable, cols: seq<string>)
    requires "" !in cols
    ensures ScanGroups(item, groups, cols, None) == FirstSynonym(item, groups, cols)
    decreases |groups|
  {
    if groups != [] {
      if Matches(item, groups[0]) && FirstPresent(groups[0].1, cols).Some? {
        assert Found(FirstPresent(groups[0].1, cols));
      } else {
        ScanIsFirstSynonym(item, groups[1..], cols);
      }
    }
  }

  /** `resolve_col_names(val, data, synonyms)` over the column names `cols`. */
  method ResolveColNames(val: ColNames, cols: seq<string>, synonyms: Option<SynonymTable>) returns (r: ColNames)
    ensures Parts(val).None? ==> r == val
    ensures Parts(val).Some? ==>
      && r.Names?
      && |r.names| == |Parts(val).value|
      && forall i :: 0 <= i < |r.names| ==> r.names[i] == ResolveItem(Parts(val).value[i], cols, TableOrDefault(synonyms))
  {
    var table := TableOrDefault(synonyms);
    var parts: seq<string>;
    match val {
      case CommaList(text) => parts := CommaParts(text);
      case Names(names) => parts := names;
      case Other(_) => return val;
    }
    var resolved: seq<string> := [];
    var i := 0;
    while i < |parts|
      invariant 0 <= i <= |parts|
      invariant |resolved| == i
      invariant forall k :: 0 <= k < i ==> resolved[k] == ResolveItem(parts[k], cols, table)
    {
      var item := parts[i];
      if item in cols {
        resolved := resolved + [item];
        i := i + 1;
        continue;
      }
      var found: Option<string> := None;
      var g := 0;
      while g < |table|
        invariant 0 <= g <= |table|
        invariant !Found(found)
        invariant ScanGroups(item, table, cols, None) == ScanGroups(item, table[g..], cols, found)
      {
        var (key, candList) := table[g];
        assert table[g..][0] == table[g] && table[g..][1..] == table[g + 1..];
        if item in candList || item == key {
          ghost var before := found;
          var c := 0;
          while c < |candList|
            invariant 0 <= c <= |candList|
            invariant FirstPresent(candList, cols) == FirstPresent(candList[c..], cols)
            invariant found == before
          {
            if candList[c] in cols {
              found := Some(candList[c]);
              break;
            }
            c := c + 1;
          }
          assert found == if FirstPresent(candList, cols).Some? then FirstPresent(candList, cols) else before;
          if Found(found) {
            break;
          }
        }
        g := g + 1;
      }
      assert ScanGroups(item, table, cols, None) == found;
      if Found(found) {
        resolved := resolved + [found.value];
      } else if Lower(item) in cols {
        resolved := resolved + [Lower(item)];
      } else {
        resolved := resolved + [item];
      }
      i := i + 1;
    }
    return Names(resolved);
  }

  /** Searching a candidate list twice over finds what one pass finds. */
  lemma {:induction false} DoubledCandidatesHarmless(cands: seq<string>, cols: seq<string>)
    ensures FirstPresent(cands + cands, cols) == FirstPresent(cands, cols)
  {
    FirstPresentAppend(cands, cands, cols);
  }

  lemma {:induction false} FirstPresentAppend(xs: seq<string>, ys: seq<string>, cols: seq<string>)
    ensures FirstPresent(xs + ys, cols) == if FirstPresent(xs, cols).Some? then FirstPresent(xs, cols) else FirstPresent(ys, cols)
  {
    if xs != [] {
      assert (xs + ys)[0] == xs[0];
      assert (xs + ys)[1..] == xs[1..] + ys;
      FirstPresentAppend(xs[1..], ys, cols);
    } else {
      assert xs + ys == ys;
    }
  }

  /** `discover_column(requested, context_mapping, data, synonyms)` over the column names `cols`. */
  function DiscoverColumn(requested: string, mapping: Ordered.Dict<string, string>, cols: seq<string>, synonyms: Option<SynonymTable>): (r: string)
    ensures r == Missing || r in cols || Ordered.Get(mapping, requested) == Some(r)
    ensures Ordered.Get(mapping, requested).Some? && Ordered.Get(mapping, requested).value != "" ==> Ordered.Get(mapping, requested) == Some(r)
    ensures Ordered.GetOr(mapping, requested, "") == "" ==>
      var cands := Ordered.GetOr(TableOrDefault(synonyms), requested, []);
      && (requested in cols ==> r == requested)
      && (requested !in cols && FirstPresent(cands, cols).Some? ==> r == FirstPresent(cands, cols).value)
      && (requested !in cols && FirstPresent(cands, cols).None? ==> r == if Lower(requested) in cols then Lower(requested) else Missing)
    ensures r == Missing && Missing !in cols && Ordered.Get(mapping, requested) != Some(Missing) ==>
      requested !in cols && Lower(requested) !in cols
      && forall c :: c in Ordered.GetOr(TableOrDefault(synonyms), requested, []) ==> c !in cols
  {
    var table := TableOrDefault(synonyms);
    var actual := Ordered.Get(mapping, requested);
    if actual.Some? && actual.value != "" then actual.value
    else if requested in cols then requested
    else
      var cands := Ordered.GetOr(table, requested, []);
      DoubledCandidatesHarmless(cands, cols);
      match FirstPresent(cands + cands, cols)
      case Some(c) => c
      case None =>
        if Lower(requested) in cols then Lower(requested) else Missing
  }

  /** A name that nothing binds comes back as "MISSING". */
  lemma DiscoverFallsThrough(requested: string, mapping: Ordered.Dict<string, string>, cols: seq<string>, synonyms: Option<SynonymTable>)
    requires Ordered.GetOr(mapping, requested, "") == ""
    requires requested !in cols && Lower(requested) !in cols
    requires forall c :: c in Ordered.GetOr(TableOrDefault(synonyms), requested, []) ==> c !in cols
    ensures DiscoverColumn(requested, mapping, cols, synonyms) == Missing
  {
    var cands := Ordered.GetOr(TableOrDefault(synonyms), requested, []);
    DoubledCandidatesHarmless(cands, cols);
  }
}
