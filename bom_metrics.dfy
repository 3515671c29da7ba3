/**
 * dashboard/components/metrics.py: `parse_bom_metrics`, the summary of a
 * CycloneDX bill of materials read as JSON: the component count, the
 * machine-learning models and libraries, and the number of distinct
 * licences. Python's failures on a malformed document (a `.get` on a value
 * that is not a dictionary, iterating over nothing, an unhashable licence
 * id) are modelled as errors. Loading the cached results file is left out.
 */
module BomMetrics {

  import opened Wrappers
  import opened Models
  import opened Counting
  import Ordered

  /** Python truthiness of a JSON value. */
  predicate Falsy(d: Datum)
  {
    match d
    case DNull => true
    case DNum(x) => x == 0.0
    case DText(s) => s == []
    case DList(xs) => xs == []
    case DMap(m) => m == []
  }

  /** `d.get(k, default)` on a dictionary. */
  function GetOr(m: Ordered.Dict<string, Datum>, k: string, default: Datum): (r: Datum)
    ensures Ordered.HasKey(m, k) ==> r == Ordered.Get(m, k).value
    ensures !Ordered.HasKey(m, k) ==> r == default
  {
    match Ordered.Get(m, k)
    case Some(v) => v
    case None => default
  }

  /** Iterating a JSON value: a list's items, a text's characters, a dictionary's keys; else a TypeError. */
  function Items(d: Datum): (r: Result<seq<Datum>>)
    ensures r.Err? <==> d.DNull? || d.DNum?
    ensures r.Err? ==> r.error.kind == TypeError
    ensures d.DList? ==> r == Ok(d.items)
  {
    match d
    case DList(xs) => Ok(xs)
    case DText(s) => Ok(seq(|s|, i requires 0 <= i < |s| => DText([s[i]])))
    case DMap(m) => Ok(seq(|m|, i requires 0 <= i < |m| => DText(m[i].0)))
    case _ => Fail(TypeError, "object is not iterable")
  }

  /** `c.get('type') == kind`, for a component that is a dictionary. */
  predicate HasType(c: Datum, kind: string)
  {
    c.DMap? && Ordered.Get(c.entries, "type") == Some(DText(kind))
  }

  function IsModel(c: Datum): bool
  {
    HasType(c, "machine-learning-model")
  }

  function IsLibrary(c: Datum): bool
  {
    HasType(c, "library")
  }

  /** A value a Python set can hold. */
  predicate Hashable(d: Datum)
  {
    !d.DList? && !d.DMap?
  }

  /**
   * What one licence entry adds: a dictionary with a `license` entry gives
   * that entry's `id` (or "Unknown"), a text gives itself, anything else
   * nothing.
   */
  function LicenceOf(lic: Datum): (r: Result<Option<Datum>>)
    ensures lic.DText? ==> r == Ok(Some(lic))
    ensures !lic.DText? && !(lic.DMap? && Ordered.HasKey(lic.entries, "license")) ==> r == Ok(None)
    ensures r.Ok? && r.value.Some? ==> Hashable(r.value.value)
  {
    match lic
    case DMap(m) =>
      if Ordered.HasKey(m, "license") then
        match Ordered.Get(m, "license").value
        case DMap(inner) =>
          var id := GetOr(inner, "id", DText("Unknown"));
          if Hashable(id) then Ok(Some(id)) else Fail(TypeError, "unhashable type")
        case _ => Fail(AttributeError, "object has no attribute 'get'")
      else Ok(None)
    case DText(_) => Ok(Some(lic))
    case _ => Ok(None)
  }

  /** The licences of one component's list, in order; the first failure stops it. */
  function LicencesOfList(lics: seq<Datum>): Result<set<Datum>>
  {
    if lics == [] then Ok({})
    else
      var here :- LicenceOf(lics[0]);
      var rest :- LicencesOfList(lics[1..]);
      Ok((if here.Some? then {here.value} else {}) + rest)
  }

  /** `c.get('licenses', [])`, iterated. */
  function ComponentLicences(c: Datum): Result<set<Datum>>
    requires c.DMap?
  {
    var lics :- Items(GetOr(c.entries, "licenses", DList([])));
    LicencesOfList(lics)
  }

  /** The licence set over all components, in order. */
  function LicenceSet(cs: seq<Datum>): Result<set<Datum>>
    requires forall i :: 0 <= i < |cs| ==> cs[i].DMap?
  {
    if cs == [] then Ok({})
    else
      var here :- ComponentLicences(cs[0]);
      var rest :- LicenceSet(cs[1..]);
      Ok(here + rest)
  }

  /** The summary `parse_bom_metrics` returns: the metrics, the models, the libraries. */
  datatype Summary = Summary(metrics: Ordered.Dict<string, nat>, models: seq<Datum>, libs: seq<Datum>)

  function MetricsOf(total: nat, models: nat, licences: nat): (r: Ordered.Dict<string, nat>)
    ensures Ordered.Keys(r) == ["total", "models", "licenses"]
  {
    [("total", total), ("models", models), ("licenses", licences)]
  }

  /** `parse_bom_metrics(bom)` */
  function ParseBomMetrics(bom: Datum): (r: Result<Summary>)
    ensures Falsy(bom) ==> r == Ok(Summary([], [], []))
    ensures !Falsy(bom) && !bom.DMap? ==> r.Err? && r.error.kind == AttributeError
  {
    if Falsy(bom) then Ok(Summary([], [], []))
    else if !bom.DMap? then Fail(AttributeError, "object has no attribute 'get'")
    else
      var components :- Items(GetOr(bom.entries, "components", DList([])));
      if exists i :: 0 <= i < |components| && !components[i].DMap? then Fail(AttributeError, "object has no attribute 'get'")
      else
        var models := Filter(components, IsModel);
        var libs := Filter(components, IsLibrary);
        var licences :- LicenceSet(components);
        Ok(Summary(MetricsOf(|components|, |models|, |licences|), models, libs))
  }

  /** The licence loop: every component's licences in turn, added to one set. */
  method CollectLicences(cs: seq<Datum>) returns (r: Result<set<Datum>>)
    requires forall i :: 0 <= i < |cs| ==> cs[i].DMap?
    ensures r == LicenceSet(cs)
  {
    var licences: set<Datum> := {};
    var i := 0;
    assert cs[0..] == cs;
    JoinedEmpty(LicenceSet(cs));
    while i < |cs|
      invariant 0 <= i <= |cs|
      invariant LicenceSet(cs) == Joined(licences, LicenceSet(cs[i..]))
    {
      assert cs[i..][0] == cs[i] && cs[i..][1..] == cs[i + 1..];
      var lics :- Items(GetOr(cs[i].entries, "licenses", DList([])));
      var here := CollectList(lics);
      if here.Err? {
        return Err(here.error);
      }
      JoinedAssoc(licences, here.value, LicenceSet(cs[i + 1..]));
      licences := licences + here.value;
      i := i + 1;
    }
    return Ok(licences);
  }

  /** One component's licence entries in turn. */
  method CollectList(lics: seq<Datum>) returns (r: Result<set<Datum>>)
    ensures r == LicencesOfList(lics)
  {
    var licences: set<Datum> := {};
    var i := 0;
    assert lics[0..] == lics;
    JoinedEmpty(LicencesOfList(lics));
    while i < |lics|
      invariant 0 <= i <= |lics|
      invariant LicencesOfList(lics) == Joined(licences, LicencesOfList(lics[i..]))
    {
      assert lics[i..][0] == lics[i] && lics[i..][1..] == lics[i + 1..];
      var lic := LicenceOf(lics[i]);
      if lic.Err? {
        return Err(lic.error);
      }
      var here: set<Datum> := if lic.value.Some? then {lic.value.value} else {};
      JoinedAssoc(licences, here, LicencesOfList(lics[i + 1..]));
      licences := licences + here;
      i := i + 1;
    }
    return Ok(licences);
  }

  /** A set gathered so far joined with what the rest gives, or the rest's failure. */
  function Joined(acc: set<Datum>, rest: Result<set<Datum>>): Result<set<Datum>>
  {
    match rest
    case Ok(s) => Ok(acc + s)
    case Err(e) => Err(e)
  }

  lemma JoinedAssoc(a: set<Datum>, b: set<Datum>, rest: Result<set<Datum>>)
    ensures Joined(a, Joined(b, rest)) == Joined(a + b, rest)
  {
    if rest.Ok? {
      assert a + (b + rest.value) == (a + b) + rest.value;
    }
  }

  lemma JoinedEmpty(rest: Result<set<Datum>>)
    ensures Joined({}, rest) == rest
  {
    if rest.Ok? {
      assert {} + rest.value == rest.value;
    }
  }

  /**
   * A well-formed summary: the metrics count every component, the models
   * and the libraries exactly, and the distinct licences; no component is
   * both a model and a library.
   */
  lemma SummaryCounts(bom: Datum)
    requires ParseBomMetrics(bom).Ok? && !Falsy(bom)
    ensures var s := ParseBomMetrics(bom).value;
      var components := Items(GetOr(bom.entries, "components", DList([]))).value;
      && s.metrics == MetricsOf(|components|, |s.models|, |LicenceSet(components).value|)
      && (forall c :: c in s.models <==> c in components && IsModel(c))
      && (forall c :: c in s.libs <==> c in components && IsLibrary(c))
      && |s.models| + |s.libs| <= |components|
  {
    var components := Items(GetOr(bom.entries, "components", DList([]))).value;
    var models, libs := Filter(components, IsModel), Filter(components, IsLibrary);
    assert forall i :: 0 <= i < |components| ==> components[i].DMap?;
    var licences := LicenceSet(components);
    assert licences.Ok?;
    assert ParseBomMetrics(bom) == Ok(Summary(MetricsOf(|components|, |models|, |licences.value|), models, libs));
    var either := (c: Datum) => IsModel(c) || IsLibrary(c);
    FilterSplit(components, IsModel, IsLibrary, either);
    assert |Filter(components, either)| <= |components|;
  }

  /**
   * The licences counted are exactly the texts listed and the ids of the
   * licence dictionaries ("Unknown" without one), over all components.
   */
  lemma {:induction false} LicenceSetMembers(cs: seq<Datum>, d: Datum)
    requires forall i :: 0 <= i < |cs| ==> cs[i].DMap?
    requires LicenceSet(cs).Ok?
    ensures d in LicenceSet(cs).value <==>
      exists i :: 0 <= i < |cs| && ComponentLicences(cs[i]).Ok? && d in ComponentLicences(cs[i]).value
  {
    if cs != [] {
      LicenceSetMembers(cs[1..], d);
      assert forall i :: 1 <= i < |cs| ==> cs[1..][i - 1] == cs[i];
      if d in LicenceSet(cs[1..]).value {
        var i :| 0 <= i < |cs[1..]| && ComponentLicences(cs[1..][i]).Ok? && d in ComponentLicences(cs[1..][i]).value;
        assert d in ComponentLicences(cs[i + 1]).value;
      }
    }
  }

  /** Each licence of a list is what one of its entries gives. */
  lemma {:induction false} LicencesOfListMembers(lics: seq<Datum>, d: Datum)
    requires LicencesOfList(lics).Ok?
    ensures d in LicencesOfList(lics).value <==>
      exists i :: 0 <= i < |lics| && LicenceOf(lics[i]) == Ok(Some(d))
  {
    if lics != [] {
      LicencesOfListMembers(lics[1..], d);
      assert forall i :: 1 <= i < |lics| ==> lics[1..][i - 1] == lics[i];
      if d in LicencesOfList(lics[1..]).value {
        var i :| 0 <= i < |lics[1..]| && LicenceOf(lics[1..][i]) == Ok(Some(d));
        assert LicenceOf(lics[i + 1]) == Ok(Some(d));
      }
    }
  }
}
