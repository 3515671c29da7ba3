/**
 * OSCALPolicyLoader: turns an OSCAL-shaped document (assessment plan,
 * catalog, profile or component definition), or a flat list of control
 * records, into an InternalPolicy whose controls keep document order.
 */
module Loader {

  import opened Wrappers
  import opened Text
  import opened Document
  import opened Models
  import Ordered
  import opened Folds

  /** `float()` on numeric text; the number syntax itself is not modelled. */
  type Parse = string -> Option<real>

  /** Parsed YAML documents by file path (`yaml.safe_load` of each existing file). */
  type Files = map<string, Value>

  /** The props of one inventory item or catalog control, by prop name. */
  type Table = Ordered.Dict<string, Value>

  /** Inventory items by uuid. */
  type Inventory = Ordered.Dict<string, Table>

  const RootKeys: seq<string> := ["assessment-plan", "catalog", "profile", "component-definition"]
  const UnsupportedFormat: string := "Unsupported OSCAL format or missing root element (assessment-plan, catalog, etc.)"
  const InputPrefix: string := "input:"

  datatype Source = FromDict(dict: Ordered.Dict<string, Value>) | FromPath(path: string)

  /** The loader's two fields: exactly one of them is set. */
  datatype PolicyLoader = PolicyLoader(policyDict: Option<Ordered.Dict<string, Value>>, policyPath: Option<string>)

  // ---------------------------------------------------------------- construction

  /** `OSCALPolicyLoader(source)`: a path must name an existing file. */
  function NewLoader(source: Source, files: Files): (r: Result<PolicyLoader>)
    ensures source.FromPath? ==> (r.Err? <==> source.path !in files)
    ensures r.Err? ==> r.error.kind == FileNotFound
    ensures r.Ok? ==> (r.value.policyDict.Some? <==> source.FromDict?)
    ensures r.Ok? ==> (r.value.policyDict.Some? <==> r.value.policyPath.None?)
  {
    match source
    case FromDict(d) => Ok(PolicyLoader(Some(d), None))
    case FromPath(p) =>
      if p in files then Ok(PolicyLoader(None, Some(p)))
      else Fail(FileNotFound, "OSCAL policy not found at: " + p)
  }

  function LastIndexOf(s: string, c: char): (r: Option<nat>)
    ensures r.Some? ==> r.value < |s| && s[r.value] == c && c !in s[r.value + 1..]
    ensures r.None? ==> c !in s
  {
    if s == [] then None
    else if s[|s| - 1] == c then Some(|s| - 1)
    else
      var r := LastIndexOf(s[..|s| - 1], c);
      assert s == s[..|s| - 1] + [s[|s| - 1]];
      r
  }

  /** `Path(p).stem`: the last path component without its final suffix. */
  function Stem(p: string): (r: string)
    ensures '/' !in r
  {
    var name := match LastIndexOf(p, '/') case Some(i) => p[i + 1..] case None => p;
    match LastIndexOf(name, '.')
    case Some(i) => if 0 < i < |name| - 1 then name[..i] else name
    case None => name
  }

  // ---------------------------------------------------------------- prop tables

  /** One prop of `{p['name']: p['value'] for p in props if 'name' in p and 'value' in p}`. */
  function AddProp(t: Table, p: Value): Result<Table>
  {
    var hasName :- Has(p, "name");
    if !hasName then Ok(t)
    else
      var hasValue :- Has(p, "value");
      if !hasValue then Ok(t)
      else
        var name :- Index(p, "name");
        var value :- Index(p, "value");
        var key :- HashKey(name);
        Ok(Ordered.Put(t, key, value))
  }

  function PropsTable(props: Value): Result<Table>
  {
    var ps :- Iter(props);
    Fold(ps, [], AddProp)
  }

  /** `[v for k, v in t.items() if k.startswith("input:")]` */
  function InputVars(t: Table): (r: seq<string>)
    ensures |r| <= |t|
  {
    if t == [] then []
    else (if StartsWith(t[0].0, InputPrefix) then [Str(t[0].1)] else []) + InputVars(t[1..])
  }

  /** `{k.split(":", 1)[1]: v for k, v in t.items() if k.startswith("input:")}` */
  function InputMapping(t: Table): (r: Ordered.Dict<string, string>)
    ensures |r| == |InputVars(t)|
  {
    if t == [] then []
    else (if StartsWith(t[0].0, InputPrefix) then [(t[0].0[|InputPrefix|..], Str(t[0].1))] else []) + InputMapping(t[1..])
  }

  /** The control a table with a `metric_key` prop describes. */
  function TableControl(id: string, description: string, severity: string, m: Table, parse: Parse): (r: Result<InternalControl>)
    requires Ordered.HasKey(m, "metric_key")
    ensures r.Ok? ==> r.value.id == id && r.value.description == description && r.value.severity == severity
    ensures r.Ok? ==> Some(VText(r.value.metricKey)) == Ordered.Get(m, "metric_key") || !Ordered.Get(m, "metric_key").value.VText?
    ensures r.Ok? && !Ordered.HasKey(m, "threshold") ==> r.value.threshold == 0.0
    ensures r.Ok? && !Ordered.HasKey(m, "operator") ==> r.value.operator == "=="
  {
    var threshold :- match Ordered.Get(m, "threshold") case Some(v) => ToFloat(v, parse) case None => Ok(0.0);
    var operator := match Ordered.Get(m, "operator") case Some(v) => Str(v) case None => "==";
    Ok(InternalControl(id, description, severity, Str(Ordered.Get(m, "metric_key").value), threshold,
                       operator, InputVars(m), InputMapping(m)))
  }

  // ---------------------------------------------------------------- inventory

  function AddItem(inv: Inventory, item: Value): Result<Inventory>
  {
    var uuid :- Get(item, "uuid", VNull);
    if !Truthy(uuid) then Ok(inv)
    else
      var props :- Get(item, "props", VList([]));
      var table :- PropsTable(props);
      var key :- HashKey(uuid);
      Ok(Ordered.Put(inv, key, table))
  }

  /** The inventory items: under local-definitions, else at the root of the object. */
  function InventoryItems(obj: Value): (r: Result<Value>)
    ensures r.Ok? ==> obj.VDict?
  {
    var localDefs :- Get(obj, "local-definitions", VDict([]));
    var items :- if localDefs.VDict? then Get(localDefs, "inventory-items", VList([])) else Ok(VList([]));
    if Truthy(items) then Ok(items) else Get(obj, "inventory-items", VList([]))
  }

  function InventoryOf(obj: Value): Result<Inventory>
  {
    var items :- InventoryItems(obj);
    var xs :- Iter(items);
    Fold(xs, [], AddItem)
  }

  /** Builds the uuid-keyed inventory, item by item. */
  method BuildInventory(obj: Value) returns (r: Result<Inventory>)
    ensures r == InventoryOf(obj)
  {
    var items :- InventoryItems(obj);
    var xs :- Iter(items);
    var inv: Inventory := [];
    var i := 0;
    while i < |xs|
      invariant i <= |xs|
      invariant Fold(xs[..i], [], AddItem) == Ok(inv)
    {
      FoldStep(xs, i, [], AddItem);
      var next := AddItem(inv, xs[i]);
      if next.Err? {
        FoldErrSticks(xs, i + 1, [], AddItem);
        return next;
      }
      inv := next.value;
      i := i + 1;
    }
    assert xs[..i] == xs;
    return Ok(inv);
  }

  // ---------------------------------------------------------------- requirements

  /** What the props loop of one implemented requirement collects. */
  datatype ReqProps = ReqProps(
    severity: Value,
    metricKey: Option<Value>,
    threshold: Option<Value>,
    operator: Option<Value>,
    inputMapping: Ordered.Dict<string, string>,
    requiredVars: seq<string>)

  const NoReqProps: ReqProps := ReqProps(VText("low"), None, None, None, [], [])

  function ScanProp(st: ReqProps, p: Value): Result<ReqProps>
  {
    var name :- Get(p, "name", VNull);
    var value :- Get(p, "value", VNull);
    if name == VText("severity") then Ok(st.(severity := value))
    else if name == VText("metric_key") then Ok(st.(metricKey := Some(value)))
    else if name == VText("threshold") then Ok(st.(threshold := Some(value)))
    else if name == VText("operator") then Ok(st.(operator := Some(value)))
    else
      var isInput :- StartsWithText(name, InputPrefix);
      if !isInput then Ok(st)
      else
        // the first ':' of an "input:" name is the one ending the prefix
        var role := name.text[|InputPrefix|..];
        Ok(st.(inputMapping := Ordered.Put(st.inputMapping, role, Str(value)),
               requiredVars := st.requiredVars + [Str(value)]))
  }

  /** The requirement fields every control it yields shares. */
  datatype ReqHead = ReqHead(id: string, description: string, severity: string)

  function Head(controlId: Value, description: Value, severity: Value): ReqHead
  {
    ReqHead(Str(controlId),
            if Truthy(description) then Str(description) else "Control " + Str(controlId),
            Str(severity))
  }

  function DirectControl(h: ReqHead, st: ReqProps, parse: Parse): (r: Result<InternalControl>)
    requires st.metricKey.Some?
    ensures r.Ok? ==> r.value.id == h.id && r.value.description == h.description && r.value.severity == h.severity
    ensures r.Ok? ==> r.value.inputMapping == st.inputMapping && r.value.requiredVars == st.requiredVars
    ensures r.Ok? && st.threshold.None? ==> r.value.threshold == 0.0
    ensures r.Ok? && st.operator.None? ==> r.value.operator == "=="
    ensures st.threshold.None? ==> r.Ok?
  {
    var threshold :- match st.threshold case Some(v) => ToFloat(v, parse) case None => Ok(0.0);
    var operator := match st.operator case Some(v) => Str(v) case None => "==";
    Ok(InternalControl(h.id, h.description, h.severity, Str(st.metricKey.value), threshold, operator,
                       st.requiredVars, st.inputMapping))
  }

  /** The inventory entry a link points at, when its href is a local `#uuid` reference. */
  function LinkTarget(link: Value, inv: Inventory): Result<Option<Table>>
  {
    var href :- Get(link, "href", VText(""));
    var local :- StartsWithText(href, "#");
    if !local then Ok(None) else Ok(Ordered.Get(inv, href.text[1..]))
  }

  predicate HasMetric(target: Option<Table>)
  {
    target.Some? && Ordered.HasKey(target.value, "metric_key")
  }

  function LinkStep(h: ReqHead, inv: Inventory, parse: Parse, acc: seq<InternalControl>, link: Value): Result<seq<InternalControl>>
  {
    var target :- LinkTarget(link, inv);
    if !HasMetric(target) then Ok(acc)
    else
      var c :- TableControl(h.id, h.description, h.severity, target.value, parse);
      Ok(acc + [c])
  }

  function LinkStepFn(h: ReqHead, inv: Inventory, parse: Parse): (seq<InternalControl>, Value) -> Result<seq<InternalControl>>
  {
    (acc, link) => LinkStep(h, inv, parse, acc, link)
  }

  /** The props of a requirement, scanned in order. */
  function RequirementProps(req: Value): Result<ReqProps>
  {
    var props :- Get(req, "props", VList([]));
    var ps :- Iter(props);
    Fold(ps, NoReqProps, ScanProp)
  }

  /** The controls one implemented requirement yields. */
  function RequirementControls(req: Value, inv: Inventory, parse: Parse): Result<seq<InternalControl>>
  {
    var controlId :- Get(req, "control-id", VNull);
    var description :- Get(req, "description", VText(""));
    var st :- RequirementProps(req);
    var h := Head(controlId, description, st.severity);
    if st.metricKey.Some? then
      var c :- DirectControl(h, st, parse);
      Ok([c])
    else
      var links :- Get(req, "links", VList([]));
      var ls :- Iter(links);
      Fold(ls, [], LinkStepFn(h, inv, parse))
  }

  /** `_add_to_policy`: the controls of `req` appended to those already in the policy. */
  method AddToPolicy(controls: seq<InternalControl>, req: Value, inv: Inventory, parse: Parse)
    returns (r: Result<seq<InternalControl>>)
    ensures r == (match RequirementControls(req, inv, parse)
                  case Ok(cs) => Ok(controls + cs)
                  case Err(e) => Err(e))
  {
    var controlId :- Get(req, "control-id", VNull);
    var description :- Get(req, "description", VText(""));
    var props :- Get(req, "props", VList([]));
    var ps :- Iter(props);
    var st := NoReqProps;
    var i := 0;
    while i < |ps|
      invariant i <= |ps|
      invariant Fold(ps[..i], NoReqProps, ScanProp) == Ok(st)
    {
      FoldStep(ps, i, NoReqProps, ScanProp);
      var next := ScanProp(st, ps[i]);
      if next.Err? {
        FoldErrSticks(ps, i + 1, NoReqProps, ScanProp);
        return Err(next.error);
      }
      st := next.value;
      i := i + 1;
    }
    assert ps[..i] == ps;
    var h := Head(controlId, description, st.severity);
    if st.metricKey.Some? {
      var c :- DirectControl(h, st, parse);
      return Ok(controls + [c]);
    }
    var links :- Get(req, "links", VList([]));
    var ls :- Iter(links);
    var step := LinkStepFn(h, inv, parse);
    var found: seq<InternalControl> := [];
    var j := 0;
    while j < |ls|
      invariant j <= |ls|
      invariant Fold(ls[..j], [], step) == Ok(found)
    {
      FoldStep(ls, j, [], step);
      var next := LinkStep(h, inv, parse, found, ls[j]);
      if next.Err? {
        FoldErrSticks(ls, j + 1, [], step);
        return Err(next.error);
      }
      found := next.value;
      j := j + 1;
    }
    assert ls[..j] == ls;
    return Ok(controls + found);
  }

  // ---------------------------------------------------------------- implementations

  /** Implementations under reviewed-controls, then those at the root. */
  function ControlImpls(obj: Value): (r: Result<seq<Value>>)
    ensures r.Ok? ==> obj.VDict?
  {
    var reviewed :- Get(obj, "reviewed-controls", VDict([]));
    var fromReviewed :- if reviewed.VDict? then
                          (var ci :- Get(reviewed, "control-implementations", VList([])); Iter(ci))
                        else Ok([]);
    var rootImpls :- Get(obj, "control-implementations", VList([]));
    Ok(fromReviewed + if rootImpls.VList? then rootImpls.items else [])
  }

  function ReqStep(inv: Inventory, parse: Parse, acc: seq<InternalControl>, req: Value): Result<seq<InternalControl>>
  {
    var cs :- RequirementControls(req, inv, parse);
    Ok(acc + cs)
  }

  function ReqStepFn(inv: Inventory, parse: Parse): (seq<InternalControl>, Value) -> Result<seq<InternalControl>>
  {
    (acc, req) => ReqStep(inv, parse, acc, req)
  }

  function ImplStep(inv: Inventory, parse: Parse, acc: seq<InternalControl>, impl: Value): Result<seq<InternalControl>>
  {
    var reqs :- Get(impl, "implemented-requirements", VList([]));
    var rs :- Iter(reqs);
    Fold(rs, acc, ReqStepFn(inv, parse))
  }

  function ImplStepFn(inv: Inventory, parse: Parse): (seq<InternalControl>, Value) -> Result<seq<InternalControl>>
  {
    (acc, impl) => ImplStep(inv, parse, acc, impl)
  }

  // ---------------------------------------------------------------- catalogs

  /** The control a catalog entry itself yields: one if its props name a metric. */
  function CatalogOwn(control: Value, parse: Parse): (r: Result<seq<InternalControl>>)
    ensures r.Ok? ==> |r.value| <= 1
  {
    var props :- Get(control, "props", VList([]));
    var table :- PropsTable(props);
    if !Ordered.HasKey(table, "metric_key") then Ok([])
    else
      var id :- Get(control, "id", VText("unknown"));
      var fallback :- Get(control, "id", VText(""));
      var title :- Get(control, "title", fallback);
      var severity := Ordered.GetOr(table, "severity", VText("low"));
      var c :- TableControl(Str(id), Str(title), Str(severity), table, parse);
      Ok([c])
  }

  /** `_process_catalog_recursive`: the entry's own control, then its sub-controls', in pre-order. */
  function CatalogControls(control: Value, parse: Parse): Result<seq<InternalControl>>
    decreases control, 1
  {
    match CatalogOwn(control, parse)
    case Err(e) => Err(e)
    case Ok(own) =>
      assert control.VDict?;
      var subs := Ordered.GetOr(control.entries, "controls", VList([]));
      match CatalogChildren(control, subs, parse)
      case Err(e) => Err(e)
      case Ok(rest) => Ok(own + rest)
  }

  /** The sub-controls of an entry. Iterating a mapping or text yields strings, which have no `.get`. */
  function CatalogChildren(ghost parent: Value, subs: Value, parse: Parse): Result<seq<InternalControl>>
    requires parent.VDict? && subs == Ordered.GetOr(parent.entries, "controls", VList([]))
    decreases parent, 0
  {
    match subs
    case VList(items) =>
      if items == [] then Ok([])
      else
        SubValueSmaller(parent.entries, "controls");
        CatalogList(items, |items|, parse)
    case _ =>
      var xs :- Iter(subs);
      if xs == [] then Ok([]) else Fail(AttributeError, "'str' object has no attribute 'get'")
  }

  /** The controls of the first `n` catalog entries, in order. */
  function CatalogList(items: seq<Value>, n: nat, parse: Parse): Result<seq<InternalControl>>
    requires n <= |items|
    decreases VList(items), n
  {
    if n == 0 then Ok([])
    else
      var before :- CatalogList(items, n - 1, parse);
      assert items[n - 1] in items;
      var these :- CatalogControls(items[n - 1], parse);
      Ok(before + these)
  }

  lemma SubValueSmaller(entries: Ordered.Dict<string, Value>, key: string)
    ensures Ordered.HasKey(entries, key) ==> Ordered.GetOr(entries, key, VList([])) < VDict(entries)
  {
    if Ordered.HasKey(entries, key) {
      var v := Ordered.Get(entries, key).value;
      var i :| 0 <= i < |entries| && entries[i] == (key, v);
      assert entries[i] in entries;
    }
  }

  lemma CatalogControlsUnfold(control: Value, parse: Parse)
    requires CatalogOwn(control, parse).Ok?
    ensures control.VDict?
    ensures CatalogControls(control, parse) == 
      (match CatalogChildren(control, Ordered.GetOr(control.entries, "controls", VList([])), parse)
      case Err(e) => Err(e)
      case Ok(rest) => Ok(CatalogOwn(control, parse).value + rest))
  {
  }

  /** What `ProcessCatalog` must return, once the entry's own control is known. */
  lemma CatalogStep(control: Value, controls: seq<InternalControl>, parse: Parse)
    requires CatalogOwn(control, parse).Ok?
    ensures control.VDict?
    ensures (match CatalogControls(control, parse)
             case Ok(cs) => Ok(controls + cs)
             case Err(e) => Err(e)) ==
            (match CatalogChildren(control, Ordered.GetOr(control.entries, "controls", VList([])), parse)
             case Ok(rest) => Ok(controls + CatalogOwn(control, parse).value + rest)
             case Err(e) => Err(e))
  {
    CatalogControlsUnfold(control, parse);
    var own := CatalogOwn(control, parse).value;
    var children := CatalogChildren(control, Ordered.GetOr(control.entries, "controls", VList([])), parse);
    if children.Ok? {
      assert controls + own + children.value == controls + (own + children.value);
    }
  }

  /** Processes one catalog entry and, recursively, its sub-controls. */
  method ProcessCatalog(control: Value, controls: seq<InternalControl>, parse: Parse)
    returns (r: Result<seq<InternalControl>>)
    ensures r == (match CatalogControls(control, parse)
                  case Ok(cs) => Ok(controls + cs)
                  case Err(e) => Err(e))
    decreases control, 1
  {
    var ownOrErr := CatalogOwn(control, parse);
    if ownOrErr.Err? {
      return Err(ownOrErr.error);
    }
    CatalogStep(control, controls, parse);
    var own := ownOrErr.value;
    var subs := Ordered.GetOr(control.entries, "controls", VList([]));
    if !subs.VList? || subs.items == [] {
      var children := CatalogChildren(control, subs, parse);
      return match children case Ok(rest) => Ok(controls + own + rest) case Err(e) => Err(e);
    }
    SubValueSmaller(control.entries, "controls");
    assert CatalogChildren(control, subs, parse) == CatalogList(subs.items, |subs.items|, parse);
    r := AddCatalogEntries(subs.items, controls + own, parse);
  }

  lemma CatalogListStep(items: seq<Value>, i: nat, controls: seq<InternalControl>, parse: Parse)
    requires i < |items| && CatalogList(items, i, parse).Ok?
    ensures (match CatalogList(items, i + 1, parse)
             case Ok(cs) => Ok(controls + cs)
             case Err(e) => Err(e)) ==
            (match CatalogControls(items[i], parse)
             case Ok(cs) => Ok(controls + CatalogList(items, i, parse).value + cs)
             case Err(e) => Err(e))
  {
    var before := CatalogList(items, i, parse).value;
    assert items[i] in items;
    var these := CatalogControls(items[i], parse);
    if these.Ok? {
      assert CatalogList(items, i + 1, parse) == Ok(before + these.value);
      assert controls + (before + these.value) == controls + before + these.value;
    } else {
      assert CatalogList(items, i + 1, parse) == Err(these.error);
    }
  }

  /** The catalog entries of a list processed in order, each appending its controls. */
  method AddCatalogEntries(items: seq<Value>, controls: seq<InternalControl>, parse: Parse)
    returns (r: Result<seq<InternalControl>>)
    ensures r == (match CatalogList(items, |items|, parse)
                  case Ok(cs) => Ok(controls + cs)
                  case Err(e) => Err(e))
    decreases VList(items), 0
  {
    var acc := controls;
    var i := 0;
    while i < |items|
      invariant i <= |items|
      invariant CatalogList(items, i, parse).Ok?
      invariant acc == controls + CatalogList(items, i, parse).value
    {
      assert items[i] in items;
      CatalogListStep(items, i, controls, parse);
      var next := ProcessCatalog(items[i], acc, parse);
      if next.Err? {
        CatalogListErr(items, i + 1, parse);
        return Err(next.error);
      }
      acc := next.value;
      i := i + 1;
    }
    return Ok(acc);
  }

  lemma {:induction false} CatalogListErr(items: seq<Value>, n: nat, parse: Parse)
    requires n <= |items| && CatalogList(items, n, parse).Err?
    ensures CatalogList(items, |items|, parse) == CatalogList(items, n, parse)
    decreases |items| - n
  {
    if n < |items| {
      CatalogListErr(items, n + 1, parse);
    }
  }

  // ---------------------------------------------------------------- generic OSCAL object

  /** `obj.get('metadata', {}).get('title', default)` */
  function PolicyTitle(obj: Value, defaultTitle: string): (r: Result<Value>)
    ensures r.Ok? ==> obj.VDict?
  {
    var meta :- Get(obj, "metadata", VDict([]));
    Get(meta, "title", VText(defaultTitle))
  }

  /** The controls of an OSCAL object: from its implementations, then from its catalog. */
  function PolicyControls(obj: Value, parse: Parse): Result<seq<InternalControl>>
  {
    var inv :- InventoryOf(obj);
    var impls :- ControlImpls(obj);
    var fromImpls :- Fold(impls, [], ImplStepFn(inv, parse));
    var raw :- Get(obj, "controls", VList([]));
    var fromCatalog :- if raw.VList? then CatalogList(raw.items, |raw.items|, parse) else Ok([]);
    Ok(fromImpls + fromCatalog)
  }

  function GenericPolicy(obj: Value, defaultTitle: string, parse: Parse): Result<InternalPolicy>
  {
    var title :- PolicyTitle(obj, defaultTitle);
    var controls :- PolicyControls(obj, parse);
    Ok(InternalPolicy(Str(title), controls))
  }

  /** The requirements of one implementation, each appending its controls. */
  method AddRequirements(controls: seq<InternalControl>, rs: seq<Value>, inv: Inventory, parse: Parse)
    returns (r: Result<seq<InternalControl>>)
    ensures r == Fold(rs, controls, ReqStepFn(inv, parse))
  {
    var step := ReqStepFn(inv, parse);
    var acc := controls;
    var j := 0;
    while j < |rs|
      invariant j <= |rs|
      invariant Fold(rs[..j], controls, step) == Ok(acc)
    {
      FoldStep(rs, j, controls, step);
      var next := AddToPolicy(acc, rs[j], inv, parse);
      if next.Err? {
        FoldErrSticks(rs, j + 1, controls, step);
        return next;
      }
      acc := next.value;
      j := j + 1;
    }
    assert rs[..j] == rs;
    return Ok(acc);
  }

  /** Every implementation's requirements, in order. */
  method AddImplementations(impls: seq<Value>, inv: Inventory, parse: Parse) returns (r: Result<seq<InternalControl>>)
    ensures r == Fold(impls, [], ImplStepFn(inv, parse))
  {
    var step := ImplStepFn(inv, parse);
    var controls: seq<InternalControl> := [];
    var i := 0;
    while i < |impls|
      invariant i <= |impls|
      invariant Fold(impls[..i], [], step) == Ok(controls)
    {
      FoldStep(impls, i, [], step);
      var reqs := Get(impls[i], "implemented-requirements", VList([]));
      var rs := if reqs.Ok? then Iter(reqs.value) else Err(reqs.error);
      var next: Result<seq<InternalControl>> := Err(if rs.Err? then rs.error else Error(ValueError, ""));
      if rs.Ok? {
        next := AddRequirements(controls, rs.value, inv, parse);
      }
      if next.Err? {
        FoldErrSticks(impls, i + 1, [], step);
        return next;
      }
      controls := next.value;
      i := i + 1;
    }
    assert impls[..i] == impls;
    return Ok(controls);
  }

  /** `_parse_generic_oscal`: implementation controls first, then catalog controls. */
  method ParseGenericOscal(obj: Value, defaultTitle: string, parse: Parse) returns (r: Result<InternalPolicy>)
    ensures r == GenericPolicy(obj, defaultTitle, parse)
  {
    var title :- PolicyTitle(obj, defaultTitle);
    var controls :- CollectControls(obj, parse);
    return Ok(InternalPolicy(Str(title), controls));
  }

  method CollectControls(obj: Value, parse: Parse) returns (r: Result<seq<InternalControl>>)
    ensures r == PolicyControls(obj, parse)
  {
    var inv :- BuildInventory(obj);
    var impls :- ControlImpls(obj);
    var controls :- AddImplementations(impls, inv, parse);
    var raw :- Get(obj, "controls", VList([]));
    if !raw.VList? {
      assert controls + [] == controls;
      return Ok(controls);
    }
    r := AddCatalogEntries(raw.items, controls, parse);
  }

  // ---------------------------------------------------------------- flat lists

  const FlatKeys: seq<string> := ["id", "metric_key", "threshold", "operator"]

  /** `all(k in item for k in keys)`, stopping at the first key that is absent. */
  function HasAll(item: Value, keys: seq<string>): (r: Result<bool>)
  {
    if keys == [] then Ok(true)
    else
      var present :- Has(item, keys[0]);
      if !present then Ok(false) else HasAll(item, keys[1..])
  }

  function FlatStep(acc: seq<InternalControl>, item: Value, parse: Parse): Result<seq<InternalControl>>
  {
    var complete :- HasAll(item, FlatKeys);
    if !complete then Ok(acc)
    else
      var id :- Index(item, "id");
      var description :- Get(item, "description", VText(""));
      var severity :- Get(item, "severity", VText("low"));
      var metricKey :- Index(item, "metric_key");
      var rawThreshold :- Index(item, "threshold");
      var threshold :- ToFloat(rawThreshold, parse);
      var operator :- Index(item, "operator");
      Ok(acc + [NewControl(Str(id), Str(description), Str(severity), Str(metricKey), threshold, Str(operator))])
  }

  function FlatStepFn(parse: Parse): (seq<InternalControl>, Value) -> Result<seq<InternalControl>>
  {
    (acc, item) => FlatStep(acc, item, parse)
  }

  function FlatPolicy(items: seq<Value>, parse: Parse): Result<InternalPolicy>
  {
    var controls :- Fold(items, [], FlatStepFn(parse));
    Ok(InternalPolicy("Flat Policy", controls))
  }

  /** `_parse_flat_list`: the complete records of a bare list, in order. */
  method ParseFlatList(items: seq<Value>, parse: Parse) returns (r: Result<InternalPolicy>)
    ensures r == FlatPolicy(items, parse)
  {
    var step := FlatStepFn(parse);
    var controls: seq<InternalControl> := [];
    var i := 0;
    while i < |items|
      invariant i <= |items|
      invariant Fold(items[..i], [], step) == Ok(controls)
    {
      FoldStep(items, i, [], step);
      var next := FlatStep(controls, items[i], parse);
      if next.Err? {
        FoldErrSticks(items, i + 1, [], step);
        return Err(next.error);
      }
      controls := next.value;
      i := i + 1;
    }
    assert items[..i] == items;
    return Ok(InternalPolicy("Flat Policy", controls));
  }

  // ---------------------------------------------------------------- load

  /** The index of the first root key present in the document (`next(... if k in data)`). */
  function SelectRoot(data: Value, keys: seq<string>): (r: Result<Option<nat>>)
    ensures !data.VNull? ==> r.Ok?
    ensures r.Ok? && r.value.Some? ==> r.value.value < |keys| && Has(data, keys[r.value.value]) == Ok(true)
    ensures r.Ok? && r.value.Some? ==> forall j :: 0 <= j < r.value.value ==> Has(data, keys[j]) == Ok(false)
    ensures r.Ok? && r.value.None? ==> forall j :: 0 <= j < |keys| ==> Has(data, keys[j]) == Ok(false)
  {
    if keys == [] then Ok(None)
    else
      var present :- Has(data, keys[0]);
      if present then Ok(Some(0))
      else
        var rest := SelectRoot(data, keys[1..]).value;
        Ok(match rest case Some(i) => Some(i + 1) case None => None)
  }

  /** The document `load` works on: the in-memory dict, or the file's contents with `or {}`. */
  function LoaderData(l: PolicyLoader, files: Files): Result<Value>
    requires l.policyDict.None? ==> l.policyPath.Some?
  {
    match l.policyDict
    case Some(d) => Ok(VDict(d))
    case None =>
      var path := l.policyPath.value;
      if path !in files then Fail(FileNotFound, path)
      else Ok(if Truthy(files[path]) then files[path] else VDict([]))
  }

  function DefaultTitle(l: PolicyLoader): string
  {
    match l.policyPath case Some(p) => Stem(p) case None => "Embedded Policy"
  }

  function LoadPolicy(l: PolicyLoader, files: Files, parse: Parse): Result<InternalPolicy>
    requires l.policyDict.None? ==> l.policyPath.Some?
  {
    var data :- LoaderData(l, files);
    var root :- SelectRoot(data, RootKeys);
    match root
    case Some(k) =>
      var obj :- Index(data, RootKeys[k]);
      GenericPolicy(obj, DefaultTitle(l), parse)
    case None =>
      if data.VList? then FlatPolicy(data.items, parse) else Fail(ValueError, UnsupportedFormat)
  }

  /** `load`: an OSCAL root object, else a flat list, else ValueError. */
  method Load(l: PolicyLoader, files: Files, parse: Parse) returns (r: Result<InternalPolicy>)
    requires l.policyDict.None? ==> l.policyPath.Some?
    ensures r == LoadPolicy(l, files, parse)
  {
    var data :- LoaderData(l, files);
    var root :- SelectRoot(data, RootKeys);
    if root.Some? {
      var obj :- Index(data, RootKeys[root.value]);
      r := ParseGenericOscal(obj, DefaultTitle(l), parse);
    } else if data.VList? {
      r := ParseFlatList(data.items, parse);
    } else {
      r := Fail(ValueError, UnsupportedFormat);
    }
  }

  // ---------------------------------------------------------------- properties

  /** A path that does not exist is refused when the loader is built. */
  lemma MissingFileRefused(path: string, files: Files)
    requires path !in files
    ensures NewLoader(FromPath(path), files) == Fail(FileNotFound, "OSCAL policy not found at: " + path)
  {
  }

  /** A mapping with none of the four root keys is not an OSCAL policy. */
  lemma UnsupportedMapping(d: Ordered.Dict<string, Value>, files: Files, parse: Parse)
    requires forall k :: k in RootKeys ==> !Ordered.HasKey(d, k)
    ensures LoadPolicy(PolicyLoader(Some(d), None), files, parse).Err?
    ensures LoadPolicy(PolicyLoader(Some(d), None), files, parse).error == Error(ValueError, UnsupportedFormat)
  {
  }

  /** Two indices that are each the first present key are the same. */
  lemma FirstPresentUnique(data: Value, keys: seq<string>, k: nat, i: nat)
    requires k < |keys| && i < |keys|
    requires Has(data, keys[k]) == Ok(true) && Has(data, keys[i]) == Ok(true)
    requires forall j :: 0 <= j < k ==> Has(data, keys[j]) == Ok(false)
    requires forall j :: 0 <= j < i ==> Has(data, keys[j]) == Ok(false)
    ensures k == i
  {
  }

  /** The first root key present wins, whatever follows it. */
  lemma FirstRootWins(d: Ordered.Dict<string, Value>, i: nat, files: Files, parse: Parse)
    requires i < |RootKeys| && Ordered.HasKey(d, RootKeys[i])
    requires forall j :: 0 <= j < i ==> !Ordered.HasKey(d, RootKeys[j])
    ensures LoadPolicy(PolicyLoader(Some(d), None), files, parse) ==
            GenericPolicy(Ordered.GetOr(d, RootKeys[i], VNull), "Embedded Policy", parse)
  {
    var l := PolicyLoader(Some(d), None);
    var data := VDict(d);
    assert LoaderData(l, files) == Ok(data);
    var root := SelectRoot(data, RootKeys);
    assert root.Ok?;
    assert Has(data, RootKeys[i]) == Ok(true);
    if root.value.None? {
      assert false;
    }
    var k := root.value.value;
    forall j | 0 <= j < i ensures Has(data, RootKeys[j]) == Ok(false) {
    }
    FirstPresentUnique(data, RootKeys, k, i);
    assert Index(data, RootKeys[i]) == Ok(Ordered.GetOr(d, RootKeys[i], VNull));
    assert DefaultTitle(l) == "Embedded Policy";
  }

  /** A prop named `input:<role>` binds `role` to its value and records the value as a required variable. */
  lemma InputPropBindsRole(st: ReqProps, role: string, v: Value)
    ensures var p := VDict([("name", VText(InputPrefix + role)), ("value", v)]);
            ScanProp(st, p).Ok? &&
            Ordered.Get(ScanProp(st, p).value.inputMapping, role) == Some(Str(v)) &&
            ScanProp(st, p).value.requiredVars == st.requiredVars + [Str(v)] &&
            ScanProp(st, p).value.severity == st.severity &&
            ScanProp(st, p).value.metricKey == st.metricKey
  {
    var name := InputPrefix + role;
    assert StartsWith(name, InputPrefix);
    assert name[|InputPrefix|..] == role;
    assert name != "severity" && name != "metric_key" && name != "threshold" && name != "operator" by {
      assert name[0] == 'i';
      assert "severity"[0] == 's' && "metric_key"[0] == 'm' && "threshold"[0] == 't' && "operator"[0] == 'o';
    }
    ScanInputProp(st, name, v);
    Ordered.GetPutSame(st.inputMapping, role, Str(v));
  }

  lemma ScanInputProp(st: ReqProps, name: string, v: Value)
    requires StartsWith(name, InputPrefix)
    requires name != "severity" && name != "metric_key" && name != "threshold" && name != "operator"
    ensures ScanProp(st, VDict([("name", VText(name)), ("value", v)])) ==
            Ok(st.(inputMapping := Ordered.Put(st.inputMapping, name[|InputPrefix|..], Str(v)),
                   requiredVars := st.requiredVars + [Str(v)]))
  {
    var p := VDict([("name", VText(name)), ("value", v)]);
    assert Get(p, "name", VNull) == Ok(VText(name));
    assert p.entries[1..] == [("value", v)];
    assert "name"[0] != "value"[0];
    assert Ordered.Get(p.entries[1..], "value") == Some(v);
    assert Ordered.Get(p.entries, "value") == Some(v);
    assert Get(p, "value", VNull) == Ok(v);
    assert StartsWithText(VText(name), InputPrefix) == Ok(true);
  }

  /** A requirement with a direct `metric_key` prop yields exactly that one control, whatever its links say. */
  lemma DirectPropsYieldOne(req: Value, inv: Inventory, parse: Parse)
    requires RequirementControls(req, inv, parse).Ok?
    requires RequirementProps(req).Ok? && RequirementProps(req).value.metricKey.Some?
    ensures var cs := RequirementControls(req, inv, parse).value;
            var st := RequirementProps(req).value;
            |cs| == 1 &&
            cs[0].metricKey == Str(st.metricKey.value) &&
            cs[0].severity == Str(st.severity) &&
            cs[0].inputMapping == st.inputMapping && cs[0].requiredVars == st.requiredVars &&
            (st.threshold.None? ==> cs[0].threshold == 0.0) &&
            (st.operator.None? ==> cs[0].operator == "==")
  {
  }

  /** The links of a requirement that point at an inventory item with a `metric_key`. */
  function MetricLinks(ls: seq<Value>, inv: Inventory): nat
  {
    if ls == [] then 0
    else
      var t := LinkTarget(ls[|ls| - 1], inv);
      MetricLinks(ls[..|ls| - 1], inv) + if t.Ok? && HasMetric(t.value) then 1 else 0
  }

  /** Link hunting yields one control per link to a metric, each carrying the requirement's id, text and severity. */
  lemma {:induction false} LinkControlsCount(h: ReqHead, inv: Inventory, parse: Parse, ls: seq<Value>, acc: seq<InternalControl>)
    requires Fold(ls, acc, LinkStepFn(h, inv, parse)).Ok?
    ensures var cs := Fold(ls, acc, LinkStepFn(h, inv, parse)).value;
            |cs| == |acc| + MetricLinks(ls, inv) && cs[..|acc|] == acc &&
            forall k :: |acc| <= k < |cs| ==>
              cs[k].id == h.id && cs[k].description == h.description && cs[k].severity == h.severity
    decreases |ls|
  {
    if ls != [] {
      var n := |ls| - 1;
      var step := LinkStepFn(h, inv, parse);
      LinkControlsCount(h, inv, parse, ls[..n], acc);
    }
  }

  /** `HasAll` is `all(k in item for k in keys)` on a mapping. */
  lemma {:induction false} HasAllOnDict(es: Ordered.Dict<string, Value>, keys: seq<string>)
    ensures HasAll(VDict(es), keys) == Ok(forall k :: k in keys ==> Ordered.HasKey(es, k))
  {
    if keys != [] {
      HasAllOnDict(es, keys[1..]);
      assert forall k :: k in keys ==> k == keys[0] || k in keys[1..];
    }
  }

  /** The records of a flat list that carry id, metric_key, threshold and operator. */
  function CompleteRecords(items: seq<Value>): nat
  {
    if items == [] then 0
    else CompleteRecords(items[..|items| - 1]) + if HasAll(items[|items| - 1], FlatKeys) == Ok(true) then 1 else 0
  }

  lemma FlatStepShape(acc: seq<InternalControl>, item: Value, parse: Parse)
    requires FlatStep(acc, item, parse).Ok?
    ensures var cs := FlatStep(acc, item, parse).value;
            |cs| == |acc| + (if HasAll(item, FlatKeys) == Ok(true) then 1 else 0) &&
            cs[..|acc|] == acc &&
            forall k :: |acc| <= k < |cs| ==> cs[k].requiredVars == [] && cs[k].inputMapping == []
  {
  }

  /** A flat list keeps exactly its complete records, in order, each with no inputs. */
  lemma {:induction false} FlatKeepsComplete(items: seq<Value>, acc: seq<InternalControl>, parse: Parse)
    requires Fold(items, acc, FlatStepFn(parse)).Ok?
    ensures var cs := Fold(items, acc, FlatStepFn(parse)).value;
            |cs| == |acc| + CompleteRecords(items) && cs[..|acc|] == acc &&
            forall k :: |acc| <= k < |cs| ==> cs[k].requiredVars == [] && cs[k].inputMapping == []
    decreases |items|
  {
    if items != [] {
      var n := |items| - 1;
      var step := FlatStepFn(parse);
      FlatKeepsComplete(items[..n], acc, parse);
      var before := Fold(items[..n], acc, step).value;
      FlatStepShape(before, items[n], parse);
    }
  }

  /** A flat policy is titled "Flat Policy" and holds one control per complete record. */
  lemma FlatPolicyShape(items: seq<Value>, parse: Parse)
    requires FlatPolicy(items, parse).Ok?
    ensures FlatPolicy(items, parse).value.title == "Flat Policy"
    ensures |FlatPolicy(items, parse).value.controls| == CompleteRecords(items)
  {
    FlatKeepsComplete(items, [], parse);
  }
}
