/**
 * `enforce` of api.py: the policy argument normalised to a list, the role
 * mapping built from the data's columns, every policy run in order with
 * missing files skipped and other errors raised or swallowed by `strict`,
 * the results concatenated, and the normalisation of previously cached
 * results before the new ones are appended to them.
 */
module Api {

  import opened Wrappers
  import opened Roles
  import opened Models
  import opened Folds
  import Ordered
  import Binding
  import Loader
  import Document
  import Registry
  import Core

  /** `policy`: one policy, or a list of them. */
  datatype PolicyArg = One(source: Core.PolicySource) | Many(sources: seq<Core.PolicySource>)

  /** `[policy] if not isinstance(policy, list) else policy` */
  function Policies(arg: PolicyArg): seq<Core.PolicySource>
  {
    match arg
    case One(p) => [p]
    case Many(ps) => ps
  }

  /** What the call sees of its surroundings: policy storage, files, float parsing, the environment and the metric registry. */
  datatype World = World(
    storage: string -> Result<InternalPolicy>,
    files: Loader.Files,
    parse: Loader.Parse,
    env: Core.Env,
    registry: map<string, Registry.MetricFn>)

  /** The arguments of `enforce` other than the policy. */
  datatype Request = Request(
    data: Option<Core.Data>,
    metrics: Option<Ordered.Dict<string, real>>,
    target: string,
    prediction: string,
    strict: bool,
    attributes: Kwargs)

  // ---------------------------------------------------------------- role mapping

  /** The column for `target` or `prediction`: the given name when it is a column, else a discovered column. */
  function RoleFor(role: string, given: string, cols: seq<string>): (r: Option<string>)
    ensures given != "" && given in cols ==> r == Some(given)
    ensures r.Some? ==> r.value in cols
    ensures !(given != "" && given in cols) ==>
      (r.None? <==> Binding.DiscoverColumn(role, [], cols, Some(Binding.ColumnSynonyms)) == Missing) &&
      (r.Some? ==> r.value == Binding.DiscoverColumn(role, [], cols, Some(Binding.ColumnSynonyms)))
  {
    if given != "" && given in cols then Some(given)
    else
      var found := Binding.DiscoverColumn(role, [], cols, Some(Binding.ColumnSynonyms));
      if found != Missing then Some(found) else None
  }

  /** The mapping handed to `compute_and_evaluate`: the two discovered roles, then the caller's attributes. */
  function RoleMapping(cols: seq<string>, target: string, prediction: string, attributes: Kwargs): Kwargs
  {
    var withTarget := match RoleFor("target", target, cols)
      case Some(c) => [("target", c)]
      case None => [];
    var withPrediction := match RoleFor("prediction", prediction, cols)
      case Some(c) => Ordered.Put(withTarget, "prediction", c)
      case None => withTarget;
    Ordered.Update(withPrediction, attributes)
  }

  /** The caller's attributes override; otherwise `target` and `prediction` read their resolved columns and nothing else is set. */
  lemma MappingRoles(cols: seq<string>, target: string, prediction: string, attributes: Kwargs, k: string)
    requires Ordered.Distinct(attributes)
    ensures Arg(RoleMapping(cols, target, prediction, attributes), k) ==
      if Ordered.HasKey(attributes, k) then Arg(attributes, k)
      else if k == "target" then RoleFor("target", target, cols)
      else if k == "prediction" then RoleFor("prediction", prediction, cols)
      else None
  {
    var withTarget := match RoleFor("target", target, cols)
      case Some(c) => [("target", c)]
      case None => [];
    var withPrediction := match RoleFor("prediction", prediction, cols)
      case Some(c) => Ordered.Put(withTarget, "prediction", c)
      case None => withTarget;
    Ordered.UpdateOverrides(withPrediction, attributes, k);
    match RoleFor("prediction", prediction, cols)
    case Some(c) =>
      if k == "prediction" {
        Ordered.GetPutSame(withTarget, "prediction", c);
      } else {
        Ordered.GetPutOther(withTarget, "prediction", c, k);
      }
    case None =>
  }

  // ---------------------------------------------------------------- one policy

  /** The results of one policy, or what it raises. */
  function RunPolicy(source: Core.PolicySource, req: Request, world: World): Result<seq<ComplianceResult>>
  {
    var v :- Core.NewValidator(source, world.storage, world.files, world.parse, false, world.env);
    match req.data
    case Some(d) =>
      if d.NotAFrame? then Fail(AttributeError, "object has no attribute 'columns'")
      else
        var mapping := RoleMapping(d.frame.columns, req.target, req.prediction, req.attributes);
        Core.ComputeSpec(v, d, mapping, Some(req.strict), world.registry)
    case None =>
      if req.metrics.Some? then Ok(Core.EvaluateSpec(v.policy.controls, req.metrics.value)) else Ok([])
  }

  /** Data takes precedence over metrics; with neither, a policy that loads contributes nothing. */
  lemma DataPrecedence(source: Core.PolicySource, req: Request, world: World)
    ensures req.data.Some? ==> RunPolicy(source, req, world) == RunPolicy(source, req.(metrics := None), world)
    ensures req.data.None? && req.metrics.None? ==>
      RunPolicy(source, req, world) ==
        (match Core.NewValidator(source, world.storage, world.files, world.parse, false, world.env)
         case Ok(_) => Ok([])
         case Err(e) => Err(e))
  {
  }

  /** A missing policy file is skipped whatever `strict` says; any other error is raised only when strict. */
  predicate Skipped(e: Error, strict: bool)
  {
    e.kind == FileNotFound || !strict
  }

  /** A policy runner: what one policy returns or raises. */
  type Runner = Core.PolicySource -> Result<seq<ComplianceResult>>

  function RunFn(req: Request, world: World): Runner
  {
    p => RunPolicy(p, req, world)
  }

  /** One turn of the policy loop. */
  function PolicyStep(run: Runner, strict: bool): (seq<ComplianceResult>, Core.PolicySource) -> Result<seq<ComplianceResult>>
  {
    (acc: seq<ComplianceResult>, p: Core.PolicySource) =>
      match run(p)
      case Ok(rs) => Ok(acc + rs)
      case Err(e) => if Skipped(e, strict) then Ok(acc) else Err(e)
  }

  /** What `enforce` returns or raises. */
  function EnforceSpec(arg: PolicyArg, req: Request, world: World): Result<seq<ComplianceResult>>
  {
    Fold(Policies(arg), [], PolicyStep(RunFn(req, world), req.strict))
  }

  /** The concatenation, in list order, of the results of the policies that run. */
  function Collected(ps: seq<Core.PolicySource>, run: Runner): seq<ComplianceResult>
  {
    if ps == [] then []
    else
      var prev := Collected(ps[..|ps| - 1], run);
      match run(ps[|ps| - 1])
      case Ok(rs) => prev + rs
      case Err(_) => prev
  }

  /** Collecting over two lists of policies is collecting over each, one after the other. */
  lemma {:induction false} CollectedAppend(ps: seq<Core.PolicySource>, qs: seq<Core.PolicySource>, run: Runner)
    ensures Collected(ps + qs, run) == Collected(ps, run) + Collected(qs, run)
    decreases |qs|
  {
    if qs != [] {
      var all := ps + qs;
      assert all[..|all| - 1] == ps + qs[..|qs| - 1];
      assert all[|all| - 1] == qs[|qs| - 1];
      CollectedAppend(ps, qs[..|qs| - 1], run);
    } else {
      assert ps + qs == ps;
    }
  }

  /** In lenient mode the loop never raises and returns the results of every policy that runs, in order. */
  lemma {:induction false} LenientLoop(ps: seq<Core.PolicySource>, run: Runner)
    ensures Fold(ps, [], PolicyStep(run, false)) == Ok(Collected(ps, run))
  {
    if ps != [] {
      LenientLoop(ps[..|ps| - 1], run);
    }
  }

  /** In strict mode the loop raises exactly when some policy fails other than by a missing file, and otherwise collects everything. */
  lemma {:induction false} StrictLoop(ps: seq<Core.PolicySource>, run: Runner)
    ensures Fold(ps, [], PolicyStep(run, true)).Ok? <==>
      forall i :: 0 <= i < |ps| ==> run(ps[i]).Ok? || run(ps[i]).error.kind == FileNotFound
    ensures Fold(ps, [], PolicyStep(run, true)).Ok? ==> Fold(ps, [], PolicyStep(run, true)).value == Collected(ps, run)
  {
    if ps != [] {
      var init := ps[..|ps| - 1];
      StrictLoop(init, run);
      assert forall i :: 0 <= i < |init| ==> init[i] == ps[i];
    }
  }

  /** In lenient mode `enforce` never raises and returns the results of every policy that runs, in list order. */
  lemma LenientConcatenates(ps: seq<Core.PolicySource>, req: Request, world: World)
    requires !req.strict
    ensures EnforceSpec(Many(ps), req, world) == Ok(Collected(ps, RunFn(req, world)))
  {
    LenientLoop(ps, RunFn(req, world));
  }

  /** In strict mode `enforce` raises exactly when some policy fails other than by a missing file. */
  lemma StrictRaises(ps: seq<Core.PolicySource>, req: Request, world: World)
    requires req.strict
    ensures EnforceSpec(Many(ps), req, world).Ok? <==>
      forall i :: 0 <= i < |ps| ==> RunPolicy(ps[i], req, world).Ok? || RunPolicy(ps[i], req, world).error.kind == FileNotFound
    ensures EnforceSpec(Many(ps), req, world).Ok? ==> EnforceSpec(Many(ps), req, world).value == Collected(ps, RunFn(req, world))
  {
    StrictLoop(ps, RunFn(req, world));
  }

  /** A policy whose file is missing changes nothing, even in strict mode. */
  lemma MissingFileSkipped(ps: seq<Core.PolicySource>, p: Core.PolicySource, qs: seq<Core.PolicySource>, run: Runner, strict: bool)
    requires run(p).Err? && run(p).error.kind == FileNotFound
    ensures Fold(ps + [p] + qs, [], PolicyStep(run, strict)) == Fold(ps + qs, [], PolicyStep(run, strict))
  {
    var step := PolicyStep(run, strict);
    FoldAppend(ps + [p], qs, [], step);
    FoldAppend(ps, [p], [], step);
    FoldAppend(ps, qs, [], step);
    match Fold(ps, [], step)
    case Ok(acc) =>
      assert [p][..0] == [];
      assert Fold([p], acc, step) == Ok(acc);
    case Err(_) =>
  }

  /** A single policy is run as a one-element list, and its results are returned as they are. */
  lemma SinglePolicy(p: Core.PolicySource, req: Request, world: World)
    ensures EnforceSpec(One(p), req, world) == EnforceSpec(Many([p]), req, world)
    ensures RunPolicy(p, req, world).Ok? ==> EnforceSpec(One(p), req, world) == RunPolicy(p, req, world)
  {
    SingleLoop(p, RunFn(req, world), req.strict);
  }

  lemma SingleLoop(p: Core.PolicySource, run: Runner, strict: bool)
    ensures run(p).Ok? ==> Fold([p], [], PolicyStep(run, strict)) == run(p)
  {
    assert [p][..0] == [];
    if run(p).Ok? {
      assert [] + run(p).value == run(p).value;
    }
  }

  // ---------------------------------------------------------------- the call

  /** The module-level state `enforce` touches. */
  class Session {
    /** `_SESSION_ENFORCED` */
    var enforced: bool

    constructor ()
      ensures !enforced
    {
      enforced := false;
    }

    /** `enforce(data, metrics, policy, target, prediction, strict, **attributes)`, caching left out. */
    method Enforce(arg: PolicyArg, req: Request, world: World) returns (r: Result<seq<ComplianceResult>>)
      modifies this
      ensures enforced
      ensures r == EnforceSpec(arg, req, world)
    {
      enforced := true;
      r := RunAll(Policies(arg), req, world);
    }
  }

  /** The policy loop of `enforce`. */
  method RunAll(policies: seq<Core.PolicySource>, req: Request, world: World) returns (r: Result<seq<ComplianceResult>>)
    ensures r == Fold(policies, [], PolicyStep(RunFn(req, world), req.strict))
  {
    ghost var run := RunFn(req, world);
    var all: seq<ComplianceResult> := [];
    var i := 0;
    while i < |policies|
      invariant 0 <= i <= |policies|
      invariant Fold(policies[..i], [], PolicyStep(run, req.strict)) == Ok(all)
    {
      var outcome := RunOne(policies[i], req, world);
      StepOutcome(policies, i, all, run, req.strict, outcome);
      if outcome.Ok? {
        all := all + outcome.value;
      } else if !Skipped(outcome.error, req.strict) {
        FoldErrSticks(policies, i + 1, [], PolicyStep(run, req.strict));
        return Err(outcome.error);
      }
      i := i + 1;
    }
    assert policies[..i] == policies;
    r := Ok(all);
  }

  /** One turn of the loop, in terms of the runner's outcome. */
  lemma StepOutcome(ps: seq<Core.PolicySource>, i: nat, all: seq<ComplianceResult>, run: Runner, strict: bool,
                    outcome: Result<seq<ComplianceResult>>)
    requires i < |ps| && Fold(ps[..i], [], PolicyStep(run, strict)) == Ok(all) && outcome == run(ps[i])
    ensures Fold(ps[..i + 1], [], PolicyStep(run, strict)) ==
      match outcome
      case Ok(rs) => Ok(all + rs)
      case Err(e) => if Skipped(e, strict) then Ok(all) else Err(e)
  {
    FoldStep(ps, i, [], PolicyStep(run, strict));
  }

  /** The body of the `try` for one policy. */
  method RunOne(source: Core.PolicySource, req: Request, world: World) returns (r: Result<seq<ComplianceResult>>)
    ensures r == RunPolicy(source, req, world) && r == RunFn(req, world)(source)
  {
    var loaded := Core.NewValidator(source, world.storage, world.files, world.parse, false, world.env);
    if loaded.Err? {
      return Err(loaded.error);
    }
    var v := loaded.value;
    r := Ok([]);
    if req.data.Some? {
      var d := req.data.value;
      if d.NotAFrame? {
        return Fail(AttributeError, "object has no attribute 'columns'");
      }
      var mapping := RoleMapping(d.frame.columns, req.target, req.prediction, req.attributes);
      r := Core.ComputeAndEvaluate(v, d, mapping, Some(req.strict), world.registry);
    } else if req.metrics.Some? {
      var results := Core.Evaluate(v, req.metrics.value);
      r := Ok(results);
    }
  }

  // ---------------------------------------------------------------- cached results

  /** The items of every list value of a cached dictionary, in key order. */
  function Flattened(entries: Ordered.Dict<string, Document.Value>): (r: seq<Document.Value>)
  {
    if entries == [] then []
    else
      var prev := Flattened(entries[..|entries| - 1]);
      match entries[|entries| - 1].1
      case VList(items) => prev + items
      case _ => prev
  }

  /** The cached content as a list: a bundle's `metrics`, else its `post_metrics`, else its flattened list values; anything else as read. */
  function Normalised(existing: Document.Value): (r: Document.Value)
    ensures existing.VDict? ==> r.VList?
    ensures !existing.VDict? ==> r == existing
    ensures existing.VDict? && Ordered.GetOr(existing.entries, "metrics", Document.VNull).VList? ==>
      r == Ordered.GetOr(existing.entries, "metrics", Document.VNull)
    ensures (existing.VDict? && !Ordered.GetOr(existing.entries, "metrics", Document.VNull).VList? &&
             Ordered.GetOr(existing.entries, "post_metrics", Document.VNull).VList?) ==>
      r == Ordered.GetOr(existing.entries, "post_metrics", Document.VNull)
    ensures (existing.VDict? && !Ordered.GetOr(existing.entries, "metrics", Document.VNull).VList? &&
             !Ordered.GetOr(existing.entries, "post_metrics", Document.VNull).VList?) ==>
      r == Document.VList(Flattened(existing.entries))
  {
    match existing
    case VDict(es) =>
      var m := Ordered.GetOr(es, "metrics", Document.VNull);
      var pm := Ordered.GetOr(es, "post_metrics", Document.VNull);
      if m.VList? then m
      else if pm.VList? then pm
      else Document.VList(Flattened(es))
    case _ => existing
  }

  /** `existing_results + new_results`: only a list can be extended; an unreadable or absent file counts as `[]`. */
  function Combined(existing: Option<Document.Value>, added: seq<Document.Value>): (r: Result<seq<Document.Value>>)
  {
    var base := if existing.Some? then Normalised(existing.value) else Document.VList([]);
    if base.VList? then Ok(base.items + added) else Fail(TypeError, "can only concatenate list to list")
  }

  /** The new results always come last, after what was cached; a cached bundle never makes the append fail. */
  lemma CachedThenFresh(existing: Option<Document.Value>, added: seq<Document.Value>)
    ensures existing.None? || existing.value.VList? || existing.value.VDict? ==> Combined(existing, added).Ok?
    ensures existing.Some? && !existing.value.VList? && !existing.value.VDict? ==> Combined(existing, added).Err?
    ensures Combined(existing, added).Ok? ==>
      var all := Combined(existing, added).value;
      |all| >= |added| && all[|all| - |added|..] == added
    ensures existing.None? ==> Combined(existing, added) == Ok(added)
  {
  }

  /** `for v in existing_results.values(): if isinstance(v, list): flattened.extend(v)` */
  method Flatten(entries: Ordered.Dict<string, Document.Value>) returns (flattened: seq<Document.Value>)
    ensures flattened == Flattened(entries)
  {
    flattened := [];
    var i := 0;
    while i < |entries|
      invariant 0 <= i <= |entries|
      invariant flattened == Flattened(entries[..i])
    {
      assert entries[..i + 1][..i] == entries[..i];
      var v := entries[i].1;
      if v.VList? {
        flattened := flattened + v.items;
      }
      i := i + 1;
    }
    assert entries[..i] == entries;
  }

  /** Flattening keeps every list item and only those, in key order. */
  lemma {:induction false} FlattenedItems(entries: Ordered.Dict<string, Document.Value>)
    ensures forall x :: x in Flattened(entries) <==> exists i :: 0 <= i < |entries| && entries[i].1.VList? && x in entries[i].1.items
  {
    if entries != [] {
      var init := entries[..|entries| - 1];
      FlattenedItems(init);
      assert forall i :: 0 <= i < |init| ==> init[i] == entries[i];
    }
  }
}
