/**
 * AssuranceValidator of core.py: strict-mode detection, the per-control
 * evaluation loop (registry lookup, evaluation context, role binding,
 * unresolved-role check, metric call, comparison) and the comparison of
 * precomputed metrics against the controls.
 */
module Core {

  import opened Wrappers
  import opened Frames
  import opened Roles
  import opened Models
  import opened Folds
  import Counting
  import Ordered
  import Binding
  import Loader
  import Document
  import Registry

  // ---------------------------------------------------------------- construction

  /** The process environment, by variable name. */
  type Env = Ordered.Dict<string, string>

  /** `strict or os.getenv("CI") == "true" or os.getenv("VENTURALITICA_STRICT") == "true"` */
  function DetectStrict(strict: bool, env: Env): bool
  {
    strict || Ordered.Get(env, "CI") == Some("true") || Ordered.Get(env, "VENTURALITICA_STRICT") == Some("true")
  }

  /** The explicit flag always wins; otherwise only the two variables set to exactly "true" switch strict mode on. */
  lemma StrictDetection(strict: bool, env: Env)
    ensures strict ==> DetectStrict(strict, env)
    ensures Ordered.Get(env, "CI") == Some("true") ==> DetectStrict(strict, env)
    ensures Ordered.Get(env, "VENTURALITICA_STRICT") == Some("true") ==> DetectStrict(strict, env)
    ensures !strict && Ordered.Get(env, "CI") != Some("true") && Ordered.Get(env, "VENTURALITICA_STRICT") != Some("true")
      ==> !DetectStrict(strict, env)
  {
  }

  /** Where the policy comes from: a ready policy, an in-memory OSCAL mapping, or a path read through storage. */
  datatype PolicySource =
    | Ready(policy: InternalPolicy)
    | Mapping(dict: Ordered.Dict<string, Document.Value>)
    | Stored(path: string)

  datatype Validator = Validator(policy: InternalPolicy, strict: bool)

  /** `AssuranceValidator(policy, storage, strict)`; storage reads are a parameter. */
  function NewValidator(source: PolicySource, storage: string -> Result<InternalPolicy>, files: Loader.Files,
                        parse: Loader.Parse, strict: bool, env: Env): (r: Result<Validator>)
    ensures r.Ok? ==> r.value.strict == DetectStrict(strict, env)
    ensures source.Ready? ==> r == Ok(Validator(source.policy, DetectStrict(strict, env)))
    ensures source.Stored? ==> (r.Ok? <==> storage(source.path).Ok?)
    ensures source.Stored? && r.Ok? ==> r.value.policy == storage(source.path).value
    ensures source.Stored? && r.Err? ==> r.error == storage(source.path).error
    ensures source.Mapping? ==>
      var loaded := Loader.LoadPolicy(Loader.PolicyLoader(Some(source.dict), None), files, parse);
      && (r.Ok? <==> loaded.Ok?)
      && (r.Ok? ==> r.value.policy == loaded.value)
      && (r.Err? ==> r.error == loaded.error)
  {
    var policy :- match source
      case Ready(p) => Ok(p)
      case Mapping(d) => Loader.LoadPolicy(Loader.PolicyLoader(Some(d), None), files, parse)
      case Stored(path) => storage(path);
    Ok(Validator(policy, DetectStrict(strict, env)))
  }

  // ---------------------------------------------------------------- comparison

  const KnownOperators: set<string> := {"<", "lt", ">", "gt", "<=", "le", ">=", "ge", "==", "eq", "!=", "ne"}

  /** `_check_condition`: the twelve-entry operator table; any other operator fails. */
  function CheckCondition(actual: real, op: string, threshold: real): bool
  {
    if op == "<" || op == "lt" then actual < threshold
    else if op == ">" || op == "gt" then actual > threshold
    else if op == "<=" || op == "le" then actual <= threshold
    else if op == ">=" || op == "ge" then actual >= threshold
    else if op == "==" || op == "eq" then actual == threshold
    else if op == "!=" || op == "ne" then actual != threshold
    else false
  }

  /** Each symbol and its two-letter name compare alike; an unknown operator never passes. */
  lemma OperatorTable(actual: real, threshold: real, op: string)
    ensures op !in KnownOperators ==> !CheckCondition(actual, op, threshold)
    ensures CheckCondition(actual, "<", threshold) == CheckCondition(actual, "lt", threshold) == (actual < threshold)
    ensures CheckCondition(actual, ">", threshold) == CheckCondition(actual, "gt", threshold) == (actual > threshold)
    ensures CheckCondition(actual, "<=", threshold) == CheckCondition(actual, "le", threshold) == (actual <= threshold)
    ensures CheckCondition(actual, ">=", threshold) == CheckCondition(actual, "ge", threshold) == (actual >= threshold)
    ensures CheckCondition(actual, "==", threshold) == CheckCondition(actual, "eq", threshold) == (actual == threshold)
    ensures CheckCondition(actual, "!=", threshold) == CheckCondition(actual, "ne", threshold) == (actual != threshold)
  {
  }

  /** `!=` is the negation of `==`, and `<=` of `>`. */
  lemma OperatorNegations(actual: real, threshold: real)
    ensures CheckCondition(actual, "!=", threshold) == !CheckCondition(actual, "==", threshold)
    ensures CheckCondition(actual, "<=", threshold) == !CheckCondition(actual, ">", threshold)
    ensures CheckCondition(actual, ">=", threshold) == !CheckCondition(actual, "<", threshold)
  {
  }

  // ---------------------------------------------------------------- evaluation context

  /** `COLUMN_SYNONYMS.get(var, []) + COLUMN_SYNONYMS.get(role, [])` */
  function Candidates(variable: string, role: string): seq<string>
  {
    Ordered.GetOr(Binding.ColumnSynonyms, variable, []) + Ordered.GetOr(Binding.ColumnSynonyms, role, [])
  }

  /**
   * The column a variable is bound to, given its synonym candidates: a truthy
   * mapping entry, else the variable if it is a column, else the first
   * candidate that is a column, else "MISSING" (an empty name also ends as
   * "MISSING").
   */
  function BindWith(variable: string, cands: seq<string>, mapping: Kwargs, cols: seq<string>): (r: string)
    ensures !Falsy(Arg(mapping, variable)) ==> r == Arg(mapping, variable).value
    ensures Falsy(Arg(mapping, variable)) ==> r == Missing || (r in cols && r != "")
    ensures Falsy(Arg(mapping, variable)) && variable in cols && variable != "" ==> r == variable
    ensures Falsy(Arg(mapping, variable)) && r == Missing && Missing !in cols ==>
      variable !in cols || variable == ""
    ensures Falsy(Arg(mapping, variable)) && variable !in cols && r != Missing ==>
      Binding.FirstPresent(cands, cols) == Some(r)
    ensures Falsy(Arg(mapping, variable)) && variable !in cols && (forall c :: c in cands ==> c !in cols) ==>
      r == Missing
  {
    var given := Arg(mapping, variable);
    if !Falsy(given) then given.value
    else
      var found := if variable in cols then Some(variable) else Binding.FirstPresent(cands, cols);
      if found.Some? && found.value != "" then found.value else Missing
  }

  /** `_resolve_col_names`'s binding of one role: the synonyms of the variable, then those of the role. */
  function BindRole(variable: string, role: string, mapping: Kwargs, cols: seq<string>): string
  {
    BindWith(variable, Candidates(variable, role), mapping, cols)
  }

  /** The literal `average` parameter is passed through; every other role is bound to a column. */
  function RoleValue(role: string, variable: string, mapping: Kwargs, cols: seq<string>): string
  {
    if role == "average" then variable else BindRole(variable, role, mapping, cols)
  }

  /** `target` and `prediction` first, when the mapping has them. */
  function Seed(mapping: Kwargs): Kwargs
  {
    var withTarget := if Ordered.HasKey(mapping, "target") then [("target", Arg(mapping, "target").value)] else [];
    if Ordered.HasKey(mapping, "prediction") then Ordered.Put(withTarget, "prediction", Arg(mapping, "prediction").value)
    else withTarget
  }

  /** `for key, val in items: if key not in ctx: ctx[key] = val` */
  function Forward(ctx: Kwargs, items: Kwargs): Kwargs
  {
    if items == [] then ctx
    else
      var c := Forward(ctx, items[..|items| - 1]);
      var (k, v) := items[|items| - 1];
      if Ordered.HasKey(c, k) then c else Ordered.Put(c, k, v)
  }

  /** `for role, var in input_mapping.items(): ctx[role] = ...` */
  function BindAll(ctx: Kwargs, inputs: Ordered.Dict<string, string>, mapping: Kwargs, cols: seq<string>): Kwargs
  {
    if inputs == [] then ctx
    else
      var (role, variable) := inputs[|inputs| - 1];
      Ordered.Put(BindAll(ctx, inputs[..|inputs| - 1], mapping, cols), role, RoleValue(role, variable, mapping, cols))
  }

  /** The keyword arguments a control's metric is called with. */
  function EvalContext(mapping: Kwargs, inputs: Ordered.Dict<string, string>, cols: seq<string>): Kwargs
  {
    BindAll(Forward(Seed(mapping), mapping), inputs, mapping, cols)
  }

  /** The roles of `input_mapping` whose context value is "MISSING", in order. */
  function Unresolved(ctx: Kwargs, inputs: Ordered.Dict<string, string>): (r: seq<string>)
    ensures forall role :: role in r <==> role in Ordered.Keys(inputs) && Arg(ctx, role) == Some(Missing)
  {
    Counting.Filter(Ordered.Keys(inputs), role => Arg(ctx, role) == Some(Missing))
  }

  lemma SeedGet(mapping: Kwargs, k: string)
    ensures Arg(Seed(mapping), k) == if k in ["target", "prediction"] then Arg(mapping, k) else None
  {
    var withTarget := if Ordered.HasKey(mapping, "target") then [("target", Arg(mapping, "target").value)] else [];
    if Ordered.HasKey(mapping, "prediction") {
      if k == "prediction" {
        Ordered.GetPutSame(withTarget, "prediction", Arg(mapping, "prediction").value);
      } else {
        Ordered.GetPutOther(withTarget, "prediction", Arg(mapping, "prediction").value, k);
      }
    }
  }

  /** Forwarding keeps what the context has and adds the first value of every other key. */
  lemma {:induction false} ForwardGet(ctx: Kwargs, items: Kwargs, k: string)
    ensures Arg(Forward(ctx, items), k) == if Ordered.HasKey(ctx, k) then Arg(ctx, k) else Arg(items, k)
  {
    if items != [] {
      var init := items[..|items| - 1];
      var (key, v) := items[|items| - 1];
      assert items == init + [(key, v)];
      ForwardGet(ctx, init, k);
      Ordered.GetAppend(init, key, v, k);
      var c := Forward(ctx, init);
      ForwardGet(ctx, init, key);
      Ordered.GetAppend(init, key, v, key);
      if !Ordered.HasKey(c, key) {
        if k == key {
          Ordered.GetPutSame(c, key, v);
        } else {
          Ordered.GetPutOther(c, key, v, k);
        }
      }
    }
  }

  /** The context before binding holds exactly the caller's mapping. */
  lemma StartContextGet(mapping: Kwargs, k: string)
    ensures Arg(Forward(Seed(mapping), mapping), k) == Arg(mapping, k)
  {
    ForwardGet(Seed(mapping), mapping, k);
    SeedGet(mapping, k);
  }

  /** After binding, every role of `input_mapping` reads its bound value and every other key is untouched. */
  lemma {:induction false} BindAllGet(ctx: Kwargs, inputs: Ordered.Dict<string, string>, mapping: Kwargs,
                                      cols: seq<string>, k: string)
    requires Ordered.Distinct(inputs)
    ensures Arg(BindAll(ctx, inputs, mapping, cols), k) ==
      if Ordered.HasKey(inputs, k) then Some(RoleValue(k, Arg(inputs, k).value, mapping, cols)) else Arg(ctx, k)
  {
    if inputs != [] {
      var init := inputs[..|inputs| - 1];
      var (role, variable) := inputs[|inputs| - 1];
      assert inputs == init + [(role, variable)];
      assert Ordered.Distinct(init);
      BindAllGet(ctx, init, mapping, cols, k);
      Ordered.GetAppend(init, role, variable, k);
      var c := BindAll(ctx, init, mapping, cols);
      var val := RoleValue(role, variable, mapping, cols);
      assert BindAll(ctx, inputs, mapping, cols) == Ordered.Put(c, role, val);
      PutArg(c, role, val, k);
      if Ordered.HasKey(init, k) {
        assert k != role;
        assert Arg(inputs, k) == Arg(init, k);
      } else if k == role {
        assert Arg(inputs, k) == Some(variable);
      } else {
        assert !Ordered.HasKey(inputs, k);
      }
    }
  }

  lemma PutArg(c: Kwargs, role: string, val: string, k: string)
    ensures Arg(Ordered.Put(c, role, val), k) == if k == role then Some(val) else Arg(c, k)
  {
    if k == role {
      Ordered.GetPutSame(c, role, val);
    } else {
      Ordered.GetPutOther(c, role, val, k);
    }
  }

  /**
   * What a metric is called with: each role of the control's input mapping
   * reads its bound column (or the literal `average`), every other key reads
   * the caller's mapping.
   */
  lemma ContextBinding(mapping: Kwargs, inputs: Ordered.Dict<string, string>, cols: seq<string>, k: string)
    requires Ordered.Distinct(inputs)
    ensures Arg(EvalContext(mapping, inputs, cols), k) ==
      if Ordered.HasKey(inputs, k) then Some(RoleValue(k, Arg(inputs, k).value, mapping, cols)) else Arg(mapping, k)
  {
    BindAllGet(Forward(Seed(mapping), mapping), inputs, mapping, cols, k);
    StartContextGet(mapping, k);
  }

  /** The context building of `compute_and_evaluate`: two ifs and two loops over dictionaries. */
  method BuildContext(mapping: Kwargs, inputs: Ordered.Dict<string, string>, cols: seq<string>) returns (ctx: Kwargs)
    ensures ctx == EvalContext(mapping, inputs, cols)
  {
    var start := ForwardLoop(mapping);
    ctx := BindLoop(start, inputs, mapping, cols);
  }

  /** `target` and `prediction` first, then every other key of the caller's mapping. */
  method ForwardLoop(mapping: Kwargs) returns (ctx: Kwargs)
    ensures ctx == Forward(Seed(mapping), mapping)
  {
    ctx := [];
    if Ordered.HasKey(mapping, "target") {
      ctx := [("target", Arg(mapping, "target").value)];
    }
    if Ordered.HasKey(mapping, "prediction") {
      ctx := Ordered.Put(ctx, "prediction", Arg(mapping, "prediction").value);
    }
    assert ctx == Seed(mapping);
    var i := 0;
    while i < |mapping|
      invariant 0 <= i <= |mapping|
      invariant ctx == Forward(Seed(mapping), mapping[..i])
    {
      assert mapping[..i + 1][..i] == mapping[..i];
      var (key, val) := mapping[i];
      if !Ordered.HasKey(ctx, key) {
        ctx := Ordered.Put(ctx, key, val);
      }
      i := i + 1;
    }
    assert mapping[..i] == mapping;
  }

  /** Each role of the input mapping is set to its bound column, or the literal `average`. */
  method BindLoop(start: Kwargs, inputs: Ordered.Dict<string, string>, mapping: Kwargs, cols: seq<string>)
    returns (ctx: Kwargs)
    ensures ctx == BindAll(start, inputs, mapping, cols)
  {
    ctx := start;
    var j := 0;
    while j < |inputs|
      invariant 0 <= j <= |inputs|
      invariant ctx == BindAll(start, inputs[..j], mapping, cols)
    {
      assert inputs[..j + 1][..j] == inputs[..j];
      var (role, variable) := inputs[j];
      ctx := Ordered.Put(ctx, role, RoleValue(role, variable, mapping, cols));
      j := j + 1;
    }
    assert inputs[..j] == inputs;
  }

  // ---------------------------------------------------------------- one control

  /** The result record for a metric value, copied from its control. */
  function ResultFor(ctrl: InternalControl, value: real, meta: Metadata): ComplianceResult
  {
    ComplianceResult(ctrl.id, ctrl.description, ctrl.metricKey, ctrl.threshold, value, ctrl.operator,
                     CheckCondition(value, ctrl.operator, ctrl.threshold), ctrl.severity, meta)
  }

  /** A tuple result is split into value and metadata; a bare value has no metadata. */
  function Unpack(o: Registry.Outcome): (Metadata, real)
  {
    match o
    case Scalar(v) => ([], v)
    case Pair(v, meta) => (meta, v)
  }

  /** Evaluating one control; every way it can be skipped or fail is an error. */
  function EvalControl(ctrl: InternalControl, df: Frame, mapping: Kwargs, reg: map<string, Registry.MetricFn>)
    : (r: Result<ComplianceResult>)
    ensures ctrl.metricKey !in reg ==> r.Err? && r.error.kind == ValueError
    ensures ctrl.metricKey in reg && Unresolved(EvalContext(mapping, ctrl.inputMapping, df.columns), ctrl.inputMapping) != []
      ==> r.Err? && r.error.kind == ValueError
    ensures ctrl.metricKey in reg && Unresolved(EvalContext(mapping, ctrl.inputMapping, df.columns), ctrl.inputMapping) == [] ==>
      var out := reg[ctrl.metricKey](df, EvalContext(mapping, ctrl.inputMapping, df.columns));
      && (r.Ok? <==> out.Ok?)
      && (out.Err? ==> r == Err(out.error))
    ensures r.Ok? ==>
      var out := reg[ctrl.metricKey](df, EvalContext(mapping, ctrl.inputMapping, df.columns));
      && ctrl.metricKey in reg && out.Ok?
      && r.value.controlId == ctrl.id && r.value.description == ctrl.description
      && r.value.metricKey == ctrl.metricKey && r.value.threshold == ctrl.threshold
      && r.value.operator == ctrl.operator && r.value.severity == ctrl.severity
      && r.value.actualValue == out.value.value
      && r.value.metadata == (if out.value.Pair? then out.value.meta else [])
      && r.value.passed == CheckCondition(r.value.actualValue, ctrl.operator, ctrl.threshold)
  {
    if ctrl.metricKey !in reg then
      Fail(ValueError, "No metric function registered for '" + ctrl.metricKey + "' in control '" + ctrl.id + "'")
    else
      var ctx := EvalContext(mapping, ctrl.inputMapping, df.columns);
      if Unresolved(ctx, ctrl.inputMapping) != [] then
        Fail(ValueError, "Control '" + ctrl.id + "' has unresolved virtual variables")
      else
        var out :- reg[ctrl.metricKey](df, ctx);
        var (meta, value) := Unpack(out);
        Ok(ResultFor(ctrl, value, meta))
  }

  /** The body of the loop for one control, as statements. */
  method EvaluateControl(ctrl: InternalControl, df: Frame, mapping: Kwargs, reg: map<string, Registry.MetricFn>)
    returns (r: Result<ComplianceResult>)
    ensures r == EvalControl(ctrl, df, mapping, reg)
  {
    if ctrl.metricKey !in reg {
      return Fail(ValueError, "No metric function registered for '" + ctrl.metricKey + "' in control '" + ctrl.id + "'");
    }
    var metric := reg[ctrl.metricKey];
    var ctx := BuildContext(mapping, ctrl.inputMapping, df.columns);
    var unresolved := Unresolved(ctx, ctrl.inputMapping);
    if unresolved != [] {
      return Fail(ValueError, "Control '" + ctrl.id + "' has unresolved virtual variables");
    }
    var out := metric(df, ctx);
    if out.Err? {
      return Err(out.error);
    }
    var meta: Metadata, value: real;
    if out.value.Pair? {
      meta, value := out.value.meta, out.value.value;
    } else {
      meta, value := [], out.value.value;
    }
    r := Ok(ResultFor(ctrl, value, meta));
  }

  // ---------------------------------------------------------------- the control loop

  function EvalFn(df: Frame, mapping: Kwargs, reg: map<string, Registry.MetricFn>): InternalControl -> Result<ComplianceResult>
  {
    ctrl => EvalControl(ctrl, df, mapping, reg)
  }

  /** What `self.policy` is handed as `data`. */
  datatype Data = DataFrame(frame: Frame) | NotAFrame

  function ComputeSpec(v: Validator, data: Data, mapping: Kwargs, strictArg: Option<bool>,
                       reg: map<string, Registry.MetricFn>): Result<seq<ComplianceResult>>
  {
    var strict := if strictArg.Some? then strictArg.value else v.strict;
    if data.NotAFrame? then Fail(ValueError, "Data must be a pandas DataFrame")
    else Fold(v.policy.controls, [], Gather(strict, EvalFn(data.frame, mapping, reg)))
  }

  /** `compute_and_evaluate` */
  method ComputeAndEvaluate(v: Validator, data: Data, mapping: Kwargs, strictArg: Option<bool>,
                            reg: map<string, Registry.MetricFn>) returns (r: Result<seq<ComplianceResult>>)
    ensures r == ComputeSpec(v, data, mapping, strictArg, reg)
  {
    var strict := if strictArg.Some? then strictArg.value else v.strict;
    if data.NotAFrame? {
      return Fail(ValueError, "Data must be a pandas DataFrame");
    }
    var df := data.frame;
    var controls := v.policy.controls;
    ghost var step := Gather(strict, EvalFn(df, mapping, reg));
    var results: seq<ComplianceResult> := [];
    var i := 0;
    while i < |controls|
      invariant 0 <= i <= |controls|
      invariant Fold(controls[..i], [], step) == Ok(results)
    {
      FoldStep(controls, i, [], step);
      var outcome := EvaluateControl(controls[i], df, mapping, reg);
      if outcome.Err? {
        if strict {
          FoldErrSticks(controls, i + 1, [], step);
          return Err(outcome.error);
        }
      } else {
        results := results + [outcome.value];
      }
      i := i + 1;
    }
    assert controls[..i] == controls;
    r := Ok(results);
  }

  /** Lenient mode never raises and keeps exactly the controls that evaluate, each once, in control order. */
  lemma LenientDrops(controls: seq<InternalControl>, df: Frame, mapping: Kwargs, reg: map<string, Registry.MetricFn>)
    ensures var r := Fold(controls, [], Gather(false, EvalFn(df, mapping, reg)));
      && r == Ok(Successes(controls, EvalFn(df, mapping, reg)))
      && |r.value| <= |controls|
      && forall res :: res in r.value ==> exists ctrl :: ctrl in controls && EvalControl(ctrl, df, mapping, reg) == Ok(res)
  {
    LenientGather(controls, EvalFn(df, mapping, reg));
    SuccessesFrom(controls, EvalFn(df, mapping, reg));
  }

  /** Strict mode either raises or evaluates every control, one result each, in control order. */
  lemma StrictAllOrNothing(controls: seq<InternalControl>, df: Frame, mapping: Kwargs, reg: map<string, Registry.MetricFn>)
    ensures var r := Fold(controls, [], Gather(true, EvalFn(df, mapping, reg)));
      && (r.Ok? <==> forall i :: 0 <= i < |controls| ==> EvalControl(controls[i], df, mapping, reg).Ok?)
      && (r.Ok? ==> |r.value| == |controls|)
      && (r.Ok? ==> forall i :: 0 <= i < |controls| ==> r.value[i] == EvalControl(controls[i], df, mapping, reg).value)
  {
    StrictGather(controls, EvalFn(df, mapping, reg));
  }

  /** With strict mode, a control naming an unregistered metric stops the loop with a ValueError. */
  lemma StrictUnknownMetricRaises(controls: seq<InternalControl>, df: Frame, mapping: Kwargs,
                                  reg: map<string, Registry.MetricFn>, i: nat)
    requires i < |controls| && controls[i].metricKey !in reg
    ensures Fold(controls, [], Gather(true, EvalFn(df, mapping, reg))).Err?
  {
    StrictAllOrNothing(controls, df, mapping, reg);
  }

  // ---------------------------------------------------------------- precomputed metrics

  function EvaluateSpec(controls: seq<InternalControl>, metrics: Ordered.Dict<string, real>): (r: seq<ComplianceResult>)
    ensures |r| <= |controls|
  {
    if controls == [] then []
    else
      var prev := EvaluateSpec(controls[..|controls| - 1], metrics);
      var ctrl := controls[|controls| - 1];
      match Ordered.Get(metrics, ctrl.metricKey)
      case Some(actual) => prev + [ResultFor(ctrl, actual, [])]
      case None => prev
  }

  /** `evaluate`: compare precomputed metric values, skipping controls whose metric is absent. */
  method Evaluate(v: Validator, metrics: Ordered.Dict<string, real>) returns (r: seq<ComplianceResult>)
    ensures r == EvaluateSpec(v.policy.controls, metrics)
  {
    var controls := v.policy.controls;
    r := [];
    var i := 0;
    while i < |controls|
      invariant 0 <= i <= |controls|
      invariant r == EvaluateSpec(controls[..i], metrics)
    {
      assert controls[..i + 1][..i] == controls[..i];
      var actual := Ordered.Get(metrics, controls[i].metricKey);
      if actual.Some? {
        r := r + [ResultFor(controls[i], actual.value, [])];
      }
      i := i + 1;
    }
    assert controls[..i] == controls;
  }

  /** When every control's metric is supplied, there is one verdict per control, in order, each by the operator table. */
  lemma {:induction false} EvaluateComplete(controls: seq<InternalControl>, metrics: Ordered.Dict<string, real>)
    requires forall i :: 0 <= i < |controls| ==> Ordered.HasKey(metrics, controls[i].metricKey)
    ensures |EvaluateSpec(controls, metrics)| == |controls|
    ensures forall i :: 0 <= i < |controls| ==>
      EvaluateSpec(controls, metrics)[i] == ResultFor(controls[i], Ordered.Get(metrics, controls[i].metricKey).value, [])
  {
    if controls != [] {
      var init := controls[..|controls| - 1];
      var last := controls[|controls| - 1];
      assert forall i :: 0 <= i < |init| ==> init[i] == controls[i];
      EvaluateComplete(init, metrics);
      var prev := EvaluateSpec(init, metrics);
      var actual := Ordered.Get(metrics, last.metricKey).value;
      assert EvaluateSpec(controls, metrics) == prev + [ResultFor(last, actual, [])];
    }
  }

  /** A verdict copies its control and applies the operator table to the value. */
  lemma ResultForShape(ctrl: InternalControl, value: real, meta: Metadata)
    ensures var res := ResultFor(ctrl, value, meta);
      res.controlId == ctrl.id && res.metricKey == ctrl.metricKey && res.actualValue == value &&
      res.passed == CheckCondition(value, ctrl.operator, ctrl.threshold) && res.metadata == meta
  {
  }

  /** A control whose metric is not supplied produces nothing. */
  lemma {:induction false} EvaluateSkipsAbsent(controls: seq<InternalControl>, metrics: Ordered.Dict<string, real>)
    requires forall i :: 0 <= i < |controls| ==> !Ordered.HasKey(metrics, controls[i].metricKey)
    ensures EvaluateSpec(controls, metrics) == []
  {
    if controls != [] {
      EvaluateSkipsAbsent(controls[..|controls| - 1], metrics);
    }
  }
}
