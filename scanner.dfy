/**
 * scanner.py: the bill-of-materials scanner. Requirement lines and
 * dependency strings become library components, calls of known model
 * classes become model components, and the scanner appends each to its
 * list of components. Reading files, walking directories, parsing TOML and
 * Python into syntax trees, and writing the CycloneDX JSON are left out:
 * the scans take the lines, dependency strings and call nodes those steps
 * produce.
 */
module Scanner {

  import opened Wrappers
  import Text

  /** `KNOWN_MODELS` */
  const KnownModels: set<string> := {
    "RandomForestClassifier", "LogisticRegression", "SVC", "LinearRegression",
    "DecisionTreeClassifier", "KNeighborsClassifier", "GradientBoostingClassifier",
    "XGBClassifier", "LGBMClassifier", "CatBoostClassifier",
    "Sequential", "Module", "resnet18", "resnet50"}

  datatype ComponentType = Library | MachineLearningModel

  datatype Component = Component(name: string, version: Option<string>, kind: ComponentType, description: Option<string>)

  /** A requirement's name and optional version. */
  datatype Requirement = Requirement(name: string, version: Option<string>)

  /** The function of a call node: a bare name, an attribute, or anything else. */
  datatype CallFunc = NameFunc(id: string) | AttributeFunc(attr: string) | OtherFunc

  // ---------------------------------------------------------------------
  // Requirement lines
  // ---------------------------------------------------------------------

  /** Splitting at each operator in turn: `.split("==")[0].split(">=")[0].split("<=")[0].split("~=")[0].strip()` */
  function PackageName(line: string): (r: string)
    ensures Text.Strip(r) == r
  {
    Text.StripIdempotent(Text.Before(Text.Before(Text.Before(Text.Before(line, "=="), ">="), "<="), "~="));
    Text.Strip(Text.Before(Text.Before(Text.Before(Text.Before(line, "=="), ">="), "<="), "~="))
  }

  /** `.split(op)[1].split(";")[0].strip()` */
  function VersionAfter(line: string, op: string): (r: string)
    requires op != [] && Text.Contains(line, op)
    ensures Text.Strip(r) == r && !Text.Contains(r, ";")
  {
    Text.StripIdempotent(Text.Before(Text.AfterFirst(line, op), ";"));
    Text.StripFree(Text.Before(Text.AfterFirst(line, op), ";"), ";");
    Text.Strip(Text.Before(Text.AfterFirst(line, op), ";"))
  }

  /** The version: after `==` when present, else after `>=`, else none. */
  function VersionOf(line: string): (r: Option<string>)
    ensures r.Some? <==> Text.Contains(line, "==") || Text.Contains(line, ">=")
    ensures Text.Contains(line, "==") ==> r == Some(VersionAfter(line, "=="))
    ensures !Text.Contains(line, "==") && Text.Contains(line, ">=") ==> r == Some(VersionAfter(line, ">="))
  {
    if Text.Contains(line, "==") then Some(VersionAfter(line, "=="))
    else if Text.Contains(line, ">=") then Some(VersionAfter(line, ">="))
    else None
  }

  /**
   * `_process_requirement_line`: a blank line, a comment, or a line whose
   * name comes out empty names nothing; else the name and the version.
   */
  function ParseRequirement(line: string): (r: Option<Requirement>)
    ensures var s := Text.Strip(line);
      r.None? <==> s == [] || Text.StartsWith(s, "#") || PackageName(s) == []
    ensures r.Some? ==> r.value == Requirement(PackageName(Text.Strip(line)), VersionOf(Text.Strip(line)))
  {
    var s := Text.Strip(line);
    if s == [] || Text.StartsWith(s, "#") then None
    else
      var name := PackageName(s);
      if name == [] then None else Some(Requirement(name, VersionOf(s)))
  }

  /** A prefix of a text without `sub` has none either. */
  lemma PrefixFree(s: string, r: string, sub: string)
    requires Text.StartsWith(s, r) && !Text.Contains(s, sub)
    ensures !Text.Contains(r, sub)
  {
    Text.SliceFree(s, sub, 0, |r|);
    assert s[0..|r|] == r;
  }

  /** A package name is non-empty, stripped, and holds none of the four operators. */
  lemma NameHasNoOperator(line: string)
    requires ParseRequirement(line).Some?
    ensures var name := ParseRequirement(line).value.name;
      && name != [] && Text.Strip(name) == name
      && !Text.Contains(name, "==") && !Text.Contains(name, ">=")
      && !Text.Contains(name, "<=") && !Text.Contains(name, "~=")
  {
    var s := Text.Strip(line);
    var a := Text.Before(s, "==");
    var b := Text.Before(a, ">=");
    var c := Text.Before(b, "<=");
    var d := Text.Before(c, "~=");
    PrefixFree(a, b, "==");
    PrefixFree(b, c, "==");
    PrefixFree(c, d, "==");
    PrefixFree(b, c, ">=");
    PrefixFree(c, d, ">=");
    PrefixFree(c, d, "<=");
    Text.StripFree(d, "==");
    Text.StripFree(d, ">=");
    Text.StripFree(d, "<=");
    Text.StripFree(d, "~=");
  }

  /** A line with only `<=` or `~=` bounds gives a name and no version. */
  lemma UpperBoundsGiveNoVersion(line: string)
    requires ParseRequirement(line).Some?
    requires !Text.Contains(Text.Strip(line), "==") && !Text.Contains(Text.Strip(line), ">=")
    ensures ParseRequirement(line).value.version.None?
  {
  }

  /** The components a requirement line adds: one library, or none. */
  function LineComponents(line: string): seq<Component>
  {
    match ParseRequirement(line)
    case None => []
    case Some(req) => [Component(req.name, req.version, Library, None)]
  }

  /** A line adds its requirement as a library exactly when it names one. */
  lemma LineAddsRequirement(line: string)
    ensures |LineComponents(line)| <= 1
    ensures LineComponents(line) != [] <==> ParseRequirement(line).Some?
    ensures LineComponents(line) != [] ==>
      LineComponents(line)[0] == Component(ParseRequirement(line).value.name, ParseRequirement(line).value.version, Library, None)
  {
  }

  /** `dep_str.split("[")[0]`: the dependency without its extras. */
  function WithoutExtras(dep: string): (r: string)
    ensures Text.StartsWith(dep, r) && !Text.Contains(r, "[")
  {
    Text.Before(dep, "[")
  }

  /**
   * A dependency's component never carries anything from its extras: its
   * name and version hold no `[`, so a version written after the extras is
   * dropped.
   */
  lemma DependencyDropsExtras(dep: string)
    requires ParseRequirement(WithoutExtras(dep)).Some?
    ensures var req := ParseRequirement(WithoutExtras(dep)).value;
      !Text.Contains(req.name, "[") && (req.version.Some? ==> !Text.Contains(req.version.value, "["))
  {
    var line := Text.Strip(WithoutExtras(dep));
    Text.StripFree(WithoutExtras(dep), "[");
    var a := Text.Before(line, "==");
    var b := Text.Before(a, ">=");
    var c := Text.Before(b, "<=");
    var d := Text.Before(c, "~=");
    PrefixFree(line, a, "[");
    PrefixFree(a, b, "[");
    PrefixFree(b, c, "[");
    PrefixFree(c, d, "[");
    Text.StripFree(d, "[");
    if Text.Contains(line, "==") {
      AfterFree(line, "==", "[");
    } else if Text.Contains(line, ">=") {
      AfterFree(line, ">=", "[");
    }
  }

  /** The version after an operator holds nothing the line does not. */
  lemma AfterFree(line: string, op: string, sub: string)
    requires op != [] && Text.Contains(line, op) && !Text.Contains(line, sub)
    ensures !Text.Contains(VersionAfter(line, op), sub)
  {
    var i := Text.Find(line, op).value;
    var rest := line[i + |op|..];
    Text.SliceFree(line, sub, i + |op|, |line|);
    assert line[i + |op|..|line|] == rest;
    var after := Text.Before(rest, op);
    PrefixFree(rest, after, sub);
    var v := Text.Before(after, ";");
    PrefixFree(after, v, sub);
    Text.StripFree(v, sub);
  }

  // ---------------------------------------------------------------------
  // Call nodes
  // ---------------------------------------------------------------------

  /** The called name: a bare name's id or an attribute's name. */
  function ModelName(f: CallFunc): Option<string>
  {
    match f
    case NameFunc(id) => Some(id)
    case AttributeFunc(attr) => Some(attr)
    case OtherFunc => None
  }

  /** `os.path.basename`: the text after the last `/`. */
  function BaseName(path: string): (r: string)
    ensures '/' !in r && |r| <= |path| && path[|path| - |r|..] == r
  {
    if path == [] then []
    else if path[|path| - 1] == '/' then []
    else
      var init := BaseName(path[..|path| - 1]);
      assert path[..|path| - 1][|path| - 1 - |init|..] == init;
      assert path[|path| - 1 - |init|..] == init + [path[|path| - 1]];
      init + [path[|path| - 1]]
  }

  /** `_check_ast_call`: a known model adds one model component, with the file it was found in. */
  function CallComponents(f: CallFunc, filePath: string): seq<Component>
  {
    match ModelName(f)
    case Some(name) =>
      if name != [] && name in KnownModels then
        [Component(name, None, MachineLearningModel, Some("Detected in " + BaseName(filePath)))]
      else []
    case None => []
  }

  /** A call adds a model component exactly when it calls a known model by name or attribute. */
  lemma CallAddsModel(f: CallFunc, filePath: string)
    ensures |CallComponents(f, filePath)| <= 1
    ensures CallComponents(f, filePath) != [] <==> ModelName(f).Some? && ModelName(f).value in KnownModels
    ensures CallComponents(f, filePath) != [] ==>
      CallComponents(f, filePath)[0] == Component(ModelName(f).value, None, MachineLearningModel, Some("Detected in " + BaseName(filePath)))
  {
  }

  // ---------------------------------------------------------------------
  // Whole scans
  // ---------------------------------------------------------------------

  /** The components of a list of requirement lines, in order. */
  function LinesComponents(lines: seq<string>): seq<Component>
  {
    if lines == [] then []
    else LinesComponents(lines[..|lines| - 1]) + LineComponents(lines[|lines| - 1])
  }

  /** The components of a list of dependency strings, in order. */
  function DependencyComponents(deps: seq<string>): seq<Component>
  {
    if deps == [] then []
    else DependencyComponents(deps[..|deps| - 1]) + LineComponents(WithoutExtras(deps[|deps| - 1]))
  }

  /** The components of the call nodes of one file, in order. */
  function CallsComponents(calls: seq<CallFunc>, filePath: string): seq<Component>
  {
    if calls == [] then []
    else CallsComponents(calls[..|calls| - 1], filePath) + CallComponents(calls[|calls| - 1], filePath)
  }

  /** Requirement lines give named libraries only. */
  lemma {:induction false} LinesAreLibraries(lines: seq<string>)
    ensures forall c :: c in LinesComponents(lines) ==> c.kind == Library && c.name != [] && c.description.None?
  {
    if lines != [] {
      LinesAreLibraries(lines[..|lines| - 1]);
    }
  }

  /** Dependency strings give named libraries whose names hold no `[`. */
  lemma {:induction false} DependenciesAreLibraries(deps: seq<string>)
    ensures forall c :: c in DependencyComponents(deps) ==> c.kind == Library && c.name != [] && '[' !in c.name
  {
    if deps != [] {
      DependenciesAreLibraries(deps[..|deps| - 1]);
      DependencyIsLibrary(deps[|deps| - 1]);
    }
  }

  /** A named library whose name holds no `[`. */
  predicate CleanLibrary(c: Component)
  {
    c.kind == Library && c.name != [] && '[' !in c.name
  }

  /** One dependency string gives at most a named library whose name holds no `[`. */
  lemma DependencyIsLibrary(dep: string)
    ensures forall c :: c in LineComponents(WithoutExtras(dep)) ==> CleanLibrary(c)
  {
    var line := WithoutExtras(dep);
    var cs := LineComponents(line);
    if ParseRequirement(line).Some? {
      var req := ParseRequirement(line).value;
      DependencyNameClean(dep);
      assert CleanLibrary(Component(req.name, req.version, Library, None));
      assert cs == [Component(req.name, req.version, Library, None)];
    } else {
      assert cs == [];
    }
  }

  lemma DependencyNameClean(dep: string)
    requires ParseRequirement(WithoutExtras(dep)).Some?
    ensures var name := ParseRequirement(WithoutExtras(dep)).value.name;
      name != [] && '[' !in name
  {
    DependencyDropsExtras(dep);
    CharAbsent(ParseRequirement(WithoutExtras(dep)).value.name, '[');
  }

  /** A character whose one-character text does not occur is absent. */
  lemma CharAbsent(s: string, ch: char)
    requires !Text.Contains(s, [ch])
    ensures ch !in s
  {
    if ch in s {
      ContainsChar(s, ch);
    }
  }

  /** A one-character text occurs wherever its character does. */
  lemma ContainsChar(s: string, ch: char)
    requires ch in s
    ensures Text.Contains(s, [ch])
  {
    var i :| 0 <= i < |s| && s[i] == ch;
    assert s[i..i + 1] == [ch];
    assert Text.OccursAt(s, [ch], i);
  }

  /** The declared dependencies of a `pyproject.toml`: the main list and the optional groups. */
  datatype PyProject = PyProject(dependencies: seq<string>, optional: seq<seq<string>>)

  /** A Python file found by the directory walk: its path, and its call nodes when it parses. */
  datatype SourceFile = SourceFile(path: string, calls: Option<seq<CallFunc>>)

  predicate IsPythonFile(f: SourceFile)
  {
    |f.path| >= 3 && f.path[|f.path| - 3..] == ".py"
  }

  class BomScanner {

    /** `self.bom.components` */
    var components: seq<Component>

    constructor ()
      ensures components == []
    {
      components := [];
    }

    /** `_add_component`: the component joins the list. */
    method AddComponent(c: Component)
      modifies this
      ensures components == old(components) + [c]
    {
      components := components + [c];
    }

    method ProcessRequirementLine(line: string)
      modifies this
      ensures components == old(components) + LineComponents(line)
    {
      var s := Text.Strip(line);
      if s == [] || Text.StartsWith(s, "#") {
        return;
      }
      var name := PackageName(s);
      var version := VersionOf(s);
      if name != [] {
        AddComponent(Component(name, version, Library, None));
      }
    }

    /** `_add_dependency_str`: the dependency without its extras, as a requirement line. */
    method AddDependency(dep: string)
      modifies this
      ensures components == old(components) + LineComponents(WithoutExtras(dep))
    {
      ProcessRequirementLine(WithoutExtras(dep));
    }

    method CheckAstCall(f: CallFunc, filePath: string)
      modifies this
      ensures components == old(components) + CallComponents(f, filePath)
    {
      var name := ModelName(f);
      if name.Some? && name.value != [] && name.value in KnownModels {
        AddComponent(Component(name.value, None, MachineLearningModel, Some("Detected in " + BaseName(filePath))));
      }
    }

    /** `_scan_requirements`: every line of the file, when there is one. */
    method ScanRequirements(file: Option<seq<string>>)
      modifies this
      ensures file.None? ==> components == old(components)
      ensures file.Some? ==> components == old(components) + LinesComponents(file.value)
    {
      if file.None? {
        return;
      }
      var lines := file.value;
      ghost var start := components;
      for i := 0 to |lines|
        invariant components == start + LinesComponents(lines[..i])
      {
        ProcessRequirementLine(lines[i]);
        LinesStep(lines, i);
        Append(start, LinesComponents(lines[..i]), LineComponents(lines[i]));
      }
      assert lines[..|lines|] == lines;
    }

    /** Each dependency string of a list in turn. */
    method AddDependencies(deps: seq<string>)
      modifies this
      ensures components == old(components) + DependencyComponents(deps)
    {
      ghost var start := components;
      for i := 0 to |deps|
        invariant components == start + DependencyComponents(deps[..i])
      {
        AddDependency(deps[i]);
        DependencyStep(deps, i);
        Append(start, DependencyComponents(deps[..i]), LineComponents(WithoutExtras(deps[i])));
      }
      assert deps[..|deps|] == deps;
    }

    /** `_scan_pyproject`: the main dependencies, then each optional group, when the file reads. */
    method ScanPyproject(project: Option<PyProject>)
      modifies this
      ensures project.None? ==> components == old(components)
      ensures project.Some? ==>
        components == old(components) + (DependencyComponents(project.value.dependencies) + GroupsComponents(project.value.optional))
    {
      if project.None? {
        return;
      }
      ghost var start := components;
      AddDependencies(project.value.dependencies);
      var groups := project.value.optional;
      ghost var main := components;
      for i := 0 to |groups|
        invariant components == main + GroupsComponents(groups[..i])
      {
        AddDependencies(groups[i]);
        GroupsStep(groups, i);
        Append(main, GroupsComponents(groups[..i]), DependencyComponents(groups[i]));
      }
      assert groups[..|groups|] == groups;
      Append(start, DependencyComponents(project.value.dependencies), GroupsComponents(groups));
    }

    /** The call nodes of one file in turn. */
    method CheckCalls(calls: seq<CallFunc>, filePath: string)
      modifies this
      ensures components == old(components) + CallsComponents(calls, filePath)
    {
      ghost var start := components;
      for j := 0 to |calls|
        invariant components == start + CallsComponents(calls[..j], filePath)
      {
        CheckAstCall(calls[j], filePath);
        CallsStep(calls, j, filePath);
        Append(start, CallsComponents(calls[..j], filePath), CallComponents(calls[j], filePath));
      }
      assert calls[..|calls|] == calls;
    }

    /** `_scan_models`: the call nodes of every Python file that parses. */
    method ScanModels(files: seq<SourceFile>)
      modifies this
      ensures components == old(components) + FilesComponents(files)
    {
      ghost var start := components;
      for i := 0 to |files|
        invariant components == start + FilesComponents(files[..i])
      {
        var f := files[i];
        if IsPythonFile(f) && f.calls.Some? {
          CheckCalls(f.calls.value, f.path);
        }
        FilesStep(files, i);
        Append(start, FilesComponents(files[..i]), FileComponents(f));
      }
      assert files[..|files|] == files;
    }

    /** `scan`: requirements, then the project file, then the models. */
    method Scan(requirements: Option<seq<string>>, project: Option<PyProject>, files: seq<SourceFile>)
      modifies this
      ensures components == old(components) + ScanComponents(requirements, project, files)
    {
      ghost var start := components;
      ScanRequirements(requirements);
      ghost var afterRequirements := components;
      ScanPyproject(project);
      ghost var afterProject := components;
      ScanModels(files);
      ghost var fromRequirements := if requirements.Some? then LinesComponents(requirements.value) else [];
      ghost var fromProject := match project
        case None => []
        case Some(p) => DependencyComponents(p.dependencies) + GroupsComponents(p.optional);
      assert afterRequirements == start + fromRequirements;
      assert afterProject == afterRequirements + fromProject;
      Append(start, fromRequirements, fromProject);
      Append(start, fromRequirements + fromProject, FilesComponents(files));
    }
  }

  /** The components of the optional dependency groups, in order. */
  function GroupsComponents(groups: seq<seq<string>>): seq<Component>
  {
    if groups == [] then []
    else GroupsComponents(groups[..|groups| - 1]) + DependencyComponents(groups[|groups| - 1])
  }

  /** The model components of one file: its calls, when it is a Python file that parses. */
  function FileComponents(f: SourceFile): seq<Component>
  {
    if IsPythonFile(f) && f.calls.Some? then CallsComponents(f.calls.value, f.path) else []
  }

  /** The model components of the files walked: Python files that parse. */
  function FilesComponents(files: seq<SourceFile>): seq<Component>
  {
    if files == [] then []
    else
      var f := files[|files| - 1];
      FilesComponents(files[..|files| - 1]) + FileComponents(f)
  }

  /** Everything a scan adds. */
  function ScanComponents(requirements: Option<seq<string>>, project: Option<PyProject>, files: seq<SourceFile>): seq<Component>
  {
    (if requirements.Some? then LinesComponents(requirements.value) else []) +
    (match project
     case None => []
     case Some(p) => DependencyComponents(p.dependencies) + GroupsComponents(p.optional)) +
    FilesComponents(files)
  }

  lemma Append(a: seq<Component>, b: seq<Component>, c: seq<Component>)
    ensures a + b + c == a + (b + c)
  {
  }

  lemma LinesStep(lines: seq<string>, i: nat)
    requires i < |lines|
    ensures LinesComponents(lines[..i + 1]) == LinesComponents(lines[..i]) + LineComponents(lines[i])
  {
    assert lines[..i + 1][..i] == lines[..i];
  }

  lemma DependencyStep(deps: seq<string>, i: nat)
    requires i < |deps|
    ensures DependencyComponents(deps[..i + 1]) == DependencyComponents(deps[..i]) + LineComponents(WithoutExtras(deps[i]))
  {
    assert deps[..i + 1][..i] == deps[..i];
  }

  lemma GroupsStep(groups: seq<seq<string>>, i: nat)
    requires i < |groups|
    ensures GroupsComponents(groups[..i + 1]) == GroupsComponents(groups[..i]) + DependencyComponents(groups[i])
  {
    assert groups[..i + 1][..i] == groups[..i];
  }

  lemma CallsStep(calls: seq<CallFunc>, j: nat, filePath: string)
    requires j < |calls|
    ensures CallsComponents(calls[..j + 1], filePath) == CallsComponents(calls[..j], filePath) + CallComponents(calls[j], filePath)
  {
    assert calls[..j + 1][..j] == calls[..j];
  }

  lemma FilesStep(files: seq<SourceFile>, i: nat)
    requires i < |files|
    ensures FilesComponents(files[..i + 1]) == FilesComponents(files[..i]) + FileComponents(files[i])
  {
    assert files[..i + 1][..i] == files[..i];
  }

  /** Every model component is one of the known models, named after a call in a Python file that parses. */
  lemma {:induction false} FileModelsKnown(files: seq<SourceFile>)
    ensures forall c :: c in FilesComponents(files) ==>
      c.kind == MachineLearningModel && c.name in KnownModels &&
      exists i, j :: 0 <= i < |files| && IsPythonFile(files[i]) && files[i].calls.Some? &&
        0 <= j < |files[i].calls.value| && ModelName(files[i].calls.value[j]) == Some(c.name)
  {
    if files != [] {
      var init := files[..|files| - 1];
      var f := files[|files| - 1];
      FileModelsKnown(init);
      forall c | c in FilesComponents(files)
        ensures c.kind == MachineLearningModel && c.name in KnownModels &&
          exists i, j :: 0 <= i < |files| && IsPythonFile(files[i]) && files[i].calls.Some? &&
            0 <= j < |files[i].calls.value| && ModelName(files[i].calls.value[j]) == Some(c.name)
      {
        if c in FilesComponents(init) {
          var i, j :| 0 <= i < |init| && IsPythonFile(init[i]) && init[i].calls.Some? &&
            0 <= j < |init[i].calls.value| && ModelName(init[i].calls.value[j]) == Some(c.name);
          assert files[i] == init[i];
        } else {
          assert IsPythonFile(f) && f.calls.Some? && c in CallsComponents(f.calls.value, f.path);
          var j := CallOf(f.calls.value, f.path, c);
          assert files[|files| - 1] == f;
        }
      }
    }
  }

  /** The call a model component comes from. */
  lemma {:induction false} CallOf(calls: seq<CallFunc>, filePath: string, c: Component) returns (j: nat)
    requires c in CallsComponents(calls, filePath)
    ensures j < |calls| && ModelName(calls[j]) == Some(c.name)
    ensures c.kind == MachineLearningModel && c.name in KnownModels
  {
    var init := calls[..|calls| - 1];
    if c in CallsComponents(init, filePath) {
      j := CallOf(init, filePath, c);
    } else {
      j := |calls| - 1;
      CallAddsModel(calls[j], filePath);
    }
  }
}
