/** The extension manager of the template engine: a registry of known
    extensions, the validation and loading of the extensions a `[jinja2]`
    table enables, their ordering by priority, and the pass that threads
    the template text through them before rendering. The rendering itself
    is not part of this model. */
module TemplateEngine {
  import opened Base
  import opened Text
  import opened Includes
  import opened SqlplusExtension

  /** An entry of the extension registry: where the processing function
      lives, when it runs (lower priorities first), and the prefix its
      variables receive. */
  datatype ExtInfo = ExtInfo(moduleName: string, functionName: string, priority: int,
                             namespace: Option<string>, description: string)

  type Registry = map<string, ExtInfo>

  /** `EXTENSION_REGISTRY`. */
  const ExtensionRegistry: Registry := map["sqlplus" := ExtInfo(
    "MergeSourceFile.extensions.sqlplus", "process_sqlplus", 10, Some("sql"),
    "SQLPlus compatibility extension (@includes, DEFINE variables)")]

  function NotRegisteredMsg(name: string): string {
    "Extensión no registrada: " + name
  }

  /** `get_extension_info`. */
  function GetExtensionInfo(reg: Registry, name: string): (r: Result<ExtInfo, Exc>)
    ensures r.Success? <==> name in reg
    ensures r.Success? ==> r.value == reg[name]
    ensures r.Failure? ==> r.error == KeyError(NotRegisteredMsg(name))
  {
    if name in reg then Success(reg[name]) else Failure(KeyError(NotRegisteredMsg(name)))
  }

  /** `get_available_extensions`: every registered name with its
      description. */
  function GetAvailableExtensions(reg: Registry): (r: map<string, string>)
    ensures r.Keys == reg.Keys
    ensures forall n :: n in r ==> r[n] == reg[n].description
  {
    map n | n in reg :: reg[n].description
  }

  /** The registry holds the SQL*Plus extension alone, at priority 10 and
      with the variable prefix `sql`. */
  lemma RegistryHoldsSqlplus()
    ensures ExtensionRegistry.Keys == {"sqlplus"}
    ensures GetExtensionInfo(ExtensionRegistry, "sqlplus").Success?
    ensures GetExtensionInfo(ExtensionRegistry, "sqlplus").value.priority == 10
    ensures GetExtensionInfo(ExtensionRegistry, "sqlplus").value.namespace == Some("sql")
  {
  }

  /** The outcome of `validate_extension_list`: the names themselves when
      every one is registered, otherwise a `ValueError` for the first one
      that is not. */
  function Validated(reg: Registry, names: seq<string>): (r: Result<seq<string>, Exc>)
    ensures r.Success? <==> forall k :: 0 <= k < |names| ==> names[k] in reg
    ensures r.Success? ==> r.value == names
    ensures r.Failure? ==>
      exists k :: 0 <= k < |names| && names[k] !in reg
        && (forall j :: 0 <= j < k ==> names[j] in reg)
        && r.error == ValueError(NotRegisteredMsg(names[k]))
    decreases |names|
  {
    if names == [] then Success([])
    else if names[0] !in reg then Failure(ValueError(NotRegisteredMsg(names[0])))
    else
      var rest := Validated(reg, names[1..]);
      if rest.Failure? then
        ghost var k :| 0 <= k < |names[1..]| && names[1..][k] !in reg
          && (forall j :: 0 <= j < k ==> names[1..][j] in reg)
          && rest.error == ValueError(NotRegisteredMsg(names[1..][k]));
        assert names[k + 1] !in reg && forall j :: 0 <= j < k + 1 ==> names[j] in reg;
        rest
      else
        assert names == [names[0]] + names[1..];
        Success([names[0]] + rest.value)
  }

  /** `validate_extension_list`. */
  method ValidateExtensionList(reg: Registry, names: seq<string>) returns (r: Result<seq<string>, Exc>)
    ensures r == Validated(reg, names)
  {
    var valid: seq<string> := [];
    var i := 0;
    while i < |names|
      invariant 0 <= i <= |names|
      invariant valid == names[..i]
      invariant forall j :: 0 <= j < i ==> names[j] in reg
    {
      if names[i] in reg {
        valid := valid + [names[i]];
      } else {
        return Failure(ValueError(NotRegisteredMsg(names[i])));
      }
      i := i + 1;
    }
    assert valid == names;
    return Success(valid);
  }

  /** The names iterated over by the validation: the items of a list of
      strings, or the characters of a string. */
  function ExtensionNames(listed: Value): (r: Result<seq<string>, Exc>)
    ensures listed.VList? && (forall k :: 0 <= k < |listed.items| ==> listed.items[k].VStr?) ==>
      r.Success? && |r.value| == |listed.items|
      && forall k :: 0 <= k < |r.value| ==> listed.items[k] == VStr(r.value[k])
    ensures listed.VStr? ==>
      r.Success? && |r.value| == |listed.s| && forall k :: 0 <= k < |r.value| ==> r.value[k] == [listed.s[k]]
  {
    match listed
    case VList(items) =>
      if forall k :: 0 <= k < |items| ==> items[k].VStr?
      then Success(seq(|items|, k requires 0 <= k < |items| => items[k].s))
      else Failure(TypeError("unhashable or non-string extension name"))
    case VStr(s) => Success(seq(|s|, k requires 0 <= k < |s| => [s[k]]))
    case _ => Failure(TypeError("object is not iterable"))
  }

  /** What an extension's processing function receives. */
  datatype HandlerCall = HandlerCall(content: string, inputFile: string, basePath: string,
                                     config: Value, verbose: bool)

  /** What it returns: the text with variables for templates, or the text
      alone. */
  datatype HandlerResult =
    | Pair(content: string, vars: map<string, Value>)
    | ContentOnly(content: string)

  /** A processing function: `process_sqlplus`, or one of another module. */
  datatype Handler =
    | SqlplusHandler
    | OtherHandler(run: HandlerCall -> Result<HandlerResult, Exc>)

  /** The importable modules, by name, with the functions they define. */
  type Modules = map<string, map<string, Handler>>

  const Importable: Modules :=
    map["MergeSourceFile.extensions.sqlplus" := map["process_sqlplus" := SqlplusHandler]]

  /** `_import_function`. */
  function ImportFunction(modules: Modules, moduleName: string, functionName: string): (r: Result<Handler, Exc>)
    ensures r.Success? <==> moduleName in modules && functionName in modules[moduleName]
    ensures r.Success? ==> r.value == modules[moduleName][functionName]
  {
    if moduleName !in modules then Failure(ImportError(moduleName))
    else if functionName !in modules[moduleName] then Failure(ImportError("Función no encontrada: " + functionName))
    else Success(modules[moduleName][functionName])
  }

  /** A loaded extension: its name, registry entry and configuration (the
      `[jinja2.<name>]` table, empty when absent). */
  datatype LoadedExt = LoadedExt(name: string, info: ExtInfo, config: Value) {
    /** The prefix of its variables, by default its own name. */
    function Namespace(): string {
      if info.namespace.Some? then info.namespace.value else name
    }
  }

  predicate CanImport(modules: Modules, e: LoadedExt) {
    ImportFunction(modules, e.info.moduleName, e.info.functionName).Success?
  }

  /** The loading loop of `_load_enabled_extensions`, in the listed order. */
  function LoadAll(reg: Registry, modules: Modules, jinjaConfig: map<string, Value>, names: seq<string>)
    : Result<seq<LoadedExt>, Exc>
    decreases |names|
  {
    if names == [] then Success([])
    else
      var info :- GetExtensionInfo(reg, names[0]);
      var _ :- ImportFunction(modules, info.moduleName, info.functionName);
      var rest :- LoadAll(reg, modules, jinjaConfig, names[1..]);
      Success([LoadedExt(names[0], info, Get(jinjaConfig, names[0], VMap(map[])))] + rest)
  }

  /** A successful load has one extension per name, in order, with its
      registry entry, its configuration and an importable handler. */
  lemma {:induction false} LoadAllSpec(reg: Registry, modules: Modules, jinjaConfig: map<string, Value>, names: seq<string>)
    ensures var r := LoadAll(reg, modules, jinjaConfig, names);
      r.Success? ==> (
      && |r.value| == |names|
      && forall k :: 0 <= k < |names| ==>
           names[k] in reg
           && r.value[k] == LoadedExt(names[k], reg[names[k]], Get(jinjaConfig, names[k], VMap(map[])))
           && CanImport(modules, r.value[k]))
    decreases |names|
  {
    if names != [] {
      LoadAllSpec(reg, modules, jinjaConfig, names[1..]);
    }
  }

  /** `x` placed before the first element whose priority is not lower. */
  function InsertByPriority(x: LoadedExt, s: seq<LoadedExt>): seq<LoadedExt>
    decreases |s|
  {
    if s == [] || x.info.priority <= s[0].info.priority then [x] + s
    else [s[0]] + InsertByPriority(x, s[1..])
  }

  /** `list.sort(key=priority)`: a stable sort by priority. */
  function SortByPriority(s: seq<LoadedExt>): seq<LoadedExt>
    decreases |s|
  {
    if s == [] then [] else InsertByPriority(s[0], SortByPriority(s[1..]))
  }

  predicate Sorted(s: seq<LoadedExt>) {
    forall i, j :: 0 <= i < j < |s| ==> s[i].info.priority <= s[j].info.priority
  }

  /** The elements of `s` with priority `p`, in order. */
  function WithPriority(p: int, s: seq<LoadedExt>): seq<LoadedExt>
    decreases |s|
  {
    if s == [] then []
    else (if s[0].info.priority == p then [s[0]] else []) + WithPriority(p, s[1..])
  }

  /** `_load_enabled_extensions`: the listed extensions, validated,
      loaded and ordered by priority. */
  function Load(reg: Registry, modules: Modules, jinjaConfig: map<string, Value>): (r: Result<seq<LoadedExt>, Exc>)
    ensures !Truthy(Get(jinjaConfig, "extensions", VList([]))) ==> r == Success([])
    ensures r.Success? ==> Sorted(r.value)
    ensures r.Success? ==> forall k :: 0 <= k < |r.value| ==>
      r.value[k].name in reg && r.value[k].info == reg[r.value[k].name] && CanImport(modules, r.value[k])
  {
    var listed := Get(jinjaConfig, "extensions", VList([]));
    if !Truthy(listed) then Success([])
    else
      var names :- ExtensionNames(listed);
      var valid :- Validated(reg, names);
      var loaded :- LoadAll(reg, modules, jinjaConfig, valid);
      SortedLoad(reg, modules, jinjaConfig, valid);
      Success(SortByPriority(loaded))
  }

  /** Sorting a successful load keeps every extension registered and
      importable, and orders them by priority. */
  lemma SortedLoad(reg: Registry, modules: Modules, jinjaConfig: map<string, Value>, names: seq<string>)
    requires LoadAll(reg, modules, jinjaConfig, names).Success?
    ensures var s := SortByPriority(LoadAll(reg, modules, jinjaConfig, names).value);
      Sorted(s)
      && forall k :: 0 <= k < |s| ==>
           s[k].name in reg && s[k].info == reg[s[k].name] && CanImport(modules, s[k])
  {
    var loaded := LoadAll(reg, modules, jinjaConfig, names).value;
    LoadAllSpec(reg, modules, jinjaConfig, names);
    SortSorted(loaded);
    SortPermutation(loaded);
    var s := SortByPriority(loaded);
    forall k | 0 <= k < |s|
      ensures s[k].name in reg && s[k].info == reg[s[k].name] && CanImport(modules, s[k])
    {
      assert s[k] in multiset(loaded);
      var j :| 0 <= j < |loaded| && loaded[j] == s[k];
    }
  }

  /** `process_sqlplus` or another processing function, called. */
  function RunHandler(h: Handler, call: HandlerCall, fs: FileSystem, fuel: nat): Result<HandlerResult, Exc> {
    match h
    case SqlplusHandler =>
      if !call.config.VMap? then Failure(AttributeError)
      else
        var (text, defs) :- Sqlplus(fs, call.content, call.inputFile, call.basePath, call.config.m, fuel);
        Success(Pair(text, map n | n in defs :: VStr(defs[n])))
    case OtherHandler(run) => run(call)
  }

  /** `namespace_name` for every variable of an extension. */
  function Namespaced(ns: string, vars: map<string, Value>): map<string, Value> {
    var keys := set n | n in vars :: ns + "_" + n;
    map key | key in keys :: vars[key[|ns| + 1..]]
  }

  /** The text, namespaced variables and conflicting names that
      `_process_extension_result` makes of an extension's result; a name
      conflicts when the caller's variables have it too. */
  datatype Processed = Processed(content: string, vars: map<string, Value>, conflicts: set<string>)

  function ExtensionResult(res: HandlerResult, e: LoadedExt, variables: map<string, Value>): Processed {
    match res
    case Pair(content, vars) => Processed(content, Namespaced(e.Namespace(), vars), vars.Keys * variables.Keys)
    case ContentOnly(content) => Processed(content, map[], {})
  }

  /** `_process_extension_result`: the loop renaming every variable of
      the result and noting the names that clash with the caller's. */
  method ProcessExtensionResult(res: HandlerResult, e: LoadedExt, variables: map<string, Value>)
    returns (p: Processed)
    ensures p == ExtensionResult(res, e, variables)
  {
    if res.ContentOnly? {
      return Processed(res.content, map[], {});
    }
    var extracted, conflicts := NamespaceAll(e.Namespace(), res.vars, variables);
    return Processed(res.content, extracted, conflicts);
  }

  /** The renaming loop of `_process_extension_result`. */
  method NamespaceAll(ns: string, vars: map<string, Value>, variables: map<string, Value>)
    returns (extracted: map<string, Value>, conflicts: set<string>)
    ensures extracted == Namespaced(ns, vars)
    ensures conflicts == vars.Keys * variables.Keys
  {
    extracted, conflicts := map[], {};
    var remaining := vars.Keys;
    while remaining != {}
      invariant remaining <= vars.Keys
      invariant Renames(ns, vars, vars.Keys - remaining, extracted)
      invariant conflicts == (vars.Keys - remaining) * variables.Keys
      decreases remaining
    {
      var n :| n in remaining;
      RenamesAdd(ns, vars, vars.Keys - remaining, extracted, n);
      extracted := extracted[ns + "_" + n := vars[n]];
      if n in variables {
        conflicts := conflicts + {n};
      }
      remaining := remaining - {n};
    }
    RenamesIsNamespaced(ns, vars, extracted);
  }

  /** `out` holds the variables of `vars` named in `names`, renamed
      `ns_name`, and nothing else. */
  predicate Renames(ns: string, vars: map<string, Value>, names: set<string>, out: map<string, Value>)
    requires names <= vars.Keys
  {
    && (forall n :: n in names ==> ns + "_" + n in out && out[ns + "_" + n] == vars[n])
    && (forall key :: key in out ==> HasPrefix(ns, key) && key[|ns| + 1..] in names)
  }

  lemma RenamesAdd(ns: string, vars: map<string, Value>, names: set<string>, out: map<string, Value>, n: string)
    requires names <= vars.Keys && n in vars && n !in names && Renames(ns, vars, names, out)
    ensures Renames(ns, vars, names + {n}, out[ns + "_" + n := vars[n]])
  {
    var key := ns + "_" + n;
    assert key[|ns| + 1..] == n;
    forall m | m in names ensures ns + "_" + m != key {
      assert (ns + "_" + m)[|ns| + 1..] == m;
    }
  }

  lemma RenamesIsNamespaced(ns: string, vars: map<string, Value>, out: map<string, Value>)
    requires Renames(ns, vars, vars.Keys, out)
    ensures out == Namespaced(ns, vars)
  {
    NamespacedNames(ns, vars);
    var r := Namespaced(ns, vars);
    forall key | key in out ensures key in r && r[key] == out[key] {
      var n := key[|ns| + 1..];
      assert key == ns + "_" + n;
    }
    forall key | key in r ensures key in out {
      var n := key[|ns| + 1..];
      assert key == ns + "_" + n;
    }
  }

  /** The arguments of `process_content` that every extension sees. */
  datatype Request = Request(inputFile: string, basePath: string, variables: map<string, Value>, verbose: bool)

  /** The loop of `process_content` over `exts`, from the text `content`
      and the variables `extracted` gathered so far. An extension that
      fails is re-raised in verbose mode and otherwise passed over, the
      text staying as it was before it. */
  function Thread(modules: Modules, exts: seq<LoadedExt>, req: Request, fs: FileSystem, fuel: nat,
                  content: string, extracted: map<string, Value>): Result<(string, map<string, Value>), Exc>
    requires forall k :: 0 <= k < |exts| ==> CanImport(modules, exts[k])
    decreases |exts|
  {
    if exts == [] then Success((content, extracted))
    else
      var e := exts[0];
      assert CanImport(modules, e);
      var h := ImportFunction(modules, e.info.moduleName, e.info.functionName).value;
      var out := RunHandler(h, HandlerCall(content, req.inputFile, req.basePath, e.config, req.verbose), fs, fuel);
      if out.Success? then
        var p := ExtensionResult(out.value, e, req.variables);
        Thread(modules, exts[1..], req, fs, fuel, p.content, extracted + p.vars)
      else if req.verbose then Failure(out.error)
      else Thread(modules, exts[1..], req, fs, fuel, content, extracted)
  }

  /** A processing function, called. */
  method CallHandler(h: Handler, call: HandlerCall, fs: FileSystem, fuel: nat) returns (r: Result<HandlerResult, Exc>)
    ensures r == RunHandler(h, call, fs, fuel)
  {
    match h {
      case SqlplusHandler =>
        if !call.config.VMap? {
          return Failure(AttributeError);
        }
        var out := ProcessSqlplus(fs, call.content, call.inputFile, call.basePath, call.config.m, fuel);
        if out.Failure? {
          return Failure(out.error);
        }
        var (text, defs) := out.value;
        return Success(Pair(text, map n | n in defs :: VStr(defs[n])));
      case OtherHandler(run) =>
        return run(call);
    }
  }

  /** `_load_enabled_extensions`, with the loop that looks every listed
      extension up and imports its processing function. */
  method LoadEnabledExtensions(reg: Registry, modules: Modules, jinjaConfig: map<string, Value>)
    returns (r: Result<seq<LoadedExt>, Exc>)
    ensures r == Load(reg, modules, jinjaConfig)
  {
    var listed := Get(jinjaConfig, "extensions", VList([]));
    if !Truthy(listed) {
      return Success([]);
    }
    var names :- ExtensionNames(listed);
    var valid :- ValidateExtensionList(reg, names);
    var loaded :- ImportAll(reg, modules, jinjaConfig, valid);
    return Success(SortByPriority(loaded));
  }

  /** `loaded` in front of the extensions of a successful load. */
  function Prepend(loaded: seq<LoadedExt>, r: Result<seq<LoadedExt>, Exc>): Result<seq<LoadedExt>, Exc> {
    if r.Success? then Success(loaded + r.value) else r
  }

  lemma PrependNothing(r: Result<seq<LoadedExt>, Exc>)
    ensures Prepend([], r) == r
  {
    if r.Success? {
      assert [] + r.value == r.value;
    }
  }

  lemma PrependStep(loaded: seq<LoadedExt>, x: LoadedExt, r: Result<seq<LoadedExt>, Exc>)
    ensures Prepend(loaded, Prepend([x], r)) == Prepend(loaded + [x], r)
  {
    if r.Success? {
      assert loaded + ([x] + r.value) == loaded + [x] + r.value;
    }
  }

  /** The loop of `_load_enabled_extensions` over the validated names. */
  method ImportAll(reg: Registry, modules: Modules, jinjaConfig: map<string, Value>, names: seq<string>)
    returns (r: Result<seq<LoadedExt>, Exc>)
    ensures r == LoadAll(reg, modules, jinjaConfig, names)
  {
    var loaded: seq<LoadedExt> := [];
    var i := 0;
    assert names[i..] == names;
    PrependNothing(LoadAll(reg, modules, jinjaConfig, names));
    while i < |names|
      invariant 0 <= i <= |names|
      invariant LoadAll(reg, modules, jinjaConfig, names) == Prepend(loaded, LoadAll(reg, modules, jinjaConfig, names[i..]))
    {
      var name := names[i];
      assert names[i..][0] == name && names[i..][1..] == names[i + 1..];
      var info :- GetExtensionInfo(reg, name);
      var _ :- ImportFunction(modules, info.moduleName, info.functionName);
      var x := LoadedExt(name, info, Get(jinjaConfig, name, VMap(map[])));
      PrependStep(loaded, x, LoadAll(reg, modules, jinjaConfig, names[i + 1..]));
      loaded := loaded + [x];
      i := i + 1;
    }
    assert names[i..] == [];
    assert loaded + [] == loaded;
    return Success(loaded);
  }

  class ExtensionManager {
    const jinjaConfig: map<string, Value>
    const modules: Modules
    const loadedExtensions: seq<LoadedExt>

    /** Every loaded extension's processing function can be imported. */
    predicate Valid() {
      forall k :: 0 <= k < |loadedExtensions| ==> CanImport(modules, loadedExtensions[k])
    }

    constructor(jinjaConfig: map<string, Value>, modules: Modules, loadedExtensions: seq<LoadedExt>)
      requires forall k :: 0 <= k < |loadedExtensions| ==> CanImport(modules, loadedExtensions[k])
      ensures this.jinjaConfig == jinjaConfig && this.modules == modules
      ensures this.loadedExtensions == loadedExtensions && Valid()
    {
      this.jinjaConfig := jinjaConfig;
      this.modules := modules;
      this.loadedExtensions := loadedExtensions;
    }

    /** `has_extensions`. */
    function HasExtensions(): (b: bool)
      ensures b <==> |GetExtensionNames()| > 0
    {
      |loadedExtensions| > 0
    }

    /** `get_extension_names`: the loaded names, in execution order. */
    function GetExtensionNames(): (names: seq<string>)
      ensures |names| == |loadedExtensions|
      ensures forall k :: 0 <= k < |names| ==> names[k] == loadedExtensions[k].name
    {
      seq(|loadedExtensions|, k requires 0 <= k < |loadedExtensions| => loadedExtensions[k].name)
    }

    /** `process_content`: the text passes through every loaded extension
        in order, and the namespaced variables they return are gathered,
        a later extension's overriding an earlier one's. */
    method ProcessContent(content: string, req: Request, fs: FileSystem, fuel: nat)
      returns (r: Result<(string, map<string, Value>), Exc>)
      requires Valid()
      ensures r == Thread(modules, loadedExtensions, req, fs, fuel, content, map[])
    {
      var exts := loadedExtensions;
      var text := content;
      var extracted: map<string, Value> := map[];
      var i := 0;
      assert exts[i..] == exts;
      while i < |exts|
        invariant 0 <= i <= |exts|
        invariant Thread(modules, exts, req, fs, fuel, content, map[])
               == Thread(modules, exts[i..], req, fs, fuel, text, extracted)
      {
        var e := exts[i];
        assert exts[i..][0] == e && exts[i..][1..] == exts[i + 1..];
        var h := ImportFunction(modules, e.info.moduleName, e.info.functionName).value;
        var out := CallHandler(h, HandlerCall(text, req.inputFile, req.basePath, e.config, req.verbose), fs, fuel);
        if out.Success? {
          var p := ProcessExtensionResult(out.value, e, req.variables);
          text := p.content;
          extracted := extracted + p.vars;
        } else if req.verbose {
          return Failure(out.error);
        }
        i := i + 1;
      }
      assert exts[i..] == [];
      return Success((text, extracted));
    }
  }

  /** `ExtensionManager(jinja_config)`: the constructor loads the enabled
      extensions and fails when that fails. */
  method NewExtensionManager(reg: Registry, modules: Modules, jinjaConfig: map<string, Value>)
    returns (r: Result<ExtensionManager, Exc>)
    ensures Load(reg, modules, jinjaConfig).Failure? ==> r == Failure(Load(reg, modules, jinjaConfig).error)
    ensures Load(reg, modules, jinjaConfig).Success? ==>
      && r.Success? && fresh(r.value) && r.value.Valid()
      && r.value.jinjaConfig == jinjaConfig && r.value.modules == modules
      && r.value.loadedExtensions == Load(reg, modules, jinjaConfig).value
  {
    var loaded := LoadEnabledExtensions(reg, modules, jinjaConfig);
    if loaded.Failure? {
      return Failure(loaded.error);
    }
    var m := new ExtensionManager(jinjaConfig, modules, loaded.value);
    return Success(m);
  }

  /** The render variables of `process_file`: a copy of the caller's,
      overlaid with the extracted ones. */
  function MergeVariables(variables: map<string, Value>, extracted: map<string, Value>): (all: map<string, Value>)
    ensures all.Keys == variables.Keys + extracted.Keys
    ensures forall n :: n in extracted ==> all[n] == extracted[n]
    ensures forall n :: n in variables && n !in extracted ==> all[n] == variables[n]
  {
    variables + extracted
  }

  /** The argument of the `sql_escape` filter: a string, or any other value
      given by its `str()` text. */
  datatype FilterArg = StrArg(s: string) | OtherArg(text: string)

  /** `_sql_escape_filter`. */
  function SqlEscape(v: FilterArg): string {
    match v
    case StrArg(s) => ReplaceAll(s, "'", "''")
    case OtherArg(text) => text
  }

  lemma {:induction false} InsertPermutation(x: LoadedExt, s: seq<LoadedExt>)
    ensures multiset(InsertByPriority(x, s)) == multiset([x] + s)
    decreases |s|
  {
    if s != [] && x.info.priority > s[0].info.priority {
      InsertPermutation(x, s[1..]);
      assert s == [s[0]] + s[1..];
    }
  }

  /** The priority sort only reorders. */
  lemma {:induction false} SortPermutation(s: seq<LoadedExt>)
    ensures multiset(SortByPriority(s)) == multiset(s)
    decreases |s|
  {
    if s != [] {
      SortPermutation(s[1..]);
      InsertPermutation(s[0], SortByPriority(s[1..]));
      assert s == [s[0]] + s[1..];
    }
  }

  lemma {:induction false} InsertSorted(x: LoadedExt, s: seq<LoadedExt>)
    requires Sorted(s)
    ensures Sorted(InsertByPriority(x, s))
    ensures |InsertByPriority(x, s)| == |s| + 1
    ensures InsertByPriority(x, s)[0] == x || (s != [] && InsertByPriority(x, s)[0] == s[0])
    decreases |s|
  {
    if s != [] && x.info.priority > s[0].info.priority {
      InsertSorted(x, s[1..]);
    }
  }

  /** The priority sort orders by ascending priority. */
  lemma {:induction false} SortSorted(s: seq<LoadedExt>)
    ensures Sorted(SortByPriority(s))
    decreases |s|
  {
    if s != [] {
      SortSorted(s[1..]);
      InsertSorted(s[0], SortByPriority(s[1..]));
    }
  }

  lemma {:induction false} InsertKeepsTies(p: int, x: LoadedExt, s: seq<LoadedExt>)
    ensures WithPriority(p, InsertByPriority(x, s))
         == (if x.info.priority == p then [x] else []) + WithPriority(p, s)
    decreases |s|
  {
    var mine := if x.info.priority == p then [x] else [];
    if s == [] || x.info.priority <= s[0].info.priority {
      assert ([x] + s)[1..] == s;
    } else {
      var rest := InsertByPriority(x, s[1..]);
      var first := if s[0].info.priority == p then [s[0]] else [];
      InsertKeepsTies(p, x, s[1..]);
      assert ([s[0]] + rest)[1..] == rest;
      calc {
        WithPriority(p, [s[0]] + rest);
        first + WithPriority(p, rest);
        first + (mine + WithPriority(p, s[1..]));
        { assert first == [] || mine == []; }
        mine + (first + WithPriority(p, s[1..]));
        mine + WithPriority(p, s);
      }
    }
  }

  /** The priority sort is stable: extensions of equal priority keep the
      order in which they were listed. */
  lemma {:induction false} SortStable(p: int, s: seq<LoadedExt>)
    ensures WithPriority(p, SortByPriority(s)) == WithPriority(p, s)
    decreases |s|
  {
    if s != [] {
      SortStable(p, s[1..]);
      InsertKeepsTies(p, s[0], SortByPriority(s[1..]));
    }
  }

  /** The loaded extensions are the listed ones, reordered by a stable
      sort on priority. */
  lemma LoadOrder(reg: Registry, modules: Modules, jinjaConfig: map<string, Value>, names: seq<string>)
    requires Truthy(Get(jinjaConfig, "extensions", VList([])))
    requires ExtensionNames(Get(jinjaConfig, "extensions", VList([]))) == Success(names)
    requires Load(reg, modules, jinjaConfig).Success?
    ensures LoadAll(reg, modules, jinjaConfig, names).Success?
    ensures multiset(Load(reg, modules, jinjaConfig).value) == multiset(LoadAll(reg, modules, jinjaConfig, names).value)
    ensures forall p :: WithPriority(p, Load(reg, modules, jinjaConfig).value)
                     == WithPriority(p, LoadAll(reg, modules, jinjaConfig, names).value)
  {
    var loaded := LoadAll(reg, modules, jinjaConfig, names).value;
    SortPermutation(loaded);
    forall p ensures WithPriority(p, SortByPriority(loaded)) == WithPriority(p, loaded) {
      SortStable(p, loaded);
    }
  }

  /** Only registered names load, and the first unregistered name is the
      one reported. */
  lemma UnknownExtensionRejected(reg: Registry, modules: Modules, jinjaConfig: map<string, Value>, names: seq<string>, k: nat)
    requires Truthy(Get(jinjaConfig, "extensions", VList([])))
    requires ExtensionNames(Get(jinjaConfig, "extensions", VList([]))) == Success(names)
    requires k < |names| && names[k] !in reg && forall j :: 0 <= j < k ==> names[j] in reg
    ensures Load(reg, modules, jinjaConfig) == Failure(ValueError(NotRegisteredMsg(names[k])))
  {
    var r := Validated(reg, names);
    var i :| 0 <= i < |names| && names[i] !in reg
        && (forall j :: 0 <= j < i ==> names[j] in reg)
        && r.error == ValueError(NotRegisteredMsg(names[i]));
    assert !(i < k) && !(k < i);
  }

  /** A name is namespaced by `ns` when it starts with `ns_`. */
  predicate HasPrefix(ns: string, key: string) {
    ns + "_" <= key
  }

  /** Namespacing renames every variable to `ns_name`, keeps its value,
      and makes no other name. */
  lemma NamespacedNames(ns: string, vars: map<string, Value>)
    ensures forall n :: n in vars ==> ns + "_" + n in Namespaced(ns, vars) && Namespaced(ns, vars)[ns + "_" + n] == vars[n]
    ensures forall key :: key in Namespaced(ns, vars) ==> HasPrefix(ns, key) && key[|ns| + 1..] in vars
  {
    forall n | n in vars ensures (ns + "_" + n)[|ns| + 1..] == n {
    }
  }

  /** Every variable `process_content` returns was gathered before the
      loop or is namespaced by one of the extensions it ran. */
  lemma {:induction false} ThreadVariables(modules: Modules, exts: seq<LoadedExt>, req: Request, fs: FileSystem, fuel: nat,
                                           content: string, extracted: map<string, Value>)
    requires forall k :: 0 <= k < |exts| ==> CanImport(modules, exts[k])
    ensures var r := Thread(modules, exts, req, fs, fuel, content, extracted);
      r.Success? ==> forall key :: key in r.value.1 ==>
        key in extracted || exists k :: 0 <= k < |exts| && HasPrefix(exts[k].Namespace(), key)
    decreases |exts|
  {
    if exts != [] {
      var e := exts[0];
      var h := ImportFunction(modules, e.info.moduleName, e.info.functionName).value;
      var out := RunHandler(h, HandlerCall(content, req.inputFile, req.basePath, e.config, req.verbose), fs, fuel);
      if out.Success? {
        var p := ExtensionResult(out.value, e, req.variables);
        if out.value.Pair? {
          NamespacedNames(e.Namespace(), out.value.vars);
        }
        ThreadVariables(modules, exts[1..], req, fs, fuel, p.content, extracted + p.vars);
        var r := Thread(modules, exts[1..], req, fs, fuel, p.content, extracted + p.vars);
        if r.Success? {
          forall key | key in r.value.1
            ensures key in extracted || exists k :: 0 <= k < |exts| && HasPrefix(exts[k].Namespace(), key)
          {
            if key !in extracted && key in p.vars {
              assert HasPrefix(exts[0].Namespace(), key);
            } else if key !in extracted {
              assert key !in extracted + p.vars;
              var k :| 0 <= k < |exts[1..]| && HasPrefix(exts[1..][k].Namespace(), key);
              assert HasPrefix(exts[k + 1].Namespace(), key);
            }
          }
        }
      } else if !req.verbose {
        ThreadVariables(modules, exts[1..], req, fs, fuel, content, extracted);
        var r := Thread(modules, exts[1..], req, fs, fuel, content, extracted);
        if r.Success? {
          forall key | key in r.value.1 && key !in extracted
            ensures exists k :: 0 <= k < |exts| && HasPrefix(exts[k].Namespace(), key)
          {
            assert key in Thread(modules, exts[1..], req, fs, fuel, content, extracted).value.1;
            var k :| 0 <= k < |exts[1..]| && HasPrefix(exts[1..][k].Namespace(), key);
            assert HasPrefix(exts[k + 1].Namespace(), key);
          }
        }
      }
    }
  }

  /** Out of verbose mode no extension failure escapes: the run always
      produces a text. */
  lemma {:induction false} QuietNeverRaises(modules: Modules, exts: seq<LoadedExt>, req: Request, fs: FileSystem, fuel: nat,
                                            content: string, extracted: map<string, Value>)
    requires forall k :: 0 <= k < |exts| ==> CanImport(modules, exts[k])
    requires !req.verbose
    ensures Thread(modules, exts, req, fs, fuel, content, extracted).Success?
    decreases |exts|
  {
    if exts != [] {
      var e := exts[0];
      var h := ImportFunction(modules, e.info.moduleName, e.info.functionName).value;
      var out := RunHandler(h, HandlerCall(content, req.inputFile, req.basePath, e.config, req.verbose), fs, fuel);
      if out.Success? {
        var p := ExtensionResult(out.value, e, req.variables);
        QuietNeverRaises(modules, exts[1..], req, fs, fuel, p.content, extracted + p.vars);
      } else {
        QuietNeverRaises(modules, exts[1..], req, fs, fuel, content, extracted);
      }
    }
  }

  /** Out of verbose mode a failing extension is passed over with the text
      it was given: when every extension fails, the text and the variables
      come out as they went in. */
  lemma {:induction false} FailuresPassedOver(modules: Modules, exts: seq<LoadedExt>, req: Request, fs: FileSystem, fuel: nat,
                                              content: string, extracted: map<string, Value>)
    requires forall k :: 0 <= k < |exts| ==> CanImport(modules, exts[k])
    requires !req.verbose
    requires forall k :: 0 <= k < |exts| ==>
      (CanImport(modules, exts[k]) &&
       RunHandler(ImportFunction(modules, exts[k].info.moduleName, exts[k].info.functionName).value,
                  HandlerCall(content, req.inputFile, req.basePath, exts[k].config, req.verbose), fs, fuel).Failure?)
    ensures Thread(modules, exts, req, fs, fuel, content, extracted) == Success((content, extracted))
    decreases |exts|
  {
    if exts != [] {
      assert forall k :: 0 <= k < |exts[1..]| ==> exts[1..][k] == exts[k + 1];
      FailuresPassedOver(modules, exts[1..], req, fs, fuel, content, extracted);
    }
  }

  /** A name clash with the caller's variables is only reported: the text
      and the variables produced do not depend on the caller's variables. */
  lemma {:induction false} ConflictsChangeNothing(modules: Modules, exts: seq<LoadedExt>, req: Request, other: map<string, Value>,
                                                  fs: FileSystem, fuel: nat, content: string, extracted: map<string, Value>)
    requires forall k :: 0 <= k < |exts| ==> CanImport(modules, exts[k])
    ensures Thread(modules, exts, req, fs, fuel, content, extracted)
         == Thread(modules, exts, req.(variables := other), fs, fuel, content, extracted)
    decreases |exts|
  {
    if exts != [] {
      var e := exts[0];
      var h := ImportFunction(modules, e.info.moduleName, e.info.functionName).value;
      var out := RunHandler(h, HandlerCall(content, req.inputFile, req.basePath, e.config, req.verbose), fs, fuel);
      if out.Success? {
        var p := ExtensionResult(out.value, e, req.variables);
        var q := ExtensionResult(out.value, e, other);
        assert p.content == q.content && p.vars == q.vars;
        ConflictsChangeNothing(modules, exts[1..], req, other, fs, fuel, p.content, extracted + p.vars);
      } else {
        ConflictsChangeNothing(modules, exts[1..], req, other, fs, fuel, content, extracted);
      }
    }
  }

  /** Collapses every doubled `c` back into one. */
  function Undouble(s: string, c: char): string
    decreases |s|
  {
    if |s| >= 2 && s[0] == c && s[1] == c then [c] + Undouble(s[2..], c)
    else if s == [] then []
    else [s[0]] + Undouble(s[1..], c)
  }

  lemma {:induction false} DoubleRoundTrip(s: string, c: char)
    ensures Undouble(ReplaceAll(s, [c], [c, c]), c) == s
    ensures |ReplaceAll(s, [c], [c, c])| == |s| + multiset(s)[c]
    decreases |s|
  {
    if s != [] {
      DoubleRoundTrip(s[1..], c);
      var rest := ReplaceAll(s[1..], [c], [c, c]);
      assert s == [s[0]] + s[1..];
      if s[0] == c {
        assert [c] <= s;
        assert ([c, c] + rest)[2..] == rest;
      } else {
        assert !([c] <= s);
        assert ([s[0]] + rest)[1..] == rest;
      }
    }
  }

  /** `sql_escape` doubles every quote of a string: undoubling gives the
      string back, and the result is longer by the number of quotes. */
  lemma SqlEscapeRoundTrip(s: string)
    ensures Undouble(SqlEscape(StrArg(s)), '\'') == s
    ensures |SqlEscape(StrArg(s))| == |s| + multiset(s)['\'']
  {
    DoubleRoundTrip(s, '\'');
  }
}
