/** Loading the TOML configuration: filling in defaults, moving the
    legacy `[pipeline]` execution order into `[project]`, checking that
    an input and an output are named, and reporting a missing or
    unreadable file. The same logic exists twice in the program, with
    different error messages; `Messages` is what tells the copies apart. */
module ConfigLoader {
  import opened Base

  type Table = map<string, Value>

  /** `d.setdefault(key, value)`, on the table's new value. */
  function SetDefault(d: Table, key: string, value: Value): Table {
    if key in d then d else d[key := value]
  }

  /** The `setdefault` calls on the project table, in their order. */
  const ProjectDefaults: seq<(string, Value)> :=
    [("input", VStr("")), ("output", VStr("")), ("verbose", VBool(false)),
     ("create_backup", VBool(false)), ("execution_order", VList([]))]

  /** One `setdefault` after the other. */
  function SetDefaults(d: Table, defaults: seq<(string, Value)>): Table
    decreases |defaults|
  {
    if defaults == [] then d
    else SetDefaults(SetDefault(d, defaults[0].0, defaults[0].1), defaults[1..])
  }

  /** The value the first of `defaults` naming `key` gives it. */
  function DefaultFor(defaults: seq<(string, Value)>, key: string): Option<Value>
    decreases |defaults|
  {
    if defaults == [] then None
    else if defaults[0].0 == key then Some(defaults[0].1)
    else DefaultFor(defaults[1..], key)
  }

  /** `setdefault` never overwrites: a key already present keeps its
      value, and a missing key gets the first default naming it. */
  lemma {:induction false} SetDefaultsSpec(d: Table, defaults: seq<(string, Value)>)
    ensures var r := SetDefaults(d, defaults);
      forall k :: (k in r <==> k in d || DefaultFor(defaults, k).Some?)
        && (k in r ==> r[k] == if k in d then d[k] else DefaultFor(defaults, k).value)
    decreases |defaults|
  {
    if defaults != [] {
      var d' := SetDefault(d, defaults[0].0, defaults[0].1);
      SetDefaultsSpec(d', defaults[1..]);
    }
  }

  /** On a table that already has every key, `setdefault` does nothing. */
  lemma {:induction false} SetDefaultsNoop(d: Table, defaults: seq<(string, Value)>)
    requires forall i :: 0 <= i < |defaults| ==> defaults[i].0 in d
    ensures SetDefaults(d, defaults) == d
    decreases |defaults|
  {
    if defaults != [] {
      assert defaults[0].0 in d;
      SetDefaultsNoop(d, defaults[1..]);
    }
  }

  /** The project table after normalising: every key kept, and each
      default key present with the project's, the legacy or the default
      value. */
  lemma NormalizedProjectSpec(project: Table, legacy: Option<Value>)
    ensures var r := NormalizedProject(project, legacy);
      (forall k :: k in project ==> k in r && r[k] == project[k])
      && r["input"] == Get(project, "input", VStr(""))
      && r["output"] == Get(project, "output", VStr(""))
      && r["verbose"] == Get(project, "verbose", VBool(false))
      && r["create_backup"] == Get(project, "create_backup", VBool(false))
      && r["execution_order"] == (if "execution_order" in project then project["execution_order"]
                                  else if legacy.Some? then legacy.value else VList([]))
  {
    var p := if legacy.Some? && "execution_order" !in project then project["execution_order" := legacy.value] else project;
    FillProject(p);
  }

  /** The five `setdefault` calls on a project table. */
  lemma FillProject(p: Table)
    ensures var r := SetDefaults(p, ProjectDefaults);
      (forall k :: k in p ==> k in r && r[k] == p[k])
      && r["input"] == Get(p, "input", VStr(""))
      && r["output"] == Get(p, "output", VStr(""))
      && r["verbose"] == Get(p, "verbose", VBool(false))
      && r["create_backup"] == Get(p, "create_backup", VBool(false))
      && r["execution_order"] == Get(p, "execution_order", VList([]))
  {
    var r := SetDefaults(p, ProjectDefaults);
    SetDefaultsSpec(p, ProjectDefaults);
    ProjectDefaultFor("input");
    ProjectDefaultFor("output");
    ProjectDefaultFor("verbose");
    ProjectDefaultFor("create_backup");
    ProjectDefaultFor("execution_order");
  }

  /** The default each project key gets. */
  lemma ProjectDefaultFor(k: string)
    ensures DefaultFor(ProjectDefaults, k) ==
      if k == "input" || k == "output" then Some(VStr(""))
      else if k == "verbose" || k == "create_backup" then Some(VBool(false))
      else if k == "execution_order" then Some(VList([]))
      else None
  {
    assert ProjectDefaults[1..] == [("output", VStr("")), ("verbose", VBool(false)), ("create_backup", VBool(false)), ("execution_order", VList([]))];
  }

  /** The legacy order `[pipeline].execution_order`, when there is one. */
  function LegacyOrder(config: Table): Option<Value> {
    if "pipeline" in config && config["pipeline"].VMap? && "execution_order" in config["pipeline"].m
    then Some(config["pipeline"].m["execution_order"])
    else None
  }

  /** The `[project]` table after the legacy order is moved in and the
      defaults are set. */
  function NormalizedProject(project: Table, legacy: Option<Value>): Table {
    var p := if legacy.Some? && "execution_order" !in project then project["execution_order" := legacy.value] else project;
    SetDefaults(p, ProjectDefaults)
  }

  /** The configuration once the sections `project` and `plugins` exist. */
  function WithSections(config: Table): Table {
    SetDefault(SetDefault(config, "project", VMap(map[])), "plugins", VMap(map[]))
  }

  /** `_normalize_config`: the sections `project` and `plugins` are made
      to exist, then `project` is completed. A `project` that is not a
      table has no `setdefault`. */
  function Normalized(config: Table): Result<Table, Exc> {
    var c := WithSections(config);
    if !c["project"].VMap? then Failure(AttributeError)
    else Success(c["project" := VMap(NormalizedProject(c["project"].m, LegacyOrder(c)))])
  }

  /** A configuration table that `_normalize_config` changes in place. */
  class ConfigDict {
    var entries: Table

    constructor(entries: Table)
      ensures this.entries == entries
    {
      this.entries := entries;
    }

    /** The sections are added, then the project table is completed. */
    method NormalizeConfig() returns (err: Option<Exc>)
      modifies this
      ensures Normalized(old(entries)).Success? ==> err.None? && entries == Normalized(old(entries)).value
      ensures Normalized(old(entries)).Failure? ==>
        err == Some(Normalized(old(entries)).error)
        && entries == WithSections(old(entries))
    {
      AddSections();
      if !entries["project"].VMap? {
        return Some(AttributeError);
      }
      var project := CompleteProject(entries["project"].m, LegacyOrder(entries));
      entries := entries["project" := VMap(project)];
      return None;
    }

    /** The two `setdefault` calls on the configuration itself. */
    method AddSections()
      modifies this
      ensures entries == WithSections(old(entries))
    {
      var e := entries;
      if "project" !in e {
        e := e["project" := VMap(map[])];
      }
      assert e == SetDefault(old(entries), "project", VMap(map[]));
      if "plugins" !in e {
        e := e["plugins" := VMap(map[])];
      }
      entries := e;
    }
  }

  /** The second half of `_normalize_config`: the legacy order moved in,
      then one `setdefault` after the other on the project table. */
  method CompleteProject(project: Table, legacy: Option<Value>) returns (p: Table)
    ensures p == NormalizedProject(project, legacy)
  {
    ghost var target := NormalizedProject(project, legacy);
    p := project;
    if legacy.Some? && "execution_order" !in p {
      p := p["execution_order" := legacy.value];
    }
    assert SetDefaults(p, ProjectDefaults[0..]) == target;
    p := SetDefault(p, "input", VStr(""));
    assert SetDefaults(p, ProjectDefaults[1..]) == target;
    p := SetDefault(p, "output", VStr(""));
    assert SetDefaults(p, ProjectDefaults[2..]) == target;
    p := SetDefault(p, "verbose", VBool(false));
    assert SetDefaults(p, ProjectDefaults[3..]) == target;
    p := SetDefault(p, "create_backup", VBool(false));
    assert SetDefaults(p, ProjectDefaults[4..]) == target;
    p := SetDefault(p, "execution_order", VList([]));
    assert SetDefaults(p, ProjectDefaults[5..]) == target;
  }

  /** The error messages of one copy of the configuration code. */
  datatype Messages = Messages(missingFile: string -> string, badToml: string,
                               noProject: string, noInput: string, noOutput: string)

  /** `_validate_config`: the project section must exist, and then name
      an input and after that an output, each a non-empty value. */
  function Validate(config: Table, msgs: Messages): (r: Result<Table, Exc>)
    ensures r.Success? <==>
      "project" in config && config["project"].VMap?
      && Truthy(Get(config["project"].m, "input", VNone))
      && Truthy(Get(config["project"].m, "output", VNone))
    ensures r.Success? ==> r.value == config
    ensures "project" !in config ==> r == Failure(ValueError(msgs.noProject))
    ensures "project" in config && config["project"].VMap? && !Truthy(Get(config["project"].m, "input", VNone))
      ==> r == Failure(ValueError(msgs.noInput))
    ensures "project" in config && config["project"].VMap? && Truthy(Get(config["project"].m, "input", VNone))
      && !Truthy(Get(config["project"].m, "output", VNone))
      ==> r == Failure(ValueError(msgs.noOutput))
  {
    if "project" !in config then Failure(ValueError(msgs.noProject))
    else if !config["project"].VMap? then Failure(AttributeError)
    else
      var project := config["project"].m;
      if !Truthy(Get(project, "input", VNone)) then Failure(ValueError(msgs.noInput))
      else if !Truthy(Get(project, "output", VNone)) then Failure(ValueError(msgs.noOutput))
      else Success(config)
  }

  /** What opening and parsing the file gives. */
  datatype FileState = Missing | Unparsable(detail: string) | Parsed(table: Table)

  /** `load_config`: a missing file and a TOML syntax error are reported
      with the copy's own messages; a parsed table is normalised and then
      validated. */
  function LoadConfig(file: FileState, configFile: string, msgs: Messages): (r: Result<Table, Exc>)
    ensures file.Missing? ==> r == Failure(FileNotFoundError(msgs.missingFile(configFile)))
    ensures file.Unparsable? ==> r == Failure(ValueError(msgs.badToml))
    ensures file.Parsed? ==> r == (var n :- Normalized(file.table); Validate(n, msgs))
    ensures r.Success? ==>
      "project" in r.value && "plugins" in r.value && r.value["project"].VMap?
      && Truthy(Get(r.value["project"].m, "input", VNone))
      && Truthy(Get(r.value["project"].m, "output", VNone))
  {
    match file
    case Missing => Failure(FileNotFoundError(msgs.missingFile(configFile)))
    case Unparsable(_) => Failure(ValueError(msgs.badToml))
    case Parsed(table) =>
      var normalized :- Normalized(table);
      Validate(normalized, msgs)
  }

  /** The headlines of the banners this copy raises. */
  function LoaderMessages(): Messages {
    Messages(_ => "ERROR: No se encontró el archivo de configuración",
             "ERROR: Sintaxis TOML inválida",
             "ERROR: Estructura de configuración inválida",
             "ERROR: Falta el parámetro 'input' requerido en la configuración",
             "ERROR: Falta el parámetro 'output' requerido en la configuración")
  }

  /** Adding the sections keeps everything else, including the legacy
      order. */
  lemma WithSectionsSpec(config: Table)
    ensures var c := WithSections(config);
      "project" in c && "plugins" in c
      && c["project"] == Get(config, "project", VMap(map[]))
      && c["plugins"] == Get(config, "plugins", VMap(map[]))
      && (forall k :: k in config ==> k in c && c[k] == config[k])
      && (forall k :: k in c ==> k in config || k == "project" || k == "plugins")
      && LegacyOrder(c) == LegacyOrder(config)
  {
  }

  /** The project table a configuration starts from. */
  function ProjectOf(config: Table): Table {
    if "project" in config && config["project"].VMap? then config["project"].m else map[]
  }

  /** What normalising gives at the top level: the sections exist and
      nothing else present is overwritten. */
  lemma NormalizedTop(config: Table)
    requires Normalized(config).Success?
    ensures var r := Normalized(config).value;
      "project" in r && "plugins" in r && r["project"].VMap?
      && r["plugins"] == Get(config, "plugins", VMap(map[]))
      && (forall k :: k in config && k != "project" ==> k in r && r[k] == config[k])
      && r["project"].m == NormalizedProject(ProjectOf(config), LegacyOrder(config))
  {
    WithSectionsSpec(config);
  }

  /** What normalising gives, key by key: the sections exist, nothing
      present is overwritten, and each default key of the project holds
      its own, the legacy or the default value. */
  lemma NormalizedSpec(config: Table)
    requires Normalized(config).Success?
    ensures var r := Normalized(config).value;
      "project" in r && "plugins" in r && r["project"].VMap?
      && r["plugins"] == Get(config, "plugins", VMap(map[]))
      && (forall k :: k in config && k != "project" ==> k in r && r[k] == config[k])
      && var p, q := ProjectOf(config), r["project"].m;
      (forall k :: k in p ==> k in q && q[k] == p[k])
      && "input" in q && q["input"] == Get(p, "input", VStr(""))
      && "output" in q && q["output"] == Get(p, "output", VStr(""))
      && "verbose" in q && q["verbose"] == Get(p, "verbose", VBool(false))
      && "create_backup" in q && q["create_backup"] == Get(p, "create_backup", VBool(false))
      && "execution_order" in q
      && q["execution_order"] == (if "execution_order" in p then p["execution_order"]
                                  else if LegacyOrder(config).Some? then LegacyOrder(config).value
                                  else VList([]))
  {
    NormalizedTop(config);
    NormalizedProjectSpec(ProjectOf(config), LegacyOrder(config));
  }

  /** After normalising, both sections exist and the project table has
      every default key. */
  lemma NormalizedShape(config: Table)
    requires Normalized(config).Success?
    ensures var r := Normalized(config).value;
      "project" in r && "plugins" in r && r["project"].VMap?
      && forall k :: k in ["input", "output", "verbose", "create_backup", "execution_order"] ==> k in r["project"].m
  {
    NormalizedSpec(config);
  }

  /** A project table that is not a table is the only failure. */
  lemma NormalizeFailsOnlyOnBadProject(config: Table)
    ensures Normalized(config).Failure? <==> "project" in config && !config["project"].VMap?
  {
    WithSectionsSpec(config);
  }

  /** Normalising never overwrites: every value already present, at the
      top level or in the project table, is kept. */
  lemma NormalizeKeeps(config: Table)
    requires Normalized(config).Success?
    ensures var r := Normalized(config).value;
      "project" in r && r["project"].VMap?
      && (forall k :: k in config && k != "project" ==> k in r && r[k] == config[k])
      && ("project" in config ==> forall k :: k in config["project"].m ==> k in r["project"].m && r["project"].m[k] == config["project"].m[k])
  {
    NormalizedSpec(config);
  }

  /** The execution order: the project's own when it has one, else the
      legacy `[pipeline]` one, else the empty list. */
  lemma ExecutionOrderChosen(config: Table)
    requires Normalized(config).Success?
    ensures var r := Normalized(config).value;
      "project" in r && r["project"].VMap? && "execution_order" in r["project"].m
      && var project := if "project" in config then config["project"].m else map[];
      r["project"].m["execution_order"]
        == if "execution_order" in project then project["execution_order"]
           else if LegacyOrder(config).Some? then LegacyOrder(config).value
           else VList([])
  {
    NormalizedSpec(config);
  }

  /** Normalising twice is normalising once. */
  lemma NormalizeIdempotent(config: Table)
    requires Normalized(config).Success?
    ensures Normalized(Normalized(config).value) == Normalized(config)
  {
    var r := Normalized(config).value;
    NormalizedSpec(config);
    var p := r["project"].m;
    assert WithSections(r) == r;
    forall i | 0 <= i < |ProjectDefaults|
      ensures ProjectDefaults[i].0 in p
    {
      assert ProjectDefaults[i].0 in ["input", "output", "verbose", "create_backup", "execution_order"];
    }
    SetDefaultsNoop(p, ProjectDefaults);
    assert NormalizedProject(p, LegacyOrder(r)) == p;
    assert r["project" := VMap(p)] == r;
  }

  /** A project naming only a truthy input and output loads, with
      the three other defaults filled in. */
  lemma MinimalLoads(config: Table, project: Table, msgs: Messages)
    requires config.Keys == {"project"} && config["project"] == VMap(project)
    requires project.Keys == {"input", "output"}
    requires Truthy(project["input"]) && Truthy(project["output"])
    ensures var r := LoadConfig(Parsed(config), "", msgs);
      r.Success?
      && r.value["plugins"] == VMap(map[])
      && Get(r.value["project"].m, "verbose", VNone) == VBool(false)
      && Get(r.value["project"].m, "create_backup", VNone) == VBool(false)
      && Get(r.value["project"].m, "execution_order", VNone) == VList([])
      && Get(r.value["project"].m, "input", VNone) == project["input"]
  {
    var n := MinimalNormalized(config, project);
    assert Validate(n, msgs) == Success(n);
  }

  /** The normalised minimal project is the project plus the three
      defaults it lacks. */
  lemma MinimalNormalized(config: Table, project: Table) returns (n: Table)
    requires config.Keys == {"project"} && config["project"] == VMap(project)
    requires project.Keys == {"input", "output"}
    ensures Normalized(config) == Success(n)
    ensures n["plugins"] == VMap(map[]) && n["project"].VMap?
    ensures n["project"].m == project["verbose" := VBool(false)]["create_backup" := VBool(false)]["execution_order" := VList([])]
  {
    var c := SetDefault(SetDefault(config, "project", VMap(map[])), "plugins", VMap(map[]));
    assert c == config["plugins" := VMap(map[])];
    assert LegacyOrder(c).None?;
    var np := NormalizedProject(project, None);
    assert np == project["verbose" := VBool(false)]["create_backup" := VBool(false)]["execution_order" := VList([])];
    n := c["project" := VMap(np)];
  }

  /** The input check comes first: a table with no input is reported for
      the input whatever its output. */
  lemma InputCheckedFirst(config: Table, msgs: Messages)
    requires "project" in config && config["project"].VMap?
    requires !Truthy(Get(config["project"].m, "input", VNone))
    ensures LoadConfig(Parsed(config), "", msgs) == Failure(ValueError(msgs.noInput))
  {
    NormalizedSpec(config);
  }
}

/** The copy of the configuration code the command line uses; it logs the
    banners and raises short messages instead. */
module Core {
  import opened Base
  import opened ConfigLoader

  function CoreMessages(): Messages {
    Messages(path => "Archivo de configuración no encontrado: " + path,
             "Error de sintaxis en archivo TOML",
             "Configuración inválida: falta sección [project]",
             "Configuración inválida: falta parámetro 'input'",
             "Configuración inválida: falta parámetro 'output'")
  }

  /** `load_config` of this copy. */
  function LoadCoreConfig(file: FileState, configFile: string): (r: Result<Table, Exc>)
    ensures file.Missing? ==> r == Failure(FileNotFoundError("Archivo de configuración no encontrado: " + configFile))
    ensures file.Unparsable? ==> r == Failure(ValueError("Error de sintaxis en archivo TOML"))
  {
    LoadConfig(file, configFile, CoreMessages())
  }

  /** A configuration whose project names only an input and an output
      is completed with verbose and backups off, an empty plugins section
      and an empty order, and is accepted. */
  lemma MinimalConfig(config: Table, project: Table)
    requires config.Keys == {"project"} && config["project"] == VMap(project)
    requires project.Keys == {"input", "output"}
    requires Truthy(project["input"]) && Truthy(project["output"])
    ensures var r := LoadCoreConfig(Parsed(config), "");
      r.Success?
      && r.value["plugins"] == VMap(map[])
      && Get(r.value["project"].m, "verbose", VNone) == VBool(false)
      && Get(r.value["project"].m, "create_backup", VNone) == VBool(false)
      && Get(r.value["project"].m, "execution_order", VNone) == VList([])
      && Get(r.value["project"].m, "input", VNone) == project["input"]
  {
    MinimalLoads(config, project, CoreMessages());
  }

  /** An execution order given in the project is kept as it is. */
  lemma OrderPreserved(config: Table, order: Value)
    requires "project" in config && config["project"].VMap?
    requires config["project"].m.Keys >= {"execution_order"} && config["project"].m["execution_order"] == order
    requires LoadCoreConfig(Parsed(config), "").Success?
    ensures Get(LoadCoreConfig(Parsed(config), "").value["project"].m, "execution_order", VNone) == order
  {
    ExecutionOrderChosen(config);
  }

  /** An empty file is reported for its missing input. */
  lemma EmptyFileMissesInput()
    ensures LoadCoreConfig(Parsed(map[]), "") == Failure(ValueError("Configuración inválida: falta parámetro 'input'"))
  {
    NormalizeFailsOnlyOnBadProject(map[]);
    NormalizedSpec(map[]);
  }

  /** An empty output is rejected like a missing one. */
  lemma EmptyOutputRejected(config: Table, input: string)
    requires "project" in config && config["project"].VMap?
    requires input != [] && Get(config["project"].m, "input", VNone) == VStr(input)
    requires Get(config["project"].m, "output", VNone) == VStr("")
    ensures LoadCoreConfig(Parsed(config), "") == Failure(ValueError("Configuración inválida: falta parámetro 'output'"))
  {
    NormalizeFailsOnlyOnBadProject(config);
    NormalizedSpec(config);
  }
}
