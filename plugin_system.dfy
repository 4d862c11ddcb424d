/** The plugin pipeline: plugins registered by name, and a pipeline that
    runs them over a shared context in a configured order, skipping
    disabled plugins, warning about unknown names and wrapping any other
    failure with the name of the plugin that raised it. */
module PluginSystem {
  import opened Base
  import opened Includes
  import opened PluginContext
  import opened SqlplusPlugin

  /** What a plugin does when it runs: the two SQL*Plus plugins, or any
      other plugin, known by its name and its effect on the context. */
  datatype PluginKind =
    | IncludesKind
    | VarsKind
    | OtherKind(name: string, run: CtxState -> Outcome)

  /** A plugin instance and the configuration it was built with. */
  datatype Plugin = Plugin(kind: PluginKind, config: map<string, Value>) {
    /** The name the plugin registers under. */
    function Name(): string {
      match kind
      case IncludesKind => IncludesName
      case VarsKind => VarsName
      case OtherKind(name, _) => name
    }

    /** `is_enabled`: `config.get('enabled', True)`, read as a truth value. */
    predicate Enabled() {
      Truthy(Get(config, "enabled", VBool(true)))
    }
  }

  /** `ProcessorPlugin.__init__`: a missing (or empty) configuration is
      the empty table. */
  function NewPlugin(kind: PluginKind, config: Option<map<string, Value>>): (p: Plugin)
    ensures p.kind == kind
    ensures config.Some? ==> p.config == config.value
    ensures config.None? ==> p.config == map[] && p.Enabled()
  {
    Plugin(kind, if config.Some? then config.value else map[])
  }

  /** `process` of a plugin, as a state transformer. */
  function Apply(p: Plugin, s: CtxState, fs: FileSystem, fuel: nat): Outcome {
    match p.kind
    case IncludesKind => IncludesStep(s, fs, fuel)
    case VarsKind => VarsStep(p.config, s)
    case OtherKind(_, run) => run(s)
  }

  /** The message of the registry's `KeyError`. */
  function NotRegistered(name: string): string {
    "Plugin '" + name + "' no encontrado en el registro"
  }

  class PluginRegistry {
    var plugins: map<string, Plugin>

    /** Every plugin is registered under its own name. */
    predicate Valid()
      reads this
    {
      forall n :: n in plugins ==> plugins[n].Name() == n
    }

    constructor()
      ensures plugins == map[] && Valid()
    {
      plugins := map[];
    }

    /** `register`: keyed by the plugin's name, replacing any plugin
        registered under that name before. */
    method Register(plugin: Plugin)
      modifies this
      ensures plugins == old(plugins)[plugin.Name() := plugin]
      ensures old(Valid()) ==> Valid()
    {
      plugins := plugins[plugin.Name() := plugin];
    }

    /** `get`: the plugin, or a `KeyError` naming the missing plugin. */
    function Get(name: string): (r: Result<Plugin, Exc>)
      reads this
      ensures r.Success? <==> name in plugins
      ensures r.Success? ==> r.value == plugins[name]
      ensures r.Failure? ==> r.error == KeyError(NotRegistered(name))
    {
      if name !in plugins then Failure(KeyError(NotRegistered(name))) else Success(plugins[name])
    }

    /** `has`. */
    function Has(name: string): (b: bool)
      reads this
      ensures b <==> Get(name).Success?
    {
      name in plugins
    }

    /** `get_all`: a copy of the table (a value, so later registrations
        do not show through it). */
    function GetAll(): (all: map<string, Plugin>)
      reads this
      ensures all.Keys == plugins.Keys
      ensures forall n :: n in all ==> Get(n) == Success(all[n])
    {
      plugins
    }
  }

  /** The end of a pipeline run: the context's final state, the warnings
      logged on the way, and the exception that aborted the run if any. */
  datatype RunResult = RunResult(state: CtxState, warnings: seq<Exc>, failure: Option<Exc>)

  function Warned(ws: seq<Exc>, r: RunResult): RunResult {
    r.(warnings := ws + r.warnings)
  }

  /** The loop of `execute` over `order`, from the context state `s`. A
      `KeyError`, whether from the registry or from inside a plugin, is
      logged and the loop goes on with the context as it was left; any
      other exception ends the run wrapped with the plugin's name. */
  function RunPipeline(plugins: map<string, Plugin>, order: seq<string>, s: CtxState, fs: FileSystem, fuel: nat): RunResult
    decreases |order|
  {
    if order == [] then RunResult(s, [], None)
    else
      var name := order[0];
      if name !in plugins then
        Warned([KeyError(NotRegistered(name))], RunPipeline(plugins, order[1..], s, fs, fuel))
      else if !plugins[name].Enabled() then
        RunPipeline(plugins, order[1..], s, fs, fuel)
      else
        match Apply(plugins[name], s, fs, fuel)
        case Returned(t) => RunPipeline(plugins, order[1..], t, fs, fuel)
        case Raised(e, t) =>
          if e.KeyError? then Warned([e], RunPipeline(plugins, order[1..], t, fs, fuel))
          else RunResult(t, [], Some(PluginFailure(name, e)))
  }

  class ProcessorPipeline {
    var registry: PluginRegistry
    var executionOrder: seq<string>

    /** A missing (or empty) order is the empty order. */
    constructor(registry: PluginRegistry, executionOrder: Option<seq<string>>)
      ensures this.registry == registry
      ensures this.executionOrder == if executionOrder.Some? then executionOrder.value else []
    {
      this.registry := registry;
      this.executionOrder := if executionOrder.Some? then executionOrder.value else [];
    }

    /** `set_execution_order`. */
    method SetExecutionOrder(order: seq<string>)
      modifies this
      ensures executionOrder == order && registry == old(registry)
    {
      executionOrder := order;
    }

    /** `execute`: the plugins named in the execution order run in that
        order over the context, each changing it in place. */
    method Execute(ctx: ProcessingContext, fs: FileSystem, fuel: nat)
      returns (warnings: seq<Exc>, failure: Option<Exc>)
      modifies ctx
      ensures RunPipeline(registry.plugins, executionOrder, old(ctx.State()), fs, fuel)
           == RunResult(ctx.State(), warnings, failure)
    {
      var order := executionOrder;
      ghost var plugins := registry.plugins;
      ghost var s0 := ctx.State();
      warnings := [];
      var i := 0;
      assert order[i..] == order;
      while i < |order|
        invariant 0 <= i <= |order|
        invariant registry.plugins == plugins
        invariant RunPipeline(plugins, order, s0, fs, fuel)
               == Warned(warnings, RunPipeline(plugins, order[i..], ctx.State(), fs, fuel))
      {
        var name := order[i];
        ghost var s := ctx.State();
        RunHead(plugins, order[i..], s, fs, fuel);
        assert order[i..][0] == name && order[i..][1..] == order[i + 1..];
        var plugin := registry.Get(name);
        if plugin.Failure? {
          WarnedAppend(warnings, [plugin.error], RunPipeline(plugins, order[i + 1..], s, fs, fuel));
          warnings := warnings + [plugin.error];
          i := i + 1;
          continue;
        }
        var p := plugin.value;
        if !Truthy(Get(p.config, "enabled", VBool(true))) {
          i := i + 1;
          continue;
        }
        var raised := RunPlugin(p, ctx, fs, fuel);
        if raised.Some? {
          if !raised.value.KeyError? {
            return warnings, Some(PluginFailure(name, raised.value));
          }
          WarnedAppend(warnings, [raised.value], RunPipeline(plugins, order[i + 1..], ctx.State(), fs, fuel));
          warnings := warnings + [raised.value];
        }
        i := i + 1;
      }
      assert order[i..] == [];
      failure := None;
    }
  }

  /** One turn of the loop of `execute`, by the five ways it can go. */
  lemma RunHead(plugins: map<string, Plugin>, order: seq<string>, s: CtxState, fs: FileSystem, fuel: nat)
    requires order != []
    ensures order[0] !in plugins ==>
      RunPipeline(plugins, order, s, fs, fuel)
        == Warned([KeyError(NotRegistered(order[0]))], RunPipeline(plugins, order[1..], s, fs, fuel))
    ensures order[0] in plugins && !plugins[order[0]].Enabled() ==>
      RunPipeline(plugins, order, s, fs, fuel) == RunPipeline(plugins, order[1..], s, fs, fuel)
    ensures order[0] in plugins && plugins[order[0]].Enabled() ==>
      var out := Apply(plugins[order[0]], s, fs, fuel);
      RunPipeline(plugins, order, s, fs, fuel)
        == if out.Returned? then RunPipeline(plugins, order[1..], out.state, fs, fuel)
           else if out.exc.KeyError? then Warned([out.exc], RunPipeline(plugins, order[1..], out.state, fs, fuel))
           else RunResult(out.state, [], Some(PluginFailure(order[0], out.exc)))
  {
  }

  lemma WarnedAppend(ws: seq<Exc>, more: seq<Exc>, r: RunResult)
    ensures Warned(ws, Warned(more, r)) == Warned(ws + more, r)
  {
    assert ws + (more + r.warnings) == ws + more + r.warnings;
  }

  /** Every warning a run logs is a `KeyError`. */
  lemma {:induction false} WarningsAreKeyErrors(plugins: map<string, Plugin>, order: seq<string>, s: CtxState, fs: FileSystem, fuel: nat)
    ensures forall w :: w in RunPipeline(plugins, order, s, fs, fuel).warnings ==> w.KeyError?
    decreases |order|
  {
    if order != [] {
      RunHead(plugins, order, s, fs, fuel);
      var name := order[0];
      if name !in plugins {
        WarningsAreKeyErrors(plugins, order[1..], s, fs, fuel);
      } else if plugins[name].Enabled() {
        WarningsAreKeyErrors(plugins, order[1..], Apply(plugins[name], s, fs, fuel).state, fs, fuel);
      } else {
        WarningsAreKeyErrors(plugins, order[1..], s, fs, fuel);
      }
    }
  }

  /** A run that fails was stopped by a registered, enabled plugin of the
      order, which raised something other than a `KeyError`. */
  lemma {:induction false} FailureNamesPlugin(plugins: map<string, Plugin>, order: seq<string>, s: CtxState, fs: FileSystem, fuel: nat)
    ensures var r := RunPipeline(plugins, order, s, fs, fuel);
      r.failure.Some? ==>
        r.failure.value.PluginFailure? && r.failure.value.plugin in order
        && r.failure.value.plugin in plugins && plugins[r.failure.value.plugin].Enabled()
        && !r.failure.value.inner.KeyError?
    decreases |order|
  {
    if order != [] {
      RunHead(plugins, order, s, fs, fuel);
      var name := order[0];
      if name !in plugins {
        FailureNamesPlugin(plugins, order[1..], s, fs, fuel);
      } else if plugins[name].Enabled() {
        FailureNamesPlugin(plugins, order[1..], Apply(plugins[name], s, fs, fuel).state, fs, fuel);
      } else {
        FailureNamesPlugin(plugins, order[1..], s, fs, fuel);
      }
    }
  }

  /** Names that are not registered, or whose plugin is disabled, leave
      the context alone; each unregistered one costs one warning. */
  lemma {:induction false} NothingEnabledNothingChanges(plugins: map<string, Plugin>, order: seq<string>, s: CtxState, fs: FileSystem, fuel: nat)
    requires forall k :: 0 <= k < |order| ==> order[k] !in plugins || !plugins[order[k]].Enabled()
    ensures RunPipeline(plugins, order, s, fs, fuel)
         == RunResult(s, Missing(plugins, order), None)
    decreases |order|
  {
    if order != [] {
      RunHead(plugins, order, s, fs, fuel);
      assert order[0] !in plugins || !plugins[order[0]].Enabled();
      NothingEnabledNothingChanges(plugins, order[1..], s, fs, fuel);
    }
  }

  /** The warnings for the names of `order` that are not registered. */
  function Missing(plugins: map<string, Plugin>, order: seq<string>): (ws: seq<Exc>)
    ensures |ws| <= |order|
    ensures forall k :: 0 <= k < |order| && order[k] !in plugins ==> KeyError(NotRegistered(order[k])) in ws
  {
    if order == [] then []
    else (if order[0] in plugins then [] else [KeyError(NotRegistered(order[0]))]) + Missing(plugins, order[1..])
  }

  /** Running two orders one after the other is running their
      concatenation, unless the first one already failed. */
  lemma {:induction false} RunAppend(plugins: map<string, Plugin>, first: seq<string>, second: seq<string>, s: CtxState, fs: FileSystem, fuel: nat)
    ensures var r := RunPipeline(plugins, first, s, fs, fuel);
      RunPipeline(plugins, first + second, s, fs, fuel)
        == if r.failure.Some? then r else Warned(r.warnings, RunPipeline(plugins, second, r.state, fs, fuel))
    decreases |first|
  {
    if first == [] {
      assert first + second == second;
    } else {
      var name := first[0];
      assert (first + second)[0] == name && (first + second)[1..] == first[1..] + second;
      RunHead(plugins, first, s, fs, fuel);
      RunHead(plugins, first + second, s, fs, fuel);
      if name !in plugins {
        RunAppend(plugins, first[1..], second, s, fs, fuel);
        var r := RunPipeline(plugins, first[1..], s, fs, fuel);
        if r.failure.None? {
          WarnedAppend([KeyError(NotRegistered(name))], r.warnings, RunPipeline(plugins, second, r.state, fs, fuel));
        }
      } else if !plugins[name].Enabled() {
        RunAppend(plugins, first[1..], second, s, fs, fuel);
      } else {
        var out := Apply(plugins[name], s, fs, fuel);
        RunAppend(plugins, first[1..], second, out.state, fs, fuel);
        if out.Raised? && out.exc.KeyError? {
          var r := RunPipeline(plugins, first[1..], out.state, fs, fuel);
          if r.failure.None? {
            WarnedAppend([out.exc], r.warnings, RunPipeline(plugins, second, r.state, fs, fuel));
          }
        }
      }
    }
  }

  /** `plugin.process(context)`. */
  method RunPlugin(p: Plugin, ctx: ProcessingContext, fs: FileSystem, fuel: nat) returns (raised: Option<Exc>)
    modifies ctx
    ensures Apply(p, old(ctx.State()), fs, fuel)
         == if raised.Some? then Raised(raised.value, ctx.State()) else Returned(ctx.State())
  {
    match p.kind {
      case IncludesKind =>
        raised := IncludesProcess(ctx, fs, fuel);
      case VarsKind =>
        raised := VarsProcess(p.config, ctx);
      case OtherKind(_, run) =>
        var out := run(ctx.State());
        ctx.SetState(out.state);
        raised := if out.Raised? then Some(out.exc) else None;
    }
  }
}
