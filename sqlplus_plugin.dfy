/** The SQL*Plus plugins of the processing pipeline: one expands `@` and
    `@@` inclusions into the context's text, the other runs the DEFINE
    pass over it and records the replacement counters in the metadata. */
module SqlplusPlugin {
  import opened Base
  import opened Text
  import opened Includes
  import opened Defines
  import opened DefineLemmas
  import opened PluginContext

  const IncludesName := "sqlplus_includes"
  const VarsName := "sqlplus_vars"

  /** The metadata key under which the counters are stored. */
  const ReplacementsKey := "variable_replacements"

  /** The counter table as a metadata value. */
  function CountsValue(counts: map<string, nat>): (v: Value)
    ensures v.VMap? && v.m.Keys == counts.Keys
    ensures forall x :: x in counts ==> v.m[x] == VInt(counts[x])
  {
    VMap(map x | x in counts :: VInt(counts[x]))
  }

  /** The base the root file's `@` inclusions resolve against: the input's
      directory for an absolute input path, otherwise the context's base. */
  function PluginBase(s: CtxState): string {
    if IsAbsolute(s.inputFile) then Parent(s.inputFile) else s.basePath
  }

  /** `SQLPlusIncludesPlugin.process` as a state transformer: the input
      file is expanded, reading files line by line in text mode, and the
      expansion replaces the text. */
  function IncludesStep(s: CtxState, fs: FileSystem, fuel: nat): Outcome {
    var e := Expand(fs, FileIteration, s.inputFile, PluginBase(s), 0, fuel);
    if e.Failure? then Raised(e.error, s) else Returned(s.(content := e.value))
  }

  /** `skip_var`, off unless configured. */
  predicate SkipVar(config: map<string, Value>) {
    Truthy(Get(config, "skip_var", VBool(false)))
  }

  /** `SQLPlusVarsPlugin.process` as a state transformer. */
  function VarsStep(config: map<string, Value>, s: CtxState): Outcome {
    if SkipVar(config) then Returned(s)
    else
      var r := RunText(s.content);
      if r.Failure? then Raised(r.error, s)
      else Returned(s.(metadata := s.metadata[ReplacementsKey := CountsValue(r.value.counts)],
                       content := JoinLines(r.value.out)))
  }

  /** `_parse_sqlplus_file` / `_read_file_recursive` of the plugin. */
  method ParseSqlplusFile(fs: FileSystem, inputFile: string, base: string, depth: nat, fuel: nat)
    returns (r: Result<string, Exc>)
    ensures r == Expand(fs, FileIteration, inputFile, base, depth, fuel)
  {
    r := ReadFileRecursive(fs, FileIteration, inputFile, base, depth, fuel);
  }

  /** `SQLPlusIncludesPlugin.process`: on success the context's text is
      replaced by the expansion; on failure it is left alone. */
  method IncludesProcess(ctx: ProcessingContext, fs: FileSystem, fuel: nat) returns (raised: Option<Exc>)
    modifies ctx
    ensures IncludesStep(old(ctx.State()), fs, fuel)
         == if raised.Some? then Raised(raised.value, ctx.State()) else Returned(ctx.State())
  {
    var base := if IsAbsolute(ctx.inputFile) then Parent(ctx.inputFile) else ctx.basePath;
    var expanded := ParseSqlplusFile(fs, ctx.inputFile, base, 0, fuel);
    if expanded.Failure? {
      return Some(expanded.error);
    }
    ctx.UpdateContent(expanded.value);
    return None;
  }

  /** `_process_file_sequentially`: the DEFINE pass, giving the text and
      the replacement counters. */
  method ProcessFileSequentially(content: string) returns (r: Result<(string, map<string, nat>), Exc>)
    ensures r.Success? <==> RunText(content).Success?
    ensures r.Success? ==> r.value == (JoinLines(RunText(content).value.out), RunText(content).value.counts)
    ensures r.Failure? ==> r.error == RunText(content).error
  {
    var pass := ProcessLines(content);
    if pass.Failure? {
      return Failure(pass.error);
    }
    return Success((JoinLines(pass.value.out), pass.value.counts));
  }

  /** `SQLPlusVarsPlugin.process`: unless `skip_var` is set, the counters
      go into the metadata and the substituted text replaces the text. */
  method VarsProcess(config: map<string, Value>, ctx: ProcessingContext) returns (raised: Option<Exc>)
    modifies ctx
    ensures VarsStep(config, old(ctx.State()))
         == if raised.Some? then Raised(raised.value, ctx.State()) else Returned(ctx.State())
  {
    var skipVar := Get(config, "skip_var", VBool(false));
    if Truthy(skipVar) {
      return None;
    }
    var processed := ProcessFileSequentially(ctx.content);
    if processed.Failure? {
      return Some(processed.error);
    }
    ctx.metadata := ctx.metadata[ReplacementsKey := CountsValue(processed.value.1)];
    ctx.UpdateContent(processed.value.0);
    return None;
  }

  /** With `skip_var` set the context is returned untouched. */
  lemma SkipVarLeavesContext(config: map<string, Value>, s: CtxState)
    requires SkipVar(config)
    ensures VarsStep(config, s) == Returned(s)
  {
  }

  /** The includes plugin changes nothing but the text. */
  lemma IncludesOnlyChangesContent(s: CtxState, fs: FileSystem, fuel: nat)
    ensures IncludesStep(s, fs, fuel).state.(content := s.content) == s
  {
  }

  /** A missing input file is reported under its own path, and the
      context is left as it was. */
  lemma IncludesMissingInput(s: CtxState, fs: FileSystem, fuel: nat)
    requires fuel > 0 && s.inputFile !in fs
    ensures IncludesStep(s, fs, fuel)
         == Raised(FileNotFoundError("Archivo no encontrado: " + s.inputFile), s)
  {
    MissingFile(fs, FileIteration, s.inputFile, PluginBase(s), 0, fuel);
  }

  /** The counters the vars plugin stores are keyed by exactly the names
      the text DEFINEs, and count one per match of the name; the plugin
      otherwise only changes the text. */
  lemma VarsMetadata(config: map<string, Value>, s: CtxState)
    requires !SkipVar(config)
    requires RunText(s.content).Success?
    ensures var t := VarsStep(config, s).state;
            var m := t.metadata[ReplacementsKey];
            var lines := SplitLines(StrSplitLines, s.content);
            t.(metadata := s.metadata, content := s.content) == s &&
            t.metadata == s.metadata[ReplacementsKey := m] &&
            m.VMap? && m.m.Keys == DefinedNames(lines) &&
            forall x :: x in m.m ==> m.m[x] == VInt(Uses(lines, x))
  {
    RunCounts(SplitLines(StrSplitLines, s.content), 1, Start);
  }

  /** A failing DEFINE pass leaves the context untouched and raises the
      undefined-variable error, never a `KeyError` (which the pipeline
      would swallow). */
  lemma VarsFailure(config: map<string, Value>, s: CtxState)
    requires !SkipVar(config)
    requires RunText(s.content).Failure?
    ensures VarsStep(config, s).Raised? && VarsStep(config, s).state == s
    ensures VarsStep(config, s).exc.UndefinedVariableError?
  {
    OnlyUndefinedVariableErrors(s.content);
  }
}
