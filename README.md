# MergeSourceFile, modelled in Dafny

MergeSourceFile is a preprocessor for SQL*Plus scripts. It builds one flat
script from a root file and applies the SQL*Plus variable language to the
result. Its parts are the following:

- **The include resolver.** `@file` and `@@file` lines are replaced by the
  expanded text of the named file. `@@` is resolved against the directory of
  the file being read. `@` is resolved against the base path the caller
  passed down.
- **The DEFINE/UNDEFINE pass.** This is one forward pass over the lines with
  a table of defined names and a counter per name. Comment lines pass
  through. `DEFINE` and `UNDEFINE` lines update the table and are dropped.
  Every other line has its `&name` and `&name..` references replaced. A
  name used while undefined is an error that carries the line number.
- **Two ways of chaining these stages.**
  - The plugin pipeline threads a mutable processing context through named
    plugins in a configured order.
  - The extension manager of the template engine threads the template text
    through registered extensions by priority. It then namespaces the
    variables the extensions extract.
- **The TOML configuration.** It is normalised by filling in defaults, then
  validated, and load errors are mapped onto exceptions.

Both live copies of the SQL*Plus logic are modelled:

- the extension module `extensions/sqlplus.py`;
- the older plugin classes in `plugins/sqlplus_plugin.py`.

Both configuration readers are modelled: `config_loader.py` and `core.py`.

## Modules

| file | module | models |
|---|---|---|
| base.dfy | `Base` | `Option`, `Result` with `:-`, TOML/JSON-like `Value`, Python truthiness and `dict.get`, and the exception kinds (`Exc`) |
| text.dfy | `Text` | the `str` built-ins the source relies on: `rstrip`, `lstrip`, `upper`, `splitlines` and text-mode line iteration, `"\n".join`, and `str.replace` |
| includes.dfy | `Includes` | `_read_file_recursive` as a specification (`Expand`) and as a loop (`ReadFileRecursive`), for both line splitters |
| defines.dfy | `Defines` | hand-written recognisers for the three regular expressions, the line classifier, the pass as a specification (`Run`) and as a loop (`ProcessLines`) |
| define_lemmas.dfy | `DefineLemmas` | properties of the whole pass |
| define_syntax.dfy | `DefineSyntax` | properties of single lines: DEFINE forms, anchoring, comments, references, and the `str.replace` prefix clobbering |
| sqlplus_ext.dfy | `SqlplusExtension` | `process_sqlplus` and its helpers |
| context.dfy | `PluginContext` | `ProcessingContext` as a class |
| sqlplus_plugin.dfy | `SqlplusPlugin` | the includes and vars plugins |
| plugin_system.dfy | `PluginSystem` | plugins, `PluginRegistry` and `ProcessorPipeline` as classes |
| template_engine.dfy | `TemplateEngine` | the extension registry, validation, loading and sorting, `ExtensionManager`, the variable merge of `process_file`, and `sql_escape` |
| config.dfy | `ConfigLoader`, `Core` | `_normalize_config`, `_validate_config` and the error mapping of `load_config` in both readers |

The filesystem is a map from path to file text. A path that is not a key
does not exist.

The source has no cycle detection. Every recursion through includes takes a
`fuel` argument, and running out of fuel yields `RecursionError`. That error
stands for Python's recursion limit. `Includes.ExpandFuelMonotone` shows that
more fuel never changes an outcome that was not `RecursionError`.

## Model

| member | source | states |
|---|---|---|
| Text.RStrip | MergeSourceFile/extensions/sqlplus.py:162 | the result is a prefix of the line, ends in a non-space, and only whitespace was removed |
| Text.LStripSuffix | MergeSourceFile/extensions/sqlplus.py:205 | what `lstrip` leaves is a suffix of the input, hence with `LStrip`'s contract the longest suffix not starting with white space |
| Text.LStrip | MergeSourceFile/extensions/sqlplus.py:205 | the characters dropped from the front are whitespace, and the result is empty or starts with a non-space |
| Text.SplitLines | MergeSourceFile/extensions/sqlplus.py:161 | no piece holds a line boundary; `Text.SplitUnlines` shows that splitting newline-terminated lines gives them back |
| Includes.Parent | MergeSourceFile/extensions/sqlplus.py:169 | a path without `/` has parent `.`; a path whose only `/` is its first character has parent `/`; otherwise the parent is the text before the last `/` |
| Includes.ReadFileRecursive | MergeSourceFile/extensions/sqlplus.py:133-178 | returns exactly `Expand`: the resolved file's lines with directives expanded, or `FileNotFoundError` |
| Includes.ReadLines | MergeSourceFile/extensions/sqlplus.py:160-178 | the accumulating loop over the file's lines returns exactly `ExpandLines`, stopping at the first failing inclusion |
| Includes.ReadLine | MergeSourceFile/extensions/sqlplus.py:161-176 | one line of the loop equals its specification `ExpandLine`, with `@@` checked before `@` on the rstripped line |
| Includes.PlainFile | MergeSourceFile/extensions/sqlplus.py:160-178 | a file with no directive lines expands to its rstripped lines, each followed by `\n` |
| Includes.MissingFile | MergeSourceFile/extensions/sqlplus.py:147-154 | at depth 0, or for an absolute path, a missing file raises `FileNotFoundError("Archivo no encontrado: " + path)` with the path as given |
| Includes.MissingIncludedFile | MergeSourceFile/extensions/sqlplus.py:149-154 | a missing relative include raises `FileNotFoundError` naming `base/file` |
| Includes.DoubleAtAnchor | MergeSourceFile/extensions/sqlplus.py:165-169 | `@@f` expands `f` one level deeper, resolved against the current file's parent, and adds `\n` |
| Includes.SingleAtAnchor | MergeSourceFile/extensions/sqlplus.py:170-174 | `@f` expands `f` one level deeper, resolved against the inherited base path, and adds `\n` |
| Includes.IndentedDirectiveIsText | MergeSourceFile/extensions/sqlplus.py:162-176 | a line that starts with whitespace is text even when an `@` follows |
| Includes.SplicedInPlace | MergeSourceFile/extensions/sqlplus.py:169-176 | the included text, then `\n`, takes the directive's place ahead of the lines that follow |
| Includes.IncludedTwice | MergeSourceFile/plugins/sqlplus_plugin.py:113-122 | a file included twice is expanded twice, with no memoisation |
| Includes.ExpandFuelMonotone | MergeSourceFile/extensions/sqlplus.py:133-178 | an outcome other than running out of fuel is the outcome for any larger fuel |
| Defines.WordRun | MergeSourceFile/extensions/sqlplus.py:197-199 | the `\w+` run is maximal: word characters up to the first non-word character |
| Defines.FindRefs | MergeSourceFile/extensions/sqlplus.py:199-241 | every match of `(&\w+)(\.\.)?` names a word |
| DefineSyntax.FindRefsComplete | MergeSourceFile/extensions/sqlplus.py:241 | the matches of `findall` are exactly one per `&` followed by a word character, in text order: the longest word after it, and whether `..` follows |
| DefineSyntax.NoRefs | MergeSourceFile/extensions/sqlplus.py:199-241 | a line without `&` has no matches |
| Defines.ClosingQuote | MergeSourceFile/extensions/sqlplus.py:197 | the lazy quoted value ends at a quote followed by a tail that lets the rest of the pattern match |
| DefineSyntax.ClosingQuoteFirst | MergeSourceFile/extensions/sqlplus.py:197 | the quote found is the first one followed by a valid tail, with no line feed before it; when none is found, every such quote has a line feed before it |
| Defines.BareRun | MergeSourceFile/extensions/sqlplus.py:197 | the unquoted value is the maximal run of characters that are neither whitespace nor `;` |
| Defines.ProcessLines | MergeSourceFile/extensions/sqlplus.py:192-262 | the line loop with its mutable table, counters and output equals the pass `RunText` |
| Defines.ProcessLine | MergeSourceFile/extensions/sqlplus.py:202-262 | one iteration equals `Step`: a comment is kept, a DEFINE or UNDEFINE updates the table, and a text line is substituted |
| Defines.SubstituteLine | MergeSourceFile/extensions/sqlplus.py:241-260 | the replacement loop over all matches equals `Substitute` |
| Defines.RunStep | MergeSourceFile/extensions/sqlplus.py:201 | the pass over lines `i..` is the step at line `i` (numbered `i + 1`) followed by the pass over the rest |
| DefineLemmas.SubstituteOutcome | MergeSourceFile/extensions/sqlplus.py:244-249 | substitution succeeds iff every referenced name is defined; otherwise the error is `UndefinedVariableError` at that line for the first match, in order, whose name is undefined |
| DefineLemmas.SubstituteCounts | MergeSourceFile/extensions/sqlplus.py:260 | each counter grows by the number of matches of its name on the line, and the key set is unchanged |
| DefineLemmas.RunAppend | MergeSourceFile/extensions/sqlplus.py:201-262 | the pass over `a + b` is the pass over `a`, then the pass over `b` from the resulting state with line numbers continuing |
| DefineLemmas.LaterLinesNeverHelp | MergeSourceFile/extensions/sqlplus.py:241-249 | once a prefix fails, no later line (a later DEFINE included) changes the error |
| DefineLemmas.RunSucceedsIff | MergeSourceFile/extensions/sqlplus.py:201-262 | the pass succeeds iff every name a text line references is defined by the table in force at that line |
| DefineLemmas.RunFailure | MergeSourceFile/extensions/sqlplus.py:244-249 | a failure names the first failing line: the pass over the lines above it succeeds, the line is a text line, and the error gives its 1-based number and the first of its matches undefined in the table in force there |
| DefineLemmas.RunTable | MergeSourceFile/extensions/sqlplus.py:209-238 | the final table is the earlier lines' DEFINEs (last write wins) minus their UNDEFINEs |
| DefineLemmas.RunCounts | MergeSourceFile/plugins/sqlplus_plugin.py:222-258 | the counter keys are the names ever DEFINEd, and each counter is its number of matches, never reset by a redefinition |
| DefineLemmas.StepCounts | MergeSourceFile/extensions/sqlplus.py:209-262 | one line adds a zero counter for a newly DEFINEd name and adds each name's matches on a text line; no other counter changes |
| DefineLemmas.RunOutput | MergeSourceFile/extensions/sqlplus.py:201-262 | the output is the old output followed by `Emitted`: each comment unchanged, each text line substituted under the table in force at that line (the table the earlier lines leave), DEFINE and UNDEFINE lines dropped; one line per comment or text line |
| DefineLemmas.RunEmitted | MergeSourceFile/extensions/sqlplus.py:201-262 | a successful pass appends exactly `Emitted` of its lines under the starting table to the output |
| DefineLemmas.EmittedLength | MergeSourceFile/extensions/sqlplus.py:201-262 | `Emitted` holds one line per comment and text line |
| DefineLemmas.StepOutput | MergeSourceFile/extensions/sqlplus.py:201-262 | one line moves the table as `StepTable` and adds `LineEmitted` under the old table to the output |
| DefineLemmas.SubstituteText | MergeSourceFile/extensions/sqlplus.py:241-262 | a successful replacement loop yields `Substituted`, a function of the text, the matches and the table only |
| DefineLemmas.SubstituteIgnoresCounts | MergeSourceFile/extensions/sqlplus.py:241-262 | with every defined name counted, the counters change neither the outcome nor the text |
| DefineLemmas.OnlyUndefinedVariableErrors | MergeSourceFile/extensions/sqlplus.py:246-249 | the pass can only fail with the used-before-defined error, at a line number of at least 1 |
| DefineSyntax.DefineBare | MergeSourceFile/extensions/sqlplus.py:197-226 | `DEFINE name = value` with a bare value defines `name` as `value` |
| DefineSyntax.DefineQuoted | MergeSourceFile/extensions/sqlplus.py:197-226 | `DEFINE name = 'value'` defines `name` as the text between the quotes |
| DefineSyntax.TabbedDefineIsText | MergeSourceFile/extensions/sqlplus.py:210 | `DEFINE` followed by a tab is not a directive, because the prefix test wants a space |
| DefineSyntax.IndentedDirectiveIsText | MergeSourceFile/plugins/sqlplus_plugin.py:208-260 | an indented DEFINE or UNDEFINE fails the anchored pattern and is a text line |
| DefineSyntax.UndefineForm | MergeSourceFile/extensions/sqlplus.py:198-238 | `UNDEFINE name;` removes `name` from the table |
| DefineSyntax.CommentVerbatim | MergeSourceFile/extensions/sqlplus.py:204-207 | a `--` line is appended unchanged, unscanned and unstripped, and the table and counters stay as they were |
| DefineSyntax.SingleReference | MergeSourceFile/extensions/sqlplus.py:251-260 | `&name` becomes the value, and the counter of `name` grows by one |
| DefineSyntax.DottedReference | MergeSourceFile/extensions/sqlplus.py:254-255 | `&name..` becomes the value followed by one `.` |
| DefineSyntax.PrefixNameClobbers | MergeSourceFile/extensions/sqlplus.py:257 | replacing `&a` over the whole line also rewrites the head of `&at`, so that reference gets `a`'s value followed by `t` |
| SqlplusExtension.ProcessIncludes | MergeSourceFile/extensions/sqlplus.py:107-130 | expands the input file from depth 0 with base equal to the input's parent when it is absolute, and otherwise `base_path` |
| SqlplusExtension.ProcessDefinesWithExtraction | MergeSourceFile/extensions/sqlplus.py:181-273 | returns the kept lines joined by `\n` and the final define table, or the pass's error |
| SqlplusExtension.ProcessDefines | MergeSourceFile/extensions/sqlplus.py:276-368 | succeeds iff the pass does, returns the joined lines, and otherwise returns the same error |
| SqlplusExtension.ProcessSqlplus | MergeSourceFile/extensions/sqlplus.py:54-89 | the includes step then the defines step, each gated by its flag, both defaulting to on |
| SqlplusExtension.LoaderExcludesIncludes | MergeSourceFile/extensions/sqlplus.py:92-104 | the loader is installed exactly when includes are on, in which case the passed-in content is ignored |
| SqlplusExtension.NoDefinesNoVariables | MergeSourceFile/extensions/sqlplus.py:77-89 | with defines off, the extracted map is empty |
| SqlplusExtension.DefaultsRunBoth | MergeSourceFile/extensions/sqlplus.py:80-89 | with an empty config, the result is the includes expansion followed by the defines pass |
| SqlplusExtension.ExtractedIsFinalTable | MergeSourceFile/extensions/sqlplus.py:273 | the extracted variables are the table after the last line |
| SqlplusExtension.ProcessedText | MergeSourceFile/extensions/sqlplus.py:201-273 | the processed text is `Emitted` joined by line breaks: comments as they are, text lines substituted under the table in force at that line, directives dropped; one line per input line that is not a DEFINE or UNDEFINE |
| PluginContext.ProcessingContext.constructor | MergeSourceFile/plugin_system.py:48-54 | content `""`, input file `""`, base path `"."`, empty variables and metadata, verbose false |
| PluginContext.ProcessingContext.UpdateContent | MergeSourceFile/plugin_system.py:56-58 | only `content` changes |
| PluginContext.ProcessingContext.SetVariable | MergeSourceFile/plugin_system.py:60-62 | only `variables` changes, by a put |
| PluginContext.ProcessingContext.GetVariable | MergeSourceFile/plugin_system.py:64-66 | the stored value, or the default when the key is absent |
| PluginContext.SetThenGet | MergeSourceFile/plugin_system.py:60-66 | a get after a put returns the value put, and other keys are unaffected |
| SqlplusPlugin.CountsValue | MergeSourceFile/plugins/sqlplus_plugin.py:172 | the statistics stored in the metadata have the counters' keys and values |
| SqlplusPlugin.ParseSqlplusFile | MergeSourceFile/plugins/sqlplus_plugin.py:78-138 | the plugin's resolver equals `Expand` over text-mode line iteration, with the same anchoring and missing-file error |
| SqlplusPlugin.IncludesProcess | MergeSourceFile/plugins/sqlplus_plugin.py:48-76 | the context ends as `IncludesStep` says: the input's parent or the context base path, with the content replaced wholesale |
| SqlplusPlugin.IncludesOnlyChangesContent | MergeSourceFile/plugins/sqlplus_plugin.py:61-76 | the includes plugin changes nothing in the context but its content |
| SqlplusPlugin.IncludesMissingInput | MergeSourceFile/plugins/sqlplus_plugin.py:92-99 | a missing input file raises `FileNotFoundError` naming it, with the context unchanged |
| SqlplusPlugin.ProcessFileSequentially | MergeSourceFile/plugins/sqlplus_plugin.py:177-271 | succeeds iff the pass does, and returns the joined lines with the counters, or the same error |
| SqlplusPlugin.VarsProcess | MergeSourceFile/plugins/sqlplus_plugin.py:150-175 | the context ends as `VarsStep` says |
| SqlplusPlugin.SkipVarLeavesContext | MergeSourceFile/plugins/sqlplus_plugin.py:160-164 | with `skip_var` true the context is returned untouched |
| SqlplusPlugin.VarsMetadata | MergeSourceFile/plugins/sqlplus_plugin.py:166-175 | only content and `metadata['variable_replacements']` change, the latter mapping each DEFINEd name to its use count |
| SqlplusPlugin.VarsFailure | MergeSourceFile/plugins/sqlplus_plugin.py:241-246 | an undefined reference raises `UndefinedVariableError`, with the context untouched |
| PluginSystem.NewPlugin | MergeSourceFile/plugin_system.py:77-85 | a missing config becomes `{}`, and such a plugin is enabled |
| PluginSystem.PluginRegistry.constructor | MergeSourceFile/plugin_system.py:118-119 | the registry starts empty |
| PluginSystem.PluginRegistry.Register | MergeSourceFile/plugin_system.py:121-128 | the plugin is stored under its name, replacing any earlier plugin of that name |
| PluginSystem.PluginRegistry.Get | MergeSourceFile/plugin_system.py:130-145 | succeeds iff the name is registered, returning that plugin; otherwise `KeyError("Plugin '<name>' no encontrado en el registro")` |
| PluginSystem.PluginRegistry.Has | MergeSourceFile/plugin_system.py:151-153 | true iff `Get` succeeds |
| PluginSystem.PluginRegistry.GetAll | MergeSourceFile/plugin_system.py:147-149 | the same names, each mapped to what `Get` returns |
| PluginSystem.ProcessorPipeline.constructor | MergeSourceFile/plugin_system.py:164-173 | a missing execution order becomes `[]` |
| PluginSystem.ProcessorPipeline.SetExecutionOrder | MergeSourceFile/plugin_system.py:220-227 | replaces the order and keeps the registry |
| PluginSystem.ProcessorPipeline.Execute | MergeSourceFile/plugin_system.py:175-218 | the loop's final context, warnings and failure equal `RunPipeline` over the order from the initial context |
| PluginSystem.RunPlugin | MergeSourceFile/plugin_system.py:202 | running one plugin leaves the context `Apply` describes and reports what it raised |
| PluginSystem.RunHead | MergeSourceFile/plugin_system.py:192-210 | a missing name warns and continues, a disabled plugin is skipped, a returned context is threaded on, a `KeyError` warns and continues, and any other error stops the run |
| PluginSystem.WarningsAreKeyErrors | MergeSourceFile/plugin_system.py:206-208 | every warning is a `KeyError` |
| PluginSystem.FailureNamesPlugin | MergeSourceFile/plugin_system.py:209-210 | a failure wraps a non-`KeyError` raised by a registered, enabled plugin of the order, and names it |
| PluginSystem.NothingEnabledNothingChanges | MergeSourceFile/plugin_system.py:194-198 | when no listed plugin is registered and enabled, the context is unchanged and there is one warning per missing name |
| PluginSystem.Missing | MergeSourceFile/plugin_system.py:143-144 | every unregistered name of the order has its `KeyError` among the warnings |
| PluginSystem.RunAppend | MergeSourceFile/plugin_system.py:192-210 | running `first + second` runs `first`, then, unless it failed, runs `second` on its context, keeping the warnings in order |
| TemplateEngine.GetExtensionInfo | MergeSourceFile/template_engine.py:73-91 | succeeds iff the name is registered, returning its entry; otherwise `KeyError` |
| TemplateEngine.GetAvailableExtensions | MergeSourceFile/template_engine.py:93-100 | every registered name mapped to its description |
| TemplateEngine.RegistryHoldsSqlplus | MergeSourceFile/template_engine.py:46-71 | the registry holds `sqlplus` alone, at priority 10, with namespace `sql` |
| TemplateEngine.Validated | MergeSourceFile/template_engine.py:102-124 | succeeds iff every name is registered, returning the names in order; otherwise a `ValueError` for the first unknown name |
| TemplateEngine.ValidateExtensionList | MergeSourceFile/template_engine.py:115-124 | the loop equals `Validated` |
| TemplateEngine.ExtensionNames | MergeSourceFile/template_engine.py:151-159 | a list of strings gives its items, and a bare string gives its characters |
| TemplateEngine.ImportFunction | MergeSourceFile/template_engine.py:191-213 | succeeds iff the module defines the function, returning it |
| TemplateEngine.LoadAllSpec | MergeSourceFile/template_engine.py:165-182 | on success, one loaded extension per name in order, with its registry entry, its `[jinja2.<name>]` config (default `{}`) and an importable handler |
| TemplateEngine.Load | MergeSourceFile/template_engine.py:149-189 | a falsy `extensions` loads nothing; otherwise the loaded list is sorted by priority and holds registered, importable extensions |
| TemplateEngine.SortedLoad | MergeSourceFile/template_engine.py:165-185 | sorting a successful load orders it by priority and keeps every extension registered and importable |
| TemplateEngine.LoadEnabledExtensions | MergeSourceFile/template_engine.py:149-189 | the loading method equals `Load` |
| TemplateEngine.ImportAll | MergeSourceFile/template_engine.py:165-182 | the appending loop equals `LoadAll` |
| TemplateEngine.SortPermutation | MergeSourceFile/template_engine.py:185 | sorting by priority is a permutation |
| TemplateEngine.SortSorted | MergeSourceFile/template_engine.py:185 | sorting by priority orders ascending |
| TemplateEngine.SortStable | MergeSourceFile/template_engine.py:185 | extensions of equal priority keep their listed order, as Python's sort does |
| TemplateEngine.LoadOrder | MergeSourceFile/template_engine.py:158-185 | the loaded list is a permutation of the listed extensions that keeps ties in listed order |
| TemplateEngine.UnknownExtensionRejected | MergeSourceFile/template_engine.py:158-162 | loading fails with the `ValueError` of the first unknown name |
| TemplateEngine.NewExtensionManager | MergeSourceFile/template_engine.py:138-147 | construction fails with the loading error, or holds the config and the loaded list |
| TemplateEngine.ExtensionManager.HasExtensions | MergeSourceFile/template_engine.py:331-333 | true iff some extension is loaded |
| TemplateEngine.ExtensionManager.GetExtensionNames | MergeSourceFile/template_engine.py:335-337 | the loaded extensions' names, in order |
| TemplateEngine.ExtensionManager.ProcessContent | MergeSourceFile/template_engine.py:215-260 | the loop equals `Thread`: each extension gets the previous text; a failure is re-raised in verbose mode and otherwise leaves the text as it was |
| TemplateEngine.QuietNeverRaises | MergeSourceFile/template_engine.py:254-258 | outside verbose mode the pass always yields a text |
| TemplateEngine.FailuresPassedOver | MergeSourceFile/template_engine.py:232-260 | outside verbose mode, extensions that all fail leave the text and variables as they were |
| TemplateEngine.ThreadVariables | MergeSourceFile/template_engine.py:247-285 | every extracted variable carries the namespace prefix of some extension |
| TemplateEngine.ConflictsChangeNothing | MergeSourceFile/template_engine.py:288-293 | the caller's variables only trigger a warning; the text and the extracted variables do not depend on them |
| TemplateEngine.CallHandler | MergeSourceFile/template_engine.py:238-244 | calling the handler equals `RunHandler`, the SQL*Plus handler returning its text and extracted variables |
| TemplateEngine.ProcessExtensionResult | MergeSourceFile/template_engine.py:262-298 | equals `ExtensionResult`: a pair is namespaced with its conflicts, and anything else is text without variables |
| TemplateEngine.NamespaceAll | MergeSourceFile/template_engine.py:281-293 | the renaming loop yields `Namespaced(ns, vars)`, and its conflicts are the names the caller also has |
| TemplateEngine.NamespacedNames | MergeSourceFile/template_engine.py:277-285 | every variable `n` appears as `ns_n` with its value, and every key is some `ns_n` |
| TemplateEngine.MergeVariables | MergeSourceFile/template_engine.py:397-398 | the keys are the union, extracted values win, and caller values are kept otherwise |
| TemplateEngine.DoubleRoundTrip | MergeSourceFile/template_engine.py:455-460 | doubling a character is undone by collapsing pairs, and adds one character per occurrence |
| TemplateEngine.SqlEscapeRoundTrip | MergeSourceFile/template_engine.py:455-460 | `sql_escape` on a string doubles every `'`: collapsing `''` restores the input, and the length grows by the number of quotes |
| ConfigLoader.SetDefaultsSpec | MergeSourceFile/config_loader.py:140-146 | a run of `setdefault` calls never overwrites: a present key keeps its value, a missing key gets the first default naming it, and no other key appears |
| ConfigLoader.SetDefaultsNoop | MergeSourceFile/config_loader.py:140-146 | on a table that already has every default key, the `setdefault` calls change nothing |
| ConfigLoader.FillProject | MergeSourceFile/config_loader.py:140-146 | the project keeps its values and gains input `""`, output `""`, verbose false, create_backup false and execution_order `[]` where they were missing |
| ConfigLoader.NormalizedProjectSpec | MergeSourceFile/config_loader.py:134-146 | the completed project keeps every key, takes the defaults where missing, and takes the legacy order only when it has none |
| ConfigLoader.CompleteProject | MergeSourceFile/config_loader.py:134-146 | the statement-by-statement completion of the project equals `NormalizedProject` |
| ConfigLoader.ConfigDict.AddSections | MergeSourceFile/config_loader.py:129-132 | in place, `project` and `plugins` are added as empty tables where missing |
| ConfigLoader.WithSectionsSpec | MergeSourceFile/config_loader.py:129-132 | after adding the sections both exist, existing values are kept, no other key appears, and the legacy order is unaffected |
| ConfigLoader.NormalizedTop | MergeSourceFile/config_loader.py:110-148 | on success, every top-level key except `project` is kept, `plugins` defaults to an empty table, and `project` is the completed project |
| ConfigLoader.NormalizedSpec | MergeSourceFile/config_loader.py:110-148 | on success, key by key: the sections exist, nothing present is overwritten, and each default project key holds its value or its default |
| ConfigLoader.ConfigDict.NormalizeConfig | MergeSourceFile/config_loader.py:110-148 | in place, the table becomes `Normalized`; a non-table project fails after the sections were added |
| ConfigLoader.NormalizedShape | MergeSourceFile/config_loader.py:129-146 | after normalising, `project` and `plugins` exist, and the project has input, output, verbose, create_backup and execution_order |
| ConfigLoader.NormalizeFailsOnlyOnBadProject | MergeSourceFile/config_loader.py:129-146 | normalising fails iff `project` is present but not a table |
| ConfigLoader.NormalizeKeeps | MergeSourceFile/config_loader.py:140-146 | no existing value is overwritten, at the top level or in `project` |
| ConfigLoader.ExecutionOrderChosen | MergeSourceFile/config_loader.py:135-146 | the project's own order wins, then `pipeline.execution_order`, then `[]` |
| ConfigLoader.NormalizeIdempotent | MergeSourceFile/config_loader.py:110-148 | normalising twice equals normalising once |
| ConfigLoader.Validate | MergeSourceFile/config_loader.py:151-218 | passes iff the project is a table with truthy input and output; otherwise the project, input and output errors, in that order |
| ConfigLoader.LoadConfig | MergeSourceFile/config_loader.py:37-107 | a missing file gives `FileNotFoundError`, bad TOML gives `ValueError`, and a loaded config has both sections and a truthy input and output |
| ConfigLoader.MinimalLoads | MergeSourceFile/config_loader.py:37-107 | a config holding only a project with a truthy input and output loads, with an empty `plugins`, verbose and create_backup false and execution_order `[]` |
| ConfigLoader.InputCheckedFirst | MergeSourceFile/config_loader.py:184-200 | a missing or falsy input is reported even when the output is missing too |
| Core.LoadCoreConfig | MergeSourceFile/core.py:47-119 | a missing file gives `FileNotFoundError("Archivo de configuración no encontrado: <path>")`, and bad TOML gives `ValueError` |
| Core.MinimalConfig | MergeSourceFile/core.py:141-158 | a project with only input and output loads with verbose false, create_backup false, an empty `plugins` and execution_order `[]` |
| ConfigLoader.MinimalNormalized | MergeSourceFile/config_loader.py:110-148 | the normalised minimal project is the input project plus the three defaults |
| Core.OrderPreserved | MergeSourceFile/core.py:147-158 | a user-supplied execution order is kept unchanged |
| Core.EmptyFileMissesInput | MergeSourceFile/core.py:197-214 | an empty file fails with "Configuración inválida: falta parámetro 'input'" |
| Core.EmptyOutputRejected | MergeSourceFile/core.py:216-233 | an empty-string output fails with "Configuración inválida: falta parámetro 'output'" |

## Left out

- File I/O, `pathlib` normalisation, encodings and all logging are not modelled. This covers the inclusion tree, the substitution summary, debug lines and the verbose banners. The filesystem is a map from path to text. Path joining is plain `/` concatenation, with no `..` or `.` collapsing.
- A directory at a resolved path passes `exists()` in Python and fails on reading. Here it is simply a missing file.
- Jinja2 rendering, `get_custom_loader`, `NoIncludeLoader`, `_render_template` and `_strftime_filter` are not modelled, because they wrap a foreign library. `GetSqlplusLoader` keeps only the decision of whether a loader is installed.
- `importlib` becomes the `Modules` map, from module name to the functions it defines.
- `main`, backups, exit codes, `resource_io.py` and `jinja2_plugin.py` are not modelled, because they are I/O orchestration.
- Includes.Expand: recursion is bounded by `fuel`. Running out of fuel yields `RecursionError`, which stands for Python's recursion limit on cyclic includes.
- `\w`, `re.IGNORECASE` and `str.upper()` are ASCII-only here. Non-ASCII letters are not word characters.
- Defines.Classify: the "DEFINE con valor inválido" `ValueError` branch is not modelled. One of the two value groups of the pattern always takes part in a match, so that branch cannot be reached.
- Defines.Substitute: the undefined-variable `ValueError` is `UndefinedVariableError(name, line)`, which carries the name and the 1-based line in place of the formatted message.
- TemplateEngine.ExtensionNames: only a list of strings and a bare string are iterated. Any other shape gives `TypeError`. Python raises `ValueError` for other hashable items and would iterate a dict's keys.
- TemplateEngine.SqlEscape: a non-string is given as the text of its `str()`, because Python's `str()` of arbitrary objects is not modelled.
- TemplateEngine.RunHandler: an extension's result is a pair or a text. A non-tuple, non-string result is not modelled.
- TemplateEngine.NewExtensionManager: when loading fails, no manager is built. In Python, the appends made before a failing import are lost with the object too.
- ConfigLoader.Normalized: a `project` that is not a table always fails with `AttributeError`. Python raises `TypeError` instead when `[pipeline]` has an `execution_order` and the project has none. A number, boolean or date project fails at the `in` test. A string project without the text `execution_order`, or a list project without the item `"execution_order"`, fails at the item assignment. In every other case Python raises `AttributeError` at the first `setdefault`, as the model does. The same holds for the copy in `core.py`.
- ConfigLoader.Normalized: a `pipeline` that is not a table is never migrated and normalising succeeds. In Python, `'execution_order' in pipeline` is a substring test on a string and a membership test on a list. When it holds and the project has no order, the next indexing raises `TypeError`. A number, boolean or date there raises `TypeError` at the `in` test. These failures are not modelled.
- ConfigLoader.LoaderMessages: each banner of `config_loader.py` is modelled by its `ERROR: …` headline. That is the third line, after an empty line and a rule of 70 `=`. The rest of the banner is not modelled, including the working directory it prints.
- Includes.Parent: the text before the last `/`. pathlib would first drop a trailing `/` and collapse `//` and `.` parts, which this does not.
- Nested dictionaries are values here. Aliasing between the caller's dictionary and the normalised one is not modelled.
- PluginSystem.Apply: a plugin returns the context it was given, updated in place. A plugin returning a different context object is not modelled.
- Concurrency is absent from the source and is not modelled.
