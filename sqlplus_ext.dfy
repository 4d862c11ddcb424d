/** The SQL*Plus extension of the template engine: include expansion
    followed by the DEFINE pass, each switched by a flag of the
    extension's configuration, returning the processed text and the final
    DEFINE table (which the engine exposes to templates). */
module SqlplusExtension {
  import opened Base
  import opened Text
  import opened Includes
  import opened Defines
  import opened DefineLemmas

  /** `config.get(key, True)`: a switch that is on unless configured off. */
  predicate Flag(config: map<string, Value>, key: string) {
    Truthy(Get(config, key, VBool(true)))
  }

  /** The base the root file's `@` inclusions resolve against: the input's
      own directory for an absolute input path, otherwise `base_path`. */
  function IncludesBase(inputFile: string, basePath: string): string {
    if IsAbsolute(inputFile) then Parent(inputFile) else basePath
  }

  /** The text and DEFINE table a successful pass produces. */
  function Extraction(r: Result<Defs, Exc>): Result<(string, map<string, string>), Exc> {
    if r.Success? then Success((JoinLines(r.value.out), r.value.table)) else Failure(r.error)
  }

  /** `process_sqlplus`, as a function of its inputs. */
  function Sqlplus(fs: FileSystem, content: string, inputFile: string, basePath: string,
                   config: map<string, Value>, fuel: nat): Result<(string, map<string, string>), Exc>
  {
    var text :- if Flag(config, "process_includes")
                then Expand(fs, StrSplitLines, inputFile, IncludesBase(inputFile, basePath), 0, fuel)
                else Success(content);
    if Flag(config, "process_defines") then Extraction(RunText(text)) else Success((text, map[]))
  }

  /** `_process_includes`: the input file is read again from the file
      system (the text passed in is not used) and expanded from depth 0. */
  method ProcessIncludes(fs: FileSystem, inputFile: string, basePath: string, fuel: nat)
    returns (r: Result<string, Exc>)
    ensures r == Expand(fs, StrSplitLines, inputFile, IncludesBase(inputFile, basePath), 0, fuel)
  {
    var base := if IsAbsolute(inputFile) then Parent(inputFile) else basePath;
    r := ReadFileRecursive(fs, StrSplitLines, inputFile, base, 0, fuel);
  }

  /** `_process_defines_with_extraction`: the DEFINE pass, its kept lines
      joined with line breaks, and the final table. */
  method ProcessDefinesWithExtraction(content: string) returns (r: Result<(string, map<string, string>), Exc>)
    ensures r == Extraction(RunText(content))
  {
    var pass := ProcessLines(content);
    if pass.Failure? {
      return Failure(pass.error);
    }
    return Success((JoinLines(pass.value.out), pass.value.table));
  }

  /** `_process_defines`: the same pass, returning only the text. */
  method ProcessDefines(content: string) returns (r: Result<string, Exc>)
    ensures r.Success? <==> RunText(content).Success?
    ensures r.Success? ==> r.value == JoinLines(RunText(content).value.out)
    ensures r.Failure? ==> r.error == RunText(content).error
  {
    var pass := ProcessLines(content);
    if pass.Failure? {
      return Failure(pass.error);
    }
    return Success(JoinLines(pass.value.out));
  }

  /** `process_sqlplus`: the text is replaced step by step, first by the
      include expansion, then by the DEFINE pass. */
  method ProcessSqlplus(fs: FileSystem, content: string, inputFile: string, basePath: string,
                        config: map<string, Value>, fuel: nat)
    returns (r: Result<(string, map<string, string>), Exc>)
    ensures r == Sqlplus(fs, content, inputFile, basePath, config, fuel)
  {
    var text := content;
    var extracted: map<string, string> := map[];
    if Truthy(Get(config, "process_includes", VBool(true))) {
      var expanded := ProcessIncludes(fs, inputFile, basePath, fuel);
      if expanded.Failure? {
        return Failure(expanded.error);
      }
      text := expanded.value;
    }
    if Truthy(Get(config, "process_defines", VBool(true))) {
      var pass := ProcessDefinesWithExtraction(text);
      if pass.Failure? {
        return Failure(pass.error);
      }
      text, extracted := pass.value.0, pass.value.1;
    }
    return Success((text, extracted));
  }

  /** The Jinja2 loader the extension installs: one that refuses
      `{% include %}`, or none. */
  datatype Loader = NoIncludeLoader

  /** `get_sqlplus_loader`. */
  function GetSqlplusLoader(config: map<string, Value>): Option<Loader> {
    if Truthy(Get(config, "process_includes", VBool(true))) then Some(NoIncludeLoader) else None
  }

  /** Template includes are refused exactly when `@` inclusions are
      expanded, and then the text handed in plays no part: everything
      comes from the input file. Without the loader, and with the DEFINE
      pass off, the text comes back unchanged. */
  lemma LoaderExcludesIncludes(fs: FileSystem, c1: string, c2: string, inputFile: string, basePath: string,
                               config: map<string, Value>, fuel: nat)
    ensures GetSqlplusLoader(config).Some? ==>
              Sqlplus(fs, c1, inputFile, basePath, config, fuel) == Sqlplus(fs, c2, inputFile, basePath, config, fuel)
    ensures GetSqlplusLoader(config).None? && !Flag(config, "process_defines") ==>
              Sqlplus(fs, c1, inputFile, basePath, config, fuel) == Success((c1, map[]))
  {
  }

  /** With the DEFINE pass off nothing is extracted. */
  lemma NoDefinesNoVariables(fs: FileSystem, content: string, inputFile: string, basePath: string,
                             config: map<string, Value>, fuel: nat)
    requires !Flag(config, "process_defines")
    requires Sqlplus(fs, content, inputFile, basePath, config, fuel).Success?
    ensures Sqlplus(fs, content, inputFile, basePath, config, fuel).value.1 == map[]
  {
  }

  /** Both passes are on by default: an empty configuration expands the
      input file, then runs the DEFINE pass over the expansion. */
  lemma DefaultsRunBoth(fs: FileSystem, content: string, inputFile: string, basePath: string, fuel: nat)
    ensures var e := Expand(fs, StrSplitLines, inputFile, IncludesBase(inputFile, basePath), 0, fuel);
            Sqlplus(fs, content, inputFile, basePath, map[], fuel)
            == if e.Failure? then Failure(e.error) else Extraction(RunText(e.value))
  {
  }

  /** The extracted variables are the DEFINE table left at the end of the
      text: every DEFINE and UNDEFINE applied in order to the empty table,
      the last definition of a name winning. */
  lemma ExtractedIsFinalTable(content: string)
    requires RunText(content).Success?
    ensures Extraction(RunText(content)).value.1 == TableAfter(SplitLines(StrSplitLines, content), map[])
  {
    RunTable(SplitLines(StrSplitLines, content), 1, Start);
  }

  /** The processed text is the emitted lines joined without a final line
      break: each comment as it is, each text line substituted under the
      table its earlier lines leave, directives dropped; one line per
      comment and text line of the input. */
  lemma ProcessedText(content: string)
    requires RunText(content).Success?
    ensures Extraction(RunText(content)).value.0 == JoinLines(Emitted(SplitLines(StrSplitLines, content), map[]))
    ensures |RunText(content).value.out| == Kept(SplitLines(StrSplitLines, content))
  {
    var lines := SplitLines(StrSplitLines, content);
    RunOutput(lines, 1, Start);
    assert Start.out + Emitted(lines, Start.table) == Emitted(lines, map[]);
  }
}
