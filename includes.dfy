/** The SQL*Plus include resolver: a file is read line by line, a line
    `@@file` is replaced by the expansion of `file` looked up next to the
    file being read, a line `@file` by the expansion of `file` looked up
    under the inherited base directory, and every other line is kept with
    its trailing white space removed. The same resolver exists twice in the
    program; the two copies differ only in how a file's text is cut into
    lines, which is the `LineMode` parameter here. */
module Includes {
  import opened Base
  import opened Text

  /** The files the resolver can read, by path. A path without an entry
      does not exist. */
  type FileSystem = map<string, string>

  predicate IsAbsolute(path: string) {
    path != [] && path[0] == '/'
  }

  /** `base / file` for a relative `file`. */
  function JoinPath(base: string, file: string): string {
    if file == "" then (if base == "" then "." else base)
    else if base == "" || base == "." then file
    else if base[|base| - 1] == '/' then base + file
    else base + "/" + file
  }

  /** Position of the last `/` in `path`, if any. */
  function LastSlash(path: string): (r: Option<nat>)
    ensures r.Some? ==> r.value < |path| && path[r.value] == '/'
    ensures r.Some? ==> forall k :: r.value < k < |path| ==> path[k] != '/'
    ensures r.None? ==> '/' !in path
    decreases |path|
  {
    if path == [] then None
    else if path[|path| - 1] == '/' then Some(|path| - 1)
    else LastSlash(path[..|path| - 1])
  }

  /** The directory holding `path` (`Path(path).parent`). */
  function Parent(path: string): (d: string)
    ensures '/' !in path ==> d == "."
    ensures d != "." ==> d <= path
    ensures '/' in path && path[0] == '/' && '/' !in path[1..] ==> d == "/"
    ensures '/' in path && !(path[0] == '/' && '/' !in path[1..]) ==>
              0 < |d| < |path| && d == path[..|d|] && path[|d|] == '/' && '/' !in path[|d| + 1..]
  {
    match LastSlash(path)
    case None => "."
    case Some(0) => "/"
    case Some(k) => path[..k]
  }

  /** The path actually opened: the root file and absolute paths are used
      as given, an included relative path is taken under `base`. */
  function Resolve(file: string, base: string, depth: nat): string {
    if depth == 0 || IsAbsolute(file) then file else JoinPath(base, file)
  }

  function NotFoundMessage(path: string): string {
    "Archivo no encontrado: " + path
  }

  /** `c` in front of the text of a successful result. */
  function Prefixed(c: string, r: Result<string, Exc>): Result<string, Exc> {
    if r.Success? then Success(c + r.value) else r
  }

  lemma PrefixedNothing(r: Result<string, Exc>)
    ensures Prefixed("", r) == r
  {
    if r.Success? {
      assert "" + r.value == r.value;
    }
  }

  lemma PrefixedAssoc(a: string, b: string, r: Result<string, Exc>)
    ensures Prefixed(a, Prefixed(b, r)) == Prefixed(a + b, r)
  {
    if r.Success? {
      assert a + (b + r.value) == a + b + r.value;
    }
  }

  /** The text of a successful result followed by one line break. */
  function Terminated(r: Result<string, Exc>): Result<string, Exc> {
    if r.Success? then Success(r.value + "\n") else r
  }

  /** The expansion of the file `file` reached at nesting `depth`, with
      `base` the directory `@` inclusions resolve against. `fuel` bounds the
      number of files open at once: the program has no such bound and no
      cycle check, so a cyclic inclusion ends in the interpreter's
      recursion limit, which `RecursionError` stands for. */
  function Expand(fs: FileSystem, mode: LineMode, file: string, base: string, depth: nat, fuel: nat): Result<string, Exc>
    decreases fuel, 0, 0
  {
    if fuel == 0 then Failure(RecursionError)
    else
      var full := Resolve(file, base, depth);
      if full !in fs then Failure(FileNotFoundError(NotFoundMessage(full)))
      else ExpandLines(fs, mode, SplitLines(mode, fs[full]), full, base, depth, fuel - 1)
  }

  /** The expansion of the lines of the file at `full`. */
  function ExpandLines(fs: FileSystem, mode: LineMode, lines: seq<string>, full: string, base: string, depth: nat, fuel: nat): Result<string, Exc>
    decreases fuel, 1, |lines|
  {
    if lines == [] then Success("")
    else
      var head :- ExpandLine(fs, mode, lines[0], full, base, depth, fuel);
      var tail :- ExpandLines(fs, mode, lines[1..], full, base, depth, fuel);
      Success(head + tail)
  }

  /** What one line of the file at `full` contributes. */
  function ExpandLine(fs: FileSystem, mode: LineMode, raw: string, full: string, base: string, depth: nat, fuel: nat): Result<string, Exc>
    decreases fuel, 1, 0
  {
    var line := RStrip(raw);
    if "@@" <= line then Terminated(Expand(fs, mode, Strip(line[2..]), Parent(full), depth + 1, fuel))
    else if "@" <= line then Terminated(Expand(fs, mode, Strip(line[1..]), base, depth + 1, fuel))
    else Success(line + "\n")
  }

  /** The expansion of a non-empty run of lines is that of its first line
      followed by that of the others. */
  lemma ExpandLinesCons(fs: FileSystem, mode: LineMode, lines: seq<string>, full: string, base: string, depth: nat, fuel: nat)
    requires lines != []
    ensures var h := ExpandLine(fs, mode, lines[0], full, base, depth, fuel);
            ExpandLines(fs, mode, lines, full, base, depth, fuel)
            == if h.Failure? then h else Prefixed(h.value, ExpandLines(fs, mode, lines[1..], full, base, depth, fuel))
  {
  }

  /** `_read_file_recursive`: reads the file and accumulates the expansion
      line by line, recursing into every inclusion. */
  method ReadFileRecursive(fs: FileSystem, mode: LineMode, file: string, base: string, depth: nat, fuel: nat)
    returns (r: Result<string, Exc>)
    ensures r == Expand(fs, mode, file, base, depth, fuel)
    decreases fuel, 0
  {
    if fuel == 0 {
      return Failure(RecursionError);
    }
    var fullPath := Resolve(file, base, depth);
    if fullPath !in fs {
      return Failure(FileNotFoundError(NotFoundMessage(fullPath)));
    }
    var lines := SplitLines(mode, fs[fullPath]);
    r := ReadLines(fs, mode, lines, fullPath, base, depth, fuel - 1);
  }

  /** The line loop of `_read_file_recursive` over the lines of the file
      at `fullPath`. */
  method ReadLines(fs: FileSystem, mode: LineMode, lines: seq<string>, fullPath: string, base: string, depth: nat, fuel: nat)
    returns (r: Result<string, Exc>)
    ensures r == ExpandLines(fs, mode, lines, fullPath, base, depth, fuel)
    decreases fuel, 2
  {
    ghost var whole := ExpandLines(fs, mode, lines, fullPath, base, depth, fuel);
    var content := "";
    var i := 0;
    assert lines[i..] == lines;
    PrefixedNothing(whole);
    while i < |lines|
      invariant 0 <= i <= |lines|
      invariant whole == Prefixed(content, ExpandLines(fs, mode, lines[i..], fullPath, base, depth, fuel))
    {
      var piece := ReadLine(fs, mode, lines[i], fullPath, base, depth, fuel);
      LineStep(fs, mode, lines, i, content, fullPath, base, depth, fuel);
      if piece.Failure? {
        assert whole == piece;
        return piece;
      }
      content := content + piece.value;
      i := i + 1;
    }
    assert lines[i..] == [];
    assert content + "" == content;
    assert whole == Success(content);
    return Success(content);
  }

  /** How one pass of the line loop moves the accumulated text forward. */
  lemma LineStep(fs: FileSystem, mode: LineMode, lines: seq<string>, i: nat, content: string, full: string, base: string, depth: nat, fuel: nat)
    requires i < |lines|
    ensures var here := ExpandLine(fs, mode, lines[i], full, base, depth, fuel);
            var later := ExpandLines(fs, mode, lines[i + 1..], full, base, depth, fuel);
            Prefixed(content, ExpandLines(fs, mode, lines[i..], full, base, depth, fuel))
            == if here.Failure? then here else Prefixed(content + here.value, later)
  {
    ExpandLinesCons(fs, mode, lines[i..], full, base, depth, fuel);
    assert lines[i..][0] == lines[i] && lines[i..][1..] == lines[i + 1..];
    var here := ExpandLine(fs, mode, lines[i], full, base, depth, fuel);
    if here.Success? {
      PrefixedAssoc(content, here.value, ExpandLines(fs, mode, lines[i + 1..], full, base, depth, fuel));
    }
  }

  /** One pass of the line loop of `_read_file_recursive`: the line is
      rstripped, then expanded if it starts with `@@` or `@`, and kept
      otherwise. */
  method ReadLine(fs: FileSystem, mode: LineMode, raw: string, full: string, base: string, depth: nat, fuel: nat)
    returns (r: Result<string, Exc>)
    ensures r == ExpandLine(fs, mode, raw, full, base, depth, fuel)
    decreases fuel, 1
  {
    var line := RStrip(raw);
    if "@@" <= line {
      var nested := ReadFileRecursive(fs, mode, Strip(line[2..]), Parent(full), depth + 1, fuel);
      if nested.Failure? {
        return nested;
      }
      return Success(nested.value + "\n");
    } else if "@" <= line {
      var nested := ReadFileRecursive(fs, mode, Strip(line[1..]), base, depth + 1, fuel);
      if nested.Failure? {
        return nested;
      }
      return Success(nested.value + "\n");
    } else {
      return Success(line + "\n");
    }
  }

  /** The lines of `lines` with trailing white space removed. */
  function RStripAll(lines: seq<string>): (r: seq<string>)
    ensures |r| == |lines|
    ensures forall k :: 0 <= k < |lines| ==> r[k] == RStrip(lines[k])
  {
    seq(|lines|, k requires 0 <= k < |lines| => RStrip(lines[k]))
  }

  /** No line is an inclusion directive. */
  predicate NoDirectives(lines: seq<string>) {
    forall k :: 0 <= k < |lines| ==> !("@" <= RStrip(lines[k]))
  }

  /** Lines that are not directives come out rstripped, each followed by a
      line break. */
  lemma {:induction false} ExpandPlainLines(fs: FileSystem, mode: LineMode, lines: seq<string>, full: string, base: string, depth: nat, fuel: nat)
    requires NoDirectives(lines)
    ensures ExpandLines(fs, mode, lines, full, base, depth, fuel) == Success(Unlines(RStripAll(lines)))
    decreases |lines|
  {
    if lines != [] {
      assert !("@" <= RStrip(lines[0]));
      assert !("@@" <= RStrip(lines[0]));
      ExpandPlainLines(fs, mode, lines[1..], full, base, depth, fuel);
      assert RStripAll(lines)[1..] == RStripAll(lines[1..]);
    }
  }

  /** A file without directives expands to its rstripped lines, each
      followed by a line break. */
  lemma PlainFile(fs: FileSystem, mode: LineMode, file: string, base: string, depth: nat, fuel: nat)
    requires fuel > 0
    requires Resolve(file, base, depth) in fs
    requires NoDirectives(SplitLines(mode, fs[Resolve(file, base, depth)]))
    ensures Expand(fs, mode, file, base, depth, fuel)
         == Success(Unlines(RStripAll(SplitLines(mode, fs[Resolve(file, base, depth)]))))
  {
    var full := Resolve(file, base, depth);
    ExpandPlainLines(fs, mode, SplitLines(mode, fs[full]), full, base, depth, fuel - 1);
  }

  /** The root file and absolute paths are opened as given; a missing file
      is reported under the path that was looked for. */
  lemma MissingFile(fs: FileSystem, mode: LineMode, file: string, base: string, depth: nat, fuel: nat)
    requires fuel > 0
    requires depth == 0 || IsAbsolute(file)
    requires file !in fs
    ensures Expand(fs, mode, file, base, depth, fuel) == Failure(FileNotFoundError("Archivo no encontrado: " + file))
  {
  }

  /** An included relative path that does not exist is reported joined to
      the directory it was resolved against. */
  lemma MissingIncludedFile(fs: FileSystem, mode: LineMode, file: string, base: string, depth: nat, fuel: nat)
    requires fuel > 0 && depth > 0 && !IsAbsolute(file)
    requires JoinPath(base, file) !in fs
    ensures Expand(fs, mode, file, base, depth, fuel) == Failure(FileNotFoundError("Archivo no encontrado: " + JoinPath(base, file)))
  {
  }

  /** A name is a directive argument as written: non-empty, without
      surrounding white space. */
  predicate IsArgument(f: string) {
    f != [] && !IsSpace(f[0]) && !IsSpace(f[|f| - 1])
  }

  lemma StripArgument(f: string)
    requires IsArgument(f)
    ensures RStrip(f) == f && LStrip(f) == f && Strip(f) == f
  {
  }

  /** `@@file` is expanded with the directory of the including file as its
      base, whatever base was inherited, one level deeper, and its text is
      followed by one extra line break. */
  lemma DoubleAtAnchor(fs: FileSystem, mode: LineMode, f: string, full: string, base: string, depth: nat, fuel: nat)
    requires IsArgument(f)
    ensures ExpandLine(fs, mode, "@@" + f, full, base, depth, fuel)
         == Terminated(Expand(fs, mode, f, Parent(full), depth + 1, fuel))
  {
    var line := "@@" + f;
    StripArgument(f);
    assert RStrip(line) == line;
    assert line[2..] == f;
  }

  /** `@file` (not `@@`) is expanded with the inherited base, one level
      deeper, and its text is followed by one extra line break. */
  lemma SingleAtAnchor(fs: FileSystem, mode: LineMode, f: string, full: string, base: string, depth: nat, fuel: nat)
    requires IsArgument(f) && f[0] != '@'
    ensures ExpandLine(fs, mode, "@" + f, full, base, depth, fuel)
         == Terminated(Expand(fs, mode, f, base, depth + 1, fuel))
  {
    var line := "@" + f;
    StripArgument(f);
    assert RStrip(line) == line;
    assert !("@@" <= line) by {
      assert line[1] == f[0];
    }
    assert line[1..] == f;
  }

  /** A directive is only recognised at the very start of the line: an
      indented `@file` is ordinary text. */
  lemma IndentedDirectiveIsText(fs: FileSystem, mode: LineMode, raw: string, full: string, base: string, depth: nat, fuel: nat)
    requires raw != [] && IsSpace(raw[0])
    ensures ExpandLine(fs, mode, raw, full, base, depth, fuel) == Success(RStrip(raw) + "\n")
  {
    var line := RStrip(raw);
    if line != [] {
      assert line[0] == raw[0];
      assert !("@" <= line);
    }
  }

  /** Inclusions are expanded where they stand, in order: the text of the
      included file comes first, then the rest of the including file. */
  lemma {:induction false} SplicedInPlace(fs: FileSystem, mode: LineMode, f: string, rest: seq<string>, full: string, base: string, depth: nat, fuel: nat)
    requires IsArgument(f) && f[0] != '@'
    requires Expand(fs, mode, f, base, depth + 1, fuel).Success?
    requires NoDirectives(rest)
    ensures ExpandLines(fs, mode, ["@" + f] + rest, full, base, depth, fuel)
         == Success(Expand(fs, mode, f, base, depth + 1, fuel).value + "\n" + Unlines(RStripAll(rest)))
  {
    var lines := ["@" + f] + rest;
    assert lines[1..] == rest;
    SingleAtAnchor(fs, mode, f, full, base, depth, fuel);
    ExpandPlainLines(fs, mode, rest, full, base, depth, fuel);
  }

  /** There is no memoisation: a file included twice is read and expanded
      twice. */
  lemma IncludedTwice(fs: FileSystem, mode: LineMode, f: string, full: string, base: string, depth: nat, fuel: nat)
    requires IsArgument(f) && f[0] != '@'
    requires Expand(fs, mode, f, base, depth + 1, fuel).Success?
    ensures var t := Expand(fs, mode, f, base, depth + 1, fuel).value;
            ExpandLines(fs, mode, ["@" + f, "@" + f], full, base, depth, fuel) == Success(t + "\n" + t + "\n")
  {
    var lines := ["@" + f, "@" + f];
    var t := Expand(fs, mode, f, base, depth + 1, fuel).value;
    SingleAtAnchor(fs, mode, f, full, base, depth, fuel);
    ExpandLinesCons(fs, mode, lines, full, base, depth, fuel);
    assert lines[0] == "@" + f && lines[1..] == ["@" + f];
    OneLine(fs, mode, "@" + f, full, base, depth, fuel);
    assert (t + "\n") + (t + "\n") == t + "\n" + t + "\n";
  }

  lemma OneLine(fs: FileSystem, mode: LineMode, raw: string, full: string, base: string, depth: nat, fuel: nat)
    ensures ExpandLines(fs, mode, [raw], full, base, depth, fuel) == ExpandLine(fs, mode, raw, full, base, depth, fuel)
  {
    assert [raw][1..] == [];
    var r := ExpandLine(fs, mode, raw, full, base, depth, fuel);
    if r.Success? {
      assert r.value + "" == r.value;
    }
  }

  /** More fuel changes nothing once an expansion finishes within the
      bound: the bound only cuts off runaway (cyclic) inclusion. */
  lemma {:induction false} ExpandFuelMonotone(fs: FileSystem, mode: LineMode, file: string, base: string, depth: nat, fuel: nat)
    requires Expand(fs, mode, file, base, depth, fuel) != Failure(RecursionError)
    ensures Expand(fs, mode, file, base, depth, fuel + 1) == Expand(fs, mode, file, base, depth, fuel)
    decreases fuel, 0, 0
  {
    var full := Resolve(file, base, depth);
    if full in fs {
      ExpandLinesFuelMonotone(fs, mode, SplitLines(mode, fs[full]), full, base, depth, fuel - 1);
    }
  }

  lemma {:induction false} ExpandLinesFuelMonotone(fs: FileSystem, mode: LineMode, lines: seq<string>, full: string, base: string, depth: nat, fuel: nat)
    requires ExpandLines(fs, mode, lines, full, base, depth, fuel) != Failure(RecursionError)
    ensures ExpandLines(fs, mode, lines, full, base, depth, fuel + 1) == ExpandLines(fs, mode, lines, full, base, depth, fuel)
    decreases fuel, 1, |lines|
  {
    if lines != [] {
      ExpandLineFuelMonotone(fs, mode, lines[0], full, base, depth, fuel);
      if ExpandLine(fs, mode, lines[0], full, base, depth, fuel).Success? {
        ExpandLinesFuelMonotone(fs, mode, lines[1..], full, base, depth, fuel);
      }
    }
  }

  lemma {:induction false} ExpandLineFuelMonotone(fs: FileSystem, mode: LineMode, raw: string, full: string, base: string, depth: nat, fuel: nat)
    requires ExpandLine(fs, mode, raw, full, base, depth, fuel) != Failure(RecursionError)
    ensures ExpandLine(fs, mode, raw, full, base, depth, fuel + 1) == ExpandLine(fs, mode, raw, full, base, depth, fuel)
    decreases fuel, 1, 0
  {
    var line := RStrip(raw);
    if "@@" <= line {
      ExpandFuelMonotone(fs, mode, Strip(line[2..]), Parent(full), depth + 1, fuel);
    } else if "@" <= line {
      ExpandFuelMonotone(fs, mode, Strip(line[1..]), base, depth + 1, fuel);
    }
  }
}
