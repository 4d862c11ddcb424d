/** The DEFINE / UNDEFINE / `&name` substitution pass of the SQL*Plus
    preprocessor: one forward pass over the lines of a text, with a table
    of defined variables and a counter of replacements per name.

    The three regular expressions of the program are written out as
    recognisers:
      DEFINE    `^define\s+(\w+)\s*=\s*(?:'(.*?)'|([^\s;]+))\s*;?\s*$`
      UNDEFINE  `^undefine\s+(\w+)\s*;\s*$`
      reference `(&\w+)(\.\.)?`
    both directive patterns matched case-insensitively at the start of the
    rstripped line. */
module Defines {
  import opened Base
  import opened Text

  /** One match of the reference pattern: the name after `&`, and whether
      the `..` concatenation suffix follows it. */
  datatype Ref = Ref(name: string, dotted: bool)

  predicate IsWord(s: string) {
    s != [] && forall k :: 0 <= k < |s| ==> IsWordChar(s[k])
  }

  /** Length of the longest prefix of `s` made of word characters. */
  function WordRun(s: string): (n: nat)
    ensures n <= |s|
    ensures forall k :: 0 <= k < n ==> IsWordChar(s[k])
    ensures n < |s| ==> !IsWordChar(s[n])
    decreases |s|
  {
    if s != [] && IsWordChar(s[0]) then 1 + WordRun(s[1..]) else 0
  }

  /** `findall` of `(&\w+)(\.\.)?`: scanning from the left, an `&`
      followed by the longest run of word characters, and the `..` right
      after it when there is one; the scan resumes after the match. */
  function FindRefs(s: string): (refs: seq<Ref>)
    ensures forall k :: 0 <= k < |refs| ==> IsWord(refs[k].name)
    decreases |s|
  {
    if s == [] then []
    else if s[0] == '&' && WordRun(s[1..]) > 0 then
      var n := WordRun(s[1..]);
      var after := s[1 + n..];
      var dotted := ".." <= after;
      [Ref(s[1..1 + n], dotted)] + FindRefs(if dotted then after[2..] else after)
    else FindRefs(s[1..])
  }

  /** The text the program replaces for a reference. */
  function Token(r: Ref): string {
    "&" + r.name + (if r.dotted then ".." else "")
  }

  /** What the token is replaced by: `..` collapses to a single `.`. */
  function Replacement(r: Ref, value: string): string {
    if r.dotted then value + "." else value
  }

  /** `s` starts with `word`, letters compared without regard to case. */
  predicate StartsWithIgnoringCase(s: string, word: string) {
    |word| <= |s| && Upper(s[..|word|]) == Upper(word)
  }

  predicate AllSpace(s: string) {
    LStrip(s) == []
  }

  /** `\s*;?\s*$`: the rest of the line is white space around at most one
      semicolon. */
  predicate ValidTail(t: string) {
    var u := LStrip(t);
    u == [] || (u[0] == ';' && AllSpace(u[1..]))
  }

  /** The lazy group of `'(.*?)'` followed by the tail: the first quote at
      or after `k` whose remainder is a valid tail closes the value; `.`
      does not cross a line feed. */
  function ClosingQuote(d: string, k: nat): (r: Option<nat>)
    ensures r.Some? ==> k <= r.value < |d| && d[r.value] == '\'' && ValidTail(d[r.value + 1..])
    decreases |d| - k
  {
    if k >= |d| || d[k] == '\n' then None
    else if d[k] == '\'' && ValidTail(d[k + 1..]) then Some(k)
    else ClosingQuote(d, k + 1)
  }

  /** Length of the longest prefix of `s` matched by `[^\s;]`. */
  function BareRun(s: string): (n: nat)
    ensures n <= |s|
    ensures forall k :: 0 <= k < n ==> !IsSpace(s[k]) && s[k] != ';'
    ensures n < |s| ==> IsSpace(s[n]) || s[n] == ';'
    decreases |s|
  {
    if s != [] && !IsSpace(s[0]) && s[0] != ';' then 1 + BareRun(s[1..]) else 0
  }

  /** `(?:'(.*?)'|([^\s;]+))\s*;?\s*$` at the start of `d`: the quoted
      alternative is tried first; otherwise the bare one, whose greedy run
      can only succeed at its full length because a shorter run leaves a
      character the tail does not accept. */
  function MatchValue(d: string): Option<string> {
    if d != [] && d[0] == '\'' && ClosingQuote(d, 1).Some? then
      Some(d[1..ClosingQuote(d, 1).value])
    else
      var m := BareRun(d);
      if m > 0 && ValidTail(d[m..]) then Some(d[..m]) else None
  }

  /** The DEFINE pattern on a rstripped line: name and value. Each `\s`
      run and the name are taken at their longest, the only lengths the
      pattern can accept since white space and word characters are
      disjoint. */
  function MatchDefine(clean: string): Option<(string, string)> {
    if !StartsWithIgnoringCase(clean, "define") then None else DefineArgs(clean[6..])
  }

  /** `\s+(\w+)\s*=\s*` and the value part, after the keyword. */
  function DefineArgs(a: string): Option<(string, string)> {
    var b := LStrip(a);
    var n := WordRun(b);
    if |b| == |a| || n == 0 then None
    else
      var c := LStrip(b[n..]);
      if c == [] || c[0] != '=' then None
      else
        match MatchValue(LStrip(c[1..]))
        case None => None
        case Some(v) => Some((b[..n], v))
  }

  /** The UNDEFINE pattern on a rstripped line: the name. */
  function MatchUndefine(clean: string): Option<string> {
    if !StartsWithIgnoringCase(clean, "undefine") then None else UndefineArgs(clean[8..])
  }

  /** `\s+(\w+)\s*;\s*$`, after the keyword. */
  function UndefineArgs(a: string): Option<string> {
    var b := LStrip(a);
    var n := WordRun(b);
    if |b| == |a| || n == 0 then None
    else
      var c := LStrip(b[n..]);
      if c != [] && c[0] == ';' && AllSpace(c[1..]) then Some(b[..n]) else None
  }

  /** What the pass does with a line. */
  datatype LineKind =
    | Comment
    | DefineLine(name: string, value: string)
    | UndefineLine(name: string)
    | TextLine

  /** The tests of the loop body, in order: comment, then DEFINE (only
      when the line, left-stripped and upper-cased, starts with `DEFINE `
      and the full pattern matches), then UNDEFINE; anything else is text
      to substitute in. */
  function Classify(line: string): LineKind {
    var clean := RStrip(line);
    if "--" <= LStrip(clean) then Comment
    else if "DEFINE " <= Upper(LStrip(clean)) && MatchDefine(clean).Some? then
      DefineLine(MatchDefine(clean).value.0, MatchDefine(clean).value.1)
    else if MatchUndefine(clean).Some? then UndefineLine(MatchUndefine(clean).value)
    else TextLine
  }

  /** The state of the pass: the define table, the replacement counters
      and the lines emitted so far. */
  datatype Defs = Defs(table: map<string, string>, counts: map<string, nat>, out: seq<string>)

  const Start := Defs(map[], map[], [])

  /** The replacement loop over the matches of one line: an undefined name
      aborts with the line number; otherwise every occurrence of the token
      in the current text is replaced and the name's counter goes up by
      one (a name without a counter would be the interpreter's KeyError). */
  function Substitute(text: string, refs: seq<Ref>, table: map<string, string>, counts: map<string, nat>, lineNo: nat)
    : Result<(string, map<string, nat>), Exc>
    decreases |refs|
  {
    if refs == [] then Success((text, counts))
    else
      var r := refs[0];
      if r.name !in table then Failure(UndefinedVariableError(r.name, lineNo))
      else if r.name !in counts then Failure(KeyError(r.name))
      else
        Substitute(ReplaceAll(text, Token(r), Replacement(r, table[r.name])), refs[1..],
                   table, counts[r.name := counts[r.name] + 1], lineNo)
  }

  /** One pass of the loop body on the line numbered `lineNo`. */
  function Step(d: Defs, line: string, lineNo: nat): Result<Defs, Exc> {
    match Classify(line)
    case Comment => Success(d.(out := d.out + [line]))
    case DefineLine(name, value) =>
      Success(d.(table := d.table[name := value],
                 counts := if name in d.counts then d.counts else d.counts[name := 0]))
    case UndefineLine(name) => Success(d.(table := d.table - {name}))
    case TextLine =>
      var clean := RStrip(line);
      var s :- Substitute(clean, FindRefs(clean), d.table, d.counts, lineNo);
      Success(d.(counts := s.1, out := d.out + [s.0]))
  }

  /** The pass over `lines`, the first of which is numbered `lineNo`. */
  function Run(lines: seq<string>, lineNo: nat, d: Defs): Result<Defs, Exc>
    decreases |lines|
  {
    if lines == [] then Success(d)
    else
      var d' :- Step(d, lines[0], lineNo);
      Run(lines[1..], lineNo + 1, d')
  }

  /** The pass over a whole text, lines numbered from 1. */
  function RunText(content: string): Result<Defs, Exc> {
    Run(SplitLines(StrSplitLines, content), 1, Start)
  }

  /** The loop shared by `_process_defines_with_extraction`,
      `_process_defines` and `_process_file_sequentially`: it walks the
      lines of `content`, updating the table, the counters and the
      emitted lines, and stops at the first undefined reference. */
  method ProcessLines(content: string) returns (r: Result<Defs, Exc>)
    ensures r == RunText(content)
  {
    var lines := SplitLines(StrSplitLines, content);
    var defines: map<string, string> := map[];
    var replacementCount: map<string, nat> := map[];
    var replacedLines: seq<string> := [];
    var i := 0;
    assert lines[i..] == lines;
    assert Start == Defs(defines, replacementCount, replacedLines);
    while i < |lines|
      invariant 0 <= i <= |lines|
      invariant RunText(content) == Run(lines[i..], i + 1, Defs(defines, replacementCount, replacedLines))
    {
      ghost var d := Defs(defines, replacementCount, replacedLines);
      var next := ProcessLine(defines, replacementCount, replacedLines, lines[i], i + 1);
      RunStep(lines, i, d, next);
      if next.Failure? {
        return Failure(next.error);
      }
      defines, replacementCount, replacedLines := next.value.table, next.value.counts, next.value.out;
      i := i + 1;
    }
    return Success(Defs(defines, replacementCount, replacedLines));
  }

  /** The body of the loop for one line: a comment is copied, a DEFINE
      sets the variable (and starts its counter at zero the first time),
      an UNDEFINE removes it, and any other line is substituted in. */
  method ProcessLine(defines: map<string, string>, replacementCount: map<string, nat>,
                     replacedLines: seq<string>, line: string, lineNumber: nat)
    returns (r: Result<Defs, Exc>)
    ensures r == Step(Defs(defines, replacementCount, replacedLines), line, lineNumber)
  {
    ghost var d := Defs(defines, replacementCount, replacedLines);
    StepKinds(d, line, lineNumber);
    var clean := RStrip(line);
    match Classify(line) {
      case Comment =>
        return Success(Defs(defines, replacementCount, replacedLines + [line]));
      case DefineLine(name, value) =>
        var counts := replacementCount;
        if name !in counts {
          counts := counts[name := 0];
        }
        return Success(Defs(defines[name := value], counts, replacedLines));
      case UndefineLine(name) =>
        var table := defines;
        if name in table {
          table := table - {name};
        } else {
          assert table - {name} == table;
        }
        return Success(Defs(table, replacementCount, replacedLines));
      case TextLine =>
        StepText(d, line, lineNumber);
        var replaced := SubstituteLine(clean, defines, replacementCount, lineNumber);
        if replaced.Failure? {
          return Failure(replaced.error);
        }
        return Success(Defs(defines, replaced.value.1, replacedLines + [replaced.value.0]));
    }
  }

  /** The inner loop of the pass: every match of the reference pattern in
      the rstripped line, in order, replaced in the current text. */
  method SubstituteLine(clean: string, defines: map<string, string>, counts: map<string, nat>, lineNumber: nat)
    returns (r: Result<(string, map<string, nat>), Exc>)
    ensures r == Substitute(clean, FindRefs(clean), defines, counts, lineNumber)
  {
    var refs := FindRefs(clean);
    var replaced := clean;
    var replacementCount := counts;
    var j := 0;
    assert refs[j..] == refs;
    while j < |refs|
      invariant 0 <= j <= |refs|
      invariant Substitute(clean, refs, defines, counts, lineNumber)
             == Substitute(replaced, refs[j..], defines, replacementCount, lineNumber)
    {
      SubstituteCons(replaced, refs[j..], defines, replacementCount, lineNumber);
      assert refs[j..][0] == refs[j] && refs[j..][1..] == refs[j + 1..];
      var ref := refs[j];
      if ref.name !in defines {
        return Failure(UndefinedVariableError(ref.name, lineNumber));
      }
      var value := defines[ref.name];
      if ref.dotted {
        assert Token(ref) == "&" + ref.name + ".." && Replacement(ref, value) == value + ".";
        replaced := ReplaceAll(replaced, "&" + ref.name + "..", value + ".");
      } else {
        assert Token(ref) == "&" + ref.name + "" == "&" + ref.name;
        replaced := ReplaceAll(replaced, "&" + ref.name, value);
      }
      if ref.name !in replacementCount {
        return Failure(KeyError(ref.name));
      }
      replacementCount := replacementCount[ref.name := replacementCount[ref.name] + 1];
      j := j + 1;
    }
    assert refs[j..] == [];
    return Success((replaced, replacementCount));
  }

  lemma SubstituteCons(text: string, refs: seq<Ref>, table: map<string, string>, counts: map<string, nat>, lineNo: nat)
    requires refs != []
    ensures var r := refs[0];
            Substitute(text, refs, table, counts, lineNo)
            == if r.name !in table then Failure(UndefinedVariableError(r.name, lineNo))
               else if r.name !in counts then Failure(KeyError(r.name))
               else Substitute(ReplaceAll(text, Token(r), Replacement(r, table[r.name])), refs[1..],
                               table, counts[r.name := counts[r.name] + 1], lineNo)
  {
  }

  lemma StepKinds(d: Defs, line: string, lineNo: nat)
    ensures Classify(line) == Comment ==> Step(d, line, lineNo) == Success(d.(out := d.out + [line]))
    ensures Classify(line).DefineLine? ==>
              var name := Classify(line).name;
              Step(d, line, lineNo) == Success(d.(table := d.table[name := Classify(line).value],
                                                   counts := if name in d.counts then d.counts else d.counts[name := 0]))
    ensures Classify(line).UndefineLine? ==> Step(d, line, lineNo) == Success(d.(table := d.table - {Classify(line).name}))
  {
  }

  lemma StepText(d: Defs, line: string, lineNo: nat)
    requires Classify(line) == TextLine
    ensures var s := Substitute(RStrip(line), FindRefs(RStrip(line)), d.table, d.counts, lineNo);
            Step(d, line, lineNo) == if s.Failure? then Failure(s.error) else Success(d.(counts := s.value.1, out := d.out + [s.value.0]))
  {
  }

  lemma RunStep(lines: seq<string>, i: nat, d: Defs, next: Result<Defs, Exc>)
    requires i < |lines|
    requires next == Step(d, lines[i], i + 1)
    ensures next.Failure? ==> Run(lines[i..], i + 1, d) == Failure(next.error)
    ensures next.Success? ==> Run(lines[i..], i + 1, d) == Run(lines[i + 1..], i + 2, next.value)
  {
    assert lines[i..][0] == lines[i] && lines[i..][1..] == lines[i + 1..];
  }
}
