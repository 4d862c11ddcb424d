/** Properties of the DEFINE / UNDEFINE / `&name` pass: what the table
    and the counters hold at the end, when the pass fails and with which
    error, that it only looks forward, and what the recognisers accept. */
module DefineLemmas {
  import opened Base
  import opened Text
  import opened Defines

  /** The names referenced by a list of matches. */
  function Names(refs: seq<Ref>): set<string> {
    set k | 0 <= k < |refs| :: refs[k].name
  }

  /** How many of the matches name `x`. */
  function Count(refs: seq<Ref>, x: string): nat
    decreases |refs|
  {
    if refs == [] then 0 else (if refs[0].name == x then 1 else 0) + Count(refs[1..], x)
  }

  /** The names a text line refers to. */
  function RefNames(line: string): set<string> {
    Names(FindRefs(RStrip(line)))
  }

  /** Every defined name has a counter: the invariant that makes the
      counter increment of the source safe. */
  predicate Counted(d: Defs) {
    d.table.Keys <= d.counts.Keys
  }

  /** The table after one line: only DEFINE and UNDEFINE lines change it. */
  function StepTable(table: map<string, string>, line: string): map<string, string> {
    match Classify(line)
    case DefineLine(name, value) => table[name := value]
    case UndefineLine(name) => table - {name}
    case _ => table
  }

  /** The table after a run of lines, whatever the text lines hold. */
  function TableAfter(lines: seq<string>, table: map<string, string>): map<string, string>
    decreases |lines|
  {
    if lines == [] then table else TableAfter(lines[1..], StepTable(table, lines[0]))
  }

  /** Every text line refers only to names defined by the lines above it. */
  predicate DefinedBeforeUse(lines: seq<string>, table: map<string, string>)
    decreases |lines|
  {
    lines == [] ||
    ((Classify(lines[0]) == TextLine ==> RefNames(lines[0]) <= table.Keys) &&
     DefinedBeforeUse(lines[1..], StepTable(table, lines[0])))
  }

  /** The names given a value by some DEFINE line. */
  function DefinedNames(lines: seq<string>): set<string>
    decreases |lines|
  {
    if lines == [] then {}
    else LineDefines(lines[0]) + DefinedNames(lines[1..])
  }

  /** The name a DEFINE line defines. */
  function LineDefines(line: string): set<string> {
    if Classify(line).DefineLine? then {Classify(line).name} else {}
  }

  /** How many matches of the reference pattern name `x` in the text lines. */
  function Uses(lines: seq<string>, x: string): nat
    decreases |lines|
  {
    if lines == [] then 0
    else LineUses(lines[0], x) + Uses(lines[1..], x)
  }

  /** How many matches of the reference pattern name `x` in one line, if
      it is a text line. */
  function LineUses(line: string, x: string): nat {
    if Classify(line) == TextLine then Count(FindRefs(RStrip(line)), x) else 0
  }

  /** The lines a run keeps in its output: comments and text lines. */
  function Kept(lines: seq<string>): nat
    decreases |lines|
  {
    if lines == [] then 0
    else (if Classify(lines[0]).Comment? || Classify(lines[0]) == TextLine then 1 else 0) + Kept(lines[1..])
  }

  /** `x` is the name of the first match whose name has no value in
      `table`: every match before it is defined. */
  predicate FirstUndefined(refs: seq<Ref>, table: map<string, string>, x: string) {
    x !in table &&
    exists j :: 0 <= j < |refs| && refs[j].name == x && forall i :: 0 <= i < j ==> refs[i].name in table
  }

  /** The text the replacement loop leaves, in terms of the table alone:
      each match in turn has every occurrence of its token replaced by
      the variable's value. */
  function Substituted(text: string, refs: seq<Ref>, table: map<string, string>): string
    decreases |refs|
  {
    if refs == [] || refs[0].name !in table then text
    else
      var r := refs[0];
      Substituted(ReplaceAll(text, Token(r), Replacement(r, table[r.name])), refs[1..], table)
  }

  /** The text a text line becomes under `table`. */
  function LineText(line: string, table: map<string, string>): string {
    Substituted(RStrip(line), FindRefs(RStrip(line)), table)
  }

  /** What one line adds to the output under the table in force: a
      comment is kept as it is, a text line gives its substituted text,
      and a DEFINE or UNDEFINE gives nothing. */
  function LineEmitted(line: string, table: map<string, string>): seq<string> {
    match Classify(line)
    case Comment => [line]
    case TextLine => [LineText(line, table)]
    case _ => []
  }

  /** The output of a run of lines, each line read under the table the
      lines above it leave. */
  function Emitted(lines: seq<string>, table: map<string, string>): seq<string>
    decreases |lines|
  {
    if lines == [] then []
    else LineEmitted(lines[0], table) + Emitted(lines[1..], StepTable(table, lines[0]))
  }

  // ---- the replacement loop of one line ----

  /** With every defined name counted, the loop fails exactly when some
      match names an undefined variable, and then with the first such
      name and the line number. */
  lemma {:induction false} SubstituteOutcome(text: string, refs: seq<Ref>, table: map<string, string>,
                                             counts: map<string, nat>, lineNo: nat)
    requires table.Keys <= counts.Keys
    ensures var s := Substitute(text, refs, table, counts, lineNo);
            (s.Success? <==> Names(refs) <= table.Keys) &&
            (s.Failure? ==> s.error.UndefinedVariableError? && s.error.line == lineNo &&
                            s.error.name in Names(refs) && FirstUndefined(refs, table, s.error.name))
    decreases |refs|
  {
    if refs != [] {
      var r := refs[0];
      var s := Substitute(text, refs, table, counts, lineNo);
      assert Names(refs) == {r.name} + Names(refs[1..]) by {
        forall x | x in Names(refs) ensures x in {r.name} + Names(refs[1..]) {
          var k :| 0 <= k < |refs| && refs[k].name == x;
          if k > 0 { assert refs[1..][k - 1] == refs[k]; }
        }
        forall x | x in Names(refs[1..]) ensures x in Names(refs) {
          var k :| 0 <= k < |refs[1..]| && refs[1..][k].name == x;
          assert refs[k + 1].name == x;
        }
      }
      if r.name in table {
        SubstituteOutcome(ReplaceAll(text, Token(r), Replacement(r, table[r.name])), refs[1..],
                          table, counts[r.name := counts[r.name] + 1], lineNo);
        if s.Failure? {
          var j :| 0 <= j < |refs[1..]| && refs[1..][j].name == s.error.name &&
                   forall i :: 0 <= i < j ==> refs[1..][i].name in table;
          assert refs[j + 1].name == s.error.name;
          forall i | 0 <= i < j + 1 ensures refs[i].name in table {
            if i > 0 { assert refs[i] == refs[1..][i - 1]; }
          }
        }
      } else {
        assert refs[0].name == s.error.name;
      }
    }
  }

  /** A successful loop leaves `Substituted`: the text depends on the
      table, never on the counters. */
  lemma {:induction false} SubstituteText(text: string, refs: seq<Ref>, table: map<string, string>,
                                          counts: map<string, nat>, lineNo: nat)
    requires Substitute(text, refs, table, counts, lineNo).Success?
    ensures Substitute(text, refs, table, counts, lineNo).value.0 == Substituted(text, refs, table)
    decreases |refs|
  {
    if refs != [] {
      var r := refs[0];
      SubstituteText(ReplaceAll(text, Token(r), Replacement(r, table[r.name])), refs[1..],
                     table, counts[r.name := counts[r.name] + 1], lineNo);
    }
  }

  /** Two counter maps that both count every defined name give the same
      outcome and the same text. */
  lemma SubstituteIgnoresCounts(text: string, refs: seq<Ref>, table: map<string, string>,
                                c1: map<string, nat>, c2: map<string, nat>, lineNo: nat)
    requires table.Keys <= c1.Keys && table.Keys <= c2.Keys
    ensures var s1, s2 := Substitute(text, refs, table, c1, lineNo), Substitute(text, refs, table, c2, lineNo);
            s1.Success? == s2.Success? && (s1.Success? ==> s1.value.0 == s2.value.0)
  {
    SubstituteOutcome(text, refs, table, c1, lineNo);
    SubstituteOutcome(text, refs, table, c2, lineNo);
    if Substitute(text, refs, table, c1, lineNo).Success? {
      SubstituteText(text, refs, table, c1, lineNo);
      SubstituteText(text, refs, table, c2, lineNo);
    }
  }

  /** A successful loop adds one to a name's counter per match of that
      name, and adds no counter. */
  lemma {:induction false} SubstituteCounts(text: string, refs: seq<Ref>, table: map<string, string>,
                                            counts: map<string, nat>, lineNo: nat)
    requires Substitute(text, refs, table, counts, lineNo).Success?
    ensures var c := Substitute(text, refs, table, counts, lineNo).value.1;
            c.Keys == counts.Keys &&
            (forall x :: x in counts ==> c[x] == counts[x] + Count(refs, x)) &&
            (forall x :: x !in counts ==> Count(refs, x) == 0)
    decreases |refs|
  {
    if refs != [] {
      var r := refs[0];
      SubstituteCounts(ReplaceAll(text, Token(r), Replacement(r, table[r.name])), refs[1..],
                       table, counts[r.name := counts[r.name] + 1], lineNo);
    }
  }

  // ---- one line ----

  lemma StepCounted(d: Defs, line: string, lineNo: nat)
    requires Counted(d)
    requires Step(d, line, lineNo).Success?
    ensures Counted(Step(d, line, lineNo).value)
    ensures Step(d, line, lineNo).value.table == StepTable(d.table, line)
  {
    if Classify(line) == TextLine {
      var clean := RStrip(line);
      SubstituteCounts(clean, FindRefs(clean), d.table, d.counts, lineNo);
    }
  }

  // ---- the whole pass ----

  /** The pass only looks forward: running `a + b` is running `a`, then
      running `b` from where `a` stopped. */
  lemma {:induction false} RunAppend(a: seq<string>, b: seq<string>, lineNo: nat, d: Defs)
    ensures Run(a + b, lineNo, d)
         == if Run(a, lineNo, d).Failure? then Run(a, lineNo, d)
            else Run(b, lineNo + |a|, Run(a, lineNo, d).value)
    decreases |a|
  {
    if a == [] {
      assert a + b == b;
    } else {
      assert (a + b)[0] == a[0] && (a + b)[1..] == a[1..] + b;
      var s := Step(d, a[0], lineNo);
      if s.Success? {
        RunAppend(a[1..], b, lineNo + 1, s.value);
      }
    }
  }

  /** A use that fails is not rescued by anything later in the text, a
      DEFINE of the name included. */
  lemma LaterLinesNeverHelp(a: seq<string>, b: seq<string>, lineNo: nat, d: Defs)
    requires Run(a, lineNo, d).Failure?
    ensures Run(a + b, lineNo, d) == Run(a, lineNo, d)
  {
    RunAppend(a, b, lineNo, d);
  }

  /** The pass succeeds exactly when every reference is to a name the
      lines above it have defined (and not undefined since). */
  lemma {:induction false} RunSucceedsIff(lines: seq<string>, lineNo: nat, d: Defs)
    requires Counted(d)
    ensures Run(lines, lineNo, d).Success? <==> DefinedBeforeUse(lines, d.table)
    decreases |lines|
  {
    if lines != [] {
      var line := lines[0];
      var s := Step(d, line, lineNo);
      if Classify(line) == TextLine {
        var clean := RStrip(line);
        SubstituteOutcome(clean, FindRefs(clean), d.table, d.counts, lineNo);
      }
      if s.Success? {
        StepCounted(d, line, lineNo);
        RunSucceedsIff(lines[1..], lineNo + 1, s.value);
      }
    }
  }

  /** The error of a failed pass: a use of an undefined variable naming
      the variable and the number of the line that uses it, a text line
      referring to it above which the name is not defined. */
  predicate Explains(lines: seq<string>, lineNo: nat, d: Defs, e: Exc) {
    e.UndefinedVariableError? && lineNo <= e.line < lineNo + |lines| &&
    Classify(lines[e.line - lineNo]) == TextLine &&
    e.name in RefNames(lines[e.line - lineNo]) &&
    Run(lines[..e.line - lineNo], lineNo, d).Success? &&
    FirstUndefined(FindRefs(RStrip(lines[e.line - lineNo])), TableAfter(lines[..e.line - lineNo], d.table), e.name)
  }

  /** When the pass fails, the error says which variable was used before
      being defined, and on which line. */
  lemma {:induction false} RunFailure(lines: seq<string>, lineNo: nat, d: Defs)
    requires Counted(d)
    requires Run(lines, lineNo, d).Failure?
    ensures Explains(lines, lineNo, d, Run(lines, lineNo, d).error)
    decreases |lines|, 1
  {
    var s := Step(d, lines[0], lineNo);
    if s.Failure? {
      FirstLineFails(d, lines[0], lineNo);
      assert lines[..0] == [];
    } else {
      StepCounted(d, lines[0], lineNo);
      LaterLineFails(lines, lineNo, d, s.value);
    }
  }

  lemma {:induction false} LaterLineFails(lines: seq<string>, lineNo: nat, d: Defs, d': Defs)
    requires Counted(d') && lines != []
    requires Step(d, lines[0], lineNo) == Success(d')
    requires d'.table == StepTable(d.table, lines[0])
    requires Run(lines[1..], lineNo + 1, d').Failure?
    ensures Explains(lines, lineNo, d, Run(lines[1..], lineNo + 1, d').error)
    decreases |lines|, 0
  {
    RunFailure(lines[1..], lineNo + 1, d');
    var e := Run(lines[1..], lineNo + 1, d').error;
    var k := e.line - lineNo;
    assert e.line - (lineNo + 1) == k - 1;
    assert lines[1..][k - 1] == lines[k];
    TableAfterPrefix(lines, k, d.table);
    RunPrefix(lines, k, lineNo, d, d');
    assert e.name !in TableAfter(lines[..k], d.table);
  }

  lemma RunPrefix(lines: seq<string>, k: nat, lineNo: nat, d: Defs, d': Defs)
    requires 1 <= k <= |lines|
    requires Step(d, lines[0], lineNo) == Success(d')
    ensures Run(lines[..k], lineNo, d) == Run(lines[1..][..k - 1], lineNo + 1, d')
  {
    assert lines[..k][0] == lines[0] && lines[..k][1..] == lines[1..][..k - 1];
  }

  lemma FirstLineFails(d: Defs, line: string, lineNo: nat)
    requires Counted(d)
    requires Step(d, line, lineNo).Failure?
    ensures var e := Step(d, line, lineNo).error;
            e.UndefinedVariableError? && e.line == lineNo && Classify(line) == TextLine &&
            e.name in RefNames(line) && FirstUndefined(FindRefs(RStrip(line)), d.table, e.name)
  {
    var clean := RStrip(line);
    SubstituteOutcome(clean, FindRefs(clean), d.table, d.counts, lineNo);
  }

  lemma TableAfterPrefix(lines: seq<string>, k: nat, table: map<string, string>)
    requires 1 <= k <= |lines|
    ensures TableAfter(lines[..k], table) == TableAfter(lines[1..][..k - 1], StepTable(table, lines[0]))
  {
    assert lines[..k][0] == lines[0] && lines[..k][1..] == lines[1..][..k - 1];
  }

  /** After a successful pass the table is the fold of the DEFINE and
      UNDEFINE lines over the initial table: last write wins, and text
      lines never change it. */
  lemma {:induction false} RunTable(lines: seq<string>, lineNo: nat, d: Defs)
    requires Counted(d)
    requires Run(lines, lineNo, d).Success?
    ensures Run(lines, lineNo, d).value.table == TableAfter(lines, d.table)
    ensures Counted(Run(lines, lineNo, d).value)
    decreases |lines|
  {
    if lines != [] {
      var s := Step(d, lines[0], lineNo);
      StepCounted(d, lines[0], lineNo);
      RunTable(lines[1..], lineNo + 1, s.value);
    }
  }

  /** After a successful pass the counters are exactly the names ever
      defined (besides the ones counted before), each holding its old
      value, or zero, plus one per match of the name: a redefinition
      does not reset a counter. */
  lemma {:induction false} RunCounts(lines: seq<string>, lineNo: nat, d: Defs)
    requires Run(lines, lineNo, d).Success?
    ensures var c := Run(lines, lineNo, d).value.counts;
            c.Keys == d.counts.Keys + DefinedNames(lines) &&
            forall x :: x in c ==> c[x] == (if x in d.counts then d.counts[x] else 0) + Uses(lines, x)
    decreases |lines|
  {
    if lines != [] {
      var d' := Step(d, lines[0], lineNo).value;
      StepCounts(d, lines[0], lineNo);
      RunCounts(lines[1..], lineNo + 1, d');
    }
  }

  /** One line: a DEFINE adds a counter at zero for a new name, a text
      line adds its matches, and nothing else changes the counters. */
  lemma StepCounts(d: Defs, line: string, lineNo: nat)
    requires Step(d, line, lineNo).Success?
    ensures var c := Step(d, line, lineNo).value.counts;
            c.Keys == d.counts.Keys + LineDefines(line) &&
            (forall x :: x in c ==> c[x] == (if x in d.counts then d.counts[x] else 0) + LineUses(line, x)) &&
            (forall x :: x !in c ==> LineUses(line, x) == 0)
  {
    if Classify(line) == TextLine {
      var clean := RStrip(line);
      SubstituteCounts(clean, FindRefs(clean), d.table, d.counts, lineNo);
    }
  }


  /** The output is the old output followed by `Emitted`: each comment
      as it is and each text line substituted under the table in force
      at that line, directives giving nothing; hence one line per
      comment and text line. */
  lemma RunOutput(lines: seq<string>, lineNo: nat, d: Defs)
    requires Run(lines, lineNo, d).Success?
    ensures var out := Run(lines, lineNo, d).value.out;
            out == d.out + Emitted(lines, d.table) && |out| == |d.out| + Kept(lines)
  {
    RunEmitted(lines, lineNo, d);
    EmittedLength(lines, d.table);
  }

  lemma {:induction false} RunEmitted(lines: seq<string>, lineNo: nat, d: Defs)
    requires Run(lines, lineNo, d).Success?
    ensures Run(lines, lineNo, d).value.out == d.out + Emitted(lines, d.table)
    decreases |lines|
  {
    if lines != [] {
      var s := Step(d, lines[0], lineNo).value;
      StepOutput(d, lines[0], lineNo);
      RunEmitted(lines[1..], lineNo + 1, s);
      assert Run(lines, lineNo, d) == Run(lines[1..], lineNo + 1, s);
      assert Emitted(lines, d.table) == LineEmitted(lines[0], d.table) + Emitted(lines[1..], s.table);
    }
  }

  /** `Emitted` has one line per comment and text line. */
  lemma {:induction false} EmittedLength(lines: seq<string>, table: map<string, string>)
    ensures |Emitted(lines, table)| == Kept(lines)
    decreases |lines|
  {
    if lines != [] {
      EmittedLength(lines[1..], StepTable(table, lines[0]));
    }
  }

  /** One line: the table moves as `StepTable` says and the output grows
      by `LineEmitted` under the old table. */
  lemma StepOutput(d: Defs, line: string, lineNo: nat)
    requires Step(d, line, lineNo).Success?
    ensures Step(d, line, lineNo).value.table == StepTable(d.table, line)
    ensures Step(d, line, lineNo).value.out == d.out + LineEmitted(line, d.table)
  {
    if Classify(line) == TextLine {
      var clean := RStrip(line);
      SubstituteText(clean, FindRefs(clean), d.table, d.counts, lineNo);
    }
  }

  /** Over a whole text the only error is the undefined-variable one:
      the counter of a defined name always exists. */
  lemma OnlyUndefinedVariableErrors(content: string)
    requires RunText(content).Failure?
    ensures RunText(content).error.UndefinedVariableError?
    ensures RunText(content).error.line >= 1
  {
    RunFailure(SplitLines(StrSplitLines, content), 1, Start);
  }
}
