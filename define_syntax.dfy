/** What the three patterns of the DEFINE / UNDEFINE / `&name` pass
    accept, on the line shapes a script is written with, and what one
    reference becomes. */
module DefineSyntax {
  import opened Base
  import opened Text
  import opened Defines

  // ---- helpers on the string builtins ----

  lemma LStripSpace(t: string)
    ensures LStrip(" " + t) == LStrip(t)
  {
    assert (" " + t)[1..] == t;
  }

  lemma LStripNonSpace(s: string)
    requires s != [] && !IsSpace(s[0])
    ensures LStrip(s) == s
  {
  }

  lemma RStripNonSpace(s: string)
    requires s != [] && !IsSpace(s[|s| - 1])
    ensures RStrip(s) == s
  {
  }

  lemma {:induction false} WordRunOf(name: string, rest: string)
    requires forall k :: 0 <= k < |name| ==> IsWordChar(name[k])
    requires rest == [] || !IsWordChar(rest[0])
    ensures WordRun(name + rest) == |name|
    decreases |name|
  {
    if name != [] {
      assert (name + rest)[1..] == name[1..] + rest;
      WordRunOf(name[1..], rest);
    }
  }

  lemma {:induction false} BareRunAll(v: string)
    requires forall k :: 0 <= k < |v| ==> !IsSpace(v[k]) && v[k] != ';'
    ensures BareRun(v) == |v|
    decreases |v|
  {
    if v != [] {
      BareRunAll(v[1..]);
    }
  }

  lemma {:induction false} ClosingQuoteSkips(d: string, k: nat, j: nat)
    requires k <= j < |d| && d[j] == '\'' && d[j + 1..] == []
    requires forall i :: k <= i < j ==> d[i] != '\'' && d[i] != '\n'
    ensures ClosingQuote(d, k) == Some(j)
    decreases j - k
  {
    if k < j {
      ClosingQuoteSkips(d, k + 1, j);
    } else {
      assert LStrip(d[j + 1..]) == [];
    }
  }

  /** The lazy `.*?` stops at the first quote followed by a valid tail,
      and `.` does not cross a line feed: every position before the
      quote found is neither a line feed nor such a quote, and `None`
      means each such quote has a line feed before it. */
  lemma {:induction false} ClosingQuoteFirst(d: string, k: nat)
    ensures var r := ClosingQuote(d, k);
      (r.Some? ==> forall j :: k <= j < r.value ==> d[j] != '\n' && !(d[j] == '\'' && ValidTail(d[j + 1..]))) &&
      (r.None? ==> forall j :: k <= j < |d| && d[j] == '\'' && ValidTail(d[j + 1..]) ==>
                     exists i :: k <= i < j && d[i] == '\n')
    decreases |d| - k
  {
    if k < |d| && d[k] != '\n' && !(d[k] == '\'' && ValidTail(d[k + 1..])) {
      ClosingQuoteFirst(d, k + 1);
    }
  }

  lemma UpperPrefix(s: string, word: string)
    requires word <= s
    ensures Upper(s)[..|word|] == Upper(word)
  {
    assert forall i :: 0 <= i < |word| ==> Upper(s)[i] == UpperChar(s[i]) == Upper(word)[i];
  }

  // ---- DEFINE ----

  /** The value part of the DEFINE pattern on a bare value. */
  lemma MatchValueBare(value: string)
    requires value != [] && value[0] != '\''
    requires forall k :: 0 <= k < |value| ==> !IsSpace(value[k]) && value[k] != ';'
    ensures MatchValue(value) == Some(value)
  {
    BareRunAll(value);
    assert value[|value|..] == [];
    assert value[..|value|] == value;
  }

  /** The value part of the DEFINE pattern on a quoted value. */
  lemma MatchValueQuoted(value: string)
    requires '\'' !in value && '\n' !in value
    ensures MatchValue("'" + value + "'") == Some(value)
  {
    var q := "'" + value + "'";
    ClosingQuoteSkips(q, 1, |value| + 1);
    assert q[1..|value| + 1] == value;
  }

  /** `DEFINE name = v`, where the value part `v` matches. */
  lemma MatchDefineOf(name: string, v: string, value: string)
    requires IsWord(name)
    requires v != [] && !IsSpace(v[0]) && MatchValue(v) == Some(value)
    ensures MatchDefine("DEFINE " + name + " = " + v) == Some((name, value))
  {
    var rest := " " + (name + (" " + ("= " + v)));
    assert "DEFINE " + name + " = " + v == "DEFINE" + rest;
    DefineKeyword(rest);
    DefineArgsOf(name, v, value);
  }

  /** The upper-case keyword matches the pattern's `define`. */
  lemma DefineKeyword(rest: string)
    ensures StartsWithIgnoringCase("DEFINE" + rest, "define")
    ensures ("DEFINE" + rest)[6..] == rest
  {
    var line := "DEFINE" + rest;
    assert line[..6] == "DEFINE";
  }

  lemma DefineArgsOf(name: string, v: string, value: string)
    requires IsWord(name)
    requires v != [] && !IsSpace(v[0]) && MatchValue(v) == Some(value)
    ensures DefineArgs(" " + (name + (" " + ("= " + v)))) == Some((name, value))
  {
    var c := "= " + v;
    var e := " " + c;
    var b := name + e;
    LStripSpace(b);
    LStripNonSpace(b);
    WordRunOf(name, e);
    assert b[|name|..] == e;
    LStripSpace(c);
    LStripNonSpace(c);
    assert c[1..] == " " + v;
    LStripSpace(v);
    LStripNonSpace(v);
    assert b[..|name|] == name;
    DefineArgsShape(" " + b, b, |name|, c, v);
  }

  /** `DefineArgs` read off from its parts. */
  lemma DefineArgsShape(a: string, b: string, n: nat, c: string, v: string)
    requires b == LStrip(a) && |b| != |a| && n == WordRun(b) && n > 0
    requires c == LStrip(b[n..]) && c != [] && c[0] == '=' && v == LStrip(c[1..])
    ensures DefineArgs(a) == if MatchValue(v).Some? then Some((b[..n], MatchValue(v).value)) else None
  {
  }

  /** A line starting with `DEFINE ` that the full pattern accepts is a
      definition. */
  lemma ClassifyDefine(line: string, name: string, value: string)
    requires "DEFINE " <= line && !IsSpace(line[|line| - 1])
    requires MatchDefine(line) == Some((name, value))
    ensures Classify(line) == DefineLine(name, value)
  {
    RStripNonSpace(line);
    LStripNonSpace(line);
    assert !("--" <= line) by { assert line[0] == 'D'; }
    UpperPrefix(line, "DEFINE ");
    UpperKeyword();
    assert "DEFINE " <= Upper(line);
  }

  lemma UpperKeyword()
    ensures Upper("DEFINE ") == "DEFINE "
  {
  }

  /** `DEFINE name = value` with a bare value (no white space, no `;`,
      not starting with a quote) defines `name` as `value`. */
  lemma DefineBare(name: string, value: string)
    requires IsWord(name)
    requires value != [] && value[0] != '\''
    requires forall k :: 0 <= k < |value| ==> !IsSpace(value[k]) && value[k] != ';'
    ensures Classify("DEFINE " + name + " = " + value) == DefineLine(name, value)
  {
    MatchValueBare(value);
    MatchDefineOf(name, value, value);
    var line := "DEFINE " + name + " = " + value;
    assert line[|line| - 1] == value[|value| - 1];
    ClassifyDefine(line, name, value);
  }

  /** `DEFINE name = 'value'` with no quote or line feed inside the value
      defines `name` as the text between the quotes. */
  lemma DefineQuoted(name: string, value: string)
    requires IsWord(name)
    requires '\'' !in value && '\n' !in value
    ensures Classify("DEFINE " + name + " = '" + value + "'") == DefineLine(name, value)
  {
    var q := "'" + value + "'";
    MatchValueQuoted(value);
    MatchDefineOf(name, q, value);
    var line := "DEFINE " + name + " = " + q;
    assert "DEFINE " + name + " = '" + value + "'" == line;
    ClassifyDefine(line, name, value);
  }

  /** A DEFINE separated from its name by a tab is not a definition: the
      loop only tries the pattern on lines starting with `DEFINE ` and a
      space, so the line is treated as text. */
  lemma TabbedDefineIsText(rest: string)
    requires rest != [] && !IsSpace(rest[|rest| - 1])
    ensures Classify("DEFINE\t" + rest) == TextLine
  {
    var line := "DEFINE\t" + rest;
    RStripNonSpace(line);
    LStripNonSpace(line);
    UpperPrefix(line, "DEFINE\t");
    assert Upper(line)[6] == '\t';
    assert !("DEFINE " <= Upper(line));
    NotUndefine(line);
  }

  lemma NotUndefine(clean: string)
    requires clean != [] && UpperChar(clean[0]) != 'U'
    ensures MatchUndefine(clean) == None
  {
    if |clean| >= 8 {
      assert Upper(clean[..8])[0] == UpperChar(clean[0]);
    }
  }

  lemma NotDefine(clean: string)
    requires clean != [] && UpperChar(clean[0]) != 'D'
    ensures MatchDefine(clean) == None
  {
    if |clean| >= 6 {
      assert Upper(clean[..6])[0] == UpperChar(clean[0]);
    }
  }

  /** A directive indented by white space is neither a DEFINE nor an
      UNDEFINE (both patterns are anchored at the start of the line); it
      is text, unless it is a comment. */
  lemma IndentedDirectiveIsText(line: string)
    requires line != [] && IsSpace(line[0])
    requires !("--" <= LStrip(RStrip(line)))
    ensures Classify(line) == TextLine
  {
    var clean := RStrip(line);
    if clean != [] {
      assert clean[0] == line[0];
      NotDefine(clean);
      NotUndefine(clean);
    }
  }

  // ---- UNDEFINE ----

  lemma MatchUndefineOf(name: string)
    requires IsWord(name)
    ensures MatchUndefine("UNDEFINE " + name + ";") == Some(name)
  {
    var rest := " " + (name + ";");
    assert "UNDEFINE " + name + ";" == "UNDEFINE" + rest;
    UndefineKeyword(rest);
    UndefineArgsOf(name);
  }

  /** The upper-case keyword matches the pattern's `undefine`. */
  lemma UndefineKeyword(rest: string)
    ensures StartsWithIgnoringCase("UNDEFINE" + rest, "undefine")
    ensures ("UNDEFINE" + rest)[8..] == rest
  {
    var line := "UNDEFINE" + rest;
    assert line[..8] == "UNDEFINE";
  }

  lemma UndefineArgsOf(name: string)
    requires IsWord(name)
    ensures UndefineArgs(" " + (name + ";")) == Some(name)
  {
    var b := name + ";";
    LStripSpace(b);
    LStripNonSpace(b);
    WordRunOf(name, ";");
    assert b[|name|..] == ";";
    LStripNonSpace(";");
    assert b[..|name|] == name;
    assert ";"[1..] == [];
  }

  /** `UNDEFINE name;` removes `name`. */
  lemma UndefineForm(name: string)
    requires IsWord(name)
    ensures Classify("UNDEFINE " + name + ";") == UndefineLine(name)
  {
    var line := "UNDEFINE " + name + ";";
    MatchUndefineOf(name);
    RStripNonSpace(line);
    LStripNonSpace(line);
    assert Upper(line)[0] == 'U';
    assert !("DEFINE " <= Upper(line));
  }

  // ---- comments ----

  /** A line starting with `--` is copied to the output as it is: its
      references are not looked at, defined or not. */
  lemma CommentVerbatim(d: Defs, rest: string, lineNo: nat)
    ensures Step(d, "--" + rest, lineNo) == Success(d.(out := d.out + ["--" + rest]))
  {
    var line := "--" + rest;
    var clean := RStrip(line);
    assert line[..2] <= line;
    assert line[1] == '-' && !IsSpace(line[1]);
    assert |clean| >= 2;
    assert clean[..2] == "--";
    LStripNonSpace(clean);
  }

  // ---- references ----

  lemma {:induction false} FindRefsSkip(p: string, s: string)
    requires '&' !in p
    ensures FindRefs(p + s) == FindRefs(s)
    decreases |p|
  {
    if p != [] {
      assert (p + s)[0] == p[0] && (p + s)[1..] == p[1..] + s;
      FindRefsSkip(p[1..], s);
    } else {
      assert p + s == s;
    }
  }

  /** A text without `&` has no matches. */
  lemma NoRefs(s: string)
    requires '&' !in s
    ensures FindRefs(s) == []
  {
    FindRefsSkip(s, []);
    assert s + [] == s;
  }

  /** An `&` at `i` followed by a word character: where `findall` finds a
      match, since no match can hold an `&` after its first character. */
  predicate RefStart(s: string, i: nat)
    requires i < |s|
  {
    s[i] == '&' && WordRun(s[i + 1..]) > 0
  }

  /** The match that starts at `i`: the longest word after the `&`, and
      whether `..` follows it. */
  function RefAt(s: string, i: nat): Ref
    requires i < |s|
  {
    var n := WordRun(s[i + 1..]);
    Ref(s[i + 1..i + 1 + n], ".." <= s[i + 1 + n..])
  }

  /** The matches read off every position from `i` on, one per `RefStart`,
      in order, without the skipping `findall` does. */
  function RefsFrom(s: string, i: nat): seq<Ref>
    requires i <= |s|
    decreases |s| - i
  {
    if i == |s| then []
    else (if RefStart(s, i) then [RefAt(s, i)] else []) + RefsFrom(s, i + 1)
  }

  /** `findall` misses no match and invents none: its matches are exactly
      one per `&` followed by a word character, in the order of the
      text. */
  lemma FindRefsComplete(s: string)
    ensures FindRefs(s) == RefsFrom(s, 0)
  {
    FindRefsFrom(s, 0);
    assert s[0..] == s;
  }

  lemma {:induction false} FindRefsFrom(s: string, i: nat)
    requires i <= |s|
    ensures FindRefs(s[i..]) == RefsFrom(s, i)
    decreases |s| - i
  {
    if i < |s| {
      if RefStart(s, i) {
        var j := FindRefsAt(s, i);
        RefsFromAt(s, i, j);
        FindRefsFrom(s, j);
      } else {
        FindRefsNoStart(s, i);
        FindRefsFrom(s, i + 1);
      }
    }
  }

  /** `findall` takes the match at a start and resumes at `j`, after the
      name and the `..` if present. */
  lemma FindRefsAt(s: string, i: nat) returns (j: nat)
    requires i < |s| && RefStart(s, i)
    ensures i < j <= |s|
    ensures FindRefs(s[i..]) == [RefAt(s, i)] + FindRefs(s[j..])
    ensures forall p :: i < p < j ==> s[p] != '&'
  {
    var t := s[i..];
    var n := WordRun(s[i + 1..]);
    var dotted := ".." <= s[i + 1 + n..];
    j := if dotted then i + 3 + n else i + 1 + n;
    assert t[1..] == s[i + 1..];
    assert t[1 + n..] == s[i + 1 + n..];
    assert t[1..1 + n] == s[i + 1..i + 1 + n];
    FindRefsHead(t, n, dotted);
    assert (if dotted then t[3 + n..] else t[1 + n..]) == s[j..];
    NoAmpInMatch(s, i, n, j);
  }

  /** The name and the `..` of a match hold no `&`. */
  lemma NoAmpInMatch(s: string, i: nat, n: nat, j: nat)
    requires i < |s| && n == WordRun(s[i + 1..])
    requires j == i + 1 + n || (j == i + 3 + n && ".." <= s[i + 1 + n..])
    ensures forall p :: i < p < j ==> s[p] != '&'
  {
    forall p | i < p < j ensures s[p] != '&' {
      if p < i + 1 + n {
        assert s[i + 1..][p - i - 1] == s[p];
      } else {
        assert s[i + 1 + n..][p - i - 1 - n] == s[p];
      }
    }
  }

  lemma RefsFromAt(s: string, i: nat, j: nat)
    requires i < j <= |s| && RefStart(s, i)
    requires forall p :: i < p < j ==> s[p] != '&'
    ensures RefsFrom(s, i) == [RefAt(s, i)] + RefsFrom(s, j)
  {
    RefsFromSkip(s, i + 1, j);
  }

  lemma FindRefsNoStart(s: string, i: nat)
    requires i < |s| && !RefStart(s, i)
    ensures FindRefs(s[i..]) == FindRefs(s[i + 1..])
  {
    var t := s[i..];
    assert t[0] == s[i] && t[1..] == s[i + 1..];
  }

  /** Positions without an `&` start no match. */
  lemma {:induction false} RefsFromSkip(s: string, i: nat, j: nat)
    requires i <= j <= |s|
    requires forall p :: i <= p < j ==> s[p] != '&'
    ensures RefsFrom(s, i) == RefsFrom(s, j)
    decreases j - i
  {
    if i < j {
      RefsFromSkip(s, i + 1, j);
    }
  }

  /** The matches in a line holding one `&name` not followed by `..`. */
  lemma RefsOfSingle(p: string, name: string, q: string)
    requires IsWord(name) && '&' !in p && '&' !in q
    requires q == [] || (!IsWordChar(q[0]) && !(".." <= q))
    ensures FindRefs(p + ("&" + name + q)) == [Ref(name, false)]
  {
    var s := "&" + name + q;
    FindRefsSkip(p, s);
    WordRunAfterAmp(name, q);
    assert s[1..1 + |name|] == name && s[1 + |name|..] == q;
    FindRefsHead(s, |name|, false);
    NoRefs(q);
  }

  lemma WordRunAfterAmp(name: string, rest: string)
    requires IsWord(name) && (rest == [] || !IsWordChar(rest[0]))
    ensures WordRun(("&" + name + rest)[1..]) == |name|
  {
    assert ("&" + name + rest)[1..] == name + rest;
    WordRunOf(name, rest);
  }

  /** `FindRefs` on a text starting with a match. */
  lemma FindRefsHead(s: string, n: nat, dotted: bool)
    requires s != [] && s[0] == '&' && WordRun(s[1..]) == n && n > 0
    requires dotted == (".." <= s[1 + n..])
    ensures FindRefs(s) == [Ref(s[1..1 + n], dotted)] + FindRefs(if dotted then s[3 + n..] else s[1 + n..])
  {
    if dotted {
      assert s[1 + n..][2..] == s[3 + n..];
    }
  }

  /** The matches in a line holding one `&name..`. */
  lemma RefsOfDotted(p: string, name: string, q: string)
    requires IsWord(name) && '&' !in p && '&' !in q
    ensures FindRefs(p + ("&" + name + (".." + q))) == [Ref(name, true)]
  {
    var s := "&" + name + (".." + q);
    FindRefsSkip(p, s);
    WordRunAfterAmp(name, ".." + q);
    assert s[1..1 + |name|] == name && s[1 + |name|..] == ".." + q;
    assert s[3 + |name|..] == q;
    FindRefsHead(s, |name|, true);
    NoRefs(q);
  }

  /** The replacement loop on a line whose only reference is `&name`. */
  lemma SubstituteSingle(p: string, name: string, q: string, table: map<string, string>,
                         counts: map<string, nat>, lineNo: nat)
    requires IsWord(name) && name in table && name in counts
    requires '&' !in p && '&' !in q
    requires q == [] || (!IsWordChar(q[0]) && !(".." <= q))
    ensures var line := p + "&" + name + q;
            Substitute(line, FindRefs(line), table, counts, lineNo)
            == Success((p + table[name] + q, counts[name := counts[name] + 1]))
  {
    SingleParts(p + "&" + name + q, p, name, q, table, counts, lineNo);
  }

  lemma SingleParts(line: string, p: string, name: string, q: string, table: map<string, string>,
                    counts: map<string, nat>, lineNo: nat)
    requires line == p + "&" + name + q
    requires IsWord(name) && name in table && name in counts
    requires '&' !in p && '&' !in q
    requires q == [] || (!IsWordChar(q[0]) && !(".." <= q))
    ensures Substitute(line, FindRefs(line), table, counts, lineNo)
            == Success((p + table[name] + q, counts[name := counts[name] + 1]))
  {
    var r := Ref(name, false);
    SingleLineRefs(line, p, name, q);
    PlainToken(name);
    LoneReplace(line, p, "&" + name, q, table[name]);
    SubstituteLone(line, r, table, counts, lineNo, p + table[name] + q);
  }

  lemma SingleLineRefs(line: string, p: string, name: string, q: string)
    requires line == p + "&" + name + q
    requires IsWord(name) && '&' !in p && '&' !in q
    requires q == [] || (!IsWordChar(q[0]) && !(".." <= q))
    ensures FindRefs(line) == [Ref(name, false)]
  {
    assert line == p + ("&" + name + q);
    RefsOfSingle(p, name, q);
  }

  lemma PlainToken(name: string)
    ensures Token(Ref(name, false)) == "&" + name
    ensures Replacement(Ref(name, false), name) == name
  {
    assert "&" + name + [] == "&" + name;
  }

  lemma DottedToken(name: string)
    ensures Token(Ref(name, true)) == "&" + name + ".."
  {
  }

  /** `ReplaceAll` on a line holding the token once. */
  lemma LoneReplace(line: string, p: string, pat: string, q: string, rep: string)
    requires line == p + pat + q && pat != [] && pat[0] == '&' && '&' !in p && '&' !in q
    ensures ReplaceAll(line, pat, rep) == p + rep + q
  {
    ReplaceSingle(p, pat, q, rep);
  }

  /** The replacement loop on a line with a single reference. */
  lemma SubstituteLone(line: string, r: Ref, table: map<string, string>, counts: map<string, nat>, lineNo: nat,
                       result: string)
    requires FindRefs(line) == [r] && r.name in table && r.name in counts
    requires ReplaceAll(line, Token(r), Replacement(r, table[r.name])) == result
    ensures Substitute(line, FindRefs(line), table, counts, lineNo)
         == Success((result, counts[r.name := counts[r.name] + 1]))
  {
    SubstituteOne(line, r, table, counts, lineNo);
  }

  /** The replacement loop on a line whose only reference is `&name..`. */
  lemma SubstituteDotted(p: string, name: string, q: string, table: map<string, string>,
                         counts: map<string, nat>, lineNo: nat)
    requires IsWord(name) && name in table && name in counts
    requires '&' !in p && '&' !in q
    ensures var line := p + "&" + name + ".." + q;
            Substitute(line, FindRefs(line), table, counts, lineNo)
            == Success((p + table[name] + "." + q, counts[name := counts[name] + 1]))
  {
    DottedParts(p + "&" + name + ".." + q, p, name, q, table, counts, lineNo);
  }

  lemma DottedParts(line: string, p: string, name: string, q: string, table: map<string, string>,
                    counts: map<string, nat>, lineNo: nat)
    requires line == p + "&" + name + ".." + q
    requires IsWord(name) && name in table && name in counts
    requires '&' !in p && '&' !in q
    ensures Substitute(line, FindRefs(line), table, counts, lineNo)
            == Success((p + table[name] + "." + q, counts[name := counts[name] + 1]))
  {
    DottedLineRefs(line, p, name, q);
    DottedReplace(line, p, name, q, table[name]);
    SubstituteLone(line, Ref(name, true), table, counts, lineNo, p + table[name] + "." + q);
  }

  lemma DottedReplace(line: string, p: string, name: string, q: string, value: string)
    requires line == p + "&" + name + ".." + q
    requires '&' !in p && '&' !in q
    ensures ReplaceAll(line, Token(Ref(name, true)), Replacement(Ref(name, true), value)) == p + value + "." + q
  {
    DottedToken(name);
    assert line == p + ("&" + name + "..") + q;
    LoneReplace(line, p, "&" + name + "..", q, value + ".");
    assert p + (value + ".") + q == p + value + "." + q;
  }

  lemma DottedLineRefs(line: string, p: string, name: string, q: string)
    requires line == p + "&" + name + ".." + q
    requires IsWord(name) && '&' !in p && '&' !in q
    ensures FindRefs(line) == [Ref(name, true)]
  {
    assert line == p + ("&" + name + (".." + q));
    RefsOfDotted(p, name, q);
  }

  /** The only reference in a line, `&name` not followed by `..`, is
      replaced by the variable's value and its counter goes up by one. */
  lemma SingleReference(d: Defs, p: string, name: string, q: string, lineNo: nat)
    requires IsWord(name) && name in d.table && name in d.counts
    requires '&' !in p && '&' !in q
    requires q == [] || (!IsWordChar(q[0]) && !(".." <= q))
    requires var line := p + "&" + name + q; !IsSpace(line[|line| - 1]) && Classify(line) == TextLine
    ensures Step(d, p + "&" + name + q, lineNo)
         == Success(d.(counts := d.counts[name := d.counts[name] + 1],
                       out := d.out + [p + d.table[name] + q]))
  {
    var line := p + "&" + name + q;
    SubstituteSingle(p, name, q, d.table, d.counts, lineNo);
    TextStep(d, line, lineNo, p + d.table[name] + q, d.counts[name := d.counts[name] + 1]);
  }

  /** `&name..` collapses to the value followed by a single `.`. */
  lemma DottedReference(d: Defs, p: string, name: string, q: string, lineNo: nat)
    requires IsWord(name) && name in d.table && name in d.counts
    requires '&' !in p && '&' !in q
    requires var line := p + "&" + name + ".." + q; !IsSpace(line[|line| - 1]) && Classify(line) == TextLine
    ensures Step(d, p + "&" + name + ".." + q, lineNo)
         == Success(d.(counts := d.counts[name := d.counts[name] + 1],
                       out := d.out + [p + d.table[name] + "." + q]))
  {
    var line := p + "&" + name + ".." + q;
    SubstituteDotted(p, name, q, d.table, d.counts, lineNo);
    TextStep(d, line, lineNo, p + d.table[name] + "." + q, d.counts[name := d.counts[name] + 1]);
  }

  /** A text line with no trailing blank is emitted as substituted. */
  lemma TextStep(d: Defs, line: string, lineNo: nat, text: string, counts: map<string, nat>)
    requires line != [] && !IsSpace(line[|line| - 1]) && Classify(line) == TextLine
    requires Substitute(line, FindRefs(line), d.table, d.counts, lineNo) == Success((text, counts))
    ensures Step(d, line, lineNo) == Success(d.(counts := counts, out := d.out + [text]))
  {
    RStripNonSpace(line);
    StepText(d, line, lineNo);
  }

  lemma SubstituteOne(text: string, r: Ref, table: map<string, string>, counts: map<string, nat>, lineNo: nat)
    requires r.name in table && r.name in counts
    ensures Substitute(text, [r], table, counts, lineNo)
         == Success((ReplaceAll(text, Token(r), Replacement(r, table[r.name])), counts[r.name := counts[r.name] + 1]))
  {
    assert [r][1..] == [];
  }

  /** A string without `&` holds no token. */
  lemma ReplaceNoAmp(s: string, pat: string, rep: string)
    requires pat != [] && pat[0] == '&' && '&' !in s
    ensures ReplaceAll(s, pat, rep) == s
  {
    forall i ensures !OccursAt(s, pat, i) {
      if 0 <= i && i + |pat| <= |s| {
        assert s[i..i + |pat|][0] == s[i];
      }
    }
    ReplaceAbsent(s, pat, rep);
  }

  /** `str.replace` at a text starting with the pattern. */
  lemma ReplaceHead(pat: string, rest: string, rep: string)
    requires pat != []
    ensures ReplaceAll(pat + rest, pat, rep) == rep + ReplaceAll(rest, pat, rep)
  {
    assert (pat + rest)[|pat|..] == rest;
  }

  /** Each match replaces its token everywhere in the line with
      `str.replace`, so a name that is a prefix of a later one clobbers
      it: in the line `&a &at` the first replacement also rewrites the
      head of `&at`, which comes out as `a`'s value followed by `t`,
      never as `at`'s value; the counter of `at` still goes up. */
  lemma PrefixNameClobbers(a: string, t: string, table: map<string, string>, counts: map<string, nat>, lineNo: nat)
    requires IsWord(a) && IsWord(t)
    requires a in table && a + t in table && '&' !in table[a]
    requires a in counts && a + t in counts
    ensures var line := "&" + a + " &" + a + t;
            Substitute(line, FindRefs(line), table, counts, lineNo)
            == Success((table[a] + " " + table[a] + t, counts[a := counts[a] + 1][a + t := counts[a + t] + 1]))
  {
    assert IsWord(a + t) by {
      assert forall k :: 0 <= k < |a + t| ==> IsWordChar((a + t)[k]);
    }
    ClobberRefs(a, t);
    ClobberReplace(a, t, table[a]);
    assert '&' !in table[a] + " " + table[a] + t by {
      assert forall k :: 0 <= k < |t| ==> IsWordChar(t[k]);
    }
    assert a != a + t by { assert |a + t| > |a|; }
    SubstituteClobbered("&" + a + " &" + a + t, table[a] + " " + table[a] + t, a, t, table, counts, lineNo);
  }

  /** The replacement loop over the two matches `&a` and `&at` of a line
      in which replacing `&a` leaves no `&`. */
  lemma SubstituteClobbered(line: string, once: string, a: string, t: string, table: map<string, string>,
                            counts: map<string, nat>, lineNo: nat)
    requires FindRefs(line) == [Ref(a, false), Ref(a + t, false)]
    requires a in table && a + t in table && a in counts && a + t in counts && a != a + t
    requires ReplaceAll(line, "&" + a, table[a]) == once && '&' !in once
    ensures Substitute(line, FindRefs(line), table, counts, lineNo)
         == Success((once, counts[a := counts[a] + 1][a + t := counts[a + t] + 1]))
  {
    var b := a + t;
    var c1 := counts[a := counts[a] + 1];
    var refs := FindRefs(line);
    PlainToken(table[a]);
    PlainToken(a);
    assert refs[0] == Ref(a, false) && refs[1..] == [Ref(b, false)];
    SubstituteFirst(line, refs, table, counts, lineNo, once);
    assert Substitute(line, refs, table, counts, lineNo) == Substitute(once, [Ref(b, false)], table, c1, lineNo);
    SubstituteUnchanged(once, Ref(b, false), table, c1, lineNo);
    assert c1[b] == counts[b];
  }

  /** The first reference of a line replaced, the rest still to do. */
  lemma SubstituteFirst(text: string, refs: seq<Ref>, table: map<string, string>, counts: map<string, nat>,
                        lineNo: nat, once: string)
    requires refs != [] && refs[0].name in table && refs[0].name in counts
    requires ReplaceAll(text, Token(refs[0]), Replacement(refs[0], table[refs[0].name])) == once
    ensures Substitute(text, refs, table, counts, lineNo)
         == Substitute(once, refs[1..], table, counts[refs[0].name := counts[refs[0].name] + 1], lineNo)
  {
  }

  /** A last reference whose token no longer occurs only counts. */
  lemma SubstituteUnchanged(text: string, r: Ref, table: map<string, string>, counts: map<string, nat>, lineNo: nat)
    requires r.name in table && r.name in counts && '&' !in text
    ensures Substitute(text, [r], table, counts, lineNo) == Success((text, counts[r.name := counts[r.name] + 1]))
  {
    SubstituteOne(text, r, table, counts, lineNo);
    ReplaceNoAmp(text, Token(r), Replacement(r, table[r.name]));
  }



  /** A match `&name` not followed by `..`, then the rest of the text. */
  lemma RefsAfterName(name: string, rest: string)
    requires IsWord(name)
    requires rest == [] || (!IsWordChar(rest[0]) && !(".." <= rest))
    ensures FindRefs("&" + name + rest) == [Ref(name, false)] + FindRefs(rest)
  {
    var s := "&" + name + rest;
    WordRunAfterAmp(name, rest);
    assert s[1..1 + |name|] == name && s[1 + |name|..] == rest;
    FindRefsHead(s, |name|, false);
  }

  lemma ClobberRefs(a: string, t: string)
    requires IsWord(a) && IsWord(a + t)
    ensures FindRefs("&" + a + " &" + a + t) == [Ref(a, false), Ref(a + t, false)]
  {
    var tail := "&" + (a + t);
    LoneRef(a + t);
    FindRefsSkip(" ", tail);
    RefsAfterName(a, " " + tail);
    assert "&" + a + " &" + a + t == "&" + a + (" " + tail);
  }

  /** The matches in `&name` alone. */
  lemma LoneRef(name: string)
    requires IsWord(name)
    ensures FindRefs("&" + name) == [Ref(name, false)]
  {
    RefsAfterName(name, "");
    assert "&" + name + "" == "&" + name;
  }

  lemma ClobberReplace(a: string, t: string, x: string)
    requires IsWord(a) && IsWord(t)
    ensures ReplaceAll("&" + a + " &" + a + t, "&" + a, x) == x + " " + x + t
  {
    assert '&' !in t by { assert forall k :: 0 <= k < |t| ==> IsWordChar(t[k]); }
    var pat := "&" + a;
    assert "&" + a + " &" + a + t == pat + (" " + (pat + t));
    ReplaceHead(pat, " " + (pat + t), x);
    assert (" " + (pat + t))[1..] == pat + t;
    ReplaceHead(pat, t, x);
    ReplaceNoAmp(t, pat, x);
  }
}
