/** The string builtins the preprocessor is written with: `isspace`,
    `rstrip`/`lstrip`/`strip`, `upper`, `startswith`, `splitlines`, line
    iteration over a text file, `"\n".join` and `replace`. */
module Text {

  /** `c.isspace()`: the Unicode white-space characters. */
  predicate IsSpace(c: char) {
    var n := c as int;
    (9 <= n <= 13) || (28 <= n <= 32) || n == 0x85 || n == 0xA0 || n == 0x1680
    || (0x2000 <= n <= 0x200A) || n == 0x2028 || n == 0x2029 || n == 0x202F
    || n == 0x205F || n == 0x3000
  }

  /** The characters at which `str.splitlines` ends a line (`\r\n` is one
      boundary, handled in `SplitLines`). */
  predicate IsLineBoundary(c: char) {
    var n := c as int;
    (10 <= n <= 13) || (28 <= n <= 30) || n == 0x85 || n == 0x2028 || n == 0x2029
  }

  /** The regular-expression class `\w`, restricted to ASCII. */
  predicate IsWordChar(c: char) {
    ('a' <= c <= 'z') || ('A' <= c <= 'Z') || ('0' <= c <= '9') || c == '_'
  }

  /** How a file's text is cut into lines: `read_text().splitlines()`, or
      iterating over a file opened in text mode (universal newlines, where
      only `\n`, `\r` and `\r\n` end a line). */
  datatype LineMode = StrSplitLines | FileIteration

  predicate IsBreak(mode: LineMode, c: char) {
    match mode
    case StrSplitLines => IsLineBoundary(c)
    case FileIteration => c == '\n' || c == '\r'
  }

  predicate NoBreak(mode: LineMode, s: string) {
    forall k :: 0 <= k < |s| ==> !IsBreak(mode, s[k])
  }

  /** `s.rstrip()`: the longest prefix of `s` not ending in white space. */
  function RStrip(s: string): (r: string)
    ensures r <= s
    ensures r == [] || !IsSpace(r[|r| - 1])
    ensures forall k :: |r| <= k < |s| ==> IsSpace(s[k])
    decreases |s|
  {
    if s != [] && IsSpace(s[|s| - 1]) then RStrip(s[..|s| - 1]) else s
  }

  /** `s.lstrip()`: the longest suffix of `s` not starting with white space. */
  function LStrip(s: string): (r: string)
    ensures |r| <= |s|
    ensures r == [] || !IsSpace(r[0])
    ensures forall k :: 0 <= k < |s| - |r| ==> IsSpace(s[k])
    decreases |s|
  {
    if s != [] && IsSpace(s[0]) then LStrip(s[1..]) else s
  }

  /** What `lstrip` leaves is a suffix of its input, so together with the
      contract of `LStrip` it is the longest one not starting with white
      space. */
  lemma {:induction false} LStripSuffix(s: string)
    ensures LStrip(s) == s[|s| - |LStrip(s)|..]
    decreases |s|
  {
    if s != [] && IsSpace(s[0]) {
      LStripSuffix(s[1..]);
    }
  }

  /** `s.strip()`. */
  function Strip(s: string): string {
    LStrip(RStrip(s))
  }

  function UpperChar(c: char): char {
    if 'a' <= c <= 'z' then (c as int - 32) as char else c
  }

  /** `s.upper()` on ASCII letters. */
  function Upper(s: string): (r: string)
    ensures |r| == |s|
  {
    seq(|s|, i requires 0 <= i < |s| => UpperChar(s[i]))
  }

  /** Index of the first line break of `s`, or `|s|` when there is none. */
  function FirstBreak(mode: LineMode, s: string): (i: nat)
    ensures i <= |s|
    ensures forall j :: 0 <= j < i ==> !IsBreak(mode, s[j])
    ensures i < |s| ==> IsBreak(mode, s[i])
    decreases |s|
  {
    if s == [] || IsBreak(mode, s[0]) then 0 else 1 + FirstBreak(mode, s[1..])
  }

  /** `s.splitlines()` (or the lines of a text-mode file, after their
      terminators are dropped): no empty line after a final line break, and
      `\r\n` counts as a single break. */
  function SplitLines(mode: LineMode, s: string): (r: seq<string>)
    ensures forall k :: 0 <= k < |r| ==> NoBreak(mode, r[k])
    decreases |s|
  {
    if s == [] then []
    else
      var i := FirstBreak(mode, s);
      if i == |s| then [s]
      else
        var next := if s[i] == '\r' && i + 1 < |s| && s[i + 1] == '\n' then i + 2 else i + 1;
        [s[..i]] + SplitLines(mode, s[next..])
  }

  /** `"\n".join(lines)`. */
  function JoinLines(lines: seq<string>): string
    decreases |lines|
  {
    if lines == [] then ""
    else if |lines| == 1 then lines[0]
    else lines[0] + "\n" + JoinLines(lines[1..])
  }

  /** Each line followed by `\n`, as the include resolver accumulates them. */
  function Unlines(lines: seq<string>): string
    decreases |lines|
  {
    if lines == [] then "" else lines[0] + "\n" + Unlines(lines[1..])
  }

  lemma {:induction false} FirstBreakAfter(mode: LineMode, p: string, q: string)
    requires NoBreak(mode, p)
    ensures FirstBreak(mode, p + "\n" + q) == |p|
    decreases |p|
  {
    var s := p + "\n" + q;
    if p != [] {
      assert s[1..] == p[1..] + "\n" + q;
      FirstBreakAfter(mode, p[1..], q);
    }
  }

  /** Splitting text built by `Unlines` gives the lines back. */
  lemma {:induction false} SplitUnlines(mode: LineMode, lines: seq<string>)
    requires forall k :: 0 <= k < |lines| ==> NoBreak(mode, lines[k])
    ensures SplitLines(mode, Unlines(lines)) == lines
    decreases |lines|
  {
    if lines != [] {
      var s := Unlines(lines);
      var p := lines[0];
      assert s == p + "\n" + Unlines(lines[1..]);
      FirstBreakAfter(mode, p, Unlines(lines[1..]));
      assert s[..|p|] == p;
      assert s[|p| + 1..] == Unlines(lines[1..]);
      SplitUnlines(mode, lines[1..]);
    }
  }

  /** Splitting a `"\n".join` gives the lines back, provided none of them
      holds a break and the last one is not empty (a trailing empty line
      is swallowed by `splitlines`). */
  lemma {:induction false} SplitJoin(mode: LineMode, lines: seq<string>)
    requires forall k :: 0 <= k < |lines| ==> NoBreak(mode, lines[k])
    requires lines != [] ==> lines[|lines| - 1] != []
    ensures SplitLines(mode, JoinLines(lines)) == lines
    decreases |lines|
  {
    if |lines| == 1 {
      assert FirstBreak(mode, lines[0]) == |lines[0]|;
    } else if |lines| > 1 {
      var s := JoinLines(lines);
      var p := lines[0];
      var rest := JoinLines(lines[1..]);
      assert s == p + "\n" + rest;
      FirstBreakAfter(mode, p, rest);
      assert s[..|p|] == p;
      assert s[|p| + 1..] == rest;
      SplitJoin(mode, lines[1..]);
    }
  }

  /** There is an occurrence of `pat` in `s` starting at `i`. */
  predicate OccursAt(s: string, pat: string, i: int) {
    0 <= i && i + |pat| <= |s| && s[i..i + |pat|] == pat
  }

  /** `s.replace(pat, rep)`: every occurrence of `pat`, scanning from the
      left and without overlaps, is replaced by `rep`. */
  function ReplaceAll(s: string, pat: string, rep: string): string
    requires pat != []
    decreases |s|
  {
    if |s| < |pat| then s
    else if pat <= s then rep + ReplaceAll(s[|pat|..], pat, rep)
    else [s[0]] + ReplaceAll(s[1..], pat, rep)
  }

  /** Replacing a string that does not occur changes nothing. */
  lemma {:induction false} ReplaceAbsent(s: string, pat: string, rep: string)
    requires pat != []
    requires forall i :: !OccursAt(s, pat, i)
    ensures ReplaceAll(s, pat, rep) == s
    decreases |s|
  {
    if |s| >= |pat| {
      assert !OccursAt(s, pat, 0);
      assert s[..|pat|] != pat;
      forall i ensures !OccursAt(s[1..], pat, i) {
        if OccursAt(s[1..], pat, i) {
          assert s[1..][i..i + |pat|] == s[i + 1..i + 1 + |pat|];
          assert OccursAt(s, pat, i + 1);
        }
      }
      ReplaceAbsent(s[1..], pat, rep);
    }
  }

  /** A string whose first character appears nowhere else in `p + pat + q`
      is replaced exactly where it stands. */
  lemma {:induction false} ReplaceSingle(p: string, pat: string, q: string, rep: string)
    requires pat != []
    requires pat[0] !in p && pat[0] !in q
    ensures ReplaceAll(p + pat + q, pat, rep) == p + rep + q
    decreases |p|
  {
    if p == [] {
      assert p + pat + q == pat + q;
      ReplaceAtStart(pat, q, rep);
    } else {
      ReplaceSingle(p[1..], pat, q, rep);
      ReplaceCons(p, pat, q, rep, ReplaceAll(p[1..] + pat + q, pat, rep));
    }
  }

  lemma ReplaceCons(p: string, pat: string, q: string, rep: string, tail: string)
    requires pat != [] && p != [] && p[0] != pat[0]
    requires tail == ReplaceAll(p[1..] + pat + q, pat, rep)
    requires tail == p[1..] + rep + q
    ensures ReplaceAll(p + pat + q, pat, rep) == p + rep + q
  {
    assert p + pat + q == [p[0]] + (p[1..] + pat + q);
    ReplaceStep(p[0], p[1..] + pat + q, pat, rep);
    assert [p[0]] + (p[1..] + rep + q) == p + rep + q;
  }

  lemma ReplaceAtStart(pat: string, q: string, rep: string)
    requires pat != [] && pat[0] !in q
    ensures ReplaceAll(pat + q, pat, rep) == rep + q
  {
    var s := pat + q;
    assert s[..|pat|] == pat && s[|pat|..] == q;
    forall i ensures !OccursAt(q, pat, i) {
      if 0 <= i && i + |pat| <= |q| {
        assert q[i..i + |pat|][0] == q[i];
      }
    }
    ReplaceAbsent(q, pat, rep);
  }

  /** A character that does not start the pattern is copied. */
  lemma ReplaceStep(c: char, t: string, pat: string, rep: string)
    requires pat != [] && c != pat[0]
    ensures ReplaceAll([c] + t, pat, rep) == [c] + ReplaceAll(t, pat, rep)
  {
    var s := [c] + t;
    assert s[1..] == t;
    if |s| >= |pat| {
      assert s[0] == c;
      assert !(pat <= s);
    }
  }
}
