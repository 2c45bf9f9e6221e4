/**
 * The line filter that the sandbox page applies to fetched code before
 * handing it to `exec`: the text is split on "\n", every line whose
 * whitespace-stripped form starts with "import streamlit" is dropped, and
 * the remaining lines are joined again with "\n".
 */
module SandboxFilter {

  /** The prefix that marks a line to be removed. */
  const StreamlitImport: string := "import streamlit"

  /** Python's `str.isspace`: the characters that `str.strip()` removes. */
  predicate IsSpace(c: char) {
    || c == ' ' || c == '\t' || c == '\n' || c == '\r' || c == '\U{0B}' || c == '\U{0C}'
    || ('\U{1C}' <= c <= '\U{1F}')
    || c == '\U{85}' || c == '\U{A0}' || c == '\U{1680}'
    || ('\U{2000}' <= c <= '\U{200A}')
    || c == '\U{2028}' || c == '\U{2029}' || c == '\U{202F}' || c == '\U{205F}' || c == '\U{3000}'
  }

  predicate StartsWith(s: string, prefix: string) {
    |prefix| <= |s| && s[..|prefix|] == prefix
  }

  /** `s.lstrip()`: the longest suffix of `s` that does not begin with whitespace. */
  function LStrip(s: string): string {
    if |s| > 0 && IsSpace(s[0]) then LStrip(s[1..]) else s
  }

  /** `s.rstrip()`: the longest prefix of `s` that does not end with whitespace. */
  function RStrip(s: string): string {
    if |s| > 0 && IsSpace(s[|s| - 1]) then RStrip(s[..|s| - 1]) else s
  }

  /** `s.strip()`. */
  function Strip(s: string): string {
    RStrip(LStrip(s))
  }

  /** The test of the list comprehension: `line.strip().startswith('import streamlit')`. */
  predicate IsStreamlitImport(line: string) {
    StartsWith(Strip(line), StreamlitImport)
  }

  /** `s.split('\n')`: the maximal newline-free pieces of `s`, never an empty list. */
  function Split(s: string): (r: seq<string>)
    ensures |r| >= 1
    ensures forall i :: 0 <= i < |r| ==> '\n' !in r[i]
  {
    if s == [] then [""]
    else
      var rest := Split(s[1..]);
      if s[0] == '\n' then [""] + rest
      else [[s[0]] + rest[0]] + rest[1..]
  }

  /** `'\n'.join(lines)`. */
  function Join(lines: seq<string>): string {
    if |lines| == 0 then ""
    else if |lines| == 1 then lines[0]
    else lines[0] + "\n" + Join(lines[1..])
  }

  /** A list comprehension `[line for line in lines if not drop(line)]`: the lines
      that fail the test, in their order. */
  function Filter(lines: seq<string>, drop: string -> bool): (r: seq<string>)
    ensures |r| <= |lines|
  {
    if lines == [] then []
    else if drop(lines[0]) then Filter(lines[1..], drop)
    else [lines[0]] + Filter(lines[1..], drop)
  }

  /** The comprehension of the sandbox page: the lines that are not streamlit imports. */
  function Kept(lines: seq<string>): seq<string> {
    Filter(lines, IsStreamlitImport)
  }

  /** The cleaned code passed to `exec`. */
  function Clean(code: string): string {
    Join(Kept(Split(code)))
  }

  // ---------------------------------------------------------------------------
  // What the prefix test matches

  /** `lstrip` drops a run of whitespace from the front, and all of it. */
  lemma {:induction false} LStripSpec(s: string)
    ensures |LStrip(s)| <= |s| && LStrip(s) == s[|s| - |LStrip(s)|..]
    ensures forall i :: 0 <= i < |s| - |LStrip(s)| ==> IsSpace(s[i])
    ensures LStrip(s) == [] || !IsSpace(LStrip(s)[0])
  {
    if |s| > 0 && IsSpace(s[0]) {
      LStripSpec(s[1..]);
    }
  }

  /** `rstrip` drops a run of whitespace from the back, and all of it. */
  lemma {:induction false} RStripSpec(s: string)
    ensures |RStrip(s)| <= |s| && RStrip(s) == s[..|RStrip(s)|]
    ensures forall i :: |RStrip(s)| <= i < |s| ==> IsSpace(s[i])
    ensures RStrip(s) == [] || !IsSpace(RStrip(s)[|RStrip(s)| - 1])
  {
    if |s| > 0 && IsSpace(s[|s| - 1]) {
      RStripSpec(s[..|s| - 1]);
    }
  }

  /** Only leading whitespace matters: a line is removed exactly when, after its
      leading whitespace, it begins with "import streamlit". */
  lemma StreamlitImportIgnoresTrailingSpace(line: string)
    ensures IsStreamlitImport(line) <==> StartsWith(LStrip(line), StreamlitImport)
  {
    var l := LStrip(line);
    var r := RStrip(l);
    RStripSpec(l);
    if StartsWith(l, StreamlitImport) {
      assert !IsSpace(l[|StreamlitImport| - 1]);
      assert |StreamlitImport| <= |r|;
      assert r[..|StreamlitImport|] == l[..|StreamlitImport|];
    }
    if StartsWith(r, StreamlitImport) {
      assert l[..|StreamlitImport|] == r[..|StreamlitImport|];
    }
  }

  /** `lstrip` removes exactly the leading run of whitespace. */
  lemma LStripSkips(s: string, k: nat)
    requires k <= |s|
    requires forall i :: 0 <= i < k ==> IsSpace(s[i])
    requires k == |s| || !IsSpace(s[k])
    ensures LStrip(s) == s[k..]
  {
    var r := LStrip(s);
    LStripSpec(s);
    var removed := |s| - |r|;
    assert |r| > 0 ==> r[0] == s[removed];
  }

  /** An indented `import streamlit as st` is removed. */
  lemma IndentedImportMatches()
    ensures IsStreamlitImport("    import streamlit as st")
  {
    var line := "    import streamlit as st";
    assert line[0] == line[1] == line[2] == line[3] == ' ' && line[4] == 'i';
    LStripSkips(line, 4);
    StreamlitImportIgnoresTrailingSpace(line);
    assert line[4..][..|StreamlitImport|] == StreamlitImport;
  }

  /** A longer module name such as `streamlit_x` is removed too: the test is a prefix test. */
  lemma LongerModuleNameMatches()
    ensures IsStreamlitImport("import streamlit_x")
  {
    var line := "import streamlit_x";
    LStripSkips(line, 0);
    StreamlitImportIgnoresTrailingSpace(line);
    assert line[..|StreamlitImport|] == StreamlitImport;
  }

  /** `from streamlit import x` is kept. */
  lemma FromImportIsKept()
    ensures !IsStreamlitImport("from streamlit import x")
  {
    var line := "from streamlit import x";
    LStripSkips(line, 0);
    StreamlitImportIgnoresTrailingSpace(line);
    assert line[0] != StreamlitImport[0];
  }

  /** An import that does not start the line is kept. */
  lemma LaterImportIsKept()
    ensures !IsStreamlitImport("x = 1; import streamlit")
  {
    var line := "x = 1; import streamlit";
    LStripSkips(line, 0);
    StreamlitImportIgnoresTrailingSpace(line);
    assert line[0] != StreamlitImport[0];
  }

  // ---------------------------------------------------------------------------
  // split and join on "\n" are inverse

  lemma {:induction false} JoinSplit(s: string)
    ensures Join(Split(s)) == s
  {
    if s != [] {
      var rest := Split(s[1..]);
      JoinSplit(s[1..]);
      if s[0] == '\n' {
        assert Split(s) == [""] + rest;
        assert ([""] + rest)[1..] == rest;
        assert s == "\n" + s[1..];
      } else if |rest| == 1 {
        assert s == [s[0]] + s[1..];
      } else {
        var first := [s[0]] + rest[0];
        assert Split(s) == [first] + rest[1..];
        assert ([first] + rest[1..])[1..] == rest[1..];
        assert Join(rest) == rest[0] + "\n" + Join(rest[1..]);
        assert s == [s[0]] + s[1..];
      }
    }
  }

  lemma {:induction false} SplitSingle(line: string)
    requires '\n' !in line
    ensures Split(line) == [line]
  {
    if line != [] {
      SplitSingle(line[1..]);
      assert line == [line[0]] + line[1..];
    }
  }

  lemma {:induction false} SplitCons(line: string, rest: string)
    requires '\n' !in line
    ensures Split(line + "\n" + rest) == [line] + Split(rest)
  {
    var s := line + "\n" + rest;
    if line == [] {
      assert s == "\n" + rest && s[1..] == rest;
    } else {
      assert s[1..] == line[1..] + "\n" + rest;
      SplitCons(line[1..], rest);
      assert [line[0]] + line[1..] == line;
    }
  }

  lemma {:induction false} SplitJoin(lines: seq<string>)
    requires |lines| >= 1
    requires forall i :: 0 <= i < |lines| ==> '\n' !in lines[i]
    ensures Split(Join(lines)) == lines
  {
    if |lines| == 1 {
      SplitSingle(lines[0]);
    } else {
      SplitJoin(lines[1..]);
      SplitCons(lines[0], Join(lines[1..]));
      assert [lines[0]] + lines[1..] == lines;
    }
  }

  // ---------------------------------------------------------------------------
  // The filter

  /** Filtering distributes over concatenation. */
  lemma {:induction false} FilterAppend(a: seq<string>, b: seq<string>, drop: string -> bool)
    ensures Filter(a + b, drop) == Filter(a, drop) + Filter(b, drop)
  {
    if a == [] {
      assert a + b == b;
    } else {
      FilterAppend(a[1..], b, drop);
      assert (a + b)[0] == a[0] && (a + b)[1..] == a[1..] + b;
      if !drop(a[0]) {
        assert [a[0]] + (Filter(a[1..], drop) + Filter(b, drop))
            == ([a[0]] + Filter(a[1..], drop)) + Filter(b, drop);
      }
    }
  }

  /** The comprehension keeps exactly the lines that fail the test. */
  lemma {:induction false} FilterMembers(lines: seq<string>, drop: string -> bool)
    ensures forall l :: l in Filter(lines, drop) <==> l in lines && !drop(l)
  {
    if lines != [] {
      FilterMembers(lines[1..], drop);
      assert lines == [lines[0]] + lines[1..];
    }
  }

  /** Filtering twice with the same test is filtering once. */
  lemma {:induction false} FilterIdempotent(lines: seq<string>, drop: string -> bool)
    ensures Filter(Filter(lines, drop), drop) == Filter(lines, drop)
  {
    if lines != [] {
      FilterIdempotent(lines[1..], drop);
      if !drop(lines[0]) {
        var rest := Filter(lines[1..], drop);
        assert ([lines[0]] + rest)[1..] == rest;
      }
    }
  }

  /** When no line passes the test, nothing is removed. */
  lemma {:induction false} FilterNoMatch(lines: seq<string>, drop: string -> bool)
    requires forall i :: 0 <= i < |lines| ==> !drop(lines[i])
    ensures Filter(lines, drop) == lines
  {
    if lines != [] {
      FilterNoMatch(lines[1..], drop);
    }
  }

  /** The lines of the cleaned code are exactly the kept input lines, in order;
      when every line was removed the cleaned code is the empty string. */
  lemma CleanLines(code: string)
    ensures Kept(Split(code)) != [] ==> Split(Clean(code)) == Kept(Split(code))
    ensures Kept(Split(code)) == [] ==> Clean(code) == ""
  {
    var kept := Kept(Split(code));
    if kept != [] {
      FilterMembers(Split(code), IsStreamlitImport);
      forall i | 0 <= i < |kept| ensures '\n' !in kept[i] {
        assert kept[i] in Split(code);
      }
      SplitJoin(kept);
    }
  }

  /** No line of the cleaned code is a streamlit import. */
  lemma CleanHasNoStreamlitImport(code: string)
    ensures forall l :: l in Split(Clean(code)) ==> !IsStreamlitImport(l)
  {
    CleanLines(code);
    FilterMembers(Split(code), IsStreamlitImport);
    if Kept(Split(code)) == [] {
      assert Split("") == [""];
      assert !IsStreamlitImport("");
    }
  }

  /** The cleaned code never has more lines than the input. */
  lemma CleanNeverAddsLines(code: string)
    ensures |Split(Clean(code))| <= |Split(code)|
  {
    CleanLines(code);
  }

  /** Without any streamlit import line, the code is passed on unchanged. */
  lemma CleanWithoutMatches(code: string)
    requires forall l :: l in Split(code) ==> !IsStreamlitImport(l)
    ensures Clean(code) == code
  {
    FilterNoMatch(Split(code), IsStreamlitImport);
    JoinSplit(code);
  }

  /** Cleaning cleaned code changes nothing. */
  lemma CleanIdempotent(code: string)
    ensures Clean(Clean(code)) == Clean(code)
  {
    CleanHasNoStreamlitImport(code);
    CleanWithoutMatches(Clean(code));
  }
}
