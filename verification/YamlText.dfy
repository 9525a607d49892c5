/**
 Lines, indentation and trimming of one-document YAML texts.
 */
module YamlText {
  predicate IsWhite(c: char) { c in " \t\n\r" || c as int == 11 || c as int == 12 }

  function TrimStart(s: string): (r: string)
    ensures |r| <= |s| && (r != "" ==> !IsWhite(r[0]))
  {
    if s != "" && IsWhite(s[0]) then TrimStart(s[1..]) else s
  }

  function TrimEnd(s: string): string {
    if s != "" && IsWhite(s[|s| - 1]) then TrimEnd(s[..|s| - 1]) else s
  }

  /** Width of the leading white space. */
  function Indent(s: string): nat { |s| - |TrimStart(s)| }

  function Spaces(n: nat): (r: string)
    ensures |r| == n && forall c :: c in r ==> c == ' '
  {
    seq(n, _ => ' ')
  }

  // ----- Lines -----

  function NewlineAt(s: string): (k: nat)
    ensures k <= |s| && (k < |s| ==> s[k] == '\n') && '\n' !in s[..k]
  {
    if s == "" || s[0] == '\n' then 0
    else
      var k := NewlineAt(s[1..]);
      assert s[..k + 1] == [s[0]] + s[1..][..k];
      k + 1
  }

  function WithoutCr(s: string): string {
    if s != "" && s[|s| - 1] == '\r' then s[..|s| - 1] else s
  }

  /** Lines end at a newline, optionally after a carriage return; no empty line follows the last newline. */
  function LinesOf(s: string): seq<string>
    decreases |s|
  {
    var k := NewlineAt(s);
    if s == "" then []
    else if k == |s| then [s]
    else [WithoutCr(s[..k])] + LinesOf(s[k + 1..])
  }

  function JoinLines(lines: seq<string>): string {
    if lines == [] then ""
    else if |lines| == 1 then lines[0]
    else lines[0] + "\n" + JoinLines(lines[1..])
  }

  /** The form of a line that survives being written and read. */
  predicate Clean(s: string) { '\n' !in s && '\r' !in s }

  predicate AllClean(lines: seq<string>) { forall l :: l in lines ==> Clean(l) }

  lemma {:induction false} TrimStartOf(n: nat, t: string)
    requires t != "" ==> !IsWhite(t[0])
    ensures TrimStart(Spaces(n) + t) == t && Indent(Spaces(n) + t) == n
  {
    if n == 0 {
      assert Spaces(0) + t == t;
    } else {
      assert (Spaces(n) + t)[1..] == Spaces(n - 1) + t;
      TrimStartOf(n - 1, t);
    }
  }

  lemma {:induction false} TrimStartKeeps(s: string)
    ensures TrimStart(s) == s[Indent(s)..]
    ensures Clean(s) ==> Clean(TrimStart(s))
  {
    if s != "" && IsWhite(s[0]) {
      TrimStartKeeps(s[1..]);
    }
  }

  lemma FirstLineOf(line: string, rest: string)
    requires Clean(line)
    ensures LinesOf(line + "\n" + rest) == [line] + LinesOf(rest)
  {
    var s := line + "\n" + rest;
    var k := NewlineAt(s);
    assert s[|line|] == '\n';
    assert forall i :: 0 <= i < |line| ==> s[i] == line[i];
    if k > |line| {
      assert false;
    }
    assert k == |line| && s[..k] == line && s[k + 1..] == rest;
  }

  /** Clean lines are read back from their joined text, closed by a newline. */
  lemma {:induction false} LinesOfJoined(lines: seq<string>)
    requires lines != [] && AllClean(lines)
    ensures LinesOf(JoinLines(lines) + "\n") == lines
  {
    hide LinesOf, Clean;
    var l, rest := lines[0], lines[1..];
    if rest == [] {
      FirstLineOf(l, "");
      NoLines();
      assert JoinLines(lines) + "\n" == l + "\n" + "";
      assert lines == [l];
    } else {
      FirstLineOf(l, JoinLines(rest) + "\n");
      LinesOfJoined(rest);
      assert JoinLines(lines) + "\n" == l + "\n" + (JoinLines(rest) + "\n");
      assert lines == [l] + rest;
    }
  }

  lemma NoLines()
    ensures LinesOf("") == []
  {
  }

  /** Without the closing newline, unless the last line is empty. */
  lemma {:induction false} LinesOfOpen(lines: seq<string>)
    requires lines != [] && AllClean(lines) && lines[|lines| - 1] != ""
    ensures LinesOf(JoinLines(lines)) == lines
  {
    var l, rest := lines[0], lines[1..];
    if rest == [] {
      assert lines == [l] && Clean(l);
      assert NewlineAt(l) == |l|;
    } else {
      hide LinesOf, Clean;
      FirstLineOf(l, JoinLines(rest));
      LinesOfOpen(rest);
      assert lines == [l] + rest;
    }
  }

  lemma {:induction false} LinesAreClean(s: string)
    requires '\r' !in s
    ensures AllClean(LinesOf(s))
    decreases |s|
  {
    var k := NewlineAt(s);
    if s != "" && k < |s| {
      LinesAreClean(s[k + 1..]);
      assert '\r' !in s[..k];
    }
  }
}
