/**
 The info-file fixer: lines move to the column their template has in the
 canonical document. A second pass changes nothing.
 */
module YamlFixer {
  import opened Options
  import opened YamlText

  // ----- Templates -----

  datatype Template = Template(key: string, isList: bool)

  predicate IsListLine(t: string) { t != "" && t[0] == '-' && ("- " <= t || |t| == 1) }

  function TrimDashes(s: string): string {
    if s != "" && s[0] == '-' then TrimDashes(s[1..]) else s
  }

  /** The content of a list line, after its dashes. */
  function Body(t: string): string { TrimStart(TrimDashes(t)) }

  function BeforeColon(s: string): string {
    if s == "" || s[0] == ':' then "" else [s[0]] + BeforeColon(s[1..])
  }

  function Trim(s: string): string { TrimEnd(TrimStart(s)) }

  /** Key and kind of a line, ignoring indent and value. */
  function TemplateOf(line: string): Option<Template> {
    var t := TrimStart(line);
    if t == "" || t[0] == '#' then None
    else
      var key := Trim(BeforeColon(if IsListLine(t) then Body(t) else t));
      if key == "" then None else Some(Template(key, IsListLine(t)))
  }

  datatype Placed = Placed(template: Template, indent: nat)

  function YamlLines(lines: seq<string>): seq<Placed> {
    if lines == [] then []
    else
      (match TemplateOf(lines[0])
       case None => []
       case Some(t) => [Placed(t, Indent(lines[0]))])
      + YamlLines(lines[1..])
  }

  function CanonicalIndent(canonical: seq<Placed>, t: Template): Option<nat> {
    if canonical == [] then None
    else if canonical[0].template == t then Some(canonical[0].indent)
    else CanonicalIndent(canonical[1..], t)
  }

  predicate NeedsReindent(raw: string, canonical: string) {
    exists p ::
      p in YamlLines(LinesOf(raw)) && CanonicalIndent(YamlLines(LinesOf(canonical)), p.template) != Some(p.indent)
  }

  // ----- Re-indenting -----

  function FixedLine(canonical: seq<Placed>, line: string): string {
    match TemplateOf(line)
    case None => line
    case Some(t) =>
      var indent := match CanonicalIndent(canonical, t) case Some(i) => i case None => 0;
      if t.isList then Spaces(indent) + "- " + Body(TrimStart(line)) else Spaces(indent) + TrimStart(line)
  }

  function FixedLines(canonical: seq<Placed>, lines: seq<string>): (r: seq<string>)
    ensures |r| == |lines| && forall i :: 0 <= i < |r| ==> r[i] == FixedLine(canonical, lines[i])
  {
    if lines == [] then []
    else FixedLines(canonical, lines[..|lines| - 1]) + [FixedLine(canonical, lines[|lines| - 1])]
  }

  method ReindentYaml(raw: string, canonical: string) returns (text: string)
    ensures text == JoinLines(FixedLines(YamlLines(LinesOf(canonical)), LinesOf(raw)))
  {
    hide LinesOf, JoinLines, YamlLines, CanonicalIndent;
    var canonicalLines := YamlLines(LinesOf(canonical));
    var lines := LinesOf(raw);
    var out: seq<string> := [];
    for n := 0 to |lines|
      invariant out == FixedLines(canonicalLines, lines[..n])
    {
      assert lines[..n + 1][..n] == lines[..n];
      var fixed := Reindent(lines[n], canonicalLines);
      out := out + [fixed];
    }
    assert lines[..|lines|] == lines;
    text := JoinLines(out);
  }

  method Reindent(line: string, canonicalLines: seq<Placed>) returns (fixed: string)
    ensures fixed == FixedLine(canonicalLines, line)
  {
    hide CanonicalIndent, TrimStart;
    var t := TrimStart(line);
    if t == "" || t[0] == '#' {
      return line;
    }
    var template := TemplateOf(line);
    if template.None? {
      return line;
    }
    var found := CanonicalIndent(canonicalLines, template.value);
    var indent := if found.Some? then found.value else 0;
    if template.value.isList {
      return Spaces(indent) + "- " + Body(t);
    }
    return Spaces(indent) + t;
  }

  // ----- One line -----

  lemma {:induction false} BodyIsTrimmed(t: string)
    ensures Body("- " + Body(t)) == Body(t)
  {
    var b := Body(t);
    assert ("- " + b)[1..] == " " + b;
    assert TrimDashes("- " + b) == " " + b;
    assert (" " + b)[1..] == b;
    assert TrimStart(" " + b) == TrimStart(b);
  }

  /** A moved line: its column, and what is left after trimming it. */
  lemma FixedForm(canonical: seq<Placed>, line: string)
    requires TemplateOf(line).Some?
    ensures var t, f := TrimStart(line), FixedLine(canonical, line);
            var i := CanonicalIndent(canonical, TemplateOf(line).value);
            && Indent(f) == (if i.Some? then i.value else 0)
            && TrimStart(f) == (if IsListLine(t) then "- " + Body(t) else t)
            && IsListLine(TrimStart(f)) == IsListLine(t)
            && (IsListLine(t) ==> Body(TrimStart(f)) == Body(t))
  {
    hide CanonicalIndent, Body;
    var t := TrimStart(line);
    var i := CanonicalIndent(canonical, TemplateOf(line).value);
    var n := if i.Some? then i.value else 0;
    if IsListLine(t) {
      BodyIsTrimmed(t);
      TrimStartOf(n, "- " + Body(t));
      assert Spaces(n) + "- " + Body(t) == Spaces(n) + ("- " + Body(t));
    } else {
      TrimStartOf(n, t);
    }
  }

  /** Moving a line keeps its template. */
  lemma FixedTemplate(canonical: seq<Placed>, line: string)
    ensures TemplateOf(FixedLine(canonical, line)) == TemplateOf(line)
  {
    hide CanonicalIndent, Body;
    if TemplateOf(line).Some? {
      FixedForm(canonical, line);
    }
  }

  /** A line already moved stays where it is. */
  lemma FixedAgain(canonical: seq<Placed>, line: string)
    ensures FixedLine(canonical, FixedLine(canonical, line)) == FixedLine(canonical, line)
  {
    hide CanonicalIndent, Body, IsListLine;
    FixedTemplate(canonical, line);
    if TemplateOf(line).Some? {
      FixedForm(canonical, line);
    }
  }

  /** What a line says apart from where it stands: its text, with one space after a list dash. */
  function Content(line: string): string {
    var t := TrimStart(line);
    match TemplateOf(line)
    case None => line
    case Some(k) => if k.isList then "- " + Body(t) else t
  }

  /** Comments, blank lines and lines without a key stay as they are; keys, values and comments on a line stay too. */
  lemma ContentIsKept(canonical: seq<Placed>, line: string)
    ensures Content(FixedLine(canonical, line)) == Content(line)
    ensures TemplateOf(line).None? ==> FixedLine(canonical, line) == line
  {
    hide CanonicalIndent, Body, IsListLine;
    FixedTemplate(canonical, line);
    if TemplateOf(line).Some? {
      FixedForm(canonical, line);
    }
  }

  lemma {:induction false} DashesClean(s: string)
    requires Clean(s)
    ensures Clean(TrimDashes(s))
  {
    if s != "" && s[0] == '-' {
      DashesClean(s[1..]);
    }
  }

  lemma JoinedClean(n: nat, dash: string, s: string)
    requires Clean(s) && (dash == "" || dash == "- ")
    ensures Clean(Spaces(n) + dash + s)
  {
    var a := Spaces(n);
    assert Clean(a) && Clean(dash);
    assert Clean(a + dash);
  }

  lemma FixedIsClean(canonical: seq<Placed>, line: string)
    requires Clean(line)
    ensures Clean(FixedLine(canonical, line))
  {
    hide CanonicalIndent, TemplateOf, Clean, TrimStart, TrimDashes, Spaces;
    var t := TrimStart(line);
    TrimStartKeeps(line);
    DashesClean(t);
    TrimStartKeeps(TrimDashes(t));
    if TemplateOf(line).Some? {
      var i := CanonicalIndent(canonical, TemplateOf(line).value);
      var n := if i.Some? then i.value else 0;
      JoinedClean(n, "- ", Body(t));
      JoinedClean(n, "", t);
      assert Spaces(n) + "" + t == Spaces(n) + t;
    }
  }

  // ----- The written file -----

  /** What the fixer writes: the re-indented text and a newline. */
  function Written(raw: string, canonical: string): string {
    JoinLines(FixedLines(YamlLines(LinesOf(canonical)), LinesOf(raw))) + "\n"
  }

  /** Text whose lines end with a newline alone. */
  predicate LfText(s: string) { '\r' !in s }

  /** The lines of the written file are the re-indented lines. */
  lemma WrittenLines(raw: string, canonical: string)
    requires LfText(raw) && raw != ""
    ensures LinesOf(Written(raw, canonical)) == FixedLines(YamlLines(LinesOf(canonical)), LinesOf(raw))
  {
    var cs, lines := YamlLines(LinesOf(canonical)), LinesOf(raw);
    assert lines != [];
    LinesAreClean(raw);
    hide LinesOf, JoinLines, YamlLines, FixedLine, Clean;
    var fixed := FixedLines(cs, lines);
    forall l | l in fixed ensures Clean(l) {
      var k: nat :| k < |fixed| && fixed[k] == l;
      assert lines[k] in lines;
      FixedIsClean(cs, lines[k]);
    }
    LinesOfJoined(fixed);
  }

  /** Writing once more changes nothing. */
  lemma WrittenIsFixed(raw: string, canonical: string)
    requires LfText(raw)
    ensures Written(Written(raw, canonical), canonical) == Written(raw, canonical)
  {
    if raw == "" {
      assert LinesOf("\n") == [""];
      assert FixedLine(YamlLines(LinesOf(canonical)), "") == "";
      assert Written("", canonical) == "\n";
      assert FixedLines(YamlLines(LinesOf(canonical)), [""]) == [""];
    } else {
      WrittenLines(raw, canonical);
      hide LinesOf, JoinLines, YamlLines, FixedLine, LfText;
      var cs, lines := YamlLines(LinesOf(canonical)), LinesOf(raw);
      var once := FixedLines(cs, lines);
      forall i | 0 <= i < |once| ensures FixedLines(cs, once)[i] == once[i] {
        FixedAgain(cs, lines[i]);
      }
      assert FixedLines(cs, once) == once;
    }
  }

  /** Line by line the written file says what the original said. */
  lemma WrittenKeepsContent(raw: string, canonical: string)
    requires LfText(raw) && raw != ""
    ensures var x, y := LinesOf(raw), LinesOf(Written(raw, canonical));
            && |x| == |y|
            && forall i :: 0 <= i < |x| ==>
                 Content(y[i]) == Content(x[i]) && (TemplateOf(x[i]).None? ==> y[i] == x[i])
  {
    WrittenLines(raw, canonical);
    hide LinesOf, YamlLines, FixedLine, Content, TemplateOf, Written;
    var cs, lines := YamlLines(LinesOf(canonical)), LinesOf(raw);
    forall i | 0 <= i < |lines|
      ensures Content(FixedLines(cs, lines)[i]) == Content(lines[i])
      ensures TemplateOf(lines[i]).None? ==> FixedLines(cs, lines)[i] == lines[i]
    {
      ContentIsKept(cs, lines[i]);
    }
  }

  // ----- The fixer -----

  function TrimNewlines(s: string): string {
    if s != "" && s[|s| - 1] == '\n' then TrimNewlines(s[..|s| - 1]) else s
  }

  /** The file after a pass: rewritten if some line is out of place, untouched otherwise. */
  function Fixed(original: string, canonical: string): string {
    if NeedsReindent(TrimNewlines(original), canonical) then Written(original, canonical) else original
  }

  method FixInfoYml(original: string, canonical: string) returns (content: string)
    ensures content == Fixed(original, canonical)
  {
    hide NeedsReindent, TrimNewlines, FixedLines, YamlLines, LinesOf, JoinLines;
    content := original;
    if NeedsReindent(TrimNewlines(original), canonical) {
      var rewritten := ReindentYaml(original, canonical);
      content := rewritten + "\n";
    }
  }

  /** A second pass over a file changes nothing. */
  lemma SecondPassIsIdle(original: string, canonical: string)
    requires LfText(original)
    ensures Fixed(Fixed(original, canonical), canonical) == Fixed(original, canonical)
  {
    hide NeedsReindent, TrimNewlines, Written, LfText;
    WrittenIsFixed(original, canonical);
  }

  lemma {:induction false} PlacedMeaning(lines: seq<string>, p: Placed)
    ensures p in YamlLines(lines)
            <==> exists l :: l in lines && TemplateOf(l) == Some(p.template) && Indent(l) == p.indent
  {
    hide TemplateOf, Indent;
    if lines != [] {
      PlacedMeaning(lines[1..], p);
      assert lines == [lines[0]] + lines[1..];
      if p in YamlLines(lines) && p !in YamlLines(lines[1..]) {
        assert TemplateOf(lines[0]) == Some(p.template) && Indent(lines[0]) == p.indent;
      }
    }
  }

  /** One more newline at the end adds no placed line. */
  lemma {:induction false} NewlineAddsNothing(s: string)
    requires LfText(s)
    ensures YamlLines(LinesOf(s + "\n")) == YamlLines(LinesOf(s))
    decreases |s|
  {
    var k := NewlineAt(s);
    if k == |s| {
      FirstLineOf(s, "");
      NoLines();
      assert s + "\n" + "" == s + "\n";
      if s != "" {
        assert LinesOf(s) == [s];
        assert [s] + [] == [s];
      } else {
        assert YamlLines([""]) == [] by { assert TemplateOf("").None?; assert [""][1..] == []; }
      }
    } else {
      var line, rest := s[..k], s[k + 1..];
      assert s == line + "\n" + rest && s + "\n" == line + "\n" + (rest + "\n");
      FirstLineOf(line, rest);
      FirstLineOf(line, rest + "\n");
      NewlineAddsNothing(rest);
      hide LinesOf, TemplateOf, Indent;
      assert ([line] + LinesOf(rest))[1..] == LinesOf(rest);
      assert ([line] + LinesOf(rest + "\n"))[1..] == LinesOf(rest + "\n");
    }
  }

  lemma {:induction false} TrimmedIsSame(s: string)
    requires LfText(s)
    ensures YamlLines(LinesOf(TrimNewlines(s))) == YamlLines(LinesOf(s))
  {
    hide LinesOf, YamlLines;
    if s != "" && s[|s| - 1] == '\n' {
      TrimmedIsSame(s[..|s| - 1]);
      NewlineAddsNothing(s[..|s| - 1]);
      assert s == s[..|s| - 1] + "\n";
    }
  }

  /** The canonical document has a place for every line. */
  ghost predicate AllKnown(raw: string, canonical: string) {
    forall l :: l in LinesOf(raw) && TemplateOf(l).Some? ==>
      CanonicalIndent(YamlLines(LinesOf(canonical)), TemplateOf(l).value).Some?
  }

  /** Some line with a template is not where the canonical document puts it. */
  ghost predicate Misplaced(line: string, canonical: seq<Placed>) {
    TemplateOf(line).Some? && CanonicalIndent(canonical, TemplateOf(line).value) != Some(Indent(line))
  }

  ghost predicate AnyMisplaced(lines: seq<string>, canonical: seq<Placed>) {
    exists l :: l in lines && Misplaced(l, canonical)
  }

  lemma NeedsMeaning(raw: string, canonical: string)
    ensures NeedsReindent(raw, canonical) <==> AnyMisplaced(LinesOf(raw), YamlLines(LinesOf(canonical)))
  {
    hide LinesOf, YamlLines, TemplateOf, Indent, CanonicalIndent;
    var lines, cs := LinesOf(raw), YamlLines(LinesOf(canonical));
    if NeedsReindent(raw, canonical) {
      var p :| p in YamlLines(lines) && CanonicalIndent(cs, p.template) != Some(p.indent);
      PlacedMeaning(lines, p);
      var l :| l in lines && TemplateOf(l) == Some(p.template) && Indent(l) == p.indent;
      assert Misplaced(l, cs);
    }
    forall l | l in lines && Misplaced(l, cs) ensures NeedsReindent(raw, canonical) {
      PlacedMeaning(lines, Placed(TemplateOf(l).value, Indent(l)));
    }
  }

  lemma MovedIsPlaced(canonical: seq<Placed>, line: string)
    ensures Misplaced(FixedLine(canonical, line), canonical)
            <==> TemplateOf(line).Some? && CanonicalIndent(canonical, TemplateOf(line).value).None?
  {
    hide CanonicalIndent, TrimStart, IsListLine, Body;
    FixedTemplate(canonical, line);
    if TemplateOf(line).Some? {
      FixedForm(canonical, line);
    }
  }

  /** After a rewrite no line is out of place exactly when the canonical document knows every line. */
  lemma RewriteSettles(raw: string, canonical: string)
    requires LfText(raw) && raw != ""
    ensures NeedsReindent(TrimNewlines(Written(raw, canonical)), canonical) <==> !AllKnown(raw, canonical)
  {
    var w := Written(raw, canonical);
    WrittenLines(raw, canonical);
    WrittenIsLf(raw, canonical);
    TrimmedIsSame(w);
    assert NeedsReindent(TrimNewlines(w), canonical) == NeedsReindent(w, canonical);
    hide *;
    NeedsMeaning(w, canonical);
    MovedLines(raw, canonical);
  }

  lemma MovedLines(raw: string, canonical: string)
    ensures var cs := YamlLines(LinesOf(canonical));
            AnyMisplaced(FixedLines(cs, LinesOf(raw)), cs) <==> !AllKnown(raw, canonical)
  {
    hide LinesOf, YamlLines, TemplateOf, Indent, CanonicalIndent, FixedLine, Misplaced;
    var cs, lines := YamlLines(LinesOf(canonical)), LinesOf(raw);
    var fixed := FixedLines(cs, lines);
    forall i | 0 <= i < |lines|
      ensures Misplaced(fixed[i], cs)
              <==> TemplateOf(lines[i]).Some? && CanonicalIndent(cs, TemplateOf(lines[i]).value).None?
    {
      MovedIsPlaced(cs, lines[i]);
    }
    if !AllKnown(raw, canonical) {
      var l :| l in lines && TemplateOf(l).Some? && CanonicalIndent(cs, TemplateOf(l).value).None?;
      var k: nat :| k < |lines| && lines[k] == l;
      assert Misplaced(fixed[k], cs) && fixed[k] in fixed;
      assert AnyMisplaced(fixed, cs);
    }
    if AnyMisplaced(fixed, cs) {
      var f :| f in fixed && Misplaced(f, cs);
      var k: nat :| k < |fixed| && fixed[k] == f;
      assert lines[k] in lines && !AllKnown(raw, canonical);
    }
  }

  lemma {:induction false} JoinIsLf(lines: seq<string>)
    requires AllClean(lines)
    ensures LfText(JoinLines(lines))
  {
    if lines != [] {
      assert Clean(lines[0]);
      JoinIsLf(lines[1..]);
    }
  }

  lemma WrittenIsLf(raw: string, canonical: string)
    requires LfText(raw)
    ensures LfText(Written(raw, canonical))
  {
    LinesAreClean(raw);
    hide LinesOf, JoinLines, YamlLines, FixedLine, Clean;
    var cs, lines := YamlLines(LinesOf(canonical)), LinesOf(raw);
    var fixed := FixedLines(cs, lines);
    forall l | l in fixed ensures Clean(l) {
      var k: nat :| k < |fixed| && fixed[k] == l;
      assert lines[k] in lines;
      FixedIsClean(cs, lines[k]);
    }
    JoinIsLf(fixed);
  }

  // ----- The canonical document itself -----

  lemma {:induction false} FirstPlace(canonical: seq<Placed>, t: Template)
    ensures CanonicalIndent(canonical, t).Some? <==> exists p :: p in canonical && p.template == t
    ensures CanonicalIndent(canonical, t).Some? ==> Placed(t, CanonicalIndent(canonical, t).value) in canonical
  {
    if canonical != [] && canonical[0].template != t {
      FirstPlace(canonical[1..], t);
      assert canonical == [canonical[0]] + canonical[1..];
    }
  }

  ghost predicate OneColumnEach(lines: seq<Placed>) {
    forall p, q | p in lines && q in lines && p.template == q.template :: p.indent == q.indent
  }

  /** A canonical document needs no fixing exactly when no template stands at two columns in it. */
  lemma CanonicalIsStable(canonical: string)
    ensures !NeedsReindent(canonical, canonical) <==> OneColumnEach(YamlLines(LinesOf(canonical)))
  {
    hide LinesOf, YamlLines, CanonicalIndent;
    var cs := YamlLines(LinesOf(canonical));
    forall p | p in cs
      ensures CanonicalIndent(cs, p.template).Some?
      ensures Placed(p.template, CanonicalIndent(cs, p.template).value) in cs
    {
      FirstPlace(cs, p.template);
    }
  }

  lemma {:induction false} BeforeTail(key: string, tail: string)
    requires ':' !in key && (tail == "" || tail[0] == ':')
    ensures BeforeColon(key + tail) == key
  {
    if key == "" {
      assert key + tail == tail;
    } else {
      assert (key + tail)[1..] == key[1..] + tail;
      BeforeTail(key[1..], tail);
    }
  }

  lemma TwoColumns(lines: seq<Placed>, t: Template, m: nat, n: nat)
    requires Placed(t, m) in lines && Placed(t, n) in lines && m != n
    ensures !OneColumnEach(lines)
  {
    assert Placed(t, m).template == Placed(t, n).template;
  }
}
