/**
 Passes of the fixer over any file that is loaded as a document: where every line
 goes, which items fall out of their block, and when a second pass is idle.
 */
module FixerPasses {
  import opened FixerLayout
  import opened InfoFixer
  import opened InfoYml
  import opened Options
  import opened SigmaIndent
  import opened YamlBlocks
  import opened YamlFixer
  import opened YamlText

  // ----- One pass -----

  /** One pass: load the file, derive its canonical text, fix the file. How files are loaded is left open. */
  function Pass(load: string -> Option<InfoYml>, file: string): string {
    match load(file)
    case None => file
    case Some(d) => Fixed(file, CanonicalYaml(d))
  }

  /** The documents with one-line scalars whose canonical text has one column for each template. */
  ghost predicate Unambiguous(d: InfoYml) { OneLineScalars(d) && TextsItemized(d) && NoClash(d) }

  /** Some line of the canonical text has this template. */
  ghost predicate Known(d: InfoYml, t: Template) {
    exists l :: l in LinesOf(CanonicalYaml(d)) && TemplateOf(l) == Some(t)
  }

  /** Where a pass puts the lines with this template: those it does not know go to column 0. */
  ghost function ColumnOf(d: InfoYml, t: Template): nat { if Known(d, t) then Place(d, t) else 0 }

  ghost function CanonicalPlaces(d: InfoYml): seq<Placed> { YamlLines(LinesOf(CanonicalYaml(d))) }

  lemma KnownIsPlaced(d: InfoYml, t: Template)
    ensures Known(d, t) <==> CanonicalIndent(CanonicalPlaces(d), t).Some?
  {
    hide LinesOf, YamlLines, TemplateOf, Indent, CanonicalIndent, CanonicalYaml;
    var lines, cs := LinesOf(CanonicalYaml(d)), CanonicalPlaces(d);
    FirstPlace(cs, t);
    if Known(d, t) {
      var l :| l in lines && TemplateOf(l) == Some(t);
      PlacedMeaning(lines, Placed(t, Indent(l)));
      assert Placed(t, Indent(l)).template == t;
    }
    if CanonicalIndent(cs, t).Some? {
      PlacedMeaning(lines, Placed(t, CanonicalIndent(cs, t).value));
    }
  }

  lemma CanonicalLines(d: InfoYml)
    requires OneLineScalars(d)
    ensures LinesOf(CanonicalYaml(d)) == Rendered(PrintEntries(Entries(d), 0, 4))
  {
    hide *;
    CanonicalText(d);
    EntriesAreOk(d);
    ReadBackLines(Entries(d), 4);
  }

  /** The column the fixer looks up is the one the document's form gives the template. */
  lemma CanonicalColumn(d: InfoYml, t: Template)
    requires Unambiguous(d)
    ensures CanonicalIndent(CanonicalPlaces(d), t) == if Known(d, t) then Some(Place(d, t)) else None
    ensures Known(d, t) && t.isList ==> ItemKey(d, t.key)
  {
    hide LinesOf, YamlLines, CanonicalIndent, CanonicalYaml, PrintEntries, Rendered, Known, Place, AllRight,
      OneLineScalars, TextsItemized, NoClash, ItemKey;
    var cs := CanonicalPlaces(d);
    KnownIsPlaced(d, t);
    CanonicalLines(d);
    DocumentRight(d);
    FirstPlace(cs, t);
    if Known(d, t) {
      RightStands(d, PrintEntries(Entries(d), 0, 4), Placed(t, CanonicalIndent(cs, t).value));
    }
  }

  /** The canonical text has a list line with this key exactly for the item keys of the document. */
  lemma KnownItem(d: InfoYml, key: string)
    requires Unambiguous(d)
    ensures Known(d, Template(key, true)) <==> ItemKey(d, key)
  {
    hide LinesOf, YamlLines, TemplateOf, Indent, CanonicalIndent, CanonicalYaml, PrintEntries, Rendered, ItemKey,
      OneLineScalars, TextsItemized, NoClash, Solid;
    CanonicalColumn(d, Template(key, true));
    if ItemKey(d, key) {
      var l := ItemKeyHasLine(d, key);
      CanonicalLines(d);
      PlacedHere(PrintEntries(Entries(d), 0, 4), l);
      PlacedMeaning(LinesOf(CanonicalYaml(d)), Placed(Template(key, true), l.col));
    }
  }

  /** What a pass may make of a line: the same content, at the column of its template. */
  ghost predicate MovedTo(d: InfoYml, x: string, y: string) {
    match TemplateOf(x)
    case None => y == x
    case Some(t) =>
      && Content(y) == Content(x) && TemplateOf(y) == Some(t) && Indent(y) == ColumnOf(d, t)
      && (!Known(d, t) ==> y == Content(x))
  }

  lemma LineMoved(d: InfoYml, x: string)
    requires Unambiguous(d)
    ensures MovedTo(d, x, FixedLine(CanonicalPlaces(d), x))
  {
    hide CanonicalIndent, Body, IsListLine, TrimStart, CanonicalPlaces, Place, Known, Unambiguous;
    var cs := CanonicalPlaces(d);
    FixedTemplate(cs, x);
    ContentIsKept(cs, x);
    if TemplateOf(x).Some? {
      FixedForm(cs, x);
      CanonicalColumn(d, TemplateOf(x).value);
      NoSpaces("- ");
      NoSpaces(TrimStart(x));
    }
  }

  lemma NoSpaces(s: string)
    ensures Spaces(0) + s == s
  {
  }

  lemma LineUnmoved(d: InfoYml, x: string)
    requires Unambiguous(d) && !Misplaced(x, CanonicalPlaces(d))
    ensures MovedTo(d, x, x)
  {
    hide CanonicalIndent, Content, Indent, TemplateOf, CanonicalPlaces, Place, Known, Unambiguous;
    if TemplateOf(x).Some? {
      CanonicalColumn(d, TemplateOf(x).value);
    }
  }

  /**
   Whatever LF file is loaded as an unambiguous document: a pass keeps every line's
   content and puts it at the column its template has in the canonical text, or at
   column 0 when the canonical text does not have it.
   */
  lemma FirstPassPlaces(load: string -> Option<InfoYml>, d: InfoYml, file: string)
    requires load(file) == Some(d) && Unambiguous(d) && LfText(file)
    ensures var x, y := LinesOf(file), LinesOf(Pass(load, file));
            |x| == |y| && forall i :: 0 <= i < |x| ==> MovedTo(d, x[i], y[i])
  {
    var canonical, cs, x := CanonicalYaml(d), CanonicalPlaces(d), LinesOf(file);
    TrimmedIsSame(file);
    assert NeedsReindent(TrimNewlines(file), canonical) == NeedsReindent(file, canonical);
    assert Pass(load, file) == Fixed(file, canonical);
    assert file == "" ==> x == [];
    hide LinesOf, YamlLines, TrimNewlines, NeedsReindent, Misplaced, FixedLine, CanonicalYaml, Unambiguous, MovedTo,
      LfText, Written;
    NeedsMeaning(file, canonical);
    if NeedsReindent(file, canonical) {
      WrittenLines(file, canonical);
      forall i | 0 <= i < |x| ensures MovedTo(d, x[i], FixedLine(cs, x[i])) {
        LineMoved(d, x[i]);
      }
    } else {
      forall i | 0 <= i < |x| ensures MovedTo(d, x[i], x[i]) {
        assert x[i] in x;
        LineUnmoved(d, x[i]);
      }
    }
  }

  // ----- Items -----

  /**
   After a pass a list item stands at its column if and only if the canonical text
   has its template: it begins a test or rule entry, or some pipeline or filter has
   its key. Any other item stands at column 0, out of its block.
   */
  lemma ItemStays(load: string -> Option<InfoYml>, d: InfoYml, file: string, i: nat, key: string)
    requires load(file) == Some(d) && Unambiguous(d) && LfText(file)
    requires i < |LinesOf(file)| && TemplateOf(LinesOf(file)[i]) == Some(Template(key, true))
    ensures var y := LinesOf(Pass(load, file));
            && i < |y|
            && (Indent(y[i]) == Place(d, Template(key, true)) <==> ItemKey(d, key))
            && (!ItemKey(d, key) ==> Indent(y[i]) == 0 && y[i] == Content(LinesOf(file)[i]))
  {
    hide LinesOf, TemplateOf, Indent, Content, Pass, Unambiguous, ItemKey, LfText, Known;
    FirstPassPlaces(load, d, file);
    KnownItem(d, key);
  }

  /** An item of the file that the canonical text spells otherwise is moved to column 0. */
  lemma SpelledOtherwise(load: string -> Option<InfoYml>, d: InfoYml, file: string, col: nat, x: string)
    requires load(file) == Some(d) && Unambiguous(d) && LfText(file)
    requires Spaces(col) + ("- " + x) in LinesOf(file) && Itemized(x) && !ItemKey(d, KeyOf(x))
    ensures "- " + x in LinesOf(Pass(load, file))
  {
    var line := Spaces(col) + ("- " + x);
    ItemLine(col, x);
    hide LinesOf, TemplateOf, Content, Pass, Unambiguous, ItemKey, LfText, KeyOf, Itemized, Spaces;
    var i: nat :| i < |LinesOf(file)| && LinesOf(file)[i] == line;
    ItemStays(load, d, file, i, KeyOf(x));
    assert LinesOf(Pass(load, file))[i] == "- " + x;
  }

  lemma ItemLine(col: nat, x: string)
    requires Itemized(x)
    ensures var line := Spaces(col) + ("- " + x);
            TemplateOf(line) == Some(Template(KeyOf(x), true)) && Content(line) == "- " + x
  {
    assert ("- " + x)[0] == '-';
    assert Solid("- " + x);
    hide TrimEnd, BeforeColon, Body, Spaces, Itemized;
    ListTemplate(x);
    ItemTemplate(x);
    RenderedTemplate(col, "- " + x);
    TrimStartOf(col, "- " + x);
  }

  // ----- A quoted item -----

  /** A document with one rule and one test entry, which has this one pipeline. */
  function OnePipeline(id: string, rule: string, x: string): InfoYml {
    InfoYml(id, "x", "x", "x", [RuleMetadata(rule, "x")],
            [RegressionTestInfo("x", "json", "x", "1", Some([x]), None, "x")])
  }

  /** A text that is its own key. */
  predicate PlainKey(x: string) {
    && x != "" && Clean(x) && ':' !in x && !IsWhite(x[0]) && !IsWhite(x[|x| - 1])
    && x != "name" && x != "id"
  }

  lemma PlainKeyIsKey(x: string)
    requires PlainKey(x)
    ensures KeyOf(x) == x && Itemized(x) && Split(x) == NoKey
  {
    ColonFree(x);
    assert x[0] in x;
    hide Split, BeforeColon;
    BeforeTail(x, "");
    assert x + "" == x;
    assert TrimStart(x) == x && TrimEnd(x) == x;
  }

  lemma OnePipelineIsClear(id: string, rule: string, x: string)
    requires Clean(id) && Clean(rule) && PlainKey(x)
    ensures Unambiguous(OnePipeline(id, rule, x))
    ensures forall y :: PlainText(OnePipeline(id, rule, x), y) <==> y == x
  {
    PlainKeyIsKey(x);
    assert Clean("x") && Clean("json") && Clean("1");
    hide Split, KeyOf, Itemized, Clean;
    var d := OnePipeline(id, rule, x);
    var t := d.regressionTestsInfo[0];
    assert t in d.regressionTestsInfo && IsText(t.pipelines, x);
    assert forall y :: PlainText(d, y) <==> y == x;
    assert TestOk(t);
  }

  /** The file that differs from the canonical one in how its one pipeline is spelled. */
  function SpelledFile(id: string, rule: string, spelling: string): string {
    TextAt(Entries(OnePipeline(id, rule, spelling)), 4) + "\n"
  }

  /**
   A file in canonical layout whose pipeline is spelled otherwise than the canonical
   text spells it, however it is loaded: the item moves from column 10 to column 0.
   */
  lemma OtherSpellingFallsOut(load: string -> Option<InfoYml>, id: string, rule: string, x: string, spelling: string)
    requires Clean(id) && Clean(rule) && PlainKey(x) && PlainKey(spelling) && x != spelling
    requires load(SpelledFile(id, rule, spelling)) == Some(OnePipeline(id, rule, x))
    ensures var file := SpelledFile(id, rule, spelling);
            && Spaces(10) + ("- " + spelling) in LinesOf(file)
            && "- " + spelling in LinesOf(Pass(load, file))
  {
    var d, e, file := OnePipeline(id, rule, x), OnePipeline(id, rule, spelling), SpelledFile(id, rule, spelling);
    assert e.regressionTestsInfo[0] in e.regressionTestsInfo;
    assert IsText(e.regressionTestsInfo[0].pipelines, spelling);
    assert d.ruleMetadata != [];
    hide PrintEntries, TextAt, LinesOf, KeyOf, PlainKey, Itemized, Clean, LfText, PlainText, Split, IsText, Entries,
      Pass;
    PlainKeyIsKey(x);
    PlainKeyIsKey(spelling);
    OnePipelineIsClear(id, rule, x);
    OnePipelineIsClear(id, rule, spelling);
    CanonicalText(e);
    EntriesAreOk(e);
    ReadBackLines(Entries(e), 4);
    TextInDocument(e, e.regressionTestsInfo[0], spelling);
    InRendered(PrintEntries(Entries(e), 0, 4), Line(10, "- " + spelling));
    NoOtherKey(d, x, spelling);
    SpelledOtherwise(load, d, file, 10, spelling);
  }

  lemma InRendered(lines: seq<Line>, l: Line)
    requires l in lines
    ensures Spaces(l.col) + l.text in Rendered(lines)
  {
    var k: nat :| k < |lines| && lines[k] == l;
    assert Rendered(lines)[k] == Spaces(l.col) + l.text;
  }

  lemma NoOtherKey(d: InfoYml, x: string, spelling: string)
    requires PlainKey(spelling) && KeyOf(x) == x && KeyOf(spelling) == spelling && x != spelling
    requires forall y :: PlainText(d, y) <==> y == x
    ensures !ItemKey(d, KeyOf(spelling))
  {
    hide KeyOf, PlainText;
  }

  /** Quotes, or a comment after the item, are enough: as YAML both files list the pipeline `sysmon`. */
  lemma QuotedItemFallsOut(load: string -> Option<InfoYml>, id: string, rule: string)
    requires Clean(id) && Clean(rule)
    requires load(SpelledFile(id, rule, "'sysmon'")) == Some(OnePipeline(id, rule, "sysmon"))
    requires load(SpelledFile(id, rule, "sysmon # note")) == Some(OnePipeline(id, rule, "sysmon"))
    ensures Spaces(10) + ("- " + "'sysmon'") in LinesOf(SpelledFile(id, rule, "'sysmon'"))
    ensures "- 'sysmon'" in LinesOf(Pass(load, SpelledFile(id, rule, "'sysmon'")))
    ensures Spaces(10) + ("- " + "sysmon # note") in LinesOf(SpelledFile(id, rule, "sysmon # note"))
    ensures "- sysmon # note" in LinesOf(Pass(load, SpelledFile(id, rule, "sysmon # note")))
  {
    hide *;
    SysmonKeys();
    OtherSpellingFallsOut(load, id, rule, "sysmon", "'sysmon'");
    OtherSpellingFallsOut(load, id, rule, "sysmon", "sysmon # note");
    assert "- " + "'sysmon'" == "- 'sysmon'" && "- " + "sysmon # note" == "- sysmon # note";
  }

  lemma SysmonKeys()
    ensures PlainKey("sysmon") && PlainKey("'sysmon'") && PlainKey("sysmon # note")
    ensures "sysmon" != "'sysmon'" && "sysmon" != "sysmon # note"
  {
    assert "sysmon"[0] != "'sysmon'"[0] && |"sysmon"| != |"sysmon # note"|;
  }

  // ----- Comments and blank lines stay out of the way -----

  /** A comment or a blank line. */
  predicate Passive(line: string) { TrimStart(line) == "" || TrimStart(line)[0] == '#' }

  /** The lines that say something. */
  function Solids(lines: seq<string>): seq<string> {
    if lines == [] then []
    else Solids(lines[..|lines| - 1]) + if Passive(lines[|lines| - 1]) then [] else [lines[|lines| - 1]]
  }

  /** Moving a line makes it neither a comment nor a blank line, and unmakes neither. */
  lemma PassiveStays(cs: seq<Placed>, line: string)
    ensures Passive(FixedLine(cs, line)) == Passive(line)
    ensures Passive(line) ==> FixedLine(cs, line) == line && !Misplaced(line, cs)
  {
    if TemplateOf(line).Some? {
      FixedForm(cs, line);
      hide TrimStart, FixedLine, CanonicalIndent, Body, BeforeColon, Trim;
    }
  }

  lemma {:induction false} SolidsMove(cs: seq<Placed>, lines: seq<string>)
    ensures Solids(FixedLines(cs, lines)) == FixedLines(cs, Solids(lines))
    ensures AnyMisplaced(lines, cs) <==> AnyMisplaced(Solids(lines), cs)
  {
    hide FixedLine, Misplaced, Passive;
    if lines != [] {
      var init, last := lines[..|lines| - 1], lines[|lines| - 1];
      assert lines == init + [last];
      SolidsMove(cs, init);
      PassiveStays(cs, last);
      assert FixedLines(cs, lines)[..|init|] == FixedLines(cs, init);
      assert (Solids(init) + [last])[..|Solids(init)|] == Solids(init);
      MisplacedSnoc(cs, init, last);
      MisplacedSnoc(cs, Solids(init), last);
    }
  }

  lemma MisplacedSnoc(cs: seq<Placed>, lines: seq<string>, line: string)
    ensures AnyMisplaced(lines + [line], cs) <==> AnyMisplaced(lines, cs) || Misplaced(line, cs)
  {
    hide Misplaced;
    assert line in lines + [line];
    assert forall l :: l in lines + [line] <==> l in lines || l == line;
  }

  // ----- Two passes -----

  /**
   A second pass loads the rewritten file itself. Whatever the document, it changes
   nothing when that file still loads as the same document, or no longer loads.
   */
  lemma SecondPassLoadsAgain(load: string -> Option<InfoYml>, d: InfoYml, file: string)
    requires load(file) == Some(d) && LfText(file)
    requires load(Pass(load, file)).Some? ==> load(Pass(load, file)) == Some(d)
    ensures Pass(load, Pass(load, file)) == Pass(load, file)
  {
    hide Fixed, CanonicalYaml, LfText;
    SecondPassIsIdle(file, CanonicalYaml(d));
  }

  /** The same lines, each at the column of its template. */
  ghost function Standing(d: InfoYml, from: seq<Line>): seq<Line> {
    seq(|from|, i requires 0 <= i < |from| =>
      if TemplateOf(from[i].text).Some? then Line(ColumnOf(d, TemplateOf(from[i].text).value), from[i].text)
      else from[i])
  }

  /**
   A file with comments and blank lines anywhere and any other lines at any columns:
   after a pass its lines that say something are the same texts, at the columns of
   their templates.
   */
  lemma LinesStand(load: string -> Option<InfoYml>, d: InfoYml, file: string, from: seq<Line>)
    requires load(file) == Some(d) && Unambiguous(d) && LfText(file)
    requires Solids(LinesOf(file)) == Rendered(from) && AllMovable(from)
    ensures Solids(LinesOf(Pass(load, file))) == Rendered(Standing(d, from))
  {
    var canonical, cs := CanonicalYaml(d), CanonicalPlaces(d);
    TrimmedIsSame(file);
    assert NeedsReindent(TrimNewlines(file), canonical) == NeedsReindent(file, canonical);
    assert Pass(load, file) == Fixed(file, canonical);
    assert file == "" ==> LinesOf(file) == [];
    hide LinesOf, YamlLines, TrimNewlines, NeedsReindent, AnyMisplaced, FixedLines, Rendered, Written, Solids, LfText,
      Standing, AllMovable, Unambiguous, CanonicalYaml, Pass;
    NeedsMeaning(file, canonical);
    SolidsMove(cs, LinesOf(file));
    LinesStandBy(d, from);
    if NeedsReindent(file, canonical) {
      NothingMisplaced(cs);
      WrittenLines(file, canonical);
    }
  }

  lemma NothingMisplaced(cs: seq<Placed>)
    ensures !AnyMisplaced([], cs)
  {
  }

  lemma LinesStandBy(d: InfoYml, from: seq<Line>)
    requires AllMovable(from) && Unambiguous(d)
    ensures var cs := CanonicalPlaces(d);
            && FixedLines(cs, Rendered(from)) == Rendered(Standing(d, from))
            && (AnyMisplaced(Rendered(from), cs) || Rendered(from) == Rendered(Standing(d, from)))
  {
    hide CanonicalPlaces, CanonicalIndent, TemplateOf, FixedLine, Misplaced, Movable, Spaces, Known, Place, Unambiguous;
    var cs, a, b := CanonicalPlaces(d), Rendered(from), Rendered(Standing(d, from));
    forall i | 0 <= i < |from|
      ensures FixedLine(cs, a[i]) == b[i] && (Misplaced(a[i], cs) || a[i] == b[i])
    {
      assert from[i] in from;
      LineStands(d, from[i]);
    }
    assert FixedLines(cs, a) == b;
    if !AnyMisplaced(a, cs) {
      forall i | 0 <= i < |from| ensures a[i] == b[i] {
        assert a[i] in a;
      }
      assert a == b;
    }
  }

  lemma LineStands(d: InfoYml, l: Line)
    requires Movable(l.text) && Unambiguous(d)
    ensures TemplateOf(l.text).Some?
    ensures var target := ColumnOf(d, TemplateOf(l.text).value);
            && FixedLine(CanonicalPlaces(d), Spaces(l.col) + l.text) == Spaces(target) + l.text
            && (Misplaced(Spaces(l.col) + l.text, CanonicalPlaces(d)) || l.col == target)
  {
    var t := TemplateOf(l.text).value;
    CanonicalColumn(d, t);
    hide CanonicalPlaces, Known, Place, Unambiguous;
    if Known(d, t) {
      LineMoves(CanonicalPlaces(d), l.col, l.text, Place(d, t));
    } else {
      UnknownMoves(CanonicalPlaces(d), l.col, l.text);
    }
  }

  lemma UnknownMoves(cs: seq<Placed>, col: nat, text: string)
    requires Movable(text) && CanonicalIndent(cs, TemplateOf(text).value).None?
    ensures FixedLine(cs, Spaces(col) + text) == Spaces(0) + text && Misplaced(Spaces(col) + text, cs)
  {
    RenderedTemplate(col, text);
    TrimStartOf(col, text);
    var line := Spaces(col) + text;
    assert TrimStart(line) == text;
    hide TrimStart, Spaces, CanonicalIndent, BeforeColon, Body;
    if TemplateOf(text).value.isList {
      assert Spaces(0) + "- " + Body(text) == Spaces(0) + ("- " + Body(text));
    }
  }

  // ----- The document's own lines -----

  /** Read the nesting of a text from its indentation; comments and blank lines say nothing. */
  function ReadText(text: string): Read<Entry> { ReadEntries(ParseLines(Solids(LinesOf(text))), 0) }

  ghost predicate Shows(text: string, d: InfoYml) {
    OneLineScalars(d) && ReadText(text) == Read(Entries(d), [])
  }

  /**
   When those lines are the document's own, spelled as in its canonical text, they
   stand after a pass exactly as there, so the file shows the document.
   */
  lemma OwnLinesReachCanonical(load: string -> Option<InfoYml>, d: InfoYml, file: string, from: seq<Line>)
    requires load(file) == Some(d) && Unambiguous(d) && LfText(file)
    requires Solids(LinesOf(file)) == Rendered(from) && SameText(from, PrintEntries(Entries(d), 0, 4))
    ensures Solids(LinesOf(Pass(load, file))) == Rendered(PrintEntries(Entries(d), 0, 4))
    ensures Shows(Pass(load, file), d)
  {
    var to := PrintEntries(Entries(d), 0, 4);
    hide PrintEntries, LinesOf, Solids, Rendered, Movable, Pass, Shows, Standing, LfText, NoClash, TextsItemized,
      OneLineScalars, Entries, EntriesOk, EntriesPlain;
    EntriesAreOk(d);
    InfoIsPlain(d);
    EntriesMovable(Entries(d), 0, 4);
    forall l | l in from ensures Movable(l.text) {
      var k: nat :| k < |from| && from[k] == l;
      assert to[k] in to;
    }
    LinesStand(load, d, file, from);
    OwnLinesStand(d, from);
    TextShows(Pass(load, file), d, 4);
  }

  lemma OwnLinesStand(d: InfoYml, from: seq<Line>)
    requires Unambiguous(d) && SameText(from, PrintEntries(Entries(d), 0, 4))
    ensures Standing(d, from) == PrintEntries(Entries(d), 0, 4)
  {
    var to := PrintEntries(Entries(d), 0, 4);
    hide PrintEntries, TemplateOf, LinesOf, CanonicalYaml, Place, Entries, Solid, Spaces, Unambiguous, YamlLines;
    ClearParts(d);
    DocumentRight(d);
    CanonicalLines(d);
    forall i | 0 <= i < |to| ensures Standing(d, from)[i] == to[i] {
      assert to[i] in to && Right(d, to[i]) && from[i].text == to[i].text;
      PlacedHere(to, to[i]);
      PlacedMeaning(LinesOf(CanonicalYaml(d)), Placed(TemplateOf(to[i].text).value, to[i].col));
    }
  }

  lemma ClearParts(d: InfoYml)
    requires Unambiguous(d)
    ensures OneLineScalars(d) && TextsItemized(d) && NoClash(d)
  {
  }

  lemma TextShows(file: string, d: InfoYml, off: nat)
    requires OneLineScalars(d) && Solids(LinesOf(file)) == Rendered(PrintEntries(Entries(d), 0, off))
    ensures Shows(file, d)
  {
    var lines := PrintEntries(Entries(d), 0, off);
    assert forall l: Line :: LineOk(l) ==> Solid(l.text);
    assert ReadText(file) == ReadEntries(ParseLines(Rendered(lines)), 0);
    assert Shows(file, d) == (ReadText(file) == Read(Entries(d), []));
    hide *;
    EntriesAreOk(d);
    PrintedEntriesOk(Entries(d), 0, off);
    ParsedBack(lines);
    LayoutIsIrrelevant(Entries(d), off);
  }

  /**
   A document without a clash printed at any list offset: the first pass writes its
   canonical text, and a pass over that changes nothing.
   */
  lemma PassSettles(load: string -> Option<InfoYml>, d: InfoYml, off: nat)
    requires Unambiguous(d)
    ensures load(TextAt(Entries(d), off) + "\n") == Some(d)
            ==> Pass(load, TextAt(Entries(d), off) + "\n") == CanonicalYaml(d) + "\n"
    ensures load(CanonicalYaml(d) + "\n") == Some(d)
            ==> Pass(load, CanonicalYaml(d) + "\n") == CanonicalYaml(d) + "\n"
  {
    CanonicalText(d);
    InfoReachesCanonical(d, off);
    InfoReachesCanonical(d, 4);
    hide Fixed, CanonicalYaml, TextAt, Unambiguous;
  }
}
