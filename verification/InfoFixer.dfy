/**
 The fixer on info documents: which of them have a canonical text with one
 column for each template, and what a pass does with them.
 */
module InfoFixer {
  import opened FixerLayout
  import opened InfoYml
  import opened Options
  import opened SigmaIndent
  import opened YamlBlocks
  import opened YamlFixer
  import opened YamlText

  // ----- When an info document has one column for each template -----

  function KeyOf(x: string): string { Trim(BeforeColon(x)) }

  predicate IsText(texts: Option<seq<string>>, x: string) { texts.Some? && x in texts.value }

  /** A pipeline or filter of some test entry. */
  ghost predicate PlainText(d: InfoYml, x: string) {
    exists t :: t in d.regressionTestsInfo && (IsText(t.pipelines, x) || IsText(t.filters, x))
  }

  ghost predicate TextsItemized(d: InfoYml) { forall x :: PlainText(d, x) ==> Itemized(x) }

  /** No pipeline or filter is keyed like the first line of a test entry, or of a rule entry if there is one. */
  ghost predicate NoClash(d: InfoYml) {
    forall x :: PlainText(d, x) ==> KeyOf(x) != "name" && (KeyOf(x) == "id" ==> d.ruleMetadata == [])
  }

  /** The only column a template can have in the canonical form of a document without a clash. */
  function Place(d: InfoYml, t: Template): nat {
    if t.isList then (if t.key == "name" || (t.key == "id" && d.ruleMetadata != []) then 4 else 10)
    else if t.key in {"id", "description", "date", "author", "rule_metadata", "regression_tests_info"} then 0
    else 6
  }

  /** The keys of the list lines of the canonical form. */
  ghost predicate ItemKey(d: InfoYml, key: string) {
    || (key == "name" && d.regressionTestsInfo != []) || (key == "id" && d.ruleMetadata != [])
    || exists x :: PlainText(d, x) && KeyOf(x) == key
  }

  /** The canonical form of a document without a clash may have this template, at this column. */
  ghost predicate Stands(d: InfoYml, t: Template, col: nat) {
    Place(d, t) == col && (t.isList ==> ItemKey(d, t.key))
  }

  ghost predicate Right(d: InfoYml, l: Line) {
    Solid(l.text) && TemplateOf(l.text).Some? && Stands(d, TemplateOf(l.text).value, l.col)
  }

  ghost predicate AllRight(d: InfoYml, lines: seq<Line>) { forall l :: l in lines ==> Right(d, l) }

  lemma RightStands(d: InfoYml, lines: seq<Line>, p: Placed)
    requires AllRight(d, lines) && p in YamlLines(Rendered(lines))
    ensures Stands(d, p.template, p.indent)
  {
    hide YamlLines, TemplateOf, Indent, Spaces, Stands, Solid;
    PlacedMeaning(Rendered(lines), p);
    var s :| s in Rendered(lines) && TemplateOf(s) == Some(p.template) && Indent(s) == p.indent;
    var k: nat :| k < |Rendered(lines)| && Rendered(lines)[k] == s;
    assert lines[k] in lines && Right(d, lines[k]);
    RenderedTemplate(lines[k].col, lines[k].text);
  }

  lemma RightMeansOneColumn(d: InfoYml, lines: seq<Line>)
    requires AllRight(d, lines)
    ensures OneColumnEach(YamlLines(Rendered(lines)))
  {
    hide YamlLines, AllRight, Place;
    forall p | p in YamlLines(Rendered(lines)) ensures p.indent == Place(d, p.template) {
      RightStands(d, lines, p);
    }
  }

  lemma KeyRight(d: InfoYml, e: Entry, col: nat)
    requires KeyOk(e.key) && ValueOk(e.value) && Stands(d, Template(e.key, false), col)
    ensures match e.value
            case Scalar(text) => Right(d, Line(col, e.key + ": " + text))
            case List(_) => Right(d, Line(col, e.key + ":"))
  {
    hide TemplateOf, IsListLine, KeyOk, ValueOk, Stands;
    KeyMovable(e);
    match e.value
    case Scalar(text) =>
      KeyTemplate(e.key, " " + text);
      assert e.key + ":" + (" " + text) == e.key + ": " + text;
    case List(_) =>
      KeyTemplate(e.key, "");
      assert e.key + ":" + "" == e.key + ":";
  }

  lemma ItemRight(d: InfoYml, x: string, col: nat)
    requires Itemized(x) && Stands(d, Template(KeyOf(x), true), col)
    ensures Right(d, Line(col, "- " + x))
  {
    hide TemplateOf, Body, Itemized, Trim, BeforeColon, Stands;
    ItemTemplate(x);
    assert ("- " + x)[0] == '-';
  }

  lemma ScalarRight(d: InfoYml, key: string, text: string, col: nat)
    requires KeyOk(key) && Clean(text) && Stands(d, Template(key, false), col)
    ensures AllRight(d, PrintEntry(Entry(key, Scalar(text)), col, 4))
  {
    hide KeyOk, Clean, Stands, Right;
    KeyRight(d, Entry(key, Scalar(text)), col);
  }

  lemma {:induction false} TextsRight(d: InfoYml, texts: seq<string>)
    requires forall x :: x in texts ==> Itemized(x) && Stands(d, Template(KeyOf(x), true), 10)
    ensures AllRight(d, PrintItems(Texts(texts), 10, 4))
  {
    hide Itemized, KeyOf, Stands, Right;
    if texts != [] {
      var x := texts[0];
      assert x in texts;
      TextsRight(d, texts[1..]);
      ItemRight(d, x, 10);
      assert Texts(texts)[0] == Plain(x) && Texts(texts)[1..] == Texts(texts[1..]);
    }
  }

  lemma OptionalRight(d: InfoYml, key: string, texts: Option<seq<string>>)
    requires KeyOk(key) && TextsOk(texts) && Stands(d, Template(key, false), 6)
    requires forall x :: IsText(texts, x) ==> Itemized(x) && Stands(d, Template(KeyOf(x), true), 10)
    ensures AllRight(d, PrintEntries(OptionalList(key, texts), 6, 4))
  {
    hide KeyOk, Itemized, KeyOf, Stands, Right, TextsOk, ValueOk;
    if texts.Some? {
      var e := Entry(key, ListOf(Texts(texts.value)));
      TextsAreOk(texts.value);
      KeyRight(d, e, 6);
      if texts.value != [] {
        forall x | x in texts.value ensures Itemized(x) && Stands(d, Template(KeyOf(x), true), 10) {
          assert IsText(texts, x);
        }
        TextsRight(d, texts.value);
      }
      assert PrintEntries([e], 6, 4) == PrintEntry(e, 6, 4);
    }
  }

  lemma {:induction false} EntriesConcat(a: seq<Entry>, b: seq<Entry>, col: nat, off: nat)
    ensures PrintEntries(a + b, col, off) == PrintEntries(a, col, off) + PrintEntries(b, col, off)
  {
    hide PrintEntry;
    if a == [] {
      assert a + b == b;
    } else {
      assert (a + b)[1..] == a[1..] + b;
      EntriesConcat(a[1..], b, col, off);
    }
  }

  lemma RightConcat(d: InfoYml, a: seq<Entry>, b: seq<Entry>, col: nat)
    requires AllRight(d, PrintEntries(a, col, 4)) && AllRight(d, PrintEntries(b, col, 4))
    ensures AllRight(d, PrintEntries(a + b, col, 4))
  {
    hide Right, PrintEntries;
    EntriesConcat(a, b, col, 4);
  }

  lemma OneEntry(e: Entry, col: nat, off: nat)
    ensures PrintEntries([e], col, off) == PrintEntry(e, col, off)
  {
    assert [e][1..] == [];
  }

  /** A block moves its first line to the dash. */
  lemma BlockRight(d: InfoYml, key: string, text: string, rest: seq<Entry>)
    requires KeyOk(key) && Clean(text) && Stands(d, Template(key, true), 4)
    requires AllRight(d, PrintEntries(rest, 6, 4))
    ensures AllRight(d, PrintItem(Block([Entry(key, Scalar(text))] + rest), 4, 4))
  {
    var e := Entry(key, Scalar(text));
    DashKey(key, text);
    hide Stands, Right, KeyOk, Clean, PrintEntries, KeyOf;
    EntriesConcat([e], rest, 6, 4);
    OneEntry(e, 6, 4);
    ItemRight(d, key + ": " + text, 4);
  }

  lemma DashKey(key: string, text: string)
    requires KeyOk(key)
    ensures Itemized(key + ": " + text) && KeyOf(key + ": " + text) == key
  {
    assert key[0] in key && (key + ": " + text)[0] == key[0];
    NothingToTrim(key);
    assert key + ": " + text == key + (": " + text);
    BeforeTail(key, ": " + text);
    hide Trim, BeforeColon;
  }

  lemma TestRight(d: InfoYml, t: RegressionTestInfo)
    requires TestOk(t) && d.regressionTestsInfo != []
    requires forall x ::
               IsText(t.pipelines, x) || IsText(t.filters, x)
               ==> Itemized(x) && Stands(d, Template(KeyOf(x), true), 10)
    ensures AllRight(d, PrintItem(Block(TestBlock(t)), 4, 4))
  {
    BlockKeysAreOk();
    BlockPlaces(d);
    hide KeyOk, Stands, Right, Clean, TextsOk, IsText, Itemized, KeyOf,
      PrintEntries, PrintEntry, PrintItem, OptionalList;
    ScalarRight(d, "type", t.testType, 6);
    OneEntry(Entry("type", Scalar(t.testType)), 6, 4);
    ScalarRight(d, "provider", t.provider, 6);
    OneEntry(Entry("provider", Scalar(t.provider)), 6, 4);
    ScalarRight(d, "match_count", t.matchCount, 6);
    OneEntry(Entry("match_count", Scalar(t.matchCount)), 6, 4);
    ScalarRight(d, "path", t.path, 6);
    OneEntry(Entry("path", Scalar(t.path)), 6, 4);
    OptionalRight(d, "pipelines", t.pipelines);
    OptionalRight(d, "filters", t.filters);
    var rest := [Entry("type", Scalar(t.testType))];
    RightConcat(d, rest, [Entry("provider", Scalar(t.provider))], 6);
    rest := rest + [Entry("provider", Scalar(t.provider))];
    RightConcat(d, rest, [Entry("match_count", Scalar(t.matchCount))], 6);
    rest := rest + [Entry("match_count", Scalar(t.matchCount))];
    RightConcat(d, rest, OptionalList("pipelines", t.pipelines), 6);
    rest := rest + OptionalList("pipelines", t.pipelines);
    RightConcat(d, rest, OptionalList("filters", t.filters), 6);
    rest := rest + OptionalList("filters", t.filters);
    RightConcat(d, rest, [Entry("path", Scalar(t.path))], 6);
    rest := rest + [Entry("path", Scalar(t.path))];
    BlockRight(d, "name", t.name, rest);
    assert [Entry("name", Scalar(t.name))] + rest == TestBlock(t);
  }

  lemma BlockPlaces(d: InfoYml)
    ensures forall key :: key in {"title", "type", "provider", "match_count", "pipelines", "filters", "path"}
              ==> Stands(d, Template(key, false), 6)
    ensures d.regressionTestsInfo != [] ==> Stands(d, Template("name", true), 4)
    ensures d.ruleMetadata != [] ==> Stands(d, Template("id", true), 4)
  {
  }

  lemma MetadataRight(d: InfoYml, m: RuleMetadata)
    requires Clean(m.id) && Clean(m.title) && d.ruleMetadata != []
    ensures AllRight(d, PrintItem(Block(MetadataBlock(m)), 4, 4))
  {
    BlockKeysAreOk();
    BlockPlaces(d);
    hide KeyOk, Stands, Right, Clean, PrintEntries, PrintEntry, PrintItem;
    var rest := [Entry("title", Scalar(m.title))];
    ScalarRight(d, "title", m.title, 6);
    OneEntry(rest[0], 6, 4);
    BlockRight(d, "id", m.id, rest);
    assert [Entry("id", Scalar(m.id))] + rest == MetadataBlock(m);
  }

  lemma {:induction false} ItemsRight(d: InfoYml, items: seq<Item>)
    requires forall i :: i in items ==> AllRight(d, PrintItem(i, 4, 4))
    ensures AllRight(d, PrintItems(items, 4, 4))
  {
    hide PrintItem, Right;
    if items != [] {
      assert items[0] in items;
      ItemsRight(d, items[1..]);
    }
  }

  lemma ListRight(d: InfoYml, key: string, items: seq<Item>)
    requires KeyOk(key) && ValueOk(ListOf(items)) && Stands(d, Template(key, false), 0)
    requires forall i :: i in items ==> AllRight(d, PrintItem(i, 4, 4))
    ensures AllRight(d, PrintEntry(Entry(key, ListOf(items)), 0, 4))
  {
    hide KeyOk, Stands, Right, ValueOk, PrintItems, AllRight;
    KeyRight(d, Entry(key, ListOf(items)), 0);
    ItemsRight(d, items);
    if items == [] {
      JustRight(d, Line(0, key + ": " + "[]"));
    } else {
      MoreRight(d, Line(0, key + ":"), PrintItems(items, 4, 4));
    }
  }

  lemma JustRight(d: InfoYml, l: Line)
    requires Right(d, l)
    ensures AllRight(d, [l])
  {
  }

  lemma MoreRight(d: InfoYml, l: Line, lines: seq<Line>)
    requires Right(d, l) && AllRight(d, lines)
    ensures AllRight(d, [l] + lines)
  {
  }

  lemma TopPlaces(d: InfoYml)
    ensures forall key :: key in {"id", "description", "date", "author", "rule_metadata", "regression_tests_info"}
              ==> Stands(d, Template(key, false), 0)
  {
  }

  lemma ListsRight(d: InfoYml)
    requires OneLineScalars(d) && TextsItemized(d) && NoClash(d)
    ensures AllRight(d, PrintEntry(Entry("rule_metadata", ListOf(MetadataItems(d))), 0, 4))
    ensures AllRight(d, PrintEntry(Entry("regression_tests_info", ListOf(TestItems(d))), 0, 4))
  {
    EntriesAreOk(d);
    assert Entries(d)[4] in Entries(d) && Entries(d)[5] in Entries(d);
    assert ValueOk(ListOf(MetadataItems(d))) && ValueOk(ListOf(TestItems(d)));
    TopKeysAreOk();
    TopPlaces(d);
    hide KeyOk, Stands, Right, Clean, ValueOk, TestBlock, MetadataBlock, PrintItem, PrintEntry,
      Itemized, KeyOf, TestOk, IsText, AllRight;
    forall i | i in MetadataItems(d) ensures AllRight(d, PrintItem(i, 4, 4)) {
      var k: nat :| k < |d.ruleMetadata| && Block(MetadataBlock(d.ruleMetadata[k])) == i;
      assert d.ruleMetadata[k] in d.ruleMetadata;
      MetadataRight(d, d.ruleMetadata[k]);
    }
    forall i | i in TestItems(d) ensures AllRight(d, PrintItem(i, 4, 4)) {
      var k: nat :| k < |d.regressionTestsInfo| && Block(TestBlock(d.regressionTestsInfo[k])) == i;
      assert d.regressionTestsInfo[k] in d.regressionTestsInfo;
      TextPlaces(d, d.regressionTestsInfo[k]);
      TestRight(d, d.regressionTestsInfo[k]);
    }
    ListRight(d, "rule_metadata", MetadataItems(d));
    ListRight(d, "regression_tests_info", TestItems(d));
  }

  lemma TextPlaces(d: InfoYml, t: RegressionTestInfo)
    requires TextsItemized(d) && NoClash(d) && t in d.regressionTestsInfo
    ensures forall x ::
              IsText(t.pipelines, x) || IsText(t.filters, x)
              ==> Itemized(x) && Stands(d, Template(KeyOf(x), true), 10)
  {
    hide IsText, Itemized, KeyOf;
    forall x | IsText(t.pipelines, x) || IsText(t.filters, x)
      ensures Itemized(x) && Stands(d, Template(KeyOf(x), true), 10)
    {
      assert PlainText(d, x);
    }
  }

  lemma DocumentRight(d: InfoYml)
    requires OneLineScalars(d) && TextsItemized(d) && NoClash(d)
    ensures AllRight(d, PrintEntries(Entries(d), 0, 4))
  {
    TopKeysAreOk();
    TopPlaces(d);
    ListsRight(d);
    hide KeyOk, Stands, Right, Clean, TextsItemized, NoClash, PrintEntries, PrintEntry, ListOf, MetadataItems,
      TestItems;
    ScalarRight(d, "id", d.id, 0);
    OneEntry(Entry("id", Scalar(d.id)), 0, 4);
    ScalarRight(d, "description", d.description, 0);
    OneEntry(Entry("description", Scalar(d.description)), 0, 4);
    ScalarRight(d, "date", d.date, 0);
    OneEntry(Entry("date", Scalar(d.date)), 0, 4);
    ScalarRight(d, "author", d.author, 0);
    OneEntry(Entry("author", Scalar(d.author)), 0, 4);
    OneEntry(Entry("rule_metadata", ListOf(MetadataItems(d))), 0, 4);
    OneEntry(Entry("regression_tests_info", ListOf(TestItems(d))), 0, 4);
    var es := [Entry("id", Scalar(d.id))];
    RightConcat(d, es, [Entry("description", Scalar(d.description))], 0);
    es := es + [Entry("description", Scalar(d.description))];
    RightConcat(d, es, [Entry("date", Scalar(d.date))], 0);
    es := es + [Entry("date", Scalar(d.date))];
    RightConcat(d, es, [Entry("author", Scalar(d.author))], 0);
    es := es + [Entry("author", Scalar(d.author))];
    RightConcat(d, es, [Entry("rule_metadata", ListOf(MetadataItems(d)))], 0);
    es := es + [Entry("rule_metadata", ListOf(MetadataItems(d)))];
    RightConcat(d, es, [Entry("regression_tests_info", ListOf(TestItems(d)))], 0);
    es := es + [Entry("regression_tests_info", ListOf(TestItems(d)))];
    assert es == Entries(d);
  }

  // ----- A clash is visible -----

  lemma {:induction false} InEntries(es: seq<Entry>, e: Entry, l: Line, col: nat, off: nat)
    requires e in es && l in PrintEntry(e, col, off)
    ensures l in PrintEntries(es, col, off)
  {
    hide PrintEntry;
    if es[0] != e {
      InEntries(es[1..], e, l, col, off);
    }
  }

  lemma {:induction false} InItems(items: seq<Item>, i: Item, l: Line, col: nat, off: nat)
    requires i in items && l in PrintItem(i, col, off)
    ensures l in PrintItems(items, col, off)
  {
    hide PrintItem;
    if items[0] != i {
      InItems(items[1..], i, l, col, off);
    }
  }

  /** A line of an item of one of the two top lists is a line of the document. */
  lemma InDocument(d: InfoYml, e: Entry, items: seq<Item>, i: Item, l: Line)
    requires e in Entries(d) && e.value == ListOf(items) && i in items && l in PrintItem(i, 4, 4)
    ensures l in PrintEntries(Entries(d), 0, 4)
  {
    hide PrintItem, Entries, PrintEntries;
    InItems(items, i, l, 4, 4);
    InEntries(Entries(d), e, l, 0, 4);
  }

  lemma BlockFirst(key: string, text: string, rest: seq<Entry>)
    ensures Line(4, "- " + (key + ": " + text)) in PrintItem(Block([Entry(key, Scalar(text))] + rest), 4, 4)
  {
    var e := Entry(key, Scalar(text));
    hide PrintEntries;
    EntriesConcat([e], rest, 6, 4);
    OneEntry(e, 6, 4);
    assert PrintItem(Block([e] + rest), 4, 4)[0] == Line(4, "- " + (key + ": " + text));
  }

  /** A text of a test entry is printed at column 10. */
  lemma TextLine(t: RegressionTestInfo, x: string)
    requires IsText(t.pipelines, x) || IsText(t.filters, x)
    ensures Line(10, "- " + x) in PrintItem(Block(TestBlock(t)), 4, 4)
  {
    var key, texts := "pipelines", t.pipelines;
    if !IsText(t.pipelines, x) {
      key, texts := "filters", t.filters;
    }
    var e := Entry(key, ListOf(Texts(texts.value)));
    var k: nat :| k < |texts.value| && texts.value[k] == x;
    assert Texts(texts.value)[k] == Plain(x);
    hide PrintEntries, PrintItems, IsText;
    InItems(Texts(texts.value), Plain(x), Line(10, "- " + x), 10, 4);
    assert Line(10, "- " + x) in PrintEntry(e, 6, 4);
    assert OptionalList(key, texts) == [e] && e in OptionalList(key, texts);
    var rest := TestBlock(t)[1..];
    ListInBlock(t, e);
    InEntries(rest, e, Line(10, "- " + x), 6, 4);
    RestLines(Entry("name", Scalar(t.name)), rest, Line(10, "- " + x));
    assert [Entry("name", Scalar(t.name))] + rest == TestBlock(t);
  }

  lemma ListInBlock(t: RegressionTestInfo, e: Entry)
    requires e in OptionalList("pipelines", t.pipelines) || e in OptionalList("filters", t.filters)
    ensures e in TestBlock(t)[1..]
  {
    hide OptionalList;
    var a := [Entry("type", Scalar(t.testType)), Entry("provider", Scalar(t.provider)),
              Entry("match_count", Scalar(t.matchCount))];
    assert TestBlock(t)[1..]
        == a + OptionalList("pipelines", t.pipelines) + OptionalList("filters", t.filters)
          + [Entry("path", Scalar(t.path))];
  }

  lemma RestLines(e: Entry, rest: seq<Entry>, l: Line)
    requires e.value.Scalar? && l in PrintEntries(rest, 6, 4)
    ensures l in PrintItem(Block([e] + rest), 4, 4)
  {
    hide PrintEntries;
    EntriesConcat([e], rest, 6, 4);
    OneEntry(e, 6, 4);
    var lines := PrintEntries(rest, 6, 4);
    assert (PrintEntry(e, 6, 4) + lines)[1..] == lines;
  }

  /** Two lines of a document with one template at two columns. */
  lemma TwoPlaces(lines: seq<Line>, a: Line, b: Line)
    requires a in lines && b in lines && Solid(a.text) && Solid(b.text) && a.col != b.col
    requires TemplateOf(a.text).Some? && TemplateOf(a.text) == TemplateOf(b.text)
    ensures !OneColumnEach(YamlLines(Rendered(lines)))
  {
    hide YamlLines, TemplateOf, Indent, Spaces, Solid;
    var t := TemplateOf(a.text).value;
    PlacedHere(lines, a);
    PlacedHere(lines, b);
    TwoColumns(YamlLines(Rendered(lines)), t, a.col, b.col);
  }

  lemma PlacedHere(lines: seq<Line>, l: Line)
    requires l in lines && Solid(l.text) && TemplateOf(l.text).Some?
    ensures Placed(TemplateOf(l.text).value, l.col) in YamlLines(Rendered(lines))
  {
    hide YamlLines, TemplateOf, Indent, Spaces, Solid;
    RenderedTemplate(l.col, l.text);
    var k: nat :| k < |lines| && lines[k] == l;
    assert Rendered(lines)[k] in Rendered(lines);
    PlacedMeaning(Rendered(lines), Placed(TemplateOf(l.text).value, l.col));
  }

  /** A pipeline or filter is a line of the document, at column 10. */
  lemma TextInDocument(d: InfoYml, t: RegressionTestInfo, x: string)
    requires t in d.regressionTestsInfo && (IsText(t.pipelines, x) || IsText(t.filters, x))
    ensures Line(10, "- " + x) in PrintEntries(Entries(d), 0, 4)
  {
    var tests := Entries(d)[5];
    assert tests in Entries(d);
    hide IsText, TestBlock, PrintEntries, PrintItem;
    var k: nat :| k < |d.regressionTestsInfo| && d.regressionTestsInfo[k] == t;
    assert TestItems(d)[k] == Block(TestBlock(t));
    TextLine(t, x);
    InDocument(d, tests, TestItems(d), Block(TestBlock(t)), Line(10, "- " + x));
  }

  /** The first line of a test entry, or of a rule entry, stands at column 4. */
  lemma FirstInDocument(d: InfoYml, key: string) returns (text: string)
    requires (key == "name" && d.regressionTestsInfo != []) || (key == "id" && d.ruleMetadata != [])
    ensures Line(4, "- " + (key + ": " + text)) in PrintEntries(Entries(d), 0, 4) && KeyOk(key)
  {
    BlockKeysAreOk();
    var tests, rules := Entries(d)[5], Entries(d)[4];
    assert tests in Entries(d) && rules in Entries(d);
    hide KeyOk, TestBlock, MetadataBlock, PrintEntries, PrintItem;
    if key == "name" {
      var t := d.regressionTestsInfo[0];
      text := t.name;
      assert TestItems(d)[0] == Block(TestBlock(t));
      NameFirst(t);
      InDocument(d, tests, TestItems(d), Block(TestBlock(t)), Line(4, "- " + ("name" + ": " + text)));
    } else {
      var m := d.ruleMetadata[0];
      text := m.id;
      assert MetadataItems(d)[0] == Block(MetadataBlock(m));
      IdFirst(m);
      InDocument(d, rules, MetadataItems(d), Block(MetadataBlock(m)), Line(4, "- " + ("id" + ": " + text)));
    }
  }

  lemma ClashShows(d: InfoYml, t: RegressionTestInfo, x: string)
    requires t in d.regressionTestsInfo && (IsText(t.pipelines, x) || IsText(t.filters, x)) && Itemized(x)
    requires KeyOf(x) == "name" || (KeyOf(x) == "id" && d.ruleMetadata != [])
    ensures !OneColumnEach(YamlLines(Rendered(PrintEntries(Entries(d), 0, 4))))
  {
    hide *;
    var text := FirstInDocument(d, KeyOf(x));
    TextInDocument(d, t, x);
    DashKey(KeyOf(x), text);
    SameTemplate(KeyOf(x) + ": " + text, x);
    TwoPlaces(PrintEntries(Entries(d), 0, 4), Line(4, "- " + (KeyOf(x) + ": " + text)), Line(10, "- " + x));
  }

  /** Every item key has its list line in the document. */
  lemma ItemKeyHasLine(d: InfoYml, key: string) returns (l: Line)
    requires TextsItemized(d) && ItemKey(d, key)
    ensures l in PrintEntries(Entries(d), 0, 4) && Solid(l.text) && TemplateOf(l.text) == Some(Template(key, true))
  {
    hide PrintEntries, Entries, TemplateOf, Body, Itemized, Solid, KeyOk, IsText, KeyOf;
    if (key == "name" && d.regressionTestsInfo != []) || (key == "id" && d.ruleMetadata != []) {
      var text := FirstInDocument(d, key);
      DashKey(key, text);
      SameTemplate(key + ": " + text, key + ": " + text);
      l := Line(4, "- " + (key + ": " + text));
      ListTemplate(key + ": " + text);
    } else {
      var x :| PlainText(d, x) && KeyOf(x) == key;
      var t :| t in d.regressionTestsInfo && (IsText(t.pipelines, x) || IsText(t.filters, x));
      TextInDocument(d, t, x);
      SameTemplate(x, x);
      l := Line(10, "- " + x);
      ListTemplate(x);
    }
  }

  lemma ListTemplate(x: string)
    requires Itemized(x)
    ensures TemplateOf("- " + x) == Some(Template(KeyOf(x), true))
  {
    hide TemplateOf, Trim, BeforeColon, Itemized;
    ItemTemplate(x);
  }

  lemma NameFirst(t: RegressionTestInfo)
    ensures Line(4, "- " + ("name" + ": " + t.name)) in PrintItem(Block(TestBlock(t)), 4, 4)
  {
    hide PrintItem;
    BlockFirst("name", t.name, TestBlock(t)[1..]);
    assert [Entry("name", Scalar(t.name))] + TestBlock(t)[1..] == TestBlock(t);
  }

  lemma IdFirst(m: RuleMetadata)
    ensures Line(4, "- " + ("id" + ": " + m.id)) in PrintItem(Block(MetadataBlock(m)), 4, 4)
  {
    hide PrintItem;
    BlockFirst("id", m.id, MetadataBlock(m)[1..]);
    assert [Entry("id", Scalar(m.id))] + MetadataBlock(m)[1..] == MetadataBlock(m);
  }

  lemma SameTemplate(x: string, y: string)
    requires Itemized(x) && Itemized(y) && KeyOf(x) == KeyOf(y)
    ensures TemplateOf("- " + x).Some? && TemplateOf("- " + x) == TemplateOf("- " + y)
    ensures Solid("- " + x) && Solid("- " + y)
  {
    ItemTemplate(x);
    ItemTemplate(y);
    assert ("- " + x)[0] == '-' && ("- " + y)[0] == '-';
    hide TemplateOf, Body, Trim, BeforeColon;
  }

  // ----- The main results -----

  /**
   The canonical form of an info document needs no fixing exactly when no
   pipeline or filter is keyed like the first line of a test or rule entry.
   */
  lemma CanonicalIsStableUnlessClash(d: InfoYml)
    requires OneLineScalars(d) && TextsItemized(d)
    ensures !NeedsReindent(CanonicalYaml(d), CanonicalYaml(d)) <==> NoClash(d)
    ensures OneColumnEach(YamlLines(Rendered(PrintEntries(Entries(d), 0, 4)))) <==> NoClash(d)
  {
    hide NeedsReindent, YamlLines, PrintEntries, Entries, TextAt, CanonicalYaml, LinesOf, KeyOf, IsText, OneColumnEach,
      EntriesOk, Rendered, OneLineScalars, LfText, JoinLines, Itemized;
    var es := Entries(d);
    EntriesAreOk(d);
    CanonicalText(d);
    ReadBackLines(es, 4);
    CanonicalIsStable(CanonicalYaml(d));
    if NoClash(d) {
      DocumentRight(d);
      RightMeansOneColumn(d, PrintEntries(es, 0, 4));
    } else {
      var x :| PlainText(d, x) && (KeyOf(x) == "name" || (KeyOf(x) == "id" && d.ruleMetadata != []));
      var t :| t in d.regressionTestsInfo && (IsText(t.pipelines, x) || IsText(t.filters, x));
      ClashShows(d, t, x);
    }
  }

  /** Without a clash, one pass over an info document at any list offset gives its canonical text. */
  lemma InfoReachesCanonical(d: InfoYml, off: nat)
    requires OneLineScalars(d) && TextsItemized(d) && NoClash(d)
    ensures Fixed(TextAt(Entries(d), off) + "\n", CanonicalYaml(d)) == CanonicalYaml(d) + "\n"
  {
    hide *;
    CanonicalText(d);
    CanonicalIsStableUnlessClash(d);
    EntriesAreOk(d);
    InfoIsPlain(d);
    FixerReachesCanonical(Entries(d), off);
  }

  lemma InfoIsPlain(d: InfoYml)
    requires TextsItemized(d)
    ensures EntriesPlain(Entries(d))
  {
    hide Itemized, IsText, TestBlock, MetadataBlock;
    forall i | i in MetadataItems(d) ensures ItemPlain(i) {
      var k: nat :| k < |d.ruleMetadata| && Block(MetadataBlock(d.ruleMetadata[k])) == i;
      RulePlain(d.ruleMetadata[k]);
    }
    forall i | i in TestItems(d) ensures ItemPlain(i) {
      var k: nat :| k < |d.regressionTestsInfo| && Block(TestBlock(d.regressionTestsInfo[k])) == i;
      var t := d.regressionTestsInfo[k];
      assert t in d.regressionTestsInfo;
      forall x | IsText(t.pipelines, x) || IsText(t.filters, x) ensures Itemized(x) {
        assert PlainText(d, x);
      }
      TestPlain(t);
    }
    hide ItemPlain;
  }

  lemma RulePlain(m: RuleMetadata)
    ensures ItemPlain(Block(MetadataBlock(m)))
  {
  }

  lemma TestPlain(t: RegressionTestInfo)
    requires forall x :: IsText(t.pipelines, x) || IsText(t.filters, x) ==> Itemized(x)
    ensures ItemPlain(Block(TestBlock(t)))
  {
    hide Itemized;
    OptionalPlain("pipelines", t.pipelines);
    OptionalPlain("filters", t.filters);
    hide OptionalList;
  }

  lemma OptionalPlain(key: string, texts: Option<seq<string>>)
    requires forall x :: IsText(texts, x) ==> Itemized(x)
    ensures EntriesPlain(OptionalList(key, texts))
  {
    hide Itemized;
    if texts.Some? {
      forall i | i in Texts(texts.value) ensures ItemPlain(i) {
        var k: nat :| k < |texts.value| && Plain(texts.value[k]) == i;
        assert IsText(texts, texts.value[k]);
      }
    }
  }

  /** With a clash the fixer rewrites even the canonical file. */
  lemma ClashIsRewritten(d: InfoYml)
    requires OneLineScalars(d) && TextsItemized(d) && !NoClash(d)
    ensures Fixed(CanonicalYaml(d) + "\n", CanonicalYaml(d)) != CanonicalYaml(d) + "\n"
  {
    var es, canonical := Entries(d), CanonicalYaml(d);
    CanonicalIsStableUnlessClash(d);
    EntriesAreOk(d);
    assert es[0] == Entry("id", Scalar(d.id));
    ReadBackLines(es, 4);
    assert canonical == TextAt(es, 4);
    hide NeedsReindent, YamlLines, PrintEntries, Entries, TextAt, CanonicalYaml, LinesOf, EntriesOk, Written, AllKnown;
    TrimmedIsSame(canonical + "\n");
    SameNeed(canonical);
    EveryLineKnown(canonical);
    RewriteSettles(canonical + "\n", canonical);
  }

  lemma SameNeed(canonical: string)
    requires LinesOf(canonical + "\n") == LinesOf(canonical)
    requires YamlLines(LinesOf(TrimNewlines(canonical + "\n"))) == YamlLines(LinesOf(canonical + "\n"))
    ensures NeedsReindent(TrimNewlines(canonical + "\n"), canonical) == NeedsReindent(canonical, canonical)
  {
    hide LinesOf, YamlLines, TrimNewlines;
  }

  lemma EveryLineKnown(canonical: string)
    requires LinesOf(canonical + "\n") == LinesOf(canonical)
    ensures AllKnown(canonical + "\n", canonical)
  {
    hide LinesOf, YamlLines, TemplateOf, Indent, CanonicalIndent;
    forall l | l in LinesOf(canonical) && TemplateOf(l).Some?
      ensures CanonicalIndent(YamlLines(LinesOf(canonical)), TemplateOf(l).value).Some?
    {
      var p := Placed(TemplateOf(l).value, Indent(l));
      PlacedMeaning(LinesOf(canonical), p);
      FirstPlace(YamlLines(LinesOf(canonical)), p.template);
    }
  }

  /** A document with a pipeline called `name`. */
  function Clashing(): InfoYml {
    InfoYml("x", "x", "x", "x", [RuleMetadata("x", "x")],
            [RegressionTestInfo("x", "x", "x", "x", Some(["name"]), None, "x")])
  }

  /** So there is a document whose canonical file the fixer rewrites. */
  lemma ClashOccurs()
    ensures OneLineScalars(Clashing()) && TextsItemized(Clashing()) && !NoClash(Clashing())
    ensures NeedsReindent(CanonicalYaml(Clashing()), CanonicalYaml(Clashing()))
    ensures Fixed(CanonicalYaml(Clashing()) + "\n", CanonicalYaml(Clashing())) != CanonicalYaml(Clashing()) + "\n"
  {
    hide *;
    ClashingScalars();
    ClashingClashes();
    CanonicalIsStableUnlessClash(Clashing());
    ClashIsRewritten(Clashing());
  }

  lemma ClashingScalars()
    ensures OneLineScalars(Clashing())
  {
    var d := Clashing();
    NameHasNoColon();
    hide Split, KeyOf, Itemized;
    assert Clean("x") && Clean("name");
    hide Clean;
    ClashingTest(d.regressionTestsInfo[0]);
    hide TestOk;
  }

  lemma ClashingTest(t: RegressionTestInfo)
    requires t == RegressionTestInfo("x", "x", "x", "x", Some(["name"]), None, "x")
    requires Clean("x") && Clean("name") && Split("name") == NoKey
    ensures TestOk(t)
  {
    hide Clean, Split;
  }

  lemma ClashingClashes()
    ensures TextsItemized(Clashing()) && !NoClash(Clashing())
  {
    var d := Clashing();
    var t := d.regressionTestsInfo[0];
    NameHasNoColon();
    hide KeyOf, Itemized;
    assert t in d.regressionTestsInfo && IsText(t.pipelines, "name") && PlainText(d, "name");
    assert forall x :: PlainText(d, x) ==> x == "name";
  }

  lemma NameHasNoColon()
    ensures KeyOf("name") == "name" && Split("name") == NoKey && Itemized("name")
  {
    hide Split, KeyOf;
    NameKey();
    ColonFree("name");
  }

  lemma NameKey()
    ensures KeyOf("name") == "name"
  {
    hide ColonAt, BeforeColon, Trim;
    var key := "name";
    BeforeTail(key, "");
    assert key + "" == key;
    NothingToTrim(key);
  }

  /** Text without a colon is no key. */
  lemma ColonFree(s: string)
    requires ':' !in s
    ensures Split(s) == NoKey
  {
    NoColonAt(s);
  }

  lemma {:induction false} NoColonAt(s: string)
    requires ':' !in s
    ensures ColonAt(s) == |s|
  {
    if s != "" {
      NoColonAt(s[1..]);
    }
  }

  lemma CanonicalText(d: InfoYml)
    ensures CanonicalYaml(d) == TextAt(Entries(d), 4) && Entries(d) != []
  {
  }
}
