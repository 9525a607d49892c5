/**
 Info documents: their serialized and canonical forms, and what re-indentation
 does to them.
 */
module InfoYml {
  import opened Options
  import opened YamlText
  import opened YamlBlocks
  import opened SigmaIndent

  /** Fields hold their serialized scalars. */
  datatype RuleMetadata = RuleMetadata(id: string, title: string)

  datatype RegressionTestInfo = RegressionTestInfo(
    name: string, testType: string, provider: string, matchCount: string,
    pipelines: Option<seq<string>>, filters: Option<seq<string>>, path: string)

  datatype InfoYml = InfoYml(
    id: string, description: string, date: string, author: string,
    ruleMetadata: seq<RuleMetadata>, regressionTestsInfo: seq<RegressionTestInfo>)

  /** An empty list is written inline. */
  function ListOf(items: seq<Item>): Value {
    if items == [] then Scalar("[]") else List(items)
  }

  function Texts(texts: seq<string>): seq<Item> {
    seq(|texts|, i requires 0 <= i < |texts| => Plain(texts[i]))
  }

  function OptionalList(key: string, texts: Option<seq<string>>): seq<Entry> {
    match texts case None => [] case Some(ts) => [Entry(key, ListOf(Texts(ts)))]
  }

  function MetadataBlock(m: RuleMetadata): seq<Entry> {
    [Entry("id", Scalar(m.id)), Entry("title", Scalar(m.title))]
  }

  function TestBlock(t: RegressionTestInfo): seq<Entry> {
    [Entry("name", Scalar(t.name)), Entry("type", Scalar(t.testType)), Entry("provider", Scalar(t.provider)),
     Entry("match_count", Scalar(t.matchCount))]
    + OptionalList("pipelines", t.pipelines) + OptionalList("filters", t.filters)
    + [Entry("path", Scalar(t.path))]
  }

  function MetadataItems(d: InfoYml): seq<Item> {
    seq(|d.ruleMetadata|, i requires 0 <= i < |d.ruleMetadata| => Block(MetadataBlock(d.ruleMetadata[i])))
  }

  function TestItems(d: InfoYml): seq<Item> {
    seq(|d.regressionTestsInfo|, i requires 0 <= i < |d.regressionTestsInfo| =>
      Block(TestBlock(d.regressionTestsInfo[i])))
  }

  function Entries(d: InfoYml): seq<Entry> {
    [Entry("id", Scalar(d.id)), Entry("description", Scalar(d.description)), Entry("date", Scalar(d.date)),
     Entry("author", Scalar(d.author)),
     Entry("rule_metadata", ListOf(MetadataItems(d))), Entry("regression_tests_info", ListOf(TestItems(d)))]
  }

  /** One line, and as a list item not mistaken for a key. */
  predicate TextsOk(texts: Option<seq<string>>) {
    texts.Some? ==> forall t :: t in texts.value ==> Clean(t) && Split(t) == NoKey
  }

  predicate TestOk(t: RegressionTestInfo) {
    && Clean(t.name) && Clean(t.testType) && Clean(t.provider) && Clean(t.matchCount) && Clean(t.path)
    && TextsOk(t.pipelines) && TextsOk(t.filters)
  }

  predicate OneLineScalars(d: InfoYml) {
    && Clean(d.id) && Clean(d.description) && Clean(d.date) && Clean(d.author)
    && (forall m :: m in d.ruleMetadata ==> Clean(m.id) && Clean(m.title))
    && (forall t :: t in d.regressionTestsInfo ==> TestOk(t))
  }

  /** Serialized form: list items at their key's column, every line ended. */
  function SerdeYaml(d: InfoYml): string {
    JoinLines(Rendered(PrintEntries(Entries(d), 0, 0))) + "\n"
  }

  /** Canonical form: list items four columns under their key, the item's keys two further. */
  function CanonicalYaml(d: InfoYml): string {
    JoinLines(Rendered(PrintEntries(Entries(d), 0, 4)))
  }

  function ReadYaml(text: string): Read<Entry> {
    ReadEntries(ParseLines(LinesOf(text)), 0)
  }

  /** Lower-case letters and underscores make a key. */
  lemma Keyword(key: string)
    requires key != "" && forall i :: 0 <= i < |key| ==> 'a' <= key[i] <= 'z' || key[i] == '_'
    ensures KeyOk(key)
  {
  }

  lemma TopKeysAreOk()
    ensures KeyOk("id") && KeyOk("description") && KeyOk("date") && KeyOk("author")
    ensures KeyOk("rule_metadata") && KeyOk("regression_tests_info")
  {
    hide KeyOk;
    Keyword("id");
    Keyword("description");
    Keyword("date");
    Keyword("author");
    Keyword("rule_metadata");
    Keyword("regression_tests_info");
  }

  lemma BlockKeysAreOk()
    ensures KeyOk("id") && KeyOk("title") && KeyOk("name") && KeyOk("type") && KeyOk("provider")
    ensures KeyOk("match_count") && KeyOk("pipelines") && KeyOk("filters") && KeyOk("path")
  {
    hide KeyOk;
    Keyword("id");
    Keyword("title");
    Keyword("name");
    Keyword("type");
    Keyword("provider");
    Keyword("match_count");
    Keyword("pipelines");
    Keyword("filters");
    Keyword("path");
  }

  lemma TextsAreOk(texts: seq<string>)
    requires TextsOk(Some(texts))
    ensures ValueOk(ListOf(Texts(texts))) && forall i :: i in Texts(texts) ==> i.Plain?
  {
    hide Split;
    forall i | i in Texts(texts) ensures ItemOk(i) && i.Plain? {
      var k: nat :| k < |texts| && Plain(texts[k]) == i;
      assert texts[k] in texts;
    }
    if texts == [] {
      assert Clean("[]");
    }
  }

  lemma TextListIsOk(key: string, texts: Option<seq<string>>)
    requires TextsOk(texts) && KeyOk(key)
    ensures EntriesOk(OptionalList(key, texts)) && Flat(OptionalList(key, texts))
  {
    hide KeyOk, TextsOk, ValueOk;
    if texts.Some? {
      TextsAreOk(texts.value);
    }
  }

  lemma ScalarEntry(key: string, text: string)
    requires KeyOk(key) && Clean(text)
    ensures EntriesOk([Entry(key, Scalar(text))]) && Flat([Entry(key, Scalar(text))])
  {
    hide KeyOk, Clean;
  }

  lemma BothOk(a: seq<Entry>, b: seq<Entry>)
    requires EntriesOk(a) && Flat(a) && EntriesOk(b) && Flat(b)
    ensures EntriesOk(a + b) && Flat(a + b)
  {
    hide KeyOk, ValueOk;
  }

  lemma TestBlockIsOk(t: RegressionTestInfo)
    requires TestOk(t)
    ensures ItemOk(Block(TestBlock(t))) && FlatItem(Block(TestBlock(t)))
  {
    hide KeyOk, TextsOk, OptionalList, Clean, EntriesOk, Flat;
    BlockKeysAreOk();
    TextListIsOk("pipelines", t.pipelines);
    TextListIsOk("filters", t.filters);
    ScalarEntry("name", t.name);
    ScalarEntry("type", t.testType);
    ScalarEntry("provider", t.provider);
    ScalarEntry("match_count", t.matchCount);
    ScalarEntry("path", t.path);
    var es := [Entry("name", Scalar(t.name))];
    BothOk(es, [Entry("type", Scalar(t.testType))]);
    es := es + [Entry("type", Scalar(t.testType))];
    BothOk(es, [Entry("provider", Scalar(t.provider))]);
    es := es + [Entry("provider", Scalar(t.provider))];
    BothOk(es, [Entry("match_count", Scalar(t.matchCount))]);
    es := es + [Entry("match_count", Scalar(t.matchCount))];
    BothOk(es, OptionalList("pipelines", t.pipelines));
    es := es + OptionalList("pipelines", t.pipelines);
    BothOk(es, OptionalList("filters", t.filters));
    es := es + OptionalList("filters", t.filters);
    BothOk(es, [Entry("path", Scalar(t.path))]);
    es := es + [Entry("path", Scalar(t.path))];
    assert es == TestBlock(t);
    assert es[0] == Entry("name", Scalar(t.name));
  }

  lemma MetadataBlockIsOk(m: RuleMetadata)
    requires Clean(m.id) && Clean(m.title)
    ensures ItemOk(Block(MetadataBlock(m))) && FlatItem(Block(MetadataBlock(m)))
  {
    hide KeyOk, Clean, EntriesOk, Flat;
    BlockKeysAreOk();
    ScalarEntry("id", m.id);
    ScalarEntry("title", m.title);
    BothOk([Entry("id", Scalar(m.id))], [Entry("title", Scalar(m.title))]);
    assert [Entry("id", Scalar(m.id))] + [Entry("title", Scalar(m.title))] == MetadataBlock(m);
  }

  lemma ListOfIsOk(items: seq<Item>)
    requires forall i :: i in items ==> ItemOk(i) && FlatItem(i)
    ensures ValueOk(ListOf(items)) && (ListOf(items).List? ==> forall i :: i in ListOf(items).items ==> FlatItem(i))
  {
    assert Clean("[]");
  }

  lemma EntriesAreOk(d: InfoYml)
    requires OneLineScalars(d)
    ensures EntriesOk(Entries(d)) && Shallow(Entries(d))
  {
    hide KeyOk, Clean, TestOk, ItemOk, FlatItem, TestBlock, MetadataBlock, ListOf;
    TopKeysAreOk();
    var ms, ts := MetadataItems(d), TestItems(d);
    forall i | i in ms ensures ItemOk(i) && FlatItem(i) {
      var k: nat :| k < |ms| && ms[k] == i;
      assert d.ruleMetadata[k] in d.ruleMetadata;
      MetadataBlockIsOk(d.ruleMetadata[k]);
    }
    forall i | i in ts ensures ItemOk(i) && FlatItem(i) {
      var k: nat :| k < |ts| && ts[k] == i;
      assert d.regressionTestsInfo[k] in d.regressionTestsInfo;
      TestBlockIsOk(d.regressionTestsInfo[k]);
    }
    ListOfIsOk(ms);
    ListOfIsOk(ts);
  }

  // ----- Clean, solid lines -----

  predicate LineOk(l: Line) { Clean(l.text) && Solid(l.text) }

  lemma {:induction false} PrintedEntriesOk(es: seq<Entry>, col: nat, off: nat)
    requires EntriesOk(es)
    ensures forall l :: l in PrintEntries(es, col, off) ==> LineOk(l)
    decreases es, 1
  {
    hide KeyOk, ItemOk, LineOk, PrintItems;
    if es != [] {
      var e := es[0];
      assert e in es && EntriesOk(es[1..]);
      PrintedEntriesOk(es[1..], col, off);
      EntryTextOk(e, col);
      match e.value
      case Scalar(text) =>
        assert e.key + (": " + text) == e.key + ": " + text;
        assert PrintEntry(e, col, off) == [Line(col, e.key + ": " + text)];
      case List(items) =>
        PrintedItemsOk(items, col + off, off);
        assert PrintEntry(e, col, off) == [Line(col, e.key + ":")] + PrintItems(items, col + off, off);
    }
  }

  lemma EntryTextOk(e: Entry, col: nat)
    requires KeyOk(e.key) && ValueOk(e.value)
    ensures LineOk(Line(col, e.key + if e.value.Scalar? then ": " + e.value.text else ":"))
  {
    if e.value.Scalar? {
      assert (e.key + (": " + e.value.text))[0] == e.key[0];
      assert e.key + (": " + e.value.text) == e.key + ": " + e.value.text;
    } else {
      assert (e.key + ":")[0] == e.key[0];
    }
  }

  lemma {:induction false} PrintedItemsOk(items: seq<Item>, col: nat, off: nat)
    requires forall i :: i in items ==> ItemOk(i)
    ensures forall l :: l in PrintItems(items, col, off) ==> LineOk(l)
    decreases items, 0
  {
    if items != [] {
      hide EntriesOk, Split, PrintEntries;
      var item := items[0];
      assert ItemOk(item);
      PrintedItemsOk(items[1..], col, off);
      if item.Block? {
        PrintedEntriesOk(item.entries, col + 2, off);
        DashedOk(PrintEntries(item.entries, col + 2, off), col);
      } else {
        assert ("- " + item.text)[0] == '-';
      }
    }
  }

  lemma DashedOk(lines: seq<Line>, col: nat)
    requires forall l :: l in lines ==> LineOk(l)
    ensures forall l :: l in Dashed(lines, col) ==> LineOk(l)
  {
    if lines != [] {
      assert LineOk(lines[0]);
      assert ("- " + lines[0].text)[0] == '-';
    }
  }

  lemma RenderedIsClean(lines: seq<Line>)
    requires forall l :: l in lines ==> LineOk(l)
    ensures AllClean(Rendered(lines))
    ensures forall s :: s in Rendered(lines) ==> s != ""
  {
    forall s | s in Rendered(lines) ensures Clean(s) && s != "" {
      var k: nat :| k < |Rendered(lines)| && Rendered(lines)[k] == s;
      assert lines[k] in lines;
    }
  }

  // ----- The main results -----

  /** Re-indenting the serialized form of an info document gives exactly its canonical form. */
  lemma CanonicalLayout(d: InfoYml)
    requires OneLineScalars(d)
    ensures JoinLines(Reindented(Closed, LinesOf(SerdeYaml(d)))) == CanonicalYaml(d)
  {
    var es := Entries(d);
    var lines := PrintEntries(es, 0, 0);
    assert OpenOk(Closed);
    hide *;
    EntriesAreOk(d);
    Nonempty(d, 0);
    PrintedEntriesOk(es, 0, 0);
    RenderedIsClean(lines);
    SerdeIs(d);
    LinesOfJoined(Rendered(lines));
    EntriesMove(Closed, es);
    CanonicalIs(d);
  }

  lemma SerdeIs(d: InfoYml)
    ensures SerdeYaml(d) == JoinLines(Rendered(PrintEntries(Entries(d), 0, 0))) + "\n"
  {
  }

  lemma CanonicalIs(d: InfoYml)
    ensures CanonicalYaml(d) == JoinLines(Rendered(PrintEntries(Entries(d), 0, 4)))
  {
  }

  lemma Nonempty(d: InfoYml, off: nat)
    ensures |Rendered(PrintEntries(Entries(d), 0, off))| == |PrintEntries(Entries(d), 0, off)| >= 1
  {
    var es := Entries(d);
    assert es[0] == Entry("id", Scalar(d.id));
    assert PrintEntries(es, 0, off) == PrintEntry(es[0], 0, off) + PrintEntries(es[1..], 0, off);
  }

  /** The indentation of both forms shows the same document. */
  lemma MeaningIsKept(d: InfoYml)
    requires OneLineScalars(d)
    ensures ReadYaml(SerdeYaml(d)) == Read(Entries(d), [])
    ensures ReadYaml(CanonicalYaml(d)) == Read(Entries(d), [])
    ensures ReadYaml(CanonicalYaml(d) + "\n") == Read(Entries(d), [])
  {
    hide *;
    SerdeIs(d);
    CanonicalIs(d);
    LayoutReads(d, 0);
    LayoutReads(d, 4);
  }

  /** Printed at any list offset, with or without a newline at the end, a text shows its document. */
  lemma LayoutReads(d: InfoYml, off: nat)
    requires OneLineScalars(d)
    ensures var text := JoinLines(Rendered(PrintEntries(Entries(d), 0, off)));
            ReadYaml(text) == Read(Entries(d), []) && ReadYaml(text + "\n") == Read(Entries(d), [])
  {
    hide *;
    var lines := PrintEntries(Entries(d), 0, off);
    EntriesAreOk(d);
    Nonempty(d, off);
    PrintedEntriesOk(Entries(d), 0, off);
    LineOkIsSolid(lines);
    RenderedIsClean(lines);
    LinesOfJoined(Rendered(lines));
    assert Rendered(lines)[|Rendered(lines)| - 1] in Rendered(lines);
    LinesOfOpen(Rendered(lines));
    ParsedBack(lines);
    LayoutIsIrrelevant(Entries(d), off);
    ReadIs(JoinLines(Rendered(lines)));
    ReadIs(JoinLines(Rendered(lines)) + "\n");
  }

  lemma LineOkIsSolid(lines: seq<Line>)
    requires forall l :: l in lines ==> LineOk(l)
    ensures forall l :: l in lines ==> Solid(l.text)
  {
  }

  lemma ReadIs(text: string)
    ensures ReadYaml(text) == ReadEntries(ParseLines(LinesOf(text)), 0)
  {
  }

  /** Serialize, then re-indent: the canonical text, still showing the document. */
  method Canonicalize(d: InfoYml) returns (text: string)
    requires OneLineScalars(d)
    ensures text == CanonicalYaml(d) && ReadYaml(text) == Read(Entries(d), [])
  {
    hide *;
    CanonicalLayout(d);
    MeaningIsKept(d);
    var yaml := SerdeYaml(d);
    text := ToSigmaIndent(yaml);
  }

  // ----- Nothing is lost -----

  lemma TextsBack(a: seq<string>, b: seq<string>)
    requires ListOf(Texts(a)) == ListOf(Texts(b))
    ensures a == b
  {
    assert Texts(a) == Texts(b);
    assert |a| == |b|;
    forall i | 0 <= i < |a| ensures a[i] == b[i] {
      assert Texts(a)[i] == Texts(b)[i];
    }
  }

  function Head(t: RegressionTestInfo): seq<Entry> {
    [Entry("name", Scalar(t.name)), Entry("type", Scalar(t.testType)), Entry("provider", Scalar(t.provider)),
     Entry("match_count", Scalar(t.matchCount))]
  }

  lemma OptionalBack(key: string, a: Option<seq<string>>, b: Option<seq<string>>, x: seq<Entry>, y: seq<Entry>)
    requires x != [] && y != [] && x[0].key != key && y[0].key != key
    requires OptionalList(key, a) + x == OptionalList(key, b) + y
    ensures a == b && x == y
  {
    var p, q := OptionalList(key, a), OptionalList(key, b);
    assert (p + x)[0].key == key <==> a.Some?;
    assert (q + y)[0].key == key <==> b.Some?;
    assert x == (p + x)[|p|..] && y == (q + y)[|q|..];
    if a.Some? {
      assert p[0] == (p + x)[0] && q[0] == (q + y)[0];
      TextsBack(a.value, b.value);
    }
  }

  lemma TestBack(t: RegressionTestInfo, u: RegressionTestInfo)
    requires TestBlock(t) == TestBlock(u)
    ensures t == u
  {
    var t2, u2 := [Entry("path", Scalar(t.path))], [Entry("path", Scalar(u.path))];
    var t1, u1 := OptionalList("filters", t.filters) + t2, OptionalList("filters", u.filters) + u2;
    var t0, u0 := OptionalList("pipelines", t.pipelines) + t1, OptionalList("pipelines", u.pipelines) + u1;
    assert TestBlock(t) == Head(t) + t0 && TestBlock(u) == Head(u) + u0;
    assert Head(t) == TestBlock(t)[..4] && Head(u) == TestBlock(u)[..4];
    assert t0 == TestBlock(t)[4..] && u0 == TestBlock(u)[4..];
    assert Head(t)[0] == Head(u)[0] && Head(t)[1] == Head(u)[1] && Head(t)[2] == Head(u)[2] && Head(t)[3] == Head(u)[3];
    assert t1[0].key != "pipelines" && u1[0].key != "pipelines";
    OptionalBack("pipelines", t.pipelines, u.pipelines, t1, u1);
    OptionalBack("filters", t.filters, u.filters, t2, u2);
    assert t2[0] == u2[0];
  }

  lemma MetadataBack(m: RuleMetadata, n: RuleMetadata)
    requires MetadataBlock(m) == MetadataBlock(n)
    ensures m == n
  {
    assert MetadataBlock(m)[0] == MetadataBlock(n)[0] && MetadataBlock(m)[1] == MetadataBlock(n)[1];
  }

  lemma ListBack(a: seq<Item>, b: seq<Item>)
    requires ListOf(a) == ListOf(b)
    ensures a == b
  {
  }

  lemma EntriesBack(a: InfoYml, b: InfoYml)
    requires Entries(a) == Entries(b)
    ensures a == b
  {
    hide TestBlock, MetadataBlock, ListOf;
    assert forall i :: 0 <= i < 6 ==> Entries(a)[i] == Entries(b)[i];
    ListBack(MetadataItems(a), MetadataItems(b));
    ListBack(TestItems(a), TestItems(b));
    forall i | 0 <= i < |a.ruleMetadata| ensures a.ruleMetadata[i] == b.ruleMetadata[i] {
      assert MetadataItems(a)[i] == MetadataItems(b)[i];
      MetadataBack(a.ruleMetadata[i], b.ruleMetadata[i]);
    }
    forall i | 0 <= i < |a.regressionTestsInfo| ensures a.regressionTestsInfo[i] == b.regressionTestsInfo[i] {
      assert TestItems(a)[i] == TestItems(b)[i];
      TestBack(a.regressionTestsInfo[i], b.regressionTestsInfo[i]);
    }
  }

  /** Two documents with the same canonical form are the same document. */
  lemma CanonicalIsInjective(a: InfoYml, b: InfoYml)
    requires OneLineScalars(a) && OneLineScalars(b) && CanonicalYaml(a) == CanonicalYaml(b)
    ensures a == b
  {
    hide *;
    MeaningIsKept(a);
    MeaningIsKept(b);
    EntriesBack(a, b);
  }
}
