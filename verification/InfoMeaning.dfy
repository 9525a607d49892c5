/**
 What the text of an info document shows, key by key.
 */
module InfoMeaning {
  import opened FixerPasses
  import opened InfoFixer
  import opened InfoYml
  import opened Options
  import opened SigmaIndent
  import opened YamlBlocks
  import opened YamlText

  ghost function KeysOf(es: seq<Entry>): seq<string> { seq(|es|, i requires 0 <= i < |es| => es[i].key) }

  /** The value of the first entry with this key. */
  ghost function ValueOf(es: seq<Entry>, key: string): Option<Value> {
    if es == [] then None else if es[0].key == key then Some(es[0].value) else ValueOf(es[1..], key)
  }

  /** A rule entry shows its id and its title. */
  ghost predicate ShowsRule(item: Item, m: RuleMetadata) {
    && item.Block? && KeysOf(item.entries) == ["id", "title"]
    && ValueOf(item.entries, "id") == Some(Scalar(m.id)) && ValueOf(item.entries, "title") == Some(Scalar(m.title))
  }

  /** A list of texts shows them in order; a missing one is not there, an empty one is written inline. */
  ghost predicate ShowsTexts(v: Option<Value>, texts: Option<seq<string>>) {
    match texts
    case None => v == None
    case Some(ts) =>
      if ts == [] then v == Some(Scalar("[]"))
      else v.Some? && v.value.List? && |v.value.items| == |ts|
           && forall i :: 0 <= i < |ts| ==> v.value.items[i] == Plain(ts[i])
  }

  ghost predicate ShowsTest(item: Item, t: RegressionTestInfo) {
    && item.Block?
    && ValueOf(item.entries, "name") == Some(Scalar(t.name))
    && ValueOf(item.entries, "type") == Some(Scalar(t.testType))
    && ValueOf(item.entries, "provider") == Some(Scalar(t.provider))
    && ValueOf(item.entries, "match_count") == Some(Scalar(t.matchCount))
    && ShowsTexts(ValueOf(item.entries, "pipelines"), t.pipelines)
    && ShowsTexts(ValueOf(item.entries, "filters"), t.filters)
    && ValueOf(item.entries, "path") == Some(Scalar(t.path))
  }

  ghost predicate ShowsList<T>(v: Option<Value>, ts: seq<T>, shows: (Item, T) -> bool) {
    if ts == [] then v == Some(Scalar("[]"))
    else v.Some? && v.value.List? && |v.value.items| == |ts|
         && forall i :: 0 <= i < |ts| ==> shows(v.value.items[i], ts[i])
  }

  ghost predicate ShowsDocument(es: seq<Entry>, d: InfoYml) {
    && KeysOf(es) == ["id", "description", "date", "author", "rule_metadata", "regression_tests_info"]
    && ValueOf(es, "id") == Some(Scalar(d.id))
    && ValueOf(es, "description") == Some(Scalar(d.description))
    && ValueOf(es, "date") == Some(Scalar(d.date))
    && ValueOf(es, "author") == Some(Scalar(d.author))
    && ShowsList(ValueOf(es, "rule_metadata"), d.ruleMetadata, (i, m) => ShowsRule(i, m))
    && ShowsList(ValueOf(es, "regression_tests_info"), d.regressionTestsInfo, (i, t) => ShowsTest(i, t))
  }

  lemma Here(e: Entry, es: seq<Entry>, key: string)
    ensures ValueOf([e] + es, key) == if e.key == key then Some(e.value) else ValueOf(es, key)
  {
    assert ([e] + es)[1..] == es;
  }

  lemma RuleShown(m: RuleMetadata)
    ensures ShowsRule(Block(MetadataBlock(m)), m)
  {
    var es := MetadataBlock(m);
    assert es[1..][0] == es[1];
  }

  lemma {:induction false} NotFirst(a: seq<Entry>, b: seq<Entry>, key: string)
    ensures ValueOf(a + b, key) == if ValueOf(a, key).Some? then ValueOf(a, key) else ValueOf(b, key)
  {
    if a == [] {
      assert a + b == b;
    } else {
      assert (a + b)[1..] == a[1..] + b;
      NotFirst(a[1..], b, key);
    }
  }

  lemma ListShown(key: string, texts: Option<seq<string>>, k: string)
    ensures k == key ==> ShowsTexts(ValueOf(OptionalList(key, texts), k), texts)
    ensures k != key ==> ValueOf(OptionalList(key, texts), k) == None
  {
  }

  lemma TestShown(t: RegressionTestInfo)
    ensures ShowsTest(Block(TestBlock(t)), t)
  {
    hide ValueOf, TestBlock, OptionalList, ShowsTexts;
    forall k ensures ValueOf(TestBlock(t), k) == TestValue(t, k) {
      TestKey(t, k);
    }
    ListShown("pipelines", t.pipelines, "pipelines");
    ListShown("filters", t.filters, "filters");
  }

  /** The value of a key of a test entry, by the key. */
  ghost function TestValue(t: RegressionTestInfo, k: string): Option<Value> {
    if k == "name" then Some(Scalar(t.name))
    else if k == "type" then Some(Scalar(t.testType))
    else if k == "provider" then Some(Scalar(t.provider))
    else if k == "match_count" then Some(Scalar(t.matchCount))
    else if k == "pipelines" then ValueOf(OptionalList("pipelines", t.pipelines), k)
    else if k == "filters" then ValueOf(OptionalList("filters", t.filters), k)
    else if k == "path" then Some(Scalar(t.path))
    else None
  }

  lemma TestKey(t: RegressionTestInfo, k: string)
    ensures ValueOf(TestBlock(t), k) == TestValue(t, k)
  {
    var head := [Entry("name", Scalar(t.name)), Entry("type", Scalar(t.testType)),
                 Entry("provider", Scalar(t.provider)), Entry("match_count", Scalar(t.matchCount))];
    var a, b, c := OptionalList("pipelines", t.pipelines), OptionalList("filters", t.filters),
                   [Entry("path", Scalar(t.path))];
    HeadKey(t, head, k);
    assert c[1..] == [];
    assert ValueOf(c, k) == if k == "path" then Some(Scalar(t.path)) else None;
    ListShown("pipelines", t.pipelines, k);
    ListShown("filters", t.filters, k);
    hide ValueOf, OptionalList;
    NotFirst(head + a + b, c, k);
    NotFirst(head + a, b, k);
    NotFirst(head, a, k);
  }

  lemma HeadKey(t: RegressionTestInfo, head: seq<Entry>, k: string)
    requires head == [Entry("name", Scalar(t.name)), Entry("type", Scalar(t.testType)),
                      Entry("provider", Scalar(t.provider)), Entry("match_count", Scalar(t.matchCount))]
    ensures ValueOf(head, k) == if k == "name" then Some(Scalar(t.name))
                                else if k == "type" then Some(Scalar(t.testType))
                                else if k == "provider" then Some(Scalar(t.provider))
                                else if k == "match_count" then Some(Scalar(t.matchCount)) else None
  {
    hide ValueOf;
    assert [head[0]] + [head[1], head[2], head[3]] == head;
    assert [head[1]] + [head[2], head[3]] == [head[1], head[2], head[3]];
    assert [head[2]] + [head[3]] == [head[2], head[3]];
    Here(head[0], [head[1], head[2], head[3]], k);
    Here(head[1], [head[2], head[3]], k);
    Here(head[2], [head[3]], k);
    Only(head[3], k);
  }

  lemma Only(e: Entry, key: string)
    ensures ValueOf([e], key) == if e.key == key then Some(e.value) else None
  {
    assert [e][1..] == [];
  }

  /** The top entries, by their keys. */
  ghost function TopValue(d: InfoYml, k: string): Option<Value> {
    if k == "id" then Some(Scalar(d.id))
    else if k == "description" then Some(Scalar(d.description))
    else if k == "date" then Some(Scalar(d.date))
    else if k == "author" then Some(Scalar(d.author))
    else if k == "rule_metadata" then Some(ListOf(MetadataItems(d)))
    else if k == "regression_tests_info" then Some(ListOf(TestItems(d)))
    else None
  }

  lemma TopKey(d: InfoYml, k: string)
    ensures ValueOf(Entries(d), k) == TopValue(d, k)
  {
    var es := Entries(d);
    hide ValueOf, ListOf, MetadataItems, TestItems;
    assert [es[0]] + [es[1], es[2], es[3], es[4], es[5]] == es;
    assert [es[1]] + [es[2], es[3], es[4], es[5]] == [es[1], es[2], es[3], es[4], es[5]];
    assert [es[2]] + [es[3], es[4], es[5]] == [es[2], es[3], es[4], es[5]];
    assert [es[3]] + [es[4], es[5]] == [es[3], es[4], es[5]];
    assert [es[4]] + [es[5]] == [es[4], es[5]];
    Here(es[0], [es[1], es[2], es[3], es[4], es[5]], k);
    Here(es[1], [es[2], es[3], es[4], es[5]], k);
    Here(es[2], [es[3], es[4], es[5]], k);
    Here(es[3], [es[4], es[5]], k);
    Here(es[4], [es[5]], k);
    Only(es[5], k);
  }

  lemma DocumentShown(d: InfoYml)
    ensures ShowsDocument(Entries(d), d)
  {
    hide ValueOf, ShowsRule, ShowsTest, MetadataBlock, TestBlock;
    forall k ensures ValueOf(Entries(d), k) == TopValue(d, k) {
      TopKey(d, k);
    }
    ItemsShown(d);
    assert KeysOf(Entries(d)) == ["id", "description", "date", "author", "rule_metadata", "regression_tests_info"];
    hide Entries, KeysOf, MetadataItems, TestItems;
  }

  lemma ItemsShown(d: InfoYml)
    ensures ShowsList(Some(ListOf(MetadataItems(d))), d.ruleMetadata, (i, m) => ShowsRule(i, m))
    ensures ShowsList(Some(ListOf(TestItems(d))), d.regressionTestsInfo, (i, t) => ShowsTest(i, t))
  {
    hide ShowsRule, ShowsTest, MetadataBlock, TestBlock;
    forall i | 0 <= i < |d.ruleMetadata| ensures ShowsRule(MetadataItems(d)[i], d.ruleMetadata[i]) {
      RuleShown(d.ruleMetadata[i]);
    }
    forall i | 0 <= i < |d.regressionTestsInfo| ensures ShowsTest(TestItems(d)[i], d.regressionTestsInfo[i]) {
      TestShown(d.regressionTestsInfo[i]);
    }
  }

  /** Read by its indentation, the canonical text of a document shows every field under its own key. */
  lemma CanonicalShowsFields(d: InfoYml)
    requires OneLineScalars(d)
    ensures ReadYaml(CanonicalYaml(d)).rest == [] && ShowsDocument(ReadYaml(CanonicalYaml(d)).found, d)
  {
    hide *;
    MeaningIsKept(d);
    DocumentShown(d);
  }

  // ----- The layout, character by character -----

  /** A document with one rule and one test entry, which has one pipeline and no filters. */
  ghost predicate OneOfEach(d: InfoYml, m: RuleMetadata, t: RegressionTestInfo, p: string) {
    d.ruleMetadata == [m] && d.regressionTestsInfo == [t] && t.pipelines == Some([p]) && t.filters == None
  }

  /** Its canonical text: items four columns under their key, their own keys two columns further in. */
  lemma CanonicalExample(d: InfoYml, m: RuleMetadata, t: RegressionTestInfo, p: string)
    requires OneLineScalars(d) && OneOfEach(d, m, t, p)
    ensures LinesOf(CanonicalYaml(d)) == [
              "id: " + d.id, "description: " + d.description, "date: " + d.date, "author: " + d.author,
              "rule_metadata:", "    - id: " + m.id, "      title: " + m.title,
              "regression_tests_info:", "    - name: " + t.name, "      type: " + t.testType,
              "      provider: " + t.provider, "      match_count: " + t.matchCount,
              "      pipelines:", "          - " + p, "      path: " + t.path]
  {
    hide *;
    CanonicalLines(d);
    DocumentLines(d, m, t, p);
    var a, b := TopLines(d) + [Line(0, "rule_metadata:")], [Line(0, "regression_tests_info:")];
    RenderedConcat(a + RuleLines(m) + b, TestLines(t, p));
    RenderedConcat(a + RuleLines(m), b);
    RenderedConcat(a, RuleLines(m));
    TopText(d);
    RuleText(m);
    TestText(t, p);
    HeadText();
  }

  ghost function TopLines(d: InfoYml): seq<Line> {
    [Line(0, "id" + ": " + d.id), Line(0, "description" + ": " + d.description), Line(0, "date" + ": " + d.date),
     Line(0, "author" + ": " + d.author)]
  }

  ghost function RuleLines(m: RuleMetadata): seq<Line> {
    [Line(4, "- " + ("id" + ": " + m.id)), Line(6, "title" + ": " + m.title)]
  }

  ghost function TestLines(t: RegressionTestInfo, p: string): seq<Line> {
    [Line(4, "- " + ("name" + ": " + t.name)), Line(6, "type" + ": " + t.testType),
     Line(6, "provider" + ": " + t.provider), Line(6, "match_count" + ": " + t.matchCount), Line(6, "pipelines" + ":"),
     Line(10, "- " + p), Line(6, "path" + ": " + t.path)]
  }

  lemma Printed(e: Entry, es: seq<Entry>, col: nat)
    ensures PrintEntries([e] + es, col, 4) == PrintEntry(e, col, 4) + PrintEntries(es, col, 4)
    ensures PrintEntries([], col, 4) == []
  {
    assert ([e] + es)[1..] == es;
  }

  lemma OneItem(item: Item, col: nat)
    ensures PrintItems([item], col, 4) == PrintItem(item, col, 4)
  {
    assert [item][1..] == [];
  }

  lemma RulePrinted(m: RuleMetadata)
    ensures PrintItem(Block(MetadataBlock(m)), 4, 4) == RuleLines(m)
  {
    var a, b := Entry("id", Scalar(m.id)), Entry("title", Scalar(m.title));
    assert MetadataBlock(m) == [a] + [b] && [b] == [b] + [];
    hide PrintEntries;
    Printed(a, [b], 6);
    Printed(b, [], 6);
  }

  lemma TestPrinted(t: RegressionTestInfo, p: string)
    requires t.pipelines == Some([p]) && t.filters == None
    ensures PrintItem(Block(TestBlock(t)), 4, 4) == TestLines(t, p)
  {
    var a, b, c, e := Entry("name", Scalar(t.name)), Entry("type", Scalar(t.testType)),
                      Entry("provider", Scalar(t.provider)), Entry("match_count", Scalar(t.matchCount));
    var f, g := Entry("pipelines", List([Plain(p)])), Entry("path", Scalar(t.path));
    assert Texts([p]) == [Plain(p)];
    assert TestBlock(t) == [a] + ([b] + ([c] + ([e] + ([f] + ([g] + [])))));
    hide PrintEntries, PrintItems;
    OneItem(Plain(p), 10);
    Printed(g, [], 6);
    Printed(f, [g] + [], 6);
    Printed(e, [f] + ([g] + []), 6);
    Printed(c, [e] + ([f] + ([g] + [])), 6);
    Printed(b, [c] + ([e] + ([f] + ([g] + []))), 6);
    Printed(a, [b] + ([c] + ([e] + ([f] + ([g] + [])))), 6);
  }

  lemma DocumentLines(d: InfoYml, m: RuleMetadata, t: RegressionTestInfo, p: string)
    requires OneOfEach(d, m, t, p)
    ensures PrintEntries(Entries(d), 0, 4)
         == TopLines(d) + [Line(0, "rule_metadata:")] + RuleLines(m) + [Line(0, "regression_tests_info:")]
            + TestLines(t, p)
  {
    var es := Entries(d);
    TopSplit(d, m, t);
    hide PrintEntries, PrintItems, PrintItem, MetadataBlock, TestBlock, MetadataItems, TestItems, RuleLines, TestLines,
      Entries;
    RulePrinted(m);
    TestPrinted(t, p);
    OneItem(Block(MetadataBlock(m)), 4);
    OneItem(Block(TestBlock(t)), 4);
    var rules := PrintEntry(es[4], 0, 4);
    var tests := PrintEntry(es[5], 0, 4);
    assert rules == [Line(0, "rule_metadata" + ":")] + RuleLines(m);
    assert tests == [Line(0, "regression_tests_info" + ":")] + TestLines(t, p);
    assert "rule_metadata" + ":" == "rule_metadata:" && "regression_tests_info" + ":" == "regression_tests_info:";
    hide PrintEntry;
    var top := TopLines(d);
    assert top + (rules + tests)
        == top + [Line(0, "rule_metadata:")] + RuleLines(m) + [Line(0, "regression_tests_info:")] + TestLines(t, p);
  }

  lemma TopSplit(d: InfoYml, m: RuleMetadata, t: RegressionTestInfo)
    requires d.ruleMetadata == [m] && d.regressionTestsInfo == [t]
    ensures |Entries(d)| == 6
    ensures var es := Entries(d);
            && es[4] == Entry("rule_metadata", List([Block(MetadataBlock(m))]))
            && es[5] == Entry("regression_tests_info", List([Block(TestBlock(t))]))
            && PrintEntries(es, 0, 4) == TopLines(d) + (PrintEntry(es[4], 0, 4) + PrintEntry(es[5], 0, 4))
  {
    var es := Entries(d);
    assert MetadataItems(d) == [Block(MetadataBlock(m))] && TestItems(d) == [Block(TestBlock(t))];
    assert es == [es[0]] + ([es[1]] + ([es[2]] + ([es[3]] + ([es[4]] + ([es[5]] + [])))));
    hide PrintEntries, PrintItems, MetadataBlock, TestBlock;
    Printed(es[5], [], 0);
    Printed(es[4], [es[5]] + [], 0);
    Printed(es[3], [es[4]] + ([es[5]] + []), 0);
    Printed(es[2], [es[3]] + ([es[4]] + ([es[5]] + [])), 0);
    Printed(es[1], [es[2]] + ([es[3]] + ([es[4]] + ([es[5]] + []))), 0);
    Printed(es[0], [es[1]] + ([es[2]] + ([es[3]] + ([es[4]] + ([es[5]] + [])))), 0);
  }

  lemma Blanks()
    ensures Spaces(0) == "" && Spaces(4) == "    " && Spaces(6) == "      " && Spaces(10) == "          "
  {
  }

  lemma Padded(col: nat, sp: string, head: string, full: string, text: string)
    requires Spaces(col) == sp && sp + head == full
    ensures Spaces(col) + (head + text) == full + text
  {
    assert sp + (head + text) == (sp + head) + text;
  }

  lemma TopText(d: InfoYml)
    ensures Rendered(TopLines(d) + [Line(0, "rule_metadata:")])
         == ["id: " + d.id, "description: " + d.description, "date: " + d.date, "author: " + d.author, "rule_metadata:"]
  {
    Blanks();
    hide Spaces;
    Padded(0, "", "id" + ": ", "id: ", d.id);
    Padded(0, "", "description" + ": ", "description: ", d.description);
    Padded(0, "", "date" + ": ", "date: ", d.date);
    Padded(0, "", "author" + ": ", "author: ", d.author);
    assert "" + "rule_metadata:" == "rule_metadata:";
    var lines := TopLines(d) + [Line(0, "rule_metadata:")];
    assert |Rendered(lines)| == 5;
    assert Rendered(lines)[4] == "rule_metadata:";
  }

  lemma RuleText(m: RuleMetadata)
    ensures Rendered(RuleLines(m)) == ["    - id: " + m.id, "      title: " + m.title]
  {
    Blanks();
    hide Spaces;
    Padded(4, "    ", "- " + ("id" + ": "), "    - id: ", m.id);
    Padded(6, "      ", "title" + ": ", "      title: ", m.title);
    assert "- " + ("id" + ": " + m.id) == "- " + ("id" + ": ") + m.id;
  }

  lemma HeadText()
    ensures Rendered([Line(0, "regression_tests_info:")]) == ["regression_tests_info:"]
  {
    Blanks();
    hide Spaces;
    assert "" + "regression_tests_info:" == "regression_tests_info:";
  }

  lemma TestHeads()
    ensures "    " + ("- " + ("name" + ": ")) == "    - name: " && "      " + ("type" + ": ") == "      type: "
    ensures "      " + ("provider" + ": ") == "      provider: "
    ensures "      " + ("match_count" + ": ") == "      match_count: "
    ensures "      " + ("pipelines" + ":") == "      pipelines:" && "          " + "- " == "          - "
    ensures "      " + ("path" + ": ") == "      path: "
  {
  }

  lemma TestText(t: RegressionTestInfo, p: string)
    ensures Rendered(TestLines(t, p))
         == ["    - name: " + t.name, "      type: " + t.testType, "      provider: " + t.provider,
             "      match_count: " + t.matchCount, "      pipelines:", "          - " + p, "      path: " + t.path]
  {
    hide Spaces, Rendered, TestLines;
    Blanks();
    TestHeads();
    Padded(4, "    ", "- " + ("name" + ": "), "    - name: ", t.name);
    assert "- " + ("name" + ": " + t.name) == "- " + ("name" + ": ") + t.name;
    Padded(6, "      ", "type" + ": ", "      type: ", t.testType);
    Padded(6, "      ", "provider" + ": ", "      provider: ", t.provider);
    Padded(6, "      ", "match_count" + ": ", "      match_count: ", t.matchCount);
    Padded(10, "          ", "- ", "          - ", p);
    Padded(6, "      ", "path" + ": ", "      path: ", t.path);
    TestRendered(t, p);
  }

  lemma TestRendered(t: RegressionTestInfo, p: string)
    ensures Rendered(TestLines(t, p)) == [
              Spaces(4) + ("- " + ("name" + ": " + t.name)), Spaces(6) + ("type" + ": " + t.testType),
              Spaces(6) + ("provider" + ": " + t.provider), Spaces(6) + ("match_count" + ": " + t.matchCount),
              Spaces(6) + ("pipelines" + ":"), Spaces(10) + ("- " + p), Spaces(6) + ("path" + ": " + t.path)]
  {
    hide Spaces;
  }
}
