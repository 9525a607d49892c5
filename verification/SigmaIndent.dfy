/**
 Re-indentation of a serialized info document: list items move from their key's
 column to four columns under it, and nothing else changes.
 */
module SigmaIndent {
  import opened YamlText
  import opened YamlBlocks

  // ----- The line transformation -----

  /** Source and canonical column of the innermost open bare key. */
  datatype Open = Closed | Key(src: nat, col: nat)

  function SplitComment(s: string): (k: nat)
    ensures k <= |s|
  {
    if s == "" || " #" <= s then 0 else 1 + SplitComment(s[1..])
  }

  /** A key with no inline value. */
  predicate IsBareKey(trimmed: string) {
    var head := TrimEnd(trimmed[..SplitComment(trimmed)]);
    head != "" && head[|head| - 1] == ':'
  }

  function ItemColumn(open: Open, spaces: nat): nat {
    if open.Key? && open.src == spaces then open.col + 4
    else if spaces == 0 then 4
    else if spaces == 2 then 6
    else spaces + 4
  }

  function KeyColumn(spaces: nat): nat {
    if spaces == 0 then 0 else if spaces == 2 then 6 else if spaces >= 4 then spaces + 4 else spaces
  }

  predicate Skipped(trimmed: string) { trimmed == "" || trimmed[0] == '#' }

  function NewLine(open: Open, line: string): string {
    var trimmed, spaces := TrimStart(line), Indent(line);
    if Skipped(trimmed) then line
    else Spaces(if IsItem(trimmed) then ItemColumn(open, spaces) else KeyColumn(spaces)) + trimmed
  }

  function NextOpen(open: Open, line: string): Open {
    var trimmed, spaces := TrimStart(line), Indent(line);
    if Skipped(trimmed) || IsItem(trimmed) then open
    else if IsBareKey(trimmed) then Key(spaces, KeyColumn(spaces))
    else if open.Key? && spaces <= open.src then Closed
    else open
  }

  function Reindented(open: Open, lines: seq<string>): seq<string>
    decreases |lines|
  {
    if lines == [] then [] else [NewLine(open, lines[0])] + Reindented(NextOpen(open, lines[0]), lines[1..])
  }

  lemma ReindentStep(open: Open, lines: seq<string>, n: nat, done: seq<string>)
    requires n < |lines|
    ensures done + Reindented(open, lines[n..])
         == (done + [NewLine(open, lines[n])]) + Reindented(NextOpen(open, lines[n]), lines[n + 1..])
  {
    hide NewLine, NextOpen;
    assert lines[n..][0] == lines[n] && lines[n..][1..] == lines[n + 1..];
  }

  lemma ReindentNothing(open: Open)
    ensures Reindented(open, []) == []
  {
  }

  method ToSigmaIndent(yaml: string) returns (text: string)
    ensures text == JoinLines(Reindented(Closed, LinesOf(yaml)))
  {
    hide LinesOf, JoinLines, IsBareKey, IsItem, TrimStart, Reindented;
    var out: seq<string> := [];
    var openKey := Closed;
    var lines := LinesOf(yaml);
    for n := 0 to |lines|
      invariant out + Reindented(openKey, lines[n..]) == Reindented(Closed, lines)
    {
      var line := lines[n];
      ghost var done, open := out, openKey;
      ReindentStep(open, lines, n, done);
      var trimmed := TrimStart(line);
      var spaces := |line| - |trimmed|;
      if trimmed == "" || trimmed[0] == '#' {
        out := out + [line];
      } else {
        var isItem := IsItem(trimmed);
        var newSpaces: nat;
        if isItem {
          newSpaces := ItemColumn(openKey, spaces);
        } else {
          newSpaces := KeyColumn(spaces);
        }
        out := out + [Spaces(newSpaces) + trimmed];
        if !isItem {
          if IsBareKey(trimmed) {
            openKey := Key(spaces, newSpaces);
          } else if openKey.Key? && spaces <= openKey.src {
            openKey := Closed;
          }
        }
      }
      assert out == done + [NewLine(open, line)] && openKey == NextOpen(open, line);
    }
    ReindentNothing(openKey);
    assert lines[|lines|..] == [] && out + [] == out;
    text := JoinLines(out);
  }

  function OpenAfter(open: Open, lines: seq<string>): Open
    decreases |lines|
  {
    if lines == [] then open else OpenAfter(NextOpen(open, lines[0]), lines[1..])
  }

  lemma {:induction false} ReindentedConcat(open: Open, a: seq<string>, b: seq<string>)
    ensures Reindented(open, a + b) == Reindented(open, a) + Reindented(OpenAfter(open, a), b)
    ensures OpenAfter(open, a + b) == OpenAfter(OpenAfter(open, a), b)
    decreases |a|
  {
    hide NewLine, NextOpen;
    if a == [] {
      assert a + b == b;
    } else {
      assert (a + b)[1..] == a[1..] + b;
      ReindentedConcat(NextOpen(open, a[0]), a[1..], b);
    }
  }

  // ----- Rendered lines -----

  function Rendered(lines: seq<Line>): seq<string> {
    seq(|lines|, i requires 0 <= i < |lines| => Spaces(lines[i].col) + lines[i].text)
  }

  function LineOf(s: string): Line { Line(Indent(s), TrimStart(s)) }

  function ParseLines(lines: seq<string>): seq<Line> {
    seq(|lines|, i requires 0 <= i < |lines| => LineOf(lines[i]))
  }

  /** Content that indentation can be told apart from. */
  predicate Solid(text: string) { text != "" && !IsWhite(text[0]) && text[0] != '#' }

  lemma RenderedConcat(a: seq<Line>, b: seq<Line>)
    ensures Rendered(a + b) == Rendered(a) + Rendered(b)
  {
  }

  lemma ParsedBack(lines: seq<Line>)
    requires forall l :: l in lines ==> Solid(l.text)
    ensures ParseLines(Rendered(lines)) == lines
  {
    forall i | 0 <= i < |lines| ensures LineOf(Rendered(lines)[i]) == lines[i] {
      assert lines[i] in lines;
      TrimStartOf(lines[i].col, lines[i].text);
    }
  }

  // ----- One line at a time -----

  /** An open key's canonical column is that of its source column. */
  predicate OpenOk(open: Open) { open.Key? ==> open.col == KeyColumn(open.src) }

  lemma ItemLine(open: Open, col: nat, text: string)
    requires "- " <= text
    ensures NewLine(open, Spaces(col) + text) == Spaces(ItemColumn(open, col)) + text
    ensures NextOpen(open, Spaces(col) + text) == open
  {
    TrimStartOf(col, text);
  }

  lemma KeyLine(open: Open, col: nat, text: string)
    requires Solid(text) && !IsItem(text)
    ensures NewLine(open, Spaces(col) + text) == Spaces(KeyColumn(col)) + text
    ensures IsBareKey(text) ==> NextOpen(open, Spaces(col) + text) == Key(col, KeyColumn(col))
    ensures OpenOk(open) ==> OpenOk(NextOpen(open, Spaces(col) + text))
  {
    TrimStartOf(col, text);
  }

  lemma {:induction false} NoComment(s: string)
    requires ' ' !in s
    ensures SplitComment(s) == |s|
  {
    if s != "" {
      assert s[0] != ' ';
      NoComment(s[1..]);
    }
  }

  lemma BareKey(key: string)
    requires KeyOk(key)
    ensures IsBareKey(key + ":") && Solid(key + ":") && !IsItem(key + ":")
  {
    NoComment(key + ":");
    assert (key + ":")[..|key| + 1] == key + ":";
    assert (key + ":")[0] == key[0];
  }

  // ----- Documents two lists deep -----

  /** Lists of lists of plain items, whose blocks begin with a scalar, as the info documents are. */
  predicate Shallow(es: seq<Entry>) {
    forall e :: e in es ==> e.value.List? ==> forall i :: i in e.value.items ==> FlatItem(i)
  }

  predicate FlatItem(item: Item) {
    item.Block? ==> item.entries != [] && item.entries[0].value.Scalar? && Flat(item.entries)
  }

  predicate Flat(es: seq<Entry>) {
    forall e :: e in es ==> e.value.List? ==> forall i :: i in e.value.items ==> i.Plain?
  }

  /** Under an open key the plain items of its list move four columns in. */
  lemma {:induction false} PlainItemsMove(items: seq<Item>)
    requires forall i :: i in items ==> i.Plain?
    ensures Reindented(Key(2, 6), Rendered(PrintItems(items, 2, 0))) == Rendered(PrintItems(items, 10, 4))
    ensures OpenAfter(Key(2, 6), Rendered(PrintItems(items, 2, 0))) == Key(2, 6)
    decreases |items|
  {
    hide NewLine, NextOpen;
    if items != [] {
      var text := "- " + items[0].text;
      assert items[0] in items;
      ItemLine(Key(2, 6), 2, text);
      PlainItemsMove(items[1..]);
      assert PrintItems(items, 2, 0) == [Line(2, text)] + PrintItems(items[1..], 2, 0);
      assert PrintItems(items, 10, 4) == [Line(10, text)] + PrintItems(items[1..], 10, 4);
      var lines := Rendered(PrintItems(items, 2, 0));
      assert lines[0] == Spaces(2) + text;
      assert lines[1..] == Rendered(PrintItems(items[1..], 2, 0));
      assert Rendered(PrintItems(items, 10, 4)) == [Spaces(10) + text] + Rendered(PrintItems(items[1..], 10, 4));
    }
  }

  /** The entries of a block move from column 2 to column 6. */
  lemma {:induction false} FlatEntriesMove(open: Open, es: seq<Entry>)
    requires OpenOk(open) && EntriesOk(es) && Flat(es)
    ensures var lines := Rendered(PrintEntries(es, 2, 0));
            Reindented(open, lines) == Rendered(PrintEntries(es, 6, 4)) && OpenOk(OpenAfter(open, lines))
    decreases |es|
  {
    if es == [] {
      assert Rendered([]) == [];
    } else {
      var e := es[0];
      assert e in es && EntriesOk(es[1..]) && Flat(es[1..]);
      assert PrintEntries(es, 2, 0) == PrintEntry(e, 2, 0) + PrintEntries(es[1..], 2, 0);
      assert PrintEntries(es, 6, 4) == PrintEntry(e, 6, 4) + PrintEntries(es[1..], 6, 4);
      hide *;
      FlatEntryMoves(open, e);
      var first, rest := Rendered(PrintEntry(e, 2, 0)), Rendered(PrintEntries(es[1..], 2, 0));
      RenderedConcat(PrintEntry(e, 2, 0), PrintEntries(es[1..], 2, 0));
      RenderedConcat(PrintEntry(e, 6, 4), PrintEntries(es[1..], 6, 4));
      ReindentedConcat(open, first, rest);
      FlatEntriesMove(OpenAfter(open, first), es[1..]);
    }
  }

  lemma ScalarLine(e: Entry)
    requires KeyOk(e.key) && e.value.Scalar?
    ensures Solid(e.key + ": " + e.value.text) && !IsItem(e.key + ": " + e.value.text)
  {
    assert (e.key + ": " + e.value.text)[0] == e.key[0];
  }

  lemma OneLine(open: Open, s: string)
    ensures Reindented(open, [s]) == [NewLine(open, s)] && OpenAfter(open, [s]) == NextOpen(open, s)
  {
    hide NewLine, NextOpen;
    assert [s][1..] == [];
  }

  lemma FlatEntryMoves(open: Open, e: Entry)
    requires OpenOk(open) && KeyOk(e.key) && (e.value.List? ==> forall i :: i in e.value.items ==> i.Plain?)
    ensures var lines := Rendered(PrintEntry(e, 2, 0));
            Reindented(open, lines) == Rendered(PrintEntry(e, 6, 4)) && OpenOk(OpenAfter(open, lines))
  {
    hide NewLine, NextOpen, Reindented, OpenAfter, Solid, IsItem, IsBareKey, PrintItems, KeyOk;
    if e.value.Scalar? {
      var text := e.key + ": " + e.value.text;
      ScalarLine(e);
      KeyLine(open, 2, text);
      OneLine(open, Spaces(2) + text);
      assert Rendered(PrintEntry(e, 2, 0)) == [Spaces(2) + text];
      assert Rendered(PrintEntry(e, 6, 4)) == [Spaces(6) + text];
    } else {
      var text, items := e.key + ":", e.value.items;
      BareKey(e.key);
      KeyLine(open, 2, text);
      OneLine(open, Spaces(2) + text);
      var first, rest := [Spaces(2) + text], Rendered(PrintItems(items, 2, 0));
      assert Rendered(PrintEntry(e, 2, 0)) == first + rest;
      assert Rendered(PrintEntry(e, 6, 4)) == [Spaces(6) + text] + Rendered(PrintItems(items, 10, 4));
      ReindentedConcat(open, first, rest);
      PlainItemsMove(items);
    }
  }

  lemma TopItemColumn(open: Open)
    requires OpenOk(open)
    ensures ItemColumn(open, 0) == 4
  {
  }

  lemma PlainItemMoves(open: Open, text: string)
    requires OpenOk(open)
    ensures var lines := Rendered(PrintItem(Plain(text), 0, 0));
            Reindented(open, lines) == Rendered(PrintItem(Plain(text), 4, 4)) && OpenAfter(open, lines) == open
  {
    assert ItemColumn(open, 0) == 4;
    assert Rendered(PrintItem(Plain(text), 0, 0)) == [Spaces(0) + ("- " + text)];
    assert Rendered(PrintItem(Plain(text), 4, 4)) == [Spaces(4) + ("- " + text)];
    hide *;
    ItemLine(open, 0, "- " + text);
    OneLine(open, Spaces(0) + ("- " + text));
  }

  lemma BlockItemMoves(open: Open, es: seq<Entry>)
    requires OpenOk(open) && es != [] && es[0].value.Scalar? && EntriesOk(es[1..]) && Flat(es[1..])
    ensures var lines := Rendered(PrintItem(Block(es), 0, 0));
            Reindented(open, lines) == Rendered(PrintItem(Block(es), 4, 4)) && OpenOk(OpenAfter(open, lines))
  {
    hide *;
    var text := "- " + (es[0].key + ": " + es[0].value.text);
    TopItemColumn(open);
    BlockLines(es, 0, 0);
    BlockLines(es, 4, 4);
    ItemLine(open, 0, text);
    OneLine(open, Spaces(0) + text);
    var rest := Rendered(PrintEntries(es[1..], 2, 0));
    ReindentedConcat(open, [Spaces(0) + text], rest);
    FlatEntriesMove(open, es[1..]);
  }

  /** A top-level item moves from column 0 to column 4, and its block with it. */
  lemma ItemMoves(open: Open, item: Item)
    requires OpenOk(open) && ItemOk(item) && FlatItem(item)
    ensures var lines := Rendered(PrintItem(item, 0, 0));
            Reindented(open, lines) == Rendered(PrintItem(item, 4, 4)) && OpenOk(OpenAfter(open, lines))
  {
    if item.Plain? {
      hide *;
      PlainItemMoves(open, item.text);
    } else {
      var es := item.entries;
      assert EntriesOk(es[1..]) && Flat(es[1..]);
      hide *;
      BlockItemMoves(open, item.entries);
    }
  }

  lemma BlockLines(es: seq<Entry>, col: nat, off: nat)
    requires es != [] && es[0].value.Scalar?
    ensures Rendered(PrintItem(Block(es), col, off))
         == [Spaces(col) + ("- " + (es[0].key + ": " + es[0].value.text))]
           + Rendered(PrintEntries(es[1..], col + 2, off))
  {
    var first := Line(col + 2, es[0].key + ": " + es[0].value.text);
    assert PrintEntries(es, col + 2, off) == [first] + PrintEntries(es[1..], col + 2, off);
    assert PrintItem(Block(es), col, off) == [Line(col, "- " + first.text)] + PrintEntries(es[1..], col + 2, off);
  }

  lemma {:induction false} ItemsMove(open: Open, items: seq<Item>)
    requires OpenOk(open) && forall i :: i in items ==> ItemOk(i) && FlatItem(i)
    ensures var lines := Rendered(PrintItems(items, 0, 0));
            Reindented(open, lines) == Rendered(PrintItems(items, 4, 4)) && OpenOk(OpenAfter(open, lines))
    decreases |items|
  {
    if items == [] {
      assert Rendered([]) == [];
    } else {
      var item := items[0];
      assert item in items && forall i :: i in items[1..] ==> i in items;
      assert PrintItems(items, 0, 0) == PrintItem(item, 0, 0) + PrintItems(items[1..], 0, 0);
      assert PrintItems(items, 4, 4) == PrintItem(item, 4, 4) + PrintItems(items[1..], 4, 4);
      hide *;
      ItemMoves(open, item);
      var first, rest := Rendered(PrintItem(item, 0, 0)), Rendered(PrintItems(items[1..], 0, 0));
      RenderedConcat(PrintItem(item, 0, 0), PrintItems(items[1..], 0, 0));
      RenderedConcat(PrintItem(item, 4, 4), PrintItems(items[1..], 4, 4));
      ReindentedConcat(open, first, rest);
      ItemsMove(OpenAfter(open, first), items[1..]);
    }
  }

  lemma EntryMoves(open: Open, e: Entry)
    requires OpenOk(open) && KeyOk(e.key) && ValueOk(e.value)
    requires e.value.List? ==> forall i :: i in e.value.items ==> FlatItem(i)
    ensures var lines := Rendered(PrintEntry(e, 0, 0));
            Reindented(open, lines) == Rendered(PrintEntry(e, 0, 4)) && OpenOk(OpenAfter(open, lines))
  {
    hide *;
    if e.value.Scalar? {
      var text := e.key + ": " + e.value.text;
      TopScalarLines(e);
      ScalarLine(e);
      KeyLine(open, 0, text);
      OneLine(open, Spaces(0) + text);
    } else {
      var text, items := e.key + ":", e.value.items;
      var first, rest := [Spaces(0) + text], Rendered(PrintItems(items, 0, 0));
      TopListLines(e);
      ItemsAreOk(e.value);
      BareKey(e.key);
      KeyLine(open, 0, text);
      OneLine(open, Spaces(0) + text);
      ReindentedConcat(open, first, rest);
      ItemsMove(OpenAfter(open, first), items);
    }
  }

  lemma TopScalarLines(e: Entry)
    requires e.value.Scalar?
    ensures var lines := [Spaces(0) + (e.key + ": " + e.value.text)];
            Rendered(PrintEntry(e, 0, 0)) == lines && Rendered(PrintEntry(e, 0, 4)) == lines
    ensures KeyColumn(0) == 0
  {
  }

  lemma TopListLines(e: Entry)
    requires e.value.List?
    ensures var first := [Spaces(0) + (e.key + ":")];
            && Rendered(PrintEntry(e, 0, 0)) == first + Rendered(PrintItems(e.value.items, 0, 0))
            && Rendered(PrintEntry(e, 0, 4)) == first + Rendered(PrintItems(e.value.items, 4, 4))
    ensures KeyColumn(0) == 0
  {
    hide PrintItems;
  }

  /** The transformation turns list offset 0 into list offset 4 throughout. */
  lemma {:induction false} EntriesMove(open: Open, es: seq<Entry>)
    requires OpenOk(open) && EntriesOk(es) && Shallow(es)
    ensures Reindented(open, Rendered(PrintEntries(es, 0, 0))) == Rendered(PrintEntries(es, 0, 4))
    decreases |es|
  {
    if es == [] {
      assert Rendered([]) == [];
    } else {
      var e := es[0];
      assert e in es && EntriesOk(es[1..]) && Shallow(es[1..]);
      assert PrintEntries(es, 0, 0) == PrintEntry(e, 0, 0) + PrintEntries(es[1..], 0, 0);
      assert PrintEntries(es, 0, 4) == PrintEntry(e, 0, 4) + PrintEntries(es[1..], 0, 4);
      hide *;
      EntryMoves(open, e);
      var first, rest := Rendered(PrintEntry(e, 0, 0)), Rendered(PrintEntries(es[1..], 0, 0));
      RenderedConcat(PrintEntry(e, 0, 0), PrintEntries(es[1..], 0, 0));
      RenderedConcat(PrintEntry(e, 0, 4), PrintEntries(es[1..], 0, 4));
      ReindentedConcat(open, first, rest);
      EntriesMove(OpenAfter(open, first), es[1..]);
    }
  }
}
