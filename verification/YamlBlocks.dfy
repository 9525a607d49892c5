/**
 Block-style documents: a printer for any list offset, and a reader that
 recovers the document from the nesting its indentation shows.
 */
module YamlBlocks {
  import opened YamlText

  // ----- Documents -----

  datatype Entry = Entry(key: string, value: Value)
  datatype Value = Scalar(text: string) | List(items: seq<Item>)
  datatype Item = Plain(text: string) | Block(entries: seq<Entry>)

  /** A line as its column and its content. */
  datatype Line = Line(col: nat, text: string)

  // Block layout: list items sit `off` columns under their key, item keys two columns further.

  function PrintEntries(es: seq<Entry>, col: nat, off: nat): seq<Line> {
    if es == [] then [] else PrintEntry(es[0], col, off) + PrintEntries(es[1..], col, off)
  }

  function PrintEntry(e: Entry, col: nat, off: nat): seq<Line> {
    match e.value
    case Scalar(text) => [Line(col, e.key + ": " + text)]
    case List(items) => [Line(col, e.key + ":")] + PrintItems(items, col + off, off)
  }

  function PrintItems(items: seq<Item>, col: nat, off: nat): seq<Line> {
    if items == [] then [] else PrintItem(items[0], col, off) + PrintItems(items[1..], col, off)
  }

  function PrintItem(item: Item, col: nat, off: nat): seq<Line> {
    match item
    case Plain(text) => [Line(col, "- " + text)]
    case Block(entries) => Dashed(PrintEntries(entries, col + 2, off), col)
  }

  /** The first line of a block shares its line with the dash. */
  function Dashed(lines: seq<Line>, col: nat): seq<Line> {
    if lines == [] then [] else [Line(col, "- " + lines[0].text)] + lines[1..]
  }

  // ----- Well-formed documents -----

  predicate KeyOk(key: string) {
    key != "" && key[0] !in "-#'\"" && ':' !in key && forall c :: c in key ==> !IsWhite(c)
  }

  predicate EntriesOk(es: seq<Entry>) {
    forall e :: e in es ==> KeyOk(e.key) && ValueOk(e.value)
  }

  predicate ValueOk(v: Value) {
    match v
    case Scalar(text) => Clean(text)
    case List(items) => forall i :: i in items ==> ItemOk(i)
  }

  /** A plain item must not read as a key. */
  predicate ItemOk(item: Item) {
    match item
    case Plain(text) => Clean(text) && Split(text) == NoKey
    case Block(entries) => entries != [] && EntriesOk(entries)
  }

  // ----- Reading nesting from indentation -----

  predicate IsItem(text: string) { text == "-" || "- " <= text }

  datatype KeySplit = NoKey | Bare(key: string) | Inline(key: string, text: string)

  function ColonAt(s: string): (k: nat)
    ensures k <= |s|
  {
    if s == "" || (s[0] == ':' && (|s| == 1 || s[1] == ' ')) then 0 else 1 + ColonAt(s[1..])
  }

  /** A key ends at the first colon that ends the line or stands before a space; quoted text has none. */
  function Split(text: string): KeySplit {
    var k := ColonAt(text);
    if text == "" || text[0] in "'\"" || k == |text| then NoKey
    else if k + 1 == |text| then Bare(text[..k])
    else if k + 2 <= |text| then Inline(text[..k], text[k + 2..])
    else NoKey
  }

  function Size(lines: seq<Line>): nat {
    if lines == [] then 0 else |lines[0].text| + 1 + Size(lines[1..])
  }

  datatype Read<T> = Read(found: seq<T>, rest: seq<Line>)

  function ReadEntries(lines: seq<Line>, col: nat): (r: Read<Entry>)
    ensures Size(r.rest) <= Size(lines)
    decreases Size(lines)
  {
    if lines == [] || lines[0].col != col || IsItem(lines[0].text) then Read([], lines)
    else
      match Split(lines[0].text)
      case NoKey => Read([], lines)
      case Inline(key, text) =>
        var r := ReadEntries(lines[1..], col);
        Read([Entry(key, Scalar(text))] + r.found, r.rest)
      case Bare(key) =>
        var below := lines[1..];
        var items :=
          if below != [] && below[0].col >= col && IsItem(below[0].text) then ReadItems(below, below[0].col)
          else Read([], below);
        var r := ReadEntries(items.rest, col);
        Read([Entry(key, List(items.found))] + r.found, r.rest)
  }

  function ReadItems(lines: seq<Line>, col: nat): (r: Read<Item>)
    ensures Size(r.rest) <= Size(lines)
    decreases Size(lines)
  {
    if lines == [] || lines[0].col != col || !("- " <= lines[0].text) then Read([], lines)
    else
      var inner := Line(col + 2, lines[0].text[2..]);
      var block := if Split(inner.text).NoKey? then Read([], lines)
                   else ReadEntries([inner] + lines[1..], col + 2);
      if block.found == [] then
        var r := ReadItems(lines[1..], col);
        Read([Plain(inner.text)] + r.found, r.rest)
      else
        var r := ReadItems(block.rest, col);
        Read([Block(block.found)] + r.found, r.rest)
  }

  lemma {:induction false} KeySplits(key: string, tail: string)
    requires KeyOk(key) && (tail == "" || tail[0] == ' ')
    ensures ColonAt(key + ":" + tail) == |key|
    ensures Split(key + ":" + tail) == if tail == "" then Bare(key) else Inline(key, tail[1..])
  {
    ColonAfter(key, tail);
    var s := key + ":" + tail;
    assert s[..|key|] == key && s[|key| + 1..] == tail;
    assert tail != "" ==> s[|key| + 2..] == tail[1..];
    assert s[0] == key[0];
  }

  lemma {:induction false} ColonAfter(key: string, tail: string)
    requires ':' !in key && (tail == "" || tail[0] == ' ')
    ensures ColonAt(key + ":" + tail) == |key|
  {
    if key == "" {
      assert key + ":" + tail == ":" + tail;
    } else {
      assert (key + ":" + tail)[1..] == key[1..] + ":" + tail;
      ColonAfter(key[1..], tail);
    }
  }

  /** Nothing that follows belongs to a block at this column. */
  predicate EntriesEnd(rest: seq<Line>, col: nat) {
    rest == [] || rest[0].col < col
  }

  predicate ItemsEnd(rest: seq<Line>, col: nat) {
    rest == [] || rest[0].col < col || (rest[0].col == col && !IsItem(rest[0].text))
  }

  lemma EntryStarts(e: Entry, col: nat, off: nat)
    requires KeyOk(e.key)
    ensures var lines := PrintEntry(e, col, off);
            lines != [] && lines[0].col == col && !IsItem(lines[0].text) && Split(lines[0].text) != NoKey
  {
    var lines := PrintEntry(e, col, off);
    assert lines[0].text[0] == e.key[0];
    match e.value
    case Scalar(text) =>
      KeySplits(e.key, " " + text);
      assert e.key + ":" + (" " + text) == e.key + ": " + text;
    case List(items) =>
      KeySplits(e.key, "");
      assert e.key + ":" + "" == e.key + ":";
  }

  lemma EntriesStart(es: seq<Entry>, col: nat, off: nat)
    requires EntriesOk(es) && es != []
    ensures var lines := PrintEntries(es, col, off);
            lines != [] && lines[0].col == col && !IsItem(lines[0].text) && Split(lines[0].text) != NoKey
  {
    EntryStarts(es[0], col, off);
  }

  /** A list ends where the next entry, or a shallower line, begins. */
  lemma ListEnds(es: seq<Entry>, col: nat, off: nat, rest: seq<Line>)
    requires EntriesOk(es) && EntriesEnd(rest, col)
    ensures var tail := PrintEntries(es, col, off) + rest;
            ItemsEnd(tail, col) && ItemsEnd(tail, col + off)
  {
    if es != [] {
      EntriesStart(es, col, off);
    }
  }

  lemma ItemsStart(items: seq<Item>, col: nat, off: nat)
    requires items != [] && forall i :: i in items ==> ItemOk(i)
    ensures var lines := PrintItems(items, col, off);
            lines != [] && lines[0].col == col && "- " <= lines[0].text
  {
    var item := items[0];
    assert ItemOk(item);
    if item.Block? {
      EntriesStart(item.entries, col + 2, off);
    }
  }

  lemma NothingToRead(rest: seq<Line>, col: nat, off: nat)
    requires EntriesEnd(rest, col)
    ensures ReadEntries(PrintEntries([], col, off) + rest, col) == Read([], rest)
  {
    assert PrintEntries([], col, off) + rest == rest;
  }

  lemma PrintFirst(es: seq<Entry>, col: nat, off: nat, rest: seq<Line>)
    requires es != [] && EntriesOk(es)
    ensures PrintEntries(es, col, off) + rest == PrintEntry(es[0], col, off) + (PrintEntries(es[1..], col, off) + rest)
    ensures KeyOk(es[0].key) && ValueOk(es[0].value) && EntriesOk(es[1..])
  {
    hide PrintEntry, KeyOk;
  }

  /** Reading a printed block gives its entries, at any column and any list offset. */
  lemma {:induction false} EntriesReadBack(es: seq<Entry>, col: nat, off: nat, rest: seq<Line>)
    requires EntriesOk(es) && EntriesEnd(rest, col)
    ensures ReadEntries(PrintEntries(es, col, off) + rest, col) == Read(es, rest)
    decreases es, 1
  {
    if es == [] {
      NothingToRead(rest, col, off);
    } else {
      hide *;
      var e, tail := es[0], PrintEntries(es[1..], col, off) + rest;
      PrintFirst(es, col, off, rest);
      EntriesReadBack(es[1..], col, off, rest);
      assert es == [e] + es[1..];
      if e.value.Scalar? {
        ScalarReadBack(e, col, off, tail);
      } else {
        ItemsAreOk(e.value);
        ListEnds(es[1..], col, off, rest);
        ItemsReadBack(e.value.items, col + off, off, tail);
        ListReadBack(e, col, off, tail);
      }
    }
  }

  lemma ItemsAreOk(v: Value)
    requires v.List? && ValueOk(v)
    ensures forall i :: i in v.items ==> ItemOk(i)
  {
  }

  lemma ScalarReadBack(e: Entry, col: nat, off: nat, tail: seq<Line>)
    requires KeyOk(e.key) && e.value.Scalar?
    ensures var r := ReadEntries(tail, col);
            ReadEntries(PrintEntry(e, col, off) + tail, col) == Read([e] + r.found, r.rest)
  {
    hide KeyOk;
    EntryStarts(e, col, off);
    KeySplits(e.key, " " + e.value.text);
    assert e.key + ":" + (" " + e.value.text) == e.key + ": " + e.value.text;
    assert (PrintEntry(e, col, off) + tail)[1..] == tail;
  }

  lemma ListReadBack(e: Entry, col: nat, off: nat, tail: seq<Line>)
    requires KeyOk(e.key) && e.value.List? && ItemsEnd(tail, col) && ValueOk(e.value)
    requires ReadItems(PrintItems(e.value.items, col + off, off) + tail, col + off) == Read(e.value.items, tail)
    ensures var r := ReadEntries(tail, col);
            ReadEntries(PrintEntry(e, col, off) + tail, col) == Read([e] + r.found, r.rest)
  {
    hide KeyOk, ItemOk, ReadItems;
    EntryStarts(e, col, off);
    KeySplits(e.key, "");
    assert e.key + ":" + "" == e.key + ":";
    var items := e.value.items;
    var below := PrintItems(items, col + off, off) + tail;
    assert (PrintEntry(e, col, off) + tail)[1..] == below;
    if items == [] {
      assert below == tail;
    } else {
      ItemsStart(items, col + off, off);
    }
  }

  lemma {:induction false} ItemsReadBack(items: seq<Item>, col: nat, off: nat, rest: seq<Line>)
    requires (forall i :: i in items ==> ItemOk(i)) && ItemsEnd(rest, col)
    ensures ReadItems(PrintItems(items, col, off) + rest, col) == Read(items, rest)
    decreases items, 0
  {
    hide *;
    if items == [] {
      NoItemsToRead(rest, col, off);
    } else {
      var item, tail := items[0], PrintItems(items[1..], col, off) + rest;
      ItemsReadBack(items[1..], col, off, rest);
      assert items == [item] + items[1..];
      PrintFirstItem(items, col, off, rest);
      if item.Plain? {
        PlainReadBack(item, col, off, tail);
      } else {
        ItemsEndBlock(items[1..], col, off, rest);
        EntriesReadBack(item.entries, col + 2, off, tail);
        BlockReadBack(item, col, off, tail);
      }
    }
  }

  lemma NoItemsToRead(rest: seq<Line>, col: nat, off: nat)
    requires ItemsEnd(rest, col)
    ensures ReadItems(PrintItems([], col, off) + rest, col) == Read([], rest)
  {
    assert PrintItems([], col, off) + rest == rest;
  }

  lemma PrintFirstItem(items: seq<Item>, col: nat, off: nat, rest: seq<Line>)
    requires items != [] && ItemOk(items[0])
    ensures PrintItems(items, col, off) + rest
            == PrintItem(items[0], col, off) + (PrintItems(items[1..], col, off) + rest)
    ensures items[0].Block? ==> EntriesOk(items[0].entries)
  {
    hide PrintItem, EntriesOk;
  }

  lemma ItemsEndBlock(items: seq<Item>, col: nat, off: nat, rest: seq<Line>)
    requires (forall i :: i in items ==> ItemOk(i)) && ItemsEnd(rest, col)
    ensures EntriesEnd(PrintItems(items, col, off) + rest, col + 2)
  {
    hide ItemOk;
    if items != [] {
      ItemsStart(items, col, off);
    }
  }

  lemma PlainReadBack(item: Item, col: nat, off: nat, tail: seq<Line>)
    requires item.Plain? && ItemOk(item)
    ensures var r := ReadItems(tail, col);
            ReadItems(PrintItem(item, col, off) + tail, col) == Read([item] + r.found, r.rest)
  {
    hide Split;
    assert ("- " + item.text)[2..] == item.text;
    assert (PrintItem(item, col, off) + tail)[1..] == tail;
  }

  lemma BlockReadBack(item: Item, col: nat, off: nat, tail: seq<Line>)
    requires item.Block? && ItemOk(item)
    requires ReadEntries(PrintEntries(item.entries, col + 2, off) + tail, col + 2) == Read(item.entries, tail)
    ensures var r := ReadItems(tail, col);
            ReadItems(PrintItem(item, col, off) + tail, col) == Read([item] + r.found, r.rest)
  {
    hide Split, EntriesOk, PrintEntries, ReadEntries;
    EntriesStart(item.entries, col + 2, off);
    var inner := PrintEntries(item.entries, col + 2, off);
    var lines := PrintItem(item, col, off) + tail;
    assert ("- " + inner[0].text)[2..] == inner[0].text;
    assert [Line(col + 2, inner[0].text)] + lines[1..] == inner + tail;
  }

  /** The layout does not matter: any list offset is read as the same document. */
  lemma LayoutIsIrrelevant(es: seq<Entry>, off: nat)
    requires EntriesOk(es)
    ensures ReadEntries(PrintEntries(es, 0, off), 0) == Read(es, [])
  {
    EntriesReadBack(es, 0, off, []);
    assert PrintEntries(es, 0, off) + [] == PrintEntries(es, 0, off);
  }
}
