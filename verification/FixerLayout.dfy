/**
 The fixer on printed documents: from any list offset one pass reaches the
 canonical text, provided no template stands at two columns in that text.
 */
module FixerLayout {
  import opened InfoYml
  import opened Options
  import opened SigmaIndent
  import opened YamlBlocks
  import opened YamlFixer
  import opened YamlText

  // ----- Lines -----

  lemma {:induction false} NothingToTrim(s: string)
    requires forall c :: c in s ==> !IsWhite(c)
    ensures Trim(s) == s
  {
  }

  /** A key line: its template is its key. */
  lemma KeyTemplate(key: string, tail: string)
    requires KeyOk(key) && (tail == "" || tail[0] == ' ')
    ensures TemplateOf(key + ":" + tail) == Some(Template(key, false)) && !IsListLine(key + ":" + tail)
  {
    var t := key + ":" + tail;
    assert t[0] == key[0] && key[0] in key;
    assert TrimStart(t) == t;
    NothingToTrim(key);
    assert t == key + (":" + tail);
    BeforeTail(key, ":" + tail);
    hide TrimStart, Trim, BeforeColon;
  }

  /** Content that stands right after its dash and has a key. */
  predicate Itemized(x: string) { x != "" && !IsWhite(x[0]) && x[0] != ':' }

  /** A list line: its template is the key of its content. */
  lemma ItemTemplate(x: string)
    requires Itemized(x)
    ensures TemplateOf("- " + x) == Some(Template(Trim(BeforeColon(x)), true)) && "- " + Body("- " + x) == "- " + x
  {
    DashBody(x);
    KeyNonempty(x);
    hide Body, Trim, BeforeColon;
    assert ("- " + x)[0] == '-' && TrimStart("- " + x) == "- " + x;
  }

  lemma DashBody(x: string)
    requires Itemized(x)
    ensures Body("- " + x) == x
  {
    var t := "- " + x;
    assert t[1..] == " " + x;
    assert TrimDashes(t) == " " + x;
    assert (" " + x)[1..] == x;
    assert TrimStart(" " + x) == TrimStart(x) == x;
  }

  lemma KeyNonempty(x: string)
    requires Itemized(x)
    ensures Trim(BeforeColon(x)) != ""
  {
    var k := BeforeColon(x);
    assert k[0] == x[0] && TrimStart(k) == k;
    EndKept(k);
  }

  lemma {:induction false} EndKept(s: string)
    requires s != "" && !IsWhite(s[0])
    ensures TrimEnd(s) != ""
  {
    if IsWhite(s[|s| - 1]) {
      EndKept(s[..|s| - 1]);
    }
  }

  /** A rendered line has the template of its content and stands at its column. */
  lemma RenderedTemplate(col: nat, text: string)
    requires Solid(text)
    ensures TemplateOf(Spaces(col) + text) == TemplateOf(text) && Indent(Spaces(col) + text) == col
  {
    TrimStartOf(col, text);
    assert TrimStart(text) == text;
    hide TrimStart, Spaces;
  }

  // ----- Documents whose every line has a template -----

  predicate EntriesPlain(es: seq<Entry>) {
    forall e :: e in es ==> e.value.List? ==> forall i :: i in e.value.items ==> ItemPlain(i)
  }

  predicate ItemPlain(i: Item) {
    match i
    case Plain(text) => Itemized(text)
    case Block(es) => EntriesPlain(es)
  }

  /** The fixer can move the line and changes nothing else about it. */
  predicate Movable(text: string) {
    && Solid(text) && Clean(text) && TemplateOf(text).Some?
    && (IsListLine(text) ==> "- " + Body(text) == text)
  }

  predicate AllMovable(lines: seq<Line>) { forall l :: l in lines ==> Movable(l.text) }

  lemma KeyMovable(e: Entry)
    requires KeyOk(e.key) && ValueOk(e.value)
    ensures match e.value
            case Scalar(text) => Movable(e.key + ": " + text)
            case List(_) => Movable(e.key + ":")
  {
    hide TemplateOf, IsListLine, Solid, Clean, Body, KeyOk, ValueOk;
    EntryTextOk(e, 0);
    match e.value
    case Scalar(text) =>
      KeyTemplate(e.key, " " + text);
      assert e.key + ":" + (" " + text) == e.key + ": " + text && e.key + (": " + text) == e.key + ": " + text;
    case List(_) =>
      KeyTemplate(e.key, "");
      assert e.key + ":" + "" == e.key + ":";
  }

  lemma DashMovable(x: string)
    requires Itemized(x) && Clean(x)
    ensures Movable("- " + x)
  {
    ItemTemplate(x);
    assert ("- " + x)[0] == '-';
    hide TemplateOf, Body;
  }

  lemma {:induction false} EntriesMovable(es: seq<Entry>, col: nat, off: nat)
    requires EntriesOk(es) && EntriesPlain(es)
    ensures AllMovable(PrintEntries(es, col, off))
    decreases es, 1
  {
    if es != [] {
      var e := es[0];
      assert e in es && EntriesOk(es[1..]) && EntriesPlain(es[1..]);
      hide KeyOk, Movable, ItemOk, ItemPlain, PrintItems;
      EntriesMovable(es[1..], col, off);
      KeyMovable(e);
      if e.value.List? {
        ItemsMovable(e.value.items, col + off, off);
      }
    }
  }

  lemma {:induction false} ItemsMovable(items: seq<Item>, col: nat, off: nat)
    requires forall i :: i in items ==> ItemOk(i) && ItemPlain(i)
    ensures AllMovable(PrintItems(items, col, off))
    decreases items, 0
  {
    if items != [] {
      hide EntriesOk, Split, Movable, Itemized, PrintEntries;
      var item := items[0];
      assert ItemOk(item) && ItemPlain(item);
      ItemsMovable(items[1..], col, off);
      match item
      case Plain(text) => DashMovable(text);
      case Block(es) =>
        EntriesMovable(es, col + 2, off);
        BlockMovable(es, col, off);
    }
  }

  lemma BlockMovable(es: seq<Entry>, col: nat, off: nat)
    requires es != [] && EntriesOk(es) && AllMovable(PrintEntries(es, col + 2, off))
    ensures AllMovable(PrintItem(Block(es), col, off))
  {
    hide Movable, EntriesOk;
    var lines := PrintEntries(es, col + 2, off);
    EntriesStart(es, col + 2, off);
    FirstItemized(es, col + 2, off);
    assert Movable(lines[0].text);
    MovableIsClean(lines[0].text);
    DashMovable(lines[0].text);
  }

  lemma MovableIsClean(text: string)
    requires Movable(text)
    ensures Clean(text)
  {
  }

  lemma FirstItemized(es: seq<Entry>, col: nat, off: nat)
    requires es != [] && EntriesOk(es)
    ensures PrintEntries(es, col, off) != [] && Itemized(PrintEntries(es, col, off)[0].text)
  {
    var e := es[0];
    assert KeyOk(e.key) && e.key[0] in e.key;
    var first := PrintEntry(e, col, off);
    assert first[0].text[0] == e.key[0];
    assert PrintEntries(es, col, off)[0] == first[0];
  }

  // ----- The same lines at every offset -----

  ghost predicate SameText(a: seq<Line>, b: seq<Line>) {
    |a| == |b| && forall i :: 0 <= i < |a| ==> a[i].text == b[i].text
  }

  lemma SameTextConcat(a: seq<Line>, b: seq<Line>, c: seq<Line>, d: seq<Line>)
    requires SameText(a, b) && SameText(c, d)
    ensures SameText(a + c, b + d)
  {
  }

  lemma {:induction false} EntriesSameText(es: seq<Entry>, col: nat, off: nat, col': nat, off': nat)
    ensures SameText(PrintEntries(es, col, off), PrintEntries(es, col', off'))
    decreases es, 2
  {
    if es != [] {
      hide PrintEntry, SameText;
      EntrySameText(es[0], col, off, col', off');
      EntriesSameText(es[1..], col, off, col', off');
      SameTextConcat(PrintEntry(es[0], col, off), PrintEntry(es[0], col', off'),
                     PrintEntries(es[1..], col, off), PrintEntries(es[1..], col', off'));
    }
  }

  lemma {:induction false} EntrySameText(e: Entry, col: nat, off: nat, col': nat, off': nat)
    ensures SameText(PrintEntry(e, col, off), PrintEntry(e, col', off'))
    decreases e, 1
  {
    hide PrintItems;
    if e.value.List? {
      ItemsSameText(e.value.items, col + off, off, col' + off', off');
      SameTextConcat([Line(col, e.key + ":")], [Line(col', e.key + ":")],
                     PrintItems(e.value.items, col + off, off), PrintItems(e.value.items, col' + off', off'));
    }
  }

  lemma {:induction false} ItemsSameText(items: seq<Item>, col: nat, off: nat, col': nat, off': nat)
    ensures SameText(PrintItems(items, col, off), PrintItems(items, col', off'))
    decreases items, 0
  {
    if items != [] {
      hide PrintEntries;
      var item := items[0];
      ItemsSameText(items[1..], col, off, col', off');
      if item.Block? {
        EntriesSameText(item.entries, col + 2, off, col' + 2, off');
      }
      assert SameText(PrintItem(item, col, off), PrintItem(item, col', off'));
      SameTextConcat(PrintItem(item, col, off), PrintItem(item, col', off'),
                     PrintItems(items[1..], col, off), PrintItems(items[1..], col', off'));
    }
  }

  // ----- The fixer reaches the canonical text -----

  function TextAt(es: seq<Entry>, off: nat): string { JoinLines(Rendered(PrintEntries(es, 0, off))) }

  lemma LineMoves(cs: seq<Placed>, col: nat, text: string, target: nat)
    requires Movable(text) && CanonicalIndent(cs, TemplateOf(text).value) == Some(target)
    ensures FixedLine(cs, Spaces(col) + text) == Spaces(target) + text
    ensures Misplaced(Spaces(col) + text, cs) <==> col != target
  {
    RenderedTemplate(col, text);
    TrimStartOf(col, text);
    assert TrimStart(text) == text;
    var line := Spaces(col) + text;
    hide TrimStart, Spaces, CanonicalIndent, BeforeColon, Body;
    assert TrimStart(line) == text;
    if TemplateOf(text).value.isList {
      assert Spaces(target) + "- " + Body(text) == Spaces(target) + ("- " + Body(text));
    }
  }

  /** With one column for each template, a line's canonical place is where the canonical form has it. */
  lemma Places(lines: seq<Line>, i: nat)
    requires AllMovable(lines) && i < |lines| && OneColumnEach(YamlLines(Rendered(lines)))
    ensures TemplateOf(lines[i].text).Some?
    ensures CanonicalIndent(YamlLines(Rendered(lines)), TemplateOf(lines[i].text).value) == Some(lines[i].col)
  {
    hide YamlLines, CanonicalIndent, TemplateOf, Indent, Body, IsListLine;
    var cs := YamlLines(Rendered(lines));
    assert lines[i] in lines && Movable(lines[i].text);
    var t := TemplateOf(lines[i].text).value;
    RenderedTemplate(lines[i].col, lines[i].text);
    PlacedMeaning(Rendered(lines), Placed(t, lines[i].col));
    assert Rendered(lines)[i] in Rendered(lines);
    FirstPlace(cs, t);
    assert Placed(t, lines[i].col).template == t;
    assert CanonicalIndent(cs, t).Some?;
    assert Placed(t, CanonicalIndent(cs, t).value).template == t;
  }

  lemma LinesMove(from: seq<Line>, to: seq<Line>)
    requires AllMovable(to) && SameText(from, to) && OneColumnEach(YamlLines(Rendered(to)))
    ensures var cs := YamlLines(Rendered(to));
            && FixedLines(cs, Rendered(from)) == Rendered(to)
            && (AnyMisplaced(Rendered(from), cs) || Rendered(from) == Rendered(to))
  {
    hide YamlLines, CanonicalIndent, TemplateOf, FixedLine, Misplaced, Movable, Spaces;
    var cs, a, b := YamlLines(Rendered(to)), Rendered(from), Rendered(to);
    forall i | 0 <= i < |to|
      ensures FixedLine(cs, a[i]) == b[i] && (Misplaced(a[i], cs) <==> from[i].col != to[i].col)
    {
      assert to[i] in to;
      Places(to, i);
      LineMoves(cs, from[i].col, to[i].text, to[i].col);
    }
    if !AnyMisplaced(a, cs) {
      forall i | 0 <= i < |to| ensures a[i] == b[i] {
        assert a[i] in a;
      }
      assert a == b;
    }
  }

  /**
   From any list offset one pass of the fixer gives the canonical text and a
   newline, whether or not it had to write.
   */
  lemma FixerReachesCanonical(es: seq<Entry>, off: nat)
    requires es != [] && EntriesOk(es) && EntriesPlain(es)
    requires OneColumnEach(YamlLines(Rendered(PrintEntries(es, 0, 4))))
    ensures Fixed(TextAt(es, off) + "\n", TextAt(es, 4)) == TextAt(es, 4) + "\n"
  {
    var from, to := PrintEntries(es, 0, off), PrintEntries(es, 0, 4);
    var a, b := Rendered(from), Rendered(to);
    var original, canonical := TextAt(es, off) + "\n", TextAt(es, 4);
    ReadBackLines(es, off);
    ReadBackLines(es, 4);
    hide *;
    EntriesMovable(es, 0, 4);
    EntriesSameText(es, 0, off, 0, 4);
    LinesMove(from, to);
    FixedMeaning(original, canonical, a, b);
  }

  lemma ReadBackLines(es: seq<Entry>, off: nat)
    requires es != [] && EntriesOk(es)
    ensures var lines := Rendered(PrintEntries(es, 0, off));
            && TextAt(es, off) == JoinLines(lines)
            && LinesOf(TextAt(es, off) + "\n") == lines && LinesOf(TextAt(es, off)) == lines
            && LfText(TextAt(es, off) + "\n")
  {
    var lines := PrintEntries(es, 0, off);
    assert forall l: Line :: LineOk(l) ==> true;
    assert TextAt(es, off) == JoinLines(Rendered(lines));
    EntriesStart(es, 0, off);
    PrintedEntriesOk(es, 0, off);
    hide *;
    RenderedIsClean(lines);
    SameLength(lines);
    LinesOfJoined(Rendered(lines));
    assert Rendered(lines)[|Rendered(lines)| - 1] in Rendered(lines);
    LinesOfOpen(Rendered(lines));
    JoinIsLf(Rendered(lines));
    LfMore(JoinLines(Rendered(lines)));
  }

  lemma SameLength(lines: seq<Line>)
    ensures |Rendered(lines)| == |lines|
  {
  }

  lemma LfMore(s: string)
    requires LfText(s)
    ensures LfText(s + "\n")
  {
  }

  lemma FixedMeaning(original: string, canonical: string, a: seq<string>, b: seq<string>)
    requires LfText(original) && LinesOf(original) == a && original == JoinLines(a) + "\n"
    requires LinesOf(canonical) == b && canonical == JoinLines(b)
    requires FixedLines(YamlLines(b), a) == b && (AnyMisplaced(a, YamlLines(b)) || a == b)
    ensures Fixed(original, canonical) == canonical + "\n"
  {
    TrimmedIsSame(original);
    assert NeedsReindent(TrimNewlines(original), canonical) == NeedsReindent(original, canonical);
    hide LinesOf, JoinLines, YamlLines, TrimNewlines, NeedsReindent, AnyMisplaced, FixedLines;
    NeedsMeaning(original, canonical);
  }
}
