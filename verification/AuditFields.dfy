/**
 Raw key=value fields of audit records: a scan over bytes that always ends, and
 that on ordinary records returns the last value given for each key.
 */
module AuditFields {
  import opened Options
  import opened Bytes
  import opened Lines

  const SPACE: byte := 32
  const EQUALS: byte := 61
  const CLOSE: byte := 41
  const COLON: byte := 58

  type Text = seq<byte>
  type Fields = map<Text, Text>

  datatype Pair = Pair(key: Text, value: Text)

  // ----- What the scan computes -----

  function DropSpaces(b: Text): (r: Text)
    ensures |r| <= |b|
  {
    if b != [] && b[0] == SPACE then DropSpaces(b[1..]) else b
  }

  /** Index of the first such byte, or the length when there is none. */
  function IndexOf(b: Text, c: byte): (k: nat)
    ensures k <= |b|
  {
    if b == [] || b[0] == c then 0 else 1 + IndexOf(b[1..], c)
  }

  function Scan(b: Text, fields: Fields): Fields
    decreases |b|
  {
    var t := DropSpaces(b);
    var e := IndexOf(t, EQUALS);
    if e + 1 >= |t| then fields
    else
      var rest := t[e + 1..];
      var v := IndexOf(rest, SPACE);
      Scan(rest[v..], fields[t[..e] := rest[..v]])
  }

  /** Position of the first "):". */
  function BodyStart(line: Text): (r: Option<nat>)
    ensures r.Some? ==> r.value + 2 <= |line|
  {
    if |line| < 2 then None
    else if line[0] == CLOSE && line[1] == COLON then Some(0)
    else match BodyStart(line[1..]) case None => None case Some(k) => Some(k + 1)
  }

  function LineFields(line: Text, fields: Fields): Fields {
    match BodyStart(line)
    case None => fields
    case Some(k) => if line[k + 2..] == [] || line[k + 2] != SPACE then fields else Scan(line[k + 3..], fields)
  }

  /** All pieces between newlines, the last one included. */
  function Split(b: Text): (r: seq<Text>)
    ensures r != []
    decreases |b|
  {
    var k := FirstNewline(b);
    if k == |b| then [b] else [b[..k]] + Split(b[k + 1..])
  }

  function AllFields(pieces: seq<Text>): Fields {
    if pieces == [] then map[] else LineFields(pieces[|pieces| - 1], AllFields(pieces[..|pieces| - 1]))
  }

  // ----- The scanner -----

  method ExtractRawFields(lines: Text) returns (fields: Fields)
    ensures fields == AllFields(Split(lines))
  {
    hide LineFields, BodyStart, Scan;
    fields := map[];
    var pieces := Split(lines);
    for n := 0 to |pieces|
      invariant fields == AllFields(pieces[..n])
    {
      assert pieces[..n + 1][..n] == pieces[..n];
      fields := ExtractLine(pieces[n], fields);
    }
    assert pieces[..|pieces|] == pieces;
  }

  method ExtractLine(line: Text, before: Fields) returns (fields: Fields)
    ensures fields == LineFields(line, before)
  {
    hide Scan;
    fields := before;
    if line == [] {
      return;
    }
    var bodyStart := BodyStart(line);
    if bodyStart.None? {
      return;
    }
    var body := line[bodyStart.value + 2..];
    if body == [] || body[0] != SPACE {
      return;
    }
    assert body[1..] == line[bodyStart.value + 3..];
    fields := ScanBody(body[1..], fields);
  }

  method ScanBody(body: Text, before: Fields) returns (fields: Fields)
    ensures fields == Scan(body, before)
  {
    hide DropSpaces, IndexOf;
    fields := before;
    var i := 0;
    while i < |body|
      invariant 0 <= i <= |body| && Scan(body[i..], fields) == Scan(body, before)
    {
      ghost var start := i;
      i := SkipSpaces(body, i);
      assert DropSpaces(body[start..]) == body[i..];
      if i >= |body| {
        break;
      }
      var keyStart := i;
      i := Find(body, i, EQUALS);
      assert IndexOf(body[keyStart..], EQUALS) == i - keyStart;
      if i >= |body| {
        break;
      }
      var key := body[keyStart..i];
      assert body[keyStart..][..i - keyStart] == key;
      i := i + 1;
      if i >= |body| {
        break;
      }
      var valStart := i;
      assert body[keyStart..][valStart - keyStart..] == body[valStart..];
      i := Find(body, i, SPACE);
      assert IndexOf(body[valStart..], SPACE) == i - valStart;
      var value := body[valStart..i];
      assert body[valStart..][..i - valStart] == value && body[valStart..][i - valStart..] == body[i..];
      assert Scan(body[start..], fields) == Scan(body[i..], fields[key := value]);
      fields := fields[key := value];
    }
    if i == |body| {
      NothingLeft(fields);
      assert body[i..] == [];
    }
  }

  lemma NothingLeft(fields: Fields)
    ensures Scan([], fields) == fields
  {
  }

  method SkipSpaces(body: Text, start: nat) returns (i: nat)
    requires start <= |body|
    ensures start <= i <= |body| && DropSpaces(body[start..]) == body[i..]
  {
    i := start;
    while i < |body| && body[i] == SPACE
      invariant start <= i <= |body| && DropSpaces(body[start..]) == DropSpaces(body[i..])
    {
      assert body[i..][1..] == body[i + 1..];
      i := i + 1;
    }
  }

  method Find(body: Text, start: nat, c: byte) returns (i: nat)
    requires start <= |body|
    ensures start <= i <= |body| && IndexOf(body[start..], c) == i - start
  {
    i := start;
    while i < |body| && body[i] != c
      invariant start <= i <= |body| && IndexOf(body[start..], c) == i - start + IndexOf(body[i..], c)
    {
      assert body[i..][1..] == body[i + 1..];
      i := i + 1;
    }
  }

  // ----- Ordinary records -----

  predicate PlainPair(p: Pair) {
    && EQUALS !in p.key && SPACE !in p.key && SPACE !in p.value
    && NEWLINE !in p.key && NEWLINE !in p.value
  }

  function Token(p: Pair): Text { p.key + [EQUALS] + p.value }

  /** Tokens joined by single spaces. */
  function Body(pairs: seq<Pair>): Text {
    if pairs == [] then []
    else if |pairs| == 1 then Token(pairs[0])
    else Token(pairs[0]) + [SPACE] + Body(pairs[1..])
  }

  /** The scanner never records an empty value at the very end of a line. */
  function Recorded(pairs: seq<Pair>): seq<Pair> {
    if pairs != [] && pairs[|pairs| - 1].value == [] then pairs[..|pairs| - 1] else pairs
  }

  function LastWins(fields: Fields, pairs: seq<Pair>): Fields
    decreases |pairs|
  {
    if pairs == [] then fields else LastWins(fields[pairs[0].key := pairs[0].value], pairs[1..])
  }

  ghost predicate IsLast(pairs: seq<Pair>, key: Text, i: int) {
    0 <= i < |pairs| && pairs[i].key == key && forall j :: i < j < |pairs| ==> pairs[j].key != key
  }

  /** The value of a key is the one its last pair gives it. */
  lemma {:induction false} LastWinsMeaning(fields: Fields, pairs: seq<Pair>, key: Text)
    ensures var m := LastWins(fields, pairs);
            && (key in m <==> key in fields || exists i :: 0 <= i < |pairs| && pairs[i].key == key)
            && (forall i :: IsLast(pairs, key, i) ==> m[key] == pairs[i].value)
            && (key in fields && (forall i :: 0 <= i < |pairs| ==> pairs[i].key != key) ==> m[key] == fields[key])
    decreases |pairs|
  {
    if pairs != [] {
      var p, rest := pairs[0], pairs[1..];
      LastWinsMeaning(fields[p.key := p.value], rest, key);
      assert forall i :: 0 < i < |pairs| ==> pairs[i] == rest[i - 1];
      assert forall i :: 0 <= i < |rest| ==> rest[i] == pairs[i + 1];
      forall i | IsLast(pairs, key, i) ensures LastWins(fields, pairs)[key] == pairs[i].value {
        if i > 0 {
          assert IsLast(rest, key, i - 1);
        }
      }
    }
  }

  lemma {:induction false} IndexAfter(head: Text, c: byte, tail: Text)
    requires c !in head
    ensures IndexOf(head + [c] + tail, c) == |head|
  {
    if head == [] {
      assert head + [c] + tail == [c] + tail;
    } else {
      assert (head + [c] + tail)[1..] == head[1..] + [c] + tail;
      IndexAfter(head[1..], c, tail);
    }
  }

  lemma {:induction false} IndexAbsent(b: Text, c: byte)
    requires c !in b
    ensures IndexOf(b, c) == |b|
  {
    if b != [] {
      IndexAbsent(b[1..], c);
    }
  }

  lemma ScanKey(key: Text, rest: Text, fields: Fields)
    requires EQUALS !in key && SPACE !in key
    ensures var v := IndexOf(rest, SPACE);
            Scan(key + [EQUALS] + rest, fields)
            == if rest == [] then fields else Scan(rest[v..], fields[key := rest[..v]])
  {
    var b := key + [EQUALS] + rest;
    assert b[0] == if key == [] then EQUALS else key[0];
    assert DropSpaces(b) == b;
    IndexAfter(key, EQUALS, rest);
    assert b[|key| + 1..] == rest && b[..|key|] == key;
  }

  /** One token and what follows it. */
  lemma ScanToken(p: Pair, tail: Text, fields: Fields)
    requires PlainPair(p) && (tail != [] ==> tail[0] == SPACE)
    ensures Scan(Token(p) + tail, fields)
         == if p.value + tail == [] then fields else Scan(tail, fields[p.key := p.value])
  {
    hide Scan, IndexOf;
    var rest := p.value + tail;
    assert Token(p) + tail == p.key + [EQUALS] + rest;
    ScanKey(p.key, rest, fields);
    if tail == [] {
      assert rest == p.value;
      IndexAbsent(p.value, SPACE);
    } else {
      assert rest == p.value + [SPACE] + tail[1..];
      IndexAfter(p.value, SPACE, tail[1..]);
    }
    assert rest[..|p.value|] == p.value && rest[|p.value|..] == tail;
  }

  lemma ScanSkipsSpace(b: Text, fields: Fields)
    ensures Scan([SPACE] + b, fields) == Scan(b, fields)
  {
    hide IndexOf;
    assert ([SPACE] + b)[1..] == b;
    assert DropSpaces([SPACE] + b) == DropSpaces(b);
  }

  /** On a body of plain tokens the scan is the last-wins map of the recorded pairs. */
  lemma {:induction false} ScanBodyOf(pairs: seq<Pair>, fields: Fields)
    requires forall p :: p in pairs ==> PlainPair(p)
    ensures Scan(Body(pairs), fields) == LastWins(fields, Recorded(pairs))
  {
    hide Scan, Token, PlainPair;
    if pairs == [] {
      NothingLeft(fields);
    } else {
      var p, rest := pairs[0], pairs[1..];
      if rest == [] {
        NothingLeft(fields[p.key := p.value]);
        ScanToken(p, [], fields);
        assert Token(p) + [] == Token(p) && p.value + [] == p.value;
        assert pairs == [p];
      } else {
        ScanToken(p, [SPACE] + Body(rest), fields);
        assert Body(pairs) == Token(p) + ([SPACE] + Body(rest));
        ScanSkipsSpace(Body(rest), fields[p.key := p.value]);
        ScanBodyOf(rest, fields[p.key := p.value]);
        assert Recorded(pairs) == [p] + Recorded(rest);
      }
    }
  }

  /** A record line: anything up to the first "):", then a space and the body. */
  datatype Record = Record(head: Text, pairs: seq<Pair>)

  predicate PlainRecord(r: Record) {
    && NEWLINE !in r.head
    && (forall i :: 0 <= i < |r.head| - 1 ==> !(r.head[i] == CLOSE && r.head[i + 1] == COLON))
    && forall p :: p in r.pairs ==> PlainPair(p)
  }

  function RecordLine(r: Record): Text { r.head + [CLOSE, COLON, SPACE] + Body(r.pairs) }

  lemma {:induction false} BodyStartAfter(head: Text, tail: Text)
    requires forall i :: 0 <= i < |head| - 1 ==> !(head[i] == CLOSE && head[i + 1] == COLON)
    ensures BodyStart(head + [CLOSE, COLON] + tail) == Some(|head|)
  {
    var b := head + [CLOSE, COLON] + tail;
    if head == [] {
      assert b == [CLOSE, COLON] + tail;
    } else {
      assert b[1..] == head[1..] + [CLOSE, COLON] + tail;
      BodyStartAfter(head[1..], tail);
      assert b[0] == head[0] && b[1] == if |head| > 1 then head[1] else CLOSE;
    }
  }

  lemma LineFieldsOf(r: Record, fields: Fields)
    requires PlainRecord(r)
    ensures LineFields(RecordLine(r), fields) == LastWins(fields, Recorded(r.pairs))
  {
    hide Scan, BodyStart, Body, PlainPair;
    var line := RecordLine(r);
    assert line == r.head + [CLOSE, COLON] + ([SPACE] + Body(r.pairs));
    BodyStartAfter(r.head, [SPACE] + Body(r.pairs));
    assert line[|r.head| + 2..] == [SPACE] + Body(r.pairs);
    assert line[|r.head| + 3..] == Body(r.pairs);
    ScanBodyOf(r.pairs, fields);
  }

  lemma {:induction false} BodyIsOneLine(pairs: seq<Pair>)
    requires forall p :: p in pairs ==> PlainPair(p)
    ensures NEWLINE !in Body(pairs)
  {
    if pairs != [] {
      BodyIsOneLine(pairs[1..]);
      assert PlainPair(pairs[0]);
    }
  }

  // ----- Whole texts -----

  /** Record lines, each ended by a newline, as a group keeps them. */
  function TextOf(records: seq<Record>): Text {
    if records == [] then [] else RecordLine(records[0]) + [NEWLINE] + TextOf(records[1..])
  }

  function PairsOf(records: seq<Record>): seq<Pair> {
    if records == [] then [] else PairsOf(records[..|records| - 1]) + Recorded(records[|records| - 1].pairs)
  }

  lemma FirstPiece(line: Text, tail: Text)
    requires NEWLINE !in line
    ensures Split(line + [NEWLINE] + tail) == [line] + Split(tail)
  {
    var b := line + [NEWLINE] + tail;
    var k := FirstNewline(b);
    NoneBefore(b);
    assert b[|line|] == NEWLINE && forall i :: 0 <= i < |line| ==> b[i] == line[i];
    assert k == |line|;
    assert b[..k] == line && b[k + 1..] == tail;
  }

  function RecordLines(records: seq<Record>): seq<Text> {
    seq(|records|, i requires 0 <= i < |records| => RecordLine(records[i]))
  }

  lemma RecordLinesCons(records: seq<Record>)
    requires records != []
    ensures RecordLines(records) == [RecordLine(records[0])] + RecordLines(records[1..])
  {
    hide RecordLine;
  }

  lemma {:induction false} PiecesOfText(records: seq<Record>)
    requires forall r :: r in records ==> PlainRecord(r)
    ensures Split(TextOf(records)) == RecordLines(records) + [[]]
  {
    hide PlainRecord, RecordLine;
    if records != [] {
      hide Split, RecordLines;
      var r := records[0];
      assert TextOf(records) == RecordLine(r) + [NEWLINE] + TextOf(records[1..]);
      hide TextOf;
      LineIsOneLine(r);
      FirstPiece(RecordLine(r), TextOf(records[1..]));
      PiecesOfText(records[1..]);
      RecordLinesCons(records);
      var lines := RecordLines(records[1..]);
      assert [RecordLine(r)] + (lines + [[]]) == ([RecordLine(r)] + lines) + [[]];
    }
  }

  lemma LineIsOneLine(r: Record)
    requires PlainRecord(r)
    ensures NEWLINE !in RecordLine(r)
  {
    BodyIsOneLine(r.pairs);
  }

  lemma {:induction false} LastWinsConcat(fields: Fields, a: seq<Pair>, b: seq<Pair>)
    ensures LastWins(LastWins(fields, a), b) == LastWins(fields, a + b)
    decreases |a|
  {
    if a == [] {
      assert a + b == b;
    } else {
      assert (a + b)[1..] == a[1..] + b;
      LastWinsConcat(fields[a[0].key := a[0].value], a[1..], b);
    }
  }

  lemma {:induction false} FieldsOfLines(records: seq<Record>)
    requires forall r :: r in records ==> PlainRecord(r)
    ensures AllFields(RecordLines(records)) == LastWins(map[], PairsOf(records))
  {
    hide LineFields, RecordLine, PlainRecord, Recorded;
    if records != [] {
      var n := |records| - 1;
      FieldsOfLines(records[..n]);
      assert RecordLines(records)[..n] == RecordLines(records[..n]);
      LineFieldsOf(records[n], AllFields(RecordLines(records[..n])));
      LastWinsConcat(map[], PairsOf(records[..n]), Recorded(records[n].pairs));
    }
  }

  /** Over the text of any number of plain records the result is the last-wins map of all their pairs. */
  lemma FieldsOfText(records: seq<Record>)
    requires forall r :: r in records ==> PlainRecord(r)
    ensures AllFields(Split(TextOf(records))) == LastWins(map[], PairsOf(records))
  {
    hide Split, RecordLines, PlainRecord, TextOf, Scan;
    PiecesOfText(records);
    FieldsOfLines(records);
    var lines := RecordLines(records);
    assert (lines + [[]])[..|lines|] == lines;
  }

  /**
   Byte by byte: after the first `):` and a space, `k=v` and a second pair separated
   by a space give two fields, the later one winning when the keys are the same.
   Head, keys and values hold no newline; keys hold no `=` and no space, values no
   space.
   */
  lemma TwoPairs(head: Text, k: Text, v: Text, k': Text, v': Text)
    requires 10 !in head && forall i :: 0 <= i < |head| - 1 ==> !(head[i] == 41 && head[i + 1] == 58)
    requires 10 !in k && 61 !in k && 32 !in k && 10 !in v && 32 !in v
    requires 10 !in k' && 61 !in k' && 32 !in k' && 10 !in v' && 32 !in v' && v' != []
    ensures AllFields(Split(head + [41, 58, 32] + k + [61] + v + [32] + k' + [61] + v' + [10])) == map[k := v][k' := v']
  {
    var p, q := Pair(k, v), Pair(k', v');
    var r := Record(head, [p, q]);
    TwoPairsText(head, k, v, k', v');
    PairsOfTwo(r, p, q);
    hide Split, PlainRecord, TextOf, PairsOf, AllFields, LastWins;
    TwoPairsPlain(head, p, q);
    FieldsOfText([r]);
    TwoWin(p, q);
  }

  lemma TwoPairsPlain(head: Text, p: Pair, q: Pair)
    requires 10 !in head && forall i :: 0 <= i < |head| - 1 ==> !(head[i] == 41 && head[i + 1] == 58)
    requires PlainPair(p) && PlainPair(q)
    ensures PlainRecord(Record(head, [p, q]))
  {
  }

  lemma TwoPairsText(head: Text, k: Text, v: Text, k': Text, v': Text)
    ensures TextOf([Record(head, [Pair(k, v), Pair(k', v')])])
         == head + [41, 58, 32] + k + [61] + v + [32] + k' + [61] + v' + [10]
  {
    var p, q := Pair(k, v), Pair(k', v');
    var r := Record(head, [p, q]);
    assert [p, q][1..] == [q] && [r][1..] == [];
    assert Body([q]) == k' + [61] + v';
    assert Body([p, q]) == k + [61] + v + [32] + (k' + [61] + v');
    assert TextOf([r]) == head + [41, 58, 32] + (k + [61] + v + [32] + (k' + [61] + v')) + [10] + [];
  }

  lemma PairsOfTwo(r: Record, p: Pair, q: Pair)
    requires r.pairs == [p, q] && q.value != []
    ensures PairsOf([r]) == [p, q]
  {
    assert [r][..0] == [];
  }

  lemma TwoWin(p: Pair, q: Pair)
    ensures LastWins(map[], [p, q]) == map[p.key := p.value][q.key := q.value]
  {
    var one: Fields := map[];
    assert one[p.key := p.value] == map[p.key := p.value];
    assert [p, q][1..] == [q] && [q][1..] == [];
    assert LastWins(one, [p, q]) == LastWins(map[p.key := p.value], [q]);
  }
}
