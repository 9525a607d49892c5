/**
 Splitting a growing byte stream into complete lines and a partial rest.
 */
module Lines {
  import opened Bytes

  type Line = seq<byte>

  function Concat(lines: seq<Line>): seq<byte> {
    if lines == [] then [] else lines[0] + Concat(lines[1..])
  }

  /** What follows the first line. */
  function After(b: seq<byte>): (r: seq<byte>)
    requires FirstNewline(b) < |b|
    ensures |r| < |b|
  {
    b[FirstNewline(b) + 1..]
  }

  function First(b: seq<byte>): Line
    requires FirstNewline(b) < |b|
  {
    b[..FirstNewline(b) + 1]
  }

  function CompleteLines(b: seq<byte>): seq<Line>
    decreases |b|
  {
    if FirstNewline(b) == |b| then [] else [First(b)] + CompleteLines(After(b))
  }

  function Rest(b: seq<byte>): seq<byte>
    decreases |b|
  {
    if FirstNewline(b) == |b| then b else Rest(After(b))
  }

  /** A line ends with its only newline. */
  ghost predicate IsLine(line: Line) {
    line != [] && line[|line| - 1] == NEWLINE && forall i :: 0 <= i < |line| - 1 ==> line[i] != NEWLINE
  }

  ghost predicate NoNewline(b: seq<byte>) {
    forall i :: 0 <= i < |b| ==> b[i] != NEWLINE
  }

  lemma {:induction false} ConcatSnoc(lines: seq<Line>, line: Line)
    ensures Concat(lines + [line]) == Concat(lines) + line
  {
    if lines == [] {
      assert Concat([line]) == line + Concat([]);
    } else {
      assert (lines + [line])[1..] == lines[1..] + [line];
      ConcatSnoc(lines[1..], line);
    }
  }

  /** The split loses nothing: lines and rest together are the bytes. */
  lemma {:induction false} SplitIsExact(b: seq<byte>)
    ensures Concat(CompleteLines(b)) + Rest(b) == b
    ensures forall l :: l in CompleteLines(b) ==> IsLine(l)
    ensures NoNewline(Rest(b))
    decreases |b|
  {
    hide *;
    var k := FirstNewline(b);
    if k == |b| {
      NothingToSplit(b);
    } else {
      var line, more := First(b), After(b);
      NextLine(b);
      NextRest(b);
      FirstLine(b);
      SplitIsExact(more);
      ConcatFirst(line, CompleteLines(more));
      assert line + (Concat(CompleteLines(more)) + Rest(more)) == (line + Concat(CompleteLines(more))) + Rest(more);
      assert forall l :: l in [line] + CompleteLines(more) ==> l == line || l in CompleteLines(more);
    }
  }

  lemma NothingToSplit(b: seq<byte>)
    requires FirstNewline(b) == |b|
    ensures CompleteLines(b) == [] && Rest(b) == b && Concat([]) == [] && NoNewline(b)
  {
    NoneBefore(b);
  }

  lemma NextLine(b: seq<byte>)
    requires FirstNewline(b) < |b|
    ensures CompleteLines(b) == [First(b)] + CompleteLines(After(b))
  {
    hide FirstNewline, First, After, Rest, Concat, IsLine, NoNewline;
  }

  lemma NextRest(b: seq<byte>)
    requires FirstNewline(b) < |b|
    ensures Rest(b) == Rest(After(b))
  {
    hide FirstNewline, After, CompleteLines, Concat, IsLine, NoNewline;
  }

  /** The bytes up to the first newline are a line. */
  lemma FirstLine(b: seq<byte>)
    requires FirstNewline(b) < |b|
    ensures var k := FirstNewline(b);
            IsLine(First(b)) && b == First(b) + After(b) && First(b) == b[..k + 1] && After(b) == b[k + 1..]
  {
    hide *;
    AfterIs(b);
    NoneBefore(b);
    LineUpTo(b, FirstNewline(b));
  }

  lemma AfterIs(b: seq<byte>)
    requires FirstNewline(b) < |b|
    ensures First(b) == b[..FirstNewline(b) + 1] && After(b) == b[FirstNewline(b) + 1..]
  {
    hide FirstNewline;
  }

  lemma LineUpTo(b: seq<byte>, k: nat)
    requires k < |b| && b[k] == NEWLINE && forall i :: 0 <= i < k ==> b[i] != NEWLINE
    ensures IsLine(b[..k + 1]) && b == b[..k + 1] + b[k + 1..]
  {
    var line := b[..k + 1];
    assert line[k] == b[k];
    forall i | 0 <= i < |line| - 1 ensures line[i] != NEWLINE {
      assert line[i] == b[i];
    }
  }

  lemma ConcatFirst(line: Line, lines: seq<Line>)
    ensures Concat([line] + lines) == line + Concat(lines)
  {
    assert ([line] + lines)[1..] == lines;
  }

  /** There is only one such split. */
  lemma {:induction false} SplitIsUnique(b: seq<byte>, lines: seq<Line>, rest: seq<byte>)
    requires Concat(lines) + rest == b && NoNewline(rest) && forall l :: l in lines ==> IsLine(l)
    ensures lines == CompleteLines(b) && rest == Rest(b)
    decreases |lines|
  {
    NoneBefore(b);
    var k := FirstNewline(b);
    if lines == [] {
      assert b == rest;
    } else {
      var l := lines[0];
      assert l in lines;
      assert b == l + (Concat(lines[1..]) + rest);
      assert b[|l| - 1] == l[|l| - 1] == NEWLINE;
      assert forall i :: 0 <= i < |l| - 1 ==> b[i] == l[i];
      assert k == |l| - 1;
      assert b[..k + 1] == l && b[k + 1..] == Concat(lines[1..]) + rest;
      SplitIsUnique(b[k + 1..], lines[1..], rest);
    }
  }

  lemma {:induction false} ConcatConcat(a: seq<Line>, b: seq<Line>)
    ensures Concat(a + b) == Concat(a) + Concat(b)
  {
    if a == [] {
      assert a + b == b;
    } else {
      assert (a + b)[1..] == a[1..] + b;
      ConcatConcat(a[1..], b);
    }
  }

  /** Lines already taken off the front are the first lines of the split. */
  lemma SplitPrefix(b: seq<byte>, lines: seq<Line>, tail: seq<byte>)
    requires Concat(lines) + tail == b && forall l :: l in lines ==> IsLine(l)
    ensures CompleteLines(b) == lines + CompleteLines(tail) && Rest(b) == Rest(tail)
  {
    hide CompleteLines, Rest, Concat, IsLine, NoNewline;
    SplitIsExact(tail);
    ConcatConcat(lines, CompleteLines(tail));
    SplitIsUnique(b, lines + CompleteLines(tail), Rest(tail));
  }
}
