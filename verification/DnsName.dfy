/**
 The question name of a DNS query (sections 3.1, 4.1.1 and 4.1.2 of RFC 1035),
 read from a packet that was cut off at an arbitrary length.
 */
module DnsName {
  import opened Options
  import opened Bytes

  const HEADER: nat := 12
  const MAX_LABELS: nat := 16
  const DOT: byte := 46

  type Label = seq<byte>

  // ----- The wire form -----

  predicate WellFormed(labels: seq<Label>) {
    forall l :: l in labels ==> 1 <= |l| <= 63
  }

  /** Length-prefixed labels, closed by the root label. */
  function Wire(labels: seq<Label>): seq<byte>
    requires WellFormed(labels)
  {
    if labels == [] then [0] else [|labels[0]|] + labels[0] + Wire(labels[1..])
  }

  function Join(labels: seq<Label>): seq<byte> {
    if labels == [] then []
    else if |labels| == 1 then labels[0]
    else labels[0] + [DOT] + Join(labels[1..])
  }

  /** The response flag is clear and at least one question is announced. */
  predicate QueryHeader(h: seq<byte>)
    requires |h| == HEADER
  {
    && ((h[2] as int) * 0x100 + h[3] as int) / 0x8000 % 2 == 0
    && (h[4] as int) * 0x100 + h[5] as int != 0
  }

  /** The packet is a query whose first name, uncompressed and complete, is these labels. */
  ghost predicate Asks(p: seq<byte>, labels: seq<Label>) {
    && |p| > HEADER && QueryHeader(p[..HEADER])
    && WellFormed(labels) && 1 <= |labels| <= MAX_LABELS && Wire(labels) <= p[HEADER..]
  }

  // ----- The walk -----

  function NameAt(p: seq<byte>, pos: nat, count: nat): Option<seq<Label>>
    decreases |p| - pos
  {
    if pos >= |p| || count > MAX_LABELS then None
    else
      var n := p[pos] as int;
      if n == 0 then Some([])
      else if n / 0x40 % 4 != 0 || pos + 1 + n > |p| then None
      else
        match NameAt(p, pos + 1 + n, count + 1)
        case None => None
        case Some(rest) => Some([p[pos + 1..pos + 1 + n]] + rest)
  }

  lemma WireStarts(p: seq<byte>, pos: nat, rest: seq<Label>)
    requires pos < |p| && 1 <= p[pos] <= 63 && pos + 1 + p[pos] as int <= |p|
    requires WellFormed(rest) && Wire(rest) <= p[pos + 1 + p[pos] as int..]
    ensures var labels := [p[pos + 1..pos + 1 + p[pos] as int]] + rest;
            WellFormed(labels) && Wire(labels) <= p[pos..]
  {
    var n := p[pos] as int;
    var l := p[pos + 1..pos + 1 + n];
    var tail := p[pos + 1 + n..];
    assert ([l] + rest)[1..] == rest;
    assert p[pos..] == ([p[pos]] + l) + tail;
    Longer([p[pos]] + l, Wire(rest), tail);
  }

  lemma Longer<T>(head: seq<T>, a: seq<T>, b: seq<T>)
    requires a <= b
    ensures head + a <= head + b
  {
    assert b == a + b[|a|..];
    assert head + b == (head + a) + b[|a|..];
  }

  /** Anything the walk accepts is the wire form of what it returns. */
  lemma {:induction false} WalkIsSound(p: seq<byte>, pos: nat, count: nat)
    requires pos <= |p| && NameAt(p, pos, count).Some?
    ensures var labels := NameAt(p, pos, count).value;
            WellFormed(labels) && count + |labels| <= MAX_LABELS && Wire(labels) <= p[pos..]
    decreases |p| - pos
  {
    assert WellFormed([]) && Wire([]) == [0];
    hide Wire, WellFormed;
    var n := p[pos] as int;
    if n == 0 {
      assert p[pos..] == [0] + p[pos + 1..];
    } else {
      WalkIsSound(p, pos + 1 + n, count + 1);
      WireStarts(p, pos, NameAt(p, pos + 1 + n, count + 1).value);
    }
  }

  /** The walk finds every wire form. */
  lemma {:induction false} WalkIsComplete(p: seq<byte>, pos: nat, count: nat, labels: seq<Label>)
    requires pos <= |p| && WellFormed(labels) && count + |labels| <= MAX_LABELS && Wire(labels) <= p[pos..]
    ensures NameAt(p, pos, count) == Some(labels)
    decreases |labels|
  {
    hide *;
    if labels == [] {
      WireEnd(p, pos);
      WalkEnd(p, pos, count);
    } else {
      WireFirst(p, pos, labels);
      WalkIsComplete(p, pos + 1 + |labels[0]|, count + 1, labels[1..]);
      WalkStep(p, pos, count);
      assert labels == [labels[0]] + labels[1..];
    }
  }

  lemma WireEnd(p: seq<byte>, pos: nat)
    requires pos <= |p| && Wire([]) <= p[pos..]
    ensures pos < |p| && p[pos] == 0
  {
    assert p[pos..][0] == Wire([])[0];
  }

  lemma WireFirst(p: seq<byte>, pos: nat, labels: seq<Label>)
    requires pos <= |p| && labels != [] && WellFormed(labels) && Wire(labels) <= p[pos..]
    ensures var l := labels[0];
            && 1 <= |l| <= 63 && pos + 1 + |l| <= |p| && p[pos] == |l| && p[pos + 1..pos + 1 + |l|] == l
            && WellFormed(labels[1..]) && Wire(labels[1..]) <= p[pos + 1 + |l|..]
  {
    hide *;
    WireCons(labels);
    var l, rest := labels[0], Wire(labels[1..]);
    PrefixParts(p, pos, [|l|] + l, rest);
    var head := p[pos..pos + 1 + |l|];
    assert p[pos] == head[0] && p[pos + 1..pos + 1 + |l|] == head[1..] == l;
  }

  lemma WireCons(labels: seq<Label>)
    requires labels != [] && WellFormed(labels)
    ensures 1 <= |labels[0]| <= 63 && WellFormed(labels[1..])
    ensures Wire(labels) == [|labels[0]|] + labels[0] + Wire(labels[1..])
  {
  }

  lemma PrefixParts(p: seq<byte>, pos: nat, a: seq<byte>, b: seq<byte>)
    requires pos <= |p| && a + b <= p[pos..]
    ensures pos + |a| <= |p| && p[pos..pos + |a|] == a && b <= p[pos + |a|..]
  {
    var tail, more := p[pos..], p[pos..][|a + b|..];
    assert tail == a + b + more;
    assert p[pos..pos + |a|] == tail[..|a|] && p[pos + |a|..] == tail[|a|..] == b + more;
  }

  lemma WalkEnd(p: seq<byte>, pos: nat, count: nat)
    requires pos < |p| && p[pos] == 0 && count <= MAX_LABELS
    ensures NameAt(p, pos, count) == Some([])
  {
  }

  lemma WalkStep(p: seq<byte>, pos: nat, count: nat)
    requires pos < |p| && 1 <= p[pos] <= 63 && pos + 1 + p[pos] as int <= |p| && count <= MAX_LABELS
    ensures var n := p[pos] as int;
            NameAt(p, pos, count) == match NameAt(p, pos + 1 + n, count + 1)
                                     case None => None
                                     case Some(rest) => Some([p[pos + 1..pos + 1 + n]] + rest)
  {
  }

  /** A packet has at most one question name. */
  lemma NameIsUnique(p: seq<byte>, a: seq<Label>, b: seq<Label>)
    requires Asks(p, a) && Asks(p, b)
    ensures a == b
  {
    hide Wire;
    WalkIsComplete(p, HEADER, 0, a);
    WalkIsComplete(p, HEADER, 0, b);
  }

  /** Labels that hold no dot are read back from the joined name. */
  lemma {:induction false} JoinIsInjective(a: seq<Label>, b: seq<Label>)
    requires a != [] && b != []
    requires forall l :: l in a + b ==> DOT !in l
    requires Join(a) == Join(b)
    ensures a == b
  {
    assert a[0] in a + b && b[0] in a + b;
    assert forall l :: l in a[1..] + b[1..] ==> l in a + b;
    DotsSeparate(a);
    DotsSeparate(b);
    if |a| == 1 || |b| == 1 {
      assert a == [a[0]] && b == [b[0]];
    } else {
      FirstDot(a[0], b[0], Join(a[1..]), Join(b[1..]));
      JoinIsInjective(a[1..], b[1..]);
      assert a == [a[0]] + a[1..] && b == [b[0]] + b[1..];
    }
  }

  lemma DotsSeparate(labels: seq<Label>)
    requires labels != [] && DOT !in labels[0]
    ensures DOT in Join(labels) <==> |labels| > 1
  {
    if |labels| > 1 {
      assert Join(labels)[|labels[0]|] == DOT;
    }
  }

  lemma FirstDot(p: Label, q: Label, x: seq<byte>, y: seq<byte>)
    requires DOT !in p && DOT !in q && p + [DOT] + x == q + [DOT] + y
    ensures p == q && x == y
  {
    var a, b := p + [DOT] + x, q + [DOT] + y;
    assert a[|p|] == DOT && b[|q|] == DOT;
    assert forall i :: 0 <= i < |p| ==> a[i] == p[i];
    assert forall i :: 0 <= i < |q| ==> b[i] == q[i];
    assert |p| == |q|;
    assert p == a[..|p|] && q == b[..|q|] && x == a[|p| + 1..] && y == b[|q| + 1..];
  }

  // ----- The parser -----

  /** The parser finds the name of every packet that asks for one, and rejects every other packet. */
  method ParseQueryName(p: seq<byte>) returns (name: Option<seq<byte>>)
    ensures name.Some? <==> exists labels :: Asks(p, labels)
    ensures forall labels :: Asks(p, labels) ==> name == Some(Join(labels))
  {
    hide Wire, Join, WellFormed;
    var parts: seq<Label> := [];
    if |p| < 13 {
      return None;
    }
    var flags := (p[2] as int) * 0x100 + p[3] as int;
    if flags / 0x8000 % 2 != 0 {
      return None;
    }
    var qdcount := (p[4] as int) * 0x100 + p[5] as int;
    if qdcount == 0 {
      return None;
    }
    WalkDecides(p);
    var pos := HEADER;
    assert forall rest: seq<Label> :: [] + rest == rest;
    while true
      invariant HEADER <= pos <= |p|
      invariant NameAt(p, HEADER, 0) == match NameAt(p, pos, |parts|)
                                        case None => None
                                        case Some(rest) => Some(parts + rest)
      decreases |p| - pos
    {
      if pos >= |p| || |parts| > MAX_LABELS {
        return None;
      }
      var n := p[pos] as int;
      if n == 0 {
        break;
      }
      if n / 0x40 % 4 != 0 || pos + 1 + n > |p| {
        return None;
      }
      pos := pos + 1;
      var chunk := p[pos..pos + n];
      ghost var before := parts;
      parts := parts + [chunk];
      pos := pos + n;
      assert forall rest: seq<Label> :: before + ([chunk] + rest) == parts + rest;
    }
    assert NameAt(p, HEADER, 0) == Some(parts) by { assert parts + [] == parts; }
    if parts == [] {
      return None;
    }
    name := Some(Join(parts));
  }

  /** On a query header the walk decides which labels are asked for. */
  lemma WalkDecides(p: seq<byte>)
    requires |p| > HEADER && QueryHeader(p[..HEADER])
    ensures forall labels :: Asks(p, labels) <==> NameAt(p, HEADER, 0) == Some(labels) && labels != []
  {
    hide Wire, WellFormed;
    forall labels ensures Asks(p, labels) <==> NameAt(p, HEADER, 0) == Some(labels) && labels != [] {
      if Asks(p, labels) {
        WalkIsComplete(p, HEADER, 0, labels);
      } else if NameAt(p, HEADER, 0) == Some(labels) && labels != [] {
        WalkIsSound(p, HEADER, 0);
      }
    }
  }

  /** Encoding a name after a query header, with anything following it, asks for that name. */
  lemma EncodedIsAsked(header: seq<byte>, labels: seq<Label>, rest: seq<byte>)
    requires |header| == HEADER && QueryHeader(header) && WellFormed(labels) && 1 <= |labels| <= MAX_LABELS
    ensures Asks(header + Wire(labels) + rest, labels)
  {
    hide QueryHeader, WellFormed;
    var p := header + Wire(labels) + rest;
    assert |Wire(labels)| >= 1;
    hide Wire;
    assert p[..HEADER] == header;
    assert p[HEADER..] == Wire(labels) + rest;
  }

  // ----- In terms of the bytes -----

  /**
   A packet asks for a name exactly when it is longer than a header, its first flag
   bit is clear, its question count is not zero, and a name of 1 to 16 labels of 1
   to 63 bytes begins right after the header.
   */
  lemma AsksByBytes(p: seq<byte>, labels: seq<Label>)
    ensures Asks(p, labels) <==>
      && |p| > 12 && p[2] < 128 && (p[4] != 0 || p[5] != 0)
      && 1 <= |labels| <= 16 && (forall l :: l in labels ==> 1 <= |l| <= 63) && Wire(labels) <= p[12..]
  {
    hide Wire;
    if |p| > 12 {
      TopBit(p[2], p[3]);
    }
  }

  lemma TopBit(x: byte, y: byte)
    ensures ((x as int) * 0x100 + y as int) / 0x8000 % 2 == 0 <==> x < 128
  {
  }

  /** Labels are joined by a dot, and by nothing else. */
  lemma {:induction false} JoinedByDots(labels: seq<Label>, l: Label)
    ensures Join([l]) == l && (labels != [] ==> Join(labels + [l]) == Join(labels) + [46] + l)
    decreases |labels|
  {
    if |labels| == 1 {
      assert (labels + [l])[1..] == [l];
    } else if labels != [] {
      assert (labels + [l])[1..] == labels[1..] + [l];
      JoinedByDots(labels[1..], l);
    }
  }
}
