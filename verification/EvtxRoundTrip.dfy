/**
 Reading back what the encoder wrote: with every name offset resolved, the bytes
 of a tree's tokens decode to that tree.
 */
module EvtxRoundTrip {
  import opened Bytes
  import opened EvtxTree
  import opened EvtxReader

  ghost predicate Resolved(n: Str, off: Offsets, names: map<nat, Str>) {
    n in off && off[n] in names && names[off[n]] == n
  }

  ghost predicate AllResolved(ts: seq<Tok>, off: Offsets, names: map<nat, Str>) {
    forall n :: NameRef(n) in ts ==> Resolved(n, off, names)
  }

  lemma NameBack(c: seq<byte>, p: nat, n: Str, off: Offsets, names: map<nat, Str>)
    requires At(c, p, TokBytes(NameRef(n), off)) && Resolved(n, off, names)
    ensures ReadName(c, p, names) == Done(n, p + 4)
  {
    Read32(c, p, off[n]);
  }

  /** The 16-bit length is exact here: a longer text could not lie inside the chunk. */
  lemma ValueBack(c: seq<byte>, p: nat, v: Str)
    requires |c| <= CHUNK_SIZE && At(c, p, ValueTok(v).bytes)
    ensures |v| < 0x1_0000
    ensures ReadValue(c, p) == Done(v, p + |ValueTok(v).bytes|)
  {
    hide At, U16At, LE16, Units, UnitsAt;
    AtSplit(c, p, [5, 1] + LE16(ToU16(|v|)), Units(v));
    AtSplit(c, p, [5, 1], LE16(ToU16(|v|)));
    ValueFits(c, p + 4, v);
    Read16(c, p + 2, |v|);
    AtIndex(c, p, [5, 1], 0);
    AtIndex(c, p, [5, 1], 1);
    UnitsBack(c, p + 4, v);
  }

  lemma ValueFits(c: seq<byte>, p: nat, v: Str)
    requires At(c, p, Units(v))
    ensures p + 2 * |v| <= |c|
  {
    hide Units;
  }

  lemma UnitsBack(c: seq<byte>, p: nat, v: Str)
    requires At(c, p, Units(v))
    ensures UnitsAt(c, p, |v|) == v
  {
    forall i | 0 <= i < |v| ensures UnitsAt(c, p, |v|)[i] == v[i] {
      AtIndex(c, p, Units(v), 2 * i);
      AtIndex(c, p, Units(v), 2 * i + 1);
    }
  }

  lemma {:induction false} AttrsBack(c: seq<byte>, p: nat, attrs: seq<Attr>, off: Offsets, names: map<nat, Str>)
    requires |c| <= CHUNK_SIZE && At(c, p, Ser(AttrToks(attrs), off))
    requires AllResolved(AttrToks(attrs), off, names)
    requires var q := p + |Ser(AttrToks(attrs), off)|; q < |c| && c[q] != 6
    ensures ReadAttrs(c, p, names) == Done(attrs, p + |Ser(AttrToks(attrs), off)|)
    decreases |attrs|
  {
    hide Ser, AttrToks, TokBytes, ReadName, ReadValue;
    if attrs != [] {
      AttrsSplit(c, p, attrs, off, names);
      var first := [6] + TokBytes(NameRef(attrs[0].name), off) + ValueTok(attrs[0].value).bytes;
      AttrBack(c, p, attrs[0], off, names);
      AttrsBack(c, p + |first|, attrs[1..], off, names);
      assert attrs == [attrs[0]] + attrs[1..];
    } else {
      NoAttrs();
      SerNone(off);
    }
  }

  lemma AttrsSplit(c: seq<byte>, p: nat, attrs: seq<Attr>, off: Offsets, names: map<nat, Str>)
    requires attrs != []
    requires At(c, p, Ser(AttrToks(attrs), off)) && AllResolved(AttrToks(attrs), off, names)
    ensures var a, rest := attrs[0], AttrToks(attrs[1..]);
            var first := [6] + TokBytes(NameRef(a.name), off) + ValueTok(a.value).bytes;
            && |Ser(AttrToks(attrs), off)| == |first| + |Ser(rest, off)|
            && At(c, p, first) && Resolved(a.name, off, names)
            && At(c, p + |first|, Ser(rest, off)) && AllResolved(rest, off, names)
  {
    hide Ser, TokBytes, ValueTok;
    var a, rest := attrs[0], AttrToks(attrs[1..]);
    var head := [Raw([6]), NameRef(a.name), ValueTok(a.value)];
    assert AttrToks(attrs) == head + rest;
    assert head[1] in AttrToks(attrs);
    AttrBytes(a, off);
    SerConcat(head, rest, off);
    AtSplit(c, p, Ser(head, off), Ser(rest, off));
  }

  lemma AttrBytes(a: Attr, off: Offsets)
    ensures Ser([Raw([6]), NameRef(a.name), ValueTok(a.value)], off)
         == [6] + TokBytes(NameRef(a.name), off) + ValueTok(a.value).bytes
  {
    assert Ser([], off) == [] && TokBytes(Raw([6]), off) == [6];
    assert TokBytes(ValueTok(a.value), off) == ValueTok(a.value).bytes;
    hide *;
    SerSnoc([], Raw([6]), off);
    assert [] + [Raw([6])] == [Raw([6])] && [Raw([6])] + [NameRef(a.name)] == [Raw([6]), NameRef(a.name)];
    SerSnoc([Raw([6])], NameRef(a.name), off);
    SerSnoc([Raw([6]), NameRef(a.name)], ValueTok(a.value), off);
    assert [Raw([6]), NameRef(a.name)] + [ValueTok(a.value)] == [Raw([6]), NameRef(a.name), ValueTok(a.value)];
  }

  lemma AttrBack(c: seq<byte>, p: nat, a: Attr, off: Offsets, names: map<nat, Str>)
    requires |c| <= CHUNK_SIZE
    requires At(c, p, [6] + TokBytes(NameRef(a.name), off) + ValueTok(a.value).bytes)
    requires Resolved(a.name, off, names)
    ensures |TokBytes(NameRef(a.name), off)| == 4
    ensures c[p] == 6 && ReadName(c, p + 1, names) == Done(a.name, p + 5)
    ensures ReadValue(c, p + 5) == Done(a.value, p + 5 + |ValueTok(a.value).bytes|)
  {
    AtSplit(c, p, [6] + TokBytes(NameRef(a.name), off), ValueTok(a.value).bytes);
    AtSplit(c, p, [6], TokBytes(NameRef(a.name), off));
    AtIndex(c, p, [6], 0);
    NameBack(c, p + 1, a.name, off, names);
    ValueBack(c, p + 5, a.value);
  }

  lemma StartBytes(name: Str, attrs: seq<Attr>, off: Offsets)
    ensures Ser(StartToks(name, attrs), off)
         == [if attrs == [] then 0x01 else 0x41] + LE16(0) + LE32(0) + TokBytes(NameRef(name), off)
            + (if attrs == [] then [] else LE32(0))
  {
    var open := Raw([if attrs == [] then 0x01 else 0x41] + LE16(0) + LE32(0));
    SerSnoc([], open, off);
    SerSnoc([open], NameRef(name), off);
    SerSnoc([open, NameRef(name)], Raw(LE32(0)), off);
  }

  lemma StartBack(c: seq<byte>, p: nat, name: Str, attrs: seq<Attr>, off: Offsets, names: map<nat, Str>)
    requires At(c, p, Ser(StartToks(name, attrs), off)) && Resolved(name, off, names)
    ensures p + 7 <= |c| && c[p] == (if attrs == [] then 0x01 else 0x41)
    ensures ReadName(c, p + 7, names) == Done(name, p + 11)
    ensures |Ser(StartToks(name, attrs), off)| == if attrs == [] then 11 else 15
  {
    StartBytes(name, attrs, off);
    var open := [if attrs == [] then 0x01 else 0x41] + LE16(0) + LE32(0);
    AtSplit(c, p, open + TokBytes(NameRef(name), off), if attrs == [] then [] else LE32(0));
    AtSplit(c, p, open, TokBytes(NameRef(name), off));
    AtIndex(c, p, open, 0);
    NameBack(c, p + 7, name, off, names);
  }

  lemma SerElement(n: Node, off: Offsets)
    requires n.Element?
    ensures Ser(ElementToks(n), off)
         == Ser(StartToks(n.name, Kept(n.attrs)), off) + Ser(AttrToks(Kept(n.attrs)), off)
            + Ser(ContentToks(n.children), off)
  {
    var s, a := StartToks(n.name, Kept(n.attrs)), AttrToks(Kept(n.attrs));
    SerConcat(s + a, ContentToks(n.children), off);
    SerConcat(s, a, off);
  }

  lemma ContentBytes(ns: seq<Node>, off: Offsets)
    ensures Ser(ContentToks(ns), off)
         == if ns == [] then [3] else [2] + (Ser(ChildrenToks(ns), off) + [4])
  {
    hide Ser, ChildrenToks;
    if ns == [] {
      SerOne(Raw([3]), off);
    } else {
      SerConcat([Raw([2])] + ChildrenToks(ns), [Raw([4])], off);
      SerConcat([Raw([2])], ChildrenToks(ns), off);
      SerOne(Raw([2]), off);
      SerOne(Raw([4]), off);
      Reassociate([2], Ser(ChildrenToks(ns), off), [4]);
    }
  }

  lemma SubToks(n: Node)
    requires n.Element?
    ensures NameRef(n.name) in ElementToks(n)
    ensures forall t :: t in AttrToks(Kept(n.attrs)) ==> t in ElementToks(n)
    ensures forall t :: t in ChildrenToks(n.children) ==> t in ElementToks(n)
  {
    var s := StartToks(n.name, Kept(n.attrs));
    assert s[1] == NameRef(n.name);
    assert forall t :: t in ChildrenToks(n.children) ==> t in ContentToks(n.children);
  }

  /** An accepted element decodes to its normal form. */
  lemma {:induction false} ElementBack(c: seq<byte>, p: nat, n: Node, off: Offsets, names: map<nat, Str>)
    requires |c| <= CHUNK_SIZE && n.Element? && !HasOther(n)
    requires At(c, p, Ser(ElementToks(n), off)) && AllResolved(ElementToks(n), off, names)
    ensures ReadElement(c, p, names) == Done(Norm(n), p + |Ser(ElementToks(n), off)|)
    decreases n, 1
  {
    hide *;
    NormParts(n);
    var attrs := Kept(n.attrs);
    var start, mid := Ser(StartToks(n.name, attrs), off), Ser(AttrToks(attrs), off);
    ElementParts(c, p, n, off, names);
    StartBack(c, p, n.name, attrs, off, names);
    var q := p + |start| + |mid|;
    if attrs != [] {
      AttrsBack(c, p + |start|, attrs, off, names);
    } else {
      SerNone(off);
      NoAttrs();
    }
    if n.children != [] {
      ChildrenBack(c, q + 1, n.children, off, names);
    }
    ElementStep(c, p, names, n.name, attrs, q);
  }

  lemma NormParts(n: Node)
    requires n.Element? && !HasOther(n)
    ensures !AnyOther(n.children) && Norm(n) == Element(n.name, Kept(n.attrs), NormAll(n.children)) && NormAll([]) == []
  {
  }

  /** Where the parts of an element lie. */
  lemma ElementParts(c: seq<byte>, p: nat, n: Node, off: Offsets, names: map<nat, Str>)
    requires n.Element?
    requires At(c, p, Ser(ElementToks(n), off)) && AllResolved(ElementToks(n), off, names)
    ensures Resolved(n.name, off, names) && AllResolved(AttrToks(Kept(n.attrs)), off, names)
    ensures AllResolved(ChildrenToks(n.children), off, names)
    ensures var attrs := Kept(n.attrs);
            var start, mid := Ser(StartToks(n.name, attrs), off), Ser(AttrToks(attrs), off);
            var kids := Ser(ChildrenToks(n.children), off);
            var q := p + |start| + |mid|;
            && At(c, p, start) && At(c, p + |start|, mid) && q < |c|
            && |Ser(ElementToks(n), off)| == q - p + (if n.children == [] then 1 else |kids| + 2)
            && (n.children == [] ==> c[q] == 3)
            && (n.children != [] ==> c[q] == 2 && At(c, q + 1, kids + [4]))
  {
    hide Ser, ElementToks, StartToks, ChildrenToks, AttrToks, ContentToks;
    var attrs := Kept(n.attrs);
    var start, mid, content := Ser(StartToks(n.name, attrs), off), Ser(AttrToks(attrs), off),
      Ser(ContentToks(n.children), off);
    SubToks(n);
    SerElement(n, off);
    AtSplit(c, p, start + mid, content);
    AtSplit(c, p, start, mid);
    var q := p + |start| + |mid|;
    ContentBytes(n.children, off);
    AtIndex(c, q, content, 0);
    if n.children != [] {
      AtSplit(c, q, [2], Ser(ChildrenToks(n.children), off) + [4]);
    }
  }

  /** How the reader puts an element together from its parts. */
  lemma ElementStep(c: seq<byte>, p: nat, names: map<nat, Str>, name: Str, attrs: seq<Attr>, q: nat)
    requires p + 7 <= |c| && c[p] == (if attrs == [] then 0x01 else 0x41)
    requires ReadName(c, p + 7, names) == Done(name, p + 11)
    requires if attrs == [] then q == p + 11 else ReadAttrs(c, p + 15, names) == Done(attrs, q)
    requires q < |c|
    ensures c[q] == 3 ==> ReadElement(c, p, names) == Done(Element(name, attrs, []), q + 1)
    ensures c[q] == 2 && ReadChildren(c, q + 1, names).Done?
            ==> var kids := ReadChildren(c, q + 1, names);
                ReadElement(c, p, names) == Done(Element(name, attrs, kids.value), kids.next)
  {
    hide ReadAttrs, ReadChildren, ReadName;
  }

  lemma NoAttrs()
    ensures AttrToks([]) == []
  {
  }

  lemma {:induction false} ChildrenBack(c: seq<byte>, p: nat, ns: seq<Node>, off: Offsets, names: map<nat, Str>)
    requires |c| <= CHUNK_SIZE && !AnyOther(ns)
    requires At(c, p, Ser(ChildrenToks(ns), off) + [4]) && AllResolved(ChildrenToks(ns), off, names)
    ensures ReadChildren(c, p, names) == Done(NormAll(ns), p + |Ser(ChildrenToks(ns), off)| + 1)
    decreases ns, 0
  {
    hide Ser, ChildToks, ChildrenToks, ReadChildren, NormAll;
    AtSplit(c, p, Ser(ChildrenToks(ns), off), [4]);
    if ns == [] {
      NoChildren(c, p, off, names);
    } else {
      ChildrenSplit(c, p, ns, off, names);
      var q := p + |Ser(ChildToks(ns[0]), off)|;
      ChildrenBack(c, q, ns[1..], off, names);
      ChildBack(c, p, ns[0], off, names);
      ChildrenStep(c, p, names, ns, q);
    }
  }

  lemma NoChildren(c: seq<byte>, p: nat, off: Offsets, names: map<nat, Str>)
    requires At(c, p, Ser(ChildrenToks([]), off) + [4])
    ensures Ser(ChildrenToks([]), off) == [] && ReadChildren(c, p, names) == Done(NormAll([]), p + 1)
  {
    AtIndex(c, p, [4], 0);
  }

  /** How the reader puts a list of children together from the first child and the rest. */
  lemma ChildrenStep(c: seq<byte>, p: nat, names: map<nat, Str>, ns: seq<Node>, q: nat)
    requires ns != []
    requires var n := ns[0];
             if n.Text? then
               if IsBlank(n.text) then q == p else p < |c| && c[p] == 5 && ReadValue(c, p) == Done(n.text, q)
             else p < |c| && c[p] != 4 && c[p] != 5 && ReadElement(c, p, names) == Done(Norm(n), q)
    requires ReadChildren(c, q, names).Done? && ReadChildren(c, q, names).value == NormAll(ns[1..])
    ensures ReadChildren(c, p, names) == Done(NormAll(ns), ReadChildren(c, q, names).next)
  {
    hide ReadElement, ReadValue;
    var rest := NormAll(ns[1..]);
    assert NormAll(ns) == if ns[0].Text? && IsBlank(ns[0].text) then rest else [Norm(ns[0])] + rest;
  }

  lemma SerNone(off: Offsets)
    ensures Ser([], off) == []
  {
  }

  lemma ChildrenSplit(c: seq<byte>, p: nat, ns: seq<Node>, off: Offsets, names: map<nat, Str>)
    requires ns != []
    requires At(c, p, Ser(ChildrenToks(ns), off) + [4]) && AllResolved(ChildrenToks(ns), off, names)
    ensures var n, rest := ns[0], ChildrenToks(ns[1..]);
            && |Ser(ChildrenToks(ns), off)| == |Ser(ChildToks(n), off)| + |Ser(rest, off)|
            && At(c, p, Ser(ChildToks(n), off)) && AllResolved(ChildToks(n), off, names)
            && At(c, p + |Ser(ChildToks(n), off)|, Ser(rest, off) + [4]) && AllResolved(rest, off, names)
  {
    hide Ser, ChildToks;
    var n, rest := ns[0], ChildrenToks(ns[1..]);
    assert ChildrenToks(ns) == ChildToks(n) + rest;
    SerConcat(ChildToks(n), rest, off);
    Reassociate(Ser(ChildToks(n), off), Ser(rest, off), [4]);
    AtSplit(c, p, Ser(ChildToks(n), off), Ser(rest, off) + [4]);
  }

  lemma {:induction false} ChildBack(c: seq<byte>, p: nat, n: Node, off: Offsets, names: map<nat, Str>)
    requires |c| <= CHUNK_SIZE && !HasOther(n)
    requires At(c, p, Ser(ChildToks(n), off)) && AllResolved(ChildToks(n), off, names)
    ensures var q := p + |Ser(ChildToks(n), off)|;
            if n.Text? then
              if IsBlank(n.text) then q == p else p < |c| && c[p] == 5 && ReadValue(c, p) == Done(n.text, q)
            else p < |c| && c[p] != 4 && c[p] != 5 && ReadElement(c, p, names) == Done(Norm(n), q)
    decreases n, 2
  {
    match n
    case Element(_, _, _) =>
      ElementBack(c, p, n, off, names);
    case Text(t) =>
      if !IsBlank(t) {
        SerOne(ValueTok(t), off);
        ValueBack(c, p, t);
      }
  }
}
