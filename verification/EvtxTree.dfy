/**
 The XML event tree and its BinXml form (section 2.2.12 of MS-EVEN6), seen as a
 sequence of tokens. A token is either literal bytes or a reference to a name;
 a reference takes four bytes whose value is only known once the string table
 has been laid out.
 */
module EvtxTree {
  import opened Bytes

  /** Text as UTF-16 code units. */
  type Str = seq<u16>

  datatype Attr = Attr(name: Str, value: Str)

  /** An XML node; `Other` is a comment or a processing instruction. */
  datatype Node =
    | Element(name: Str, attrs: seq<Attr>, children: seq<Node>)
    | Text(text: Str)
    | Other

  datatype Tok = Raw(bytes: seq<byte>) | NameRef(name: Str)

  /** Absolute chunk offset of each interned name. */
  type Offsets = map<Str, u32>

  const XMLNS: Str := [120, 109, 108, 110, 115]

  predicate IsNamespace(name: Str) {
    name == XMLNS || XMLNS + [58] <= name
  }

  /** The code units of Unicode's White_Space property. */
  predicate IsSpace(u: u16) {
    || 9 <= u <= 13 || u == 0x20 || u == 0x85 || u == 0xA0 || u == 0x1680
    || 0x2000 <= u <= 0x200A || u == 0x2028 || u == 0x2029
    || u == 0x202F || u == 0x205F || u == 0x3000
  }

  predicate IsBlank(s: Str) {
    forall i :: 0 <= i < |s| ==> IsSpace(s[i])
  }

  function Kept(attrs: seq<Attr>): seq<Attr> {
    if attrs == [] then []
    else (if IsNamespace(attrs[0].name) then [] else [attrs[0]]) + Kept(attrs[1..])
  }

  /** The writer refuses a tree with a node that is neither element nor text. */
  predicate HasOther(n: Node)
    decreases n, 1
  {
    n.Other? || (n.Element? && AnyOther(n.children))
  }

  predicate AnyOther(ns: seq<Node>)
    decreases ns, 0
  {
    ns != [] && (HasOther(ns[0]) || AnyOther(ns[1..]))
  }

  /** What a reader can get back: no namespace declarations, no blank text. */
  function Norm(n: Node): Node
    decreases n, 1
  {
    if n.Element? then Element(n.name, Kept(n.attrs), NormAll(n.children)) else n
  }

  function NormAll(ns: seq<Node>): seq<Node>
    decreases ns, 0
  {
    if ns == [] then []
    else (if ns[0].Text? && IsBlank(ns[0].text) then [] else [Norm(ns[0])]) + NormAll(ns[1..])
  }

  // ----- Tokens -----

  function Units(s: Str): (r: seq<byte>)
    ensures |r| == 2 * |s|
  {
    seq(2 * |s|, i requires 0 <= i < 2 * |s| => if i % 2 == 0 then s[i / 2] % 0x100 else s[i / 2] / 0x100)
  }

  function ValueTok(v: Str): Tok {
    Raw([5, 1] + LE16(ToU16(|v|)) + Units(v))
  }

  function AttrToks(attrs: seq<Attr>): seq<Tok> {
    if attrs == [] then []
    else [Raw([6]), NameRef(attrs[0].name), ValueTok(attrs[0].value)] + AttrToks(attrs[1..])
  }

  function StartToks(name: Str, attrs: seq<Attr>): seq<Tok> {
    [Raw([if attrs == [] then 0x01 else 0x41] + LE16(0) + LE32(0)), NameRef(name)]
    + (if attrs == [] then [] else [Raw(LE32(0))])
  }

  function ElementToks(n: Node): seq<Tok>
    requires n.Element?
    decreases n, 1
  {
    var attrs := Kept(n.attrs);
    StartToks(n.name, attrs) + AttrToks(attrs) + ContentToks(n.children)
  }

  function ContentToks(ns: seq<Node>): seq<Tok>
    decreases ns, 1
  {
    if ns == [] then [Raw([3])] else [Raw([2])] + ChildrenToks(ns) + [Raw([4])]
  }

  function ChildrenToks(ns: seq<Node>): seq<Tok>
    decreases ns, 0
  {
    if ns == [] then [] else ChildToks(ns[0]) + ChildrenToks(ns[1..])
  }

  function ChildToks(n: Node): seq<Tok>
    decreases n, 2
  {
    match n
    case Element(_, _, _) => ElementToks(n)
    case Text(t) => if IsBlank(t) then [] else [ValueTok(t)]
    case Other => []
  }

  lemma {:induction false} ChildrenToksConcat(a: seq<Node>, b: seq<Node>)
    ensures ChildrenToks(a + b) == ChildrenToks(a) + ChildrenToks(b)
  {
    if a == [] {
      assert a + b == b;
    } else {
      assert (a + b)[1..] == a[1..] + b;
      ChildrenToksConcat(a[1..], b);
    }
  }

  lemma {:induction false} AttrToksConcat(a: seq<Attr>, b: seq<Attr>)
    ensures AttrToks(a + b) == AttrToks(a) + AttrToks(b)
  {
    if a == [] {
      assert a + b == b;
    } else {
      assert (a + b)[1..] == a[1..] + b;
      AttrToksConcat(a[1..], b);
    }
  }

  lemma {:induction false} AnyOtherConcat(a: seq<Node>, b: seq<Node>)
    ensures AnyOther(a + b) <==> AnyOther(a) || AnyOther(b)
  {
    if a == [] {
      assert a + b == b;
    } else {
      assert (a + b)[1..] == a[1..] + b;
      AnyOtherConcat(a[1..], b);
    }
  }

  // ----- Bytes of a token sequence -----

  function TokBytes(t: Tok, off: Offsets): seq<byte> {
    match t
    case Raw(b) => b
    case NameRef(n) => LE32(if n in off then off[n] else 0)
  }

  /** The bytes of `ts`; a name that is not in `off` is written as zero. */
  function Ser(ts: seq<Tok>, off: Offsets): seq<byte> {
    if ts == [] then [] else TokBytes(ts[0], off) + Ser(ts[1..], off)
  }

  lemma {:induction false} SerConcat(a: seq<Tok>, b: seq<Tok>, off: Offsets)
    ensures Ser(a + b, off) == Ser(a, off) + Ser(b, off)
  {
    if a == [] {
      assert a + b == b;
    } else {
      assert (a + b)[1..] == a[1..] + b;
      SerConcat(a[1..], b, off);
    }
  }

  lemma SerOne(t: Tok, off: Offsets)
    ensures Ser([t], off) == TokBytes(t, off)
  {
  }

  lemma SerSnoc(ts: seq<Tok>, t: Tok, off: Offsets)
    ensures Ser(ts + [t], off) == Ser(ts, off) + TokBytes(t, off)
  {
    SerConcat(ts, [t], off);
    SerOne(t, off);
  }

  // ----- References and interned names -----

  datatype Ref = Ref(pos: nat, name: Str)

  /** Where each name reference of `ts` sits, in order. */
  function RefsOf(ts: seq<Tok>): seq<Ref> {
    if ts == [] then []
    else
      var init, t := ts[..|ts| - 1], ts[|ts| - 1];
      RefsOf(init) + (if t.NameRef? then [Ref(|Ser(init, map[])|, t.name)] else [])
  }

  /** The names of `ts`, each once, in order of first use. */
  function FirstUses(ts: seq<Tok>): seq<Str> {
    if ts == [] then []
    else
      var names, t := FirstUses(ts[..|ts| - 1]), ts[|ts| - 1];
      if t.NameRef? && t.name !in names then names + [t.name] else names
  }

  lemma Snoc(ts: seq<Tok>, t: Tok)
    ensures RefsOf(ts + [t]) == RefsOf(ts) + (if t.NameRef? then [Ref(|Ser(ts, map[])|, t.name)] else [])
    ensures FirstUses(ts + [t])
         == if t.NameRef? && t.name !in FirstUses(ts) then FirstUses(ts) + [t.name] else FirstUses(ts)
  {
  }

  /** Interning keeps exactly the referenced names, without repetition. */
  lemma {:induction false} FirstUsesAreTheNames(ts: seq<Tok>)
    ensures forall t :: t in ts && t.NameRef? ==> t.name in FirstUses(ts)
    ensures forall n :: n in FirstUses(ts) ==> NameRef(n) in ts
    ensures forall i, j :: 0 <= i < j < |FirstUses(ts)| ==> FirstUses(ts)[i] != FirstUses(ts)[j]
  {
    if ts != [] {
      var init, t := ts[..|ts| - 1], ts[|ts| - 1];
      FirstUsesAreTheNames(init);
      assert ts == init + [t];
    }
  }

  /** Order of first use: a name interned earlier is referenced before any reference to a later one. */
  lemma {:induction false} FirstUsesInOrder(ts: seq<Tok>, i: nat, j: nat, q: nat)
    requires i < j < |FirstUses(ts)|
    requires q < |ts| && ts[q] == NameRef(FirstUses(ts)[j])
    ensures exists p :: 0 <= p < q && ts[p] == NameRef(FirstUses(ts)[i])
  {
    var init, t := ts[..|ts| - 1], ts[|ts| - 1];
    var names := FirstUses(init);
    if q < |init| {
      FirstUsesAreTheNames(init);
      assert init[q] == ts[q];
      if j == |names| {
        assert false;
      } else {
        FirstUsesInOrder(init, i, j, q);
        var p :| 0 <= p < q && init[p] == NameRef(names[i]);
        assert ts[p] == NameRef(FirstUses(ts)[i]);
      }
    } else {
      FirstUsesAreTheNames(init);
      assert names[i] == FirstUses(ts)[i];
      assert NameRef(names[i]) in init;
      var p :| 0 <= p < |init| && init[p] == NameRef(names[i]);
      assert ts[p] == NameRef(FirstUses(ts)[i]);
    }
  }

  // ----- Placeholders -----

  ghost predicate InSlot(refs: seq<Ref>, i: int) {
    exists k :: 0 <= k < |refs| && refs[k].pos <= i < refs[k].pos + 4
  }

  /** Same length whatever the offsets are, so positions can be recorded before the offsets are known. */
  lemma {:induction false} SerLength(ts: seq<Tok>, off: Offsets)
    ensures |Ser(ts, off)| == |Ser(ts, map[])|
  {
    if ts != [] {
      SerLength(ts[1..], off);
    }
  }

  lemma NewSlot(init: seq<Tok>, name: Str, off: Offsets)
    ensures var p := |Ser(init, map[])|;
            && At(Ser(init + [NameRef(name)], map[]), p, LE32(0))
            && At(Ser(init + [NameRef(name)], off), p, TokBytes(NameRef(name), off))
  {
    assert TokBytes(NameRef(name), map[]) == LE32(0);
    hide Ser, TokBytes, LE32, At;
    SerSnoc(init, NameRef(name), off);
    SerSnoc(init, NameRef(name), map[]);
    SerLength(init, off);
    AtEnd(Ser(init, map[]), LE32(0));
    AtEnd(Ser(init, off), TokBytes(NameRef(name), off));
  }

  /** Each reference has four bytes: zero before patching, the offset of its name afterwards. */
  lemma {:induction false} SlotBytes(ts: seq<Tok>, off: Offsets, k: nat)
    requires k < |RefsOf(ts)|
    ensures At(Ser(ts, map[]), RefsOf(ts)[k].pos, LE32(0))
    ensures At(Ser(ts, off), RefsOf(ts)[k].pos, TokBytes(NameRef(RefsOf(ts)[k].name), off))
    ensures NameRef(RefsOf(ts)[k].name) in ts
  {
    hide Ser, TokBytes, LE32, At;
    var init, t := ts[..|ts| - 1], ts[|ts| - 1];
    assert ts == init + [t];
    if k >= |RefsOf(init)| {
      NewSlot(init, t.name, off);
    } else {
      SerSnoc(init, t, off);
      SerSnoc(init, t, map[]);
      SlotBytes(init, off, k);
      var r := RefsOf(init)[k];
      AtPrefix(Ser(init, map[]), TokBytes(t, map[]), r.pos, LE32(0));
      AtPrefix(Ser(init, off), TokBytes(t, off), r.pos, TokBytes(NameRef(r.name), off));
    }
  }

  /** The placeholders are pairwise disjoint, in the order of the references. */
  lemma {:induction false} SlotsApart(ts: seq<Tok>, j: nat, k: nat)
    requires j < k < |RefsOf(ts)|
    ensures RefsOf(ts)[j].pos + 4 <= RefsOf(ts)[k].pos
  {
    var init := ts[..|ts| - 1];
    if k < |RefsOf(init)| {
      SlotsApart(init, j, k);
    } else {
      SlotBytes(init, map[], j);
    }
  }

  /** Outside the placeholders the two images agree. */
  lemma {:induction false} OutsideSlots(ts: seq<Tok>, off: Offsets, i: nat)
    requires i < |Ser(ts, map[])| && !InSlot(RefsOf(ts), i)
    ensures i < |Ser(ts, off)| && Ser(ts, off)[i] == Ser(ts, map[])[i]
  {
    if ts != [] {
      var init, t := ts[..|ts| - 1], ts[|ts| - 1];
      assert ts == init + [t];
      SerSnoc(init, t, off);
      SerSnoc(init, t, map[]);
      SerLength(init, off);
      var n := |RefsOf(init)|;
      assert forall k :: 0 <= k < n ==> RefsOf(ts)[k] == RefsOf(init)[k];
      assert t.NameRef? ==> RefsOf(ts)[n] == Ref(|Ser(init, map[])|, t.name);
      assert t.NameRef? ==> i < |Ser(init, map[])|;
      if i < |Ser(init, map[])| {
        OutsideSlots(init, off, i);
      }
    }
  }
}
