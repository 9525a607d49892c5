/**
 The BinXml encoder: it appends tokens to a buffer, interns names and remembers
 where each name reference sits so that it can be patched later.
 */
module EvtxEncoder {
  import opened Bytes
  import opened EvtxTree

  class Encoder {
    var out: seq<byte>
    var names: seq<Str>
    var seen: set<Str>
    var refs: seq<Ref>
    // The tokens emitted so far.
    ghost var toks: seq<Tok>

    ghost predicate Valid()
      reads this
    {
      && out == Ser(toks, map[])
      && names == FirstUses(toks)
      && seen == (set n | n in names)
      && refs == RefsOf(toks)
    }

    constructor ()
      ensures Valid() && toks == []
    {
      out, names, seen, refs, toks := [], [], {}, [], [];
    }

    ghost method Note(t: Tok)
      modifies this`toks
      ensures toks == old(toks) + [t]
      ensures Ser(toks, map[]) == Ser(old(toks), map[]) + TokBytes(t, map[])
      ensures RefsOf(toks) == RefsOf(old(toks))
                            + (if t.NameRef? then [Ref(|Ser(old(toks), map[])|, t.name)] else [])
      ensures FirstUses(toks) == if t.NameRef? && t.name !in FirstUses(old(toks))
                                 then FirstUses(old(toks)) + [t.name] else FirstUses(old(toks))
    {
      Snoc(toks, t);
      SerSnoc(toks, t, map[]);
      toks := toks + [t];
    }

    method Push(bytes: seq<byte>)
      requires Valid()
      modifies this
      ensures Valid() && toks == old(toks) + [Raw(bytes)]
    {
      out := out + bytes;
      Note(Raw(bytes));
    }

    method EmitName(name: Str)
      requires Valid()
      modifies this
      ensures Valid() && toks == old(toks) + [NameRef(name)]
    {
      assert TokBytes(NameRef(name), map[]) == LE32(0);
      hide Ser, FirstUses, RefsOf, TokBytes, LE32;
      if name !in seen {
        seen := seen + {name};
        names := names + [name];
      }
      refs := refs + [Ref(|out|, name)];
      out := out + LE32(0);
      Note(NameRef(name));
    }

    method EmitValue(value: Str)
      requires Valid()
      modifies this
      ensures Valid() && toks == old(toks) + [ValueTok(value)]
    {
      var bytes := [5, 1] + LE16(ToU16(|value|));
      for i := 0 to |value|
        invariant bytes == [5, 1] + LE16(ToU16(|value|)) + Units(value[..i])
      {
        bytes := bytes + LE16(value[i]);
        assert Units(value[..i + 1]) == Units(value[..i]) + LE16(value[i]);
      }
      assert value[..|value|] == value;
      Push(bytes);
    }

    method EmitAttr(attr: Attr)
      requires Valid()
      modifies this
      ensures Valid() && toks == old(toks) + AttrToks([attr])
    {
      hide *;
      OneAttr(attr);
      Push([6]);
      EmitName(attr.name);
      EmitValue(attr.value);
    }

    method EmitAttrs(attrs: seq<Attr>)
      requires Valid()
      modifies this
      ensures Valid() && toks == old(toks) + AttrToks(attrs)
    {
      hide *;
      NoAttrs();
      assert attrs[..0] == [];
      for i := 0 to |attrs|
        invariant Valid() && toks == old(toks) + AttrToks(attrs[..i])
      {
        EmitAttr(attrs[i]);
        Joined(old(toks), AttrToks(attrs[..i]), AttrToks([attrs[i]]));
        AttrToksConcat(attrs[..i], [attrs[i]]);
        assert attrs[..i + 1] == attrs[..i] + [attrs[i]];
      }
      assert attrs[..|attrs|] == attrs;
    }

    method EmitStart(name: Str, attrs: seq<Attr>)
      requires Valid()
      modifies this
      ensures Valid() && toks == old(toks) + StartToks(name, attrs)
    {
      Push([if attrs == [] then 0x01 else 0x41] + LE16(0) + LE32(0));
      EmitName(name);
      if attrs != [] {
        Push(LE32(0));
      }
    }

    /**
     Encode one element. A subtree that holds a node which is neither element
     nor text is refused; any other subtree appends exactly its tokens.
     */
    method EncodeElement(node: Node) returns (ok: bool)
      requires Valid() && node.Element?
      modifies this
      ensures ok == !HasOther(node)
      ensures ok ==> Valid() && toks == old(toks) + ElementToks(node)
      decreases node, 1
    {
      var attrs := Kept(node.attrs);
      EmitStart(node.name, attrs);
      EmitAttrs(attrs);
      ok := EncodeContent(node.children);
      Reassociate(old(toks), StartToks(node.name, attrs) + AttrToks(attrs), ContentToks(node.children));
      Reassociate(old(toks), StartToks(node.name, attrs), AttrToks(attrs));
    }

    method EncodeContent(children: seq<Node>) returns (ok: bool)
      requires Valid()
      modifies this
      ensures ok == !AnyOther(children)
      ensures ok ==> Valid() && toks == old(toks) + ContentToks(children)
      decreases children, 1
    {
      hide Valid, ChildrenToks;
      if children != [] {
        Push([2]);
        ok := EncodeChildren(children);
        if ok {
          Push([4]);
        }
      } else {
        Push([3]);
        ok := true;
      }
    }

    method EncodeChildren(children: seq<Node>) returns (ok: bool)
      requires Valid()
      modifies this
      ensures ok == !AnyOther(children)
      ensures ok ==> Valid() && toks == old(toks) + ChildrenToks(children)
      decreases children, 0
    {
      hide *;
      NoChildren();
      assert children[..0] == [];
      for i := 0 to |children|
        invariant Valid() && !AnyOther(children[..i])
        invariant toks == old(toks) + ChildrenToks(children[..i])
      {
        ChildrenStep(children, i);
        Joined(old(toks), ChildrenToks(children[..i]), ChildToks(children[i]));
        var done := EncodeChild(children[i]);
        if !done {
          return false;
        }
      }
      assert children[..|children|] == children;
      return true;
    }

    method EncodeChild(child: Node) returns (ok: bool)
      requires Valid()
      modifies this
      ensures ok == !HasOther(child)
      ensures ok ==> Valid() && toks == old(toks) + ChildToks(child)
      decreases child, 2
    {
      match child
      case Element(_, _, _) =>
        ok := EncodeElement(child);
      case Text(text) =>
        if !IsBlank(text) {
          EmitValue(text);
        }
        ok := true;
      case Other =>
        ok := false;
    }
  }

  lemma ChildrenStep(children: seq<Node>, i: nat)
    requires i < |children|
    ensures ChildrenToks(children[..i + 1]) == ChildrenToks(children[..i]) + ChildToks(children[i])
    ensures AnyOther(children[..i + 1]) <==> AnyOther(children[..i]) || HasOther(children[i])
    ensures HasOther(children[i]) ==> AnyOther(children)
  {
    hide *;
    assert children[..i + 1] == children[..i] + [children[i]];
    ChildrenToksConcat(children[..i], [children[i]]);
    AnyOtherConcat(children[..i], [children[i]]);
    OneChild(children[i]);
    if HasOther(children[i]) {
      AnyOtherMember(children, i);
    }
  }

  lemma {:induction false} AnyOtherMember(children: seq<Node>, i: nat)
    requires i < |children| && HasOther(children[i])
    ensures AnyOther(children)
  {
    if i > 0 {
      AnyOtherMember(children[1..], i - 1);
    }
  }

  lemma NoChildren()
    ensures ChildrenToks([]) == [] && !AnyOther([])
  {
  }

  lemma NoAttrs()
    ensures AttrToks([]) == []
  {
  }

  lemma OneAttr(attr: Attr)
    ensures AttrToks([attr]) == [Raw([6]), NameRef(attr.name), ValueTok(attr.value)]
  {
  }

  lemma Joined<T>(a: seq<T>, b: seq<T>, c: seq<T>)
    ensures (a + b) + c == a + (b + c)
  {
  }

  lemma OneChild(child: Node)
    ensures ChildrenToks([child]) == ChildToks(child)
    ensures AnyOther([child]) == HasOther(child)
  {
  }
}
