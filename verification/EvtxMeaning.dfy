/**
 What a document shows once it is written and read back, said without the
 functions that the writer uses: which attributes and which children are there.
 */
module EvtxMeaning {
  import opened EvtxTree
  import opened Filters

  /** The name is `xmlns` or begins with `xmlns:`. */
  ghost predicate Declares(name: Str) {
    name == [120, 109, 108, 110, 115] || (|name| >= 6 && name[..6] == [120, 109, 108, 110, 115, 58])
  }

  /** Unicode's White_Space, code unit by code unit. */
  ghost const WHITE: set<int> :=
    {9, 10, 11, 12, 13, 32, 133, 160, 5760, 8192, 8193, 8194, 8195, 8196, 8197, 8198, 8199, 8200, 8201, 8202,
     8232, 8233, 8239, 8287, 12288}

  ghost predicate WhiteText(n: Node) {
    n.Text? && forall i :: 0 <= i < |n.text| ==> n.text[i] as int in WHITE
  }

  /**
   `m` shows `n`: the same names and texts; the attributes of each node in order,
   as often as they stand there, without the namespace declarations; the children
   in order, without white text.
   */
  ghost predicate Reflects(n: Node, m: Node)
    decreases n, 1
  {
    if !n.Element? then m == n
    else
      && m.Element? && m.name == n.name
      && IsFilter(n.attrs, m.attrs, (a: Attr) => !Declares(a.name))
      && exists ks: seq<nat> :: Children(n.children, m.children, ks)
  }

  ghost predicate Children(ns: seq<Node>, ms: seq<Node>, ks: seq<nat>)
    decreases ns, 1
  {
    Rises(ks) && Chosen(ns, ks, (n: Node) => !WhiteText(n)) && EachReflects(ns, ms, ks)
  }

  ghost predicate EachReflects(ns: seq<Node>, ms: seq<Node>, ks: seq<nat>)
    decreases ns, 0
  {
    |ks| == |ms| && forall i :: 0 <= i < |ks| ==> ks[i] < |ns| && Reflects(ns[ks[i]], ms[i])
  }

  lemma NamespaceMeaning(name: Str)
    ensures IsNamespace(name) <==> Declares(name)
  {
    var p := XMLNS + [58];
    assert p == [120, 109, 108, 110, 115, 58];
    assert p <= name <==> |name| >= 6 && name[..6] == p;
  }

  lemma SpaceMeaning(u: int)
    requires 0 <= u < 0x1_0000
    ensures IsSpace(u) <==> u in WHITE
  {
  }

  lemma BlankMeaning(n: Node)
    ensures n.Text? && IsBlank(n.text) <==> WhiteText(n)
  {
    if n.Text? {
      forall i | 0 <= i < |n.text| ensures IsSpace(n.text[i]) <==> n.text[i] as int in WHITE {
        SpaceMeaning(n.text[i]);
      }
    }
  }

  /** The attributes that are written. */
  lemma {:induction false} KeptIsFilter(attrs: seq<Attr>)
    ensures IsFilter(attrs, Kept(attrs), (a: Attr) => !Declares(a.name))
  {
    hide IsFilter, Declares, IsNamespace;
    var keep := (a: Attr) => !Declares(a.name);
    if attrs == [] {
      NothingPicked(keep);
    } else {
      KeptIsFilter(attrs[1..]);
      NamespaceMeaning(attrs[0].name);
      PickFirst(attrs[0], attrs[1..], Kept(attrs[1..]), keep);
      assert attrs == [attrs[0]] + attrs[1..];
    }
  }

  /** What a reader gets back reflects the document. */
  lemma {:induction false} NormReflects(n: Node)
    ensures Reflects(n, Norm(n))
    decreases n, 1
  {
    if n.Element? {
      KeptIsFilter(n.attrs);
      var ks := ChildrenReflect(n.children);
    }
  }

  lemma {:induction false} ChildrenReflect(ns: seq<Node>) returns (ks: seq<nat>)
    ensures Children(ns, NormAll(ns), ks)
    decreases ns, 0
  {
    ks := [];
    if ns != [] {
      var n, rest := ns[0], ns[1..];
      assert ns == [n] + rest;
      BlankMeaning(n);
      var later := ChildrenReflect(rest);
      NormReflects(n);
      ks := (if WhiteText(n) then [] else [0]) + Shift(later);
      ChildFirst(n, rest, NormAll(rest), later);
      hide Children, Reflects, IsBlank, WhiteText;
      assert NormAll(ns) == (if WhiteText(n) then [] else [Norm(n)]) + NormAll(rest);
      assert [] + Shift(later) == Shift(later) && [] + NormAll(rest) == NormAll(rest);
    }
  }

  lemma ChildFirst(n: Node, rest: seq<Node>, ms: seq<Node>, ks: seq<nat>)
    requires Children(rest, ms, ks) && Reflects(n, Norm(n))
    ensures if WhiteText(n) then Children([n] + rest, ms, Shift(ks))
            else Children([n] + rest, [Norm(n)] + ms, [0] + Shift(ks))
  {
    hide WhiteText, Rises, Chosen, Norm, Reflects, EachReflects, Shift;
    ChosenAfter(n, rest, ks, (n: Node) => !WhiteText(n));
    RisesAfter(ks);
    EachAfter(n, rest, ms, ks, Norm(n));
  }

  lemma EachAfter(n: Node, rest: seq<Node>, ms: seq<Node>, ks: seq<nat>, m: Node)
    requires EachReflects(rest, ms, ks)
    ensures EachReflects([n] + rest, ms, Shift(ks))
    ensures Reflects(n, m) ==> EachReflects([n] + rest, [m] + ms, [0] + Shift(ks))
  {
    hide Reflects;
    var ns, later := [n] + rest, Shift(ks);
    forall i | 0 <= i < |later| ensures later[i] < |ns| && Reflects(ns[later[i]], ms[i]) {
      assert ns[later[i]] == rest[ks[i]];
    }
    if Reflects(n, m) {
      FirstEach(ns, ms, later, m);
    }
  }

  lemma FirstEach(ns: seq<Node>, ms: seq<Node>, ks: seq<nat>, m: Node)
    requires ns != [] && EachReflects(ns, ms, ks) && Reflects(ns[0], m)
    ensures EachReflects(ns, [m] + ms, [0] + ks)
  {
    hide Reflects;
    var more, all := [0] + ks, [m] + ms;
    forall i | 0 <= i < |more| ensures more[i] < |ns| && Reflects(ns[more[i]], all[i]) {
      assert i > 0 ==> more[i] == ks[i - 1] && all[i] == ms[i - 1];
    }
  }
}
