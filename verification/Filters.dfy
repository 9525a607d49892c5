/**
 What it means to keep some elements of a sequence: said by positions, without
 any recursion, so that a filter can be compared with it.
 */
module Filters {
  ghost predicate Rises(ks: seq<nat>) { forall i, j :: 0 <= i < j < |ks| ==> ks[i] < ks[j] }

  ghost predicate Reads<T>(from: seq<T>, to: seq<T>, ks: seq<nat>) {
    |ks| == |to| && forall i :: 0 <= i < |ks| ==> ks[i] < |from| && to[i] == from[ks[i]]
  }

  ghost predicate Chosen<T(!new)>(from: seq<T>, ks: seq<nat>, keep: T -> bool) {
    forall k :: 0 <= k < |from| ==> (k in ks <==> keep(from[k]))
  }

  /** `to` holds the elements of `from` at the positions `ks`, which are those that are kept, in order. */
  ghost predicate Picks<T(!new)>(from: seq<T>, to: seq<T>, ks: seq<nat>, keep: T -> bool) {
    Rises(ks) && Reads(from, to, ks) && Chosen(from, ks, keep)
  }

  /** `to` is what is kept of `from`: every kept element as often as it occurs, in order, and nothing else. */
  ghost predicate IsFilter<T(!new)>(from: seq<T>, to: seq<T>, keep: T -> bool) {
    exists ks: seq<nat> :: Picks(from, to, ks, keep)
  }

  lemma NothingPicked<T(!new)>(keep: T -> bool)
    ensures IsFilter([], [], keep)
  {
    assert Picks([], [], [], keep);
  }

  /** Positions in the first part only. */
  lemma LongerFrom<T(!new)>(from: seq<T>, to: seq<T>, ks: seq<nat>, x: T)
    requires Reads(from, to, ks)
    ensures Reads(from + [x], to, ks) && |from| !in ks
  {
  }

  lemma PickLast<T(!new)>(from: seq<T>, to: seq<T>, x: T, keep: T -> bool)
    requires IsFilter(from, to, keep)
    ensures IsFilter(from + [x], if keep(x) then to + [x] else to, keep)
  {
    var ks: seq<nat> :| Picks(from, to, ks, keep);
    var n := |from|;
    LongerFrom(from, to, ks, x);
    if keep(x) {
      RisesMore(from, to, ks, n);
      assert Reads(from + [x], to + [x], ks + [n]);
      ChosenMore(from, ks, x, keep);
      hide Rises, Reads, Chosen;
      assert Picks(from + [x], to + [x], ks + [n], keep);
    } else {
      assert Chosen(from + [x], ks, keep);
      hide Rises, Reads, Chosen;
      assert Picks(from + [x], to, ks, keep);
    }
  }

  lemma RisesMore<T>(from: seq<T>, to: seq<T>, ks: seq<nat>, n: nat)
    requires Rises(ks) && Reads(from, to, ks) && |from| <= n
    ensures Rises(ks + [n])
  {
  }

  lemma ChosenMore<T(!new)>(from: seq<T>, ks: seq<nat>, x: T, keep: T -> bool)
    requires Chosen(from, ks, keep) && keep(x)
    ensures Chosen(from + [x], ks + [|from|], keep)
  {
    assert forall k :: k in ks + [|from|] <==> k in ks || k == |from|;
  }

  ghost function Shift(ks: seq<nat>): seq<nat> {
    seq(|ks|, i requires 0 <= i < |ks| => ks[i] + 1)
  }

  lemma Shifted(ks: seq<nat>, k: nat)
    ensures k in Shift(ks) <==> k > 0 && k - 1 in ks
  {
    if k > 0 && k - 1 in ks {
      var i :| 0 <= i < |ks| && ks[i] == k - 1;
      assert Shift(ks)[i] == k;
    }
  }

  lemma ChosenAfter<T(!new)>(x: T, from: seq<T>, ks: seq<nat>, keep: T -> bool)
    requires Chosen(from, ks, keep)
    ensures Chosen([x] + from, if keep(x) then [0] + Shift(ks) else Shift(ks), keep)
  {
    var all, more := [x] + from, if keep(x) then [0] + Shift(ks) else Shift(ks);
    forall k | 0 <= k < |all| ensures k in more <==> keep(all[k]) {
      Shifted(ks, k);
      assert k in [0] + Shift(ks) <==> k == 0 || k in Shift(ks);
      if k > 0 {
        assert all[k] == from[k - 1];
      }
    }
  }

  lemma PickFirst<T(!new)>(x: T, from: seq<T>, to: seq<T>, keep: T -> bool)
    requires IsFilter(from, to, keep)
    ensures IsFilter([x] + from, (if keep(x) then [x] else []) + to, keep)
  {
    var ks: seq<nat> :| Picks(from, to, ks, keep);
    var all := [x] + from;
    ChosenAfter(x, from, ks, keep);
    RisesAfter(ks);
    ReadsAfter(x, from, to, ks);
    assert [] + to == to;
    hide Rises, Reads, Chosen, Shift;
    assert Picks(all, (if keep(x) then [x] else []) + to, if keep(x) then [0] + Shift(ks) else Shift(ks), keep);
  }

  lemma RisesAfter(ks: seq<nat>)
    requires Rises(ks)
    ensures Rises(Shift(ks)) && Rises([0] + Shift(ks))
  {
  }

  lemma ReadsAfter<T>(x: T, from: seq<T>, to: seq<T>, ks: seq<nat>)
    requires Reads(from, to, ks)
    ensures Reads([x] + from, to, Shift(ks)) && Reads([x] + from, [x] + to, [0] + Shift(ks))
  {
  }

  /** What is kept are the members that are to be kept. */
  lemma FilterMembers<T(!new)>(from: seq<T>, to: seq<T>, keep: T -> bool)
    requires IsFilter(from, to, keep)
    ensures forall x :: x in to <==> x in from && keep(x)
  {
    var ks: seq<nat> :| Picks(from, to, ks, keep);
    forall x ensures x in to <==> x in from && keep(x) {
      if x in to {
        var i :| 0 <= i < |to| && to[i] == x;
        assert ks[i] in ks;
      }
      if x in from && keep(x) {
        var k :| 0 <= k < |from| && from[k] == x;
        var i :| 0 <= i < |ks| && ks[i] == k;
        assert to[i] == x;
      }
    }
  }

  /** The positions are determined: both lists are the ascending list of one set. */
  lemma {:induction false} PositionsAreOne(a: seq<nat>, b: seq<nat>)
    requires Rises(a) && Rises(b) && forall k :: k in a <==> k in b
    ensures a == b
    decreases |a|
  {
    if a == [] {
      SomeMember(b);
    } else {
      assert a[0] in a && b != [];
      assert b[0] in b;
      assert a[0] == b[0];
      RestOf(a);
      RestOf(b);
      PositionsAreOne(a[1..], b[1..]);
      assert a == [a[0]] + a[1..] && b == [b[0]] + b[1..];
    }
  }

  lemma SomeMember(b: seq<nat>)
    ensures b != [] ==> exists k :: k in b
  {
    if b != [] {
      assert b[0] in b;
    }
  }

  lemma RestOf(a: seq<nat>)
    requires a != [] && Rises(a)
    ensures forall k :: k in a[1..] <==> k in a && k != a[0]
  {
    assert a == [a[0]] + a[1..];
  }

  /** There is only one such sequence. */
  lemma FilterIsUnique<T(!new)>(from: seq<T>, a: seq<T>, b: seq<T>, keep: T -> bool)
    requires IsFilter(from, a, keep) && IsFilter(from, b, keep)
    ensures a == b
  {
    var js: seq<nat> :| Picks(from, a, js, keep);
    var ks: seq<nat> :| Picks(from, b, ks, keep);
    forall k: nat ensures k in js <==> k in ks {
      Within(from, a, js, k);
      Within(from, b, ks, k);
    }
    PositionsAreOne(js, ks);
  }

  lemma Within<T(!new)>(from: seq<T>, to: seq<T>, ks: seq<nat>, k: nat)
    requires Reads(from, to, ks)
    ensures k in ks ==> k < |from|
  {
  }
}
