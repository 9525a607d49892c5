/**
 Commits, trees as path-to-blob maps, and ancestry. A commit is its content, as
 in a content-addressed store, so histories are acyclic by construction.
 */
module CommitGraph {
  type Path = string
  type Branch = string

  datatype Mode = Regular | Executable | Symlink | OtherMode(bits: nat)
  datatype Blob = Blob(oid: nat, mode: Mode)
  type Tree = map<Path, Blob>

  datatype Commit = Commit(tree: Tree, parents: seq<Commit>, message: string)

  predicate Ancestor(a: Commit, c: Commit) {
    a == c || exists i :: 0 <= i < |c.parents| && Ancestor(a, c.parents[i])
  }

  lemma {:induction false} AncestorTransitive(a: Commit, b: Commit, c: Commit)
    requires Ancestor(a, b) && Ancestor(b, c)
    ensures Ancestor(a, c)
    decreases c
  {
    if b != c {
      var i :| 0 <= i < |c.parents| && Ancestor(b, c.parents[i]);
      AncestorTransitive(a, b, c.parents[i]);
    }
  }

  /** Length of the longest line of parents. */
  ghost function Depth(c: Commit): nat { DepthOf(c.parents) + 1 }

  ghost function DepthOf(cs: seq<Commit>): nat {
    if cs == [] then 0
    else
      var d, rest := Depth(cs[0]), DepthOf(cs[1..]);
      if d > rest then d else rest
  }

  lemma {:induction false} ParentIsShallower(cs: seq<Commit>, i: nat)
    requires i < |cs|
    ensures Depth(cs[i]) <= DepthOf(cs)
  {
    if i > 0 {
      ParentIsShallower(cs[1..], i - 1);
    }
  }

  /** A proper ancestor is strictly shallower, so no commit is an ancestor of its own ancestor. */
  lemma {:induction false} AncestorIsShallower(a: Commit, c: Commit)
    requires Ancestor(a, c)
    ensures a == c || Depth(a) < Depth(c)
    decreases c
  {
    if a != c {
      var i :| 0 <= i < |c.parents| && Ancestor(a, c.parents[i]);
      AncestorIsShallower(a, c.parents[i]);
      ParentIsShallower(c.parents, i);
    }
  }

  lemma AncestorAntisymmetric(a: Commit, c: Commit)
    requires Ancestor(a, c) && Ancestor(c, a)
    ensures a == c
  {
    AncestorIsShallower(a, c);
    AncestorIsShallower(c, a);
  }

  /** A straight line of commits from `base` up to `tip`, none of them empty. */
  ghost predicate Chain(base: Commit, tip: Commit) {
    base == tip || (|tip.parents| == 1 && tip.tree != tip.parents[0].tree && Chain(base, tip.parents[0]))
  }

  lemma {:induction false} ChainIsAncestry(base: Commit, tip: Commit)
    requires Chain(base, tip)
    ensures Ancestor(base, tip)
    decreases tip
  {
    if base != tip {
      ChainIsAncestry(base, tip.parents[0]);
    }
  }
}
