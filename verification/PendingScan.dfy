/**
 Which rules already have regression data on a pending branch: a walk over the
 `regression_data` trees of every branch, without checking anything out.
 */
module PendingScan {
  import opened Options

  datatype Outcome<+T> = Done(value: T) | Failed

  type Name = string
  type Id = nat

  /** What reading a blob gives: an error, or its size and how many events it decodes to. */
  datatype Blob = ReadError | Data(size: nat, events: Option<nat>)

  datatype Kind = Subtree(node: Node) | File(blob: Blob) | Special
  datatype Entry = Entry(name: Name, kind: Kind)

  /** A tree object; `Unreadable` is one that cannot be read or parsed. */
  datatype Node = Unreadable | Tree(entries: seq<Entry>)

  /** A branch tip; `None` is a commit that cannot be read or parsed. */
  type Tip = Option<Node>

  const MAX_DEPTH := 32
  const MAX_EVTX := 67_108_864

  /** The name up to its last dot. */
  function Stem(name: Name): Name {
    if '.' !in name then name
    else if name[|name| - 1] == '.' then name[..|name| - 1]
    else Stem(name[..|name| - 1])
  }

  predicate IsEvtx(name: Name) { |name| >= 5 && name[|name| - 5..] == ".evtx" }

  predicate IsGood(name: Name, blob: Blob) {
    IsEvtx(name) ==> blob.Data? && blob.size <= MAX_EVTX && blob.events.Some? && blob.events.value > 0
  }

  /** The file is data of rule `id`, good or broken as asked. */
  ghost predicate Marks(uuid: Name -> Option<Id>, e: Entry, good: bool, id: Id) {
    e.kind.File? && uuid(Stem(e.name)) == Some(id) && IsGood(e.name, e.kind.blob) == good
  }

  // ----- What the walk finds, as functions -----

  function Found(uuid: Name -> Option<Id>, n: Node, depth: nat, good: bool): set<Id>
    decreases n, 1
  {
    if depth > MAX_DEPTH || n.Unreadable? then {} else FoundIn(uuid, n.entries, depth, good)
  }

  function FoundIn(uuid: Name -> Option<Id>, es: seq<Entry>, depth: nat, good: bool): set<Id>
    decreases es, 0
  {
    if es == [] then {}
    else FoundIn(uuid, es[..|es| - 1], depth, good) + FoundAt(uuid, es[|es| - 1], depth, good)
  }

  function FoundAt(uuid: Name -> Option<Id>, e: Entry, depth: nat, good: bool): set<Id>
    decreases e, 2
  {
    match e.kind
    case Subtree(n) => Found(uuid, n, depth + 1, good)
    case File(blob) =>
      if uuid(Stem(e.name)).Some? && IsGood(e.name, blob) == good then {uuid(Stem(e.name)).value} else {}
    case Special => {}
  }

  predicate Readable(n: Node, depth: nat)
    decreases n, 1
  {
    depth > MAX_DEPTH || (n.Tree? && AllReadable(n.entries, depth))
  }

  predicate AllReadable(es: seq<Entry>, depth: nat)
    decreases es, 0
  {
    es == [] || (AllReadable(es[..|es| - 1], depth)
                 && (es[|es| - 1].kind.Subtree? ==> Readable(es[|es| - 1].kind.node, depth + 1)))
  }

  lemma {:induction false} ReadablePrefix(es: seq<Entry>, depth: nat, k: nat)
    requires k <= |es| && AllReadable(es, depth)
    ensures AllReadable(es[..k], depth)
    decreases |es|
  {
    if k == |es| {
      assert es[..k] == es;
    } else {
      ReadablePrefix(es[..|es| - 1], depth, k);
      assert es[..|es| - 1][..k] == es[..k];
    }
  }

  // ----- The walk -----

  class Scan {
    const uuid: Name -> Option<Id>
    var valid: set<Id>
    var broken: set<Id>

    constructor (uuid: Name -> Option<Id>)
      ensures this.uuid == uuid && valid == {} && broken == {}
    {
      this.uuid, valid, broken := uuid, {}, {};
    }

    /** Walk one tree; a tree that cannot be read ends the whole scan. */
    method CollectTree(n: Node, depth: nat) returns (ok: bool)
      modifies this
      ensures ok == Readable(n, depth)
      ensures ok ==> valid == old(valid) + Found(uuid, n, depth, true)
      ensures ok ==> broken == old(broken) + Found(uuid, n, depth, false)
      decreases n, 1
    {
      if depth > MAX_DEPTH {
        return true;
      }
      if n.Unreadable? {
        return false;
      }
      var entries := n.entries;
      for i := 0 to |entries|
        invariant AllReadable(entries[..i], depth)
        invariant valid == old(valid) + FoundIn(uuid, entries[..i], depth, true)
        invariant broken == old(broken) + FoundIn(uuid, entries[..i], depth, false)
      {
        assert entries[..i + 1][..i] == entries[..i];
        ok := CollectEntry(entries[i], depth);
        if !ok {
          if AllReadable(entries, depth) {
            ReadablePrefix(entries, depth, i + 1);
          }
          return;
        }
      }
      assert entries[..|entries|] == entries;
      ok := true;
    }

    method CollectEntry(e: Entry, depth: nat) returns (ok: bool)
      modifies this
      ensures ok == (e.kind.Subtree? ==> Readable(e.kind.node, depth + 1))
      ensures ok ==> valid == old(valid) + FoundAt(uuid, e, depth, true)
      ensures ok ==> broken == old(broken) + FoundAt(uuid, e, depth, false)
      decreases e, 2
    {
      ok := true;
      match e.kind
      case Subtree(n) =>
        ok := CollectTree(n, depth + 1);
      case File(blob) =>
        var id := uuid(Stem(e.name));
        if id.Some? {
          if IsGood(e.name, blob) {
            valid := valid + {id.value};
          } else {
            broken := broken + {id.value};
          }
        }
      case Special =>
    }

    /** The rules to skip: good data somewhere and broken data nowhere, over all branches. */
    method PendingRuleIds(offline: bool, tips: seq<Tip>) returns (r: Outcome<set<Id>>)
      requires valid == {} && broken == {}
      modifies this
      ensures offline ==> r == Done({})
      ensures !offline ==> (r.Done? <==> forall i :: 0 <= i < |tips| ==> TipReadable(tips[i]))
      ensures !offline && r.Done? ==> r.value == FoundOn(uuid, tips, true) - FoundOn(uuid, tips, false)
    {
      if offline {
        return Done({});
      }
      for i := 0 to |tips|
        invariant forall j :: 0 <= j < i ==> TipReadable(tips[j])
        invariant valid == FoundOn(uuid, tips[..i], true) && broken == FoundOn(uuid, tips[..i], false)
      {
        assert tips[..i + 1][..i] == tips[..i];
        var ok := CollectTip(tips[i]);
        if !ok {
          return Failed;
        }
      }
      assert tips[..|tips|] == tips;
      r := Done(valid - broken);
    }

    /** Only the top-level `regression_data` directories are walked. */
    method CollectTip(tip: Tip) returns (ok: bool)
      modifies this
      ensures ok == TipReadable(tip)
      ensures ok ==> valid == old(valid) + FoundInTip(uuid, tip, true)
      ensures ok ==> broken == old(broken) + FoundInTip(uuid, tip, false)
    {
      if tip.None? || tip.value.Unreadable? {
        return false;
      }
      var entries := tip.value.entries;
      for i := 0 to |entries|
        invariant DataReadable(entries[..i])
        invariant valid == old(valid) + FoundInData(uuid, entries[..i], true)
        invariant broken == old(broken) + FoundInData(uuid, entries[..i], false)
      {
        assert entries[..i + 1][..i] == entries[..i];
        if IsData(entries[i]) {
          ok := CollectTree(entries[i].kind.node, 0);
          if !ok {
            assert entries[..i + 1] == entries[..i] + [entries[i]];
            if DataReadable(entries) {
              DataPrefix(entries, i + 1);
            }
            return;
          }
        }
      }
      assert entries[..|entries|] == entries;
      ok := true;
    }
  }

  predicate IsData(e: Entry) { e.kind.Subtree? && e.name == "regression_data" }

  function FoundInData(uuid: Name -> Option<Id>, es: seq<Entry>, good: bool): set<Id> {
    if es == [] then {}
    else
      var e := es[|es| - 1];
      FoundInData(uuid, es[..|es| - 1], good) + if IsData(e) then Found(uuid, e.kind.node, 0, good) else {}
  }

  predicate DataReadable(es: seq<Entry>) {
    es == [] || (DataReadable(es[..|es| - 1]) && (IsData(es[|es| - 1]) ==> Readable(es[|es| - 1].kind.node, 0)))
  }

  lemma {:induction false} DataPrefix(es: seq<Entry>, k: nat)
    requires k <= |es| && DataReadable(es)
    ensures DataReadable(es[..k])
    decreases |es|
  {
    if k == |es| {
      assert es[..k] == es;
    } else {
      DataPrefix(es[..|es| - 1], k);
      assert es[..|es| - 1][..k] == es[..k];
    }
  }

  predicate TipReadable(tip: Tip) { tip.Some? && tip.value.Tree? && DataReadable(tip.value.entries) }

  function FoundInTip(uuid: Name -> Option<Id>, tip: Tip, good: bool): set<Id> {
    if tip.Some? && tip.value.Tree? then FoundInData(uuid, tip.value.entries, good) else {}
  }

  function FoundOn(uuid: Name -> Option<Id>, tips: seq<Tip>, good: bool): set<Id> {
    if tips == [] then {}
    else FoundOn(uuid, tips[..|tips| - 1], good) + FoundInTip(uuid, tips[|tips| - 1], good)
  }

  // ----- What it finds, said without the walk -----

  /** `e` is an entry of a tree exactly `k` directories below `n`. */
  ghost predicate EntryAt(n: Node, k: nat, e: Entry)
    decreases k
  {
    n.Tree? && if k == 0 then e in n.entries
               else exists d :: d in n.entries && d.kind.Subtree? && EntryAt(d.kind.node, k - 1, e)
  }

  lemma {:induction false} FoundInMember(uuid: Name -> Option<Id>, es: seq<Entry>, depth: nat, good: bool, id: Id)
    ensures id in FoundIn(uuid, es, depth, good) <==> exists e :: e in es && id in FoundAt(uuid, e, depth, good)
  {
    if es != [] {
      var init, last := es[..|es| - 1], es[|es| - 1];
      FoundInMember(uuid, init, depth, good, id);
      assert es == init + [last];
      if exists e :: e in es && id in FoundAt(uuid, e, depth, good) {
        var e :| e in es && id in FoundAt(uuid, e, depth, good);
        assert e in init || e == last;
      }
      if id in FoundIn(uuid, es, depth, good) && id !in FoundIn(uuid, init, depth, good) {
        assert last in es && id in FoundAt(uuid, last, depth, good);
      }
    }
  }

  /** A matching file lies no deeper than the limit allows for a tree at `depth`. */
  ghost predicate Reached(uuid: Name -> Option<Id>, n: Node, depth: nat, good: bool, id: Id) {
    exists k: nat, e :: depth + k <= MAX_DEPTH && EntryAt(n, k, e) && Marks(uuid, e, good, id)
  }

  /** Exactly the ids of matching files at most 32 levels down. */
  lemma {:induction false} FoundIsReach(uuid: Name -> Option<Id>, n: Node, depth: nat, good: bool, id: Id)
    ensures id in Found(uuid, n, depth, good) <==> Reached(uuid, n, depth, good, id)
    decreases n
  {
    if n.Tree? && depth <= MAX_DEPTH {
      FoundInMember(uuid, n.entries, depth, good, id);
      forall d | d in n.entries && d.kind.Subtree?
        ensures id in Found(uuid, d.kind.node, depth + 1, good) <==> Reached(uuid, d.kind.node, depth + 1, good, id)
      {
        FoundIsReach(uuid, d.kind.node, depth + 1, good, id);
      }
      if id in Found(uuid, n, depth, good) {
        var d :| d in n.entries && id in FoundAt(uuid, d, depth, good);
        if d.kind.Subtree? {
          var k: nat, e :| depth + 1 + k <= MAX_DEPTH && EntryAt(d.kind.node, k, e) && Marks(uuid, e, good, id);
          assert EntryAt(n, k + 1, e);
        } else {
          assert EntryAt(n, 0, d);
        }
      }
      if Reached(uuid, n, depth, good, id) {
        var k: nat, e :| depth + k <= MAX_DEPTH && EntryAt(n, k, e) && Marks(uuid, e, good, id);
        if k == 0 {
          assert id in FoundAt(uuid, e, depth, good);
        } else {
          var d :| d in n.entries && d.kind.Subtree? && EntryAt(d.kind.node, k - 1, e);
          assert depth + 1 + (k - 1) <= MAX_DEPTH;
          assert id in FoundAt(uuid, d, depth, good);
        }
      }
    }
  }

  /** Some `regression_data` tree of the tip holds such a file within 32 levels. */
  ghost predicate OnTip(uuid: Name -> Option<Id>, tip: Tip, good: bool, id: Id) {
    tip.Some? && tip.value.Tree? &&
    exists d :: d in tip.value.entries && IsData(d) && Reached(uuid, d.kind.node, 0, good, id)
  }

  lemma {:induction false} FoundInDataIsOnTip(uuid: Name -> Option<Id>, es: seq<Entry>, good: bool, id: Id)
    ensures id in FoundInData(uuid, es, good)
            <==> exists d :: d in es && IsData(d) && Reached(uuid, d.kind.node, 0, good, id)
  {
    if es != [] {
      var init, last := es[..|es| - 1], es[|es| - 1];
      FoundInDataIsOnTip(uuid, init, good, id);
      if IsData(last) {
        FoundIsReach(uuid, last.kind.node, 0, good, id);
      }
      hide Reached, Found;
      assert es == init + [last];
    }
  }

  /**
   An id is found on the branches exactly when some branch has such a file; the
   order of branches and entries plays no part.
   */
  lemma {:induction false} FoundOnIsSomeTip(uuid: Name -> Option<Id>, tips: seq<Tip>, good: bool, id: Id)
    ensures id in FoundOn(uuid, tips, good) <==> exists t :: t in tips && OnTip(uuid, t, good, id)
  {
    if tips != [] {
      var init, last := tips[..|tips| - 1], tips[|tips| - 1];
      FoundOnIsSomeTip(uuid, init, good, id);
      if last.Some? && last.value.Tree? {
        FoundInDataIsOnTip(uuid, last.value.entries, good, id);
      }
      assert id in FoundInTip(uuid, last, good) <==> OnTip(uuid, last, good, id);
      hide FoundInTip, OnTip;
      assert tips == init + [last];
      assert forall t :: t in tips <==> t in init || t == last;
    }
  }

  /** The scan skips a rule exactly when it has good data on some branch and broken data on none. */
  lemma SkipSet(uuid: Name -> Option<Id>, tips: seq<Tip>, id: Id)
    ensures id in FoundOn(uuid, tips, true) - FoundOn(uuid, tips, false)
            <==> ((exists t :: t in tips && OnTip(uuid, t, true, id))
                  && !(exists t :: t in tips && OnTip(uuid, t, false, id)))
  {
    FoundOnIsSomeTip(uuid, tips, true, id);
    FoundOnIsSomeTip(uuid, tips, false, id);
  }

  /** Listing the same branches in another order gives the same set. */
  lemma OrderIndependent(uuid: Name -> Option<Id>, a: seq<Tip>, b: seq<Tip>)
    requires forall t :: t in a <==> t in b
    ensures FoundOn(uuid, a, true) - FoundOn(uuid, a, false) == FoundOn(uuid, b, true) - FoundOn(uuid, b, false)
  {
    hide FoundOn, OnTip;
    forall id ensures id in FoundOn(uuid, a, true) - FoundOn(uuid, a, false)
                      <==> id in FoundOn(uuid, b, true) - FoundOn(uuid, b, false) {
      SkipSet(uuid, a, id);
      SkipSet(uuid, b, id);
    }
  }
}
