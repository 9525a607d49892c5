/**
 Grouping audit records by audit event id: the batch definition, the streaming
 one, and why they agree whatever the idle polls are.
 */
module AuditGroups {
  import opened Bytes
  import opened Lines

  datatype EventId = EventId(timestamp: nat, sequence: nat)

  /** A parsed audit line; `body` stands for the node, type and fields. */
  datatype Record = Record(id: EventId, body: seq<byte>)

  datatype Entry = Entry(record: Record, line: Line)
  type Group = seq<Entry>

  /** An event carries its record, the lines of its whole group and all records of the group. */
  datatype Event = Event(record: Record, lines: seq<byte>, all: seq<Record>)

  /** What reaches the grouper: a parsed record, or an idle poll. */
  datatype Item = Rec(entry: Entry) | Idle

  function Records(g: Group): seq<Record> { seq(|g|, i requires 0 <= i < |g| => g[i].record) }

  function LinesOf(g: Group): seq<byte> {
    if g == [] then [] else LinesOf(g[..|g| - 1]) + g[|g| - 1].line
  }

  function EventsOf(g: Group): seq<Event> {
    seq(|g|, i requires 0 <= i < |g| => Event(g[i].record, LinesOf(g), Records(g)))
  }

  function AllEvents(gs: seq<Group>): seq<Event> {
    if gs == [] then [] else AllEvents(gs[..|gs| - 1]) + EventsOf(gs[|gs| - 1])
  }

  function Entries(gs: seq<Group>): seq<Entry> {
    if gs == [] then [] else gs[0] + Entries(gs[1..])
  }

  // ----- Batch definition -----

  predicate HasId(item: Item, id: EventId) { item.Rec? && item.entry.record.id == id }

  predicate AllOf(items: seq<Item>, id: EventId) {
    forall i :: 0 <= i < |items| ==> HasId(items[i], id)
  }

  /** Length of the run of records with this id at the start of `items`. */
  function Run(items: seq<Item>, id: EventId): (k: nat)
    ensures k <= |items| && AllOf(items[..k], id) && (k < |items| ==> !HasId(items[k], id))
  {
    if items == [] || !HasId(items[0], id) then 0 else 1 + Run(items[1..], id)
  }

  /** The records of `items`, in order. */
  function Recs(items: seq<Item>): seq<Entry> {
    if items == [] then [] else (if items[0].Rec? then [items[0].entry] else []) + Recs(items[1..])
  }

  /** Maximal runs of adjacent records with one id; an idle poll ends a run. */
  function GroupBy(items: seq<Item>): seq<Group>
    decreases |items|
  {
    if items == [] then []
    else if items[0].Idle? then GroupBy(items[1..])
    else
      var k := 1 + Run(items[1..], items[0].entry.record.id);
      [Recs(items[..k])] + GroupBy(items[k..])
  }

  // ----- Streaming definition -----

  datatype Stream = Stream(closed: seq<Group>, open: Group)

  function Close(s: Stream): Stream {
    if s.open == [] then s else Stream(s.closed + [s.open], [])
  }

  function Feed(s: Stream, item: Item): Stream {
    match item
    case Idle => Close(s)
    case Rec(e) =>
      if s.open != [] && s.open[0].record.id == e.record.id then Stream(s.closed, s.open + [e])
      else Stream(Close(s).closed, [e])
  }

  function FeedAll(items: seq<Item>): Stream {
    if items == [] then Stream([], []) else Feed(FeedAll(items[..|items| - 1]), items[|items| - 1])
  }

  lemma FeedSnoc(items: seq<Item>, item: Item)
    ensures FeedAll(items + [item]) == Feed(FeedAll(items), item)
  {
    assert (items + [item])[..|items|] == items;
  }

  // ----- They agree -----

  lemma AllConcat(a: seq<Item>, b: seq<Item>, id: EventId)
    ensures AllOf(a + b, id) <==> AllOf(a, id) && AllOf(b, id)
  {
    var c := a + b;
    assert forall i :: 0 <= i < |a| ==> c[i] == a[i];
    assert forall i :: 0 <= i < |b| ==> c[|a| + i] == b[i];
  }

  lemma AllOne(item: Item, id: EventId)
    ensures AllOf([item], id) <==> HasId(item, id)
  {
    assert HasId([item][0], id) == HasId(item, id);
  }

  lemma {:induction false} RunExact(items: seq<Item>, id: EventId, k: nat)
    requires k <= |items| && AllOf(items[..k], id) && (k < |items| ==> !HasId(items[k], id))
    ensures Run(items, id) == k
    decreases k
  {
    hide AllOf;
    if k > 0 {
      assert items[..k] == [items[0]] + items[1..][..k - 1];
      AllConcat([items[0]], items[1..][..k - 1], id);
      AllOne(items[0], id);
      RunExact(items[1..], id, k - 1);
    } else {
      assert items == [] || !HasId(items[0], id);
    }
  }

  /** A maximal run is a group. */
  lemma GroupStep(items: seq<Item>, id: EventId, k: nat)
    requires 0 < k <= |items| && AllOf(items[..k], id) && (k < |items| ==> !HasId(items[k], id))
    ensures GroupBy(items) == [Recs(items[..k])] + GroupBy(items[k..])
  {
    hide AllOf, Recs, Run;
    assert items[..k] == [items[0]] + items[1..][..k - 1];
    AllConcat([items[0]], items[1..][..k - 1], id);
    AllOne(items[0], id);
    RunExact(items[1..], id, k - 1);
  }

  lemma IdleFirst(items: seq<Item>)
    requires items != [] && items[0].Idle?
    ensures GroupBy(items) == GroupBy(items[1..])
  {
  }

  lemma FirstRun(items: seq<Item>) returns (id: EventId, k: nat)
    requires items != [] && items[0].Rec?
    ensures 0 < k <= |items| && AllOf(items[..k], id) && (k < |items| ==> !HasId(items[k], id))
    ensures HasId(items[0], id)
  {
    id := items[0].entry.record.id;
    k := Run(items, id);
  }

  lemma GroupOne(item: Item)
    ensures GroupBy([]) == []
    ensures GroupBy([item]) == if item.Rec? then [[item.entry]] else []
  {
    assert [item][1..] == [];
    if item.Rec? {
      AllOne(item, item.entry.record.id);
      assert [item][..1] == [item];
      GroupStep([item], item.entry.record.id, 1);
      RecsOne(item);
      assert GroupBy([item]) == [Recs([item])] + GroupBy([]);
    }
  }

  lemma {:induction false} RecsConcat(a: seq<Item>, b: seq<Item>)
    ensures Recs(a + b) == Recs(a) + Recs(b)
  {
    hide *;
    if a == [] {
      assert a + b == b;
      NoRecs();
    } else {
      RecsFirst(a);
      RecsFirst(a + b);
      assert (a + b)[1..] == a[1..] + b;
      RecsConcat(a[1..], b);
    }
  }

  lemma NoRecs()
    ensures Recs([]) == []
  {
  }

  lemma RecsFirst(items: seq<Item>)
    requires items != []
    ensures Recs(items) == (if items[0].Rec? then [items[0].entry] else []) + Recs(items[1..])
  {
  }

  lemma {:induction false} RecsOfRun(items: seq<Item>, id: EventId)
    requires AllOf(items, id)
    ensures |Recs(items)| == |items| && forall i :: 0 <= i < |items| ==> Recs(items)[i].record.id == id
  {
    if items != [] {
      assert HasId(items[0], id);
      assert forall i :: 0 <= i < |items| - 1 ==> items[1..][i] == items[i + 1];
      RecsOfRun(items[1..], id);
    }
  }

  lemma {:induction false} GroupBySnoc(items: seq<Item>, item: Item)
    ensures item.Idle? ==> GroupBy(items + [item]) == GroupBy(items)
    ensures item.Rec? && (items == [] || !HasId(items[|items| - 1], item.entry.record.id))
            ==> GroupBy(items + [item]) == GroupBy(items) + [[item.entry]]
    ensures item.Rec? && items != [] && HasId(items[|items| - 1], item.entry.record.id)
            ==> var gs := GroupBy(items);
                gs != [] && GroupBy(items + [item]) == gs[..|gs| - 1] + [gs[|gs| - 1] + [item.entry]]
    decreases |items|
  {
    hide GroupBy, Recs, AllOf, Run;
    var more := items + [item];
    if items == [] {
      assert more == [item];
      GroupOne(item);
    } else if items[0].Idle? {
      assert more[1..] == items[1..] + [item];
      IdleFirst(items);
      IdleFirst(more);
      GroupBySnoc(items[1..], item);
      if items[1..] == [] {
        GroupOne(item);
      }
    } else {
      var id, k := FirstRun(items);
      GroupStep(items, id, k);
      if k < |items| {
        assert more[..k] == items[..k] && more[k..] == items[k..] + [item];
        GroupStep(more, id, k);
        GroupBySnoc(items[k..], item);
        var g, gs := Recs(items[..k]), GroupBy(items[k..]);
        assert gs != [] ==> ([g] + gs)[..|gs|] == [g] + gs[..|gs| - 1];
      } else {
        assert items[..k] == items;
        LastGroup(items, item, id);
      }
    }
  }

  /** The case where one run covers all of `items`. */
  lemma LastGroup(items: seq<Item>, item: Item, id: EventId)
    requires items != [] && AllOf(items, id)
    ensures HasId(items[|items| - 1], id) && GroupBy(items) == [Recs(items)]
    ensures GroupBy(items + [item]) == if HasId(item, id) then [Recs(items) + [item.entry]]
                                       else if item.Rec? then [Recs(items), [item.entry]] else [Recs(items)]
  {
    LastOfAll(items, id);
    hide GroupBy, Recs, AllOf, Run;
    OneGroup(items, id);
    if HasId(item, id) {
      AllOne(item, id);
      AllConcat(items, [item], id);
      OneGroup(items + [item], id);
      RecsConcat(items, [item]);
      RecsOne(item);
    } else {
      OtherGroup(items, item, id);
    }
  }

  lemma LastOfAll(items: seq<Item>, id: EventId)
    requires items != [] && AllOf(items, id)
    ensures HasId(items[|items| - 1], id)
  {
  }

  lemma OneGroup(items: seq<Item>, id: EventId)
    requires items != [] && AllOf(items, id)
    ensures GroupBy(items) == [Recs(items)]
  {
    hide GroupBy, Recs, AllOf;
    assert items[..|items|] == items && items[|items|..] == [];
    GroupStep(items, id, |items|);
    GroupOne(Idle);
  }

  lemma OtherGroup(items: seq<Item>, item: Item, id: EventId)
    requires items != [] && AllOf(items, id) && !HasId(item, id)
    ensures GroupBy(items + [item]) == [Recs(items)] + GroupBy([item])
    ensures GroupBy([item]) == if item.Rec? then [[item.entry]] else []
  {
    hide GroupBy, Recs, AllOf;
    var more, k := items + [item], |items|;
    assert more[..k] == items && more[k..] == [item];
    GroupStep(more, id, k);
    GroupOne(item);
  }

  lemma RecsOne(item: Item)
    ensures Recs([item]) == if item.Rec? then [item.entry] else []
  {
    assert [item][1..] == [];
  }

  /** Fed one item at a time, the grouper has closed and still holds exactly the batch groups. */
  lemma {:induction false} StreamIsBatch(items: seq<Item>)
    ensures var s := FeedAll(items);
            && Close(s).closed == GroupBy(items)
            && (s.open != [] <==> items != [] && items[|items| - 1].Rec?)
            && (s.open != [] ==> s.open[0].record.id == items[|items| - 1].entry.record.id)
    decreases |items|
  {
    if items != [] {
      var init, item := items[..|items| - 1], items[|items| - 1];
      StreamIsBatch(init);
      GroupBySnoc(init, item);
      assert items == init + [item];
    }
  }

  // ----- Nothing is lost, reordered or mixed -----

  /** The groups hold every record once, in order, and a group has a single id. */
  lemma {:induction false} GroupsAreFaithful(items: seq<Item>)
    ensures Entries(GroupBy(items)) == Recs(items)
    ensures forall g: Group :: g in GroupBy(items) ==>
              g != [] && forall i :: 0 <= i < |g| ==> g[i].record.id == g[0].record.id
    decreases |items|
  {
    if items != [] && items[0].Rec? {
      hide GroupBy, Recs, AllOf, Run;
      var id, k := FirstRun(items);
      GroupStep(items, id, k);
      GroupsAreFaithful(items[k..]);
      RecsOfRun(items[..k], id);
      RecsConcat(items[..k], items[k..]);
      assert items == items[..k] + items[k..];
      assert GroupBy(items)[1..] == GroupBy(items[k..]);
    } else if items != [] {
      GroupsAreFaithful(items[1..]);
    }
  }

  // ----- Idle polls only refine -----

  function WithoutIdle(items: seq<Item>): seq<Item> {
    if items == [] then [] else (if items[0].Rec? then [items[0]] else []) + WithoutIdle(items[1..])
  }

  /** Put a group in front, joining it to the next one when the ids agree. */
  function Join(g: Group, gs: seq<Group>): seq<Group>
    requires g != []
  {
    if gs != [] && gs[0] != [] && gs[0][0].record.id == g[0].record.id then [g + gs[0]] + gs[1..] else [g] + gs
  }

  /** Neighbouring groups with one id joined together. */
  function Merge(gs: seq<Group>): seq<Group> {
    if gs == [] then [] else if gs[0] == [] then Merge(gs[1..]) else Join(gs[0], Merge(gs[1..]))
  }

  lemma JoinNone(g: Group)
    requires g != []
    ensures Join(g, []) == [g]
  {
  }

  lemma JoinFirst(g: Group, first: Group, gs: seq<Group>)
    requires g != [] && first != []
    ensures Join(g, [first] + gs)
            == if first[0].record.id == g[0].record.id then [g + first] + gs
            else [g] + ([first] + gs)
  {
  }

  /** A run of records in front of idle-free items joins their first group exactly when the ids agree. */
  lemma GroupByPrepend(items: seq<Item>, rest: seq<Item>, id: EventId)
    requires items != [] && AllOf(items, id)
    requires rest != [] ==> rest[0].Rec?
    ensures GroupBy(items + rest) == Join(Recs(items), GroupBy(rest))
  {
    hide GroupBy, Recs, AllOf, Run, Join;
    var all, n := items + rest, |items|;
    RecsOfRun(items, id);
    if rest == [] {
      GroupOne(Idle);
      assert all[..n] == items && all[n..] == rest;
      GroupStep(all, id, n);
      JoinNone(Recs(items));
    } else {
      var id', k := FirstRun(rest);
      GroupStep(rest, id', k);
      RecsOfRun(rest[..k], id');
      JoinFirst(Recs(items), Recs(rest[..k]), GroupBy(rest[k..]));
      if id' == id {
        assert all[..n + k] == items + rest[..k] && all[n + k..] == rest[k..];
        AllConcat(items, rest[..k], id);
        GroupStep(all, id, n + k);
        RecsConcat(items, rest[..k]);
      } else {
        assert all[..n] == items && all[n..] == rest;
        GroupStep(all, id, n);
      }
    }
  }

  lemma {:induction false} WithoutIdleRun(items: seq<Item>, k: nat)
    requires k <= |items| && forall i :: 0 <= i < k ==> items[i].Rec?
    ensures WithoutIdle(items) == items[..k] + WithoutIdle(items[k..])
    decreases k
  {
    if k == 0 {
      assert items[..0] == [] && items[0..] == items;
    } else {
      assert WithoutIdle(items) == [items[0]] + WithoutIdle(items[1..]);
      hide WithoutIdle;
      WithoutIdleRun(items[1..], k - 1);
      assert items[1..][..k - 1] == items[1..k] && items[1..][k - 1..] == items[k..];
      assert items[..k] == [items[0]] + items[1..k];
    }
  }

  lemma {:induction false} WithoutIdleIsRecords(items: seq<Item>)
    ensures forall i :: 0 <= i < |WithoutIdle(items)| ==> WithoutIdle(items)[i].Rec?
    ensures Recs(WithoutIdle(items)) == Recs(items)
  {
    if items != [] {
      WithoutIdleIsRecords(items[1..]);
      var w := WithoutIdle(items);
      assert items[0].Rec? ==> w[1..] == WithoutIdle(items[1..]);
      assert items[0].Idle? ==> w == WithoutIdle(items[1..]);
    }
  }

  /**
   Idle polls can only split a run of one id: joining neighbours with equal ids
   gives the grouping of the same records without any idle poll.
   */
  lemma {:induction false} IdleOnlyRefines(items: seq<Item>)
    ensures Merge(GroupBy(items)) == GroupBy(WithoutIdle(items))
    decreases |items|
  {
    if items == [] {
    } else if items[0].Idle? {
      IdleOnlyRefines(items[1..]);
      assert WithoutIdle(items) == WithoutIdle(items[1..]);
    } else {
      var id, k := FirstRun(items);
      GroupStep(items, id, k);
      assert forall i :: 0 <= i < k ==> items[i] == items[..k][i];
      WithoutIdleRun(items, k);
      hide GroupBy, Recs, AllOf, Run, WithoutIdle, Join;
      IdleOnlyRefines(items[k..]);
      WithoutIdleIsRecords(items[k..]);
      GroupByPrepend(items[..k], WithoutIdle(items[k..]), id);
      RecsOfRun(items[..k], id);
      assert GroupBy(items)[1..] == GroupBy(items[k..]);
    }
  }
}
