/**
 What a finished chunk guarantees to its readers: the string list, the exactness
 of every stored length and offset, and the round trip.
 */
module EvtxTheorems {
  import opened Options
  import opened Bytes
  import opened EvtxTree
  import opened EvtxReader
  import opened EvtxRoundTrip
  import opened EvtxMeaning
  import W = EvtxWriter

  // ----- String table -----

  /** The entries of names `i`, `i + 1`, ... in table order. */
  ghost function ListFrom(names: seq<Str>, start: nat, i: nat): seq<Entry>
    requires i <= |names|
    decreases |names| - i
  {
    if i == |names| then [] else [Entry(W.EntryAt(names, start, i), names[i])] + ListFrom(names, start, i + 1)
  }

  lemma EntryFields(c: seq<byte>, o: nat, name: Str, next: nat)
    requires At(c, o, W.EntryBytes(name, next))
    ensures At(c, o, LE32(ToU32(next))) && At(c, o + 6, LE16(ToU16(|name|))) && At(c, o + 8, Units(name))
    ensures o + 10 + 2 * |name| <= |c|
  {
    var a, b, d := LE32(ToU32(next)), LE16(ToU16(W.Poly(name))), LE16(ToU16(|name|));
    hide At, W.Poly, LE16, LE32, Units;
    InChunk(c, o, W.EntryBytes(name, next));
    AtSplit(c, o, a + b + d + Units(name), LE16(0));
    AtSplit(c, o, a + b + d, Units(name));
    AtSplit(c, o, a + b, d);
    AtSplit(c, o, a, b);
  }

  lemma EntryBack(c: seq<byte>, o: nat, name: Str, next: nat)
    requires |c| == CHUNK_SIZE && At(c, o, W.EntryBytes(name, next)) && next < 0x1_0000_0000
    ensures |name| < 0x1_0000
    ensures EntryName(c, o) == Some(name) && U32At(c, o) == next
  {
    hide At, LE16, LE32, Units, W.EntryBytes, U16At, U32At, UnitsAt;
    EntryFields(c, o, name, next);
    Read32(c, o, next);
    Read16(c, o + 6, |name|);
    UnitsBack(c, o + 8, name);
  }

  lemma InChunk(c: seq<byte>, p: nat, s: seq<byte>)
    requires At(c, p, s)
    ensures p + |s| <= |c|
  {
  }

  /** The link stored in entry `i` is the place of the next entry, or zero in the last one. */
  ghost predicate LinkExact(c: seq<byte>, names: seq<Str>, start: nat, i: nat)
    requires i < |names|
  {
    W.EntryAt(names, start, i) + 4 <= |c| && U32At(c, W.EntryAt(names, start, i)) == W.NextOf(names, start, i)
  }

  /** Following the links visits the names in table order, each once, and ends at a zero link. */
  lemma {:induction false} ListBack(c: seq<byte>, names: seq<Str>, start: nat, i: nat)
    requires |c| == CHUNK_SIZE && 0 < start && i < |names|
    requires W.EntriesIn(c, names, start, |names|)
    requires W.EntryAt(names, start, |names|) <= CHUNK_SIZE
    ensures Walk(c, W.EntryAt(names, start, i)) == ListFrom(names, start, i)
    ensures forall k :: i <= k < |names| ==> LinkExact(c, names, start, k)
    decreases |names| - i
  {
    hide At, W.EntryBytes, EntryName, W.EntryAt, W.EntriesIn, Walk, U32At, LinkExact;
    EntryOf(c, names, start, i);
    LinkOf(c, names, start, i);
    WalkStep(c, W.EntryAt(names, start, i), names[i]);
    if i + 1 < |names| {
      ListBack(c, names, start, i + 1);
    } else {
      assert ListFrom(names, start, i + 1) == [];
    }
  }

  lemma LinkOf(c: seq<byte>, names: seq<Str>, start: nat, i: nat)
    requires i < |names| && W.EntryAt(names, start, i) + 4 <= |c|
    requires U32At(c, W.EntryAt(names, start, i)) == if i + 1 < |names| then W.EntryAt(names, start, i + 1) else 0
    ensures LinkExact(c, names, start, i)
  {
    hide W.EntryAt, U32At;
  }

  lemma EntryOf(c: seq<byte>, names: seq<Str>, start: nat, i: nat)
    requires |c| == CHUNK_SIZE && 0 < start && i < |names|
    requires W.EntriesIn(c, names, start, |names|)
    requires W.EntryAt(names, start, |names|) <= CHUNK_SIZE
    ensures var o := W.EntryAt(names, start, i);
            && 0 < o && o + 4 <= |c| && EntryName(c, o) == Some(names[i])
            && (if i + 1 < |names| then U32At(c, o) == W.EntryAt(names, start, i + 1) > o else U32At(c, o) == 0)
  {
    var o, next := W.EntryAt(names, start, i), W.NextOf(names, start, i);
    assert At(c, o, W.EntryBytes(names[i], next));
    assert W.EntryAt(names, start, i + 1) > o;
    hide At, W.EntryBytes, EntryName, W.EntryAt, W.EntriesIn, U32At;
    W.RecordBelow(names, start, i);
    W.EntriesAscend(names, start, i, |names|);
    if i + 1 < |names| {
      W.EntriesAscend(names, start, i + 1, |names|);
    }
    EntryBack(c, o, names[i], next);
  }

  lemma WalkStep(c: seq<byte>, o: nat, name: Str)
    requires 0 < o && o + 4 <= |c| && EntryName(c, o) == Some(name)
    ensures U32At(c, o) == 0 ==> Walk(c, o) == [Entry(o, name)]
    ensures U32At(c, o) > o ==> Walk(c, o) == [Entry(o, name)] + Walk(c, U32At(c, o))
  {
    hide U32At, U16At;
  }

  lemma {:induction false} ListNames(names: seq<Str>, start: nat, i: nat)
    requires i <= |names|
    ensures forall o :: o in Names(ListFrom(names, start, i)) ==> W.EntryAt(names, start, i) <= o
    ensures forall k :: i <= k < |names| ==>
              && W.EntryAt(names, start, k) in Names(ListFrom(names, start, i))
              && Names(ListFrom(names, start, i))[W.EntryAt(names, start, k)] == names[k]
    decreases |names| - i
  {
    if i < |names| {
      ListNames(names, start, i + 1);
      var es := ListFrom(names, start, i);
      assert es[1..] == ListFrom(names, start, i + 1);
      assert W.EntryAt(names, start, i) < W.EntryAt(names, start, i + 1);
      forall k | i < k < |names| ensures W.EntryAt(names, start, i) != W.EntryAt(names, start, k) {
        W.EntriesAscend(names, start, i, k);
      }
    }
  }

  lemma EmptyBucket(c: seq<byte>, k: nat)
    requires |c| == CHUNK_SIZE && 1 <= k < 64 && ZeroIn(c, 132, 512)
    ensures U32At(c, 128 + 4 * k) == 0 && Walk(c, U32At(c, 128 + 4 * k)) == []
  {
  }

  lemma {:induction false} OneBucket(c: seq<byte>, n: nat)
    requires |c| == CHUNK_SIZE && 1 <= n <= 64 && ZeroIn(c, 132, 512)
    ensures Cache(c, n) == Names(Walk(c, U32At(c, 128)))
  {
    hide U32At, ZeroIn, Walk;
    if n == 1 {
      assert Cache(c, 0) == map[];
    } else {
      OneBucket(c, n - 1);
      EmptyBucket(c, n - 1);
      assert Names([]) == map[];
    }
  }

  /**
   In a finished chunk the list in bucket 0 holds every distinct name of the
   tree once, in order of first use, and every stored reference resolves to the
   name it was written for.
   */
  lemma StringTable(crc: seq<byte> -> u32, c: seq<byte>, id: u64, filetime: u64, root: Node)
    requires root.Element? && W.ChunkOf(crc, c, id, filetime, root)
    ensures var ts := ElementToks(root);
            var names, free := FirstUses(ts), W.FreeSpace(|Ser(ts, map[])|);
            && Walk(c, U32At(c, 128)) == ListFrom(names, free, 0)
            && (forall k :: 0 <= k < |names| ==> LinkExact(c, names, free, k))
            && AllResolved(ts, W.Absolute(names, free), Cache(c, 64))
  {
    var ts := ElementToks(root);
    var names, free := FirstUses(ts), W.FreeSpace(|Ser(ts, map[])|);
    assert W.EntryAt(names, free, 0) == free;
    hide *;
    TableParts(crc, c, id, filetime, root);
    RootName(root);
    Read32(c, 128, free);
    ListBack(c, names, free, 0);
    OneBucket(c, 64);
    NamesResolve(c, ts, free);
  }

  lemma TableParts(crc: seq<byte> -> u32, c: seq<byte>, id: u64, filetime: u64, root: Node)
    requires root.Element? && W.ChunkOf(crc, c, id, filetime, root)
    ensures var ts := ElementToks(root);
            var names, free := FirstUses(ts), W.FreeSpace(|Ser(ts, map[])|);
            && |c| == CHUNK_SIZE && 0 < free <= CHUNK_SIZE && W.EntryAt(names, free, |names|) <= CHUNK_SIZE
            && At(c, 128, LE32(free)) && ZeroIn(c, 132, 512) && W.EntriesIn(c, names, free, |names|)
  {
    hide Ser, ElementToks, FirstUses, At, ZeroIn, LE32, W.HeaderStart, W.RecordHeader, W.BinXml,
      W.EntriesIn, W.Sealed, W.EntryAt;
    var ts := ElementToks(root);
    var names, free := FirstUses(ts), W.FreeSpace(|Ser(ts, map[])|);
    SerLength(ts, W.Absolute(names, free));
    assert ToU32(free) == free;
  }

  lemma NamesResolve(c: seq<byte>, ts: seq<Tok>, start: nat)
    requires |c| == CHUNK_SIZE && W.EntryAt(FirstUses(ts), start, |FirstUses(ts)|) <= CHUNK_SIZE
    requires Cache(c, 64) == Names(ListFrom(FirstUses(ts), start, 0))
    ensures AllResolved(ts, W.Absolute(FirstUses(ts), start), Cache(c, 64))
  {
    hide Cache, Names, ListFrom, W.Absolute, W.EntryAt, FirstUses, Resolved;
    FirstUsesAreTheNames(ts);
    forall n | NameRef(n) in ts ensures Resolved(n, W.Absolute(FirstUses(ts), start), Cache(c, 64)) {
      assert NameRef(n).name in FirstUses(ts);
      NameResolves(c, FirstUses(ts), start, n);
    }
  }

  lemma RootName(root: Node)
    requires root.Element?
    ensures NameRef(root.name) in ElementToks(root) && FirstUses(ElementToks(root)) != []
  {
    SubToks(root);
    FirstUsesAreTheNames(ElementToks(root));
    assert NameRef(root.name).name in FirstUses(ElementToks(root));
  }

  lemma NameResolves(c: seq<byte>, names: seq<Str>, start: nat, n: Str)
    requires |c| == CHUNK_SIZE && W.EntryAt(names, start, |names|) <= CHUNK_SIZE && n in names
    requires Cache(c, 64) == Names(ListFrom(names, start, 0))
    ensures Resolved(n, W.Absolute(names, start), Cache(c, 64))
  {
    hide Cache, Names, ListFrom, W.Absolute, W.EntryAt;
    var k := NamePlace(names, start, n);
    ListNames(names, start, 0);
  }

  /** Entries are disjoint and lie between the record and the end of the chunk. */
  lemma EntriesDisjoint(crc: seq<byte> -> u32, c: seq<byte>, id: u64, filetime: u64, root: Node, i: nat, j: nat)
    requires root.Element? && W.ChunkOf(crc, c, id, filetime, root)
    requires i < j < |FirstUses(ElementToks(root))|
    ensures var ts := ElementToks(root);
            var names, free := FirstUses(ts), W.FreeSpace(|Ser(ts, map[])|);
            && free <= W.EntryAt(names, free, i)
            && W.EntryAt(names, free, i) + W.EntrySize(names[i]) <= W.EntryAt(names, free, j)
            && W.EntryAt(names, free, j) + W.EntrySize(names[j]) <= CHUNK_SIZE
  {
    hide Ser, ElementToks, FirstUses, At, W.EntriesIn, W.HeaderStart, W.RecordHeader, W.BinXml, W.Sealed, W.RecordSize;
    var ts := ElementToks(root);
    var names, free := FirstUses(ts), W.FreeSpace(|Ser(ts, map[])|);
    SerLength(ts, W.Absolute(names, free));
    W.EntriesAscend(names, free, i, j);
    W.EntriesAscend(names, free, j, |names|);
    W.RecordBelow(names, free, i);
  }

  // ----- Hashes -----

  ghost function Power(n: nat): nat { if n == 0 then 1 else 65599 * Power(n - 1) }

  /** The hash weighs each code unit by a power of 65599, the last one by 1. */
  lemma {:induction false} HashWeighs(u: u16, s: Str)
    ensures W.Poly([u] + s) == u * Power(|s|) + W.Poly(s)
  {
    var all := [u] + s;
    if s == [] {
      assert all[..0] == [];
    } else {
      var n := |s| - 1;
      assert all[..|all| - 1] == [u] + s[..n];
      HashWeighs(u, s[..n]);
      assert (u * Power(n) + W.Poly(s[..n])) * 65599 == u * (65599 * Power(n)) + W.Poly(s[..n]) * 65599;
    }
  }

  /** Every entry of a finished chunk holds the low 16 bits of the hash of its name and ends in a zero unit. */
  lemma EntryHash(crc: seq<byte> -> u32, c: seq<byte>, id: u64, filetime: u64, root: Node, k: nat)
    requires root.Element? && W.ChunkOf(crc, c, id, filetime, root) && k < |FirstUses(ElementToks(root))|
    ensures var ts := ElementToks(root);
            var names, free := FirstUses(ts), W.FreeSpace(|Ser(ts, map[])|);
            var o := W.EntryAt(names, free, k);
            && o + 10 + 2 * |names[k]| <= |c|
            && U16At(c, o + 4) == W.Poly(names[k]) % 0x1_0000 && U16At(c, o + 8 + 2 * |names[k]|) == 0
  {
    hide *;
    var names, free := FirstUses(ElementToks(root)), W.FreeSpace(|Ser(ElementToks(root), map[])|);
    TableParts(crc, c, id, filetime, root);
    EntryStands(c, names, free, k);
    var o, next := W.EntryAt(names, free, k), W.NextOf(names, free, k);
    EntryInside(c, o, names[k], next);
    EntryHashed(c, o, names[k], next);
    EntryEnded(c, o, names[k], next);
  }

  lemma EntryStands(c: seq<byte>, names: seq<Str>, start: nat, i: nat)
    requires i < |names| && W.EntriesIn(c, names, start, |names|)
    ensures At(c, W.EntryAt(names, start, i), W.EntryBytes(names[i], W.NextOf(names, start, i)))
  {
    hide At, W.EntryBytes, W.EntryAt, W.NextOf;
  }

  lemma EntryShape(name: Str, next: nat)
    ensures W.EntryBytes(name, next)
         == LE32(ToU32(next)) + LE16(ToU16(W.Poly(name))) + LE16(ToU16(|name|)) + Units(name) + LE16(0)
    ensures |W.EntryBytes(name, next)| == 10 + 2 * |name|
  {
  }

  lemma EntryInside(c: seq<byte>, o: nat, name: Str, next: nat)
    requires At(c, o, W.EntryBytes(name, next))
    ensures o + 10 + 2 * |name| <= |c|
  {
    hide *;
    EntryShape(name, next);
    InChunk(c, o, W.EntryBytes(name, next));
  }

  lemma EntryHashed(c: seq<byte>, o: nat, name: Str, next: nat)
    requires At(c, o, W.EntryBytes(name, next)) && o + 10 + 2 * |name| <= |c|
    ensures U16At(c, o + 4) == W.Poly(name) % 0x1_0000
  {
    hide *;
    var a, b, d, z := LE32(ToU32(next)), LE16(ToU16(W.Poly(name))), LE16(ToU16(|name|)), LE16(0);
    EntryShape(name, next);
    AtSplit(c, o, a + b + d + Units(name), z);
    SplitFour(c, o, a, b, d, Units(name));
    HashField(c, o + 4, W.Poly(name));
  }

  lemma EntryEnded(c: seq<byte>, o: nat, name: Str, next: nat)
    requires At(c, o, W.EntryBytes(name, next)) && o + 10 + 2 * |name| <= |c|
    ensures U16At(c, o + 8 + 2 * |name|) == 0
  {
    hide *;
    var a, b, d, z := LE32(ToU32(next)), LE16(ToU16(W.Poly(name))), LE16(ToU16(|name|)), LE16(0);
    EntryShape(name, next);
    AtSplit(c, o, a + b + d + Units(name), z);
    ZeroField(c, o + 8 + 2 * |name|);
  }

  lemma ZeroField(c: seq<byte>, p: nat)
    requires At(c, p, LE16(0))
    ensures p + 2 <= |c| && U16At(c, p) == 0
  {
  }

  lemma HashField(c: seq<byte>, p: nat, n: nat)
    requires At(c, p, LE16(ToU16(n)))
    ensures U16At(c, p) == n % 0x1_0000
  {
    hide At, LE16, U16At;
    Read16(c, p, ToU16(n));
  }

  // ----- Acceptance -----

  /** The node or one below it is a comment or a processing instruction. */
  ghost predicate HoldsOther(n: Node) {
    n.Other? || (n.Element? && exists i :: 0 <= i < |n.children| && HoldsOther(n.children[i]))
  }

  lemma {:induction false} OtherMeaning(n: Node)
    ensures HasOther(n) <==> HoldsOther(n)
    decreases n, 1
  {
    if n.Element? {
      AnyOtherMeaning(n.children);
    }
  }

  lemma {:induction false} AnyOtherMeaning(ns: seq<Node>)
    ensures AnyOther(ns) <==> exists i :: 0 <= i < |ns| && HoldsOther(ns[i])
    decreases ns, 0
  {
    if ns != [] {
      OtherMeaning(ns[0]);
      AnyOtherMeaning(ns[1..]);
      if HasOther(ns[0]) {
        assert HoldsOther(ns[0]);
      }
      if i: nat :| i < |ns[1..]| && HoldsOther(ns[1..][i]) {
        assert HoldsOther(ns[i + 1]);
      }
      if i: nat :| 0 < i < |ns| && HoldsOther(ns[i]) {
        assert HoldsOther(ns[1..][i - 1]);
      }
    }
  }

  /**
   A document is accepted exactly when its root is called `Event`, it holds nothing
   but elements and text, and record and string table fit into 64 KiB. Around the
   `n` bytes of the element tree a record has 75 more, and is padded to 8.
   */
  lemma AcceptedExactly(root: Node)
    requires root.Element?
    ensures var ts := ElementToks(root);
            var n, names := |Ser(ts, map[])|, FirstUses(ts);
            var end := 512 + (n + 75 + 7) / 8 * 8;
            W.Refusal(root).None? <==>
              && root.name == [69, 118, 101, 110, 116] && !HoldsOther(root)
              && W.EntryAt(names, end, |names|) <= 65536
  {
    hide ElementToks, FirstUses, Ser, HasOther, HoldsOther, W.EntryAt;
    OtherMeaning(root);
    var ts := ElementToks(root);
    var names, free := FirstUses(ts), W.FreeSpace(|Ser(ts, map[])|);
    assert W.EntryAt(names, free, |names|) >= free;
  }

  /** The empty event is accepted. */
  lemma EmptyEventAccepted()
    ensures W.Refusal(Element([69, 118, 101, 110, 116], [], [])).None?
  {
    var root := Element([69, 118, 101, 110, 116], [], []);
    EmptyEventToks(root);
    AcceptedExactly(root);
    hide ElementToks, Ser, FirstUses, W.Refusal;
    assert !HoldsOther(root);
  }

  lemma EmptyEventToks(root: Node)
    requires root == Element([69, 118, 101, 110, 116], [], [])
    ensures var ts := ElementToks(root);
            |Ser(ts, map[])| == 12 && |FirstUses(ts)| == 1
            && W.EntryAt(FirstUses(ts), 600, 1) == 620
  {
    var a, b, d := Raw([0x01] + LE16(0) + LE32(0)), NameRef(root.name), Raw([3]);
    assert ElementToks(root) == [a, b, d];
    hide ElementToks;
    Snoc([], a);
    Snoc([a], b);
    Snoc([a, b], d);
    assert [] + [a] == [a] && [a] + [b] == [a, b] && [a, b] + [d] == [a, b, d];
    SerConcat([a], [b], map[]);
    SerConcat([a, b], [d], map[]);
    SerOne(a, map[]);
    SerOne(b, map[]);
    SerOne(d, map[]);
  }

  // ----- Narrowing casts -----

  lemma {:induction false} TokInside(ts: seq<Tok>, t: Tok, off: Offsets)
    requires t in ts
    ensures |TokBytes(t, off)| <= |Ser(ts, off)|
  {
    if t != ts[0] {
      TokInside(ts[1..], t, off);
    }
  }

  /** A text too long for its 16-bit length field is never written: the record would not fit. */
  lemma LongTextIsRefused(root: Node, v: Str)
    requires root.Element? && ValueTok(v) in ElementToks(root) && |v| >= 0x1_0000
    ensures W.Refusal(root).Some? && W.Refusal(root).value != W.TableOverflow
  {
    TokInside(ElementToks(root), ValueTok(v), map[]);
  }

  /** The four bytes patched in for a reference hold the exact place of an entry with its name. */
  ghost predicate RefExact(c: seq<byte>, ref: Ref, names: seq<Str>, start: nat) {
    578 + ref.pos + 4 <= |c|
    && exists j :: 0 <= j < |names| && names[j] == ref.name && U32At(c, 578 + ref.pos) == W.EntryAt(names, start, j)
  }

  lemma RefsExact(c: seq<byte>, ts: seq<Tok>, start: nat)
    requires |c| == CHUNK_SIZE && W.EntryAt(FirstUses(ts), start, |FirstUses(ts)|) <= CHUNK_SIZE
    requires At(c, 578, Ser(ts, W.Absolute(FirstUses(ts), start)))
    ensures forall k :: 0 <= k < |RefsOf(ts)| ==> RefExact(c, RefsOf(ts)[k], FirstUses(ts), start)
  {
    hide *;
    forall k | 0 <= k < |RefsOf(ts)| ensures RefExact(c, RefsOf(ts)[k], FirstUses(ts), start) {
      OneRefExact(c, ts, start, k);
    }
  }

  lemma OneRefExact(c: seq<byte>, ts: seq<Tok>, start: nat, k: nat)
    requires |c| == CHUNK_SIZE && W.EntryAt(FirstUses(ts), start, |FirstUses(ts)|) <= CHUNK_SIZE
    requires At(c, 578, Ser(ts, W.Absolute(FirstUses(ts), start))) && k < |RefsOf(ts)|
    ensures RefExact(c, RefsOf(ts)[k], FirstUses(ts), start)
  {
    hide At, Ser, RefsOf, FirstUses, W.EntryAt, W.Absolute, LE32, U32At;
    var names, r := FirstUses(ts), RefsOf(ts)[k];
    var off := W.Absolute(names, start);
    SlotBytes(ts, off, k);
    FirstUsesAreTheNames(ts);
    assert NameRef(r.name).name in names;
    var j := NamePlace(names, start, r.name);
    AtInside(c, 578, Ser(ts, off), r.pos, LE32(off[r.name]));
    InChunk(c, 578 + r.pos, LE32(off[r.name]));
    Read32(c, 578 + r.pos, off[r.name]);
  }

  /** In an accepted chunk every stored length, size, link and offset is the exact number. */
  lemma CastsAreExact(crc: seq<byte> -> u32, c: seq<byte>, id: u64, filetime: u64, root: Node)
    requires root.Element? && W.ChunkOf(crc, c, id, filetime, root)
    ensures forall v :: ValueTok(v) in ElementToks(root) ==> ToU16(|v|) == |v|
    ensures forall s :: s in FirstUses(ElementToks(root)) ==> ToU16(|s|) == |s|
    ensures var n := |Ser(ElementToks(root), map[])|;
            && U32At(c, 570) == n + 5 && RECORD_START + U32At(c, 516) == W.FreeSpace(n)
            && U32At(c, 48) == W.FreeSpace(n) && U32At(c, 128) == W.FreeSpace(n)
    ensures var ts := ElementToks(root);
            var names, free := FirstUses(ts), W.FreeSpace(|Ser(ts, map[])|);
            && (forall k :: 0 <= k < |names| ==> LinkExact(c, names, free, k))
            && (forall k :: 0 <= k < |RefsOf(ts)| ==> RefExact(c, RefsOf(ts)[k], names, free))
  {
    var ts := ElementToks(root);
    var names, free := FirstUses(ts), W.FreeSpace(|Ser(ts, map[])|);
    var off := W.Absolute(names, free);
    assert W.Content(c, id, filetime, Ser(ts, off), names) && free <= CHUNK_SIZE;
    SerLength(ts, off);
    hide *;
    Fields(c, id, filetime, Ser(ts, off), names);
    ContentSizes(c, id, filetime, Ser(ts, off), names);
    TextsFit(ts);
    NamesFit(names, free);
    StringTable(crc, c, id, filetime, root);
    RefsExact(c, ts, free);
  }

  lemma ContentSizes(c: seq<byte>, id: u64, filetime: u64, tree: seq<byte>, names: seq<Str>)
    requires W.Content(c, id, filetime, tree, names) && W.FreeSpace(|tree|) <= CHUNK_SIZE
    ensures W.EntryAt(names, W.FreeSpace(|tree|), |names|) <= CHUNK_SIZE
    ensures |c| == CHUNK_SIZE && U32At(c, 128) == W.FreeSpace(|tree|)
    ensures W.FreeSpace(|tree|) == RECORD_START + W.RecordSize(|tree|)
  {
    hide At, U32At, LE32, ZeroIn, W.HeaderStart, W.RecordHeader, W.BinXml, W.EntriesIn, W.EntryAt, W.RecordSize;
    Read32(c, 128, W.FreeSpace(|tree|));
  }

  lemma TextsFit(ts: seq<Tok>)
    requires W.FreeSpace(|Ser(ts, map[])|) <= CHUNK_SIZE
    ensures forall v :: ValueTok(v) in ts ==> ToU16(|v|) == |v|
  {
    hide Ser, ValueTok;
    W.RecordFits(|Ser(ts, map[])|);
    forall v | ValueTok(v) in ts ensures ToU16(|v|) == |v| {
      TokInside(ts, ValueTok(v), map[]);
      ValueWidth(v);
    }
  }

  lemma NamesFit(names: seq<Str>, start: nat)
    requires W.EntryAt(names, start, |names|) <= CHUNK_SIZE
    ensures forall s :: s in names ==> ToU16(|s|) == |s|
  {
    hide W.EntryAt;
    forall s | s in names ensures ToU16(|s|) == |s| {
      var k := NamePlace(names, start, s);
    }
  }

  lemma ValueWidth(v: Str)
    ensures |TokBytes(ValueTok(v), map[])| == 4 + 2 * |v|
  {
  }

  /** The 32-bit offset stored for a name is exactly where an entry with that name begins. */
  lemma NamePlace(names: seq<Str>, start: nat, s: Str) returns (k: nat)
    requires s in names && W.EntryAt(names, start, |names|) <= CHUNK_SIZE
    ensures k < |names| && names[k] == s && ToU16(|s|) == |s|
    ensures s in W.Absolute(names, start) && W.Absolute(names, start)[s] == W.EntryAt(names, start, k)
  {
    hide W.Relative, W.EntryAt;
    k := RelativePlace(names, start, s);
    W.EntriesAscend(names, start, k, |names|);
    W.RecordBelow(names, start, k);
  }

  lemma RelativePlace(names: seq<Str>, start: nat, s: Str) returns (k: nat)
    requires s in names
    ensures k < |names| && names[k] == s && s in W.Relative(names, start, |names|)
    ensures W.Relative(names, start, |names|)[s] == W.EntryAt(names, start, k) - start
  {
    assert names[..|names|] == names;
    W.RelativeIsAnEntry(names, start, |names|, s);
    hide *;
    k :| 0 <= k < |names| && names[k] == s
         && W.Relative(names, start, |names|)[s] == W.EntryAt(names, start, k) - start;
  }

  // ----- Fields -----

  lemma HeaderFields(c: seq<byte>, id: u64, free: nat)
    requires At(c, 0, W.HeaderStart(id, free)) && free < 0x1_0000_0000
    ensures c[..8] == W.MAGIC && U32At(c, 48) == free
    ensures U64At(c, 8) == U64At(c, 16) == U64At(c, 24) == U64At(c, 32) == id
    ensures U32At(c, 40) == 128 && U32At(c, 44) == 536 && U32At(c, 52) == 0
  {
    hide At, LE32, LE64, U32At, U64At;
    var ids := W.MAGIC + LE64(id) + LE64(id) + LE64(id);
    assert W.HeaderStart(id, free)
        == ids + LE64(id) + (LE32(128) + LE32(536) + LE32(free) + LE32(0)) by {
      Reassociate(ids + LE64(id), LE32(128) + LE32(536) + LE32(free), LE32(0));
      Reassociate(ids + LE64(id), LE32(128) + LE32(536), LE32(free));
      Reassociate(ids + LE64(id), LE32(128), LE32(536));
    }
    AtSplit(c, 0, ids + LE64(id), LE32(128) + LE32(536) + LE32(free) + LE32(0));
    AtSplit(c, 0, ids, LE64(id));
    SplitFour(c, 0, W.MAGIC, LE64(id), LE64(id), LE64(id));
    SplitFour(c, 40, LE32(128), LE32(536), LE32(free), LE32(0));
    hide *;
    Read64(c, 8, id);
    Read64(c, 16, id);
    Read64(c, 24, id);
    Read64(c, 32, id);
    Read32(c, 40, 128);
    Read32(c, 44, 536);
    Read32(c, 48, free);
    Read32(c, 52, 0);
    AtIs(c, 0, W.MAGIC);
  }

  lemma RecordFields(c: seq<byte>, id: u64, filetime: u64, n: nat)
    requires At(c, RECORD_START, W.RecordHeader(id, filetime, n)) && W.RecordSize(n) < 0x1_0000_0000
    ensures c[512..516] == [0x2a, 0x2a, 0, 0] && U32At(c, 516) == W.RecordSize(n)
    ensures U64At(c, 520) == id && U64At(c, 528) == filetime
  {
    hide At, LE32, LE64, U32At, U64At, W.RecordSize;
    var sig, size := [0x2a, 0x2a, 0x00, 0x00], W.RecordSize(n);
    assert W.RecordHeader(id, filetime, n) == sig + LE32(size) + LE64(id) + LE64(filetime);
    SplitFour(c, 512, sig, LE32(size), LE64(id), LE64(filetime));
    hide *;
    Read32(c, 516, size);
    Read64(c, 520, id);
    Read64(c, 528, filetime);
    AtIs(c, 512, sig);
  }

  lemma SplitFour(c: seq<byte>, p: nat, s: seq<byte>, x: seq<byte>, y: seq<byte>, z: seq<byte>)
    requires At(c, p, s + x + y + z)
    ensures At(c, p, s) && At(c, p + |s|, x) && At(c, p + |s| + |x|, y) && At(c, p + |s| + |x| + |y|, z)
  {
    hide At;
    AtSplit(c, p, s + x + y, z);
    AtSplit(c, p, s + x, y);
    AtSplit(c, p, s, x);
  }

  lemma AtIs(c: seq<byte>, p: nat, s: seq<byte>)
    requires At(c, p, s)
    ensures p + |s| <= |c| && c[p..p + |s|] == s
  {
  }

  lemma PrefixFields(c: seq<byte>, n: nat)
    requires At(c, BINXML_START, W.Prefix(n)) && n + 5 < 0x1_0000_0000
    ensures c[536..542] == FRAGMENT + [0x0c, 0x01] && U32At(c, 542) == 0x51C0 && U32At(c, 546) == 550
    ensures U32At(c, 570) == n + 5 && c[574..578] == FRAGMENT
  {
    hide At, LE32, U32At;
    var start := FRAGMENT + [0x0c, 0x01];
    var ids := start + LE32(0x51C0) + LE32(550) + LE32(0);
    assert W.Prefix(n) == ids + W.GUID + LE32(n + 5) + FRAGMENT;
    SplitFour(c, 536, ids, W.GUID, LE32(n + 5), FRAGMENT);
    SplitFour(c, 536, start, LE32(0x51C0), LE32(550), LE32(0));
    hide *;
    Read32(c, 542, 0x51C0);
    Read32(c, 546, 550);
    Read32(c, 570, n + 5);
    AtIs(c, 536, start);
    AtIs(c, 574, FRAGMENT);
  }

  lemma TailFields(c: seq<byte>, tree: seq<byte>)
    requires At(c, BINXML_START, W.BinXml(tree))
    ensures At(c, BINXML_START, W.Prefix(|tree|)) && At(c, 578, tree)
    ensures 578 + |tree| + 5 <= |c| && c[578 + |tree|] == 0 && U32At(c, 578 + |tree| + 1) == 0
  {
    hide At, LE32, U32At, W.Prefix;
    AtSplit(c, 536, W.Prefix(|tree|) + tree + [0x00], LE32(0));
    AtSplit(c, 536, W.Prefix(|tree|) + tree, [0x00]);
    AtSplit(c, 536, W.Prefix(|tree|), tree);
    Read32(c, 578 + |tree| + 1, 0);
    AtIndex(c, 578 + |tree|, [0x00], 0);
    InChunk(c, 578 + |tree| + 1, LE32(0));
  }

  /** The fields a reader needs, read back from a finished chunk. */
  lemma Fields(c: seq<byte>, id: u64, filetime: u64, tree: seq<byte>, names: seq<Str>)
    requires W.Content(c, id, filetime, tree, names) && W.FreeSpace(|tree|) <= CHUNK_SIZE
    ensures c[..8] == W.MAGIC && U32At(c, 48) == W.FreeSpace(|tree|)
    ensures U64At(c, 8) == U64At(c, 16) == U64At(c, 24) == U64At(c, 32) == id
    ensures U32At(c, 40) == 128 && U32At(c, 44) == 536
    ensures c[512..516] == [0x2a, 0x2a, 0, 0] && U32At(c, 516) == W.RecordSize(|tree|)
    ensures U64At(c, 520) == id && U64At(c, 528) == filetime
    ensures c[536..542] == FRAGMENT + [0x0c, 0x01] && U32At(c, 542) == 0x51C0 && U32At(c, 546) == 550
    ensures U32At(c, 570) == |tree| + 5 && c[574..578] == FRAGMENT
    ensures At(c, 578, tree) && 578 + |tree| + 5 <= |c|
    ensures c[578 + |tree|] == 0 && U32At(c, 578 + |tree| + 1) == 0
  {
    W.RecordFits(|tree|);
    HeaderFields(c, id, W.FreeSpace(|tree|));
    RecordFields(c, id, filetime, |tree|);
    TailFields(c, tree);
    PrefixFields(c, |tree|);
  }

  lemma SealedMatches(crc: seq<byte> -> u32, c: seq<byte>, free: nat)
    requires |c| == CHUNK_SIZE && RECORD_START <= free <= CHUNK_SIZE && U32At(c, 48) == free
    requires W.Sealed(crc, c, free)
    ensures ChecksumsMatch(crc, c)
  {
    Read32(c, 56, crc(c[RECORD_START..free]));
    Read32(c, 124, crc(c[..120] + c[128..RECORD_START]));
  }

  // ----- Round trip -----

  /**
   Reading a finished chunk gives back the record id, the timestamp and the tree
   without its namespace declarations and blank text, which reflects the document
   attribute by attribute and child by child.
   */
  lemma RoundTrip(crc: seq<byte> -> u32, c: seq<byte>, id: u64, filetime: u64, root: Node)
    requires root.Element? && !HasOther(root) && W.ChunkOf(crc, c, id, filetime, root)
    ensures ReadChunk(crc, c) == Some(Event(id, filetime, Norm(root)))
    ensures Reflects(root, ReadChunk(crc, c).value.root)
  {
    hide Ser, ElementToks, FirstUses, At, W.Content, W.Sealed, W.RecordSize, W.Absolute, Cache,
      ReadElement, U32At, U64At,
      ChecksumsMatch, Norm, HasOther, AllResolved, Walk, Reflects;
    NormReflects(root);
    var ts := ElementToks(root);
    var names, free := FirstUses(ts), W.FreeSpace(|Ser(ts, map[])|);
    var tree := Ser(ts, W.Absolute(names, free));
    SerLength(ts, W.Absolute(names, free));
    StringTable(crc, c, id, filetime, root);
    Fields(c, id, filetime, tree, names);
    ChunkLength(c, id, filetime, tree, names);
    SealedMatches(crc, c, free);
    ElementBack(c, 578, root, W.Absolute(names, free), Cache(c, 64));
    DefinitionBack(c, Cache(c, 64), Norm(root), |tree|);
  }

  lemma ChunkLength(c: seq<byte>, id: u64, filetime: u64, tree: seq<byte>, names: seq<Str>)
    requires W.Content(c, id, filetime, tree, names)
    ensures |c| == CHUNK_SIZE
  {
  }

  lemma DefinitionBack(c: seq<byte>, names: map<nat, Str>, root: Node, n: nat)
    requires |c| == CHUNK_SIZE && 578 + n + 5 <= |c|
    requires c[574..578] == FRAGMENT && U32At(c, 570) == n + 5 && c[578 + n] == 0
    requires ReadElement(c, 578, names) == Done(root, 578 + n)
    ensures ReadDefinition(c, 550, names) == Done(root, 578 + n + 1)
  {
    hide ReadElement;
  }

  /**
   Write one event as a chunk. Record ids 0 and 2^64 - 1 are refused, then the
   document is, for exactly one of the reasons `Refusal` gives; any other event
   can be read back from the bytes that were written.
   */
  method WriteEvent(crc: seq<byte> -> u32, id: u64, filetime: u64, root: Node) returns (r: W.Result<array<byte>>)
    requires root.Element?
    ensures r.Err? <==> id == 0 || id == 0xFFFF_FFFF_FFFF_FFFF || W.Refusal(root).Some?
    ensures r.Err? ==>
      r.error == if id == 0 || id == 0xFFFF_FFFF_FFFF_FFFF then W.BadRecordId else W.Refusal(root).value
    ensures r.Ok? ==> fresh(r.value) && r.value.Length == CHUNK_SIZE
                      && ReadChunk(crc, r.value[..]) == Some(Event(id, filetime, Norm(root)))
                      && Reflects(root, ReadChunk(crc, r.value[..]).value.root)
  {
    hide Ser, ElementToks, FirstUses, At, W.Content, W.Sealed, ReadChunk, W.EntryAt, W.FreeSpace, Reflects, Norm;
    if id == 0 || id == 0xFFFF_FFFF_FFFF_FFFF {
      return W.Err(W.BadRecordId);
    }
    r := W.BuildChunk(crc, id, filetime, root);
    if r.Ok? {
      ghost var ts := ElementToks(root);
      ghost var free := W.FreeSpace(|Ser(ts, map[])|);
      ChunkLength(r.value[..], id, filetime, Ser(ts, W.Absolute(FirstUses(ts), free)), FirstUses(ts));
      RoundTrip(crc, r.value[..], id, filetime, root);
    }
  }
}
