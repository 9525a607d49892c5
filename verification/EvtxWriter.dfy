/**
 The chunk writer: one record holding a template definition with the whole
 event, a linked string table behind it, name references patched in place, and
 two checksums. Layout after sections 2.2.12 and 2.2.17 of MS-EVEN6.
 */
module EvtxWriter {
  import opened Options
  import opened Bytes
  import opened EvtxTree
  import opened EvtxEncoder
  import EvtxReader

  const CHUNK_SIZE := 0x1_0000
  const RECORD_START := 512
  const BINXML_START := 536
  // Bytes between the record's BinXml start and the element tree.
  const PREFIX := 42
  const EVENT: Str := [69, 118, 101, 110, 116]
  const MAGIC: seq<byte> := [0x45, 0x6c, 0x66, 0x43, 0x68, 0x6e, 0x6b, 0x00]
  const GUID: seq<byte> :=
    [0xb5, 0x72, 0xce, 0x5e, 0x62, 0x72, 0xbb, 0x5b, 0x08, 0x0f, 0x68, 0x8d, 0xd3, 0xd2, 0xc4, 0x6f]
  const FRAGMENT: seq<byte> := [0x0f, 0x01, 0x01, 0x00]

  datatype WriterError = BadRecordId | NotEvent | UnsupportedNode | RecordTooLarge | TableOverflow | MissingEntry
  datatype Result<+T> = Ok(value: T) | Err(error: WriterError)

  // ----- Layout -----

  function Align8(n: nat): (r: nat)
    ensures r % 8 == 0 && n <= r < n + 8
  {
    (n + 7) / 8 * 8
  }

  /** The 42 bytes before an element tree of `n` bytes. */
  function Prefix(n: nat): (r: seq<byte>)
    ensures |r| == PREFIX
  {
    FRAGMENT + [0x0c, 0x01] + LE32(0x51C0) + LE32(BINXML_START + 14)
    + LE32(0) + GUID + LE32(ToU32(4 + n + 1)) + FRAGMENT
  }

  function BinXml(tree: seq<byte>): (r: seq<byte>)
    ensures |r| == PREFIX + |tree| + 5
  {
    Prefix(|tree|) + tree + [0x00] + LE32(0)
  }

  function RecordSize(n: nat): nat { Align8(24 + 4 + PREFIX + n + 5) }

  function RecordHeader(id: u64, filetime: u64, n: nat): (r: seq<byte>)
    ensures |r| == 24
  {
    [0x2a, 0x2a, 0x00, 0x00] + LE32(ToU32(RecordSize(n))) + LE64(id) + LE64(filetime)
  }

  function HeaderStart(id: u64, free: nat): (r: seq<byte>)
    ensures |r| == 56
  {
    MAGIC + LE64(id) + LE64(id) + LE64(id) + LE64(id)
    + LE32(128) + LE32(ToU32(RECORD_START + 24)) + LE32(ToU32(free)) + LE32(0)
  }

  // ----- String table layout -----

  function EntrySize(name: Str): nat { 10 + 2 * |name| }

  /** Where entry `i` of a table that begins at `start` goes. */
  function EntryAt(names: seq<Str>, start: nat, i: nat): (r: nat)
    requires i <= |names|
    ensures r >= start + 10 * i
  {
    if i == 0 then start else EntryAt(names, start, i - 1) + EntrySize(names[i - 1])
  }

  function NextOf(names: seq<Str>, start: nat, i: nat): nat
    requires i < |names|
  {
    if i + 1 < |names| then EntryAt(names, start, i + 1) else 0
  }

  /** The multiplicative name hash over unbounded integers. */
  function Poly(s: Str): nat {
    if s == [] then 0 else Poly(s[..|s| - 1]) * 65599 + s[|s| - 1]
  }

  function EntryBytes(name: Str, next: nat): (r: seq<byte>)
    ensures |r| == EntrySize(name)
  {
    LE32(ToU32(next)) + LE16(ToU16(Poly(name))) + LE16(ToU16(|name|)) + Units(name) + LE16(0)
  }

  /** Offset of each name, relative to the start of the table. */
  function Relative(names: seq<Str>, start: nat, i: nat): map<Str, nat>
    requires i <= |names|
  {
    if i == 0 then map[] else Relative(names, start, i - 1)[names[i - 1] := EntryAt(names, start, i - 1) - start]
  }

  function Absolute(names: seq<Str>, start: nat): Offsets {
    map n | n in Relative(names, start, |names|) :: ToU32(start + Relative(names, start, |names|)[n])
  }

  lemma {:induction false} EntriesAscend(names: seq<Str>, start: nat, i: nat, j: nat)
    requires i < j <= |names|
    ensures EntryAt(names, start, i) + EntrySize(names[i]) <= EntryAt(names, start, j)
  {
    if i + 1 < j {
      EntriesAscend(names, start, i, j - 1);
    }
  }

  /** Every name has an offset, and the offset is that of an entry that holds the name. */
  lemma {:induction false} RelativeIsAnEntry(names: seq<Str>, start: nat, i: nat, n: Str)
    requires i <= |names|
    ensures n in Relative(names, start, i) <==> n in names[..i]
    ensures n in Relative(names, start, i)
            ==> exists k ::
                  0 <= k < i && names[k] == n && Relative(names, start, i)[n] == EntryAt(names, start, k) - start
  {
    if i > 0 {
      RelativeIsAnEntry(names, start, i - 1, n);
      assert names[..i] == names[..i - 1] + [names[i - 1]];
      if n != names[i - 1] && n in Relative(names, start, i) {
        var k :| 0 <= k < i - 1 && names[k] == n
                 && Relative(names, start, i - 1)[n] == EntryAt(names, start, k) - start;
        assert names[k] == n && Relative(names, start, i)[n] == EntryAt(names, start, k) - start;
      }
    }
  }

  // ----- In-place construction -----

  lemma HornerStep(p: nat, unit: u16)
    ensures (p % 0x1_0000_0000 * 65599 % 0x1_0000_0000 + unit) % 0x1_0000_0000 == (p * 65599 + unit) % 0x1_0000_0000
  {
    var q, r := p / 0x1_0000_0000, p % 0x1_0000_0000;
    var s, t := r * 65599 / 0x1_0000_0000, r * 65599 % 0x1_0000_0000;
    assert p * 65599 + unit == 0x1_0000_0000 * (q * 65599 + s) + (t + unit);
  }

  /** Wrapping 32-bit arithmetic computes the unbounded hash modulo 2^16. */
  method Hash16(utf16: Str) returns (h: u16)
    ensures h == Poly(utf16) % 0x1_0000
  {
    assert Poly(utf16[..0]) == 0;
    hide *;
    var hash: u32 := 0;
    for i := 0 to |utf16|
      invariant hash == Poly(utf16[..i]) % 0x1_0000_0000
    {
      HashStep(hash, Poly(utf16[..i]), utf16[i]);
      PolySnoc(utf16, i);
      hash := ToU32(ToU32(hash * 65599) + utf16[i]);
    }
    assert utf16[..|utf16|] == utf16;
    LowBits(Poly(utf16));
    h := hash % 0x1_0000;
  }

  lemma PolySnoc(s: Str, i: nat)
    requires i < |s|
    ensures Poly(s[..i + 1]) == Poly(s[..i]) * 65599 + s[i]
  {
    assert s[..i + 1][..i] == s[..i];
  }

  lemma HashStep(hash: u32, p: nat, unit: u16)
    requires hash == p % 0x1_0000_0000
    ensures ToU32(ToU32(hash * 65599) + unit) == (p * 65599 + unit) % 0x1_0000_0000
  {
    HornerStep(p, unit);
  }

  lemma LowBits(n: nat)
    ensures n % 0x1_0000_0000 % 0x1_0000 == n % 0x1_0000
  {
    var q, r := n / 0x1_0000_0000, n % 0x1_0000_0000;
    assert n == 0x1_0000 * (0x1_0000 * q) + r;
  }

  method WriteStringEntry(chunk: array<byte>, offset: nat, name: Str, next: nat)
    requires offset + EntrySize(name) <= chunk.Length
    modifies chunk
    ensures At(chunk[..], offset, EntryBytes(name, next))
    ensures Same(old(chunk[..]), chunk[..], 0, offset)
    ensures Same(old(chunk[..]), chunk[..], offset + EntrySize(name), chunk.Length)
  {
    var h := Hash16(name);
    var entry := LE32(ToU32(next)) + LE16(h) + LE16(ToU16(|name|)) + Units(name) + LE16(0);
    PutBytes(chunk, offset, entry);
  }

  /** The entries of the first `n` names lie in `c`, each linked to the one after it. */
  ghost predicate EntriesIn(c: seq<byte>, names: seq<Str>, start: nat, n: nat)
    requires n <= |names|
  {
    forall i :: 0 <= i < n ==> At(c, EntryAt(names, start, i), EntryBytes(names[i], NextOf(names, start, i)))
  }

  /** Entries survive a write elsewhere. */
  lemma EntriesKept(a: seq<byte>, b: seq<byte>, names: seq<Str>, start: nat, n: nat, lo: nat, hi: nat)
    requires n <= |names| && EntriesIn(a, names, start, n)
    requires Same(a, b, lo, hi) && lo <= start && EntryAt(names, start, n) <= hi
    ensures EntriesIn(b, names, start, n)
  {
    hide At, Same, EntryBytes;
    forall i | 0 <= i < n
      ensures At(b, EntryAt(names, start, i), EntryBytes(names[i], NextOf(names, start, i)))
    {
      EntriesAscend(names, start, i, n);
      StillAt(a, b, lo, hi, EntryAt(names, start, i), EntryBytes(names[i], NextOf(names, start, i)));
    }
  }

  /**
   One linked list of all names at `offset`, its head in bucket 0 of the hash
   table. The table fails exactly when it would not fit, and then writes nothing.
   */
  method BuildStringTable(chunk: array<byte>, offset: nat, names: seq<Str>) returns (r: Result<map<Str, nat>>)
    requires chunk.Length == CHUNK_SIZE && RECORD_START <= offset <= CHUNK_SIZE
    modifies chunk
    ensures r.Ok? <==> EntryAt(names, offset, |names|) <= CHUNK_SIZE
    ensures r.Err? ==> r.error == TableOverflow && chunk[..] == old(chunk[..])
    ensures r.Ok? ==>
      && r.value == Relative(names, offset, |names|)
      && EntriesIn(chunk[..], names, offset, |names|)
      && At(chunk[..], 128, LE32(ToU32(offset))) && ZeroIn(chunk[..], 132, 384)
      && Same(old(chunk[..]), chunk[..], 0, 128) && Same(old(chunk[..]), chunk[..], 384, offset)
      && Same(old(chunk[..]), chunk[..], EntryAt(names, offset, |names|), CHUNK_SIZE)
  {
    r := PlaceEntries(offset, names);
    if r.Ok? {
      WriteEntries(chunk, offset, names);
      ghost var mid := chunk[..];
      WriteBuckets(chunk, offset);
      EntriesKept(mid, chunk[..], names, offset, |names|, 384, CHUNK_SIZE);
    }
  }

  /** The first pass: give every name its place, or report that the table does not fit. */
  method PlaceEntries(offset: nat, names: seq<Str>) returns (r: Result<map<Str, nat>>)
    requires offset <= CHUNK_SIZE
    ensures r.Ok? <==> EntryAt(names, offset, |names|) <= CHUNK_SIZE
    ensures r.Err? ==> r.error == TableOverflow
    ensures r.Ok? ==> r.value == Relative(names, offset, |names|)
  {
    var offsets: map<Str, nat> := map[];
    var cursor := offset;
    for i := 0 to |names|
      invariant cursor == EntryAt(names, offset, i) <= CHUNK_SIZE
      invariant offsets == Relative(names, offset, i)
    {
      if cursor + 10 + |names[i]| * 2 > CHUNK_SIZE {
        EntriesAscend(names, offset, i, |names|);
        return Err(TableOverflow);
      }
      offsets := offsets[names[i] := cursor - offset];
      cursor := cursor + 10 + |names[i]| * 2;
    }
    r := Ok(offsets);
  }

  method WriteEntries(chunk: array<byte>, offset: nat, names: seq<Str>)
    requires chunk.Length == CHUNK_SIZE && RECORD_START <= offset
    requires EntryAt(names, offset, |names|) <= CHUNK_SIZE
    modifies chunk
    ensures EntriesIn(chunk[..], names, offset, |names|)
    ensures Same(old(chunk[..]), chunk[..], 0, offset)
    ensures Same(old(chunk[..]), chunk[..], EntryAt(names, offset, |names|), CHUNK_SIZE)
  {
    hide At, EntryBytes, EntriesIn, Same;
    NoEntries(chunk[..], names, offset);
    for i := 0 to |names|
      invariant EntriesIn(chunk[..], names, offset, i)
      invariant Same(old(chunk[..]), chunk[..], 0, offset)
      invariant Same(old(chunk[..]), chunk[..], EntryAt(names, offset, i), CHUNK_SIZE)
    {
      ghost var before := chunk[..];
      WriteEntry(chunk, offset, names, i);
      SameStep(old(chunk[..]), before, chunk[..], 0, offset, 0, EntryAt(names, offset, i));
      SameStep(old(chunk[..]), before, chunk[..], EntryAt(names, offset, i), CHUNK_SIZE,
               EntryAt(names, offset, i + 1), CHUNK_SIZE);
    }
  }

  lemma NoEntries(c: seq<byte>, names: seq<Str>, start: nat)
    ensures EntriesIn(c, names, start, 0) && Same(c, c, 0, |c|)
            && (start <= |c| ==> Same(c, c, 0, start) && Same(c, c, start, |c|))
  {
  }

  lemma SameStep(a: seq<byte>, b: seq<byte>, c: seq<byte>, lo: nat, hi: nat, lo': nat, hi': nat)
    requires Same(a, b, lo, hi) && Same(b, c, lo', hi')
    ensures forall l, h :: lo <= l && lo' <= l && h <= hi && h <= hi' && 0 <= h ==> Same(a, c, l, h)
  {
  }

  method WriteEntry(chunk: array<byte>, offset: nat, names: seq<Str>, i: nat)
    requires chunk.Length == CHUNK_SIZE && i < |names|
    requires EntryAt(names, offset, |names|) <= CHUNK_SIZE
    requires EntriesIn(chunk[..], names, offset, i)
    modifies chunk
    ensures EntriesIn(chunk[..], names, offset, i + 1)
    ensures Same(old(chunk[..]), chunk[..], 0, EntryAt(names, offset, i))
    ensures Same(old(chunk[..]), chunk[..], EntryAt(names, offset, i + 1), CHUNK_SIZE)
  {
    assert EntryAt(names, offset, i + 1) == EntryAt(names, offset, i) + EntrySize(names[i]);
    hide At, EntryBytes, Same, EntryAt, NextOf, EntriesIn;
    EntriesAscend(names, offset, i, |names|);
    WriteStringEntry(chunk, EntryAt(names, offset, i), names[i], NextOf(names, offset, i));
    EntriesKept(old(chunk[..]), chunk[..], names, offset, i, 0, EntryAt(names, offset, i));
    EntriesSnoc(chunk[..], names, offset, i);
  }

  lemma EntriesSnoc(c: seq<byte>, names: seq<Str>, start: nat, i: nat)
    requires i < |names| && EntriesIn(c, names, start, i)
    requires At(c, EntryAt(names, start, i), EntryBytes(names[i], NextOf(names, start, i)))
    ensures EntriesIn(c, names, start, i + 1)
  {
    hide At, EntryBytes, EntryAt, NextOf;
  }

  method WriteBuckets(chunk: array<byte>, offset: nat)
    requires chunk.Length == CHUNK_SIZE
    modifies chunk
    ensures At(chunk[..], 128, LE32(ToU32(offset))) && ZeroIn(chunk[..], 132, 384)
    ensures Same(old(chunk[..]), chunk[..], 0, 128) && Same(old(chunk[..]), chunk[..], 384, CHUNK_SIZE)
  {
    PutBytes(chunk, 128, LE32(ToU32(offset)));
    hide At, LE32, Put;
    for i := 1 to 64
      invariant At(chunk[..], 128, LE32(ToU32(offset))) && ZeroIn(chunk[..], 132, 128 + 4 * i)
      invariant Same(old(chunk[..]), chunk[..], 0, 128) && Same(old(chunk[..]), chunk[..], 384, CHUNK_SIZE)
    {
      ghost var before := chunk[..];
      PutBytes(chunk, 128 + i * 4, LE32(0));
      StillAt(before, chunk[..], 0, 132, 128, LE32(ToU32(offset)));
      ZeroWord(chunk[..], 128 + i * 4);
    }
  }

  lemma ZeroWord(c: seq<byte>, p: nat)
    requires At(c, p, LE32(0))
    ensures ZeroIn(c, p, p + 4)
  {
    forall i | p <= i < p + 4 ensures c[i] == 0 { AtIndex(c, p, LE32(0), i - p); }
  }

  // ----- Patching name references -----

  /** After `k` patches: every byte is blank or final, and the first `k` placeholders are final. */
  ghost predicate Patched(c: seq<byte>, base: nat, ts: seq<Tok>, off: Offsets, k: nat)
    requires k <= |RefsOf(ts)|
  {
    var blank, final := Ser(ts, map[]), Ser(ts, off);
    && base + |blank| <= |c| && |final| == |blank|
    && (forall i :: 0 <= i < |blank| ==> c[base + i] == blank[i] || c[base + i] == final[i])
    && (forall j :: 0 <= j < k ==> At(c, base + RefsOf(ts)[j].pos, TokBytes(NameRef(RefsOf(ts)[j].name), off)))
  }

  lemma PatchStart(c: seq<byte>, base: nat, ts: seq<Tok>, off: Offsets)
    requires At(c, base, Ser(ts, map[]))
    ensures Patched(c, base, ts, off, 0)
  {
    SerLength(ts, off);
    forall i | 0 <= i < |Ser(ts, map[])| ensures c[base + i] == Ser(ts, map[])[i] {
      AtIndex(c, base, Ser(ts, map[]), i);
    }
  }

  lemma PatchStep(c: seq<byte>, base: nat, ts: seq<Tok>, off: Offsets, k: nat)
    requires k < |RefsOf(ts)| && Patched(c, base, ts, off, k)
    ensures var r := RefsOf(ts)[k];
            && base + r.pos + 4 <= |c| && r.pos + 4 <= |Ser(ts, map[])|
            && Patched(Put(c, base + r.pos, TokBytes(NameRef(r.name), off)), base, ts, off, k + 1)
  {
    hide Ser, RefsOf, TokBytes;
    var blank, final, r := Ser(ts, map[]), Ser(ts, off), RefsOf(ts)[k];
    var d := TokBytes(NameRef(r.name), off);
    SlotBytes(ts, off, k);
    NameWidth(r.name, off);
    SlotInside(ts, off, k);
    PutAt(c, base + r.pos, d);
    var c' := Put(c, base + r.pos, d);
    forall j | 0 <= j < k + 1
      ensures At(c', base + RefsOf(ts)[j].pos, TokBytes(NameRef(RefsOf(ts)[j].name), off))
    {
      if j < k {
        SlotsApart(ts, j, k);
        NameWidth(RefsOf(ts)[j].name, off);
        StillAt(c, c', 0, base + r.pos, base + RefsOf(ts)[j].pos, TokBytes(NameRef(RefsOf(ts)[j].name), off));
      }
    }
    PutFromFinal(c, base, blank, final, r.pos, d);
  }

  /** A slot written with its final bytes leaves every byte blank or final. */
  lemma PutFromFinal(c: seq<byte>, base: nat, blank: seq<byte>, final: seq<byte>, pos: nat, d: seq<byte>)
    requires |d| == 4 && base + |blank| <= |c| && pos + 4 <= |blank| == |final| && At(final, pos, d)
    requires forall i :: 0 <= i < |blank| ==> c[base + i] == blank[i] || c[base + i] == final[i]
    ensures var c' := Put(c, base + pos, d);
            forall i :: 0 <= i < |blank| ==> c'[base + i] == blank[i] || c'[base + i] == final[i]
  {
    var c' := Put(c, base + pos, d);
    PutAt(c, base + pos, d);
    hide At;
    forall i | 0 <= i < |blank| ensures c'[base + i] == blank[i] || c'[base + i] == final[i] {
      if pos <= i < pos + 4 {
        AtIndex(c', base + pos, d, i - pos);
        AtIndex(final, pos, d, i - pos);
      }
    }
  }

  lemma PatchEnd(c: seq<byte>, base: nat, ts: seq<Tok>, off: Offsets)
    requires Patched(c, base, ts, off, |RefsOf(ts)|)
    ensures At(c, base, Ser(ts, off))
  {
    hide Ser, RefsOf, TokBytes;
    var final, refs := Ser(ts, off), RefsOf(ts);
    forall i | 0 <= i < |final| ensures c[base + i] == final[i] {
      if InSlot(refs, i) {
        var k :| 0 <= k < |refs| && refs[k].pos <= i < refs[k].pos + 4;
        var d := TokBytes(NameRef(refs[k].name), off);
        SlotBytes(ts, off, k);
        NameWidth(refs[k].name, off);
        AtIndex(c, base + refs[k].pos, d, i - refs[k].pos);
        AtIndex(final, refs[k].pos, d, i - refs[k].pos);
      } else {
        OutsideSlots(ts, off, i);
      }
    }
  }

  lemma SlotInside(ts: seq<Tok>, off: Offsets, k: nat)
    requires k < |RefsOf(ts)|
    ensures RefsOf(ts)[k].pos + 4 <= |Ser(ts, map[])|
  {
    hide Ser, RefsOf, TokBytes;
    SlotBytes(ts, off, k);
  }

  lemma NameWidth(n: Str, off: Offsets)
    ensures |TokBytes(NameRef(n), off)| == 4
  {
  }

  /** Replace each placeholder by the offset of its name; only a name without an entry is an error. */
  method PatchRefs(chunk: array<byte>, table: nat, names: map<Str, nat>, refs: seq<Ref>, ghost ts: seq<Tok>,
                   ghost off: Offsets) returns (r: Result<()>)
    requires refs == RefsOf(ts) && At(chunk[..], BINXML_START + PREFIX, Ser(ts, map[]))
    requires forall n :: n in names ==> n in off && off[n] == ToU32(table + names[n])
    modifies chunk
    ensures r.Err? ==> r.error == MissingEntry && exists n :: NameRef(n) in ts && n !in names
    ensures r.Ok? ==> At(chunk[..], BINXML_START + PREFIX, Ser(ts, off))
    ensures Same(old(chunk[..]), chunk[..], 0, BINXML_START + PREFIX)
    ensures Same(old(chunk[..]), chunk[..], BINXML_START + PREFIX + |Ser(ts, map[])|, chunk.Length)
  {
    hide Ser, RefsOf, Put, At, Patched;
    ghost var base := BINXML_START + PREFIX;
    PatchStart(chunk[..], base, ts, off);
    for k := 0 to |refs|
      invariant Patched(chunk[..], base, ts, off, k)
      invariant Same(old(chunk[..]), chunk[..], 0, base)
      invariant Same(old(chunk[..]), chunk[..], base + |Ser(ts, map[])|, chunk.Length)
    {
      SlotBytes(ts, off, k);
      PatchStep(chunk[..], base, ts, off, k);
      if refs[k].name !in names {
        return Err(MissingEntry);
      }
      PutBytes(chunk, BINXML_START + PREFIX + refs[k].pos, LE32(ToU32(table + names[refs[k].name])));
    }
    PatchEnd(chunk[..], base, ts, off);
    r := Ok(());
  }

  // ----- Chunk -----

  /** Append `d` to the field that starts at `from` and ends at `o`. */
  method Append(chunk: array<byte>, ghost from: nat, ghost done: seq<byte>, o: nat, d: seq<byte>)
    requires o + |d| <= chunk.Length && o == from + |done| && At(chunk[..], from, done)
    modifies chunk
    ensures At(chunk[..], from, done + d)
    ensures Same(old(chunk[..]), chunk[..], 0, from)
    ensures Same(old(chunk[..]), chunk[..], o + |d|, chunk.Length)
  {
    hide At, Put;
    PutBytes(chunk, o, d);
    StillAt(old(chunk[..]), chunk[..], 0, o, from, done);
    AtJoin(chunk[..], from, done, d);
  }

  method WriteHeaderStart(chunk: array<byte>, id: u64, free: nat)
    requires chunk.Length == CHUNK_SIZE
    modifies chunk
    ensures At(chunk[..], 0, HeaderStart(id, free))
    ensures Same(old(chunk[..]), chunk[..], 56, CHUNK_SIZE)
  {
    hide At, LE64, LE32;
    PutBytes(chunk, 0, MAGIC);
    Append(chunk, 0, MAGIC, 8, LE64(id));
    Append(chunk, 0, MAGIC + LE64(id), 16, LE64(id));
    Append(chunk, 0, MAGIC + LE64(id) + LE64(id), 24, LE64(id));
    Append(chunk, 0, MAGIC + LE64(id) + LE64(id) + LE64(id), 32, LE64(id));
    ghost var ids := MAGIC + LE64(id) + LE64(id) + LE64(id) + LE64(id);
    Append(chunk, 0, ids, 40, LE32(128));
    Append(chunk, 0, ids + LE32(128), 44, LE32(ToU32(RECORD_START + 24)));
    Append(chunk, 0, ids + LE32(128) + LE32(ToU32(RECORD_START + 24)), 48, LE32(ToU32(free)));
    Append(chunk, 0, ids + LE32(128) + LE32(ToU32(RECORD_START + 24)) + LE32(ToU32(free)), 52, LE32(0));
  }

  method WriteRecord(chunk: array<byte>, id: u64, filetime: u64, tree: seq<byte>)
    requires chunk.Length == CHUNK_SIZE && BINXML_START + PREFIX + |tree| + 5 <= CHUNK_SIZE
    modifies chunk
    ensures At(chunk[..], RECORD_START, RecordHeader(id, filetime, |tree|))
    ensures At(chunk[..], BINXML_START, BinXml(tree))
    ensures Same(old(chunk[..]), chunk[..], 0, RECORD_START)
    ensures Same(old(chunk[..]), chunk[..], BINXML_START + PREFIX + |tree| + 5, CHUNK_SIZE)
  {
    hide At, LE64, LE32, BinXml, RecordSize;
    var size := LE32(ToU32(RecordSize(|tree|)));
    PutBytes(chunk, RECORD_START, [0x2a, 0x2a, 0x00, 0x00]);
    Append(chunk, RECORD_START, [0x2a, 0x2a, 0x00, 0x00], RECORD_START + 4, size);
    Append(chunk, RECORD_START, [0x2a, 0x2a, 0x00, 0x00] + size, RECORD_START + 8, LE64(id));
    Append(chunk, RECORD_START, [0x2a, 0x2a, 0x00, 0x00] + size + LE64(id), RECORD_START + 16, LE64(filetime));
    ghost var before := chunk[..];
    PutBytes(chunk, BINXML_START, BinXml(tree));
    StillAt(before, chunk[..], 0, BINXML_START, RECORD_START, RecordHeader(id, filetime, |tree|));
  }

  /** Both checksums; nothing they cover is written afterwards. */
  method Seal(crc: seq<byte> -> u32, chunk: array<byte>, free: nat)
    requires chunk.Length == CHUNK_SIZE && RECORD_START <= free <= CHUNK_SIZE
    modifies chunk
    ensures At(chunk[..], 52, LE32(0))
    ensures At(chunk[..], 56, LE32(crc(chunk[RECORD_START..free])))
    ensures At(chunk[..], 124, LE32(crc(chunk[..120] + chunk[128..RECORD_START])))
    ensures Same(old(chunk[..]), chunk[..], 0, 52) && Same(old(chunk[..]), chunk[..], 60, 124)
    ensures Same(old(chunk[..]), chunk[..], 128, CHUNK_SIZE)
  {
    hide At, LE32, Same, Put;
    ghost var c0 := chunk[..];
    var events := crc(chunk[RECORD_START..free]);
    PutBytes(chunk, 52, LE32(0));
    ghost var c1 := chunk[..];
    PutBytes(chunk, 56, LE32(events));
    ghost var c2 := chunk[..];
    StillAt(c1, c2, 0, 56, 52, LE32(0));
    var header := crc(chunk[..120] + chunk[128..RECORD_START]);
    PutBytes(chunk, 124, LE32(header));
    ghost var c3 := chunk[..];
    StillAt(c2, c3, 0, 124, 52, LE32(0));
    StillAt(c2, c3, 0, 124, 56, LE32(events));
    SameSlice(c2, c3, 0, 124, 0, 120);
    SameSlice(c2, c3, 128, CHUNK_SIZE, 128, RECORD_START);
    SealedElsewhere(c0, c1, c2, c3, 0, 52);
    SealedElsewhere(c0, c1, c2, c3, 60, 124);
    SealedElsewhere(c0, c1, c2, c3, 128, CHUNK_SIZE);
    SameSlice(c0, c3, 128, CHUNK_SIZE, RECORD_START, free);
    assert chunk[..120] == c2[..120] && chunk[128..RECORD_START] == c2[128..RECORD_START];
    assert chunk[RECORD_START..free] == c0[RECORD_START..free];
  }

  lemma SealedElsewhere(c0: seq<byte>, c1: seq<byte>, c2: seq<byte>, c3: seq<byte>, lo: nat, hi: nat)
    requires Same(c0, c1, 0, 52) && Same(c0, c1, 56, CHUNK_SIZE)
    requires Same(c1, c2, 0, 56) && Same(c1, c2, 60, CHUNK_SIZE)
    requires Same(c2, c3, 0, 124) && Same(c2, c3, 128, CHUNK_SIZE)
    requires hi <= 52 || (60 <= lo && hi <= 124) || (128 <= lo && hi <= CHUNK_SIZE)
    ensures Same(c0, c3, lo, hi)
  {
  }

  /** Where the record ends and the string table begins, for a tree of `n` bytes. */
  function FreeSpace(n: nat): nat { RECORD_START + RecordSize(n) }

  /** Everything but the checksums: every byte outside the named fields is zero. */
  ghost predicate Content(c: seq<byte>, id: u64, filetime: u64, tree: seq<byte>, names: seq<Str>) {
    var free := FreeSpace(|tree|);
    var end := EntryAt(names, free, |names|);
    && |c| == CHUNK_SIZE && end <= CHUNK_SIZE
    && At(c, 0, HeaderStart(id, free)) && ZeroIn(c, 60, 124)
    && At(c, 128, LE32(ToU32(free))) && ZeroIn(c, 132, RECORD_START)
    && At(c, RECORD_START, RecordHeader(id, filetime, |tree|))
    && At(c, BINXML_START, BinXml(tree)) && ZeroIn(c, BINXML_START + PREFIX + |tree| + 5, free)
    && EntriesIn(c, names, free, |names|) && ZeroIn(c, end, CHUNK_SIZE)
  }

  ghost predicate Sealed(crc: seq<byte> -> u32, c: seq<byte>, free: nat)
    requires |c| == CHUNK_SIZE && RECORD_START <= free <= CHUNK_SIZE
  {
    && At(c, 56, LE32(crc(c[RECORD_START..free])))
    && At(c, 124, LE32(crc(c[..120] + c[128..RECORD_START])))
  }

  /** The header, the record and the string table, references still blank. */
  method FillChunk(chunk: array<byte>, id: u64, filetime: u64, tree: seq<byte>, names: seq<Str>)
    returns (r: Result<map<Str, nat>>)
    requires chunk.Length == CHUNK_SIZE && ZeroIn(chunk[..], 0, CHUNK_SIZE)
    requires FreeSpace(|tree|) <= CHUNK_SIZE
    modifies chunk
    ensures r.Ok? <==> EntryAt(names, FreeSpace(|tree|), |names|) <= CHUNK_SIZE
    ensures r.Err? ==> r.error == TableOverflow
    ensures r.Ok? ==> r.value == Relative(names, FreeSpace(|tree|), |names|)
                      && Content(chunk[..], id, filetime, tree, names)
  {
    hide At, Same, ZeroIn, HeaderStart, RecordHeader, BinXml, LE32, EntriesIn, EntryAt, Relative, Content;
    ghost var c0 := chunk[..];
    WriteHeaderStart(chunk, id, FreeSpace(|tree|));
    ghost var c1 := chunk[..];
    RecordFits(|tree|);
    WriteRecord(chunk, id, filetime, tree);
    ghost var c2 := chunk[..];
    r := BuildStringTable(chunk, FreeSpace(|tree|), names);
    if r.Ok? {
      ContentBuilt(c0, c1, c2, chunk[..], id, filetime, tree, names);
    }
  }

  lemma RecordFits(n: nat)
    ensures BINXML_START + PREFIX + n + 5 <= FreeSpace(n)
  {
  }

  /** The three writes leave each other's fields alone. */
  lemma ContentBuilt(c0: seq<byte>, c1: seq<byte>, c2: seq<byte>, c3: seq<byte>, id: u64, filetime: u64,
                     tree: seq<byte>, names: seq<Str>)
    requires |c0| == CHUNK_SIZE && ZeroIn(c0, 0, CHUNK_SIZE)
    requires At(c1, 0, HeaderStart(id, FreeSpace(|tree|))) && Same(c0, c1, 56, CHUNK_SIZE)
    requires At(c2, RECORD_START, RecordHeader(id, filetime, |tree|)) && At(c2, BINXML_START, BinXml(tree))
    requires Same(c1, c2, 0, RECORD_START) && Same(c1, c2, BINXML_START + PREFIX + |tree| + 5, CHUNK_SIZE)
    requires var free := FreeSpace(|tree|);
             var end := EntryAt(names, free, |names|);
             && end <= CHUNK_SIZE && EntriesIn(c3, names, free, |names|)
             && At(c3, 128, LE32(ToU32(free))) && ZeroIn(c3, 132, 384)
             && Same(c2, c3, 0, 128) && Same(c2, c3, 384, free) && Same(c2, c3, end, CHUNK_SIZE)
    ensures Content(c3, id, filetime, tree, names)
  {
    var free := FreeSpace(|tree|);
    RecordFits(|tree|);
    RecordBelow(names, free, |names|);
    var end, tail := EntryAt(names, free, |names|), BINXML_START + PREFIX + |tree| + 5;
    ZeroBuilt(c0, c1, c2, c3, free, end, tail);
    hide At, Same, ZeroIn, HeaderStart, RecordHeader, BinXml, LE32, EntriesIn, EntryAt, FreeSpace;
    StillAt(c1, c2, 0, RECORD_START, 0, HeaderStart(id, free));
    StillAt(c2, c3, 0, 128, 0, HeaderStart(id, free));
    StillAt(c2, c3, 384, free, RECORD_START, RecordHeader(id, filetime, |tree|));
    StillAt(c2, c3, 384, free, BINXML_START, BinXml(tree));
  }

  lemma ZeroBuilt(c0: seq<byte>, c1: seq<byte>, c2: seq<byte>, c3: seq<byte>, free: nat, end: nat, tail: nat)
    requires |c0| == CHUNK_SIZE && ZeroIn(c0, 0, CHUNK_SIZE) && RECORD_START <= tail <= free <= end <= CHUNK_SIZE
    requires Same(c0, c1, 56, CHUNK_SIZE)
    requires Same(c1, c2, 0, RECORD_START) && Same(c1, c2, tail, CHUNK_SIZE)
    requires Same(c2, c3, 0, 128) && Same(c2, c3, 384, free) && Same(c2, c3, end, CHUNK_SIZE) && ZeroIn(c3, 132, 384)
    ensures ZeroIn(c3, 60, 124) && ZeroIn(c3, 132, RECORD_START)
            && ZeroIn(c3, tail, free) && ZeroIn(c3, end, CHUNK_SIZE)
    ensures |c3| == CHUNK_SIZE
  {
    StillZero(c0, c1, 56, CHUNK_SIZE, 56, CHUNK_SIZE);
    StillZero(c1, c2, 0, RECORD_START, 56, RECORD_START);
    StillZero(c1, c2, tail, CHUNK_SIZE, tail, CHUNK_SIZE);
    StillZero(c2, c3, 0, 128, 56, 128);
    StillZero(c2, c3, 384, free, 384, RECORD_START);
    StillZero(c2, c3, 384, free, tail, free);
    StillZero(c2, c3, end, CHUNK_SIZE, end, CHUNK_SIZE);
  }

  lemma RecordBelow(names: seq<Str>, start: nat, i: nat)
    requires i <= |names|
    ensures start <= EntryAt(names, start, i)
  {
  }

  lemma ContentPatched(a: seq<byte>, b: seq<byte>, id: u64, filetime: u64, tree: seq<byte>, tree': seq<byte>,
                       names: seq<Str>)
    requires Content(a, id, filetime, tree, names) && |tree'| == |tree|
    requires At(b, BINXML_START + PREFIX, tree')
    requires Same(a, b, 0, BINXML_START + PREFIX) && Same(a, b, BINXML_START + PREFIX + |tree|, CHUNK_SIZE)
    ensures Content(b, id, filetime, tree', names)
  {
    var free := FreeSpace(|tree|);
    assert BINXML_START + PREFIX + |tree| + 5 <= free && |b| == CHUNK_SIZE;
    BinXmlPatched(a, b, tree, tree');
    RecordBelow(names, free, |names|);
    hide At, HeaderStart, RecordHeader, BinXml, LE32, EntriesIn, EntryAt, ZeroIn, Same, RecordSize;
    var p := BINXML_START + PREFIX;
    StillZero(a, b, 0, p, 60, 124);
    StillZero(a, b, 0, p, 132, RECORD_START);
    StillZero(a, b, p + |tree|, CHUNK_SIZE, p + |tree| + 5, free);
    StillZero(a, b, p + |tree|, CHUNK_SIZE, EntryAt(names, free, |names|), CHUNK_SIZE);
    StillAt(a, b, 0, p, 0, HeaderStart(id, free));
    StillAt(a, b, 0, p, 128, LE32(ToU32(free)));
    StillAt(a, b, 0, p, RECORD_START, RecordHeader(id, filetime, |tree|));
    EntriesKept(a, b, names, free, |names|, p + |tree|, CHUNK_SIZE);
  }

  lemma BinXmlPatched(a: seq<byte>, b: seq<byte>, tree: seq<byte>, tree': seq<byte>)
    requires At(a, BINXML_START, BinXml(tree)) && |tree'| == |tree|
    requires At(b, BINXML_START + PREFIX, tree')
    requires Same(a, b, 0, BINXML_START + PREFIX) && Same(a, b, BINXML_START + PREFIX + |tree|, |a|)
    ensures At(b, BINXML_START, BinXml(tree'))
  {
    hide At, Prefix, LE32;
    var n, p := |tree|, BINXML_START + PREFIX;
    AtSplit(a, BINXML_START, Prefix(n) + tree + [0x00], LE32(0));
    AtSplit(a, BINXML_START, Prefix(n) + tree, [0x00]);
    AtSplit(a, BINXML_START, Prefix(n), tree);
    StillAt(a, b, 0, p, BINXML_START, Prefix(n));
    InRange(a, p + n, [0x00]);
    InRange(a, p + n + 1, LE32(0));
    StillAt(a, b, p + n, |a|, p + n, [0x00]);
    StillAt(a, b, p + n, |a|, p + n + 1, LE32(0));
    AtJoin(b, BINXML_START, Prefix(n), tree');
    AtJoin(b, BINXML_START, Prefix(n) + tree', [0x00]);
    AtJoin(b, BINXML_START, Prefix(n) + tree' + [0x00], LE32(0));
  }

  lemma InRange(c: seq<byte>, p: nat, s: seq<byte>)
    requires At(c, p, s)
    ensures p + |s| <= |c|
  {
  }

  lemma ContentSealed(a: seq<byte>, b: seq<byte>, id: u64, filetime: u64, tree: seq<byte>, names: seq<Str>)
    requires Content(a, id, filetime, tree, names)
    requires Same(a, b, 0, 52) && At(b, 52, LE32(0)) && Same(a, b, 60, 124) && Same(a, b, 128, CHUNK_SIZE)
    ensures Content(b, id, filetime, tree, names)
  {
    var free := FreeSpace(|tree|);
    var start := MAGIC + LE64(id) + LE64(id) + LE64(id) + LE64(id)
                 + LE32(128) + LE32(ToU32(RECORD_START + 24)) + LE32(ToU32(free));
    assert HeaderStart(id, free) == start + LE32(0);
    assert BINXML_START + PREFIX + |tree| + 5 <= free && |b| == CHUNK_SIZE;
    RecordBelow(names, free, |names|);
    hide At, HeaderStart, RecordHeader, BinXml, LE32, LE64, EntriesIn, EntryAt, ToU32, ZeroIn, Same, RecordSize;
    StillZero(a, b, 60, 124, 60, 124);
    StillZero(a, b, 128, CHUNK_SIZE, 132, RECORD_START);
    StillZero(a, b, 128, CHUNK_SIZE, BINXML_START + PREFIX + |tree| + 5, free);
    StillZero(a, b, 128, CHUNK_SIZE, EntryAt(names, free, |names|), CHUNK_SIZE);
    AtSplit(a, 0, start, LE32(0));
    StillAt(a, b, 0, 52, 0, start);
    AtJoin(b, 0, start, LE32(0));
    StillAt(a, b, 128, CHUNK_SIZE, 128, LE32(ToU32(free)));
    StillAt(a, b, 128, CHUNK_SIZE, RECORD_START, RecordHeader(id, filetime, |tree|));
    StillAt(a, b, 128, CHUNK_SIZE, BINXML_START, BinXml(tree));
    EntriesKept(a, b, names, free, |names|, 128, CHUNK_SIZE);
  }

  /** The finished chunk of an event. */
  ghost predicate ChunkOf(crc: seq<byte> -> u32, c: seq<byte>, id: u64, filetime: u64, root: Node)
    requires root.Element?
  {
    var ts := ElementToks(root);
    var free := FreeSpace(|Ser(ts, map[])|);
    && Content(c, id, filetime, Ser(ts, Absolute(FirstUses(ts), free)), FirstUses(ts))
    && free <= CHUNK_SIZE && Sealed(crc, c, free)
  }

  /** Why the writer refuses a document, if it does. */
  function Refusal(root: Node): Option<WriterError>
    requires root.Element?
  {
    var ts := ElementToks(root);
    var free := FreeSpace(|Ser(ts, map[])|);
    if root.name != EVENT then Some(NotEvent)
    else if HasOther(root) then Some(UnsupportedNode)
    else if free > CHUNK_SIZE then Some(RecordTooLarge)
    else if EntryAt(FirstUses(ts), free, |FirstUses(ts)|) > CHUNK_SIZE then Some(TableOverflow)
    else None
  }

  /** Write the event under `root` as record `id`. The root of a document is an element. */
  method BuildChunk(crc: seq<byte> -> u32, id: u64, filetime: u64, root: Node) returns (r: Result<array<byte>>)
    requires root.Element?
    ensures r.Err? <==> Refusal(root).Some?
    ensures r.Err? ==> Refusal(root) == Some(r.error) && r.error != MissingEntry
    ensures r.Ok? ==> fresh(r.value) && ChunkOf(crc, r.value[..], id, filetime, root)
  {
    hide Ser, RefsOf, FirstUses, ElementToks, Content, At, EntryAt, Relative, Absolute, Sealed, HasOther;
    if root.name != EVENT {
      return Err(NotEvent);
    }
    var encoder := new Encoder();
    var ok := encoder.EncodeElement(root);
    if !ok {
      return Err(UnsupportedNode);
    }
    ghost var ts := ElementToks(root);
    assert encoder.toks == ts;
    var free := FreeSpace(|encoder.out|);
    if free > CHUNK_SIZE {
      return Err(RecordTooLarge);
    }
    var chunk := new byte[CHUNK_SIZE](_ => 0);
    var table := FillChunk(chunk, id, filetime, encoder.out, encoder.names);
    if table.Err? {
      return Err(table.error);
    }
    ghost var off := Absolute(encoder.names, free);
    ghost var filled := chunk[..];
    AllInterned(ts, free);
    assert table.value == Relative(FirstUses(ts), free, |FirstUses(ts)|);
    assert off == Absolute(FirstUses(ts), free);
    TreeIn(filled, id, filetime, encoder.out, encoder.names);
    var patched := PatchRefs(chunk, free, table.value, encoder.refs, ts, off);
    if patched.Err? {
      assert false;
    }
    SerLength(ts, off);
    ContentPatched(filled, chunk[..], id, filetime, encoder.out, Ser(ts, off), encoder.names);
    ghost var open := chunk[..];
    Seal(crc, chunk, free);
    ContentSealed(open, chunk[..], id, filetime, Ser(ts, off), encoder.names);
    IsSealed(crc, chunk[..], free);
    r := Ok(chunk);
  }

  lemma IsSealed(crc: seq<byte> -> u32, c: seq<byte>, free: nat)
    requires |c| == CHUNK_SIZE && RECORD_START <= free <= CHUNK_SIZE
    requires At(c, 56, LE32(crc(c[RECORD_START..free])))
    requires At(c, 124, LE32(crc(c[..120] + c[128..RECORD_START])))
    ensures Sealed(crc, c, free)
  {
  }

  lemma TreeIn(c: seq<byte>, id: u64, filetime: u64, tree: seq<byte>, names: seq<Str>)
    requires Content(c, id, filetime, tree, names)
    ensures At(c, BINXML_START + PREFIX, tree)
  {
    hide At, HeaderStart, RecordHeader, EntriesIn, EntryAt, Prefix;
    AtSplit(c, BINXML_START, Prefix(|tree|) + tree + [0x00], LE32(0));
    AtSplit(c, BINXML_START, Prefix(|tree|) + tree, [0x00]);
    AtSplit(c, BINXML_START, Prefix(|tree|), tree);
  }

  /** Every name the encoder references has a place in the table built from its interned names. */
  lemma AllInterned(ts: seq<Tok>, start: nat)
    ensures var names := FirstUses(ts);
            var rel, off := Relative(names, start, |names|), Absolute(names, start);
            && (forall n :: NameRef(n) in ts ==> n in rel)
            && (forall n :: n in rel ==> n in off && off[n] == ToU32(start + rel[n]))
  {
    var names := FirstUses(ts);
    FirstUsesAreTheNames(ts);
    forall n | NameRef(n) in ts ensures n in Relative(names, start, |names|) {
      assert NameRef(n).name in names;
      assert names[..|names|] == names;
      RelativeIsAnEntry(names, start, |names|, n);
    }
  }
}
