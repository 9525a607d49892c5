/**
 A reference reader for a single-record chunk. It shares no code with the
 writer: it checks both checksums, walks the string lists from the 64 hash
 buckets, follows the stored definition offset and resolves every name
 reference through the strings it found.
 */
module EvtxReader {
  import opened Options
  import opened Bytes
  import opened EvtxTree

  // ----- String lists -----

  datatype Entry = Entry(offset: nat, name: Str)

  function UnitsAt(c: seq<byte>, p: nat, n: nat): Str
    requires p + 2 * n <= |c|
  {
    seq(n, i requires 0 <= i < n => U16At(c, p + 2 * i))
  }

  function EntryName(c: seq<byte>, o: nat): Option<Str> {
    if o + 8 > |c| || o + 8 + 2 * U16At(c, o + 6) > |c| then None
    else Some(UnitsAt(c, o + 8, U16At(c, o + 6)))
  }

  /** The list that starts at `o`; zero ends it, and a link that does not move forward is not followed. */
  function Walk(c: seq<byte>, o: nat): seq<Entry>
    decreases |c| - o
  {
    if o == 0 || EntryName(c, o).None? then []
    else
      var next := U32At(c, o);
      [Entry(o, EntryName(c, o).value)] + (if next > o then Walk(c, next) else [])
  }

  function Names(es: seq<Entry>): map<nat, Str> {
    if es == [] then map[] else Names(es[1..])[es[0].offset := es[0].name]
  }

  /** Strings reachable from the first `n` buckets of the hash table at byte 128. */
  function Cache(c: seq<byte>, n: nat): map<nat, Str>
    requires 128 + 4 * n <= |c|
  {
    if n == 0 then map[] else Cache(c, n - 1) + Names(Walk(c, U32At(c, 128 + 4 * (n - 1))))
  }

  // ----- BinXml -----

  datatype Read<+T> = Fail | Done(value: T, next: nat)

  function ReadName(c: seq<byte>, p: nat, names: map<nat, Str>): (r: Read<Str>)
    ensures r.Done? ==> r.next == p + 4 <= |c|
  {
    if p + 4 > |c| || U32At(c, p) !in names then Fail else Done(names[U32At(c, p)], p + 4)
  }

  function ReadValue(c: seq<byte>, p: nat): (r: Read<Str>)
    ensures r.Done? ==> p < r.next <= |c|
  {
    if p + 4 > |c| || c[p] != 5 || c[p + 1] != 1 then Fail
    else
      var n := U16At(c, p + 2);
      if p + 4 + 2 * n > |c| then Fail else Done(UnitsAt(c, p + 4, n), p + 4 + 2 * n)
  }

  function ReadAttrs(c: seq<byte>, p: nat, names: map<nat, Str>): (r: Read<seq<Attr>>)
    ensures r.Done? ==> p <= r.next <= |c|
    decreases |c| - p
  {
    if p >= |c| then Fail
    else if c[p] != 6 then Done([], p)
    else
      var name := ReadName(c, p + 1, names);
      if name.Fail? then Fail
      else
        var value := ReadValue(c, name.next);
        if value.Fail? then Fail
        else
          var rest := ReadAttrs(c, value.next, names);
          if rest.Fail? then Fail
          else Done([Attr(name.value, value.value)] + rest.value, rest.next)
  }

  function ReadElement(c: seq<byte>, p: nat, names: map<nat, Str>): (r: Read<Node>)
    ensures r.Done? ==> p < r.next <= |c|
    decreases |c| - p, 0
  {
    if p + 7 > |c| || (c[p] != 0x01 && c[p] != 0x41) then Fail
    else
      var name := ReadName(c, p + 7, names);
      if name.Fail? then Fail
      else
        var attrs := if c[p] == 0x41 then ReadAttrs(c, name.next + 4, names) else Done([], name.next);
        if attrs.Fail? || attrs.next >= |c| then Fail
        else if c[attrs.next] == 3 then Done(Element(name.value, attrs.value, []), attrs.next + 1)
        else if c[attrs.next] == 2 then
          var children := ReadChildren(c, attrs.next + 1, names);
          if children.Fail? then Fail
          else Done(Element(name.value, attrs.value, children.value), children.next)
        else Fail
  }

  /** Children up to and including the close token. */
  function ReadChildren(c: seq<byte>, p: nat, names: map<nat, Str>): (r: Read<seq<Node>>)
    ensures r.Done? ==> p < r.next <= |c|
    decreases |c| - p, 1
  {
    if p >= |c| then Fail
    else if c[p] == 4 then Done([], p + 1)
    else
      var child := if c[p] == 5 then
                     var text := ReadValue(c, p);
                     if text.Fail? then Fail else Done(Text(text.value), text.next)
                   else ReadElement(c, p, names);
      if child.Fail? then Fail
      else
        var rest := ReadChildren(c, child.next, names);
        if rest.Fail? then Fail else Done([child.value] + rest.value, rest.next)
  }

  // ----- Chunk -----

  const CHUNK_SIZE := 0x1_0000
  const RECORD_START := 512
  const BINXML_START := 536

  datatype Event = Event(recordId: u64, filetime: u64, root: Node)

  /** Section 2.2.12.1 fragment header. */
  const FRAGMENT: seq<byte> := [0x0f, 0x01, 0x01, 0x00]

  predicate ChecksumsMatch(crc: seq<byte> -> u32, c: seq<byte>)
    requires |c| == CHUNK_SIZE
  {
    var free := U32At(c, 48);
    && RECORD_START <= free <= |c|
    && U32At(c, 56) == crc(c[RECORD_START..free])
    && U32At(c, 124) == crc(c[..120] + c[128..RECORD_START])
  }

  /** The template definition at `d`: 24 bytes of header, a fragment, one element and the end token. */
  function ReadDefinition(c: seq<byte>, d: nat, names: map<nat, Str>): (r: Read<Node>)
    ensures r.Done? ==> r.next <= |c|
  {
    if d + 28 > |c| || c[d + 24..d + 28] != FRAGMENT then Fail
    else
      var root := ReadElement(c, d + 28, names);
      if root.Fail? || root.next + 1 > |c| || c[root.next] != 0 then Fail
      else if root.next + 1 != d + 24 + U32At(c, d + 20) then Fail
      else Done(root.value, root.next + 1)
  }

  function ReadChunk(crc: seq<byte> -> u32, c: seq<byte>): Option<Event>
    requires |c| == CHUNK_SIZE
  {
    if c[..8] != [0x45, 0x6c, 0x66, 0x43, 0x68, 0x6e, 0x6b, 0x00] || !ChecksumsMatch(crc, c) then None
    else if c[512..516] != [0x2a, 0x2a, 0, 0] || RECORD_START + U32At(c, 516) != U32At(c, 48) then None
    else if c[536..542] != FRAGMENT + [0x0c, 0x01] || U32At(c, 542) == 0 then None
    else
      var root := ReadDefinition(c, U32At(c, 546), Cache(c, 64));
      if root.Fail? || root.next + 4 > |c| || U32At(c, root.next) != 0 then None
      else Some(Event(U64At(c, 520), U64At(c, 528), root.value))
  }
}
