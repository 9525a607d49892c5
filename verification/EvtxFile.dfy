/**
 The file around a chunk: a 4096-byte header with its own checksum, then the
 chunk, stored in one write.
 */
module EvtxFile {
  import EvtxMeaning
  import opened Bytes
  import opened EvtxReader
  import opened EvtxTree
  import opened Options
  import T = EvtxTheorems
  import W = EvtxWriter

  const FILE_HEADER_SIZE := 4096
  const FILE_MAGIC: seq<byte> := [0x45, 0x6c, 0x66, 0x46, 0x69, 0x6c, 0x65, 0x00]

  /** Magic, first and last chunk number, next record id, header length, version 3.1, block size, chunk count. */
  function HeaderFields(id: u64): (r: seq<byte>)
    requires id < 0xFFFF_FFFF_FFFF_FFFF
    ensures |r| == 44
  {
    FILE_MAGIC + Zeros(16) + LE64(id + 1) + LE32(128) + LE16(1) + LE16(3) + LE16(4096) + LE16(1)
  }

  ghost predicate HeaderOf(crc: seq<byte> -> u32, h: seq<byte>, id: u64)
    requires id < 0xFFFF_FFFF_FFFF_FFFF
  {
    && |h| == FILE_HEADER_SIZE && At(h, 0, HeaderFields(id)) && ZeroIn(h, 44, 124)
    && At(h, 124, LE32(crc(h[..120]))) && ZeroIn(h, 128, FILE_HEADER_SIZE)
  }

  /** A reader of whole files: the header must be consistent with itself and with the chunk that follows it. */
  function ReadFile(crc: seq<byte> -> u32, f: seq<byte>): Option<Event> {
    if |f| != 4096 + CHUNK_SIZE || f[..8] != [0x45, 0x6c, 0x66, 0x46, 0x69, 0x6c, 0x65, 0x00] then None
    else if U32At(f, 124) != crc(f[..120]) || U32At(f, 32) != 128 || U16At(f, 36) != 1 || U16At(f, 38) != 3 then None
    else if U16At(f, 40) != 4096 || U16At(f, 42) != 1 then None
    else
      var event := ReadChunk(crc, f[4096..]);
      if event.None? || event.value.recordId as int + 1 != U64At(f, 24) then None else event
  }

  // ----- Header -----

  method BuildFileHeader(crc: seq<byte> -> u32, id: u64) returns (h: array<byte>)
    requires id < 0xFFFF_FFFF_FFFF_FFFF
    ensures fresh(h) && HeaderOf(crc, h[..], id)
  {
    hide At, Put, LE64, LE32, LE16, Zeros;
    h := new byte[FILE_HEADER_SIZE](_ => 0);
    PutFields(h, id);
    ghost var fields := h[..];
    var checksum := crc(h[..120]);
    PutBytes(h, 124, LE32(checksum));
    StillAt(fields, h[..], 0, 124, 0, HeaderFields(id));
    assert h[..120] == fields[..120];
  }

  method PutFields(h: array<byte>, id: u64)
    requires h.Length == FILE_HEADER_SIZE && ZeroIn(h[..], 0, FILE_HEADER_SIZE) && id < 0xFFFF_FFFF_FFFF_FFFF
    modifies h
    ensures At(h[..], 0, HeaderFields(id)) && ZeroIn(h[..], 44, FILE_HEADER_SIZE)
  {
    hide At, Put, LE64, LE32, LE16, Zeros;
    PutBytes(h, 0, FILE_MAGIC);
    ZerosAt(h[..], 8, 24);
    AtJoin(h[..], 0, FILE_MAGIC, Zeros(16));
    ghost var d := FILE_MAGIC + Zeros(16);
    W.Append(h, 0, d, 24, LE64(id + 1));
    d := d + LE64(id + 1);
    W.Append(h, 0, d, 32, LE32(128));
    d := d + LE32(128);
    W.Append(h, 0, d, 36, LE16(1));
    d := d + LE16(1);
    W.Append(h, 0, d, 38, LE16(3));
    d := d + LE16(3);
    W.Append(h, 0, d, 40, LE16(4096));
    d := d + LE16(4096);
    W.Append(h, 0, d, 42, LE16(1));
  }

  lemma HeaderBack(crc: seq<byte> -> u32, h: seq<byte>, id: u64)
    requires id < 0xFFFF_FFFF_FFFF_FFFF && HeaderOf(crc, h, id)
    ensures h[..8] == FILE_MAGIC && U64At(h, 24) == id + 1 && U32At(h, 124) == crc(h[..120])
    ensures U32At(h, 32) == 128 && U16At(h, 36) == 1 && U16At(h, 38) == 3
    ensures U16At(h, 40) == FILE_HEADER_SIZE && U16At(h, 42) == 1
  {
    FieldsSplit(h, id);
    hide At, LE16, LE32, LE64, U16At, U32At, U64At, Zeros;
    Read64(h, 24, id + 1);
    Read32(h, 124, crc(h[..120]));
    Read32(h, 32, 128);
    Read16(h, 36, 1);
    Read16(h, 38, 3);
    Read16(h, 40, 4096);
    Read16(h, 42, 1);
  }

  lemma FieldsSplit(h: seq<byte>, id: u64)
    requires id < 0xFFFF_FFFF_FFFF_FFFF && |h| == FILE_HEADER_SIZE && At(h, 0, HeaderFields(id))
    ensures h[..8] == FILE_MAGIC && At(h, 24, LE64(id + 1)) && At(h, 36, LE16(1)) && At(h, 38, LE16(3))
    ensures At(h, 32, LE32(128)) && At(h, 40, LE16(4096)) && At(h, 42, LE16(1))
  {
    hide At, LE16, LE32, LE64, Zeros;
    assert |Zeros(16)| == 16;
    var head := FILE_MAGIC + Zeros(16);
    var a := head + LE64(id + 1) + LE32(128);
    AtSplit(h, 0, a + LE16(1) + LE16(3) + LE16(4096), LE16(1));
    AtSplit(h, 0, a + LE16(1) + LE16(3), LE16(4096));
    AtSplit(h, 0, a + LE16(1), LE16(3));
    AtSplit(h, 0, a, LE16(1));
    AtSplit(h, 0, head + LE64(id + 1), LE32(128));
    AtSplit(h, 0, head, LE64(id + 1));
    AtSplit(h, 0, FILE_MAGIC, Zeros(16));
    T.AtIs(h, 0, FILE_MAGIC);
  }

  // ----- Whole files -----

  lemma FileBack(crc: seq<byte> -> u32, h: seq<byte>, c: seq<byte>, id: u64, filetime: u64, root: Node)
    requires id < 0xFFFF_FFFF_FFFF_FFFF && HeaderOf(crc, h, id) && |c| == CHUNK_SIZE
    requires ReadChunk(crc, c) == Some(Event(id, filetime, root))
    ensures ReadFile(crc, h + c) == Some(Event(id, filetime, root))
  {
    HeaderBack(crc, h, id);
    assert |h| == FILE_HEADER_SIZE;
    hide HeaderOf, ReadChunk, U16At, U32At, U64At;
    var f := h + c;
    assert f[..8] == h[..8] && f[..120] == h[..120] && f[FILE_HEADER_SIZE..] == c;
    WordsOf(h, c, 124);
    WordsOf(h, c, 24);
    WordsOf(h, c, 32);
    WordsOf(h, c, 36);
    WordsOf(h, c, 38);
    WordsOf(h, c, 40);
    WordsOf(h, c, 42);
  }

  lemma WordsOf(a: seq<byte>, b: seq<byte>, p: nat)
    requires p + 8 <= |a|
    ensures U16At(a + b, p) == U16At(a, p) && U32At(a + b, p) == U32At(a, p) && U64At(a + b, p) == U64At(a, p)
  {
  }

  datatype FileError = Refused(error: W.WriterError) | WriteFailed
  datatype FileResult = Stored | NotStored(error: FileError)

  class Disk {
    var file: Option<seq<byte>>

    /** A write that fails leaves behind whatever `fault` says. */
    method Write(bytes: seq<byte>, fault: Option<Option<seq<byte>>>) returns (ok: bool)
      modifies this
      ensures ok == fault.None?
      ensures file == if fault.None? then Some(bytes) else fault.value
    {
      ok := fault.None?;
      file := if ok then Some(bytes) else fault.value;
    }
  }

  /**
   Write one event as a file. It is refused, before the disk is touched, for
   record ids 0 and 2^64 - 1 and for exactly the documents the chunk writer
   refuses; otherwise it is stored unless the write fails, and a file that was
   stored reads back as the event.
   */
  method WriteEvtx(crc: seq<byte> -> u32, id: u64, filetime: u64, root: Node, disk: Disk,
                   fault: Option<Option<seq<byte>>>)
    returns (r: FileResult)
    requires root.Element?
    modifies disk
    ensures r.NotStored? && r.error.Refused? <==> id == 0 || id == 0xFFFF_FFFF_FFFF_FFFF || W.Refusal(root).Some?
    ensures r.NotStored? && r.error.Refused? ==>
      && disk.file == old(disk.file)
      && r.error.error == if id == 0 || id == 0xFFFF_FFFF_FFFF_FFFF then W.BadRecordId else W.Refusal(root).value
    ensures r.NotStored? && !r.error.Refused? ==> fault.Some? && disk.file == fault.value
    ensures r.Stored? ==> fault.None?
    ensures r.Stored? ==> disk.file.Some? && ReadFile(crc, disk.file.value) == Some(Event(id, filetime, Norm(root)))
                          && EvtxMeaning.Reflects(root, ReadFile(crc, disk.file.value).value.root)
  {
    hide ReadChunk, HeaderOf, W.Refusal, ReadFile, EvtxMeaning.Reflects;
    var chunk := T.WriteEvent(crc, id, filetime, root);
    if chunk.Err? {
      return NotStored(Refused(chunk.error));
    }
    var header := BuildFileHeader(crc, id);
    FileBack(crc, header[..], chunk.value[..], id, filetime, Norm(root));
    var ok := disk.Write(header[..] + chunk.value[..], fault);
    r := if ok then Stored else NotStored(WriteFailed);
  }
}
