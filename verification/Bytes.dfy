/**
 Fixed-width integers, little-endian words and in-place byte buffers: the
 vocabulary shared by the EVTX writer and its reference reader.
 */
module Bytes {
  type byte = b: int | 0 <= b < 0x100
  type u16 = v: int | 0 <= v < 0x1_0000
  type u32 = v: int | 0 <= v < 0x1_0000_0000
  type u64 = v: int | 0 <= v < 0x1_0000_0000_0000_0000

  // Rust's `as u16` and `as u32` keep the low bits.
  function ToU16(n: nat): u16 { n % 0x1_0000 }
  function ToU32(n: nat): u32 { n % 0x1_0000_0000 }

  function LE16(v: u16): (r: seq<byte>)
    ensures |r| == 2
  {
    [v % 0x100, v / 0x100]
  }

  function LE32(v: u32): (r: seq<byte>)
    ensures |r| == 4
  {
    [v % 0x100, v / 0x100 % 0x100, v / 0x1_0000 % 0x100, v / 0x100_0000]
  }

  function LE64(v: u64): (r: seq<byte>)
    ensures |r| == 8
  {
    LE32(v % 0x1_0000_0000) + LE32(v / 0x1_0000_0000)
  }

  function U16At(c: seq<byte>, p: nat): u16
    requires p + 2 <= |c|
  {
    (c[p] as int) + 0x100 * (c[p + 1] as int)
  }

  function U32At(c: seq<byte>, p: nat): u32
    requires p + 4 <= |c|
  {
    (c[p] as int) + 0x100 * (c[p + 1] as int) + 0x1_0000 * (c[p + 2] as int) + 0x100_0000 * (c[p + 3] as int)
  }

  function U64At(c: seq<byte>, p: nat): u64
    requires p + 8 <= |c|
  {
    (U32At(c, p) as int) + 0x1_0000_0000 * (U32At(c, p + 4) as int)
  }

  /** `s` occupies the bytes of `c` that start at `p`. */
  ghost predicate At(c: seq<byte>, p: nat, s: seq<byte>) {
    p + |s| <= |c| && c[p..p + |s|] == s
  }

  lemma AtIndex(c: seq<byte>, p: nat, s: seq<byte>, i: nat)
    requires At(c, p, s) && i < |s|
    ensures c[p + i] == s[i]
  {
  }

  lemma AtSplit(c: seq<byte>, p: nat, a: seq<byte>, b: seq<byte>)
    requires At(c, p, a + b)
    ensures At(c, p, a) && At(c, p + |a|, b)
  {
    var s := a + b;
    assert c[p..p + |a|] == c[p..p + |s|][..|a|] == a;
    assert c[p + |a|..p + |s|] == c[p..p + |s|][|a|..] == b;
  }

  lemma AtJoin(c: seq<byte>, p: nat, a: seq<byte>, b: seq<byte>)
    requires At(c, p, a) && At(c, p + |a|, b)
    ensures At(c, p, a + b)
  {
  }

  lemma AtPrefix(a: seq<byte>, b: seq<byte>, p: nat, x: seq<byte>)
    requires At(a, p, x)
    ensures At(a + b, p, x)
  {
  }

  lemma AtEnd(a: seq<byte>, b: seq<byte>)
    ensures At(a + b, |a|, b)
  {
  }

  lemma AtInside(c: seq<byte>, p: nat, s: seq<byte>, q: nat, x: seq<byte>)
    requires At(c, p, s) && At(s, q, x)
    ensures At(c, p + q, x)
  {
    forall i | 0 <= i < |x| ensures c[p + q + i] == x[i] {
      AtIndex(s, q, x, i);
      AtIndex(c, p, s, q + i);
    }
    assert c[p + q..p + q + |x|] == x;
  }

  lemma Read16(c: seq<byte>, p: nat, v: u16)
    requires At(c, p, LE16(v))
    ensures U16At(c, p) == v
  {
  }

  lemma Read32(c: seq<byte>, p: nat, v: u32)
    requires At(c, p, LE32(v))
    ensures U32At(c, p) == v
  {
    Digits32(v);
    assert LE32(v)[0] == v % 0x100 && LE32(v)[1] == v / 0x100 % 0x100;
    assert LE32(v)[2] == v / 0x1_0000 % 0x100 && LE32(v)[3] == v / 0x100_0000;
    hide LE32, At;
    AtIndex(c, p, LE32(v), 0);
    AtIndex(c, p, LE32(v), 1);
    AtIndex(c, p, LE32(v), 2);
    AtIndex(c, p, LE32(v), 3);
  }

  lemma Digits32(v: u32)
    ensures v % 0x100 + 0x100 * (v / 0x100 % 0x100) + 0x1_0000 * (v / 0x1_0000 % 0x100) + 0x100_0000 * (v / 0x100_0000)
            == v
  {
    assert v / 0x100 / 0x100 == v / 0x1_0000;
    assert v / 0x1_0000 / 0x100 == v / 0x100_0000;
  }

  lemma Read64(c: seq<byte>, p: nat, v: u64)
    requires At(c, p, LE64(v))
    ensures U64At(c, p) == v
  {
    AtSplit(c, p, LE32(v % 0x1_0000_0000), LE32(v / 0x1_0000_0000));
    Read32(c, p, v % 0x1_0000_0000);
    Read32(c, p + 4, v / 0x1_0000_0000);
  }

  /** `s` with the bytes from `o` on replaced by `d`. */
  ghost function Put(s: seq<byte>, o: nat, d: seq<byte>): (r: seq<byte>)
    requires o + |d| <= |s|
    ensures |r| == |s|
  {
    s[..o] + d + s[o + |d|..]
  }

  /** `a` and `b` agree from `lo` up to `hi`. */
  ghost predicate Same(a: seq<byte>, b: seq<byte>, lo: nat, hi: nat) {
    |a| == |b| && hi <= |a| && forall i :: lo <= i < hi ==> a[i] == b[i]
  }

  function Zeros(n: nat): (r: seq<byte>)
    ensures |r| == n
  {
    seq(n, _ => 0)
  }

  ghost predicate ZeroIn(c: seq<byte>, lo: nat, hi: nat) {
    hi <= |c| && forall i :: lo <= i < hi ==> c[i] == 0
  }

  lemma PutAt(s: seq<byte>, o: nat, d: seq<byte>)
    requires o + |d| <= |s|
    ensures At(Put(s, o, d), o, d)
    ensures Same(s, Put(s, o, d), 0, o) && Same(s, Put(s, o, d), o + |d|, |s|)
  {
  }

  lemma SameSlice(a: seq<byte>, b: seq<byte>, lo: nat, hi: nat, l: nat, h: nat)
    requires Same(a, b, lo, hi) && lo <= l <= h <= hi
    ensures a[l..h] == b[l..h] && Same(a, b, l, h)
  {
  }

  lemma StillZero(a: seq<byte>, b: seq<byte>, lo: nat, hi: nat, l: nat, h: nat)
    requires Same(a, b, lo, hi) && lo <= l && h <= hi && ZeroIn(a, l, h)
    ensures ZeroIn(b, l, h)
  {
  }

  lemma ZerosAt(c: seq<byte>, lo: nat, hi: nat)
    requires lo <= hi && ZeroIn(c, lo, hi)
    ensures At(c, lo, Zeros(hi - lo))
  {
  }

  lemma StillAt(a: seq<byte>, b: seq<byte>, lo: nat, hi: nat, p: nat, x: seq<byte>)
    requires Same(a, b, lo, hi) && lo <= p && p + |x| <= hi && At(a, p, x)
    ensures At(b, p, x)
  {
    forall i | 0 <= i < |x| ensures b[p + i] == x[i] { AtIndex(a, p, x, i); }
  }

  lemma PutOne(s: seq<byte>, o: nat, d: seq<byte>, i: nat)
    requires o + |d| <= |s| && i < |d|
    ensures Put(s, o, d[..i])[o + i := d[i]] == Put(s, o, d[..i + 1])
  {
  }

  /** `copy_from_slice` into the middle of a buffer. */
  method PutBytes(a: array<byte>, o: nat, d: seq<byte>)
    requires o + |d| <= a.Length
    modifies a
    ensures a[..] == Put(old(a[..]), o, d) && At(a[..], o, d)
    ensures Same(old(a[..]), a[..], 0, o) && Same(old(a[..]), a[..], o + |d|, a.Length)
  {
    hide At, Same;
    ghost var before := a[..];
    assert Put(before, o, d[..0]) == before;
    for i := 0 to |d|
      invariant a[..] == Put(before, o, d[..i])
    {
      PutOne(before, o, d, i);
      a[o + i] := d[i];
    }
    assert d[..|d|] == d;
    PutAt(before, o, d);
  }

  // ----- Lines and sequences -----

  const NEWLINE: byte := 10

  /** Index of the first newline, or the length when there is none. */
  function FirstNewline(b: seq<byte>): (k: nat)
    ensures k <= |b| && (k < |b| ==> b[k] == NEWLINE)
  {
    if b == [] || b[0] == NEWLINE then 0 else 1 + FirstNewline(b[1..])
  }

  lemma {:induction false} NoneBefore(b: seq<byte>)
    ensures forall i :: 0 <= i < FirstNewline(b) ==> b[i] != NEWLINE
  {
    if b != [] && b[0] != NEWLINE {
      NoneBefore(b[1..]);
      assert forall i :: 0 < i < |b| ==> b[i] == b[1..][i - 1];
    }
  }

  lemma Reassociate<T>(a: seq<T>, b: seq<T>, c: seq<T>)
    ensures a + b + c == a + (b + c)
  {
  }
}
