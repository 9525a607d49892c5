/**
 The key of the compiled-rule cache: hex digests of the rules, sorted, joined
 and hashed. Two rule sets share a key exactly when one is a reordering of the
 other.
 */
module Fingerprint {
  import opened Bytes

  type Hash = seq<byte> -> seq<byte>

  /** Stands for SHA-1: no two inputs that occur collide. */
  ghost predicate NoCollision(h: Hash) {
    forall a, b :: h(a) == h(b) ==> a == b
  }

  // The bytes of "0123456789abcdef".
  const HEX: seq<byte> := [48, 49, 50, 51, 52, 53, 54, 55, 56, 57, 97, 98, 99, 100, 101, 102]

  // ----- Hex -----

  function Hex(b: seq<byte>): seq<byte> {
    if b == [] then []
    else Hex(b[..|b| - 1]) + [HEX[b[|b| - 1] / 16], HEX[b[|b| - 1] % 16]]
  }

  method ToHex(b: seq<byte>) returns (out: seq<byte>)
    ensures out == Hex(b) && |out| == 2 * |b| && NEWLINE !in out
  {
    out := [];
    for i := 0 to |b|
      invariant out == Hex(b[..i]) && |out| == 2 * i && NEWLINE !in out
    {
      assert b[..i + 1][..i] == b[..i];
      out := out + [HEX[b[i] / 16]];
      out := out + [HEX[b[i] % 16]];
    }
    assert b[..|b|] == b;
  }

  lemma {:induction false} HexIsPrintable(b: seq<byte>)
    ensures |Hex(b)| == 2 * |b| && NEWLINE !in Hex(b)
  {
    if b != [] {
      HexIsPrintable(b[..|b| - 1]);
    }
  }

  /** A digit below ten is a decimal digit, the others are the letters from `a` on. */
  lemma {:induction false} HexDigits(b: seq<byte>, i: nat)
    requires i < |b|
    ensures |Hex(b)| == 2 * |b|
    ensures Hex(b)[2 * i] as int == (if b[i] / 16 < 10 then 48 + b[i] as int / 16 else 87 + b[i] as int / 16)
    ensures Hex(b)[2 * i + 1] as int == (if b[i] % 16 < 10 then 48 + b[i] as int % 16 else 87 + b[i] as int % 16)
  {
    var n := |b| - 1;
    HexIsPrintable(b);
    HexIsPrintable(b[..n]);
    HexDigit(b[i] / 16);
    HexDigit(b[i] % 16);
    if i < n {
      HexDigits(b[..n], i);
    }
  }

  lemma HexDigit(d: nat)
    requires d < 16
    ensures HEX[d] as int == if d < 10 then 48 + d else 87 + d
  {
  }

  lemma DigitsDiffer(i: nat, j: nat)
    requires i < 16 && j < 16 && HEX[i] == HEX[j]
    ensures i == j
  {
  }

  /** Different digests print differently. */
  lemma {:induction false} HexIsInjective(a: seq<byte>, b: seq<byte>)
    requires Hex(a) == Hex(b)
    ensures a == b
  {
    HexIsPrintable(a);
    HexIsPrintable(b);
    if a != [] {
      var n := |a| - 1;
      HexSnoc(a);
      HexSnoc(b);
      hide Hex;
      HexIsPrintable(a[..n]);
      HexIsPrintable(b[..n]);
      assert Hex(a)[..2 * n] == Hex(a[..n]) && Hex(b)[..2 * n] == Hex(b[..n]);
      HexIsInjective(a[..n], b[..n]);
      assert Hex(a)[2 * n] == HEX[a[n] / 16] && Hex(b)[2 * n] == HEX[b[n] / 16];
      assert Hex(a)[2 * n + 1] == HEX[a[n] % 16] && Hex(b)[2 * n + 1] == HEX[b[n] % 16];
      DigitsDiffer(a[n] / 16, b[n] / 16);
      DigitsDiffer(a[n] % 16, b[n] % 16);
      assert a == a[..n] + [a[n]] && b == b[..n] + [b[n]];
    }
  }

  lemma HexSnoc(b: seq<byte>)
    requires b != []
    ensures var n := |b| - 1; Hex(b) == Hex(b[..n]) + [HEX[b[n] / 16], HEX[b[n] % 16]]
  {
  }

  // ----- Sorting -----

  /** Byte-wise lexicographic order, as strings sort. */
  predicate AtMost(a: seq<byte>, b: seq<byte>) {
    a == [] || (b != [] && (a[0] < b[0] || (a[0] == b[0] && AtMost(a[1..], b[1..]))))
  }

  lemma {:induction false} AtMostIsTotal(a: seq<byte>, b: seq<byte>)
    ensures AtMost(a, b) || AtMost(b, a)
    ensures AtMost(a, b) && AtMost(b, a) ==> a == b
  {
    if a != [] && b != [] && a[0] == b[0] {
      AtMostIsTotal(a[1..], b[1..]);
      assert a == [a[0]] + a[1..] && b == [b[0]] + b[1..];
    }
  }

  lemma {:induction false} AtMostIsTransitive(a: seq<byte>, b: seq<byte>, c: seq<byte>)
    requires AtMost(a, b) && AtMost(b, c)
    ensures AtMost(a, c)
  {
    if a != [] && a[0] == b[0] == c[0] {
      AtMostIsTransitive(a[1..], b[1..], c[1..]);
    }
  }

  function Insert(x: seq<byte>, s: seq<seq<byte>>): seq<seq<byte>> {
    if s == [] || AtMost(x, s[0]) then [x] + s else [s[0]] + Insert(x, s[1..])
  }

  function Sort(s: seq<seq<byte>>): seq<seq<byte>> {
    if s == [] then [] else Insert(s[|s| - 1], Sort(s[..|s| - 1]))
  }

  lemma {:induction false} InsertKeeps(x: seq<byte>, s: seq<seq<byte>>)
    ensures multiset(Insert(x, s)) == multiset{x} + multiset(s)
  {
    hide AtMost;
    if s != [] {
      InsertKeeps(x, s[1..]);
      assert s == [s[0]] + s[1..];
    }
  }

  lemma {:induction false} SortKeeps(s: seq<seq<byte>>)
    ensures multiset(Sort(s)) == multiset(s)
  {
    hide Insert;
    if s != [] {
      InsertKeeps(s[|s| - 1], Sort(s[..|s| - 1]));
      SortKeeps(s[..|s| - 1]);
      assert s == s[..|s| - 1] + [s[|s| - 1]];
    }
  }

  lemma InsertBefore(x: seq<byte>, s: seq<seq<byte>>)
    requires s == [] || AtMost(x, s[0])
    ensures Insert(x, s) == [x] + s
  {
  }

  lemma InsertAfter(x: seq<byte>, first: seq<byte>, rest: seq<seq<byte>>)
    requires !AtMost(x, first)
    ensures Insert(x, [first] + rest) == [first] + Insert(x, rest)
  {
    assert ([first] + rest)[1..] == rest;
  }

  lemma {:induction false} OrderedInsertsCommute(x: seq<byte>, y: seq<byte>, s: seq<seq<byte>>)
    requires AtMost(x, y)
    ensures Insert(x, Insert(y, s)) == Insert(y, Insert(x, s))
  {
    hide AtMost, Insert;
    AtMostIsTotal(x, y);
    if s == [] || AtMost(x, s[0]) {
      InsertBefore(x, s);
      if x != y {
        InsertAfter(y, x, s);
        if s == [] || AtMost(y, s[0]) {
          InsertBefore(y, s);
          InsertBefore(x, [y] + s);
        } else {
          InsertAfter(y, s[0], s[1..]);
          assert s == [s[0]] + s[1..];
          InsertBefore(x, Insert(y, s));
        }
      }
    } else {
      if AtMost(y, s[0]) {
        AtMostIsTransitive(x, y, s[0]);
      }
      assert s == [s[0]] + s[1..];
      InsertAfter(x, s[0], s[1..]);
      InsertAfter(y, s[0], s[1..]);
      InsertAfter(x, s[0], Insert(y, s[1..]));
      InsertAfter(y, s[0], Insert(x, s[1..]));
      OrderedInsertsCommute(x, y, s[1..]);
    }
  }

  lemma InsertsCommute(x: seq<byte>, y: seq<byte>, s: seq<seq<byte>>)
    ensures Insert(x, Insert(y, s)) == Insert(y, Insert(x, s))
  {
    hide *;
    AtMostIsTotal(x, y);
    if AtMost(x, y) {
      OrderedInsertsCommute(x, y, s);
    } else {
      OrderedInsertsCommute(y, x, s);
    }
  }

  function Without<T>(s: seq<T>, k: nat): seq<T>
    requires k < |s|
  {
    s[..k] + s[k + 1..]
  }

  lemma Matched<T>(a: seq<T>, j: nat, b: seq<T>, k: nat)
    requires j < |a| && k < |b| && a[j] == b[k]
    ensures multiset(a) == multiset(b) <==> multiset(Without(a, j)) == multiset(Without(b, k))
  {
    assert a == a[..j] + [a[j]] + a[j + 1..];
    assert b == b[..k] + [b[k]] + b[k + 1..];
    assert multiset(a) == multiset(Without(a, j)) + multiset{a[j]};
    assert multiset(b) == multiset(Without(b, k)) + multiset{b[k]};
    assert multiset(Without(a, j)) == multiset(a) - multiset{a[j]};
    assert multiset(Without(b, k)) == multiset(b) - multiset{b[k]};
  }

  lemma Find<T>(x: T, a: seq<T>, b: seq<T>) returns (k: nat)
    requires multiset(a) == multiset(b) && x in a
    ensures k < |b| && b[k] == x
  {
    assert x in multiset(a) && x in multiset(b);
    k :| k < |b| && b[k] == x;
  }

  /** Any element may be inserted last. */
  lemma {:induction false} SortLast(s: seq<seq<byte>>, k: nat)
    requires k < |s|
    ensures Sort(s) == Insert(s[k], Sort(Without(s, k)))
    decreases |s|
  {
    hide Insert;
    var n := |s| - 1;
    if k == n {
      assert Without(s, k) == s[..n];
    } else {
      assert Without(s, k)[..n - 1] == Without(s[..n], k) && Without(s, k)[n - 1] == s[n];
      SortLast(s[..n], k);
      InsertsCommute(s[n], s[k], Sort(Without(s[..n], k)));
    }
  }

  /** The sorted list does not depend on the order of its input. */
  lemma {:induction false} SortIsOrderFree(a: seq<seq<byte>>, b: seq<seq<byte>>)
    requires multiset(a) == multiset(b)
    ensures Sort(a) == Sort(b)
    decreases |a|
  {
    hide Insert;
    SameSize(a, b);
    if a != [] {
      var n := |a| - 1;
      var k := Find(a[n], a, b);
      Matched(a, n, b, k);
      SortIsOrderFree(Without(a, n), Without(b, k));
      SortLast(a, n);
      SortLast(b, k);
    }
  }

  lemma SameSize<T>(a: seq<T>, b: seq<T>)
    requires multiset(a) == multiset(b)
    ensures |a| == |b|
  {
    assert |multiset(a)| == |a| && |multiset(b)| == |b|;
  }

  // ----- Fingerprint and key -----

  /** A rule as it is fingerprinted: its canonical serialization. */
  type Rule = seq<byte>

  function Digests(h: Hash, rules: seq<Rule>): (r: seq<seq<byte>>)
    ensures |r| == |rules|
  {
    seq(|rules|, i requires 0 <= i < |rules| => Hex(h(rules[i])))
  }

  function Lines(pieces: seq<seq<byte>>): seq<byte> {
    if pieces == [] then [] else pieces[0] + [NEWLINE] + Lines(pieces[1..])
  }

  function FingerprintOf(h: Hash, tag: seq<byte>, rules: seq<Rule>): seq<byte> {
    Hex(h(tag + Lines(Sort(Digests(h, rules)))))
  }

  /** Versioned header and embedded pipelines, then the fingerprint. */
  function Key(h: Hash, tag: seq<byte>, header: seq<byte>, rules: seq<Rule>): seq<byte> {
    Hex(h(header + FingerprintOf(h, tag, rules)))
  }

  lemma KeyIsOneLine(h: Hash, tag: seq<byte>, header: seq<byte>, rules: seq<Rule>)
    ensures NEWLINE !in Key(h, tag, header, rules)
  {
    HexIsPrintable(h(header + FingerprintOf(h, tag, rules)));
  }

  ghost predicate OneLine(pieces: seq<seq<byte>>) {
    forall p :: p in pieces ==> NEWLINE !in p
  }

  lemma FirstLine(p: seq<byte>, q: seq<byte>, x: seq<byte>, y: seq<byte>)
    requires NEWLINE !in p && NEWLINE !in q && p + [NEWLINE] + x == q + [NEWLINE] + y
    ensures p == q && x == y
  {
    var a, b := p + [NEWLINE] + x, q + [NEWLINE] + y;
    assert a[|p|] == NEWLINE && b[|q|] == NEWLINE;
    assert forall i :: 0 <= i < |p| ==> a[i] == p[i];
    assert forall i :: 0 <= i < |q| ==> b[i] == q[i];
    assert |p| == |q|;
    assert p == a[..|p|] && q == b[..|q|] && x == a[|p| + 1..] && y == b[|q| + 1..];
  }

  /** One-line pieces are read back from their lines. */
  lemma {:induction false} LinesAreInjective(a: seq<seq<byte>>, b: seq<seq<byte>>)
    requires OneLine(a) && OneLine(b) && Lines(a) == Lines(b)
    ensures a == b
  {
    if a != [] && b != [] {
      FirstLine(a[0], b[0], Lines(a[1..]), Lines(b[1..]));
      LinesAreInjective(a[1..], b[1..]);
      assert a == [a[0]] + a[1..] && b == [b[0]] + b[1..];
    }
  }

  lemma SortedIsOneLine(h: Hash, rules: seq<Rule>)
    ensures OneLine(Sort(Digests(h, rules)))
  {
    hide Hex, Sort;
    var digests := Digests(h, rules);
    SortKeeps(digests);
    forall p | p in Sort(digests) ensures NEWLINE !in p {
      var k := Find(p, Sort(digests), digests);
      HexIsPrintable(h(rules[k]));
    }
  }

  lemma DigestsWithout(h: Hash, a: seq<Rule>, k: nat)
    requires k < |a|
    ensures Digests(h, Without(a, k)) == Without(Digests(h, a), k)
  {
  }

  lemma {:induction false} DigestsReflect(h: Hash, a: seq<Rule>, b: seq<Rule>)
    requires NoCollision(h) && multiset(Digests(h, a)) == multiset(Digests(h, b))
    ensures multiset(a) == multiset(b)
    decreases |a|
  {
    hide Hex, Without;
    SameSize(Digests(h, a), Digests(h, b));
    if a != [] {
      var n := |a| - 1;
      var k := Find(Digests(h, a)[n], Digests(h, a), Digests(h, b));
      HexIsInjective(h(a[n]), h(b[k]));
      Matched(Digests(h, a), n, Digests(h, b), k);
      DigestsWithout(h, a, n);
      DigestsWithout(h, b, k);
      ShorterWithout(a, n);
      DigestsReflect(h, Without(a, n), Without(b, k));
      Matched(a, n, b, k);
    }
  }

  lemma ShorterWithout<T>(s: seq<T>, k: nat)
    requires k < |s|
    ensures |Without(s, k)| == |s| - 1
  {
  }

  lemma {:induction false} DigestsFollow(h: Hash, a: seq<Rule>, b: seq<Rule>)
    requires multiset(a) == multiset(b)
    ensures multiset(Digests(h, a)) == multiset(Digests(h, b))
    decreases |a|
  {
    hide Hex, Without;
    SameSize(a, b);
    if a != [] {
      var n := |a| - 1;
      var k := Find(a[n], a, b);
      Matched(a, n, b, k);
      ShorterWithout(a, n);
      DigestsFollow(h, Without(a, n), Without(b, k));
      DigestsWithout(h, a, n);
      DigestsWithout(h, b, k);
      Matched(Digests(h, a), n, Digests(h, b), k);
    }
  }

  /** Two rule sets share a key exactly when they hold the same rules, in any order. */
  lemma KeyIsTheRuleSet(h: Hash, tag: seq<byte>, header: seq<byte>, a: seq<Rule>, b: seq<Rule>)
    requires NoCollision(h)
    ensures Key(h, tag, header, a) == Key(h, tag, header, b) <==> multiset(a) == multiset(b)
  {
    hide Hex, Sort, Lines, Digests, OneLine;
    var x, y := Sort(Digests(h, a)), Sort(Digests(h, b));
    if multiset(a) == multiset(b) {
      DigestsFollow(h, a, b);
      SortIsOrderFree(Digests(h, a), Digests(h, b));
    }
    if Key(h, tag, header, a) == Key(h, tag, header, b) {
      var f, g := FingerprintOf(h, tag, a), FingerprintOf(h, tag, b);
      HexIsInjective(h(header + f), h(header + g));
      SameTail(header, f, g);
      HexIsInjective(h(tag + Lines(x)), h(tag + Lines(y)));
      SameTail(tag, Lines(x), Lines(y));
      SortedIsOneLine(h, a);
      SortedIsOneLine(h, b);
      LinesAreInjective(x, y);
      SortKeeps(Digests(h, a));
      SortKeeps(Digests(h, b));
      DigestsReflect(h, a, b);
    }
  }

  lemma SameTail<T>(head: seq<T>, a: seq<T>, b: seq<T>)
    requires head + a == head + b
    ensures a == b
  {
    assert a == (head + a)[|head|..] && b == (head + b)[|head|..];
  }
}
