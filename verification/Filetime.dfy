/**
 `SystemTime` text to FILETIME (section 2.3.3 of MS-DTYP): the accepted spellings,
 the loops that scan the fraction and the zone, and the epoch arithmetic as the
 program has it.
 */
module Filetime {
  import opened Options
  import opened Bytes
  import opened Calendar

  datatype TimeError = Malformed | Trailing | BeforeRange
  datatype Result<+T> = Ok(value: T) | Err(error: TimeError)

  datatype Civil = Civil(date: Date, hour: int, minute: int, second: int)
  datatype Zone = Zone(offset: int, end: nat)

  predicate IsDigit(b: byte) { 48 <= b <= 57 }

  predicate ValidCivil(c: Civil) {
    Valid(c.date) && 0 <= c.date.year <= 9999 && 0 <= c.hour <= 23 && 0 <= c.minute <= 59 && 0 <= c.second <= 59
  }

  // ----- Reading the fixed part -----

  function ReadTwo(b: seq<byte>, i: nat): Option<nat>
    requires i + 2 <= |b|
  {
    if IsDigit(b[i]) && IsDigit(b[i + 1]) then Some(Value(b[i]) * 10 + Value(b[i + 1])) else None
  }

  /** The separators between the fields are not looked at. */
  function ReadCivil(b: seq<byte>): Option<Civil>
    requires |b| >= 19
  {
    var c, y, m, d := ReadTwo(b, 0), ReadTwo(b, 2), ReadTwo(b, 5), ReadTwo(b, 8);
    var h, mi, s := ReadTwo(b, 11), ReadTwo(b, 14), ReadTwo(b, 17);
    if c.None? || y.None? || m.None? || d.None? || h.None? || mi.None? || s.None? then None
    else
      var civil := Civil(Date(c.value * 100 + y.value, m.value, d.value), h.value, mi.value, s.value);
      if ValidCivil(civil) then Some(civil) else None
  }

  // ----- Fraction -----

  function Pow10(n: nat): nat { if n == 0 then 1 else 10 * Pow10(n - 1) }

  /** Number of leading digits of `b` from `i` on, at most `n`. */
  function Digits(b: seq<byte>, i: nat, n: nat): (k: nat)
    requires i <= |b|
    ensures k <= n && i + k <= |b|
    decreases n
  {
    if n == 0 || i == |b| || !IsDigit(b[i]) then 0 else 1 + Digits(b, i + 1, n - 1)
  }

  function Value(b: byte): nat
    requires IsDigit(b)
  {
    b - 48
  }

  function Decimal(s: seq<byte>): nat
    requires forall i :: 0 <= i < |s| ==> IsDigit(s[i])
  {
    if s == [] then 0 else Decimal(s[..|s| - 1]) * 10 + Value(s[|s| - 1])
  }

  lemma {:induction false} DigitsAreDigits(b: seq<byte>, i: nat, n: nat)
    requires i <= |b|
    ensures forall j :: i <= j < i + Digits(b, i, n) ==> IsDigit(b[j])
    ensures Digits(b, i, n) < n && i + Digits(b, i, n) < |b| ==> !IsDigit(b[i + Digits(b, i, n)])
    decreases n
  {
    if n != 0 && i != |b| && IsDigit(b[i]) {
      DigitsAreDigits(b, i + 1, n - 1);
    }
  }

  /** The first nine digits after the point, read as nanoseconds. */
  function FractionNs(b: seq<byte>): nat {
    if |b| > 19 && b[19] == 46 then
      var k := Digits(b, 20, 9);
      DigitsAreDigits(b, 20, 9);
      Decimal(b[20..20 + k]) * Pow10(9 - k)
    else 0
  }

  lemma {:induction false} DecimalBound(s: seq<byte>)
    requires forall i :: 0 <= i < |s| ==> IsDigit(s[i])
    ensures Decimal(s) < Pow10(|s|)
  {
    if s != [] {
      DecimalBound(s[..|s| - 1]);
    }
  }

  lemma {:induction false} PowSplit(a: nat, b: nat)
    ensures Pow10(a) * Pow10(b) == Pow10(a + b) && Pow10(a) >= 1
  {
    if a > 0 {
      PowSplit(a - 1, b);
      assert Pow10(a) * Pow10(b) == 10 * (Pow10(a - 1) * Pow10(b));
    }
  }

  lemma PowNine()
    ensures Pow10(9) == 1_000_000_000
  {
    assert Pow10(3) == 1000;
    PowSplit(3, 3);
    PowSplit(6, 3);
  }

  /** At most nine digits, scaled to nine, stay below one second. */
  lemma ScaledBelowSecond(s: seq<byte>)
    requires |s| <= 9 && forall i :: 0 <= i < |s| ==> IsDigit(s[i])
    ensures Decimal(s) * Pow10(9 - |s|) < 1_000_000_000 && Pow10(9 - |s|) <= 1_000_000_000
  {
    DecimalBound(s);
    PowSplit(|s|, 9 - |s|);
    PowNine();
    Scale(Decimal(s), Pow10(|s|), Pow10(9 - |s|));
  }

  lemma Scale(a: nat, b: nat, c: nat)
    requires a < b && c >= 1
    ensures a * c < b * c && c <= b * c
  {
    Grows(b - a, c);
    Grows(b, c);
    assert (b - a) * c == b * c - a * c;
  }

  lemma Grows(a: nat, c: nat)
    requires a >= 1 && c >= 1
    ensures a <= a * c && c <= a * c
  {
  }

  /** One more digit is accumulated without leaving 32 bits. */
  lemma FractionStep(b: seq<byte>, k: nat)
    requires k < 9 && 20 + k < |b| && forall j :: 20 <= j <= 20 + k ==> IsDigit(b[j])
    ensures Decimal(b[20..20 + k + 1]) == Decimal(b[20..20 + k]) * 10 + Value(b[20 + k]) < 1_000_000_000
  {
    assert b[20..20 + k + 1][..k] == b[20..20 + k];
    ScaledBelowSecond(b[20..20 + k + 1]);
    PowSplit(9 - (k + 1), 0);
    if Decimal(b[20..20 + k + 1]) >= 1 {
      Grows(Decimal(b[20..20 + k + 1]), Pow10(9 - (k + 1)));
    }
  }

  lemma NoDigits()
    ensures Decimal([]) == 0
  {
  }

  /** The 32-bit accumulator never overflows and the result is below one second. */
  method ParseFractionNs(b: seq<byte>) returns (r: u32)
    ensures r == FractionNs(b) && r < 1_000_000_000
  {
    r := 0;
    if |b| > 19 && b[19] == 46 {
      hide Decimal, Digits, Pow10, FractionNs;
      var fraction, digits := ScanDigits(b);
      FractionIs(b, digits);
      r := if digits < 9 then fraction * Pow10(9 - digits) else fraction;
    }
  }

  method ScanDigits(b: seq<byte>) returns (fraction: u32, digits: u32)
    requires |b| > 19
    ensures digits == Digits(b, 20, 9) && forall j :: 20 <= j < 20 + digits ==> IsDigit(b[j])
    ensures fraction == Decimal(b[20..20 + digits])
  {
    hide Decimal, Digits;
    ghost var n := Digits(b, 20, 9);
    DigitsAreDigits(b, 20, 9);
    NoDigits();
    fraction, digits := 0, 0;
    assert b[20..20] == [];
    while digits < 9 && 20 + digits < |b| && IsDigit(b[20 + digits])
      invariant digits <= n
      invariant fraction == Decimal(b[20..20 + digits]) && fraction < 1_000_000_000
    {
      FractionStep(b, digits);
      fraction := fraction * 10 + Value(b[20 + digits]);
      digits := digits + 1;
    }
  }

  lemma FractionIs(b: seq<byte>, digits: nat)
    requires |b| > 19 && b[19] == 46 && digits == Digits(b, 20, 9)
    ensures var f := Decimal(b[20..20 + digits]);
            && FractionNs(b) == (if digits < 9 then f * Pow10(9 - digits) else f) < 1_000_000_000
            && Pow10(9 - digits) <= 1_000_000_000
  {
    DigitsAreDigits(b, 20, 9);
    ScaledBelowSecond(b[20..20 + digits]);
    hide Decimal, Digits;
    assert Pow10(0) == 1;
  }

  // ----- Zone -----

  function FirstT(b: seq<byte>, i: nat): (r: nat)
    requires i <= |b|
    ensures i <= r <= |b|
    decreases |b| - i
  {
    if i == |b| || b[i] == 84 then i else FirstT(b, i + 1)
  }

  predicate IsMarker(x: byte) { x == 90 || x == 122 || x == 43 || x == 45 }

  function ZoneAt(b: seq<byte>, i: nat): Option<Zone>
    requires i < |b| && IsMarker(b[i])
  {
    if b[i] == 90 || b[i] == 122 then Some(Zone(0, i + 1))
    else if |b| < i + 6 || b[i + 3] != 58 then None
    else
      var h, m := ReadTwo(b, i + 1), ReadTwo(b, i + 4);
      if h.None? || m.None? || h.value > 23 || m.value > 59 then None
      else
        var secs := h.value * 3600 + m.value * 60;
        Some(Zone(if b[i] == 45 then -secs else secs, i + 6))
  }

  /** The first zone marker at or after `i`; without one the zone ends where it started. */
  function ZoneFrom(b: seq<byte>, start: nat, i: nat): Option<Zone>
    requires i <= |b|
    decreases |b| - i
  {
    if i == |b| then Some(Zone(0, start))
    else if IsMarker(b[i]) then ZoneAt(b, i)
    else ZoneFrom(b, start, i + 1)
  }

  method ParseTimezone(b: seq<byte>) returns (r: Option<Zone>)
    ensures r == ZoneFrom(b, FirstT(b, 0), FirstT(b, 0))
  {
    var start := 0;
    while start < |b| && b[start] != 84
      invariant start <= |b| && FirstT(b, start) == FirstT(b, 0)
    {
      start := start + 1;
    }
    var i := start;
    while i < |b|
      invariant start <= i <= |b| && ZoneFrom(b, start, i) == ZoneFrom(b, start, start)
    {
      if b[i] == 90 || b[i] == 122 {
        return Some(Zone(0, i + 1));
      }
      if b[i] == 43 || b[i] == 45 {
        if |b| < i + 6 || b[i + 3] != 58 {
          return None;
        }
        var h, m := ReadTwo(b, i + 1), ReadTwo(b, i + 4);
        if h.None? || m.None? || h.value > 23 || m.value > 59 {
          return None;
        }
        var offset: int := h.value * 3600 + m.value * 60;
        if b[i] == 45 {
          offset := -offset;
        }
        return Some(Zone(offset, i + 6));
      }
      i := i + 1;
    }
    r := Some(Zone(0, start));
  }

  // ----- The instant and its tick count -----

  /** Nanoseconds since 1970-01-01T00:00:00Z. */
  function InstantNs(c: Civil, fraction: nat, offset: int): int {
    (DayNumber(c.date) * 86400 + c.hour * 3600 + c.minute * 60 + c.second) * 1_000_000_000
    + fraction - offset * 1_000_000_000
  }

  /** The instant a text denotes, or why it denotes none. */
  function Instant(b: seq<byte>): Result<int> {
    if |b| < 19 then Err(Malformed)
    else
      var civil, zone := ReadCivil(b), ZoneFrom(b, FirstT(b, 0), FirstT(b, 0));
      if civil.None? || zone.None? then Err(Malformed)
      else if zone.value.end != |b| then Err(Trailing)
      else Ok(InstantNs(civil.value, FractionNs(b), zone.value.offset))
  }

  // As in the program: a count of 100-ns ticks, used there as nanoseconds.
  const EPOCH_DELTA := 116_444_736_000_000_000
  const TICKS_PER_DAY := 864_000_000_000
  // By how much the program's value is short.
  const SHORTFALL := 115_280_288_640_000_000

  /** Section 2.3.3 of MS-DTYP: 100-ns intervals since 1601-01-01T00:00:00Z. */
  function TrueTicks(ns: int): int {
    ns / 100 - DayNumber(FILETIME_EPOCH) * TICKS_PER_DAY
  }

  /** The program's formula, with the epoch delta as a parameter. */
  function Ticks(ns: int, delta: int): int { (ns + delta) / 100 }

  function FiletimeOf(b: seq<byte>): Result<int> {
    if Instant(b).Err? then Err(Instant(b).error)
    else
      var ticks := Ticks(Instant(b).value, EPOCH_DELTA);
      if ticks < 0 then Err(BeforeRange) else Ok(ticks)
  }

  /** Every accepted value fits 64 bits. */
  method SystemTimeToFiletime(b: seq<byte>) returns (r: Result<u64>)
    ensures r == FiletimeOf(b)
  {
    hide DayNumber, FractionNs, ZoneFrom;
    if |b| < 19 {
      return Err(Malformed);
    }
    var civil := ReadCivil(b);
    if civil.None? {
      return Err(Malformed);
    }
    var fraction := ParseFractionNs(b);
    var zone := ParseTimezone(b);
    if zone.None? {
      return Err(Malformed);
    }
    if zone.value.end != |b| {
      return Err(Trailing);
    }
    var ticks := Ticks(InstantNs(civil.value, fraction, zone.value.offset), EPOCH_DELTA);
    if ticks < 0 {
      return Err(BeforeRange);
    }
    TicksFit(b);
    r := Ok(ticks);
  }

  lemma {:induction false} ZoneOffsetBound(b: seq<byte>, start: nat, i: nat)
    requires i <= |b| && ZoneFrom(b, start, i).Some?
    ensures -86400 < ZoneFrom(b, start, i).value.offset < 86400
    decreases |b| - i
  {
    if i < |b| && !IsMarker(b[i]) {
      ZoneOffsetBound(b, start, i + 1);
    }
  }

  lemma DayNumberBound(t: Date)
    requires Valid(t) && 0 <= t.year <= 9999
    ensures -719_529 <= DayNumber(t) <= 2_932_897
  {
  }

  lemma TicksFit(b: seq<byte>)
    requires Instant(b).Ok? && Ticks(Instant(b).value, EPOCH_DELTA) >= 0
    ensures Ticks(Instant(b).value, EPOCH_DELTA) < 0x1_0000_0000_0000_0000
  {
    hide DayNumber, FractionNs, ZoneFrom;
    var civil := ReadCivil(b).value;
    DayNumberBound(civil.date);
    ZoneOffsetBound(b, FirstT(b, 0), FirstT(b, 0));
    FractionBound(b);
  }

  lemma FractionBound(b: seq<byte>)
    ensures FractionNs(b) < 1_000_000_000
  {
    if |b| > 19 && b[19] == 46 {
      DigitsAreDigits(b, 20, 9);
      ScaledBelowSecond(b[20..20 + Digits(b, 20, 9)]);
    }
  }
}
