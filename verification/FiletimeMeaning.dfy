/**
 What the text of a timestamp means, second by second and offset by offset, and
 which texts are accepted, said with the digits and the bounds themselves.
 */
module FiletimeMeaning {
  import opened Options
  import opened Bytes
  import opened Calendar
  import opened Filetime
  import opened FiletimeTheorems

  // ----- The clock -----

  /** One second later on the civil clock. */
  function NextSecond(c: Civil): Civil {
    if c.second < 59 then c.(second := c.second + 1)
    else if c.minute < 59 then c.(second := 0, minute := c.minute + 1)
    else if c.hour < 23 then c.(second := 0, minute := 0, hour := c.hour + 1)
    else Civil(NextDay(c.date), 0, 0, 0)
  }

  /** The next second is a second later, across minutes, hours, days, months and years. */
  lemma SecondLater(c: Civil, f: seq<byte>, z: Suffix)
    requires ValidCivil(c) && ValidCivil(NextSecond(c)) && IsFraction(f) && ValidSuffix(z)
    ensures Instant(Render(c, f, z)).Ok? && Instant(Render(NextSecond(c), f, z)).Ok?
    ensures Instant(Render(NextSecond(c), f, z)).value == Instant(Render(c, f, z)).value + 1_000_000_000
  {
    hide DayNumber, Render, Instant, Valid, NextDay, FractionValue, Seconds;
    RenderBack(c, f, z);
    RenderBack(NextSecond(c), f, z);
    if c.hour >= 23 && c.minute >= 59 && c.second >= 59 {
      DayNumberNext(c.date);
    }
  }

  /** The offset of `k` minutes, east of Greenwich when positive. */
  function Minutes(k: int): Suffix
    requires -1439 <= k <= 1439
    ensures ValidSuffix(Minutes(k))
  {
    if k < 0 then Offset(true, (-k) / 60, (-k) % 60) else Offset(false, k / 60, k % 60)
  }

  /** One more minute of eastern offset puts the same local time a minute earlier; no offset is UTC. */
  lemma MinuteEast(c: Civil, f: seq<byte>, k: int)
    requires ValidCivil(c) && IsFraction(f) && -1439 <= k < 1439
    ensures Instant(Render(c, f, Minutes(k))).Ok? && Instant(Render(c, f, Minutes(k + 1))).Ok?
    ensures Instant(Render(c, f, Minutes(k + 1))).value == Instant(Render(c, f, Minutes(k))).value - 60_000_000_000
    ensures Instant(Render(c, f, Minutes(0))) == Instant(Render(c, f, Utc))
  {
    hide DayNumber, Render, Instant, ValidCivil, FractionValue;
    RenderBack(c, f, Minutes(k));
    RenderBack(c, f, Minutes(k + 1));
    RenderBack(c, f, Minutes(0));
    RenderBack(c, f, Utc);
    MinutesSeconds(k);
    MinutesSeconds(k + 1);
    MinutesSeconds(0);
    hide Seconds, Minutes;
  }

  lemma MinutesSeconds(k: int)
    requires -1439 <= k <= 1439
    ensures Seconds(Minutes(k)) == 60 * k
  {
  }

  /** The place value of the i-th digit after the point, as far as nanoseconds go. */
  function Digit(f: seq<byte>, i: nat): int { if i < |f| then f[i] as int - 48 else 0 }

  function Nanoseconds(f: seq<byte>): int {
    Digit(f, 1) * 100_000_000 + Digit(f, 2) * 10_000_000 + Digit(f, 3) * 1_000_000 + Digit(f, 4) * 100_000
    + Digit(f, 5) * 10_000 + Digit(f, 6) * 1000 + Digit(f, 7) * 100 + Digit(f, 8) * 10 + Digit(f, 9)
  }

  /** A fraction adds its digits, from tenths of a second to nanoseconds; more of them are ignored. */
  lemma FractionAdds(c: Civil, f: seq<byte>, z: Suffix)
    requires ValidCivil(c) && IsFraction(f) && ValidSuffix(z)
    ensures Instant(Render(c, f, z)).Ok? && Instant(Render(c, [], z)).Ok?
    ensures Instant(Render(c, f, z)).value == Instant(Render(c, [], z)).value + Nanoseconds(f)
  {
    hide DayNumber, Render, Instant, ValidCivil, FractionValue, Nanoseconds, Seconds;
    RenderBack(c, f, z);
    RenderBack(c, [], z);
    FractionDigits(f);
    FractionDigits([]);
    NoDigitsAfter();
  }

  lemma NoDigitsAfter()
    ensures Nanoseconds([]) == 0
  {
  }

  /** 1970-01-01T00:00:00Z is the origin. */
  lemma OriginIsZero()
    ensures Instant([49, 57, 55, 48, 45, 48, 49, 45, 48, 49, 84, 48, 48, 58, 48, 48, 58, 48, 48, 90]) == Ok(0)
  {
    hide *;
    var c := Civil(UNIX_EPOCH, 0, 0, 0);
    OriginText(c);
    OriginCounts(c);
    RenderBack(c, [], Utc);
  }

  lemma OriginCounts(c: Civil)
    requires c == Civil(UNIX_EPOCH, 0, 0, 0)
    ensures IsFraction([]) && ValidSuffix(Utc) && InstantNs(c, FractionValue([]), Seconds(Utc)) == 0
  {
    hide DayNumber;
    EpochDays();
  }

  lemma OriginText(c: Civil)
    requires c == Civil(UNIX_EPOCH, 0, 0, 0)
    ensures ValidCivil(c)
    ensures Render(c, [], Utc) == [49, 57, 55, 48, 45, 48, 49, 45, 48, 49, 84, 48, 48, 58, 48, 48, 58, 48, 48, 90]
  {
    hide Two;
    OriginDigits();
    hide ReadTwo;
    assert Stem(c) == [49, 57, 55, 48, 45, 48, 49, 45, 48, 49, 84, 48, 48, 58, 48, 48, 58, 48, 48];
  }

  lemma OriginDigits()
    ensures Two(19) == [49, 57] && Two(70) == [55, 48] && Two(1) == [48, 49] && Two(0) == [48, 48]
  {
  }

  /** The digits up to the k-th, each at its place. */
  function Places(f: seq<byte>, k: nat): int
    requires k <= 9
  {
    if k == 0 then 0 else Places(f, k - 1) + Digit(f, k) * Pow10(9 - k)
  }

  lemma {:induction false} ScaledIsPlaces(f: seq<byte>, k: nat)
    requires IsFraction(f) && k <= 9 && k < |f|
    ensures Decimal(f[1..1 + k]) * Pow10(9 - k) == Places(f, k)
  {
    if k > 0 {
      ScaledIsPlaces(f, k - 1);
      assert f[1..1 + k][..k - 1] == f[1..k];
      Shifts(Decimal(f[1..k]), f[k] - 48, Pow10(9 - k));
    }
  }

  lemma Shifts(a: nat, d: int, p: nat)
    ensures (a * 10 + d) * p == a * (10 * p) + d * p
  {
  }

  lemma {:induction false} NothingBehind(f: seq<byte>, k: nat, j: nat)
    requires k <= j <= 9 && |f| <= k + 1
    ensures Places(f, j) == Places(f, k)
  {
    if k < j {
      NothingBehind(f, k, j - 1);
    }
  }

  lemma AllPlaces(f: seq<byte>)
    ensures Places(f, 9) == Nanoseconds(f)
  {
    assert Pow10(0) == 1 && Pow10(1) == 10 && Pow10(2) == 100 && Pow10(3) == 1000 && Pow10(4) == 10_000;
    assert Pow10(5) == 100_000 && Pow10(6) == 1_000_000 && Pow10(7) == 10_000_000 && Pow10(8) == 100_000_000;
    hide Pow10, Digit;
    PlacesNext(f, 1);
    PlacesNext(f, 2);
    PlacesNext(f, 3);
    PlacesNext(f, 4);
    PlacesNext(f, 5);
    PlacesNext(f, 6);
    PlacesNext(f, 7);
    PlacesNext(f, 8);
    PlacesNext(f, 9);
    assert Places(f, 0) == 0;
    hide Places;
  }

  lemma PlacesNext(f: seq<byte>, k: nat)
    requires 1 <= k <= 9
    ensures Places(f, k) == Places(f, k - 1) + Digit(f, k) * Pow10(9 - k)
  {
  }

  lemma FractionDigits(f: seq<byte>)
    requires IsFraction(f)
    ensures FractionValue(f) == Nanoseconds(f)
  {
    AllPlaces(f);
    hide Nanoseconds, Places, Pow10, Decimal;
    if f != [] {
      var k := if |f| - 1 < 9 then |f| - 1 else 9;
      ScaledIsPlaces(f, k);
      if k < 9 {
        NothingBehind(f, k, 9);
      }
    } else {
      NoDigitsAfter();
    }
  }

  // ----- Acceptance -----

  ghost predicate Numeral(b: byte) { 48 <= b <= 57 }

  ghost function Two10(x: byte, y: byte): int { (x as int - 48) * 10 + (y as int - 48) }

  /** How long a month is, in years of the Gregorian rule. */
  ghost function MonthDays(y: int, m: int): int {
    if m == 2 then (if y % 4 == 0 && (y % 100 != 0 || y % 400 == 0) then 29 else 28)
    else if m == 4 || m == 6 || m == 9 || m == 11 then 30
    else 31
  }

  /** The date and time of a text are accepted exactly when its digits are digits and within these bounds. */
  lemma DateAccepted(b: seq<byte>)
    requires |b| >= 19
    ensures ReadCivil(b).Some? <==>
      && Numeral(b[0]) && Numeral(b[1]) && Numeral(b[2]) && Numeral(b[3]) && Numeral(b[5]) && Numeral(b[6])
      && Numeral(b[8]) && Numeral(b[9]) && Numeral(b[11]) && Numeral(b[12]) && Numeral(b[14]) && Numeral(b[15])
      && Numeral(b[17]) && Numeral(b[18])
      && 1 <= Two10(b[5], b[6]) <= 12
      && 1 <= Two10(b[8], b[9]) <= MonthDays(Two10(b[0], b[1]) * 100 + Two10(b[2], b[3]), Two10(b[5], b[6]))
      && Two10(b[11], b[12]) <= 23 && Two10(b[14], b[15]) <= 59 && Two10(b[17], b[18]) <= 59
    ensures ReadCivil(b).Some? ==>
      ReadCivil(b).value == Civil(Date(Two10(b[0], b[1]) * 100 + Two10(b[2], b[3]), Two10(b[5], b[6]),
                                       Two10(b[8], b[9])),
                                  Two10(b[11], b[12]), Two10(b[14], b[15]), Two10(b[17], b[18]))
  {
    hide Valid;
    TwoDigits(b, 0);
    TwoDigits(b, 2);
    TwoDigits(b, 5);
    TwoDigits(b, 8);
    TwoDigits(b, 11);
    TwoDigits(b, 14);
    TwoDigits(b, 17);
    if forall i :: i in {0, 2, 5, 8, 11, 14, 17} ==> ReadTwo(b, i).Some? {
      DateBounds(Date(Two10(b[0], b[1]) * 100 + Two10(b[2], b[3]), Two10(b[5], b[6]), Two10(b[8], b[9])));
    }
    hide ReadTwo, Two10, Numeral, MonthDays;
  }

  lemma TwoDigits(b: seq<byte>, i: nat)
    requires i + 2 <= |b|
    ensures ReadTwo(b, i).Some? <==> Numeral(b[i]) && Numeral(b[i + 1])
    ensures ReadTwo(b, i).Some? ==> ReadTwo(b, i).value == Two10(b[i], b[i + 1]) && 0 <= Two10(b[i], b[i + 1]) <= 99
  {
  }

  lemma DateBounds(t: Date)
    ensures Valid(t) <==> 1 <= t.month <= 12 && 1 <= t.day <= MonthDays(t.year, t.month)
  {
  }

  /** What may follow date, time and fraction when a zone marker comes next. */
  ghost predicate EndsZone(t: seq<byte>)
    requires t != []
  {
    if t[0] == 90 || t[0] == 122 then |t| == 1
    else
      && |t| == 6 && t[3] == 58 && Numeral(t[1]) && Numeral(t[2]) && Numeral(t[4]) && Numeral(t[5])
      && Two10(t[1], t[2]) <= 23 && Two10(t[4], t[5]) <= 59
  }

  /** `Z` or `z` must end the text; a sign must be followed by hours up to 23, a colon and minutes up to 59. */
  lemma ZoneAccepted(c: Civil, f: seq<byte>, t: seq<byte>)
    requires ValidCivil(c) && IsFraction(f) && t != [] && t[0] in {90, 122, 43, 45}
    ensures Instant(Stem(c) + f + t).Ok? <==> EndsZone(t)
    ensures t == [122] ==> Instant(Stem(c) + f + t) == Instant(Render(c, f, Utc))
  {
    hide *;
    var b, p := Stem(c) + f + t, 19 + |f|;
    TailParts(c, f, t);
    CivilBack(c, b);
    MarkersAre(t[0]);
    FirstTAt(b, 0, 10);
    ZoneSkips(b, 10, 10, p);
    ZoneAtMarker(b, 10, p);
    ZoneDecides(b, p, t);
    InstantDecides(b, c);
    if t == [122] {
      FractionBack(b, f, p);
      LowerZ(b, p);
      InstantIs(b, c, 0);
      UtcSeconds();
      RenderBack(c, f, Utc);
    }
  }

  lemma UtcSeconds()
    ensures Seconds(Utc) == 0 && ValidSuffix(Utc)
  {
  }

  lemma TailParts(c: Civil, f: seq<byte>, t: seq<byte>)
    requires ValidCivil(c) && IsFraction(f) && t != [] && t[0] in {90, 122, 43, 45}
    ensures var b, p := Stem(c) + f + t, 19 + |f|;
            && p < |b| && b[p..] == t && b[p] == t[0] && b[19..p] == f && b[p] != 46 && !IsDigit(b[p]) && b[10] == 84
            && (forall i :: 0 <= i < 19 ==> b[i] == Stem(c)[i]) && (forall i :: 0 <= i < 10 ==> b[i] != 84)
            && (forall i :: 10 <= i < p ==> !IsMarker(b[i]))
  {
    hide Stem;
    StemBytes(c);
    var b, p := Stem(c) + f + t, 19 + |f|;
    assert forall i :: 19 <= i < p ==> b[i] == f[i - 19];
    hide ReadTwo;
  }

  lemma MarkersAre(x: byte)
    ensures IsMarker(x) <==> x in {90, 122, 43, 45}
  {
  }

  lemma ZoneDecides(b: seq<byte>, p: nat, t: seq<byte>)
    requires p < |b| && b[p..] == t && t[0] in {90, 122, 43, 45}
    ensures IsMarker(b[p]) && (ZoneAt(b, p).Some? && ZoneAt(b, p).value.end == |b| <==> EndsZone(t))
  {
    assert |t| == |b| - p && forall i :: 0 <= i < |t| ==> b[p + i] == t[i];
    if |t| >= 6 {
      assert b[p + 3] == t[3];
      TwoDigits(b, p + 1);
      TwoDigits(b, p + 4);
      assert b[p + 1] == t[1] && b[p + 2] == t[2] && b[p + 4] == t[4] && b[p + 5] == t[5];
    }
    hide ReadTwo, Two10, Numeral;
  }

  lemma LowerZ(b: seq<byte>, p: nat)
    requires p < |b| && b[p..] == [122]
    ensures IsMarker(b[p]) && ZoneAt(b, p) == Some(Zone(0, |b|))
  {
    assert b[p] == b[p..][0] && |b| == p + 1;
  }

  lemma InstantDecides(b: seq<byte>, c: Civil)
    requires |b| >= 19 && ReadCivil(b) == Some(c)
    ensures var zone := ZoneFrom(b, FirstT(b, 0), FirstT(b, 0));
            Instant(b).Ok? <==> zone.Some? && zone.value.end == |b|
  {
    hide ReadCivil, ZoneFrom, FirstT, FractionNs, InstantNs;
  }
}
