/**
 What the timestamp conversion gets right, and by exactly how much it is wrong.
 */
module FiletimeTheorems {
  import opened Options
  import opened Bytes
  import opened Calendar
  import opened Filetime

  // ----- The epoch constant -----

  /** The constant is the distance of the epochs in ticks, not in nanoseconds. */
  lemma EpochDeltaIsInTicks()
    ensures EPOCH_DELTA == CountDays(FILETIME_EPOCH, UNIX_EPOCH) * TICKS_PER_DAY
    ensures TrueTicks(0) == EPOCH_DELTA
  {
    hide CountDays, DayNumber;
    EpochDays();
    DayNumberCounts(FILETIME_EPOCH, UNIX_EPOCH);
  }

  lemma EpochDays()
    ensures DayNumber(FILETIME_EPOCH) == -134774 && DayNumber(UNIX_EPOCH) == 0
  {
    assert 1600 / 400 == 4 && 1969 / 400 == 4 && 369 / 4 == 92 && 369 / 100 == 3;
  }

  /** As written the result is short by a constant; with the delta in nanoseconds it is right. */
  lemma Shortfall(ns: int)
    ensures Ticks(ns, EPOCH_DELTA) == TrueTicks(ns) - SHORTFALL
    ensures Ticks(ns, EPOCH_DELTA * 100) == TrueTicks(ns)
  {
    EpochDays();
  }

  /**
   A well-formed timestamp is accepted exactly when its true tick count reaches
   the shortfall, and the value returned is then below the true one by just that.
   */
  lemma ProgramValue(b: seq<byte>)
    requires Instant(b).Ok?
    ensures FiletimeOf(b).Ok? <==> TrueTicks(Instant(b).value) >= SHORTFALL
    ensures FiletimeOf(b).Ok? ==> FiletimeOf(b).value == TrueTicks(Instant(b).value) - SHORTFALL
    ensures FiletimeOf(b).Err? ==> FiletimeOf(b).error == BeforeRange
  {
    Shortfall(Instant(b).value);
  }

  /** One instant has one FILETIME however it is spelled, and later instants never get smaller values. */
  lemma DependsOnInstantOnly(a: seq<byte>, b: seq<byte>)
    requires Instant(a).Ok? && Instant(b).Ok?
    ensures Instant(a).value == Instant(b).value ==> FiletimeOf(a) == FiletimeOf(b)
    ensures Instant(a).value <= Instant(b).value && FiletimeOf(a).Ok?
            ==> FiletimeOf(b).Ok? && FiletimeOf(a).value <= FiletimeOf(b).value
    ensures Instant(a).value + 100 <= Instant(b).value && FiletimeOf(a).Ok?
            ==> FiletimeOf(b).Ok? && FiletimeOf(a).value < FiletimeOf(b).value
  {
  }

  // ----- Spellings -----

  datatype Suffix = Utc | Offset(west: bool, hours: int, minutes: int)

  predicate ValidSuffix(z: Suffix) {
    z.Offset? ==> 0 <= z.hours <= 23 && 0 <= z.minutes <= 59
  }

  function Seconds(z: Suffix): int {
    match z
    case Utc => 0
    case Offset(west, h, m) => if west then -(h * 3600 + m * 60) else h * 3600 + m * 60
  }

  function Two(n: int): (r: seq<byte>)
    requires 0 <= n <= 99
    ensures |r| == 2 && IsDigit(r[0]) && IsDigit(r[1]) && ReadTwo(r, 0) == Some(n)
  {
    [48 + n / 10, 48 + n % 10]
  }

  /** `YYYY-MM-DDTHH:MM:SS`. */
  function Stem(c: Civil): (r: seq<byte>)
    requires ValidCivil(c)
    ensures |r| == 19
  {
    Two(c.date.year / 100) + Two(c.date.year % 100) + [45] + Two(c.date.month) + [45] + Two(c.date.day)
    + [84] + Two(c.hour) + [58] + Two(c.minute) + [58] + Two(c.second)
  }

  function ZoneText(z: Suffix): (r: seq<byte>)
    requires ValidSuffix(z)
  {
    match z
    case Utc => [90]
    case Offset(west, h, m) => [if west then 45 else 43] + Two(h) + [58] + Two(m)
  }

  /** A fraction is absent or a point with any number of digits. */
  predicate IsFraction(f: seq<byte>) {
    f == [] || (f[0] == 46 && forall i :: 1 <= i < |f| ==> IsDigit(f[i]))
  }

  function Render(c: Civil, f: seq<byte>, z: Suffix): seq<byte>
    requires ValidCivil(c) && IsFraction(f) && ValidSuffix(z)
  {
    Stem(c) + f + ZoneText(z)
  }

  /** The first nine digits after the point, padded with zeros. */
  function FractionValue(f: seq<byte>): nat
    requires IsFraction(f)
  {
    if f == [] then 0
    else
      var k := if |f| - 1 < 9 then |f| - 1 else 9;
      Decimal(f[1..1 + k]) * Pow10(9 - k)
  }

  lemma StemBytes(c: Civil)
    requires ValidCivil(c)
    ensures var s := Stem(c);
            && ReadTwo(s, 0) == Some(c.date.year / 100) && ReadTwo(s, 2) == Some(c.date.year % 100)
            && ReadTwo(s, 5) == Some(c.date.month) && ReadTwo(s, 8) == Some(c.date.day)
            && ReadTwo(s, 11) == Some(c.hour) && ReadTwo(s, 14) == Some(c.minute) && ReadTwo(s, 17) == Some(c.second)
    ensures forall i :: 0 <= i < 19 ==> (Stem(c)[i] == 84 <==> i == 10)
    ensures forall i :: 10 <= i < 19 ==> !IsMarker(Stem(c)[i])
  {
    hide *;
    StemFields(c);
    StemMarks(c);
  }

  lemma StemFields(c: Civil)
    requires ValidCivil(c)
    ensures var s := Stem(c);
            && ReadTwo(s, 0) == Some(c.date.year / 100) && ReadTwo(s, 2) == Some(c.date.year % 100)
            && ReadTwo(s, 5) == Some(c.date.month) && ReadTwo(s, 8) == Some(c.date.day)
            && ReadTwo(s, 11) == Some(c.hour) && ReadTwo(s, 14) == Some(c.minute) && ReadTwo(s, 17) == Some(c.second)
  {
    StemParts(c);
    hide Stem, ReadTwo;
    TwoAt(Stem(c), 0, c.date.year / 100);
    TwoAt(Stem(c), 2, c.date.year % 100);
    TwoAt(Stem(c), 5, c.date.month);
    TwoAt(Stem(c), 8, c.date.day);
    TwoAt(Stem(c), 11, c.hour);
    TwoAt(Stem(c), 14, c.minute);
    TwoAt(Stem(c), 17, c.second);
  }

  lemma TwoAt(s: seq<byte>, i: nat, n: nat)
    requires n <= 99 && i + 2 <= |s| && s[i..i + 2] == Two(n)
    ensures ReadTwo(s, i) == Some(n)
  {
    assert s[i..i + 2][0] == s[i] && s[i..i + 2][1] == s[i + 1];
  }

  lemma StemParts(c: Civil)
    requires ValidCivil(c)
    ensures var s := Stem(c);
            && s[0..2] == Two(c.date.year / 100) && s[2..4] == Two(c.date.year % 100)
            && s[5..7] == Two(c.date.month) && s[8..10] == Two(c.date.day)
            && s[11..13] == Two(c.hour) && s[14..16] == Two(c.minute) && s[17..19] == Two(c.second)
  {
    hide Two, ReadTwo;
  }

  lemma StemMarks(c: Civil)
    requires ValidCivil(c)
    ensures forall i :: 0 <= i < 19 ==> (Stem(c)[i] == 84 <==> i == 10)
    ensures forall i :: 10 <= i < 19 ==> !IsMarker(Stem(c)[i])
  {
  }

  lemma ReadTwoFrom(a: seq<byte>, b: seq<byte>, i: nat)
    requires i + 2 <= |a| && i + 2 <= |b| && b[i] == a[i] && b[i + 1] == a[i + 1]
    ensures ReadTwo(b, i) == ReadTwo(a, i)
  {
  }

  lemma CivilBack(c: Civil, b: seq<byte>)
    requires ValidCivil(c) && |b| >= 19 && forall i :: 0 <= i < 19 && i != 10 ==> b[i] == Stem(c)[i]
    ensures ReadCivil(b) == Some(c)
  {
    hide Stem, ReadTwo, Valid;
    StemBytes(c);
    ReadTwoFrom(Stem(c), b, 0);
    ReadTwoFrom(Stem(c), b, 2);
    ReadTwoFrom(Stem(c), b, 5);
    ReadTwoFrom(Stem(c), b, 8);
    ReadTwoFrom(Stem(c), b, 11);
    ReadTwoFrom(Stem(c), b, 14);
    ReadTwoFrom(Stem(c), b, 17);
  }

  lemma {:induction false} FirstTAt(b: seq<byte>, i: nat, k: nat)
    requires i <= k < |b| && b[k] == 84 && forall j :: i <= j < k ==> b[j] != 84
    ensures FirstT(b, i) == k
    decreases k - i
  {
    if i < k {
      FirstTAt(b, i + 1, k);
    }
  }

  lemma {:induction false} ZoneSkips(b: seq<byte>, start: nat, i: nat, k: nat)
    requires i <= k <= |b| && forall j :: i <= j < k ==> !IsMarker(b[j])
    ensures ZoneFrom(b, start, i) == ZoneFrom(b, start, k)
    decreases k - i
  {
    if i < k {
      ZoneSkips(b, start, i + 1, k);
    }
  }

  lemma {:induction false} DigitsExact(b: seq<byte>, i: nat, n: nat, k: nat)
    requires k <= n && i + k <= |b| && forall j :: i <= j < i + k ==> IsDigit(b[j])
    requires k < n ==> i + k == |b| || !IsDigit(b[i + k])
    ensures Digits(b, i, n) == k
    decreases k
  {
    if k > 0 {
      DigitsExact(b, i + 1, n - 1, k - 1);
    }
  }

  lemma ZoneBack(b: seq<byte>, p: nat, z: Suffix)
    requires ValidSuffix(z) && p < |b| && b[p..] == ZoneText(z)
    ensures IsMarker(b[p]) && !IsDigit(b[p]) && b[p] != 46 && ZoneAt(b, p) == Some(Zone(Seconds(z), |b|))
  {
    assert b[p] == b[p..][0];
    if z.Offset? {
      assert b[p + 1] == b[p..][1] && b[p + 2] == b[p..][2] && b[p + 3] == b[p..][3];
      assert b[p + 4] == b[p..][4] && b[p + 5] == b[p..][5];
      TwoBack(b, p + 1, z.hours);
      TwoBack(b, p + 4, z.minutes);
    }
  }

  lemma TwoBack(b: seq<byte>, i: nat, n: int)
    requires 0 <= n <= 99 && i + 2 <= |b| && b[i] == Two(n)[0] && b[i + 1] == Two(n)[1]
    ensures ReadTwo(b, i) == Some(n)
  {
  }

  lemma FractionBack(b: seq<byte>, f: seq<byte>, p: nat)
    requires IsFraction(f) && |b| > 19 && p == 19 + |f| < |b| && b[19..p] == f && !IsDigit(b[p]) && b[p] != 46
    ensures FractionNs(b) == FractionValue(f)
  {
    if f != [] {
      assert forall j :: 0 <= j < |f| ==> b[19 + j] == b[19..p][j] == f[j];
      var k := if |f| - 1 < 9 then |f| - 1 else 9;
      assert forall j :: 20 <= j < 20 + k ==> b[j] == f[j - 19];
      DigitsExact(b, 20, 9, k);
      assert b[20..20 + k] == f[1..1 + k];
    }
  }

  /**
   Every valid spelling is read back: any fraction length, any offset up to
   23:59 either way, and the instant is the local time less the offset.
   */
  lemma RenderBack(c: Civil, f: seq<byte>, z: Suffix)
    requires ValidCivil(c) && IsFraction(f) && ValidSuffix(z)
    ensures Instant(Render(c, f, z)) == Ok(InstantNs(c, FractionValue(f), Seconds(z)))
  {
    hide *;
    var b := Render(c, f, z);
    var p := 19 + |f|;
    RenderParts(c, f, z);
    CivilBack(c, b);
    ZoneBack(b, p, z);
    FractionBack(b, f, p);
    ZoneFound(c, f, z);
    ZoneAtMarker(b, 10, p);
    InstantIs(b, c, Seconds(z));
  }

  lemma RenderParts(c: Civil, f: seq<byte>, z: Suffix)
    requires ValidCivil(c) && IsFraction(f) && ValidSuffix(z)
    ensures var b, p := Render(c, f, z), 19 + |f|;
            && p < |b| && b[..19] == Stem(c) && b[19..p] == f && b[p..] == ZoneText(z)
    ensures forall i :: 0 <= i < 19 ==> Render(c, f, z)[i] == Stem(c)[i]
  {
    hide Stem;
    assert |ZoneText(z)| > 0;
    hide ZoneText;
  }

  /** No marker comes between the T and the zone. */
  lemma ZoneFound(c: Civil, f: seq<byte>, z: Suffix)
    requires ValidCivil(c) && IsFraction(f) && ValidSuffix(z)
    ensures var b := Render(c, f, z);
            FirstT(b, 0) == 10 && ZoneFrom(b, 10, 10) == ZoneFrom(b, 10, 19 + |f|)
  {
    hide Stem, Render, ZoneText, ZoneFrom, FirstT, ReadTwo;
    var b, p := Render(c, f, z), 19 + |f|;
    RenderParts(c, f, z);
    StemBytes(c);
    assert forall i :: 0 <= i < 19 ==> b[i] == b[..19][i] == Stem(c)[i];
    assert forall i :: 19 <= i < p ==> b[i] == b[19..p][i - 19] == f[i - 19];
    FirstTAt(b, 0, 10);
    ZoneSkips(b, 10, 10, p);
  }

  lemma ZoneAtMarker(b: seq<byte>, start: nat, i: nat)
    requires i < |b| && IsMarker(b[i])
    ensures ZoneFrom(b, start, i) == ZoneAt(b, i)
  {
  }

  lemma InstantIs(b: seq<byte>, c: Civil, offset: int)
    requires |b| >= 19 && ReadCivil(b) == Some(c) && ZoneFrom(b, FirstT(b, 0), FirstT(b, 0)) == Some(Zone(offset, |b|))
    ensures Instant(b) == Ok(InstantNs(c, FractionNs(b), offset))
  {
    hide ReadCivil, ZoneFrom, FirstT, FractionNs, InstantNs;
  }

  /** Two spellings of one instant agree, at different offsets and with fractions written differently. */
  lemma OffsetsAgree(c: Civil, c': Civil, f: seq<byte>, f': seq<byte>, z: Suffix, z': Suffix)
    requires ValidCivil(c) && ValidCivil(c') && IsFraction(f) && IsFraction(f') && ValidSuffix(z) && ValidSuffix(z')
    requires InstantNs(c, FractionValue(f), Seconds(z)) == InstantNs(c', FractionValue(f'), Seconds(z'))
    ensures FiletimeOf(Render(c, f, z)) == FiletimeOf(Render(c', f', z'))
  {
    hide Render, DayNumber, ValidCivil, FractionValue, Seconds, Instant, InstantNs;
    RenderBack(c, f, z);
    RenderBack(c', f', z');
  }

  /** A refused instant that is well after 1601: midnight on 1960-01-01. */
  lemma RefusedAfter1601()
    ensures var c := Civil(Date(1960, 1, 1), 0, 0, 0);
            && TrueTicks(InstantNs(c, 0, 0)) > 0
            && FiletimeOf(Render(c, [], Utc)) == Err(BeforeRange)
  {
    var c := Civil(Date(1960, 1, 1), 0, 0, 0);
    hide DayNumber, ReadTwo, Stem;
    EpochDays();
    RefusedDay();
    RenderBack(c, [], Utc);
  }

  lemma RefusedDay()
    ensures DayNumber(Date(1960, 1, 1)) == -3653
  {
    assert 1959 / 400 == 4 && 359 / 4 == 89 && 359 / 100 == 3;
  }

  lemma {:induction false} FirstTMeaning(b: seq<byte>, i: nat)
    requires i <= |b|
    ensures FirstT(b, i) == |b| <==> forall j :: i <= j < |b| ==> b[j] != 84
    ensures FirstT(b, i) < |b| ==> b[FirstT(b, i)] == 84
    decreases |b| - i
  {
    if i < |b| && b[i] != 84 {
      FirstTMeaning(b, i + 1);
    }
  }

  /**
   A text that shows no zone from its first T on is accepted exactly when it has
   no T at all; with a T it is refused as trailing text.
   */
  lemma ZoneIsRequired(b: seq<byte>)
    requires |b| >= 19 && ReadCivil(b).Some? && forall i :: FirstT(b, 0) <= i < |b| ==> !IsMarker(b[i])
    ensures Instant(b).Ok? <==> 84 !in b
    ensures Instant(b).Err? ==> Instant(b).error == Trailing
  {
    hide FirstT, ReadCivil, FractionNs, IsMarker, ZoneAt;
    ZoneSkips(b, FirstT(b, 0), FirstT(b, 0), |b|);
    FirstTMeaning(b, 0);
  }

  /** Without a T the zone is never looked for: the local time is taken for UTC whatever follows it. */
  lemma NoTMeansUtc(b: seq<byte>, c: Civil)
    requires |b| >= 19 && ReadCivil(b) == Some(c) && 84 !in b
    ensures Instant(b) == Ok(InstantNs(c, FractionNs(b), 0))
  {
    hide FirstT, ReadCivil, FractionNs, InstantNs;
    FirstTMeaning(b, 0);
  }

  lemma SpacedStem(c: Civil, tail: seq<byte>)
    requires ValidCivil(c) && 84 !in tail && (tail != [] ==> tail[0] != 46)
    ensures var b := Stem(c)[10 := 32] + tail;
            ReadCivil(b) == Some(c) && 84 !in b && FractionNs(b) == 0
  {
    hide Stem, ReadTwo, Valid, ReadCivil;
    var b := Stem(c)[10 := 32] + tail;
    StemBytes(c);
    assert forall i :: 0 <= i < 19 && i != 10 ==> b[i] == Stem(c)[i];
    assert forall i :: 19 <= i < |b| ==> b[i] == tail[i - 19] && b[i] in tail;
    CivilBack(c, b);
  }

  lemma ZoneTextBytes(z: Suffix)
    requires ValidSuffix(z)
    ensures ZoneText(z) != [] && ZoneText(z)[0] != 46 && 84 !in ZoneText(z)
  {
  }

  /** Both sides occur: a plain stem is refused, and with a space for its T it is accepted, offset or not. */
  lemma ZonelessStems(c: Civil, z: Suffix)
    requires ValidCivil(c) && ValidSuffix(z)
    ensures Instant(Stem(c)) == Err(Trailing)
    ensures Instant(Stem(c)[10 := 32]) == Ok(InstantNs(c, 0, 0))
    ensures Instant(Stem(c)[10 := 32] + ZoneText(z)) == Ok(InstantNs(c, 0, 0))
  {
    hide Stem, ZoneText, ReadTwo, Valid, DayNumber, ReadCivil, FirstT, Instant, InstantNs;
    var b := Stem(c);
    StemBytes(c);
    CivilBack(c, b);
    FirstTAt(b, 0, 10);
    assert b[10] == 84;
    ZoneIsRequired(b);
    SpacedStem(c, []);
    ZoneTextBytes(z);
    SpacedStem(c, ZoneText(z));
    assert b[10 := 32] + [] == b[10 := 32];
    NoTMeansUtc(b[10 := 32], c);
    NoTMeansUtc(b[10 := 32] + ZoneText(z), c);
  }
}
