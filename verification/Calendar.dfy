/**
 The proleptic Gregorian calendar: a closed formula for the day number, and the
 calendar rule it stands for, counting one day at a time.
 */
module Calendar {
  datatype Date = Date(year: int, month: int, day: int)

  predicate IsLeap(year: int) {
    year % 4 == 0 && (year % 100 != 0 || year % 400 == 0)
  }

  function DaysInMonth(year: int, month: int): int {
    if month in {1, 3, 5, 7, 8, 10, 12} then 31
    else if month in {4, 6, 9, 11} then 30
    else if IsLeap(year) then 29 else 28
  }

  predicate Valid(t: Date) {
    1 <= t.month <= 12 && 1 <= t.day <= DaysInMonth(t.year, t.month)
  }

  const UNIX_EPOCH := Date(1970, 1, 1)
  const FILETIME_EPOCH := Date(1601, 1, 1)

  /** Days since 1970-01-01, in closed form; the year begins in March. */
  function DayNumber(t: Date): int {
    var year := t.year - if t.month <= 2 then 1 else 0;
    var era := year / 400;
    var yoe := year - era * 400;
    var mp := t.month + if t.month > 2 then -3 else 9;
    var doy := (153 * mp + 2) / 5 + t.day - 1;
    var doe := yoe * 365 + yoe / 4 - yoe / 100 + doy;
    era * 146097 + doe - 719468
  }

  /** The calendar rule. */
  function NextDay(t: Date): Date {
    if t.day < DaysInMonth(t.year, t.month) then Date(t.year, t.month, t.day + 1)
    else if t.month < 12 then Date(t.year, t.month + 1, 1)
    else Date(t.year + 1, 1, 1)
  }

  function Rank(t: Date): int { t.year * 372 + (t.month - 1) * 31 + (t.day - 1) }

  predicate Before(a: Date, b: Date) { Rank(a) < Rank(b) }

  lemma NextDayIsNext(a: Date, b: Date)
    requires Valid(a) && Valid(b) && Before(a, b)
    ensures Valid(NextDay(a)) && Rank(a) < Rank(NextDay(a)) <= Rank(b)
  {
    MonthLength(a.year, a.month);
    MonthLength(b.year, b.month);
    MonthLength(NextDay(a).year, NextDay(a).month);
    hide DaysInMonth;
    RankByMonth(a);
    RankByMonth(b);
    RankByMonth(NextDay(a));
    if a.day == DaysInMonth(a.year, a.month) {
      hide Rank;
      assert Month(NextDay(a)) == Month(a) + 1;
      if Month(a) == Month(b) {
        SameMonth(a, b);
      }
    }
  }

  /** Months since year 0. */
  function Month(t: Date): int { t.year * 12 + t.month - 1 }

  lemma RankByMonth(t: Date)
    ensures Rank(t) == 31 * Month(t) + t.day - 1
  {
  }

  lemma SameMonth(a: Date, b: Date)
    requires 1 <= a.month <= 12 && 1 <= b.month <= 12 && Month(a) == Month(b)
    ensures a.year == b.year && a.month == b.month
  {
  }

  lemma MonthLength(year: int, month: int)
    ensures 28 <= DaysInMonth(year, month) <= 31
  {
    hide IsLeap;
  }

  /** How many times the rule must be applied to get from `a` to `b`. */
  function CountDays(a: Date, b: Date): nat
    requires Valid(a) && Valid(b)
    decreases Rank(b) - Rank(a)
  {
    if !Before(a, b) then 0
    else
      NextDayIsNext(a, b);
      1 + CountDays(NextDay(a), b)
  }

  lemma QuotientStep(r: nat, k: nat)
    requires 0 < k && 0 < r
    ensures r / k - (r - 1) / k == if r % k == 0 then 1 else 0
  {
    var q, m := r / k, r % k;
    assert r == q * k + m;
    if m == 0 {
      Quotient(r - 1, k, q - 1, k - 1);
    } else {
      Quotient(r - 1, k, q, m - 1);
    }
  }

  lemma Quotient(n: int, k: nat, q: int, m: nat)
    requires n == q * k + m && m < k
    ensures n / k == q
  {
    var d := n / k - q;
    assert d * k == m - n % k by { assert n == n / k * k + n % k; }
    assert d >= 1 ==> d * k >= k;
    assert d <= -1 ==> d * k <= -(k as int);
  }

  lemma LeapByRemainder(year: int)
    ensures IsLeap(year) <==> year % 400 % 4 == 0 && (year % 400 % 100 != 0 || year % 400 == 0)
  {
    var q := year / 400;
    Remainder(year, 4, 100 * q, year % 400);
    Remainder(year, 100, 4 * q, year % 400);
  }

  lemma Remainder(n: int, k: nat, q: int, r: nat)
    requires n == q * k + r && 0 < k
    ensures n % k == r % k
  {
    assert n == (q + r / k) * k + r % k by { assert r == r / k * k + r % k; }
    Quotient(n, k, q + r / k, r % k);
  }

  /** The first of March follows the last of February. */
  lemma YearStart(year: int)
    ensures DayNumber(Date(year, 3, 1)) == DayNumber(Date(year, 2, DaysInMonth(year, 2))) + 1
  {
    var q, r := year / 400, year % 400;
    LeapByRemainder(year);
    if r == 0 {
      Quotient(year - 1, 400, q - 1, 399);
    } else {
      Quotient(year - 1, 400, q, r - 1);
      QuotientStep(r, 4);
      QuotientStep(r, 100);
    }
  }

  lemma DayNumberNext(t: Date)
    requires Valid(t)
    ensures DayNumber(NextDay(t)) == DayNumber(t) + 1
  {
    if t.day == DaysInMonth(t.year, t.month) {
      if t.month == 2 {
        YearStart(t.year);
      } else {
        MonthEnd(t);
      }
    }
  }

  lemma MonthEnd(t: Date)
    requires Valid(t) && t.day == DaysInMonth(t.year, t.month) && t.month != 2
    ensures DayNumber(NextDay(t)) == DayNumber(t) + 1
  {
    if t.month == 12 {
      assert (153 * 9 + 2) / 5 == 275 && (153 * 10 + 2) / 5 == 306;
    } else if t.month != 1 {
      MonthSpan(t.month - 3, DaysInMonth(t.year, t.month));
    } else {
      assert (153 * 10 + 2) / 5 == 306 && (153 * 11 + 2) / 5 == 337;
    }
  }

  /** From March on the months are as long as the formula has them. */
  lemma MonthSpan(mp: nat, days: int)
    requires mp <= 8 && days == if mp in {1, 3, 6, 8} then 30 else 31
    ensures (153 * (mp + 1) + 2) / 5 - (153 * mp + 2) / 5 == days
  {
  }

  /** The closed formula counts days: it is exact between any two valid dates. */
  lemma {:induction false} DayNumberCounts(a: Date, b: Date)
    requires Valid(a) && Valid(b) && !Before(b, a)
    ensures DayNumber(b) - DayNumber(a) == CountDays(a, b)
    decreases Rank(b) - Rank(a)
  {
    hide DayNumber, Valid, NextDay;
    if Before(a, b) {
      NextDayIsNext(a, b);
      DayNumberNext(a);
      DayNumberCounts(NextDay(a), b);
    } else {
      SameRank(a, b);
    }
  }

  lemma SameRank(a: Date, b: Date)
    requires Valid(a) && Valid(b) && Rank(a) == Rank(b)
    ensures a == b
  {
    MonthLength(a.year, a.month);
    MonthLength(b.year, b.month);
    hide DaysInMonth;
  }

  /** Days since the Unix epoch, counted one at a time, for dates on either side of it. */
  lemma DayNumberFromEpoch(t: Date)
    requires Valid(t)
    ensures DayNumber(t) == CountDays(UNIX_EPOCH, t) - CountDays(t, UNIX_EPOCH)
  {
    assert DayNumber(UNIX_EPOCH) == 0;
    if Before(UNIX_EPOCH, t) {
      DayNumberCounts(UNIX_EPOCH, t);
    } else {
      DayNumberCounts(t, UNIX_EPOCH);
    }
  }
}
