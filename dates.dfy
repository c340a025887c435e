/** `java.time.LocalDate` in the proleptic Gregorian calendar: validity,
    `isAfter`/`isBefore`, `toEpochDay` (and so `ChronoUnit.DAYS.between`),
    `plusYears`/`minusYears` and `plusMonths`/`minusMonths`. */
module Dates {

  datatype Date = Date(year: int, month: int, day: int)

  predicate IsLeapYear(y: int) {
    y % 4 == 0 && (y % 100 != 0 || y % 400 == 0)
  }

  function LengthOfMonth(y: int, m: int): (n: int)
    requires 1 <= m <= 12
    ensures 28 <= n <= 31
    ensures n == 29 <==> m == 2 && IsLeapYear(y)
  {
    if m == 2 then (if IsLeapYear(y) then 29 else 28)
    else if m == 4 || m == 6 || m == 9 || m == 11 then 30
    else 31
  }

  function LengthOfYear(y: int): int {
    if IsLeapYear(y) then 366 else 365
  }

  predicate IsValid(d: Date) {
    1 <= d.month <= 12 && 1 <= d.day <= LengthOfMonth(d.year, d.month)
  }

  /** A `LocalDate` is always a real calendar day. */
  type LocalDate = d: Date | IsValid(d) witness Date(1970, 1, 1)

  /** `isAfter`: year, then month, then day. */
  predicate IsAfter(a: Date, b: Date) {
    a.year > b.year
    || (a.year == b.year && (a.month > b.month || (a.month == b.month && a.day > b.day)))
  }

  /** `isBefore`. */
  predicate IsBefore(a: Date, b: Date) {
    IsAfter(b, a)
  }

  /** Days from 0000-01-01 to January 1st of year `y` (negative before it). */
  function DaysBeforeYear(y: int): int {
    365 * y + (y + 3) / 4 - (y + 99) / 100 + (y + 399) / 400
  }

  /** Days from January 1st of year `y` to the first day of month `m`
      (`m == 13` gives the length of the year). */
  function DaysBeforeMonth(y: int, m: int): int
    requires 1 <= m <= 13
  {
    [0, 31, 59, 90, 120, 151, 181, 212, 243, 273, 304, 334, 365][m - 1]
    + (if m > 2 && IsLeapYear(y) then 1 else 0)
  }

  /** `toEpochDay`: days since 1970-01-01. */
  function EpochDay(d: LocalDate): int {
    DaysBeforeYear(d.year) + DaysBeforeMonth(d.year, d.month) + d.day - 1 - 719528
  }

  /** `ChronoUnit.DAYS.between(start, end)`. */
  function DaysBetween(start: LocalDate, end: LocalDate): int {
    EpochDay(end) - EpochDay(start)
  }

  function Min(a: int, b: int): int {
    if a <= b then a else b
  }

  /** `plusYears`: same month and day in the new year, the day clamped to the
      month's length (February 29th becomes the 28th in a common year). */
  function PlusYears(d: LocalDate, n: int): (r: LocalDate)
    ensures r.year == d.year + n && r.month == d.month
    ensures r.day == d.day || (d.month == 2 && d.day == 29 && r.day == 28 && !IsLeapYear(r.year))
  {
    var y := d.year + n;
    Date(y, d.month, Min(d.day, LengthOfMonth(y, d.month)))
  }

  /** `minusYears`. */
  function MinusYears(d: LocalDate, n: int): LocalDate {
    PlusYears(d, -n)
  }

  /** `plusMonths`: month arithmetic with floor division, day clamped. */
  function PlusMonths(d: LocalDate, n: int): (r: LocalDate)
    ensures r.year * 12 + r.month == d.year * 12 + d.month + n
    ensures r.day <= d.day
  {
    var count := d.year * 12 + (d.month - 1) + n;
    var y := count / 12;
    var m := count % 12 + 1;
    Date(y, m, Min(d.day, LengthOfMonth(y, m)))
  }

  /** `minusMonths`. */
  function MinusMonths(d: LocalDate, n: int): LocalDate {
    PlusMonths(d, -n)
  }

  // ---- The day count agrees with the calendar order ----

  lemma YearLength(y: int)
    ensures DaysBeforeYear(y + 1) == DaysBeforeYear(y) + LengthOfYear(y)
  {
    CountStep4(y);
    CountStep100(y);
    CountStep400(y);
    DivisorsNest(y);
  }

  /** A year divisible by 400 is divisible by 100, and one divisible by 100
      is divisible by 4. */
  lemma DivisorsNest(y: int)
    ensures y % 400 == 0 ==> y % 100 == 0
    ensures y % 100 == 0 ==> y % 4 == 0
  {
    if y % 400 == 0 {
      assert y / 100 == 4 * (y / 400);
    }
    if y % 100 == 0 {
      assert y / 4 == 25 * (y / 100);
    }
  }

  /** Each of the three counts in `DaysBeforeYear` grows by one exactly in
      the years its divisor divides. */
  lemma CountStep4(y: int)
    ensures (y + 4) / 4 - (y + 3) / 4 == if y % 4 == 0 then 1 else 0
  {
  }

  lemma CountStep100(y: int)
    ensures (y + 100) / 100 - (y + 99) / 100 == if y % 100 == 0 then 1 else 0
  {
  }

  lemma CountStep400(y: int)
    ensures (y + 400) / 400 - (y + 399) / 400 == if y % 400 == 0 then 1 else 0
  {
  }

  lemma {:induction false} YearsAdvance(y1: int, y2: int)
    requires y1 < y2
    ensures DaysBeforeYear(y1) + LengthOfYear(y1) <= DaysBeforeYear(y2)
    decreases y2 - y1
  {
    YearLength(y1);
    if y1 + 1 < y2 {
      YearsAdvance(y1 + 1, y2);
    }
  }

  lemma MonthsAdvance(y: int, m1: int, m2: int)
    requires 1 <= m1 < m2 <= 13 && m1 <= 12
    ensures DaysBeforeMonth(y, m1) + LengthOfMonth(y, m1) <= DaysBeforeMonth(y, m2)
  {
  }

  /** An earlier calendar day has a smaller epoch day. */
  lemma EpochDayIncreasing(a: LocalDate, b: LocalDate)
    requires IsBefore(a, b)
    ensures EpochDay(a) < EpochDay(b)
  {
    if a.year < b.year {
      MonthsAdvance(a.year, a.month, 13);
      YearLength(a.year);
      YearsAdvance(a.year, b.year);
    } else if a.month < b.month {
      MonthsAdvance(a.year, a.month, b.month);
    }
  }

  /** `isBefore`, `isAfter` and equality are exactly the order of epoch days. */
  lemma EpochDayOrder(a: LocalDate, b: LocalDate)
    ensures IsBefore(a, b) <==> EpochDay(a) < EpochDay(b)
    ensures a == b <==> EpochDay(a) == EpochDay(b)
  {
    if IsBefore(a, b) {
      EpochDayIncreasing(a, b);
    } else if IsBefore(b, a) {
      EpochDayIncreasing(b, a);
    }
  }

  /** One month back is an earlier day. */
  lemma MinusOneMonthIsBefore(d: LocalDate)
    ensures IsBefore(MinusMonths(d, 1), d)
  {
  }

  /** Known epoch days: the epoch itself and the turn of the millennium. */
  lemma EpochDayExamples()
    ensures EpochDay(Date(1970, 1, 1)) == 0
    ensures EpochDay(Date(2000, 1, 1)) == 10957
    ensures DaysBetween(Date(2025, 11, 7), Date(2025, 11, 11)) == 4
    ensures DaysBetween(Date(2024, 2, 28), Date(2024, 3, 1)) == 2
  {
  }
}
