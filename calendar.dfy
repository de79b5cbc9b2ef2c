/** Proleptic Gregorian calendar arithmetic and the ISO 8601 week number
    that the app shows as the default week of a new record. */
module Calendar {

  /** A calendar date as the app reads it from a JavaScript Date:
      full year, month 1..12, day of month. */
  datatype Date = Date(year: int, month: int, day: int)

  predicate IsLeapYear(y: int) {
    y % 4 == 0 && (y % 100 != 0 || y % 400 == 0)
  }

  function DaysInMonth(y: int, m: int): (n: int)
    requires 1 <= m <= 12
    ensures 28 <= n <= 31
    ensures m == 2 ==> (n == 29 <==> IsLeapYear(y))
  {
    if m == 2 then (if IsLeapYear(y) then 29 else 28)
    else if m == 4 || m == 6 || m == 9 || m == 11 then 30
    else 31
  }

  predicate ValidDate(d: Date) {
    1 <= d.month <= 12 && 1 <= d.day <= DaysInMonth(d.year, d.month)
  }

  function DaysInYear(y: int): int {
    if IsLeapYear(y) then 366 else 365
  }

  /** Days of the common year that precede month m. */
  const CommonDaysBefore: seq<int> := [0, 31, 59, 90, 120, 151, 181, 212, 243, 273, 304, 334]

  /** Days of year y that precede the first of month m. */
  function DaysBeforeMonth(y: int, m: int): int
    requires 1 <= m <= 12
  {
    CommonDaysBefore[m - 1] + (if m > 2 && IsLeapYear(y) then 1 else 0)
  }

  /** Number of leap years among 1..x, extended to every integer by floor division. */
  function Leaps(x: int): int {
    x / 4 - x / 100 + x / 400
  }

  /** Days from 1970-01-01 to the first of January of year y (negative before 1970). */
  function DaysBeforeYear(y: int): int {
    365 * (y - 1970) + Leaps(y - 1) - Leaps(1969)
  }

  /** Days since 1970-01-01, the day count behind Date.UTC divided by 86400000. */
  function DayNumber(d: Date): (n: int)
    requires ValidDate(d)
    ensures d == Date(1970, 1, 1) ==> n == 0
  {
    DaysBeforeYear(d.year) + DaysBeforeMonth(d.year, d.month) + d.day - 1
  }

  /** Day of the week of day number n, ISO numbering: Monday = 1 .. Sunday = 7
      (day 0, 1970-01-01, was a Thursday). */
  function IsoWeekday(n: int): (w: int)
    ensures 1 <= w <= 7
  {
    (n + 3) % 7 + 1
  }

  /** getUTCDay(): Sunday = 0 .. Saturday = 6. Day 0, 1970-01-01, was a
      Thursday, and the weekday comes round again every seven days. */
  function UtcDay(n: int): (w: int)
    ensures 0 <= w < 7
    ensures w == 4 <==> n % 7 == 0
  {
    (n + 4) % 7
  }

  /** Adding whole weeks keeps the remainder modulo 7. */
  lemma {:induction false} ModSevenOfWeeks(q: int, r: int)
    requires 0 <= r < 7
    ensures (7 * q + r) % 7 == r
    ensures (7 * q + r) / 7 == q
  {
  }

  /** `getUTCDay() || 7` is the ISO weekday. */
  lemma {:induction false} UtcDayOrSevenIsIsoWeekday(n: int)
    ensures (if UtcDay(n) == 0 then 7 else UtcDay(n)) == IsoWeekday(n)
  {
  }

  lemma {:induction false} DivStep(x: int)
    ensures x / 4 - (x - 1) / 4 == if x % 4 == 0 then 1 else 0
    ensures x / 100 - (x - 1) / 100 == if x % 100 == 0 then 1 else 0
    ensures x / 400 - (x - 1) / 400 == if x % 400 == 0 then 1 else 0
  {
  }

  lemma {:induction false} LeapsStep(y: int)
    ensures Leaps(y) - Leaps(y - 1) == if IsLeapYear(y) then 1 else 0
  {
    DivStep(y);
    if y % 400 == 0 {
      Multiple400(y);
    } else if y % 100 == 0 {
      Multiple100(y);
    }
  }

  lemma {:induction false} Multiple400(y: int)
    requires y % 400 == 0
    ensures y % 100 == 0 && y % 4 == 0
  {
    var q := y / 400;
    assert y == 100 * (4 * q) && y == 4 * (100 * q);
    MultipleOf100(4 * q);
    MultipleOf4(100 * q);
  }

  lemma {:induction false} Multiple100(y: int)
    requires y % 100 == 0
    ensures y % 4 == 0
  {
    var q := y / 100;
    assert y == 4 * (25 * q);
    MultipleOf4(25 * q);
  }

  lemma {:induction false} MultipleOf100(q: int)
    ensures (100 * q) % 100 == 0
  {
  }

  lemma {:induction false} MultipleOf4(q: int)
    ensures (4 * q) % 4 == 0
  {
  }

  lemma {:induction false} DaysBeforeNextYear(y: int)
    ensures DaysBeforeYear(y + 1) == DaysBeforeYear(y) + DaysInYear(y)
  {
    LeapsStep(y);
  }

  lemma {:induction false} DaysBeforeNextMonth(y: int, m: int)
    requires 1 <= m < 12
    ensures DaysBeforeMonth(y, m + 1) == DaysBeforeMonth(y, m) + DaysInMonth(y, m)
  {
  }

  /** A valid date lies inside its own year: 0 <= day of year - 1 < DaysInYear. */
  lemma {:induction false} DayOfYearBounds(d: Date)
    requires ValidDate(d)
    ensures 0 <= DayNumber(d) - DaysBeforeYear(d.year) < DaysInYear(d.year)
  {
  }

  /** `setUTCDate(getUTCDate() + k)`: move k days, rolling over into the
      neighbouring month and year. The app moves at most three days. */
  function AddDays(d: Date, k: int): (r: Date)
    requires ValidDate(d) && -28 <= k <= 28
    ensures ValidDate(r)
    ensures DayNumber(r) == DayNumber(d) + k
  {
    var y, m := d.year, d.month;
    if 1 <= d.day + k <= DaysInMonth(y, m) then
      Date(y, m, d.day + k)
    else if d.day + k < 1 then
      if m == 1 then
        DaysBeforeNextYear(y - 1);
        Date(y - 1, 12, 31 + d.day + k)
      else
        DaysBeforeNextMonth(y, m - 1);
        Date(y, m - 1, DaysInMonth(y, m - 1) + d.day + k)
    else
      if m == 12 then
        DaysBeforeNextYear(y);
        Date(y + 1, 1, d.day + k - 31)
      else
        DaysBeforeNextMonth(y, m);
        Date(y, m + 1, d.day + k - DaysInMonth(y, m))
  }

  /** The Thursday of d's Monday-to-Sunday week (Sunday counts as day 7). */
  function ThursdayOf(d: Date): (t: Date)
    requires ValidDate(d)
    ensures ValidDate(t)
    ensures IsoWeekday(DayNumber(t)) == 4
    ensures DayNumber(t) == DayNumber(d) + 4 - IsoWeekday(DayNumber(d))
  {
    var n := DayNumber(d);
    var dow := if UtcDay(n) == 0 then 7 else UtcDay(n);
    UtcDayOrSevenIsIsoWeekday(n);
    var q := (n + 3) / 7;
    assert n + 4 - dow + 3 == 7 * q + 3;
    ModSevenOfWeeks(q, 3);
    AddDays(d, 4 - dow)
  }

  /** getWeekNumber: the 1-based day of the year of the week's Thursday,
      divided by 7 and rounded up. */
  function WeekNumber(d: Date): (w: int)
    requires ValidDate(d)
    ensures 1 <= w <= 53
  {
    var t := ThursdayOf(d);
    var yearStart := Date(t.year, 1, 1);
    var ordinal := DayNumber(t) - DayNumber(yearStart) + 1;
    DayOfYearBounds(t);
    (ordinal + 6) / 7  // Math.ceil(ordinal / 7) for ordinal >= 1
  }

  /** The week number as the rounded-up ordinal of the week's Thursday. */
  lemma {:induction false} WeekNumberOfThursday(d: Date, t: Date)
    requires ValidDate(d) && t == ThursdayOf(d)
    ensures WeekNumber(d) == (DayNumber(t) - DaysBeforeYear(t.year) + 7) / 7
  {
    assert DayNumber(Date(t.year, 1, 1)) == DaysBeforeYear(t.year);
  }

  lemma {:induction false} DaysBeforeYearMonotone(a: int, b: int)
    requires a <= b
    ensures DaysBeforeYear(a) <= DaysBeforeYear(b)
    decreases b - a
  {
    if a < b {
      DaysBeforeNextYear(a);
      DaysBeforeYearMonotone(a + 1, b);
    }
  }

  /** A date's year is the one whose span of day numbers holds its day number. */
  lemma {:induction false} YearOfDayNumber(t: Date, y: int)
    requires ValidDate(t)
    requires DaysBeforeYear(y) <= DayNumber(t) < DaysBeforeYear(y + 1)
    ensures t.year == y
  {
    DayOfYearBounds(t);
    DaysBeforeNextYear(t.year);
    if t.year < y {
      DaysBeforeYearMonotone(t.year + 1, y);
    } else if y < t.year {
      DaysBeforeYearMonotone(y + 1, t.year);
    }
  }

  /** The week number from the Thursday's day number tn, once the year y
      holding tn is known. */
  lemma {:induction false} WeekNumberFromThursday(d: Date, y: int, tn: int)
    requires ValidDate(d)
    requires tn == DayNumber(d) + 4 - IsoWeekday(DayNumber(d))
    requires DaysBeforeYear(y) <= tn < DaysBeforeYear(y + 1)
    ensures WeekNumber(d) == (tn - DaysBeforeYear(y) + 7) / 7
  {
    var t := ThursdayOf(d);
    YearOfDayNumber(t, y);
    WeekNumberOfThursday(d, t);
  }

  // ----- The ISO 8601 reference definition (section 4.1.4 of ISO 8601:2004):
  // weeks run Monday to Sunday, and week 1 of a week-numbering year is the
  // week that holds the first Thursday of the calendar year.

  /** Day number of the first Thursday of January of year y. */
  function FirstThursday(y: int): (n: int)
    ensures IsoWeekday(n) == 4
    ensures DaysBeforeYear(y) <= n < DaysBeforeYear(y) + 7
  {
    var jan1 := DaysBeforeYear(y);
    var w := IsoWeekday(jan1);
    var q := (jan1 + 3) / 7;
    assert jan1 + 3 == 7 * q + w - 1;
    if w <= 4 then
      ModSevenOfWeeks(q, 3);
      jan1 + 4 - w
    else
      ModSevenOfWeeks(q + 1, 3);
      jan1 + 11 - w
  }

  /** Day number of the Monday that starts week 1 of ISO year y. */
  function Week1Monday(y: int): int {
    FirstThursday(y) - 3
  }

  /** d falls in ISO week `week` of ISO week-numbering year `isoYear`. */
  ghost predicate IsIsoWeek(d: Date, isoYear: int, week: int)
    requires ValidDate(d)
  {
    && Week1Monday(isoYear) <= DayNumber(d) < Week1Monday(isoYear + 1)
    && week == (DayNumber(d) - Week1Monday(isoYear)) / 7 + 1
  }

  /** Two days with the same ISO weekday lie a whole number of weeks apart. */
  lemma {:induction false} SameWeekdayApart(a: int, b: int)
    requires IsoWeekday(a) == IsoWeekday(b)
    ensures b - a == 7 * ((b - a) / 7)
  {
    var qa, qb := (a + 3) / 7, (b + 3) / 7;
    assert a + 3 == 7 * qa + IsoWeekday(a) - 1;
    assert b + 3 == 7 * qb + IsoWeekday(b) - 1;
    assert b - a == 7 * (qb - qa);
    ModSevenOfWeeks(qb - qa, 0);
  }

  /** The source's arithmetic computes exactly the ISO 8601 week number, and
      the ISO week-numbering year is the calendar year of the week's Thursday. */
  lemma {:induction false} WeekNumberIsIsoWeek(d: Date)
    requires ValidDate(d)
    ensures IsIsoWeek(d, ThursdayOf(d).year, WeekNumber(d))
  {
    var t := ThursdayOf(d);
    var y := t.year;
    DayOfYearBounds(t);
    DaysBeforeNextYear(y);
    WeekNumberOfThursday(d, t);
    var n, f, fNext := DayNumber(d), FirstThursday(y), FirstThursday(y + 1);
    WeekArithmetic(n, DayNumber(t), DaysBeforeYear(y), DaysInYear(y), f, fNext);
    assert Week1Monday(y) == f - 3 && Week1Monday(y + 1) == fNext - 3;
    assert Week1Monday(y) <= n < Week1Monday(y + 1);
    assert WeekNumber(d) == (n - Week1Monday(y)) / 7 + 1;
  }

  /** The counting behind the previous lemma, over day numbers alone: n's
      Thursday tn lies in the year starting on day jan1 and lasting len days,
      whose first Thursday is f and whose successor's first Thursday is fNext.
      Then n lies in the span of ISO weeks starting three days before f, and
      the rounded-up ordinal of tn is n's week in that span. */
  lemma {:induction false} WeekArithmetic(n: int, tn: int, jan1: int, len: int, f: int, fNext: int)
    requires tn == n + 4 - IsoWeekday(n)
    requires IsoWeekday(tn) == 4 && IsoWeekday(f) == 4 && IsoWeekday(fNext) == 4
    requires jan1 <= tn < jan1 + len
    requires jan1 <= f < jan1 + 7
    requires jan1 + len <= fNext < jan1 + len + 7
    ensures f - 3 <= n < fNext - 3
    ensures (tn - jan1 + 7) / 7 == (n - (f - 3)) / 7 + 1
  {
    // tn is k whole weeks after f ...
    SameWeekdayApart(f, tn);
    var k := (tn - f) / 7;
    assert k >= 0;
    // ... and at least one week before fNext.
    SameWeekdayApart(tn, fNext);
    assert (fNext - tn) / 7 >= 1;
    // The rounded-up ordinal is k + 1.
    ModSevenOfWeeks(k + 1, f - jan1);
    assert (tn - jan1 + 7) / 7 == k + 1;
    // n sits IsoWeekday(n) - 1 days into the week starting 7k days after f - 3.
    ModSevenOfWeeks(k, IsoWeekday(n) - 1);
    assert (n - (f - 3)) / 7 == k;
  }

  /** ISO weeks partition the days: the year and week of a date are unique. */
  lemma {:induction false} IsoWeekUnique(d: Date, y1: int, w1: int, y2: int, w2: int)
    requires ValidDate(d)
    requires IsIsoWeek(d, y1, w1) && IsIsoWeek(d, y2, w2)
    ensures y1 == y2 && w1 == w2
  {
    IsoYearUnique(DayNumber(d), y1, y2);
  }

  /** A day lies in the span of only one ISO week-numbering year. */
  lemma {:induction false} IsoYearUnique(n: int, y1: int, y2: int)
    requires Week1Monday(y1) <= n < Week1Monday(y1 + 1)
    requires Week1Monday(y2) <= n < Week1Monday(y2 + 1)
    ensures y1 == y2
  {
    Week1MondayOrdered(y1, y2);
    Week1MondayOrdered(y2, y1);
    SpansDisjoint(n, y1, y2, Week1Monday(y1), Week1Monday(y1 + 1), Week1Monday(y2), Week1Monday(y2 + 1));
  }

  /** Two spans [a1, b1) and [a2, b2), ordered like y1 and y2, that share n. */
  lemma {:induction false} SpansDisjoint(n: int, y1: int, y2: int, a1: int, b1: int, a2: int, b2: int)
    requires a1 <= n < b1 && a2 <= n < b2
    requires y1 < y2 ==> b1 <= a2
    requires y2 < y1 ==> b2 <= a1
    ensures y1 == y2
  {
  }

  /** An earlier ISO year's span ends no later than a later one's begins. */
  lemma {:induction false} Week1MondayOrdered(a: int, b: int)
    ensures a < b ==> Week1Monday(a + 1) <= Week1Monday(b)
  {
    if a < b {
      Week1MondayMonotone(a + 1, b);
    }
  }

  lemma {:induction false} Week1MondayMonotone(a: int, b: int)
    requires a <= b
    ensures Week1Monday(a) <= Week1Monday(b)
    decreases b - a
  {
    if a < b {
      Week1MondayMonotone(a + 1, b);
      DaysBeforeNextYear(a);
    }
  }

  // ----- Worked examples. Day numbers: 2020-01-01 is day 18262, 2024-01-01 is day 19723.

  /** Day numbers of the first of January for the years the examples use. */
  lemma {:induction false} StartOf2020And2021()
    ensures DaysBeforeYear(2020) == 18262 && DaysBeforeYear(2021) == 18628
  {
    assert Leaps(1969) == 477 && Leaps(2019) == 489 && Leaps(2020) == 490;
  }

  lemma {:induction false} StartOf2023And2024()
    ensures DaysBeforeYear(2023) == 19358 && DaysBeforeYear(2024) == 19723
  {
    assert Leaps(1969) == 477 && Leaps(2022) == 490 && Leaps(2023) == 490;
  }

  lemma {:induction false} StartOf2025And2026()
    ensures DaysBeforeYear(2025) == 20089 && DaysBeforeYear(2026) == 20454
  {
    assert Leaps(1969) == 477 && Leaps(2024) == 491 && Leaps(2025) == 491;
  }

  /** A Monday 1 January opens week 1. */
  lemma {:induction false} WeekNumberOfNewYear2024(d: Date)
    requires d == Date(2024, 1, 1)
    ensures WeekNumber(d) == 1
  {
    StartOf2023And2024();
    StartOf2025And2026();
    assert IsoWeekday(DayNumber(d)) == 1;
    WeekNumberFromThursday(d, 2024, 19726);
  }

  /** A Sunday 31 December belongs to the last week of its own year. */
  lemma {:induction false} WeekNumberOfNewYearsEve2023(d: Date)
    requires d == Date(2023, 12, 31)
    ensures WeekNumber(d) == 52
  {
    StartOf2023And2024();
    assert DayNumber(d) == 19722;
    assert IsoWeekday(19722) == 7;
    WeekNumberFromThursday(d, 2023, 19719);
  }

  lemma {:induction false} WeekNumberOfMarch15th2024(d: Date)
    requires d == Date(2024, 3, 15)
    ensures WeekNumber(d) == 11
  {
    StartOf2023And2024();
    StartOf2025And2026();
    assert DayNumber(d) == 19797;
    assert IsoWeekday(19797) == 5;
    WeekNumberFromThursday(d, 2024, 19796);
  }

  /** A Sunday 3 January belongs to week 53 of the previous year. */
  lemma {:induction false} WeekNumberOfJanuary3rd2021(d: Date)
    requires d == Date(2021, 1, 3)
    ensures WeekNumber(d) == 53
  {
    StartOf2020And2021();
    assert DayNumber(d) == 18630;
    assert IsoWeekday(18630) == 7;
    WeekNumberFromThursday(d, 2020, 18627);
  }

  /** A Monday 30 December belongs to week 1 of the next year. */
  lemma {:induction false} WeekNumberOfDecember30th2024(d: Date)
    requires d == Date(2024, 12, 30)
    ensures WeekNumber(d) == 1
  {
    StartOf2023And2024();
    StartOf2025And2026();
    assert DayNumber(d) == 20087;
    assert IsoWeekday(20087) == 1;
    WeekNumberFromThursday(d, 2025, 20090);
  }
}
