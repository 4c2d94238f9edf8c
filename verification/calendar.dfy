/** The proleptic Gregorian calendar as the scheduler sees it through the
    chrono crate: leap years, month lengths, chrono's representable date
    range, the predecessor of a date, `get_last_day_of_month`, and the ISO
    weekday of a date. */
module Calendar {
  import opened Wrappers

  datatype Date = Date(year: int, month: int, day: int)

  /** Gregorian leap-year rule (Dafny's `%` is Euclidean, which is the
      proleptic rule for negative years too). */
  predicate IsLeapYear(y: int) {
    y % 4 == 0 && (y % 100 != 0 || y % 400 == 0)
  }

  /** Month lengths of the Gregorian calendar: the reference table. */
  function DaysInMonth(y: int, m: int): (n: int)
    requires 1 <= m <= 12
    ensures 28 <= n <= 31
  {
    if m == 2 then (if IsLeapYear(y) then 29 else 28)
    else if m == 4 || m == 6 || m == 9 || m == 11 then 30
    else 31
  }

  predicate ValidDate(d: Date) {
    1 <= d.month <= 12 && 1 <= d.day <= DaysInMonth(d.year, d.month)
  }

  /** chrono's `NaiveDate` covers years `i32::MIN >> 13 ..= i32::MAX >> 13`. */
  const MinYear: int := -262144
  const MaxYear: int := 262143

  /** A date chrono's `NaiveDate` can hold. */
  predicate Representable(d: Date) {
    ValidDate(d) && MinYear <= d.year <= MaxYear
  }

  /** chrono's `NaiveDate::from_ymd_opt`: the date, when it exists and is in
      range. */
  function FromYmd(y: int, m: int, d: int): (r: Option<Date>)
    ensures r.Some? <==> Representable(Date(y, m, d))
    ensures r.Some? ==> r.value == Date(y, m, d)
  {
    if 1 <= m <= 12 && 1 <= d <= DaysInMonth(y, m) && MinYear <= y <= MaxYear then Some(Date(y, m, d))
    else None
  }

  /** chrono's `NaiveDate::pred_opt`: the previous day, or `None` on the first
      representable day. */
  function Pred(d: Date): (r: Option<Date>)
    requires Representable(d)
    ensures r.None? <==> d == Date(MinYear, 1, 1)
    ensures r.Some? ==> Representable(r.value)
  {
    if d.day > 1 then Some(Date(d.year, d.month, d.day - 1))
    else if d.month > 1 then Some(Date(d.year, d.month - 1, DaysInMonth(d.year, d.month - 1)))
    else if d.year > MinYear then Some(Date(d.year - 1, 12, 31))
    else None
  }

  /** `get_last_day_of_month(year, month)`: the day of the date before the
      first day of the following month, or 28 when chrono cannot build one of
      those dates. */
  function LastDayOfMonth(year: int, month: nat): (r: int)
    ensures 1 <= month <= 11 && MinYear <= year <= MaxYear ==> r == DaysInMonth(year, month)
    ensures month == 12 && MinYear <= year < MaxYear ==> r == 31
    ensures month == 0 && MinYear < year <= MaxYear ==> r == 31
    ensures month > 12 || year < MinYear || year > MaxYear ==> r == 28
    ensures month == 12 && year == MaxYear ==> r == 28
    ensures month == 0 && year == MinYear ==> r == 28
  {
    var next := if month == 12 then FromYmd(year + 1, 1, 1) else FromYmd(year, month + 1, 1);
    match next
    case None => 28
    case Some(first) =>
      match Pred(first)
      case None => 28
      case Some(p) => p.day
  }

  /** The month lengths `get_last_day_of_month` yields for every real month
      of a year chrono supports: 31 for months 1, 3, 5, 7, 8, 10, 12, 30 for
      4, 6, 9, 11, and for February 29 in a leap year and 28 otherwise. */
  lemma LastDayOfMonthGregorian(year: int, month: nat)
    requires 1 <= month <= 12 && MinYear <= year < MaxYear
    ensures LastDayOfMonth(year, month) == 31 <==> month in {1, 3, 5, 7, 8, 10, 12}
    ensures LastDayOfMonth(year, month) == 30 <==> month in {4, 6, 9, 11}
    ensures month == 2 ==> (LastDayOfMonth(year, month) == 29 <==> IsLeapYear(year))
    ensures month == 2 ==> (LastDayOfMonth(year, month) == 28 <==> !IsLeapYear(year))
  {
  }

  /** The value `get_last_day_of_month` yields is the last day of the month:
      that day exists and the one after it does not. */
  lemma LastDayIsLast(year: int, month: nat)
    requires 1 <= month <= 12 && MinYear <= year < MaxYear
    ensures FromYmd(year, month, LastDayOfMonth(year, month)).Some?
    ensures FromYmd(year, month, LastDayOfMonth(year, month) + 1).None?
  {
  }

  // ---------------------------------------------------------------------
  // Day numbers and weekdays

  /** Number of leap years among years 1..n (floor division, so it extends to
      n <= 0 as a difference-preserving count). */
  function LeapsUpTo(n: int): int {
    n / 4 - n / 100 + n / 400
  }

  /** Days from 1970-01-01 to January 1 of year `y`. */
  function DaysBeforeYear(y: int): int {
    365 * (y - 1970) + LeapsUpTo(y - 1) - LeapsUpTo(1969)
  }

  /** Days from January 1 to the first of month `m` of year `y`: the
      cumulative table. */
  function DaysBeforeMonth(y: int, m: int): int
    requires 1 <= m <= 12
  {
    var leap := if IsLeapYear(y) && m > 2 then 1 else 0;
    leap + (if m == 1 then 0 else if m == 2 then 31 else if m == 3 then 59
            else if m == 4 then 90 else if m == 5 then 120 else if m == 6 then 151
            else if m == 7 then 181 else if m == 8 then 212 else if m == 9 then 243
            else if m == 10 then 273 else if m == 11 then 304 else 334)
  }

  /** Days since 1970-01-01 (negative before it). */
  function DayNumber(d: Date): int
    requires ValidDate(d)
  {
    DaysBeforeYear(d.year) + DaysBeforeMonth(d.year, d.month) + d.day - 1
  }

  /** ISO weekday, Monday = 1 .. Sunday = 7, as chrono's
      `weekday().num_days_from_monday() + 1`; 1970-01-01 was a Thursday. */
  function IsoWeekday(d: Date): (w: int)
    requires ValidDate(d)
    ensures 1 <= w <= 7
  {
    (DayNumber(d) + 3) % 7 + 1
  }

  /** Stepping `n` down by one lowers `n / k` exactly when `k` divides `n`
      (for the three divisors of the leap-year rule). */
  lemma DivStep(n: int, k: int)
    requires k == 4 || k == 100 || k == 400
    ensures n / k - (n - 1) / k == (if n % k == 0 then 1 else 0)
  {
    var q := (n - 1) / k;
    var r := (n - 1) % k;
    if k == 4 {
      assert n - 1 == 4 * q + r && 0 <= r < 4;
    } else if k == 100 {
      assert n - 1 == 100 * q + r && 0 <= r < 100;
    } else {
      assert n - 1 == 400 * q + r && 0 <= r < 400;
    }
  }

  /** Consecutive years start 365 or 366 days apart, 366 exactly after a leap
      year. */
  lemma YearLength(y: int)
    ensures DaysBeforeYear(y + 1) - DaysBeforeYear(y) == if IsLeapYear(y) then 366 else 365
  {
    DivStep(y, 4);
    DivStep(y, 100);
    DivStep(y, 400);
    var a, b, c := y / 4 - (y - 1) / 4, y / 100 - (y - 1) / 100, y / 400 - (y - 1) / 400;
    assert DaysBeforeYear(y + 1) - DaysBeforeYear(y) == 365 + a - b + c;
    DivisorChain(y);
  }

  /** Multiples of 400 are multiples of 100, and those are multiples of 4. */
  lemma DivisorChain(y: int)
    ensures y % 400 == 0 ==> y % 100 == 0
    ensures y % 100 == 0 ==> y % 4 == 0
  {
    if y % 400 == 0 {
      MultipleOf(y, 400, 100);
    }
    if y % 100 == 0 {
      MultipleOf(y, 100, 4);
    }
  }

  /** A multiple of `big` is a multiple of each `small` dividing `big`. */
  lemma MultipleOf(y: int, big: int, small: int)
    requires (big == 400 && small == 100) || (big == 100 && small == 4)
    requires y % big == 0
    ensures y % small == 0
  {
    var q := y / big;
    var f := big / small;
    assert big == small * f;
    assert y == big * q;
    var d, r := y / small, y % small;
    assert y == small * d + r && 0 <= r < small;
    assert r == small * (f * q - d);
  }

  /** The cumulative table agrees with the month lengths. */
  lemma MonthStep(y: int, m: int)
    requires 1 <= m < 12
    ensures DaysBeforeMonth(y, m + 1) == DaysBeforeMonth(y, m) + DaysInMonth(y, m)
  {
  }

  /** `Pred` steps back exactly one day on the linear day count. */
  lemma PredDayNumber(d: Date)
    requires Representable(d) && d != Date(MinYear, 1, 1)
    ensures DayNumber(Pred(d).value) == DayNumber(d) - 1
  {
    if d.day == 1 && d.month > 1 {
      MonthStep(d.year, d.month - 1);
    } else if d.day == 1 {
      YearLength(d.year - 1);
    }
  }

  /** Weekdays advance by one, Sunday wrapping to Monday, from each day to the
      next. */
  lemma WeekdayAdvances(d: Date)
    requires Representable(d) && d != Date(MinYear, 1, 1)
    ensures IsoWeekday(d) == IsoWeekday(Pred(d).value) % 7 + 1
  {
    PredDayNumber(d);
    WeekStep(DayNumber(d));
  }

  lemma WeekStep(x: int)
    ensures (x + 3) % 7 + 1 == ((x - 1 + 3) % 7 + 1) % 7 + 1
  {
    var r := (x + 2) % 7;
    assert x + 2 == 7 * ((x + 2) / 7) + r;
    if r == 6 {
      assert (x + 3) % 7 == 0;
    } else {
      assert (x + 3) % 7 == r + 1;
    }
  }

  /** Anchors: 2024-01-01 was a Monday, 2000-01-01 a Saturday. */
  lemma KnownWeekdays()
    ensures IsoWeekday(Date(2024, 1, 1)) == 1
    ensures IsoWeekday(Date(2000, 1, 1)) == 6
  {
    assert 1969 / 4 == 492 && 1969 / 100 == 19 && 1969 / 400 == 4;
    assert 2023 / 4 == 505 && 2023 / 100 == 20 && 2023 / 400 == 5;
    assert 1999 / 4 == 499 && 1999 / 100 == 19 && 1999 / 400 == 4;
    assert DayNumber(Date(2024, 1, 1)) == 19723;
    assert DayNumber(Date(2000, 1, 1)) == 10957;
    assert 19726 % 7 == 0 && 10960 % 7 == 5;
  }
}
