/**
 * Gregorian calendar arithmetic behind the month grid and the day keys: month lengths,
 * a running day count, the weekday of a date and the day before a date. JavaScript's `Date`
 * works in the proleptic Gregorian calendar, which is what is written out here.
 */
module Calendar {

  /** A local calendar date as the `Date` getters report it: `getFullYear()`, `getMonth()` (0 to 11), `getDate()`. */
  datatype Date = Date(year: int, month: int, day: int)

  predicate IsLeapYear(y: int) {
    y % 4 == 0 && (y % 100 != 0 || y % 400 == 0)
  }

  function YearLength(y: int): int {
    if IsLeapYear(y) then 366 else 365
  }

  /** The number of days in month `m` (0 = January) of year `y`. */
  function DaysInMonth(y: int, m: int): (n: int)
    requires 0 <= m < 12
    ensures 28 <= n <= 31
    ensures m == 1 ==> (n == 29 <==> IsLeapYear(y))
    ensures m != 1 ==> n >= 30
  {
    if m == 1 then (if IsLeapYear(y) then 29 else 28)
    else if m == 3 || m == 5 || m == 8 || m == 10 then 30
    else 31
  }

  predicate ValidDate(d: Date) {
    0 <= d.month < 12 && 1 <= d.day <= DaysInMonth(d.year, d.month)
  }

  /** Days from 1 January of year 1 to 1 January of year `y`. */
  function DaysBeforeYear(y: int): int {
    var p := y - 1;
    365 * p + p / 4 - p / 100 + p / 400
  }

  /** Days in a common year before the first of each month, and the whole year at index 12. */
  const CommonYearStarts: seq<int> := [0, 31, 59, 90, 120, 151, 181, 212, 243, 273, 304, 334, 365]

  /** Days from 1 January of year `y` to the first of month `m`; `m == 12` is the whole year. */
  function DaysBeforeMonth(y: int, m: int): int
    requires 0 <= m <= 12
  {
    CommonYearStarts[m] + (if m >= 2 && IsLeapYear(y) then 1 else 0)
  }

  /** Days from 1 January of year 1 to `d`; consecutive days have consecutive numbers. */
  function DayNumber(d: Date): int
    requires 0 <= d.month < 12
  {
    DaysBeforeYear(d.year) + DaysBeforeMonth(d.year, d.month) + d.day - 1
  }

  /** `getDay()`: 0 for Sunday up to 6 for Saturday. 1 January of year 1 is a Monday. */
  function Weekday(d: Date): (w: int)
    requires 0 <= d.month < 12
    ensures 0 <= w < 7
  {
    (DayNumber(d) + 1) % 7
  }

  /** A year adds its own length to the day count: leap years are exactly the 366-day years. */
  lemma YearStep(y: int)
    ensures DaysBeforeYear(y + 1) == DaysBeforeYear(y) + YearLength(y)
  {
    DivNext(y - 1, 4);
    DivNext(y - 1, 100);
    DivNext(y - 1, 400);
  }

  /** Counting one further either completes another multiple of `k` or does not. */
  lemma DivNext(p: int, k: int)
    requires k > 0
    ensures (p + 1) / k == p / k + (if (p + 1) % k == 0 then 1 else 0)
  {
    var q := p / k;
    var r := p % k;
    assert p == k * q + r;
    if r == k - 1 {
      assert p + 1 == k * (q + 1);
      DivExact(p + 1, k, q + 1);
    } else {
      assert p + 1 == k * q + (r + 1);
      DivWithin(p + 1, k, q, r + 1);
    }
  }

  lemma DivExact(x: int, k: int, q: int)
    requires k > 0 && x == k * q
    ensures x / k == q && x % k == 0
  {
    DivWithin(x, k, q, 0);
  }

  /** Euclidean division is unique: `x == k * q + r` with `0 <= r < k` fixes the quotient and the remainder. */
  lemma DivWithin(x: int, k: int, q: int, r: int)
    requires k > 0 && 0 <= r < k && x == k * q + r
    ensures x / k == q && x % k == r
  {
    var q' := x / k;
    var r' := x % k;
    assert k * q' + r' == k * q + r;
    if q' < q {
      assert k * (q - q') == r' - r;
      MulAtLeast(k, q - q');
    } else if q' > q {
      assert k * (q' - q) == r - r';
      MulAtLeast(k, q' - q);
    }
  }

  lemma {:induction false} MulAtLeast(k: int, a: int)
    requires k > 0 && a >= 1
    ensures k * a >= k
    decreases a
  {
    if a > 1 {
      MulAtLeast(k, a - 1);
      assert k * a == k * (a - 1) + k;
    }
  }

  /** A month adds its own length to the day count. */
  lemma MonthStep(y: int, m: int)
    requires 0 <= m < 12
    ensures DaysBeforeMonth(y, m + 1) == DaysBeforeMonth(y, m) + DaysInMonth(y, m)
  {
  }

  /** The twelve months make up the year. */
  lemma MonthsMakeYear(y: int)
    ensures DaysBeforeMonth(y, 12) == YearLength(y)
  {
  }

  /** The day before `d`, crossing month and year boundaries. */
  function PreviousDay(d: Date): (r: Date)
    requires ValidDate(d)
    ensures ValidDate(r)
  {
    if d.day > 1 then Date(d.year, d.month, d.day - 1)
    else if d.month > 0 then Date(d.year, d.month - 1, DaysInMonth(d.year, d.month - 1))
    else Date(d.year - 1, 11, 31)
  }

  /** `PreviousDay` is one day earlier in the running day count, so it agrees with `Date.setDate(getDate() - 1)`. */
  lemma PreviousDayNumber(d: Date)
    requires ValidDate(d)
    ensures DayNumber(PreviousDay(d)) == DayNumber(d) - 1
  {
    if d.day == 1 {
      if d.month > 0 {
        MonthStep(d.year, d.month - 1);
      } else {
        YearStep(d.year - 1);
        MonthsMakeYear(d.year - 1);
        MonthStep(d.year - 1, 11);
      }
    }
  }

  /** The day before is one weekday earlier. */
  lemma PreviousDayWeekday(d: Date)
    requires ValidDate(d)
    ensures Weekday(PreviousDay(d)) == (Weekday(d) + 6) % 7
  {
    PreviousDayNumber(d);
    var a := DayNumber(d) + 1;
    assert Weekday(PreviousDay(d)) == (a - 1) % 7;
    assert Weekday(d) == a % 7;
    ModSevenBack(a);
  }

  /** Stepping back one day steps back one place in a week of seven. */
  lemma ModSevenBack(a: int)
    ensures (a - 1) % 7 == (a % 7 + 6) % 7
  {
    var q := a / 7;
    var r := a % 7;
    assert a == 7 * q + r;
    if r == 0 {
      assert a - 1 == 7 * (q - 1) + 6;
    } else {
      assert a - 1 == 7 * q + (r - 1);
    }
  }

  /** The first day of the month after month `m` of year `y`: `new Date(y, m + 1, 1)`. */
  function FirstOfNextMonth(y: int, m: int): (r: Date)
    requires 0 <= m < 12
    ensures ValidDate(r) && r.day == 1
  {
    if m == 11 then Date(y + 1, 0, 1) else Date(y, m + 1, 1)
  }

  /**
   * Day 0 of the next month is the last day of this month: `new Date(y, m + 1, 0).getDate()`
   * is `DaysInMonth(y, m)`, and it is the day `DaysInMonth(y, m) - 1` days after the first.
   */
  lemma DayZeroOfNextMonth(y: int, m: int)
    requires 0 <= m < 12
    ensures PreviousDay(FirstOfNextMonth(y, m)) == Date(y, m, DaysInMonth(y, m))
    ensures DayNumber(FirstOfNextMonth(y, m)) == DayNumber(Date(y, m, 1)) + DaysInMonth(y, m)
  {
    PreviousDayNumber(FirstOfNextMonth(y, m));
  }

  /** Anchors: the Unix epoch, 1 January 1970, was a Thursday; 1 January 2000 a Saturday. */
  lemma KnownWeekdays()
    ensures Weekday(Date(1970, 0, 1)) == 4
    ensures Weekday(Date(2000, 0, 1)) == 6
  {
  }
}
