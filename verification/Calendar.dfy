/**
 The proleptic Gregorian calendar in UTC, as far as the cron engine uses Go's
 `time` package.

 Whole-second instants are counted from the zero time, 0001-01-01 00:00:00 UTC,
 which is a Monday.  Months are numbered consecutively from that instant: month
 index `12 * (year - 1) + (month - 1)`.  A date with an out-of-range month or day
 is normalised the way `time.Date` does it: the month carries into the year, and
 the days are then counted from the first day of that month.
 */
module Calendar {

  const DAY: nat := 86400
  const HOUR: nat := 3600
  const MINUTE: nat := 60

  predicate IsLeap(y: nat) {
    y % 4 == 0 && (y % 100 != 0 || y % 400 == 0)
  }

  lemma RemainderOfSum(x: nat, q: nat, r: nat, unit: nat)
    requires 0 < unit && r < unit && x == q * unit + r
    ensures x / unit == q && x % unit == r
  {
    assert (q - x / unit) * unit == x % unit - r;
    SmallMultiple(q - x / unit, unit);
  }

  lemma SmallMultiple(d: int, unit: int)
    requires -unit < d * unit < unit
    ensures d == 0
  {
  }

  /** The length of month `m` of a year that is leap or not. */
  function MonthLength(leap: bool, m: nat): (n: nat)
    requires 1 <= m <= 12
    ensures 28 <= n <= 31
  {
    if m == 2 then (if leap then 29 else 28)
    else if m == 4 || m == 6 || m == 9 || m == 11 then 30
    else 31
  }

  function DaysIn(month: nat): (n: nat)
    ensures 28 <= n <= 31
  {
    MonthLength(IsLeap(month / 12 + 1), month % 12 + 1)
  }

  /** The number of days before the first day of the month with this index. */
  function MonthStart(month: nat): nat {
    if month == 0 then 0 else MonthStart(month - 1) + DaysIn(month - 1)
  }

  function YearStart(y: nat): nat
    requires 1 <= y
  {
    MonthStart(12 * (y - 1))
  }

  /** The index of the month that day `day` (counted from the zero time) falls in. */
  function MonthOf(day: nat): (month: nat)
    ensures MonthStart(month) <= day < MonthStart(month + 1)
  {
    SearchMonth(day, 0)
  }

  function SearchMonth(day: nat, from: nat): (month: nat)
    requires MonthStart(from) <= day
    ensures MonthStart(month) <= day < MonthStart(month + 1)
    decreases day - MonthStart(from)
  {
    if day < MonthStart(from + 1) then from else SearchMonth(day, from + 1)
  }

  // The fields of a whole-second instant.

  function Year(x: nat): (y: nat)
    ensures 1 <= y
  {
    MonthOf(x / DAY) / 12 + 1
  }

  function Month(x: nat): (m: nat)
    ensures 1 <= m <= 12
  {
    MonthOf(x / DAY) % 12 + 1
  }

  function Day(x: nat): (d: nat)
    ensures 1 <= d <= 31
  {
    x / DAY - MonthStart(MonthOf(x / DAY)) + 1
  }

  function Weekday(x: nat): (w: nat)
    ensures w < 7
  {
    (x / DAY + 1) % 7
  }

  function HourOf(x: nat): (h: nat)
    ensures h < 24
  {
    x % DAY / HOUR
  }

  function MinuteOf(x: nat): (m: nat)
    ensures m < 60
  {
    x % HOUR / MINUTE
  }

  function SecondOf(x: nat): (s: nat)
    ensures s < 60
  {
    x % MINUTE
  }

  /** `time.Date` in UTC for a year, a month that may exceed 12, a day and a time of day. */
  function Date(y: nat, m: nat, d: nat, h: nat, min: nat, s: nat): nat
    requires 1 <= y && 1 <= m && 1 <= d
  {
    (MonthStart(12 * (y - 1) + (m - 1)) + (d - 1)) * DAY + h * HOUR + min * MINUTE + s
  }

  /** `Time.AddDate(0, months, days)`. */
  function AddDate(x: nat, months: nat, days: nat): nat {
    Date(Year(x), Month(x) + months, Day(x) + days, HourOf(x), MinuteOf(x), SecondOf(x))
  }

  /** `Time.Truncate(unit)`: rounded down to a multiple of the unit since the zero time. */
  function Truncate(x: nat, unit: nat): nat
    requires 0 < unit
  {
    x - x % unit
  }

  // Laws of the calendar.

  lemma {:induction false} MonthStartMonotone(a: nat, b: nat)
    requires a < b
    ensures MonthStart(a) + 28 * (b - a) <= MonthStart(b)
    decreases b
  {
    if a < b - 1 {
      MonthStartMonotone(a, b - 1);
    }
  }

  lemma MonthOfUnique(day: nat, month: nat)
    requires MonthStart(month) <= day < MonthStart(month + 1)
    ensures MonthOf(day) == month
  {
    var m := MonthOf(day);
    if m < month {
      MonthStartOrder(m + 1, month);
    } else if month < m {
      MonthStartOrder(month + 1, m);
    }
  }

  /** The fields determine the instant: `time.Date` inverts them. */
  lemma DateOfFields(x: nat)
    ensures Date(Year(x), Month(x), Day(x), HourOf(x), MinuteOf(x), SecondOf(x)) == x
  {
    assert 12 * (Year(x) - 1) + (Month(x) - 1) == MonthOf(x / DAY);
    PartsOfDay(x);
  }

  lemma PartsOfDay(x: nat)
    ensures x == x / DAY * DAY + HourOf(x) * HOUR + MinuteOf(x) * MINUTE + SecondOf(x)
  {
    var r := x % DAY;
    RemainderOfSum(x, x / DAY * 24 + r / HOUR, r % HOUR, HOUR);
    var q := r % HOUR;
    RemainderOfSum(x, x / HOUR * 60 + q / MINUTE, q % MINUTE, MINUTE);
  }

  /** And the other way round, for every date that exists. */
  lemma FieldsOfDate(y: nat, m: nat, d: nat, h: nat, min: nat, s: nat)
    requires 1 <= y && 1 <= m <= 12 && 1 <= d <= MonthLength(IsLeap(y), m)
    requires h < 24 && min < 60 && s < 60
    ensures var x := Date(y, m, d, h, min, s);
      && Year(x) == y && Month(x) == m && Day(x) == d
      && HourOf(x) == h && MinuteOf(x) == min && SecondOf(x) == s
  {
    var month := 12 * (y - 1) + (m - 1);
    MonthOfDate(y, m, d, month);
    MonthIndex(y, m);
    DateParts(y, m, d, h, min, s);
    YearMonthDay(Date(y, m, d, h, min, s), y, m, d, month);
  }

  lemma DateParts(y: nat, m: nat, d: nat, h: nat, min: nat, s: nat)
    requires 1 <= y && 1 <= m && 1 <= d && h < 24 && min < 60 && s < 60
    ensures var x := Date(y, m, d, h, min, s);
      && x / DAY == MonthStart(12 * (y - 1) + (m - 1)) + (d - 1)
      && HourOf(x) == h && MinuteOf(x) == min && SecondOf(x) == s
  {
    TimeOfDay(MonthStart(12 * (y - 1) + (m - 1)) + (d - 1), h, min, s);
  }

  lemma YearMonthDay(x: nat, y: nat, m: nat, d: nat, month: nat)
    requires MonthOf(x / DAY) == month && month / 12 == y - 1 && month % 12 == m - 1
    requires x / DAY == MonthStart(month) + (d - 1)
    ensures Year(x) == y && Month(x) == m && Day(x) == d
  {
    FieldsOfDay(x, month);
  }

  lemma MonthOfDate(y: nat, m: nat, d: nat, month: nat)
    requires 1 <= y && 1 <= m <= 12 && 1 <= d <= MonthLength(IsLeap(y), m) && month == 12 * (y - 1) + (m - 1)
    ensures MonthOf(MonthStart(month) + (d - 1)) == month
  {
    DaysInMonthOfYear(y, m);
    NextMonthStart(month);
    MonthOfUnique(MonthStart(month) + (d - 1), month);
  }

  lemma FieldsOfDay(x: nat, month: nat)
    requires MonthOf(x / DAY) == month
    ensures Year(x) == month / 12 + 1 && Month(x) == month % 12 + 1 && Day(x) == x / DAY - MonthStart(month) + 1
  {
  }

  lemma MonthIndex(y: nat, m: nat)
    requires 1 <= y && 1 <= m <= 12
    ensures var month := 12 * (y - 1) + (m - 1); month / 12 == y - 1 && month % 12 == m - 1
  {
    RemainderOfSum(12 * (y - 1) + (m - 1), y - 1, m - 1, 12);
  }

  lemma TimeOfDay(day: nat, h: nat, min: nat, s: nat)
    requires h < 24 && min < 60 && s < 60
    ensures var x := day * DAY + h * HOUR + min * MINUTE + s;
      x / DAY == day && HourOf(x) == h && MinuteOf(x) == min && SecondOf(x) == s
  {
    var x := day * DAY + h * HOUR + min * MINUTE + s;
    RemainderOfSum(x, day, h * HOUR + min * MINUTE + s, DAY);
    RemainderOfSum(h * HOUR + min * MINUTE + s, h, min * MINUTE + s, HOUR);
    RemainderOfSum(x, day * 24 + h, min * MINUTE + s, HOUR);
    RemainderOfSum(min * MINUTE + s, min, s, MINUTE);
    RemainderOfSum(x, day * 1440 + h * 60 + min, s, MINUTE);
  }

  /** The usual closed form for the days before a year. */
  lemma {:induction false} YearStartClosedForm(y: nat)
    requires 1 <= y
    ensures YearStart(y) == 365 * (y - 1) + (y - 1) / 4 - (y - 1) / 100 + (y - 1) / 400
  {
    if y > 1 {
      YearStartClosedForm(y - 1);
      YearLength(y - 1);
      LeapCount(y - 1);
    }
  }

  lemma YearLength(y: nat)
    requires 1 <= y
    ensures YearStart(y + 1) == YearStart(y) + (if IsLeap(y) then 366 else 365)
  {
    var first := 12 * (y - 1);
    YearIsSum(y, first);
    YearIsSum(y + 1, first + 12);
    YearSpan(y, first);
  }

  lemma YearIsSum(y: nat, first: nat)
    requires 1 <= y && first == 12 * (y - 1)
    ensures YearStart(y) == Sum(DaysIn, 0, first)
  {
    YearStartIs(y, first);
    MonthStartIsSum(first);
  }

  lemma YearSpan(y: nat, first: nat)
    requires 1 <= y && first == 12 * (y - 1)
    ensures Sum(DaysIn, 0, first + 12) == Sum(DaysIn, 0, first) + (if IsLeap(y) then 366 else 365)
  {
    MonthsOfYear(y, first);
    YearOfDays(DaysIn, first, IsLeap(y));
  }

  /** The sum of n consecutive values; months are added up without looking at what they are. */
  function Sum(days: nat -> nat, from: nat, n: nat): nat {
    if n == 0 then 0 else Sum(days, from, n - 1) + days(from + n - 1)
  }

  lemma {:induction false} SumAdds(days: nat -> nat, n: nat, k: nat)
    ensures Sum(days, 0, n + k) == Sum(days, 0, n) + Sum(days, n, k)
  {
    if k > 0 {
      SumAdds(days, n, k - 1);
    }
  }

  lemma {:induction false} MonthStartIsSum(month: nat)
    ensures MonthStart(month) == Sum(DaysIn, 0, month)
  {
    if month > 0 {
      MonthStartIsSum(month - 1);
    }
  }

  /** The twelve values from `first` on are the months of a year that is leap or not. */
  ghost predicate IsYear(days: nat -> nat, first: nat, leap: bool) {
    forall m | 1 <= m <= 12 :: days(first + m - 1) == MonthLength(leap, m)
  }

  lemma MonthsOfYear(y: nat, first: nat)
    requires 1 <= y && first == 12 * (y - 1)
    ensures IsYear(DaysIn, first, IsLeap(y))
  {
    forall m | 1 <= m <= 12
      ensures DaysIn(first + m - 1) == MonthLength(IsLeap(y), m)
    {
      DaysInMonthOfYear(y, m);
    }
  }

  lemma {:induction false} SumOfMonths(days: nat -> nat, first: nat, leap: bool, n: nat)
    requires IsYear(days, first, leap) && n <= 12
    ensures Sum(days, first, n) == Months(leap, n)
  {
    if n > 0 {
      SumOfMonths(days, first, leap, n - 1);
      assert days(first + n - 1) == MonthLength(leap, n);
    }
  }

  lemma YearOfDays(days: nat -> nat, first: nat, leap: bool)
    requires IsYear(days, first, leap)
    ensures Sum(days, 0, first + 12) == Sum(days, 0, first) + (if leap then 366 else 365)
  {
    SumAdds(days, first, 12);
    SumOfMonths(days, first, leap, 12);
    YearSums(leap);
  }

  /** The days of the first n months of a year. */
  function Months(leap: bool, n: nat): nat
    requires n <= 12
  {
    if n == 0 then 0 else Months(leap, n - 1) + MonthLength(leap, n)
  }

  lemma YearSums(leap: bool)
    ensures Months(leap, 12) == if leap then 366 else 365
  {
    assert Months(leap, 1) == 31;
    assert Months(leap, 2) == (if leap then 60 else 59);
    assert Months(leap, 4) == Months(leap, 2) + 61;
    assert Months(leap, 6) == Months(leap, 4) + 61;
    assert Months(leap, 8) == Months(leap, 6) + 62;
    assert Months(leap, 10) == Months(leap, 8) + 61;
  }

  lemma YearStartIs(y: nat, first: nat)
    requires 1 <= y && first == 12 * (y - 1)
    ensures YearStart(y) == MonthStart(first)
  {
  }

  lemma NextMonthStart(month: nat)
    ensures MonthStart(month + 1) == MonthStart(month) + DaysIn(month)
  {
  }

  lemma DaysInMonthOfYear(y: nat, m: nat)
    requires 1 <= y && 1 <= m <= 12
    ensures DaysIn(12 * (y - 1) + (m - 1)) == MonthLength(IsLeap(y), m)
  {
    MonthIndex(y, m);
  }

  lemma LeapCount(y: nat)
    requires 1 <= y
    ensures y / 4 - y / 100 + y / 400 - ((y - 1) / 4 - (y - 1) / 100 + (y - 1) / 400)
         == (if IsLeap(y) then 1 else 0)
  {
    MultiplesStep4(y);
    MultiplesStep100(y);
    MultiplesStep400(y);
    MultiplesNest(y);
  }

  lemma MultiplesNest(y: nat)
    ensures y % 400 == 0 ==> y % 100 == 0
    ensures y % 100 == 0 ==> y % 4 == 0
  {
    var q, h := y / 400, y / 100;
    assert y % 400 == 0 ==> y == 100 * (4 * q);
    assert y % 100 == 0 ==> y == 4 * (25 * h);
  }

  lemma MultiplesStep4(y: nat)
    requires 1 <= y
    ensures y / 4 - (y - 1) / 4 == if y % 4 == 0 then 1 else 0
  {
  }

  lemma MultiplesStep100(y: nat)
    requires 1 <= y
    ensures y / 100 - (y - 1) / 100 == if y % 100 == 0 then 1 else 0
  {
  }

  lemma MultiplesStep400(y: nat)
    requires 1 <= y
    ensures y / 400 - (y - 1) / 400 == if y % 400 == 0 then 1 else 0
  {
  }

  lemma MonthStartOrder(a: nat, b: nat)
    requires a <= b
    ensures MonthStart(a) <= MonthStart(b)
  {
    if a < b {
      MonthStartMonotone(a, b);
    }
  }

  lemma YearStartMonotone(a: nat, b: nat)
    requires 1 <= a <= b
    ensures YearStart(a) <= YearStart(b)
  {
    MonthStartOrder(12 * (a - 1), 12 * (b - 1));
  }

  /** Years are ordered like instants. */
  lemma YearBounds(x: nat)
    ensures YearStart(Year(x)) * DAY <= x < YearStart(Year(x) + 1) * DAY
  {
    YearDays(x);
    SecondsOfDays(x, YearStart(Year(x)), YearStart(Year(x) + 1));
  }

  lemma YearDays(x: nat)
    ensures YearStart(Year(x)) <= x / DAY < YearStart(Year(x) + 1)
  {
    var month := MonthOf(x / DAY);
    var first := 12 * (month / 12);
    YearMonths(month);
    MonthStartOrder(first, month);
    MonthStartOrder(month + 1, first + 12);
    FieldsOfDay(x, month);
    YearStartIs(Year(x), first);
    YearStartIs(Year(x) + 1, first + 12);
  }

  lemma YearMonths(month: nat)
    ensures 12 * (month / 12) <= month < 12 * (month / 12) + 12
  {
  }

  lemma SecondsOfDays(x: nat, from: nat, to: nat)
    requires from <= x / DAY < to
    ensures from * DAY <= x < to * DAY
  {
  }

  /** `Year(x) >= y` exactly when x is not before the first second of year y. */
  lemma YearAtLeast(x: nat, y: nat)
    requires 1 <= y
    ensures Year(x) >= y <==> x >= YearStart(y) * DAY
  {
    YearBounds(x);
    if Year(x) >= y {
      YearStartMonotone(y, Year(x));
    } else {
      YearStartMonotone(Year(x) + 1, y);
    }
  }
}
