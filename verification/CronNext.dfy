/**
 The calendar walk of `SpecSchedule.Next` and its proof against "the least matching
 second strictly after t".
 */
module CronNext {
  import opened Calendar
  import opened CronSchedule

  /** x is the first second of its month. */
  ghost predicate StartsMonth(x: nat) {
    x == MonthStart(MonthOf(x / DAY)) * DAY
  }

  /**
   What the walk keeps once it has moved: a field that does not match is at the first
   second of its unit, so all lower fields are at their minimum.
   */
  ghost predicate Aligned(s: SpecSchedule, x: nat) {
    && (Month(x) in s.month || StartsMonth(x))
    && (s.DayMatches(x) || x % DAY == 0)
    && (HourOf(x) in s.hour || x % HOUR == 0)
    && (MinuteOf(x) in s.minute || x % MINUTE == 0)
  }

  /** The first second of a day. */
  lemma Midnight(day: nat)
    ensures var x := day * DAY;
      && x / DAY == day && x % DAY == 0 && x % HOUR == 0 && x % MINUTE == 0
      && HourOf(x) == 0 && MinuteOf(x) == 0 && SecondOf(x) == 0
  {
    RemainderOfSum(day * DAY, day, 0, DAY);
    RemainderOfSum(day * DAY, day * 24, 0, HOUR);
    RemainderOfSum(day * DAY, day * 1440, 0, MINUTE);
  }

  /** All seconds of a month have that month. */
  lemma InMonth(z: nat, month: nat)
    requires MonthStart(month) * DAY <= z < MonthStart(month + 1) * DAY
    ensures MonthOf(z / DAY) == month
  {
    assert MonthStart(month) <= z / DAY < MonthStart(month + 1);
    MonthOfUnique(z / DAY, month);
  }

  lemma HeadOfMonth(month: nat)
    ensures MonthStart(month) * DAY / DAY == MonthStart(month)
    ensures MonthOf(MonthStart(month) * DAY / DAY) == month
  {
    RemainderOfSum(MonthStart(month) * DAY, MonthStart(month), 0, DAY);
    MonthOfUnique(MonthStart(month), month);
  }

  lemma MonthHead(month: nat)
    ensures var x := MonthStart(month) * DAY;
      && MonthOf(x / DAY) == month && StartsMonth(x) && Day(x) == 1
      && AddDate(x, 1, 0) == MonthStart(month + 1) * DAY
  {
    var x := MonthStart(month) * DAY;
    Midnight(MonthStart(month));
    HeadOfMonth(month);
    assert 12 * (Year(x) - 1) + (Month(x) + 1 - 1) == month + 1;
  }

  lemma MonthFirst(x: nat)
    ensures Date(Year(x), Month(x), 1, 0, 0, 0) == MonthStart(MonthOf(x / DAY)) * DAY
    ensures MonthStart(MonthOf(x / DAY)) * DAY <= x < MonthStart(MonthOf(x / DAY) + 1) * DAY
  {
    assert 12 * (Year(x) - 1) + (Month(x) - 1) == MonthOf(x / DAY);
  }

  lemma NoMatchInMonth(s: SpecSchedule, month: nat)
    requires month % 12 + 1 !in s.month
    ensures NoMatch(s, MonthStart(month) * DAY, MonthStart(month + 1) * DAY)
  {
    forall z | MonthStart(month) * DAY <= z < MonthStart(month + 1) * DAY
      ensures !s.Matches(z)
    {
      InMonth(z, month);
    }
  }

  lemma MonthHeadAligned(s: SpecSchedule, month: nat)
    ensures Aligned(s, MonthStart(month) * DAY)
  {
    MonthHead(month);
    Midnight(MonthStart(month));
  }

  /** Within one month the month field is constant, and the next month is one `AddDate` from its first day. */
  lemma SkipMonth(s: SpecSchedule, x: nat)
    requires Month(x) !in s.month
    ensures var first := Date(Year(x), Month(x), 1, 0, 0, 0);
      var y := AddDate(first, 1, 0);
      && first <= x < y
      && (StartsMonth(x) ==> x == first)
      && NoMatch(s, first, y)
      && Aligned(s, y)
      && (if Month(y) == 1 then y == MonthStart(12 * Year(x)) * DAY else Year(y) == Year(x))
  {
    var month := MonthOf(x / DAY);
    FirstToNext(x);
    NoMatchInMonth(s, month);
    MonthHeadAligned(s, month + 1);
    YearTurn(x);
  }

  lemma FirstToNext(x: nat)
    ensures var month, first := MonthOf(x / DAY), Date(Year(x), Month(x), 1, 0, 0, 0);
      && first == MonthStart(month) * DAY && AddDate(first, 1, 0) == MonthStart(month + 1) * DAY
      && first <= x < AddDate(first, 1, 0)
      && (StartsMonth(x) ==> x == first)
  {
    MonthFirst(x);
    MonthHead(MonthOf(x / DAY));
  }

  lemma AfterMonth(month: nat, y: nat)
    requires MonthOf(y / DAY) == month + 1
    ensures Month(y) == 1 ==> month + 1 == 12 * (month / 12 + 1)
    ensures Month(y) != 1 ==> Year(y) == month / 12 + 1
  {
    NextMonthIndex(month);
  }

  lemma NextMonthIndex(month: nat)
    ensures if (month + 1) % 12 == 0 then month + 1 == 12 * (month / 12 + 1) else (month + 1) / 12 == month / 12
  {
  }

  /** Leaving x's month ends its year exactly if the next month is January. */
  lemma YearTurn(x: nat)
    ensures var y := MonthStart(MonthOf(x / DAY) + 1) * DAY;
      if Month(y) == 1 then y == MonthStart(12 * Year(x)) * DAY else Year(y) == Year(x)
  {
    var month := MonthOf(x / DAY);
    var y := MonthStart(month + 1) * DAY;
    HeadOfMonth(month + 1);
    AfterMonth(month, y);
    assert Year(x) == month / 12 + 1;
  }

  /** The month of the day after x: x's month, or a new one on its first day. */
  lemma NextDay(x: nat)
    ensures var y := (x / DAY + 1) * DAY;
      && y / DAY == x / DAY + 1
      && (if Day(y) == 1 then StartsMonth(y) else MonthOf(y / DAY) == MonthOf(x / DAY))
  {
    var day, month := x / DAY, MonthOf(x / DAY);
    Midnight(day + 1);
    if day + 1 < MonthStart(month + 1) {
      MonthOfUnique(day + 1, month);
    } else {
      MonthOfUnique(day + 1, month + 1);
    }
  }

  /** At the first second of the day after x, with x's month permitted, nothing is out of line. */
  lemma NextDayAligned(s: SpecSchedule, x: nat)
    requires Month(x) in s.month
    ensures Aligned(s, (x / DAY + 1) * DAY)
  {
    NextDay(x);
    Midnight(x / DAY + 1);
  }

  /** Everything the day rule and the month look at is constant within a day. */
  lemma SkipDay(s: SpecSchedule, x: nat)
    requires Month(x) in s.month && !s.DayMatches(x)
    ensures var first := Date(Year(x), Month(x), Day(x), 0, 0, 0);
      var y := AddDate(first, 0, 1);
      && first <= x < y && y == first + DAY == (x / DAY + 1) * DAY
      && (x % DAY == 0 ==> x == first)
      && NoMatch(s, first, y)
      && Aligned(s, y)
      && (Day(y) != 1 ==> Month(y) == Month(x) && Year(y) == Year(x))
  {
    var first := x / DAY * DAY;
    DayHead(x);
    NoMatchInDay(s, x);
    NextDay(x);
    NextDayAligned(s, x);
  }

  lemma NoMatchInDay(s: SpecSchedule, x: nat)
    requires !s.DayMatches(x)
    ensures NoMatch(s, x / DAY * DAY, x / DAY * DAY + DAY)
  {
    var first := x / DAY * DAY;
    forall z | first <= z < first + DAY
      ensures !s.Matches(z)
    {
      RemainderOfSum(z, x / DAY, z - first, DAY);
    }
  }

  lemma DayHead(x: nat)
    ensures var first := x / DAY * DAY;
      && Date(Year(x), Month(x), Day(x), 0, 0, 0) == first
      && AddDate(first, 0, 1) == first + DAY
  {
    assert 12 * (Year(x) - 1) + (Month(x) - 1) == MonthOf(x / DAY);
    Midnight(x / DAY);
  }

  /** Counting by hours, minutes and seconds since the zero time. */
  lemma HourUnits(x: nat)
    ensures x / DAY == x / HOUR / 24 && HourOf(x) == x / HOUR % 24
  {
    var h := x / HOUR;
    var d := h / 24;
    RemainderOfSum(x, d, h % 24 * HOUR + x % HOUR, DAY);
    RemainderOfSum(x % DAY, h % 24, x % HOUR, HOUR);
  }

  lemma MinuteUnits(x: nat)
    ensures x / HOUR == x / MINUTE / 60 && MinuteOf(x) == x / MINUTE % 60
  {
    var m := x / MINUTE;
    RemainderOfSum(x, m / 60, m % 60 * MINUTE + x % MINUTE, HOUR);
    RemainderOfSum(x % HOUR, m % 60, x % MINUTE, MINUTE);
  }

  lemma SkipHour(s: SpecSchedule, x: nat)
    requires Month(x) in s.month && s.DayMatches(x) && HourOf(x) !in s.hour
    ensures var first := Date(Year(x), Month(x), Day(x), HourOf(x), 0, 0);
      var y := first + HOUR;
      && first <= x < y && first == Truncate(x, HOUR)
      && NoMatch(s, first, y)
      && Aligned(s, y)
      && (HourOf(y) != 0 ==> y / DAY == x / DAY)
      && (HourOf(y) == 0 ==> y == (x / DAY + 1) * DAY)
  {
    HourHead(x);
    NoMatchInHour(s, x);
    HourCarry(x);
    NextHourAligned(s, x);
  }

  lemma NoMatchInHour(s: SpecSchedule, x: nat)
    requires HourOf(x) !in s.hour
    ensures NoMatch(s, x - x % HOUR, x - x % HOUR + HOUR)
  {
    var first := x - x % HOUR;
    forall z | first <= z < first + HOUR
      ensures !s.Matches(z)
    {
      RemainderOfSum(z, x / HOUR, z - first, HOUR);
      SameHour(s, x, z);
    }
  }

  lemma HourHead(x: nat)
    ensures Date(Year(x), Month(x), Day(x), HourOf(x), 0, 0) == x - x % HOUR
  {
    DateOfFields(x);
  }

  lemma HourCarry(x: nat)
    ensures var y := x - x % HOUR + HOUR;
      && y % HOUR == 0 && y % MINUTE == 0
      && (if HourOf(y) == 0 then y == (x / DAY + 1) * DAY else y / DAY == x / DAY)
  {
    var y := x - x % HOUR + HOUR;
    RemainderOfSum(y, x / HOUR + 1, 0, HOUR);
    RemainderOfSum(y, (x / HOUR + 1) * 60, 0, MINUTE);
    HourUnits(x);
    HourUnits(y);
  }

  lemma SkipMinute(s: SpecSchedule, x: nat)
    requires Month(x) in s.month && s.DayMatches(x) && HourOf(x) in s.hour && MinuteOf(x) !in s.minute
    ensures var first := Truncate(x, MINUTE);
      var y := first + MINUTE;
      && first <= x < y
      && NoMatch(s, first, y)
      && Aligned(s, y)
      && (MinuteOf(y) != 0 ==> y / HOUR == x / HOUR)
      && (MinuteOf(y) == 0 ==> y == (x / HOUR + 1) * HOUR)
  {
    var first := x - x % MINUTE;
    forall z | first <= z < first + MINUTE
      ensures !s.Matches(z)
    {
      RemainderOfSum(z, x / MINUTE, z - first, MINUTE);
      SameMinute(s, x, z);
    }
    MinuteCarry(x);
    NextMinuteAligned(s, x);
  }

  lemma NextMinuteAligned(s: SpecSchedule, x: nat)
    requires Month(x) in s.month && s.DayMatches(x) && HourOf(x) in s.hour
    ensures Aligned(s, x - x % MINUTE + MINUTE)
  {
    var y := x - x % MINUTE + MINUTE;
    MinuteCarry(x);
    if MinuteOf(y) == 0 {
      NextHourAligned(s, x);
    } else {
      SameHour(s, x, y);
    }
  }

  lemma SameMinute(s: SpecSchedule, x: nat, y: nat)
    requires x / MINUTE == y / MINUTE
    ensures Month(x) == Month(y) && s.DayMatches(x) == s.DayMatches(y) && HourOf(x) == HourOf(y)
    ensures MinuteOf(x) == MinuteOf(y) && x / DAY == y / DAY
  {
    MinuteUnits(x);
    MinuteUnits(y);
    SameHour(s, x, y);
  }

  lemma MinuteCarry(x: nat)
    ensures var y := x - x % MINUTE + MINUTE;
      && y % MINUTE == 0
      && (if MinuteOf(y) == 0 then y == (x / HOUR + 1) * HOUR else y / HOUR == x / HOUR)
  {
    var y := x - x % MINUTE + MINUTE;
    RemainderOfSum(y, x / MINUTE + 1, 0, MINUTE);
    MinuteUnits(x);
    MinuteUnits(y);
  }

  lemma SameHour(s: SpecSchedule, x: nat, y: nat)
    requires x / HOUR == y / HOUR
    ensures Month(x) == Month(y) && s.DayMatches(x) == s.DayMatches(y) && HourOf(x) == HourOf(y) && x / DAY == y / DAY
  {
    HourUnits(x);
    HourUnits(y);
  }

  lemma NextHourAligned(s: SpecSchedule, x: nat)
    requires Month(x) in s.month && s.DayMatches(x)
    ensures Aligned(s, (x / HOUR + 1) * HOUR)
  {
    HourCarry(x);
    var y := (x / HOUR + 1) * HOUR;
    assert y == x - x % HOUR + HOUR;
    if HourOf(y) == 0 {
      NextDayAligned(s, x);
    }
  }

  lemma SkipSecond(s: SpecSchedule, x: nat)
    requires Month(x) in s.month && s.DayMatches(x) && HourOf(x) in s.hour && MinuteOf(x) in s.minute
    requires SecondOf(x) !in s.second
    ensures Aligned(s, x + 1)
    ensures if SecondOf(x + 1) == 0 then x + 1 == (x / MINUTE + 1) * MINUTE else (x + 1) / MINUTE == x / MINUTE
  {
    if x % MINUTE == 59 {
      NextMinuteAligned(s, x);
      RemainderOfSum(x + 1, x / MINUTE + 1, 0, MINUTE);
    } else {
      RemainderOfSum(x + 1, x / MINUTE, x % MINUTE + 1, MINUTE);
      SameMinute(s, x, x + 1);
    }
  }

  /**
   The state of the walk at x: it started at x0, may search up to the end of `yearLimit`,
   and has skipped no match.  Until it first moves it is still at x0.
   */
  ghost predicate Walking(s: SpecSchedule, x0: nat, yearLimit: nat, x: nat, added: bool) {
    && x0 <= x <= YearStart(yearLimit + 1) * DAY
    && NoMatch(s, x0, x)
    && (if added then Aligned(s, x) else x == x0)
  }

  /** Moving on from a mismatch: everything in [first, y) mismatches with x, and y is in line again. */
  lemma Advance(s: SpecSchedule, x0: nat, yearLimit: nat, x: nat, added: bool, first: nat, y: nat)
    requires Walking(s, x0, yearLimit, x, added)
    requires first <= x < y <= YearStart(yearLimit + 1) * DAY
    requires NoMatch(s, first, y) && Aligned(s, y)
    ensures Walking(s, x0, yearLimit, y, true)
  {
  }

  lemma DayFits(x: nat, yearLimit: nat)
    requires Year(x) <= yearLimit
    ensures x < YearStart(yearLimit + 1) * DAY
    ensures (x / DAY + 1) * DAY <= YearStart(yearLimit + 1) * DAY
  {
    YearAtLeast(x, yearLimit + 1);
    WholeDays(x, YearStart(yearLimit + 1));
  }

  lemma WholeDays(x: nat, days: nat)
    requires x < days * DAY
    ensures (x / DAY + 1) * DAY <= days * DAY
  {
  }

  lemma AdvanceMonth(s: SpecSchedule, x0: nat, yearLimit: nat, x: nat, added: bool)
    requires Walking(s, x0, yearLimit, x, added)
    requires Year(x) <= yearLimit && Month(x) !in s.month
    ensures var first := if added then x else Date(Year(x), Month(x), 1, 0, 0, 0);
      var y := AddDate(first, 1, 0);
      && x < y && Walking(s, x0, yearLimit, y, true)
      && (Month(y) != 1 ==> Year(y) <= yearLimit)
  {
    var first := Date(Year(x), Month(x), 1, 0, 0, 0);
    var y := AddDate(first, 1, 0);
    SkipMonth(s, x);
    MonthFits(x, y, yearLimit);
    Advance(s, x0, yearLimit, x, added, first, y);
  }

  lemma MonthFits(x: nat, y: nat, yearLimit: nat)
    requires Year(x) <= yearLimit
    requires if Month(y) == 1 then y == MonthStart(12 * Year(x)) * DAY else Year(y) == Year(x)
    ensures y <= YearStart(yearLimit + 1) * DAY
  {
    if Month(y) == 1 {
      YearStartMonotone(Year(x) + 1, yearLimit + 1);
    } else {
      DayFits(y, yearLimit);
    }
  }

  lemma AdvanceDay(s: SpecSchedule, x0: nat, yearLimit: nat, x: nat, added: bool)
    requires Walking(s, x0, yearLimit, x, added)
    requires Year(x) <= yearLimit && Month(x) in s.month && !s.DayMatches(x)
    ensures var first := if added then x else Date(Year(x), Month(x), Day(x), 0, 0, 0);
      var y := AddDate(first, 0, 1);
      && x < y && Walking(s, x0, yearLimit, y, true)
      && (Day(y) != 1 ==> Year(y) <= yearLimit && Month(y) in s.month)
  {
    var first := Date(Year(x), Month(x), Day(x), 0, 0, 0);
    SkipDay(s, x);
    DayFits(x, yearLimit);
    Advance(s, x0, yearLimit, x, added, first, first + DAY);
  }

  lemma AdvanceHour(s: SpecSchedule, x0: nat, yearLimit: nat, x: nat, added: bool)
    requires Walking(s, x0, yearLimit, x, added)
    requires Year(x) <= yearLimit && Month(x) in s.month && s.DayMatches(x) && HourOf(x) !in s.hour
    ensures var first := if added then x else Date(Year(x), Month(x), Day(x), HourOf(x), 0, 0);
      var y := first + HOUR;
      && x < y && Walking(s, x0, yearLimit, y, true)
      && (HourOf(y) != 0 ==> Year(y) <= yearLimit && Month(y) in s.month && s.DayMatches(y))
  {
    var first := Date(Year(x), Month(x), Day(x), HourOf(x), 0, 0);
    SkipHour(s, x);
    DayFits(x, yearLimit);
    HourFits(x);
    Advance(s, x0, yearLimit, x, added, first, first + HOUR);
  }

  lemma AdvanceMinute(s: SpecSchedule, x0: nat, yearLimit: nat, x: nat, added: bool)
    requires Walking(s, x0, yearLimit, x, added)
    requires Year(x) <= yearLimit && Month(x) in s.month && s.DayMatches(x) && HourOf(x) in s.hour
    requires MinuteOf(x) !in s.minute
    ensures var first := if added then x else Truncate(x, MINUTE);
      var y := first + MINUTE;
      && x < y && Walking(s, x0, yearLimit, y, true)
      && (MinuteOf(y) != 0 ==>
            Year(y) <= yearLimit && Month(y) in s.month && s.DayMatches(y) && HourOf(y) in s.hour)
  {
    var first := Truncate(x, MINUTE);
    var y := first + MINUTE;
    SkipMinute(s, x);
    DayFits(x, yearLimit);
    MinuteFits(x);
    if MinuteOf(y) != 0 {
      SameHour(s, x, y);
    }
    Advance(s, x0, yearLimit, x, added, first, y);
  }

  lemma HourFits(x: nat)
    ensures x - x % HOUR + HOUR == (x / HOUR + 1) * HOUR <= (x / DAY + 1) * DAY
  {
  }

  lemma MinuteFits(x: nat)
    ensures x - x % MINUTE + MINUTE == (x / MINUTE + 1) * MINUTE <= (x / DAY + 1) * DAY
  {
  }

  lemma AdvanceSecond(s: SpecSchedule, x0: nat, yearLimit: nat, x: nat, added: bool)
    requires Walking(s, x0, yearLimit, x, added)
    requires Year(x) <= yearLimit && Month(x) in s.month && s.DayMatches(x) && HourOf(x) in s.hour
    requires MinuteOf(x) in s.minute && SecondOf(x) !in s.second
    ensures var y := x + 1;
      && Walking(s, x0, yearLimit, y, true)
      && (SecondOf(y) != 0 ==>
            && Year(y) <= yearLimit && Month(y) in s.month && s.DayMatches(y) && HourOf(y) in s.hour
            && MinuteOf(y) in s.minute)
  {
    SkipSecond(s, x);
    DayFits(x, yearLimit);
    MinuteFits(x);
    if SecondOf(x + 1) != 0 {
      SameMinute(s, x, x + 1);
    }
    assert NoMatch(s, x, x + 1);
    Advance(s, x0, yearLimit, x, added, x, x + 1);
  }

  /** r is the first activation strictly after t, or 0 when the search window holds none. */
  ghost predicate IsNextAfter(s: SpecSchedule, t: Time, r: Time) {
    if r == 0 then
      NoMatch(s, FirstCandidate(t), Horizon(FirstCandidate(t)))
    else
      && r > t && r % SECOND == 0
      && s.Matches(r / SECOND) && r / SECOND < Horizon(FirstCandidate(t))
      && forall y | t < y * SECOND < r :: !s.Matches(y)
  }

  lemma ActivationIsLeast(s: SpecSchedule, t: Time)
    ensures IsNextAfter(s, t, NextActivation(s, t))
  {
    var x := FirstMatch(s, FirstCandidate(t), Horizon(FirstCandidate(t)));
    RemainderOfSum(x * SECOND, x, 0, SECOND);
  }

  lemma StartWalking(s: SpecSchedule, x: nat)
    ensures Walking(s, x, Year(x) + MAX_SEARCH_YEARS, x, false)
  {
    DayFits(x, Year(x) + MAX_SEARCH_YEARS);
  }

  lemma Found(s: SpecSchedule, t: Time, x: nat, added: bool)
    requires Walking(s, FirstCandidate(t), Year(FirstCandidate(t)) + MAX_SEARCH_YEARS, x, added)
    requires Year(x) <= Year(FirstCandidate(t)) + MAX_SEARCH_YEARS && s.Matches(x)
    ensures x * SECOND == NextActivation(s, t) && IsNextAfter(s, t, x * SECOND)
  {
    ActivationIsLeast(s, t);
    DayFits(x, Year(FirstCandidate(t)) + MAX_SEARCH_YEARS);
  }

  lemma NotFound(s: SpecSchedule, t: Time, x: nat, added: bool)
    requires Walking(s, FirstCandidate(t), Year(FirstCandidate(t)) + MAX_SEARCH_YEARS, x, added)
    requires Year(x) > Year(FirstCandidate(t)) + MAX_SEARCH_YEARS
    ensures 0 == NextActivation(s, t) && IsNextAfter(s, t, 0)
  {
    ActivationIsLeast(s, t);
    YearAtLeast(x, Year(FirstCandidate(t)) + MAX_SEARCH_YEARS + 1);
  }

  // The five loops of the walk.  Each runs until its field matches or wraps around; a wrap
  // sends the walk back to the month.

  method SeekMonth(s: SpecSchedule, ghost x0: nat, ghost yearLimit: nat, x: nat, added: bool)
      returns (y: nat, moved: bool, wrapped: bool)
    requires Walking(s, x0, yearLimit, x, added) && Year(x) <= yearLimit
    ensures Walking(s, x0, yearLimit, y, moved) && x <= y && (wrapped ==> x < y)
    ensures !wrapped ==> Year(y) <= yearLimit && Month(y) in s.month
  {
    y, moved := x, added;
    while Month(y) !in s.month
      invariant x <= y && Year(y) <= yearLimit && Walking(s, x0, yearLimit, y, moved)
      decreases YearStart(yearLimit + 1) * DAY - y
    {
      AdvanceMonth(s, x0, yearLimit, y, moved);
      if !moved {
        moved := true;
        y := Date(Year(y), Month(y), 1, 0, 0, 0);
      }
      y := AddDate(y, 1, 0);
      if Month(y) == 1 {
        return y, moved, true;
      }
    }
    wrapped := false;
  }

  method SeekDay(s: SpecSchedule, ghost x0: nat, ghost yearLimit: nat, x: nat, added: bool)
      returns (y: nat, moved: bool, wrapped: bool)
    requires Walking(s, x0, yearLimit, x, added) && Year(x) <= yearLimit
    requires Month(x) in s.month
    ensures Walking(s, x0, yearLimit, y, moved) && x <= y && (wrapped ==> x < y)
    ensures !wrapped ==> Year(y) <= yearLimit && Month(y) in s.month && s.DayMatches(y)
  {
    y, moved := x, added;
    while !s.DayMatches(y)
      invariant x <= y && Year(y) <= yearLimit && Walking(s, x0, yearLimit, y, moved)
      invariant Month(y) in s.month
      decreases YearStart(yearLimit + 1) * DAY - y
    {
      AdvanceDay(s, x0, yearLimit, y, moved);
      if !moved {
        moved := true;
        y := Date(Year(y), Month(y), Day(y), 0, 0, 0);
      }
      y := AddDate(y, 0, 1);
      if Day(y) == 1 {
        return y, moved, true;
      }
    }
    wrapped := false;
  }

  method SeekHour(s: SpecSchedule, ghost x0: nat, ghost yearLimit: nat, x: nat, added: bool)
      returns (y: nat, moved: bool, wrapped: bool)
    requires Walking(s, x0, yearLimit, x, added) && Year(x) <= yearLimit
    requires Month(x) in s.month && s.DayMatches(x)
    ensures Walking(s, x0, yearLimit, y, moved) && x <= y && (wrapped ==> x < y)
    ensures !wrapped ==> Year(y) <= yearLimit && Month(y) in s.month && s.DayMatches(y) && HourOf(y) in s.hour
  {
    y, moved := x, added;
    while HourOf(y) !in s.hour
      invariant x <= y && Year(y) <= yearLimit && Walking(s, x0, yearLimit, y, moved)
      invariant Month(y) in s.month && s.DayMatches(y)
      decreases YearStart(yearLimit + 1) * DAY - y
    {
      AdvanceHour(s, x0, yearLimit, y, moved);
      if !moved {
        moved := true;
        y := Date(Year(y), Month(y), Day(y), HourOf(y), 0, 0);
      }
      y := y + HOUR;
      if HourOf(y) == 0 {
        return y, moved, true;
      }
    }
    wrapped := false;
  }

  method SeekMinute(s: SpecSchedule, ghost x0: nat, ghost yearLimit: nat, x: nat, added: bool)
      returns (y: nat, moved: bool, wrapped: bool)
    requires Walking(s, x0, yearLimit, x, added) && Year(x) <= yearLimit
    requires Month(x) in s.month && s.DayMatches(x) && HourOf(x) in s.hour
    ensures Walking(s, x0, yearLimit, y, moved) && x <= y && (wrapped ==> x < y)
    ensures !wrapped ==>
      && Year(y) <= yearLimit && Month(y) in s.month && s.DayMatches(y) && HourOf(y) in s.hour
      && MinuteOf(y) in s.minute
  {
    y, moved := x, added;
    while MinuteOf(y) !in s.minute
      invariant x <= y && Year(y) <= yearLimit && Walking(s, x0, yearLimit, y, moved)
      invariant Month(y) in s.month && s.DayMatches(y) && HourOf(y) in s.hour
      decreases YearStart(yearLimit + 1) * DAY - y
    {
      AdvanceMinute(s, x0, yearLimit, y, moved);
      if !moved {
        moved := true;
        y := Truncate(y, MINUTE);
      }
      y := y + MINUTE;
      if MinuteOf(y) == 0 {
        return y, moved, true;
      }
    }
    wrapped := false;
  }

  method SeekSecond(s: SpecSchedule, ghost x0: nat, ghost yearLimit: nat, x: nat, added: bool)
      returns (y: nat, moved: bool, wrapped: bool)
    requires Walking(s, x0, yearLimit, x, added) && Year(x) <= yearLimit
    requires Month(x) in s.month && s.DayMatches(x) && HourOf(x) in s.hour && MinuteOf(x) in s.minute
    ensures Walking(s, x0, yearLimit, y, moved) && x <= y && (wrapped ==> x < y)
    ensures !wrapped ==> Year(y) <= yearLimit && s.Matches(y)
  {
    y, moved := x, added;
    while SecondOf(y) !in s.second
      invariant x <= y && Year(y) <= yearLimit && Walking(s, x0, yearLimit, y, moved)
      invariant Month(y) in s.month && s.DayMatches(y) && HourOf(y) in s.hour && MinuteOf(y) in s.minute
      decreases YearStart(yearLimit + 1) * DAY - y
    {
      AdvanceSecond(s, x0, yearLimit, y, moved);
      if !moved {
        moved := true;
        y := Truncate(y, 1);
      }
      y := y + 1;
      if SecondOf(y) == 0 {
        return y, moved, true;
      }
    }
    wrapped := false;
  }

  /** One pass over the fields, from the month down to the second. */
  method Pass(s: SpecSchedule, ghost x0: nat, ghost yearLimit: nat, x: nat, added: bool)
      returns (y: nat, moved: bool, wrapped: bool)
    requires Walking(s, x0, yearLimit, x, added) && Year(x) <= yearLimit
    ensures Walking(s, x0, yearLimit, y, moved) && (wrapped ==> x < y)
    ensures !wrapped ==> Year(y) <= yearLimit && s.Matches(y)
  {
    y, moved, wrapped := SeekMonth(s, x0, yearLimit, x, added);
    if !wrapped {
      y, moved, wrapped := SeekDay(s, x0, yearLimit, y, moved);
    }
    if !wrapped {
      y, moved, wrapped := SeekHour(s, x0, yearLimit, y, moved);
    }
    if !wrapped {
      y, moved, wrapped := SeekMinute(s, x0, yearLimit, y, moved);
    }
    if !wrapped {
      y, moved, wrapped := SeekSecond(s, x0, yearLimit, y, moved);
    }
  }

  /**
   `SpecSchedule.Next` in UTC.  After the first line t is a whole second, so the walk is in
   whole seconds; the loop is the label WRAP.  The result is the least matching second
   strictly after t within the search window, and 0, the zero time, exactly when there is
   none.
   */
  method Next(s: SpecSchedule, t: Time) returns (r: Time)
    ensures r == NextActivation(s, t)
    ensures IsNextAfter(s, t, r)
  {
    var x: nat := FirstCandidate(t);
    var yearLimit := Year(x) + MAX_SEARCH_YEARS;
    var added, wrapped := false, true;
    ghost var x0 := x;
    StartWalking(s, x);
    while wrapped
      invariant Walking(s, x0, yearLimit, x, added)
      invariant !wrapped ==> Year(x) <= yearLimit && s.Matches(x)
      decreases wrapped, YearStart(yearLimit + 1) * DAY - x
    {
      if Year(x) > yearLimit {
        NotFound(s, t, x, added);
        return 0;
      }
      x, added, wrapped := Pass(s, x0, yearLimit, x, added);
    }
    Found(s, t, x, added);
    return x * SECOND;
  }
}
