/**
 Which accepted schedules fire again from every instant.

 The search of `Next` gives up at the end of the fifth year after its first candidate.
 An accepted schedule is never affected by that exactly when its day-of-week field is not
 an unrestricted `*`, or it permits some date of a common year.  What is left are
 schedules that can only fire on 29 February, which run dry across a century such as
 97..103, and schedules such as 30 February that never fire.
 */
module CronTotality {
  import opened Calendar
  import opened CronSchedule
  import opened CronNext

  /** Every field permits some value of its range, and an unrestricted day field permits all of them. */
  ghost predicate Accepted(s: SpecSchedule) {
    && (exists v :: v < 60 && v in s.second)
    && (exists v :: v < 60 && v in s.minute)
    && (exists v :: v < 24 && v in s.hour)
    && (exists v :: 1 <= v <= 31 && v in s.dom)
    && (exists v :: 1 <= v <= 12 && v in s.month)
    && (exists v :: v < 7 && v in s.dow)
    && (STAR_BIT in s.dom ==> forall v | 1 <= v <= 31 :: v in s.dom)
    && (STAR_BIT in s.dow ==> forall v: nat | v < 7 :: v in s.dow)
  }

  ghost predicate PermitsCommonDate(s: SpecSchedule) {
    exists m, d :: m in s.month && d in s.dom && 1 <= m <= 12 && 1 <= d <= MonthLength(false, m)
  }

  lemma NeverZeroIff(s: SpecSchedule)
    requires Accepted(s)
    ensures (forall t: Time :: NextActivation(s, t) != 0) <==> STAR_BIT !in s.dow || PermitsCommonDate(s)
  {
    if STAR_BIT !in s.dow || PermitsCommonDate(s) {
      forall t: Time
        ensures NextActivation(s, t) != 0
      {
        FiresAgain(s, t);
      }
    } else {
      var first := SixCommonYears();
      var t := BeforeYear(first);
      RunsDry(s, t);
    }
  }

  lemma FiresAgain(s: SpecSchedule, t: Time)
    requires Accepted(s) && (STAR_BIT !in s.dow || PermitsCommonDate(s))
    ensures NextActivation(s, t) != 0
  {
    var x := FirstCandidate(t);
    var y := MatchInYear(s, Year(x) + 1);
    YearAtLeast(x, Year(x) + 1);
    YearAtLeast(y, Year(x) + 1);
    MatchFires(s, t, y);
  }

  /** A match in any given year. */
  lemma MatchInYear(s: SpecSchedule, y: nat) returns (x: nat)
    requires 1 <= y
    requires Accepted(s) && (STAR_BIT !in s.dow || PermitsCommonDate(s))
    ensures Year(x) == y && s.Matches(x)
  {
    var h :| h < 24 && h in s.hour;
    var min :| min < 60 && min in s.minute;
    var sec :| sec < 60 && sec in s.second;
    if STAR_BIT in s.dow {
      var m, d :| m in s.month && d in s.dom && 1 <= m <= 12 && 1 <= d <= MonthLength(false, m);
      x := Date(y, m, d, h, min, sec);
      FieldsOfDate(y, m, d, h, min, sec);
    } else {
      var m :| 1 <= m <= 12 && m in s.month;
      var w :| w < 7 && w in s.dow;
      var d := DayOfWeekInMonth(y, m, w);
      x := Date(y, m, d, h, min, sec);
      FieldsOfDate(y, m, d, h, min, sec);
      WeekdayOfDate(y, m, d, h, min, sec);
    }
  }

  lemma DayOfWeekInMonth(y: nat, m: nat, w: nat) returns (d: nat)
    requires 1 <= y && 1 <= m <= 12 && w < 7
    ensures 1 <= d <= 7 && (MonthStart(12 * (y - 1) + (m - 1)) + d) % 7 == w
  {
    var first := MonthStart(12 * (y - 1) + (m - 1));
    d := (w + 7 - first % 7) % 7;
    if d == 0 {
      d := 7;
    }
    SumModSeven(first, w, d);
  }

  lemma SumModSeven(first: nat, w: nat, d: nat)
    requires w < 7 && 1 <= d <= 7
    requires d == w + 7 - first % 7 || d == w - first % 7
    ensures (first + d) % 7 == w
  {
  }

  lemma WeekdayOfDate(y: nat, m: nat, d: nat, h: nat, min: nat, s: nat)
    requires 1 <= y && 1 <= m <= 12 && 1 <= d && h < 24 && min < 60 && s < 60
    ensures Weekday(Date(y, m, d, h, min, s)) == (MonthStart(12 * (y - 1) + (m - 1)) + d) % 7
  {
    var day := MonthStart(12 * (y - 1) + (m - 1)) + (d - 1);
    RemainderOfSum(Date(y, m, d, h, min, s), day, h * HOUR + min * MINUTE + s, DAY);
  }

  /** Six common years in a row: 97 to 102. */
  lemma SixCommonYears() returns (first: nat)
    ensures 2 <= first && forall y | first <= y < first + 6 :: !IsLeap(y)
  {
    first := 97;
  }

  /** From wherever the search window holds common years only, there is nothing to find. */
  lemma RunsDry(s: SpecSchedule, t: Time)
    requires STAR_BIT in s.dow && !PermitsCommonDate(s)
    requires var first := Year(FirstCandidate(t));
      forall y | first <= y <= first + MAX_SEARCH_YEARS :: !IsLeap(y)
    ensures NextActivation(s, t) == 0
  {
    var x := FirstCandidate(t);
    var first := Year(x);
    YearAtLeast(x, first);
    forall y | x <= y < Horizon(x)
      ensures !s.Matches(y)
    {
      YearAtLeast(y, first);
      YearAtLeast(y, first + MAX_SEARCH_YEARS + 1);
      CommonYearDry(s, y);
    }
  }

  /** An instant whose first candidate is the first second of year y. */
  lemma BeforeYear(y: nat) returns (t: Time)
    requires 2 <= y
    ensures Year(FirstCandidate(t)) == y
  {
    YearHead(y);
    t := SecondBefore(YearStart(y) * DAY);
  }

  lemma SecondBefore(x: nat) returns (t: Time)
    requires 1 <= x
    ensures FirstCandidate(t) == x
  {
    t := (x - 1) * SECOND;
    RemainderOfSum(t, x - 1, 0, SECOND);
  }

  lemma CommonYearDry(s: SpecSchedule, x: nat)
    requires STAR_BIT in s.dow && !PermitsCommonDate(s) && !IsLeap(Year(x))
    ensures !s.Matches(x)
  {
  }

  lemma YearHead(y: nat)
    requires 2 <= y
    ensures 1 <= YearStart(y) && Year(YearStart(y) * DAY) == y
  {
    MonthStartMonotone(0, 12 * (y - 1));
    HeadOfMonth(12 * (y - 1));
  }

  /** A permitted second of a 29 February that the search from x still reaches. */
  ghost predicate LeapDayAhead(s: SpecSchedule, x: nat) {
    && 2 in s.month && 29 in s.dom
    && exists y, h, min, sec ::
         && Year(x) <= y <= Year(x) + MAX_SEARCH_YEARS && IsLeap(y)
         && h < 24 && h in s.hour && min < 60 && min in s.minute && sec < 60 && sec in s.second
         && x <= Date(y, 2, 29, h, min, sec)
  }

  /**
   An accepted schedule that permits no date of a common year and any day of the week can only
   fire on a 29 February: `Next` gives up exactly when its search reaches none.
   */
  lemma GivesUpIff(s: SpecSchedule, t: Time)
    requires Accepted(s) && STAR_BIT in s.dow && !PermitsCommonDate(s)
    ensures NextActivation(s, t) == 0 <==> !LeapDayAhead(s, FirstCandidate(t))
  {
    if LeapDayAhead(s, FirstCandidate(t)) {
      LeapDayFires(s, t);
    }
    if NextActivation(s, t) != 0 {
      FiresOnLeapDay(s, t);
    }
  }

  lemma LeapDayFires(s: SpecSchedule, t: Time)
    requires Accepted(s) && STAR_BIT in s.dow && LeapDayAhead(s, FirstCandidate(t))
    ensures NextActivation(s, t) != 0
  {
    var x := FirstCandidate(t);
    var y, h, min, sec :|
      && Year(x) <= y <= Year(x) + MAX_SEARCH_YEARS && IsLeap(y)
      && h < 24 && h in s.hour && min < 60 && min in s.minute && sec < 60 && sec in s.second
      && x <= Date(y, 2, 29, h, min, sec);
    LeapDayMatches(s, y, h, min, sec);
    MatchFires(s, t, Date(y, 2, 29, h, min, sec));
  }

  lemma LeapDayMatches(s: SpecSchedule, y: nat, h: nat, min: nat, sec: nat)
    requires Accepted(s) && STAR_BIT in s.dow && 2 in s.month && 29 in s.dom && 1 <= y && IsLeap(y)
    requires h < 24 && h in s.hour && min < 60 && min in s.minute && sec < 60 && sec in s.second
    ensures var z := Date(y, 2, 29, h, min, sec); s.Matches(z) && Year(z) == y
  {
    FieldsOfDate(y, 2, 29, h, min, sec);
  }

  /** A match within the search window makes `Next` answer. */
  lemma MatchFires(s: SpecSchedule, t: Time, z: nat)
    requires s.Matches(z) && FirstCandidate(t) <= z && Year(z) <= Year(FirstCandidate(t)) + MAX_SEARCH_YEARS
    ensures NextActivation(s, t) != 0
  {
    YearAtLeast(z, Year(FirstCandidate(t)) + MAX_SEARCH_YEARS + 1);
    ActivationIsLeast(s, t);
  }

  lemma FiresOnLeapDay(s: SpecSchedule, t: Time)
    requires STAR_BIT in s.dow && !PermitsCommonDate(s) && NextActivation(s, t) != 0
    ensures LeapDayAhead(s, FirstCandidate(t))
  {
    ActivationIsLeast(s, t);
    var z := NextActivation(s, t) / SECOND;
    MatchIsLeapDay(s, z);
    MatchInWindow(s, t, z);
  }

  lemma MatchIsLeapDay(s: SpecSchedule, z: nat)
    requires STAR_BIT in s.dow && !PermitsCommonDate(s) && s.Matches(z)
    ensures IsLeap(Year(z)) && Month(z) == 2 && Day(z) == 29
    ensures z == Date(Year(z), 2, 29, HourOf(z), MinuteOf(z), SecondOf(z))
  {
    DateOfFields(z);
    DayWithinMonth(z);
    assert Day(z) > MonthLength(false, Month(z));
  }

  lemma DayWithinMonth(z: nat)
    ensures 1 <= Day(z) <= MonthLength(IsLeap(Year(z)), Month(z))
  {
  }

  lemma MatchInWindow(s: SpecSchedule, t: Time, z: nat)
    requires s.Matches(z) && FirstCandidate(t) <= z < Horizon(FirstCandidate(t))
    requires IsLeap(Year(z)) && Month(z) == 2 && Day(z) == 29
    requires z == Date(Year(z), 2, 29, HourOf(z), MinuteOf(z), SecondOf(z)) && STAR_BIT in s.dow
    ensures LeapDayAhead(s, FirstCandidate(t))
  {
    var x := FirstCandidate(t);
    YearAtLeast(x, Year(x));
    YearAtLeast(z, Year(x));
    YearAtLeast(z, Year(x) + MAX_SEARCH_YEARS + 1);
  }
}
