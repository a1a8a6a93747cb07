/** What `Next` answers, in terms of the calendar and the masks alone. */
module CronMeaning {
  import opened Calendar
  import opened CronSchedule
  import opened CronNext
  import opened CronTotality

  /**
   When an accepted schedule fires: an unrestricted day field leaves the day to the other one,
   and of two restricted ones either will do.
   */
  lemma MatchesIff(s: SpecSchedule, x: nat)
    requires Accepted(s)
    ensures s.Matches(x) <==>
      && Month(x) in s.month && HourOf(x) in s.hour && MinuteOf(x) in s.minute && SecondOf(x) in s.second
      && (STAR_BIT in s.dom ==> Weekday(x) in s.dow)
      && (STAR_BIT in s.dow ==> Day(x) in s.dom)
      && (STAR_BIT !in s.dom && STAR_BIT !in s.dow ==> Day(x) in s.dom || Weekday(x) in s.dow)
  {
    DayWithinMonth(x);
  }

  /**
   The answer is after t, on a permitted second of a permitted day, and no later than any other
   such second up to the end of the fifth year; it is zero only if there is none.
   */
  lemma NextAnswers(s: SpecSchedule, t: Time, z: nat)
    requires Accepted(s)
    ensures var r := NextActivation(s, t);
      && (r != 0 ==>
            && r > t && r % 1_000_000_000 == 0
            && var x := r / 1_000_000_000;
               && Year(x) <= Year(t / 1_000_000_000 + 1) + 5
               && Month(x) in s.month && HourOf(x) in s.hour && MinuteOf(x) in s.minute && SecondOf(x) in s.second
               && (STAR_BIT in s.dom ==> Weekday(x) in s.dow)
               && (STAR_BIT in s.dow ==> Day(x) in s.dom)
               && (STAR_BIT !in s.dom && STAR_BIT !in s.dow ==> Day(x) in s.dom || Weekday(x) in s.dow))
      && (&& z * 1_000_000_000 > t && Year(z) <= Year(t / 1_000_000_000 + 1) + 5
          && Month(z) in s.month && HourOf(z) in s.hour && MinuteOf(z) in s.minute && SecondOf(z) in s.second
          && (if STAR_BIT in s.dom then Weekday(z) in s.dow
              else if STAR_BIT in s.dow then Day(z) in s.dom
              else Day(z) in s.dom || Weekday(z) in s.dow)
          ==> 0 < r <= z * 1_000_000_000)
  {
    var r := NextActivation(s, t);
    ActivationIsLeast(s, t);
    if r != 0 {
      MatchesIff(s, r / SECOND);
      WithinWindow(t, r / SECOND);
    }
    StarBoth(s, z);
    MatchesIff(s, z);
    if s.Matches(z) && z * SECOND > t && Year(z) <= Year(FirstCandidate(t)) + MAX_SEARCH_YEARS {
      AfterIsCandidate(t, z);
      MatchFires(s, t, z);
    }
  }

  lemma AfterIsCandidate(t: Time, z: nat)
    requires z * SECOND > t
    ensures FirstCandidate(t) <= z
  {
  }

  lemma WithinWindow(t: Time, x: nat)
    requires x < Horizon(FirstCandidate(t))
    ensures Year(x) <= Year(FirstCandidate(t)) + MAX_SEARCH_YEARS
  {
    YearAtLeast(x, Year(FirstCandidate(t)) + MAX_SEARCH_YEARS + 1);
  }

  /** Two unrestricted day fields permit every day. */
  lemma StarBoth(s: SpecSchedule, z: nat)
    requires Accepted(s)
    ensures STAR_BIT in s.dom ==> Day(z) in s.dom
    ensures STAR_BIT in s.dow ==> Weekday(z) in s.dow
  {
    DayWithinMonth(z);
  }

  // The calendar, pinned down.

  lemma MonthLengths(m: nat)
    requires 1 <= m <= 12 && m != 2
    ensures MonthLength(false, m) == MonthLength(true, m) == 30 + (m + m / 8) % 2
    ensures MonthLength(false, 2) == 28 && MonthLength(true, 2) == 29
  {
  }

  /** Weekdays follow each other, Sunday being 0. */
  lemma WeekdaysAdvance(x: nat)
    ensures Weekday(x + DAY) == (Weekday(x) + 1) % 7
  {
    RemainderOfSum(x + DAY, x / DAY + 1, x % DAY, DAY);
  }

  /** The weekday of New Year by the usual formula: 6, a Saturday, for the year 2000. */
  lemma NewYearWeekday(y: nat)
    requires 1 <= y
    ensures Weekday(Date(y, 1, 1, 0, 0, 0)) == (1 + 365 * (y - 1) + (y - 1) / 4 - (y - 1) / 100 + (y - 1) / 400) % 7
  {
    YearStartClosedForm(y);
    YearStartIs(y, 12 * (y - 1));
    WeekdayOfDate(y, 1, 1, 0, 0, 0);
  }
}
