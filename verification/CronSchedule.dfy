/**
 Parsed cron expressions and the instants they match.

 A 64-bit mask is represented by the positions of its one bits.  Bit i of a field
 is set when the value i is permitted; bit 63 of the day-of-month and day-of-week
 masks marks a field that was written as an unrestricted `*`.
 */
module CronSchedule {
  import opened Calendar

  type Mask = bits: set<nat> | forall i | i in bits :: i < 64

  const STAR_BIT: nat := 63

  datatype SpecSchedule = SpecSchedule(
    second: Mask, minute: Mask, hour: Mask, dom: Mask, month: Mask, dow: Mask)
  {
    /**
     The day rule: both day fields must match if either is unrestricted, otherwise
     one of them is enough.
     */
    predicate DayMatches(x: nat) {
      if STAR_BIT in dom || STAR_BIT in dow then
        Day(x) in dom && Weekday(x) in dow
      else
        Day(x) in dom || Weekday(x) in dow
    }

    /** The schedule fires at whole second x. */
    predicate Matches(x: nat) {
      && Month(x) in month
      && DayMatches(x)
      && HourOf(x) in hour
      && MinuteOf(x) in minute
      && SecondOf(x) in second
    }
  }

  /** Nanoseconds since the zero time; the zero `time.Time` itself is 0. */
  type Time = nat

  const SECOND: nat := 1_000_000_000
  const MAX_SEARCH_YEARS: nat := 5

  /** The first whole second strictly after t. */
  function FirstCandidate(t: Time): nat {
    t / SECOND + 1
  }

  /** The first second past the search window of a search that starts at x. */
  function Horizon(x: nat): nat {
    YearStart(Year(x) + MAX_SEARCH_YEARS + 1) * DAY
  }

  /** The least matching second in [x, end), by trying them one after the other; 0 if there is none. */
  function FirstMatch(s: SpecSchedule, x: nat, end: nat): (r: nat)
    requires 0 < x
    ensures r == 0 <==> NoMatch(s, x, end)
    ensures r != 0 ==> x <= r < end && s.Matches(r) && NoMatch(s, x, r)
    decreases end - x
  {
    if x >= end then 0
    else if s.Matches(x) then x
    else FirstMatch(s, x + 1, end)
  }

  ghost predicate NoMatch(s: SpecSchedule, from: nat, to: nat) {
    forall y | from <= y < to :: !s.Matches(y)
  }

  /** The simple specification of the next activation: the least matching second strictly after t. */
  function NextActivation(s: SpecSchedule, t: Time): Time {
    var x := FirstCandidate(t);
    FirstMatch(s, x, Horizon(x)) * SECOND
  }
}
