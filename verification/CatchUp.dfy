/**
 The dispatcher's catch-up loop over one job's fire times: `next`, `Next(next)`, ... until a
 time after `now`.  It is studied for any next-activation function f; `CronCatchUp` below
 applies the results to schedules.
 */
module CatchUp {
  import opened CronSchedule

  /** f answers with a later time, or with zero for "never again". */
  ghost predicate Progressive(f: Time -> Time) {
    forall t :: f(t) == 0 || f(t) > t
  }

  /** f has an answer from every instant of [from, to]. */
  ghost predicate LiveBetween(f: Time -> Time, from: Time, to: Time) {
    forall t | from <= t <= to :: f(t) != 0
  }

  /** Between an instant and its next activation, the next activation stays the same. */
  ghost predicate ConstantInGaps(f: Time -> Time) {
    forall a: Time, b: Time | a <= b < f(a) :: f(b) == f(a)
  }

  /** f answers with the least activation strictly after its argument. */
  ghost predicate FindsLeast(f: Time -> Time, activates: Time -> bool) {
    forall t: Time | f(t) != 0 :: activates(f(t)) && forall u | t < u < f(t) :: !activates(u)
  }

  /** The fire times the loop visits. */
  ghost function Walk(f: Time -> Time, next: Time, now: Time): seq<Time>
    requires Progressive(f) && LiveBetween(f, next, now)
    decreases now + 1 - next
  {
    if next > now then [] else [next] + Walk(f, f(next), now)
  }

  /** Where the loop leaves `next`. */
  ghost function After(f: Time -> Time, next: Time, now: Time): (after: Time)
    requires Progressive(f) && LiveBetween(f, next, now)
    ensures after > now && after >= next
    decreases now + 1 - next
  {
    if next > now then next else After(f, f(next), now)
  }

  /** The value of `next` after n rounds. */
  ghost function Iterate(f: Time -> Time, next: Time, n: nat): Time
    decreases n
  {
    if n == 0 then next else Iterate(f, f(next), n - 1)
  }

  ghost predicate LoopEnds(f: Time -> Time, next: Time, now: Time) {
    exists n :: Iterate(f, next, n) > now
  }

  /** The loop ends exactly when f has an answer from every instant it has to cross. */
  lemma LoopEndsIff(f: Time -> Time, next: Time, now: Time)
    requires Progressive(f) && ConstantInGaps(f)
    ensures LoopEnds(f, next, now) <==> LiveBetween(f, next, now)
  {
    if LiveBetween(f, next, now) {
      AfterIsIterate(f, next, now);
    } else {
      var t :| next <= t <= now && f(t) == 0;
      forall n: nat
        ensures Iterate(f, next, n) <= now
      {
        StaysBehind(f, next, t, now, n);
      }
    }
  }

  lemma {:induction false} AfterIsIterate(f: Time -> Time, next: Time, now: Time)
    requires Progressive(f) && LiveBetween(f, next, now)
    ensures Iterate(f, next, |Walk(f, next, now)|) == After(f, next, now)
    decreases now + 1 - next
  {
    if next <= now {
      AfterIsIterate(f, f(next), now);
    }
  }

  /** Once f can answer zero before `now`, the loop falls back to zero again and again. */
  lemma {:induction false} StaysBehind(f: Time -> Time, next: Time, t: Time, now: Time, n: nat)
    requires Progressive(f) && ConstantInGaps(f) && next <= t <= now && f(t) == 0
    ensures Iterate(f, next, n) <= now
    decreases n
  {
    if n > 0 {
      StaysBehind(f, f(next), t, now, n - 1);
    }
  }

  /** The cached fire time agrees with recomputing it: the loop leaves f(now). */
  lemma {:induction false} CacheIsFresh(f: Time -> Time, seen: Time, now: Time)
    requires Progressive(f) && ConstantInGaps(f) && seen <= now && LiveBetween(f, seen, now)
    ensures LiveBetween(f, f(seen), now)
    ensures After(f, f(seen), now) == f(now)
    decreases now - seen
  {
    if f(seen) <= now {
      CacheIsFresh(f, f(seen), now);
    }
  }

  ghost predicate Ascending(times: seq<Time>) {
    forall i, j | 0 <= i < j < |times| :: times[i] < times[j]
  }

  /** The loop visits exactly the activations after `seen` and up to `now`, in ascending order. */
  lemma {:induction false} WalkIsActivations(f: Time -> Time, activates: Time -> bool, seen: Time, now: Time)
    requires Progressive(f) && FindsLeast(f, activates) && seen <= now && LiveBetween(f, seen, now)
    ensures LiveBetween(f, f(seen), now)
    ensures var walk := Walk(f, f(seen), now);
      && Ascending(walk)
      && forall t :: t in walk <==> seen < t <= now && activates(t)
    decreases now - seen
  {
    var next := f(seen);
    if next <= now {
      WalkIsActivations(f, activates, next, now);
      var rest := Walk(f, f(next), now);
      var walk := Walk(f, next, now);
      assert walk == [next] + rest;
      assert forall j | 0 <= j < |rest| :: rest[j] in rest;
    }
  }

  // Splitting the time line into ticks.

  ghost predicate NonDecreasing(ticks: seq<Time>) {
    forall i, j | 0 <= i <= j < |ticks| :: ticks[i] <= ticks[j]
  }

  ghost predicate LiveAtTicks(f: Time -> Time, from: Time, ticks: seq<Time>) {
    forall i | 0 <= i < |ticks| :: LiveBetween(f, from, ticks[i])
  }

  /** Ticking at each of the given times in turn: all the fire times visited, and the final `next`. */
  ghost function Tick(f: Time -> Time, next: Time, ticks: seq<Time>): (r: (seq<Time>, Time))
    requires Progressive(f) && LiveAtTicks(f, next, ticks)
    decreases |ticks|
  {
    if ticks == [] then ([], next)
    else
      var after := After(f, next, ticks[0]);
      assert LiveAtTicks(f, after, ticks[1..]);
      var rest := Tick(f, after, ticks[1..]);
      (Walk(f, next, ticks[0]) + rest.0, rest.1)
  }

  /** Two ticks visit what one tick at the later time would. */
  lemma {:induction false} TwoTicks(f: Time -> Time, next: Time, now: Time, later: Time)
    requires Progressive(f) && now <= later && LiveBetween(f, next, later)
    ensures LiveBetween(f, After(f, next, now), later)
    ensures Walk(f, next, later) == Walk(f, next, now) + Walk(f, After(f, next, now), later)
    ensures After(f, next, later) == After(f, After(f, next, now), later)
    decreases now + 1 - next
  {
    if next <= now {
      TwoTicks(f, f(next), now, later);
    }
  }

  /** How the time line is cut into ticks does not matter: only the last tick does. */
  lemma {:induction false} TickPartition(f: Time -> Time, next: Time, ticks: seq<Time>)
    requires Progressive(f) && ticks != [] && NonDecreasing(ticks)
    requires LiveBetween(f, next, ticks[|ticks| - 1])
    ensures LiveAtTicks(f, next, ticks)
    ensures var last := ticks[|ticks| - 1];
      Tick(f, next, ticks) == (Walk(f, next, last), After(f, next, last))
    decreases |ticks|
  {
    var last := ticks[|ticks| - 1];
    var rest := ticks[1..];
    var after := After(f, next, ticks[0]);
    if |ticks| > 1 {
      TwoTicks(f, next, ticks[0], last);
      assert rest[|rest| - 1] == last;
      TickPartition(f, after, rest);
      assert LiveAtTicks(f, next, ticks);
    } else {
      assert Tick(f, after, rest) == ([], after);
      assert Walk(f, next, last) + [] == Walk(f, next, last);
    }
  }
}

/** The catch-up loop of the schedules `Parse` returns. */
module CronCatchUp {
  import opened Calendar
  import opened CronSchedule
  import opened CronNext
  import opened CronParser
  import opened CronTotality
  import opened CatchUp

  function NextFn(sch: Schedule): Time -> Time {
    (t: Time) => NextOf(sch, t)
  }

  ghost function ActivatesFn(s: SpecSchedule): Time -> bool {
    (t: Time) => t % SECOND == 0 && s.Matches(t / SECOND)
  }

  lemma NextInGap(s: SpecSchedule, a: Time, b: Time)
    requires a <= b < NextActivation(s, a)
    ensures NextActivation(s, b) == NextActivation(s, a)
  {
    var x, y := FirstCandidate(a), FirstCandidate(b);
    var r := FirstMatch(s, x, Horizon(x));
    assert x <= y <= r;
    HorizonMonotone(x, y);
    assert NoMatch(s, y, r);
  }

  lemma HorizonMonotone(x: nat, y: nat)
    requires x <= y
    ensures Horizon(x) <= Horizon(y)
  {
    YearMonotone(x, y);
    YearStartMonotone(Year(x) + MAX_SEARCH_YEARS + 1, Year(y) + MAX_SEARCH_YEARS + 1);
  }

  lemma YearMonotone(x: nat, y: nat)
    requires x <= y
    ensures Year(x) <= Year(y)
  {
    YearAtLeast(x, Year(x));
    YearAtLeast(y, Year(x));
  }

  /** A cron schedule answers with its least activation after the given time. */
  lemma CronLaws(s: SpecSchedule)
    ensures var f := NextFn(Cron(s));
      Progressive(f) && ConstantInGaps(f) && FindsLeast(f, ActivatesFn(s))
  {
    var f := NextFn(Cron(s));
    forall t: Time
      ensures f(t) == 0 || f(t) > t
      ensures f(t) != 0 ==> ActivatesFn(s)(f(t)) && forall u | t < u < f(t) :: !ActivatesFn(s)(u)
    {
      LeastActivation(s, t);
    }
    forall a: Time, b: Time | a <= b < f(a)
      ensures f(b) == f(a)
    {
      NextInGap(s, a, b);
    }
  }

  lemma LeastActivation(s: SpecSchedule, t: Time)
    ensures var r := NextActivation(s, t);
      r != 0 ==> r > t && ActivatesFn(s)(r) && forall u | t < u < r :: !ActivatesFn(s)(u)
  {
    ActivationIsLeast(s, t);
    var r := NextActivation(s, t);
    if r != 0 {
      forall u | t < u < r
        ensures !ActivatesFn(s)(u)
      {
        if u % SECOND == 0 {
          assert u / SECOND * SECOND == u;
        }
      }
    }
  }

  lemma IntervalLaws(delay: nat)
    requires SECOND <= delay && delay % SECOND == 0
    ensures var f := NextFn(Interval(delay));
      Progressive(f) && (forall from, to :: LiveBetween(f, from, to)) && forall next, now :: LoopEnds(f, next, now)
  {
    var f := NextFn(Interval(delay));
    forall next: Time, now: Time
      ensures LoopEnds(f, next, now)
    {
      assert LiveBetween(f, next, now);
      AfterIsIterate(f, next, now);
    }
  }

  lemma AlwaysProgressive(sch: Schedule)
    ensures Progressive(NextFn(sch))
  {
  }

  /**
   The catch-up loop of a cron job ends exactly when no `Next` between the cached fire time
   and now gives up.
   */
  lemma CronLoopEndsIff(s: SpecSchedule, next: Time, now: Time)
    ensures LoopEnds(NextFn(Cron(s)), next, now) <==>
            forall t: Time | next <= t <= now :: NextActivation(s, t) != 0
  {
    CronLaws(s);
    var f := NextFn(Cron(s));
    LoopEndsIff(f, next, now);
    assert forall t: Time :: f(t) == NextActivation(s, t);
  }

  /**
   The catch-up loop of an accepted schedule ends from every cached fire time and at every
   instant exactly when the schedule never runs dry.
   */
  lemma AlwaysEndsIff(s: SpecSchedule)
    requires Accepted(s)
    ensures (forall next, now :: LoopEnds(NextFn(Cron(s)), next, now)) <==>
            STAR_BIT !in s.dow || PermitsCommonDate(s)
  {
    NeverZeroIff(s);
    forall next: Time, now: Time
      ensures LoopEnds(NextFn(Cron(s)), next, now) <==>
              forall t: Time | next <= t <= now :: NextActivation(s, t) != 0
    {
      CronLoopEndsIff(s, next, now);
    }
    if t: Time :| NextActivation(s, t) == 0 {
      assert !LoopEnds(NextFn(Cron(s)), t, t);
    }
  }

  /**
   A job first seen at `seen` and then ticked at any non-decreasing times visits exactly the
   activations after `seen` up to the last tick, once each and in order, and ends with the
   fire time a fresh computation at the last tick gives.
   */
  lemma TicksVisitActivations(s: SpecSchedule, seen: Time, ticks: seq<Time>)
    requires ticks != [] && NonDecreasing(ticks) && seen <= ticks[0]
    requires LiveBetween(NextFn(Cron(s)), seen, ticks[|ticks| - 1])
    ensures var f := NextFn(Cron(s));
      var last := ticks[|ticks| - 1];
      && Progressive(f) && LiveAtTicks(f, f(seen), ticks)
      && Ascending(Tick(f, f(seen), ticks).0)
      && (forall t :: t in Tick(f, f(seen), ticks).0 <==> seen < t <= last && ActivatesFn(s)(t))
      && Tick(f, f(seen), ticks).1 == NextActivation(s, last)
  {
    var f := NextFn(Cron(s));
    var last := ticks[|ticks| - 1];
    CronLaws(s);
    CacheIsFresh(f, seen, last);
    WalkIsActivations(f, ActivatesFn(s), seen, last);
    TickPartition(f, f(seen), ticks);
  }
}
