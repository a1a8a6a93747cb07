/** What the number `dispatch` returns counts. */
module DispatchCount {
  import opened Text
  import opened CronSchedule
  import opened CronParser
  import opened JobModel
  import opened Counting
  import opened MemoryStore
  import opened CatchUp
  import opened CronCatchUp
  import opened Materialise
  import opened Dispatcher
  import P = Protocol

  /** The runs that were created. */
  ghost function NewIds(runs: map<string, Run>, runs': map<string, Run>): set<string> {
    set id | id in runs' && id !in runs
  }

  ghost predicate Free(runs: map<string, Run>, slot: (string, Time)) {
    !SlotTaken(runs, slot.0, slot.1)
  }

  /** The slots that had no run. */
  ghost function FreeSlots(runs: map<string, Run>, slots: set<(string, Time)>): set<(string, Time)> {
    set slot | slot in slots && Free(runs, slot)
  }

  /** The slots that had one. */
  ghost function TakenSlots(runs: map<string, Run>, slots: set<(string, Time)>): set<(string, Time)> {
    set slot | slot in slots && !Free(runs, slot)
  }

  // The slots of a pass are counted once each.

  lemma {:induction false} WalkAscends(f: Time -> Time, next: Time, now: Time)
    requires Progressive(f) && LiveBetween(f, next, now)
    ensures Ascending(Walk(f, next, now)) && forall t | t in Walk(f, next, now) :: next <= t
    decreases now + 1 - next
  {
    if next <= now {
      WalkAscends(f, f(next), now);
      var rest := Walk(f, f(next), now);
      assert forall j | 0 <= j < |rest| :: rest[j] in rest;
    }
  }

  lemma {:induction false} AscendingSlots(job: string, times: seq<Time>)
    requires Ascending(times)
    ensures |SlotsOf(job, times)| == |times|
  {
    if times != [] {
      var init, last := times[..|times| - 1], times[|times| - 1];
      AscendingSlots(job, init);
      assert times == init + [last];
      assert SlotsOf(job, times) == SlotsOf(job, init) + {(job, last)};
    }
  }

  lemma WalkedSlots(k: Caches, j: Job, now: Time)
    requires k.EndsFor(j, now)
    ensures |SlotsOf(j.id, k.WalkedFor(j, now))| == |k.WalkedFor(j, now)|
  {
    var sch, next := k.SchedulePassed(j), Get(k.nextFire, j.id);
    if sch.Some? && next.Some? {
      AlwaysProgressive(sch.value);
      WalkAscends(NextFn(sch.value), next.value, now);
    }
    AscendingSlots(j.id, k.WalkedFor(j, now));
  }

  lemma {:induction false} SlotsOfPass(k: Caches, js: seq<Job>, now: Time)
    requires AllNamed(js) && AllEnd(k, js, now)
    ensures |PassSlots(k, js, now)| == PassCount(k, js, now)
    ensures forall slot | slot in PassSlots(k, js, now) :: slot.0 in JobIds(js)
  {
    if js != [] {
      var init, last := js[..|js| - 1], js[|js| - 1];
      SlotsOfPass(k, init, now);
      WalkedSlots(k, last, now);
      LastIsNew(js);
      OtherJobsSlots(PassSlots(k, init, now), JobIds(init), last.id, k.WalkedFor(last, now));
    }
  }

  lemma OtherJobsSlots(slots: set<(string, Time)>, ids: set<string>, job: string, times: seq<Time>)
    requires job !in ids && forall slot | slot in slots :: slot.0 in ids
    ensures |slots + SlotsOf(job, times)| == |slots| + |SlotsOf(job, times)|
  {
    UnionSize(slots, SlotsOf(job, times), slots + SlotsOf(job, times));
  }

  lemma LastIsNew(js: seq<Job>)
    requires AllNamed(js) && js != []
    ensures var init, last := js[..|js| - 1], js[|js| - 1];
      AllNamed(init) && last.id !in JobIds(init) && JobIds(js) == JobIds(init) + {last.id}
  {
    assert js == js[..|js| - 1] + [js[|js| - 1]];
    assert forall i | 0 <= i < |js| - 1 :: JobKey(js[i]) != JobKey(js[|js| - 1]);
  }

  // The runs created are for the slots that had none.

  lemma {:induction false} AllSlotsTaken(k: Caches, js: seq<Job>, now: Time, nextFire: map<string, Time>,
                                         runs: map<string, Run>)
    requires AllEnd(k, js, now) && forall i | 0 <= i < |js| :: CaughtUp(k, js[i], now, nextFire, runs)
    ensures forall slot | slot in PassSlots(k, js, now) :: !Free(runs, slot)
  {
    if js != [] {
      AllSlotsTaken(k, js[..|js| - 1], now, nextFire, runs);
      assert CaughtUp(k, js[|js| - 1], now, nextFire, runs);
    }
  }

  lemma NewRunsFill(runs: map<string, Run>, slots: set<(string, Time)>, runs': map<string, Run>)
    requires Grows(runs, slots, runs') && forall slot | slot in slots :: !Free(runs', slot)
    ensures |NewIds(runs, runs')| == |FreeSlots(runs, slots)|
  {
    var ids, free := NewIds(runs, runs'), FreeSlots(runs, slots);
    var f := map id | id in ids :: (runs'[id].jobID, runs'[id].scheduledFor);
    assert Injects(ids, f, free) by {
      forall a, b | a in ids && b in ids && f[a] == f[b]
        ensures a == b
      {
        assert SameSlot(runs'[a], runs'[b]);
      }
    }
    forall slot | slot in free
      ensures exists a :: a in ids && f[a] == slot
    {
      assert SlotTaken(runs', slot.0, slot.1);
      var a :| a in runs' && runs'[a].jobID == slot.0 && runs'[a].scheduledFor == slot.1;
      assert a !in runs;
      assert f[a] == slot;
    }
    InjectionSize(ids, f, free);
  }

  lemma NewRunsConserved(runs: map<string, Run>, slots: set<(string, Time)>, runs': map<string, Run>)
    requires Grows(runs, slots, runs') && forall slot | slot in slots :: !Free(runs', slot)
    ensures |slots| == |NewIds(runs, runs')| + |TakenSlots(runs, slots)|
  {
    NewRunsFill(runs, slots, runs');
    FreeOrTaken(runs, slots);
  }

  lemma FreeOrTaken(runs: map<string, Run>, slots: set<(string, Time)>)
    ensures |slots| == |FreeSlots(runs, slots)| + |TakenSlots(runs, slots)|
  {
    UnionSize(FreeSlots(runs, slots), TakenSlots(runs, slots), slots);
  }

  lemma NoneTakenIff(runs: map<string, Run>, slots: set<(string, Time)>)
    ensures |TakenSlots(runs, slots)| == 0 <==> forall slot | slot in slots :: Free(runs, slot)
  {
    if slot :| slot in slots && !Free(runs, slot) {
      assert slot in TakenSlots(runs, slots);
    } else {
      assert TakenSlots(runs, slots) == {};
    }
  }

  /**
   An error-free pass counts the runs it created and the slots it walked that had a run
   already.
   */
  lemma CountConserved(k: Caches, runs: map<string, Run>, js: seq<Job>, now: Time, created: nat,
                       k': Caches, runs': map<string, Run>)
    requires AllNamed(js) && AllEnd(k, js, now) && Passed(k, runs, js, now, |js|, created, k', runs')
    ensures created == |NewIds(runs, runs')| + |TakenSlots(runs, PassSlots(k, js, now))|
  {
    WholePass(k, runs, js, now, created, k', runs');
    NewRunsConserved(runs, PassSlots(k, js, now), runs');
  }

  lemma WholePass(k: Caches, runs: map<string, Run>, js: seq<Job>, now: Time, created: nat,
                  k': Caches, runs': map<string, Run>)
    requires AllNamed(js) && AllEnd(k, js, now) && Passed(k, runs, js, now, |js|, created, k', runs')
    ensures Grows(runs, PassSlots(k, js, now), runs') && created == |PassSlots(k, js, now)|
    ensures forall slot | slot in PassSlots(k, js, now) :: !Free(runs', slot)
  {
    assert js[..|js|] == js;
    SlotsOfPass(k, js, now);
    AllSlotsTaken(k, js, now, k'.nextFire, runs');
  }

  /** So it is the number of runs created exactly when no slot walked had a run before. */
  lemma CountsCreatedIff(k: Caches, runs: map<string, Run>, js: seq<Job>, now: Time, created: nat,
                         k': Caches, runs': map<string, Run>)
    requires AllNamed(js) && AllEnd(k, js, now) && Passed(k, runs, js, now, |js|, created, k', runs')
    ensures created == |NewIds(runs, runs')| <==> forall slot | slot in PassSlots(k, js, now) :: Free(runs, slot)
  {
    CountConserved(k, runs, js, now, created, k', runs');
    NoneTakenIff(runs, PassSlots(k, js, now));
  }

  /** A pass that walks a slot with a run: it reports one run created, and creates none. */
  lemma CountsTakenSlot(parse: string -> Option<Schedule>)
      returns (k: Caches, k': Caches, j: Job, runs: map<string, Run>)
    ensures AllNamed([j]) && AllEnd(k, [j], SECOND) && k.parse == parse
    ensures Passed(k, runs, [j], SECOND, 1, 1, k', runs) && NewIds(runs, runs) == {}
  {
    j := Job("j", "@every 1s", 0, RetryPolicy(0, 0, 0.0, 0.0), [], true);
    k := Caches(map["j" := Interval(SECOND)], map["j" := SECOND], parse);
    k' := k.(nextFire := map["j" := 2 * SECOND]);
    runs := map["r" := P.NewRun("r", "j", "b", 0, SECOND, SECOND)];
    var f := NextFn(Interval(SECOND));
    IntervalLaws(SECOND);
    assert f(SECOND) == 2 * SECOND;
    assert Walk(f, 2 * SECOND, SECOND) == [] && Walk(f, SECOND, SECOND) == [SECOND];
    assert After(f, SECOND, SECOND) == After(f, 2 * SECOND, SECOND) == 2 * SECOND;
    assert k.SchedulePassed(j) == Some(Interval(SECOND)) && Get(k.nextFire, j.id) == Some(SECOND);
    assert k.WalkedFor(j, SECOND) == [SECOND] && k.MovedFor(j, SECOND) == Some(2 * SECOND);
    assert SlotTaken(runs, "j", SECOND) by {
      assert runs["r"].scheduledFor == SECOND;
    }
    assert CaughtUp(k, j, SECOND, k'.nextFire, runs);
    assert [j][..1] == [j] && [j][..0] == [];
    assert j in [j] && JobIds([j]) == {"j"};
  }
}
