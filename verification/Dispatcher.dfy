/** The dispatcher, `internal/scheduler/dispatcher.go`: its two caches and its passes over the jobs. */
module Dispatcher {
  import opened Text
  import opened CronSchedule
  import opened CronNext
  import opened CronParser
  import opened JobModel
  import opened MemoryStore
  import opened CatchUp
  import opened CronCatchUp
  import opened Materialise
  import opened Dependents
  import P = Protocol

  function Get<T>(m: map<string, T>, key: string): Option<T> {
    if key in m then Some(m[key]) else None
  }

  ghost predicate SameElsewhere<T(!new)>(m: map<string, T>, key: string, m': map<string, T>) {
    forall k | k != key :: Get(m', k) == Get(m, k)
  }

  // What a pass does to one job, given its schedule and its cached fire time.

  /** The schedule a pass uses: none if the job is disabled, has no expression or a malformed one. */
  function Resolve(j: Job, cached: Option<Schedule>, parse: string -> Option<Schedule>): Option<Schedule> {
    if !j.enabled || j.spec == "" then None
    else if cached.Some? then cached
    else parse(j.spec)
  }

  /** The catch-up loop ends (see `CatchUp.LoopEndsIff`). */
  ghost predicate Ends(sch: Option<Schedule>, next: Option<Time>, now: Time) {
    sch.Some? && next.Some? ==> LiveBetween(NextFn(sch.value), next.value, now)
  }

  ghost function Walked(sch: Option<Schedule>, next: Option<Time>, now: Time): seq<Time>
    requires Ends(sch, next, now)
  {
    if sch.Some? && next.Some? then
      AlwaysProgressive(sch.value);
      Walk(NextFn(sch.value), next.value, now)
    else []
  }

  /** The fire time an error-free pass leaves in the cache. */
  ghost function Moved(sch: Option<Schedule>, next: Option<Time>, now: Time): Option<Time>
    requires Ends(sch, next, now)
  {
    if sch.None? then next
    else if next.None? then Some(NextFn(sch.value)(now))
    else
      AlwaysProgressive(sch.value);
      Some(After(NextFn(sch.value), next.value, now))
  }

  // What a pass does to all of them.

  /** The dispatcher's caches. */
  datatype Caches = Caches(parsed: map<string, Schedule>, nextFire: map<string, Time>,
                           parse: string -> Option<Schedule>) {
    function SchedulePassed(j: Job): Option<Schedule> {
      Resolve(j, Get(parsed, j.id), parse)
    }

    /** The cached schedule after the job's turn. */
    function ParsedAfter(j: Job): Option<Schedule> {
      if SchedulePassed(j).Some? then SchedulePassed(j) else Get(parsed, j.id)
    }

    ghost predicate EndsFor(j: Job, now: Time) {
      Ends(SchedulePassed(j), Get(nextFire, j.id), now)
    }

    ghost function WalkedFor(j: Job, now: Time): seq<Time>
      requires EndsFor(j, now)
    {
      Walked(SchedulePassed(j), Get(nextFire, j.id), now)
    }

    ghost function MovedFor(j: Job, now: Time): Option<Time>
      requires EndsFor(j, now)
    {
      Moved(SchedulePassed(j), Get(nextFire, j.id), now)
    }
  }

  /** The jobs have distinct, non-empty IDs. */
  ghost predicate AllNamed(js: seq<Job>) {
    DistinctKeys(js, JobKey) && forall i | 0 <= i < |js| :: js[i].id != ""
  }

  ghost predicate AllEnd(k: Caches, js: seq<Job>, now: Time) {
    forall i | 0 <= i < |js| :: k.EndsFor(js[i], now)
  }

  /** The slots a pass over the jobs walks, and how many there are. */
  ghost function PassSlots(k: Caches, js: seq<Job>, now: Time): set<(string, Time)>
    requires AllEnd(k, js, now)
  {
    if js == [] then {}
    else
      var init, last := js[..|js| - 1], js[|js| - 1];
      PassSlots(k, init, now) + SlotsOf(last.id, k.WalkedFor(last, now))
  }

  ghost function PassCount(k: Caches, js: seq<Job>, now: Time): nat
    requires AllEnd(k, js, now)
  {
    if js == [] then 0
    else PassCount(k, js[..|js| - 1], now) + |k.WalkedFor(js[|js| - 1], now)|
  }

  /** The job's turn went without error: its cached fire time moved past now, and its slots have runs. */
  ghost predicate CaughtUp(k: Caches, j: Job, now: Time, nextFire: map<string, Time>, runs: map<string, Run>) {
    && k.EndsFor(j, now)
    && Get(nextFire, j.id) == k.MovedFor(j, now)
    && AllTaken(runs, j.id, k.WalkedFor(j, now))
  }

  /** The job's turn went wrong after the first n of its slots. */
  ghost predicate StoppedAt(k: Caches, j: Job, now: Time, n: nat, runs: map<string, Run>)
    requires k.EndsFor(j, now)
  {
    n < |k.WalkedFor(j, now)| && AllTaken(runs, j.id, k.WalkedFor(j, now)[..n])
  }

  /**
   One job's turn in a pass.  With an error the cached fire time stays where it was, so that a
   later pass walks the same slots again.
   */
  ghost predicate Turn(k: Caches, runs: map<string, Run>, j: Job, now: Time, ok: bool, walked: nat,
                       k': Caches, runs': map<string, Run>)
    requires k.EndsFor(j, now)
  {
    var slots := k.WalkedFor(j, now);
    && Get(k'.parsed, j.id) == k.ParsedAfter(j)
    && Get(k'.nextFire, j.id) == (if ok then k.MovedFor(j, now) else Get(k.nextFire, j.id))
    && SameElsewhere(k.parsed, j.id, k'.parsed) && SameElsewhere(k.nextFire, j.id, k'.nextFire)
    && Grows(runs, SlotsOf(j.id, slots), runs')
    && (if ok then walked == |slots| && AllTaken(runs', j.id, slots) else StoppedAt(k, j, now, walked, runs'))
  }

  /** The schedules of the first n jobs are cached, and no others. */
  ghost predicate ParsedUpTo(k: Caches, js: seq<Job>, n: nat, k': Caches)
    requires n <= |js|
  {
    && (forall i | 0 <= i < n :: Get(k'.parsed, js[i].id) == k.ParsedAfter(js[i]))
    && (forall id | id !in JobIds(js[..n]) :: Get(k'.parsed, id) == Get(k.parsed, id))
  }

  /** The first n jobs have had their turns without error, nothing else happened, and their slots were counted. */
  ghost predicate Passed(k: Caches, runs: map<string, Run>, js: seq<Job>, now: Time, n: nat, created: nat,
                         k': Caches, runs': map<string, Run>)
    requires n <= |js| && AllEnd(k, js, now)
  {
    && k'.parse == k.parse && created == PassCount(k, js[..n], now)
    && (forall i | 0 <= i < n :: CaughtUp(k, js[i], now, k'.nextFire, runs'))
    && (forall id | id !in JobIds(js[..n]) :: Get(k'.nextFire, id) == Get(k.nextFire, id))
    && ParsedUpTo(k, js, n, k')
    && Grows(runs, PassSlots(k, js[..n], now), runs')
  }

  // Half-way through a walk.

  ghost predicate WalkedTo(f: Time -> Time, first: Time, now: Time, n: nat, next: Time) {
    && Progressive(f) && LiveBetween(f, first, now) && LiveBetween(f, next, now)
    && n <= |Walk(f, first, now)| && Walk(f, first, now)[n..] == Walk(f, next, now)
    && After(f, first, now) == After(f, next, now)
  }

  lemma WalkOne(f: Time -> Time, first: Time, now: Time, n: nat, next: Time)
    requires WalkedTo(f, first, now, n, next) && next <= now
    ensures n < |Walk(f, first, now)| && Walk(f, first, now)[n] == next
    ensures WalkedTo(f, first, now, n + 1, f(next))
  {
  }

  /** Runs were created for some of the slots, and the first n have one. */
  ghost predicate Filled(runs: map<string, Run>, job: string, slots: seq<Time>, n: nat, runs': map<string, Run>) {
    n <= |slots| && Grows(runs, SlotsOf(job, slots), runs') && AllTaken(runs', job, slots[..n])
  }

  lemma FillOne(runs: map<string, Run>, job: string, slots: seq<Time>, n: nat, runs': map<string, Run>,
                runs'': map<string, Run>)
    requires n < |slots| && Filled(runs, job, slots, n, runs') && Grows(runs', {(job, slots[n])}, runs'')
    ensures Filled(runs, job, slots, n, runs'')
    ensures SlotTaken(runs'', job, slots[n]) ==> Filled(runs, job, slots, n + 1, runs'')
  {
    GrowsTwice(runs, SlotsOf(job, slots), runs', {(job, slots[n])}, runs'');
    assert SlotsOf(job, slots) + {(job, slots[n])} == SlotsOf(job, slots);
    AllTakenStays(runs', runs'', job, slots[..n]);
    assert slots[..n + 1] == slots[..n] + [slots[n]];
  }

  /** `Schedule.Next`. */
  method NextTime(sch: Schedule, t: Time) returns (r: Time)
    ensures r == NextFn(sch)(t)
  {
    match sch
    case Cron(s) => r := Next(s, t);
    case Interval(delay) => r := NextInterval(delay, t);
  }

  /** Stands for `newID`: some ID not in use. */
  method NewID(used: set<string>) returns (id: string)
    ensures id !in used && id != ""
  {
    id := "x";
    var rest := used;
    while rest != {}
      invariant rest <= used && id != ""
      invariant forall u | u in used && u !in rest :: |u| < |id|
    {
      var u :| u in rest;
      rest := rest - {u};
      if |id| <= |u| {
        id := u + "x";
      }
    }
  }

  class Dispatcher {
    const store: Store
    const parse: string -> Option<Schedule>
    var nextFire: map<string, Time>
    var parsed: map<string, Schedule>

    ghost function Snapshot(): Caches
      reads this
    {
      Caches(parsed, nextFire, parse)
    }

    constructor (store: Store, parse: string -> Option<Schedule>)
      ensures this.store == store && this.parse == parse && nextFire == map[] && parsed == map[]
    {
      this.store, this.parse := store, parse;
      nextFire, parsed := map[], map[];
    }

    /** The parsed schedule of a job, cached by job ID. */
    method ScheduleFor(j: Job) returns (r: Option<Schedule>)
      modifies this`parsed
      ensures r == if j.id in old(parsed) then Some(old(parsed)[j.id]) else parse(j.spec)
      ensures parsed == if r.Some? then old(parsed)[j.id := r.value] else old(parsed)
    {
      if j.id in parsed {
        assert parsed == parsed[j.id := parsed[j.id]];
        return Some(parsed[j.id]);
      }
      r := parse(j.spec);
      if r.Some? {
        parsed := parsed[j.id := r.value];
      }
    }

    /** `CreateRun` on a store that may report an error whether or not the run was stored. */
    method TryCreate(r: Run) returns (ok: bool)
      requires store.Valid()
      modifies store`runs
      ensures store.Valid()
      ensures store.runs == old(store.runs)[r.id := r] || (!ok && store.runs == old(store.runs))
    {
      ok := *;
      var stored: bool := *;
      if ok || stored {
        store.CreateRun(r);
      }
    }

    /** Create the run that starts a batch for the slot, unless the job has a run for it. */
    method EnqueueRoot(j: Job, fireAt: Time) returns (ok: bool)
      requires store.Valid() && j.id != ""
      modifies store`runs
      ensures store.Valid()
      ensures ok ==> SlotTaken(store.runs, j.id, fireAt)
      ensures Grows(old(store.runs), {(j.id, fireAt)}, store.runs)
      ensures SlotTaken(old(store.runs), j.id, fireAt) ==> ok && store.runs == old(store.runs)
    {
      GrowsNone(store.runs, {(j.id, fireAt)});
      var existing := store.ListRuns(RunFilter(j.id, "", None, 0, 0));
      for i := 0 to |existing|
        invariant forall k | 0 <= k < i :: existing[k].scheduledFor != fireAt
      {
        if existing[i].scheduledFor == fireAt {
          assert RunKey(existing[i]) in store.runs;
          return true;
        }
      }
      assert !SlotTaken(store.runs, j.id, fireAt);
      var id := NewID(store.runs.Keys);
      var batch := NewID(set x | x in store.runs :: store.runs[x].batchID);
      var run := P.NewRun(id, j.id, batch, 0, fireAt, fireAt);
      GrowsByOne(store.runs, run);
      ok := TryCreate(run);
    }

    /** The catch-up loop: enqueue a root for each fire time up to now, stopping at the first error. */
    method EnqueueDue(j: Job, sch: Schedule, first: Time, now: Time) returns (ok: bool, next: Time, walked: nat)
      requires store.Valid() && j.id != "" && Ends(Some(sch), Some(first), now)
      modifies store`runs
      ensures store.Valid()
      ensures Grows(old(store.runs), SlotsOf(j.id, Walked(Some(sch), Some(first), now)), store.runs)
      ensures ok ==>
        && Some(next) == Moved(Some(sch), Some(first), now)
        && walked == |Walked(Some(sch), Some(first), now)|
        && AllTaken(store.runs, j.id, Walked(Some(sch), Some(first), now))
      ensures !ok ==>
        && walked < |Walked(Some(sch), Some(first), now)|
        && AllTaken(store.runs, j.id, Walked(Some(sch), Some(first), now)[..walked])
    {
      AlwaysProgressive(sch);
      ghost var f := NextFn(sch);
      ghost var all := Walk(f, first, now);
      ghost var runs := store.runs;
      next, walked := first, 0;
      while next <= now
        invariant store.Valid() && WalkedTo(f, first, now, walked, next) && Filled(runs, j.id, all, walked, store.runs)
        decreases now + 1 - next
      {
        WalkOne(f, first, now, walked, next);
        ghost var before := store.runs;
        var created := EnqueueRoot(j, next);
        FillOne(runs, j.id, all, walked, before, store.runs);
        if !created {
          return false, next, walked;
        }
        walked := walked + 1;
        next := NextTime(sch, next);
      }
      assert all[..walked] == all;
      ok := true;
    }

    /** One job's turn in a pass. */
    method Visit(j: Job, now: Time) returns (ok: bool, walked: nat)
      requires store.Valid() && j.id != ""
      requires Snapshot().EndsFor(j, now)
      modifies this`nextFire, this`parsed, store`runs
      ensures store.Valid()
      ensures Turn(old(Snapshot()), old(store.runs), j, now, ok, walked,
                   Snapshot(), store.runs)
    {
      ok, walked := true, 0;
      GrowsNone(store.runs, {});
      if !j.enabled || j.spec == "" {
        return;
      }
      var sched := ScheduleFor(j);
      if sched.None? {
        return;
      }
      if j.id !in nextFire {
        var first := NextTime(sched.value, now);
        nextFire := nextFire[j.id := first];
        return;
      }
      var next;
      ok, next, walked := EnqueueDue(j, sched.value, nextFire[j.id], now);
      if ok {
        nextFire := nextFire[j.id := next];
      }
    }

    /**
     A pass over the jobs in ID order, up to the first error: the jobs before the failing one
     are caught up, the others keep their cached fire times, and runs were only created for
     slots walked, at most one per slot.
     */
    method Dispatch(now: Time) returns (created: nat, ok: bool, ghost listing: seq<Job>, ghost done: nat)
      requires store.Valid() && "" !in store.jobs
      requires forall id | id in store.jobs :: Snapshot().EndsFor(store.jobs[id], now)
      modifies this`nextFire, this`parsed, store`runs
      ensures store.Valid() && Lists(store.jobs, JobKey, (j: Job) => true, IdBefore, listing)
      ensures done <= |listing| && (ok ==> done == |listing|) && AllEnd(old(Snapshot()), listing, now)
      ensures PassAt(old(Snapshot()), old(store.runs), listing, now, ok, done, created, Snapshot(), store.runs)
      ensures SkipsUnscheduled(listing, old(Snapshot()), old(store.runs), Snapshot(), store.runs)
    {
      var jobs := store.ListJobs();
      listing := jobs;
      forall i | 0 <= i < |jobs|
        ensures jobs[i].id != "" && Snapshot().EndsFor(jobs[i], now)
      {
        assert JobKey(jobs[i]) in store.jobs && store.jobs[JobKey(jobs[i])] == jobs[i];
      }
      created, ok, done := VisitAll(jobs, now);
      UnscheduledSkipped(old(Snapshot()), old(store.runs), jobs, now, ok, done, created, Snapshot(), store.runs);
    }

    /** The loop of `Dispatch`. */
    method VisitAll(jobs: seq<Job>, now: Time) returns (created: nat, ok: bool, ghost done: nat)
      requires store.Valid() && AllNamed(jobs) && AllEnd(Snapshot(), jobs, now)
      modifies this`nextFire, this`parsed, store`runs
      ensures store.Valid() && store.jobs == old(store.jobs)
      ensures done <= |jobs| && (ok ==> done == |jobs|)
      ensures PassAt(old(Snapshot()), old(store.runs), jobs, now, ok, done, created, Snapshot(), store.runs)
    {
      ghost var k, runs := Snapshot(), store.runs;
      PassedNone(k, runs, jobs, now);
      var i := 0;
      created, ok := 0, true;
      while i < |jobs| && ok
        invariant 0 <= i <= |jobs| && store.Valid()
        invariant PassAt(k, runs, jobs, now, ok, i, created, Snapshot(), store.runs)
        decreases |jobs| - i, ok
      {
        created, ok := TakeTurn(k, runs, jobs, now, i, created);
        if ok {
          i := i + 1;
        }
      }
      done := i;
    }

    /** One round of the loop: the pass described by k and runs goes on with job i. */
    method TakeTurn(ghost k: Caches, ghost runs: map<string, Run>, jobs: seq<Job>, now: Time, i: nat, created0: nat)
        returns (created: nat, ok: bool)
      requires store.Valid() && i < |jobs| && AllNamed(jobs) && AllEnd(k, jobs, now)
      requires PassAt(k, runs, jobs, now, true, i, created0, Snapshot(), store.runs)
      modifies this`nextFire, this`parsed, store`runs
      ensures store.Valid()
      ensures PassAt(k, runs, jobs, now, ok, if ok then i + 1 else i, created, Snapshot(), store.runs)
    {
      ghost var k', before := Snapshot(), store.runs;
      NextTurn(k, runs, jobs, now, i, created0, k', before);
      var walked;
      ok, walked := Visit(jobs[i], now);
      AfterTurn(k, runs, jobs, now, i, created0, k', before, ok, walked, Snapshot(), store.runs);
      created := created0 + walked;
    }

    /** `depsSatisfied`: every dependency of j has a succeeded run in the batch. */
    method DepsSatisfied(j: Job, batch: string) returns (ok: bool)
      requires store.Valid() && batch != "" && "" !in j.dependsOn
      ensures ok <==> forall i | 0 <= i < |j.dependsOn| :: P.HasSucceeded(store.runs, j.dependsOn[i], batch)
    {
      for i := 0 to |j.dependsOn|
        invariant forall k | 0 <= k < i :: P.HasSucceeded(store.runs, j.dependsOn[k], batch)
      {
        var succeeded := AnySucceeded(j.dependsOn[i], batch);
        if !succeeded {
          return false;
        }
      }
      ok := true;
    }

    /** `ListRuns` followed by `hasSucceeded`. */
    method AnySucceeded(job: string, batch: string) returns (ok: bool)
      requires store.Valid() && batch != "" && job != ""
      ensures ok <==> P.HasSucceeded(store.runs, job, batch)
    {
      var found := store.ListRuns(RunFilter(job, batch, None, 0, 0));
      for i := 0 to |found|
        invariant forall k | 0 <= k < i :: found[k].state != Succeeded
      {
        if found[i].state == Succeeded {
          assert RunKey(found[i]) in store.runs;
          return true;
        }
      }
      ok := false;
    }

    method AnyRun(job: string, batch: string) returns (ok: bool)
      requires store.Valid() && batch != "" && job != ""
      ensures ok <==> P.HasRun(store.runs, job, batch)
    {
      var found := store.ListRuns(RunFilter(job, batch, None, 0, 0));
      ok := |found| > 0;
      if ok {
        assert RunKey(found[0]) in store.runs;
      }
    }

    /**
     Start the jobs the completed run lets start in its batch: each gets one first attempt,
     unless it has a run there already.
     */
    method EnqueueDependents(completed: Run, now: Time) returns (ok: bool, ghost listing: seq<Job>)
      requires store.Valid() && "" !in store.jobs && completed.batchID != ""
      requires forall id | id in store.jobs :: "" !in store.jobs[id].dependsOn
      modifies store`runs
      ensures store.Valid() && Lists(store.jobs, JobKey, (j: Job) => true, IdBefore, listing)
      ensures Unblocks(listing, if ok then |listing| else 0, completed, now, old(store.runs), store.runs)
    {
      ghost var runs := store.runs;
      var jobs := store.ListJobs();
      listing := jobs;
      for i := 0 to |jobs|
        invariant store.Valid() && Unblocks(jobs, i, completed, now, runs, store.runs)
      {
        var j := jobs[i];
        assert JobKey(j) in store.jobs && store.jobs[JobKey(j)] == j;
        var ready := false;
        if completed.jobID in j.dependsOn {
          ready := DepsSatisfied(j, completed.batchID);
        }
        if ready {
          ready := AnyRun(j.id, completed.batchID);
          ready := !ready;
        }
        if ready {
          var id := NewID(store.runs.Keys);
          var run := P.NewRun(id, j.id, completed.batchID, 0, now, now);
          UnblocksOne(jobs, i, completed, now, runs, store.runs, run);
          var created := TryCreate(run);
          if !created {
            return false, jobs;
          }
        } else {
          UnblocksSkip(jobs, i, completed, now, runs, store.runs);
        }
      }
      ok := true;
    }
  }

  lemma PassedNone(k: Caches, runs: map<string, Run>, js: seq<Job>, now: Time)
    requires AllEnd(k, js, now)
    ensures Passed(k, runs, js, now, 0, 0, k, runs)
  {
  }

  /**
   The job after the first n failed: those before it are caught up, no other fire time moved,
   and the count is of the slots enqueued before the failing one.
   */
  ghost predicate Broken(k: Caches, runs: map<string, Run>, js: seq<Job>, now: Time, n: nat, created: nat,
                         k': Caches, runs': map<string, Run>)
    requires AllEnd(k, js, now)
  {
    && n < |js|
    && (forall i | 0 <= i < n :: CaughtUp(k, js[i], now, k'.nextFire, runs'))
    && (forall id | id !in JobIds(js[..n]) :: Get(k'.nextFire, id) == Get(k.nextFire, id))
    && ParsedUpTo(k, js, n + 1, k')
    && Grows(runs, PassSlots(k, js[..n + 1], now), runs')
    && PassCount(k, js[..n], now) <= created
    && StoppedAt(k, js[n], now, created - PassCount(k, js[..n], now), runs')
  }

  /** A pass that has come to job n, or failed there. */
  ghost predicate PassAt(k: Caches, runs: map<string, Run>, js: seq<Job>, now: Time, ok: bool, n: nat, created: nat,
                         k': Caches, runs': map<string, Run>)
    requires n <= |js| && AllEnd(k, js, now)
  {
    if ok then Passed(k, runs, js, now, n, created, k', runs') else Broken(k, runs, js, now, n, created, k', runs')
  }

  lemma NextTurn(k: Caches, runs: map<string, Run>, js: seq<Job>, now: Time, i: nat, created: nat,
                 k': Caches, runs': map<string, Run>)
    requires i < |js| && AllNamed(js) && AllEnd(k, js, now) && Passed(k, runs, js, now, i, created, k', runs')
    ensures js[i].id != "" && k'.EndsFor(js[i], now)
    ensures k'.SchedulePassed(js[i]) == k.SchedulePassed(js[i])
    ensures Get(k'.nextFire, js[i].id) == Get(k.nextFire, js[i].id) && k'.ParsedAfter(js[i]) == k.ParsedAfter(js[i])
  {
  }

  // Jobs without a schedule to follow.

  /** Nothing was done for jobs that are disabled or have no expression. */
  ghost predicate SkipsUnscheduled(js: seq<Job>, k: Caches, runs: map<string, Run>, k': Caches,
                                   runs': map<string, Run>) {
    forall i | 0 <= i < |js| && (!js[i].enabled || js[i].spec == "") ::
      && Get(k'.nextFire, js[i].id) == Get(k.nextFire, js[i].id)
      && Get(k'.parsed, js[i].id) == Get(k.parsed, js[i].id)
      && forall id | id in runs' && id !in runs :: runs'[id].jobID != js[i].id
  }

  lemma {:induction false} SlotsOfJob(k: Caches, js: seq<Job>, now: Time, slot: (string, Time)) returns (i: nat)
    requires AllEnd(k, js, now) && slot in PassSlots(k, js, now)
    ensures i < |js| && js[i].id == slot.0 && slot.1 in k.WalkedFor(js[i], now)
  {
    var n := |js| - 1;
    if slot in PassSlots(k, js[..n], now) {
      i := SlotsOfJob(k, js[..n], now, slot);
    } else {
      i := n;
    }
  }

  lemma NoSlots(k: Caches, js: seq<Job>, n: nat, now: Time, i: nat, slot: (string, Time))
    requires AllNamed(js) && AllEnd(k, js, now) && n <= |js| && i < |js| && (!js[i].enabled || js[i].spec == "")
    requires slot.0 == js[i].id
    ensures slot !in PassSlots(k, js[..n], now)
  {
    assert k.WalkedFor(js[i], now) == [];
    if slot in PassSlots(k, js[..n], now) {
      var m := SlotsOfJob(k, js[..n], now, slot);
      OneWithID(js, m, i);
    }
  }

  lemma OneWithID(js: seq<Job>, m: nat, i: nat)
    requires AllNamed(js) && m < |js| && i < |js| && js[m].id == js[i].id
    ensures m == i
  {
    assert m < i ==> JobKey(js[m]) != JobKey(js[i]);
    assert i < m ==> JobKey(js[i]) != JobKey(js[m]);
  }

  lemma UnscheduledSkipped(k: Caches, runs: map<string, Run>, js: seq<Job>, now: Time, ok: bool, done: nat,
                           created: nat,
                           k': Caches, runs': map<string, Run>)
    requires AllNamed(js) && AllEnd(k, js, now) && done <= |js|
    requires (ok ==> done == |js|) && PassAt(k, runs, js, now, ok, done, created, k', runs')
    ensures SkipsUnscheduled(js, k, runs, k', runs')
  {
    var n := if ok then done else done + 1;
    forall i | 0 <= i < |js| && (!js[i].enabled || js[i].spec == "")
      ensures Get(k'.nextFire, js[i].id) == Get(k.nextFire, js[i].id)
      ensures Get(k'.parsed, js[i].id) == Get(k.parsed, js[i].id)
      ensures forall id | id in runs' && id !in runs :: runs'[id].jobID != js[i].id
    {
      UnscheduledCaches(k, js, now, n, done, k', runs', i);
      forall id | id in runs' && id !in runs
        ensures runs'[id].jobID != js[i].id
      {
        assert (runs'[id].jobID, runs'[id].scheduledFor) in PassSlots(k, js[..n], now);
        if runs'[id].jobID == js[i].id {
          NoSlots(k, js, n, now, i, (js[i].id, runs'[id].scheduledFor));
        }
      }
    }
  }

  lemma UnscheduledCaches(k: Caches, js: seq<Job>, now: Time, n: nat, done: nat, k': Caches, runs': map<string, Run>,
                          i: nat)
    requires AllNamed(js) && AllEnd(k, js, now) && done <= n <= |js| && i < |js|
    requires !js[i].enabled || js[i].spec == ""
    requires ParsedUpTo(k, js, n, k')
    requires forall m | 0 <= m < done :: CaughtUp(k, js[m], now, k'.nextFire, runs')
    requires forall id | id !in JobIds(js[..done]) :: Get(k'.nextFire, id) == Get(k.nextFire, id)
    ensures Get(k'.nextFire, js[i].id) == Get(k.nextFire, js[i].id)
    ensures Get(k'.parsed, js[i].id) == Get(k.parsed, js[i].id)
  {
    if i < done {
      assert CaughtUp(k, js[i], now, k'.nextFire, runs');
    } else {
      NotAmong(js, done, i);
    }
    if i >= n {
      NotAmong(js, n, i);
    }
  }

  lemma NotAmong(js: seq<Job>, n: nat, i: nat)
    requires AllNamed(js) && n <= i < |js|
    ensures js[i].id !in JobIds(js[..n])
  {
    assert forall m | 0 <= m < n :: JobKey(js[m]) != JobKey(js[i]);
  }

  lemma AfterTurn(k: Caches, runs: map<string, Run>, js: seq<Job>, now: Time, i: nat, created: nat,
                  k': Caches, runs': map<string, Run>, ok: bool, walked: nat, k'': Caches, runs'': map<string, Run>)
    requires i < |js| && AllNamed(js) && AllEnd(k, js, now) && Passed(k, runs, js, now, i, created, k', runs')
    requires k'.EndsFor(js[i], now) && Turn(k', runs', js[i], now, ok, walked, k'', runs'') && k''.parse == k'.parse
    ensures if ok then Passed(k, runs, js, now, i + 1, created + walked, k'', runs'')
            else Broken(k, runs, js, now, i, created + walked, k'', runs'')
  {
    NextTurn(k, runs, js, now, i, created, k', runs');
    SlotsAfterTurn(k, runs, js, now, i, runs', runs'');
    StayCaughtUp(k, js, i, now, k'.nextFire, runs', k''.nextFire, runs'');
    ParsedAfterTurn(k, js, i, k', k'');
    if ok {
      ElsewhereAfterTurn(k.nextFire, js, i, k'.nextFire, k''.nextFire);
      assert CaughtUp(k, js[i], now, k''.nextFire, runs'');
    } else {
      ElsewhereAfterError(k.nextFire, js, i, k'.nextFire, k''.nextFire);
    }
  }

  lemma ElsewhereAfterError(m: map<string, Time>, js: seq<Job>, i: nat, m': map<string, Time>, m'': map<string, Time>)
    requires i < |js| && SameElsewhere(m', js[i].id, m'') && Get(m'', js[i].id) == Get(m', js[i].id)
    requires forall id | id !in JobIds(js[..i]) :: Get(m', id) == Get(m, id)
    ensures forall id | id !in JobIds(js[..i]) :: Get(m'', id) == Get(m, id)
  {
  }

  lemma ParsedAfterTurn(k: Caches, js: seq<Job>, i: nat, k': Caches, k'': Caches)
    requires i < |js| && AllNamed(js) && ParsedUpTo(k, js, i, k')
    requires Get(k''.parsed, js[i].id) == k.ParsedAfter(js[i]) && SameElsewhere(k'.parsed, js[i].id, k''.parsed)
    ensures ParsedUpTo(k, js, i + 1, k'')
  {
    ElsewhereAfterTurn(k.parsed, js, i, k'.parsed, k''.parsed);
    assert forall m | 0 <= m < i :: JobKey(js[m]) != JobKey(js[i]);
  }

  lemma SlotsAfterTurn(k: Caches, runs: map<string, Run>, js: seq<Job>, now: Time, i: nat, runs': map<string, Run>,
                       runs'': map<string, Run>)
    requires i < |js| && AllEnd(k, js, now) && k.EndsFor(js[i], now) && Grows(runs, PassSlots(k, js[..i], now), runs')
    requires Grows(runs', SlotsOf(js[i].id, k.WalkedFor(js[i], now)), runs'')
    ensures Grows(runs, PassSlots(k, js[..i + 1], now), runs'')
    ensures PassCount(k, js[..i + 1], now) == PassCount(k, js[..i], now) + |k.WalkedFor(js[i], now)|
  {
    assert js[..i + 1][..i] == js[..i];
    GrowsTwice(runs, PassSlots(k, js[..i], now), runs', SlotsOf(js[i].id, k.WalkedFor(js[i], now)), runs'');
  }

  lemma ElsewhereAfterTurn<T(!new)>(m: map<string, T>, js: seq<Job>, i: nat, m': map<string, T>, m'': map<string, T>)
    requires i < |js| && AllNamed(js) && SameElsewhere(m', js[i].id, m'')
    requires forall id | id !in JobIds(js[..i]) :: Get(m', id) == Get(m, id)
    ensures forall id | id !in JobIds(js[..i + 1]) :: Get(m'', id) == Get(m, id)
  {
  }

  ghost function JobIds(js: seq<Job>): set<string> {
    set j | j in js :: j.id
  }

  lemma StayCaughtUp(k: Caches, js: seq<Job>, i: nat, now: Time, fires: map<string, Time>, runs: map<string, Run>,
                     fires': map<string, Time>, runs': map<string, Run>)
    requires i < |js| && AllNamed(js) && AllEnd(k, js, now)
    requires forall m | 0 <= m < i :: CaughtUp(k, js[m], now, fires, runs)
    requires SameElsewhere(fires, js[i].id, fires') && Persist(runs, runs')
    ensures forall m | 0 <= m < i :: CaughtUp(k, js[m], now, fires', runs')
  {
  }
}
