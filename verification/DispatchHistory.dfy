/** What a history of dispatcher passes, some of them failing, does for one cron job. */
module DispatchHistory {
  import opened Text
  import opened CronSchedule
  import opened CronParser
  import opened JobModel
  import opened MemoryStore
  import opened CatchUp
  import opened CronCatchUp
  import opened Materialise
  import opened Dispatcher

  /** One pass: the caches before and after it, whether the job's turn went without error, and the runs after. */
  datatype Pass = Pass(before: Caches, now: Time, ok: bool, after: Caches, runs: map<string, Run>)

  /** The job is enabled and its schedule, cached or read from its expression, is s. */
  ghost predicate Follows(k: Caches, j: Job, s: SpecSchedule) {
    && j.enabled && j.spec != ""
    && (if j.id in k.parsed then k.parsed[j.id] == Cron(s) else k.parse(j.spec) == Some(Cron(s)))
  }

  /** What a pass did for job j, an enabled job with the cron schedule s. */
  ghost predicate IsPass(p: Pass, j: Job, s: SpecSchedule) {
    && Follows(p.before, j, s)
    && (if p.ok then CaughtUp(p.before, j, p.now, p.after.nextFire, p.runs)
        else Get(p.after.nextFire, j.id) == Get(p.before.nextFire, j.id))
  }

  /** What `Dispatcher.Dispatch` ensures makes it such a pass for every job it lists. */
  lemma DispatchIsPass(k: Caches, runs: map<string, Run>, js: seq<Job>, now: Time, ok: bool, done: nat, created: nat,
                       k': Caches, runs': map<string, Run>, i: nat, s: SpecSchedule)
    requires AllNamed(js) && AllEnd(k, js, now) && done <= |js|
    requires (ok ==> done == |js|) && PassAt(k, runs, js, now, ok, done, created, k', runs')
    requires i < |js| && Follows(k, js[i], s)
    ensures IsPass(Pass(k, now, i < done, k', runs'), js[i], s) && Persist(runs, runs')
  {
    if i >= done {
      assert forall m | 0 <= m < done :: JobKey(js[m]) != JobKey(js[i]);
    }
  }

  /** Between passes time goes on, no run is lost, and only the dispatcher touches its caches. */
  ghost predicate Then(p: Pass, p': Pass, j: Job) {
    p.now <= p'.now && Get(p'.before.nextFire, j.id) == Get(p.after.nextFire, j.id) && Persist(p.runs, p'.runs)
  }

  /** The passes from the job's first sighting on. */
  ghost predicate IsHistory(passes: seq<Pass>, j: Job, s: SpecSchedule) {
    && passes != [] && passes[0].ok && Get(passes[0].before.nextFire, j.id) == None
    && (forall i | 0 <= i < |passes| :: IsPass(passes[i], j, s))
    && (forall i | 0 <= i < |passes| - 1 :: Then(passes[i], passes[i + 1], j))
  }

  /** Every activation after `seen` up to `to` has a run of the job. */
  ghost predicate AllMaterialised(s: SpecSchedule, job: string, seen: Time, to: Time, runs: map<string, Run>) {
    forall t | seen < t <= to && ActivatesFn(s)(t) :: SlotTaken(runs, job, t)
  }

  /** The job is caught up to `to`. */
  ghost predicate CaughtUpTo(s: SpecSchedule, j: Job, seen: Time, to: Time, p: Pass) {
    && seen <= to <= p.now
    && Get(p.after.nextFire, j.id) == Some(NextFn(Cron(s))(to))
    && AllMaterialised(s, j.id, seen, to, p.runs)
  }

  lemma MaterialisedStays(s: SpecSchedule, job: string, seen: Time, to: Time, runs: map<string, Run>,
                          runs': map<string, Run>)
    requires AllMaterialised(s, job, seen, to, runs) && Persist(runs, runs')
    ensures AllMaterialised(s, job, seen, to, runs')
  {
  }

  lemma OnePass(s: SpecSchedule, j: Job, seen: Time, to: Time, p: Pass, p': Pass)
    requires CaughtUpTo(s, j, seen, to, p) && Then(p, p', j) && IsPass(p', j, s)
    requires LiveBetween(NextFn(Cron(s)), to, p'.now)
    ensures CaughtUpTo(s, j, seen, if p'.ok then p'.now else to, p')
  {
    MaterialisedStays(s, j.id, seen, to, p.runs, p'.runs);
    if p'.ok {
      var f := NextFn(Cron(s));
      CronLaws(s);
      CacheIsFresh(f, to, p'.now);
      WalkIsActivations(f, ActivatesFn(s), to, p'.now);
      var walk := Walk(f, f(to), p'.now);
      assert p'.before.WalkedFor(j, p'.now) == walk;
      forall t | seen < t <= p'.now && ActivatesFn(s)(t)
        ensures SlotTaken(p'.runs, j.id, t)
      {
        if t > to {
          assert t in walk;
        }
      }
    }
  }

  /** The last pass in which the job's turn went without error. */
  ghost function LastGood(passes: seq<Pass>): (g: nat)
    requires passes != [] && passes[0].ok
    ensures g < |passes| && passes[g].ok && forall m | g < m < |passes| :: !passes[m].ok
  {
    var n := |passes| - 1;
    if passes[n].ok then n else LastGood(passes[..n])
  }

  /**
   For every history in which the schedule does not run dry, with passes at any times and with
   any failures in between: the cached fire time is the one a fresh computation gives at the
   time of the last good pass, and every activation since the first sighting up to then has
   a run.
   */
  lemma {:induction false} NothingMissed(passes: seq<Pass>, j: Job, s: SpecSchedule)
    requires IsHistory(passes, j, s)
    requires LiveBetween(NextFn(Cron(s)), passes[0].now, passes[|passes| - 1].now)
    ensures CaughtUpTo(s, j, passes[0].now, passes[LastGood(passes)].now, passes[|passes| - 1])
    decreases |passes|
  {
    if |passes| > 1 {
      var init, last := passes[..|passes| - 1], passes[|passes| - 1];
      var p := init[|init| - 1];
      assert Then(passes[|passes| - 2], passes[|passes| - 1], j);
      NothingMissed(init, j, s);
      OnePass(s, j, passes[0].now, init[LastGood(init)].now, p, last);
    }
  }

  /** Each pass walks exactly the activations since the last good one before it, and the first pass none. */
  lemma WalksSinceLastGood(passes: seq<Pass>, j: Job, s: SpecSchedule, i: nat, t: Time)
    requires IsHistory(passes, j, s) && i < |passes|
    requires LiveBetween(NextFn(Cron(s)), passes[0].now, passes[i].now)
    ensures passes[i].before.EndsFor(j, passes[i].now)
    ensures t in passes[i].before.WalkedFor(j, passes[i].now) <==>
            i > 0 && passes[LastGood(passes[..i])].now < t <= passes[i].now && ActivatesFn(s)(t)
  {
    assert IsPass(passes[i], j, s);
    if i > 0 {
      var f, to := NextFn(Cron(s)), passes[LastGood(passes[..i])].now;
      assert IsHistory(passes[..i], j, s);
      assert Then(passes[i - 1], passes[i], j);
      NothingMissed(passes[..i], j, s);
      CronLaws(s);
      WalkIsActivations(f, ActivatesFn(s), to, passes[i].now);
      assert passes[i].before.WalkedFor(j, passes[i].now) == Walk(f, f(to), passes[i].now);
    }
  }

  lemma LastGoodIsLast(passes: seq<Pass>, i: nat)
    requires i < |passes| && passes[0].ok && passes[i].ok
    ensures i <= LastGood(passes)
  {
  }

  lemma {:induction false} PassesInOrder(passes: seq<Pass>, j: Job, s: SpecSchedule, i: nat, m: nat)
    requires IsHistory(passes, j, s) && i <= m < |passes|
    ensures passes[i].now <= passes[m].now
    decreases m
  {
    if i < m {
      PassesInOrder(passes, j, s, i, m - 1);
      assert Then(passes[m - 1], passes[m], j);
    }
  }

  /** What a good pass has walked is never walked again. */
  lemma WalkedOnce(passes: seq<Pass>, j: Job, s: SpecSchedule, i: nat, m: nat, t: Time)
    requires IsHistory(passes, j, s) && i < m < |passes| && passes[i].ok
    requires LiveBetween(NextFn(Cron(s)), passes[0].now, passes[m].now)
    ensures passes[i].before.EndsFor(j, passes[i].now) && passes[m].before.EndsFor(j, passes[m].now)
    ensures t in passes[i].before.WalkedFor(j, passes[i].now) ==> t !in passes[m].before.WalkedFor(j, passes[m].now)
  {
    PassesInOrder(passes, j, s, i, m);
    WalksSinceLastGood(passes, j, s, i, t);
    WalksSinceLastGood(passes, j, s, m, t);
    var g := LastGood(passes[..m]);
    LastGoodIsLast(passes[..m], i);
    PassesInOrder(passes, j, s, i, g);
  }
}
