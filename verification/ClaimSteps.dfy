/** A whole `ClaimDue` call as a sequence of `Claim` steps. */
module ClaimSteps {
  import opened CronSchedule
  import opened JobModel
  import opened MemoryStore
  import opened Protocol
  import opened ClaimOrder

  /** One `Claim` step for each run taken, by goroutines numbered from base. */
  ghost function ClaimLabels(due: seq<Run>, worker: string, now: Time, process: nat, base: nat): (labels: seq<Label>)
    ensures |labels| == |due|
  {
    if due == [] then []
    else
      var n := |due| - 1;
      ClaimLabels(due[..n], worker, now, process, base) + [Claim(process, due[n].id, worker, base + n, now)]
  }

  /** The runs are in the store, distinct and ready. */
  ghost predicate Takeable(runs: map<string, Run>, due: seq<Run>, now: Time) {
    Stored(runs, due) && DistinctKeys(due, RunKey) && forall i | 0 <= i < |due| :: Ready(due[i], now)
  }

  /** One new goroutine for each run of due, and the others as they were. */
  ghost predicate Starts(tasks: map<nat, Task>, due: seq<Run>, worker: string, now: Time, lease: nat, process: nat,
                         base: nat,
                         tasks': map<nat, Task>) {
    && (forall t :: t in tasks' <==> t in tasks || base <= t < base + |due|)
    && (forall t | t in tasks' ::
          tasks'[t] ==
            if base <= t < base + |due| then Task(Leased(due[t - base], worker, now, lease), Executing, process)
            else tasks[t])
  }

  /** What claiming the runs of due does to the state. */
  ghost predicate Claims(c: Config, s: State, due: seq<Run>, worker: string, now: Time, process: nat, base: nat,
                         s': State) {
    && LeasesExactly(s.runs, IdsOf(due), worker, now, c.lease, s'.runs)
    && Starts(s.tasks, due, worker, now, c.lease, process, base, s'.tasks)
    && s' == s.(runs := s'.runs, tasks := s'.tasks)
  }

  /** Goroutine numbers from base on are free, and for the drain barrier no claim is being worked on. */
  ghost predicate MayClaim(d: Discipline, s: State, base: nat) {
    forall t | t in s.tasks :: t < base && (d == DrainBarrier ==> !s.tasks[t].Unrecorded())
  }

  /**
   A `ClaimDue` call is a legal sequence of `Claim` steps under every discipline (for the drain
   barrier, if no earlier claim is still being worked on), with the same effect on the runs.
   */
  lemma CallIsSteps(c: Config, d: Discipline, s: State, k: Call, process: nat, base: nat)
    requires IsClaim(k) && s.runs == k.before && k.now <= s.now && k.lease == c.lease && MayClaim(d, s, base)
    ensures var labels := ClaimLabels(k.Due(), k.worker, k.now, process, base);
      && Legal(c, d, s, labels)
      && Exec(c, d, s, labels).runs == k.after
      && Claims(c, s, k.Due(), k.worker, k.now, process, base, Exec(c, d, s, labels))
  {
    DueIsTakeable(k);
    RunsAreSteps(c, d, s, k.Due(), k.worker, k.now, process, base);
    LeasesAgree(k.before, IdsOf(k.Due()), k.worker, k.now, k.lease, k.after,
                Exec(c, d, s, ClaimLabels(k.Due(), k.worker, k.now, process, base)).runs);
  }

  lemma LeasesAgree(runs: map<string, Run>, ids: set<string>, worker: string, now: Time, lease: nat,
                    a: map<string, Run>, b: map<string, Run>)
    requires LeasesExactly(runs, ids, worker, now, lease, a) && LeasesExactly(runs, ids, worker, now, lease, b)
    ensures a == b
  {
  }

  lemma DueIsTakeable(k: Call)
    requires IsClaim(k)
    ensures Takeable(k.before, k.Due(), k.now)
  {
  }

  lemma {:induction false} RunsAreSteps(c: Config, d: Discipline, s: State, due: seq<Run>, worker: string, now: Time,
                                        process: nat, base: nat)
    requires Takeable(s.runs, due, now) && now <= s.now && MayClaim(d, s, base)
    ensures var labels := ClaimLabels(due, worker, now, process, base);
      Legal(c, d, s, labels) && Claims(c, s, due, worker, now, process, base, Exec(c, d, s, labels))
  {
    if due != [] {
      var n := |due| - 1;
      var init := due[..n];
      RunsAreSteps(c, d, s, init, worker, now, process, base);
      var labels, l := ClaimLabels(init, worker, now, process, base), Claim(process, due[n].id, worker, base + n, now);
      NextClaim(c, d, s, due, worker, now, process, base, Exec(c, d, s, labels));
      OneStep(c, d, s, labels, l);
      assert ClaimLabels(due, worker, now, process, base) == labels + [l];
    }
  }

  lemma NextClaim(c: Config, d: Discipline, s: State, due: seq<Run>, worker: string, now: Time, process: nat,
                  base: nat, s': State)
    requires due != [] && Takeable(s.runs, due, now) && now <= s.now && MayClaim(d, s, base)
    requires Claims(c, s, due[..|due| - 1], worker, now, process, base, s')
    ensures var n := |due| - 1;
      var l := Claim(process, due[n].id, worker, base + n, now);
      && Enabled(c, s', l) && Obeys(d, s', l)
      && Claims(c, s, due, worker, now, process, base, Apply(c, s', l))
  {
    var n := |due| - 1;
    NotYetTaken(due, n);
    BarrierKept(d, s, due[..n], worker, now, c.lease, process, base, s',
                Claim(process, due[n].id, worker, base + n, now));
    NextLease(s.runs, due, n, worker, now, c.lease, s'.runs);
    NextStart(s.tasks, due, worker, now, c.lease, process, base, s'.tasks);
    assert due[..n + 1] == due;
  }

  lemma NextStart(tasks: map<nat, Task>, due: seq<Run>, worker: string, now: Time, lease: nat, process: nat, base: nat,
                  tasks': map<nat, Task>)
    requires due != [] && Starts(tasks, due[..|due| - 1], worker, now, lease, process, base, tasks')
    ensures var n := |due| - 1;
      Starts(tasks, due, worker, now, lease, process, base,
             tasks'[base + n := Task(Leased(due[n], worker, now, lease), Executing, process)])
  {
  }

  lemma BarrierKept(d: Discipline, s: State, due: seq<Run>, worker: string, now: Time, lease: nat, process: nat,
                    base: nat, s': State,
                    l: Label)
    requires MayClaim(d, s, base) && Starts(s.tasks, due, worker, now, lease, process, base, s'.tasks)
    requires l.Claim? && l.worker == worker && l.at == now
    ensures Obeys(d, s', l)
  {
  }
}
