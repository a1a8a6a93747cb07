/** What one uninterrupted `enqueueDependents` does to the runs. */
module Dependents {
  import opened CronSchedule
  import opened JobModel
  import opened Protocol
  import opened Materialise

  /** The completed run lets job j start in its batch. */
  ghost predicate Wakes(j: Job, completed: Run, runs: map<string, Run>) {
    && completed.jobID in j.dependsOn
    && forall i | 0 <= i < |j.dependsOn| :: HasSucceeded(runs, j.dependsOn[i], completed.batchID)
  }

  ghost predicate Starts(j: Job, completed: Run, runs: map<string, Run>) {
    Wakes(j, completed, runs) && !HasRun(runs, j.id, completed.batchID)
  }

  /** A pending first attempt in the batch of the completed run, due and created now. */
  ghost predicate IsFirst(r: Run, id: string, completed: Run, now: Time) {
    && r.id == id && r.batchID == completed.batchID && r.state == Pending && r.attempt == 0
    && r.scheduledFor == r.createdAt == r.updatedAt == now && Untouched(r)
  }

  /**
   First attempts were created in the batch of the completed run for jobs among js that it lets
   start, one for each of the first n of them, and nothing else happened.
   */
  ghost predicate Unblocks(js: seq<Job>, n: nat, completed: Run, now: Time, runs: map<string, Run>,
                           runs': map<string, Run>) {
    && (forall id | id in runs :: id in runs' && runs'[id] == runs[id])
    && (forall id | id in runs' && id !in runs ::
          IsFirst(runs'[id], id, completed, now) && StartedIn(js, completed, runs, runs'[id].jobID))
    && (forall a, b | a in runs' && b in runs' && a !in runs && b !in runs && runs'[a].jobID == runs'[b].jobID ::
          a == b)
    && (forall i | 0 <= i < n && i < |js| && Wakes(js[i], completed, runs) ::
          HasRun(runs', js[i].id, completed.batchID))
  }

  ghost predicate StartedIn(js: seq<Job>, completed: Run, runs: map<string, Run>, job: string) {
    exists i :: 0 <= i < |js| && js[i].id == job && Starts(js[i], completed, runs)
  }

  /** Creating dependents makes no job succeed, so what was to be started is decided at the outset. */
  lemma SuccessesStay(js: seq<Job>, n: nat, completed: Run, now: Time, runs: map<string, Run>, runs': map<string, Run>,
                      job: string, batch: string)
    requires Unblocks(js, n, completed, now, runs, runs')
    ensures HasSucceeded(runs', job, batch) <==> HasSucceeded(runs, job, batch)
  {
  }

  lemma WakesStays(js: seq<Job>, n: nat, completed: Run, now: Time, runs: map<string, Run>, runs': map<string, Run>,
                   j: Job)
    requires Unblocks(js, n, completed, now, runs, runs')
    ensures Wakes(j, completed, runs') <==> Wakes(j, completed, runs)
  {
  }

  lemma HasRunStays(runs: map<string, Run>, runs': map<string, Run>, job: string, batch: string)
    requires forall id | id in runs :: id in runs' && runs'[id] == runs[id]
    ensures HasRun(runs, job, batch) ==> HasRun(runs', job, batch)
  {
  }

  /** A job passed over, or one that has its run. */
  lemma UnblocksSkip(js: seq<Job>, n: nat, completed: Run, now: Time, runs: map<string, Run>, runs': map<string, Run>)
    requires n < |js| && Unblocks(js, n, completed, now, runs, runs')
    requires Wakes(js[n], completed, runs') ==> HasRun(runs', js[n].id, completed.batchID)
    ensures Unblocks(js, n + 1, completed, now, runs, runs')
  {
  }

  lemma UnblocksOne(js: seq<Job>, n: nat, completed: Run, now: Time, runs: map<string, Run>, runs': map<string, Run>,
                    r: Run)
    requires n < |js| && Unblocks(js, n, completed, now, runs, runs')
    requires Starts(js[n], completed, runs') && r.id !in runs'
    requires r.jobID == js[n].id && IsFirst(r, r.id, completed, now)
    ensures Unblocks(js, n + 1, completed, now, runs, runs'[r.id := r])
  {
    var runs'' := runs'[r.id := r];
    WakesStays(js, n, completed, now, runs, runs', js[n]);
    HasRunStays(runs, runs', js[n].id, completed.batchID);
    assert StartedIn(js, completed, runs, r.jobID);
    assert HasRun(runs'', js[n].id, completed.batchID) by {
      assert runs''[r.id] == r;
    }
    forall id | id in runs' && id !in runs
      ensures runs'[id].jobID != r.jobID
    {
      assert IsFirst(runs'[id], id, completed, now);
    }
    forall i | 0 <= i < n + 1 && Wakes(js[i], completed, runs)
      ensures HasRun(runs'', js[i].id, completed.batchID)
    {
      HasRunStays(runs', runs'', js[i].id, completed.batchID);
    }
  }

  /** The jobs that got a run. */
  ghost function Started(runs: map<string, Run>, runs': map<string, Run>): set<string> {
    set id | id in runs' && id !in runs :: runs'[id].jobID
  }

  /** A call starts exactly the jobs it lets start. */
  lemma StartsExactly(js: seq<Job>, completed: Run, now: Time, runs: map<string, Run>, runs': map<string, Run>,
                      job: string)
    requires Unblocks(js, |js|, completed, now, runs, runs')
    ensures job in Started(runs, runs') <==> StartedIn(js, completed, runs, job)
  {
    if StartedIn(js, completed, runs, job) {
      assert HasRun(runs', job, completed.batchID);
      var id :| id in runs' && runs'[id].jobID == job && runs'[id].batchID == completed.batchID;
      assert id !in runs;
    }
  }

  /** The order in which the jobs are looked at does not matter. */
  lemma OrderDoesNotMatter(js: seq<Job>, js': seq<Job>, completed: Run, now: Time, runs: map<string, Run>,
                           a: map<string, Run>, b: map<string, Run>)
    requires forall j :: j in js <==> j in js'
    requires Unblocks(js, |js|, completed, now, runs, a) && Unblocks(js', |js'|, completed, now, runs, b)
    ensures Started(runs, a) == Started(runs, b)
  {
    forall job
      ensures job in Started(runs, a) <==> job in Started(runs, b)
    {
      StartsExactly(js, completed, now, runs, a, job);
      StartsExactly(js', completed, now, runs, b, job);
      SameStarts(js, js', completed, runs, job);
      SameStarts(js', js, completed, runs, job);
    }
  }

  lemma SameStarts(js: seq<Job>, js': seq<Job>, completed: Run, runs: map<string, Run>, job: string)
    requires forall j | j in js :: j in js'
    ensures StartedIn(js, completed, runs, job) ==> StartedIn(js', completed, runs, job)
  {
    if StartedIn(js, completed, runs, job) {
      var i :| 0 <= i < |js| && js[i].id == job && Starts(js[i], completed, runs);
      assert js[i] in js';
    }
  }

  /** Idempotence: a second call for the same run finds nothing to do. */
  lemma NothingLeft(js: seq<Job>, completed: Run, now: Time, runs: map<string, Run>, runs': map<string, Run>, j: Job)
    requires Unblocks(js, |js|, completed, now, runs, runs') && j in js
    ensures !Starts(j, completed, runs')
  {
  }
}
