/**
 What the run lifecycle guarantees in every run that starts empty.  Most of it holds for any
 number of scheduler processes; only that attempts are not doubled, and what rests on it,
 needs one process.
 */
module ProtocolTheorems {
  import opened Counting
  import opened CronSchedule
  import opened JobModel
  import opened Protocol
  import opened ProtocolInvariant
  import opened ProtocolSteps
  import opened ProtocolUnique
  import opened ProtocolLeases
  import opened ProtocolDisciplines

  /** A run of any number of scheduler processes whose outcomes are fenced. */
  ghost predicate IsRun(c: Config, s0: State, labels: seq<Label>) {
    c.Valid() && Initial(s0) && Legal(c, Fencing, s0, labels)
  }

  ghost function Final(c: Config, s0: State, labels: seq<Label>): State
    requires IsRun(c, s0, labels)
  {
    Exec(c, Fencing, s0, labels)
  }

  // Leases and delivery, for any number of processes.

  /**
   Several claimers on one store, each writing its outcome before its lease expires: a live
   claim is the only one of its run, and the run is running exactly as that claim left it.
   */
  lemma LeaseSafety(c: Config, s0: State, labels: seq<Label>, t: nat, u: nat)
    requires Initial(s0) && Legal(c, Timeliness, s0, labels)
    requires var s := Exec(c, Timeliness, s0, labels);
      && t in s.tasks && s.tasks[t].Unrecorded() && s.now <= s.tasks[t].run.leaseExpiry
      && u in s.tasks && s.tasks[u].Unrecorded() && s.now <= s.tasks[u].run.leaseExpiry
      && s.tasks[t].run.id == s.tasks[u].run.id
    ensures var s := Exec(c, Timeliness, s0, labels);
      t == u && s.tasks[t].run.state == Running && Holds(s, t)
  {
    var s := Exec(c, Timeliness, s0, labels);
    TimelyIsFenced(c, s0, labels);
    LeasesReachable(c, Timeliness, s0, labels);
    assert LeaseTask(s, s.tasks[t]);
    OneHolder(s, t, u);
  }

  lemma StepKeepsOutcome(c: Config, s: State, l: Label, id: string)
    requires LeaseInv(s) && Enabled(c, s, l) && Fenced(s, l) && id in s.runs && Over(s.runs[id])
    ensures id in Apply(c, s, l).runs && Apply(c, s, l).runs[id] == s.runs[id]
  {
    WritesReturn(c, s, l);
    assert Records(l) ==> LeaseTask(s, s.tasks[l.task]);
    Untouched(c, s, l, id);
  }

  /** Succeeded, failed and dead runs stay as they are, and no run is ever lost. */
  lemma {:induction false} OutcomesAreFinal(c: Config, s0: State, labels: seq<Label>, n: nat, id: string)
    requires Initial(s0) && Legal(c, Fencing, s0, labels) && n <= |labels|
    ensures var before, after := At(c, Fencing, s0, labels, n).runs, Exec(c, Fencing, s0, labels).runs;
      id in before ==>
        id in after && SameRun(before[id], after[id]) && (Over(before[id]) ==> after[id] == before[id])
    decreases |labels|
  {
    if n == |labels| {
      assert labels[..n] == labels;
    } else {
      var init, last := labels[..|labels| - 1], labels[|labels| - 1];
      OutcomesAreFinal(c, s0, init, n, id);
      assert init[..n] == labels[..n];
      LeasesReachable(c, Fencing, s0, init);
      var s := Exec(c, Fencing, s0, init);
      if id in At(c, Fencing, s0, labels, n).runs {
        RunStays(c, s, last, id);
        if Over(s.runs[id]) {
          StepKeepsOutcome(c, s, last, id);
        }
      }
    }
  }

  /** So it is for several claimers that keep to their leases. */
  lemma TimelyOutcomesAreFinal(c: Config, s0: State, labels: seq<Label>, n: nat, id: string)
    requires Initial(s0) && Legal(c, Timeliness, s0, labels) && n <= |labels|
    ensures var before, after := At(c, Timeliness, s0, labels, n).runs, Exec(c, Timeliness, s0, labels).runs;
      id in before ==>
        id in after && SameRun(before[id], after[id]) && (Over(before[id]) ==> after[id] == before[id])
  {
    PrefixLegal(c, Timeliness, s0, labels, n);
    TimelyIsFenced(c, s0, labels[..n]);
    TimelyIsFenced(c, s0, labels);
    OutcomesAreFinal(c, s0, labels, n, id);
  }

  /** At least once: whatever the discipline, a run is over only after it was executed. */
  lemma ExecutedBeforeOver(c: Config, d: Discipline, s0: State, labels: seq<Label>, id: string)
    requires Initial(s0) && Legal(c, d, s0, labels)
    ensures var s := Exec(c, d, s0, labels);
      id in s.runs && Over(s.runs[id]) ==> Count(s.executions, id) >= 1
  {
    LeasesReachable(c, d, s0, labels);
    assert id in Exec(c, d, s0, labels).runs ==> LeaseRun(Exec(c, d, s0, labels), id);
  }

  /**
   Until a run is over, any process can claim it at any time past its due time and lease (behind
   the drain barrier, once the goroutines of the last claim are done).
   */
  lemma Redelivery(c: Config, d: Discipline, s0: State, labels: seq<Label>, id: string, later: Time, claim: Label)
    requires Initial(s0) && Legal(c, d, s0, labels)
    requires var s := Exec(c, d, s0, labels);
      d == DrainBarrier ==> forall t | t in s.tasks :: !s.tasks[t].Unrecorded()
    requires var s := Exec(c, d, s0, labels);
      && id in s.runs && !Over(s.runs[id])
      && s.now <= later && s.runs[id].scheduledFor <= later && s.runs[id].leaseExpiry < later
      && claim.Claim? && claim.id == id && claim.at == later && claim.task !in s.tasks
    ensures Legal(c, d, s0, labels + [Advance(later)] + [claim])
  {
    LeasesReachable(c, d, s0, labels);
    assert LeaseRun(Exec(c, d, s0, labels), id);
    OneStep(c, d, s0, labels, Advance(later));
    OneStep(c, d, s0, labels + [Advance(later)], claim);
  }

  // Dependencies.

  /** At every point, a job whose dependencies have all succeeded has a run or is about to be looked at. */
  lemma NoLostWakeUp(c: Config, s0: State, labels: seq<Label>, job: string, batch: string)
    requires IsRun(c, s0, labels)
    ensures var s := Final(c, s0, labels);
      job in c.jobs && batch in s.root && DepsSucceeded(c, s.runs, job, batch) ==>
        HasRun(s.runs, job, batch) || Awaited(c, s, job, batch)
  {
    Reachable(c, s0, labels);
  }

  /** No batch has two first attempts of a job, and a retry never doubles another. */
  lemma NoDuplicates(c: Config, s0: State, labels: seq<Label>, a: string, b: string)
    requires IsRun(c, s0, labels) && OneProcess(labels)
    ensures var runs := Final(c, s0, labels).runs;
      a in runs && b in runs && Siblings(runs[a], runs[b]) && runs[a].attempt == runs[b].attempt ==> a == b
  {
    UniqueReachable(c, s0, labels);
  }

  /** Whatever runs in a batch besides its first job has every dependency succeeded there. */
  lemma DagSafety(c: Config, s0: State, labels: seq<Label>, id: string)
    requires IsRun(c, s0, labels)
    ensures var s := Final(c, s0, labels);
      id in s.runs ==>
        && s.runs[id].batchID in s.root
        && (s.runs[id].jobID == s.root[s.runs[id].batchID] ||
            DepsSucceeded(c, s.runs, s.runs[id].jobID, s.runs[id].batchID))
  {
    Reachable(c, s0, labels);
  }

  // Retries.

  ghost predicate Attempted(runs: map<string, Run>, job: string, batch: string, n: nat) {
    exists id :: id in runs && runs[id].jobID == job && runs[id].batchID == batch && runs[id].attempt == n
  }

  /** The attempts are 0 to k, those before k failed, and k has not, or is being retried. */
  ghost predicate ChainUpTo(s: State, job: string, batch: string, k: nat) {
    && (forall n: nat :: Attempted(s.runs, job, batch, n) <==> n <= k)
    && (forall id | id in s.runs && s.runs[id].jobID == job && s.runs[id].batchID == batch ::
          if s.runs[id].attempt < k then s.runs[id].state == Failed
          else s.runs[id].state == Failed ==> BeingRetried(s, id))
  }

  /** The runs of a job in a batch form one retry chain. */
  lemma RetryChain(c: Config, s0: State, labels: seq<Label>, job: string, batch: string) returns (k: nat)
    requires IsRun(c, s0, labels) && OneProcess(labels) && HasRun(Final(c, s0, labels).runs, job, batch)
    ensures ChainUpTo(Final(c, s0, labels), job, batch, k)
  {
    var s := Final(c, s0, labels);
    Reachable(c, s0, labels);
    UniqueReachable(c, s0, labels);
    k := LastOfChain(c, s, job, batch, c.LastAttempt(job));
    forall n: nat
      ensures Attempted(s.runs, job, batch, n) <==> n <= k
    {
      if n <= k {
        EarlierAttempts(s, job, batch, k, n);
      }
    }
    forall id | id in s.runs && s.runs[id].jobID == job && s.runs[id].batchID == batch
      ensures if s.runs[id].attempt < k then s.runs[id].state == Failed
              else s.runs[id].state == Failed ==> BeingRetried(s, id)
    {
      if s.runs[id].attempt < k {
        EarlierFailed(s, job, batch, k, id);
      } else if s.runs[id].state == Failed && !BeingRetried(s, id) {
        assert HasAttempt(s.runs, s.runs[id], s.runs[id].attempt + 1);
        assert Attempted(s.runs, job, batch, s.runs[id].attempt + 1);
      }
    }
  }

  lemma {:induction false} LastOfChain(c: Config, s: State, job: string, batch: string, bound: nat) returns (k: nat)
    requires HasRun(s.runs, job, batch)
    requires RunsTyped(c, s) && forall n: nat | n > bound :: !Attempted(s.runs, job, batch, n)
    ensures Attempted(s.runs, job, batch, k) && forall n: nat | n > k :: !Attempted(s.runs, job, batch, n)
    decreases bound
  {
    if Attempted(s.runs, job, batch, bound) {
      k := bound;
    } else if bound > 0 {
      k := LastOfChain(c, s, job, batch, bound - 1);
    } else {
      var id :| id in s.runs && s.runs[id].jobID == job && s.runs[id].batchID == batch;
      assert Attempted(s.runs, job, batch, s.runs[id].attempt);
      assert false;
    }
  }

  lemma PreviousAttempt(s: State, job: string, batch: string, n: nat)
    requires RetriesFollow(s) && n > 0 && Attempted(s.runs, job, batch, n)
    ensures exists p :: p in s.runs && s.runs[p].jobID == job && s.runs[p].batchID == batch
                        && s.runs[p].attempt == n - 1 && s.runs[p].state == Failed
  {
  }

  lemma {:induction false} EarlierAttempts(s: State, job: string, batch: string, k: nat, n: nat)
    requires RetriesFollow(s) && Attempted(s.runs, job, batch, k) && n <= k
    ensures Attempted(s.runs, job, batch, n)
    decreases k - n
  {
    if n < k {
      EarlierAttempts(s, job, batch, k, n + 1);
      PreviousAttempt(s, job, batch, n + 1);
    }
  }

  lemma EarlierFailed(s: State, job: string, batch: string, k: nat, id: string)
    requires RetriesFollow(s) && AttemptsUnique(s) && Attempted(s.runs, job, batch, k)
    requires id in s.runs && s.runs[id].jobID == job && s.runs[id].batchID == batch && s.runs[id].attempt < k
    ensures s.runs[id].state == Failed
  {
    EarlierAttempts(s, job, batch, k, s.runs[id].attempt + 1);
    PreviousAttempt(s, job, batch, s.runs[id].attempt + 1);
    var p :| p in s.runs && s.runs[p].jobID == job && s.runs[p].batchID == batch
             && s.runs[p].attempt == s.runs[id].attempt && s.runs[p].state == Failed;
    assert Siblings(s.runs[p], s.runs[id]);
  }

  /** Later attempts are due later. */
  lemma RetriesAreLater(c: Config, s0: State, labels: seq<Label>, a: string, b: string)
    requires IsRun(c, s0, labels) && OneProcess(labels)
    ensures var runs := Final(c, s0, labels).runs;
      a in runs && b in runs && Siblings(runs[a], runs[b]) && runs[a].attempt <= runs[b].attempt ==>
        runs[a].scheduledFor <= runs[b].scheduledFor
  {
    var s := Final(c, s0, labels);
    Reachable(c, s0, labels);
    UniqueReachable(c, s0, labels);
    if a in s.runs && b in s.runs && Siblings(s.runs[a], s.runs[b]) && s.runs[a].attempt <= s.runs[b].attempt {
      LaterAlongChain(s, a, b);
    }
  }

  lemma {:induction false} LaterAlongChain(s: State, a: string, b: string)
    requires AttemptsUnique(s) && RetriesFollow(s) && a in s.runs && b in s.runs
    requires Siblings(s.runs[a], s.runs[b]) && s.runs[a].attempt <= s.runs[b].attempt
    ensures s.runs[a].scheduledFor <= s.runs[b].scheduledFor
    decreases s.runs[b].attempt
  {
    if s.runs[a].attempt < s.runs[b].attempt {
      assert Follows(s.runs, s.runs[b]);
      var p :| p in s.runs && Siblings(s.runs[p], s.runs[b]) && s.runs[p].attempt + 1 == s.runs[b].attempt
               && s.runs[p].scheduledFor <= s.runs[b].scheduledFor;
      LaterAlongChain(s, a, p);
    }
  }

  // The size of a batch.

  ghost function BatchIds(runs: map<string, Run>, batch: string): set<string> {
    set id | id in runs && runs[id].batchID == batch
  }

  /** The attempts one job may make. */
  ghost function JobAttempts(c: Config, job: string, n: nat): set<(string, nat)> {
    set k | 0 <= k < n :: (job, k)
  }

  ghost function AllAttempts(c: Config, jobs: seq<string>): set<(string, nat)> {
    if jobs == [] then {}
    else AllAttempts(c, jobs[1..]) + JobAttempts(c, jobs[0], c.LastAttempt(jobs[0]) + 1)
  }

  /** One first attempt and the retries, over all jobs. */
  ghost function Budget(c: Config, jobs: seq<string>): nat {
    if jobs == [] then 0 else Budget(c, jobs[1..]) + c.LastAttempt(jobs[0]) + 1
  }

  lemma {:induction false} JobAttemptsSize(c: Config, job: string, n: nat)
    ensures |JobAttempts(c, job, n)| == n
  {
    if n > 0 {
      JobAttemptsSize(c, job, n - 1);
      assert JobAttempts(c, job, n) == JobAttempts(c, job, n - 1) + {(job, n - 1)};
    } else {
      assert JobAttempts(c, job, 0) == {};
    }
  }

  lemma {:induction false} AllAttemptsSize(c: Config, jobs: seq<string>)
    ensures |AllAttempts(c, jobs)| <= Budget(c, jobs)
  {
    if jobs != [] {
      AllAttemptsSize(c, jobs[1..]);
      JobAttemptsSize(c, jobs[0], c.LastAttempt(jobs[0]) + 1);
    }
  }

  lemma {:induction false} AllAttemptsHas(c: Config, jobs: seq<string>, job: string, n: nat)
    requires job in jobs && n <= c.LastAttempt(job)
    ensures (job, n) in AllAttempts(c, jobs)
  {
    if jobs[0] == job {
      assert (job, n) in JobAttempts(c, job, c.LastAttempt(job) + 1);
    } else {
      AllAttemptsHas(c, jobs[1..], job, n);
    }
  }

  /** A batch never holds more runs than its jobs have attempts, even if dependencies form cycles. */
  lemma BatchBound(c: Config, s0: State, labels: seq<Label>, batch: string)
    requires IsRun(c, s0, labels) && OneProcess(labels)
    ensures |BatchIds(Final(c, s0, labels).runs, batch)| <= Budget(c, c.listing)
  {
    var s := Final(c, s0, labels);
    Reachable(c, s0, labels);
    UniqueReachable(c, s0, labels);
    BatchInjects(c, s, batch);
    var ids := BatchIds(s.runs, batch);
    InjectionSize(ids, map id | id in ids :: (s.runs[id].jobID, s.runs[id].attempt), AllAttempts(c, c.listing));
    AllAttemptsSize(c, c.listing);
  }

  lemma BatchInjects(c: Config, s: State, batch: string)
    requires c.Valid() && RunsTyped(c, s) && AttemptsUnique(s)
    ensures var ids := BatchIds(s.runs, batch);
      Injects(ids, map id | id in ids :: (s.runs[id].jobID, s.runs[id].attempt), AllAttempts(c, c.listing))
  {
    var ids := BatchIds(s.runs, batch);
    forall id | id in ids
      ensures (s.runs[id].jobID, s.runs[id].attempt) in AllAttempts(c, c.listing)
    {
      AllAttemptsHas(c, c.listing, s.runs[id].jobID, s.runs[id].attempt);
    }
    forall a, b | a in ids && b in ids && (s.runs[a].jobID, s.runs[a].attempt) == (s.runs[b].jobID, s.runs[b].attempt)
      ensures a == b
    {
      assert Siblings(s.runs[a], s.runs[b]);
    }
  }

  /** The step creates a run in the batch. */
  ghost predicate CreatesIn(c: Config, s: State, l: Label, batch: string)
    requires Enabled(c, s, l)
  {
    exists id :: id in Apply(c, s, l).runs && id !in s.runs && Apply(c, s, l).runs[id].batchID == batch
  }

  /** How many of the steps create a run in the batch. */
  ghost function Creations(c: Config, s0: State, labels: seq<Label>, batch: string): nat
    requires Legal(c, Fencing, s0, labels)
  {
    if labels == [] then 0
    else
      var init, last := labels[..|labels| - 1], labels[|labels| - 1];
      Creations(c, s0, init, batch) + if CreatesIn(c, Exec(c, Fencing, s0, init), last, batch) then 1 else 0
  }

  lemma BatchGrows(c: Config, s: State, l: Label, batch: string)
    requires WriterOk(s, l) && Enabled(c, s, l)
    ensures |BatchIds(Apply(c, s, l).runs, batch)| ==
            |BatchIds(s.runs, batch)| + if CreatesIn(c, s, l, batch) then 1 else 0
  {
    var before, after := BatchIds(s.runs, batch), BatchIds(Apply(c, s, l).runs, batch);
    forall id | id in s.runs
      ensures id in after <==> id in before
    {
      RunStays(c, s, l, id);
    }
    if CreatesIn(c, s, l, batch) {
      var added :| added in Apply(c, s, l).runs && added !in s.runs && Apply(c, s, l).runs[added].batchID == batch;
      forall id | id in after
        ensures id in before + {added}
      {
        if id !in s.runs {
          OneAtATime(c, s, l, id, added);
        }
      }
      assert after == before + {added};
    } else {
      assert after == before;
    }
  }

  /** Every creation is a run of the batch. */
  lemma {:induction false} CreationsAreRuns(c: Config, s0: State, labels: seq<Label>, batch: string)
    requires Initial(s0) && Legal(c, Fencing, s0, labels)
    ensures Creations(c, s0, labels, batch) == |BatchIds(Exec(c, Fencing, s0, labels).runs, batch)|
  {
    if labels == [] {
      assert BatchIds(s0.runs, batch) == {};
    } else {
      var init := labels[..|labels| - 1];
      CreationsAreRuns(c, s0, init, batch);
      LeasesReachable(c, Fencing, s0, init);
      BatchGrows(c, Exec(c, Fencing, s0, init), labels[|labels| - 1], batch);
    }
  }

  /** However long it goes on, only so many steps create a run in a batch: creation stops. */
  lemma CreationStops(c: Config, s0: State, labels: seq<Label>, batch: string)
    requires IsRun(c, s0, labels) && OneProcess(labels)
    ensures Creations(c, s0, labels, batch) <= Budget(c, c.listing)
  {
    CreationsAreRuns(c, s0, labels, batch);
    BatchBound(c, s0, labels, batch);
  }

  // What a drained batch has run.

  /** Nothing of the batch is pending, running, or still being handled by a goroutine. */
  ghost predicate Drained(s: State, batch: string) {
    && (forall id | id in s.runs && s.runs[id].batchID == batch :: Over(s.runs[id]))
    && (forall t | t in s.tasks && s.tasks[t].run.batchID == batch :: s.tasks[t].Unrecorded())
  }

  /** Each job ends the same way whenever it runs: succeeded if ok says so, dead otherwise. */
  ghost predicate EndsAs(s: State, batch: string, ok: string -> bool) {
    forall id | id in s.runs && s.runs[id].batchID == batch ::
      && (s.runs[id].state == Succeeded ==> ok(s.runs[id].jobID))
      && (s.runs[id].state == Dead ==> !ok(s.runs[id].jobID))
  }

  ghost function JobsIn(runs: map<string, Run>, batch: string): set<string> {
    set id | id in runs && runs[id].batchID == batch :: runs[id].jobID
  }

  /** Contains every job whose dependencies are in the set and all succeed. */
  ghost predicate ClosedUnder(c: Config, ok: string -> bool, jobs: set<string>) {
    forall j | j in c.jobs && c.Deps(j) != [] && (forall d | d in c.Deps(j) :: d in jobs && ok(d)) :: j in jobs
  }

  /** The jobs a batch must run when it starts from first. */
  ghost predicate IsLeastClosed(c: Config, ok: string -> bool, first: string, jobs: set<string>) {
    && first in jobs && ClosedUnder(c, ok, jobs)
    && forall other | first in other && ClosedUnder(c, ok, other) :: jobs <= other
  }

  /** In a drained batch every chain ended in success or death. */
  lemma ChainEnds(c: Config, s: State, batch: string, ok: string -> bool, job: string)
    requires Inv(c, s) && Drained(s, batch) && EndsAs(s, batch, ok) && HasRun(s.runs, job, batch) && ok(job)
    ensures HasSucceeded(s.runs, job, batch)
  {
    var k := LastOfChain(c, s, job, batch, c.LastAttempt(job));
    var id :| id in s.runs && s.runs[id].jobID == job && s.runs[id].batchID == batch && s.runs[id].attempt == k;
    LastNotFailed(s, batch, job, k, id);
  }

  lemma LastNotFailed(s: State, batch: string, job: string, k: nat, id: string)
    requires FailuresContinue(s) && Drained(s, batch)
    requires id in s.runs && s.runs[id].jobID == job && s.runs[id].batchID == batch && s.runs[id].attempt == k
    requires forall n: nat | n > k :: !Attempted(s.runs, job, batch, n)
    requires forall t | t in s.tasks :: TaskHasRun(s, s.tasks[t])
    ensures s.runs[id].state != Failed
  {
    AttemptOf(s.runs, s.runs[id], k + 1);
  }

  lemma AttemptOf(runs: map<string, Run>, r: Run, n: nat)
    ensures HasAttempt(runs, r, n) <==> Attempted(runs, r.jobID, r.batchID, n)
  {
  }

  /** A drained batch ran exactly the jobs reachable from its first one through successes. */
  lemma DrainedBatch(c: Config, s: State, batch: string, ok: string -> bool)
    requires c.Valid() && Inv(c, s) && batch in s.root && Drained(s, batch) && EndsAs(s, batch, ok)
    ensures IsLeastClosed(c, ok, s.root[batch], JobsIn(s.runs, batch))
  {
    var jobs := JobsIn(s.runs, batch);
    JobsInHas(s.runs, batch, s.root[batch]);
    DrainedIsClosed(c, s, batch, ok);
    forall other | s.root[batch] in other && ClosedUnder(c, ok, other)
      ensures jobs <= other
    {
      DrainedIsWithin(c, s, batch, ok, other);
    }
  }

  lemma JobsInHas(runs: map<string, Run>, batch: string, job: string)
    ensures job in JobsIn(runs, batch) <==> HasRun(runs, job, batch)
  {
  }

  lemma DrainedIsClosed(c: Config, s: State, batch: string, ok: string -> bool)
    requires Inv(c, s) && batch in s.root && Drained(s, batch) && EndsAs(s, batch, ok)
    ensures ClosedUnder(c, ok, JobsIn(s.runs, batch))
  {
    forall j | j in c.jobs && c.Deps(j) != [] && (forall d | d in c.Deps(j) :: d in JobsIn(s.runs, batch) && ok(d))
      ensures j in JobsIn(s.runs, batch)
    {
      DrainedDeps(c, s, batch, ok, j);
      NobodyAwaited(c, s, batch, j);
      JobsInHas(s.runs, batch, j);
    }
  }

  lemma DrainedDeps(c: Config, s: State, batch: string, ok: string -> bool, j: string)
    requires Inv(c, s) && Drained(s, batch) && EndsAs(s, batch, ok)
    requires c.Deps(j) != [] && forall d | d in c.Deps(j) :: d in JobsIn(s.runs, batch) && ok(d)
    ensures DepsSucceeded(c, s.runs, j, batch)
  {
    forall k | 0 <= k < |c.Deps(j)|
      ensures HasSucceeded(s.runs, c.Deps(j)[k], batch)
    {
      JobsInHas(s.runs, batch, c.Deps(j)[k]);
      ChainEnds(c, s, batch, ok, c.Deps(j)[k]);
    }
  }

  lemma NobodyAwaited(c: Config, s: State, batch: string, j: string)
    requires WakeUps(c, s) && Drained(s, batch) && batch in s.root && j in c.jobs && DepsSucceeded(c, s.runs, j, batch)
    ensures HasRun(s.runs, j, batch)
  {
  }

  lemma DrainedIsWithin(c: Config, s: State, batch: string, ok: string -> bool, other: set<string>)
    requires Grounded(c, s) && batch in s.root && EndsAs(s, batch, ok)
    requires s.root[batch] in other && ClosedUnder(c, ok, other)
    ensures JobsIn(s.runs, batch) <= other
  {
  }

  /** Whatever the interleavings, two drained batches that start from the same job ran the same jobs. */
  lemma Confluence(c: Config, ok: string -> bool, s0: State, labels: seq<Label>, batch: string,
                   s0': State, labels': seq<Label>, batch': string)
    requires IsRun(c, s0, labels) && IsRun(c, s0', labels')
    requires var s, s' := Final(c, s0, labels), Final(c, s0', labels');
      && batch in s.root && Drained(s, batch) && EndsAs(s, batch, ok)
      && batch' in s'.root && Drained(s', batch') && EndsAs(s', batch', ok)
      && s.root[batch] == s'.root[batch']
    ensures JobsIn(Final(c, s0, labels).runs, batch) == JobsIn(Final(c, s0', labels').runs, batch')
  {
    Reachable(c, s0, labels);
    Reachable(c, s0', labels');
    DrainedBatch(c, Final(c, s0, labels), batch, ok);
    DrainedBatch(c, Final(c, s0', labels'), batch', ok);
  }
}
