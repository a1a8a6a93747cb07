/** What an outcome records, and how long a retry waits. */
module ProtocolOutcomes {
  import opened Text
  import opened JobModel
  import opened Backoff
  import opened Protocol
  import opened ProtocolInvariant
  import opened ProtocolLeases
  import opened ProtocolSteps
  import opened ProtocolUnique
  import opened ProtocolTheorems

  /** A finished run says when; it failed if retries were left, and died if not. */
  ghost predicate Recorded(c: Config, r: Run)
    requires r.jobID in c.jobs
  {
    Over(r) ==>
      && r.finishedAt == Some(r.updatedAt)
      && (r.state == Succeeded ==> r.error == "")
      && (r.state == Failed ==> r.attempt < c.jobs[r.jobID].maxRetries)
      && (r.state == Dead ==> r.attempt >= c.jobs[r.jobID].maxRetries)
  }

  /** b was created when a failed, and is due after a delay that the job's backoff gives after that many attempts. */
  ghost predicate RetryOf(c: Config, a: Run, b: Run)
    requires b.jobID in c.jobs
  {
    && Siblings(a, b) && a.attempt + 1 == b.attempt && a.state == Failed && a.finishedAt.Some?
    && b.createdAt == a.finishedAt.value && b.scheduledFor >= a.finishedAt.value
    && CanDelay(c.jobs[b.jobID].backoff, a.attempt, b.scheduledFor - a.finishedAt.value)
  }

  ghost predicate IsRetry(c: Config, s: State, b: Run)
    requires b.jobID in c.jobs
  {
    exists a :: a in s.runs && RetryOf(c, s.runs[a], b)
  }

  ghost predicate AllRecorded(c: Config, s: State) {
    forall id | id in s.runs :: s.runs[id].jobID in c.jobs && Recorded(c, s.runs[id])
  }

  ghost predicate AllRetries(c: Config, s: State) {
    forall id | id in s.runs && s.runs[id].attempt > 0 :: s.runs[id].jobID in c.jobs && IsRetry(c, s, s.runs[id])
  }

  /** A goroutine about to create a retry knows when its run failed. */
  ghost predicate FinishKnown(s: State, task: Task) {
    task.phase.Retrying? ==>
      && task.run.id in s.runs && s.runs[task.run.id].state == Failed
      && s.runs[task.run.id].finishedAt == Some(task.phase.finish)
  }

  ghost predicate OutcomeInv(c: Config, s: State) {
    AllRecorded(c, s) && AllRetries(c, s) && forall t | t in s.tasks :: FinishKnown(s, s.tasks[t])
  }

  // Records.

  lemma WrittenRecorded(c: Config, s: State, l: Label)
    requires Records(l) && Enabled(c, s, l) && s.tasks[l.task].run.jobID in c.jobs
    ensures var r := Apply(c, s, l).runs[s.tasks[l.task].run.id]; r.jobID in c.jobs && Recorded(c, r)
  {
  }

  lemma RecordedStep(c: Config, s: State, l: Label, id: string)
    requires WriterOk(s, l) && Enabled(c, s, l) && AllRecorded(c, s) && id in Apply(c, s, l).runs
    requires id !in s.runs ==> Apply(c, s, l).runs[id].jobID in c.jobs
    ensures var r := Apply(c, s, l).runs[id]; r.jobID in c.jobs && Recorded(c, r)
  {
    WritesReturn(c, s, l);
    if id !in s.runs {
      NewRunIsPending(c, s, l, id);
    } else if l.Claim? && l.id == id {
      ClaimedRun(c, s, l);
    } else if Records(l) && s.tasks[l.task].run.id == id {
      WrittenRecorded(c, s, l);
    } else {
      Untouched(c, s, l, id);
    }
  }

  // Retries.

  /** Failed runs stay as they are, so a retry stays one. */
  lemma RetryStays(c: Config, s: State, l: Label, b: Run)
    requires LeaseInv(s) && Enabled(c, s, l) && Fenced(s, l) && b.jobID in c.jobs && IsRetry(c, s, b)
    ensures IsRetry(c, Apply(c, s, l), b)
  {
    var a :| a in s.runs && RetryOf(c, s.runs[a], b);
    StepKeepsOutcome(c, s, l, a);
  }

  lemma SameRetry(c: Config, s: State, b: Run, b': Run)
    requires b.jobID in c.jobs && IsRetry(c, s, b) && SameRun(b, b')
    ensures IsRetry(c, s, b')
  {
    var a :| a in s.runs && RetryOf(c, s.runs[a], b);
    assert RetryOf(c, s.runs[a], b');
  }

  lemma NewRetry(c: Config, s: State, l: Label, id: string)
    requires WriterOk(s, l) && Enabled(c, s, l) && IsNew(s, Apply(c, s, l), id) && Apply(c, s, l).runs[id].attempt > 0
    requires forall t | t in s.tasks :: FinishKnown(s, s.tasks[t]) && TaskHasRun(s, s.tasks[t])
    ensures Apply(c, s, l).runs[id].jobID in c.jobs && IsRetry(c, s, Apply(c, s, l).runs[id])
  {
    var r := HowCreated(c, s, l, id);
    OnlyRetriesAreLater(c, s, l, id);
    var task := s.tasks[l.task];
    assert FinishKnown(s, task) && TaskHasRun(s, task);
    RetryWaits(c, s, l);
    assert RetryOf(c, s.runs[task.run.id], r);
  }

  lemma OnlyRetriesAreLater(c: Config, s: State, l: Label, id: string)
    requires WriterOk(s, l) && Enabled(c, s, l) && IsNew(s, Apply(c, s, l), id) && Apply(c, s, l).runs[id].attempt > 0
    ensures l.CreateRetry? && id == l.id
  {
    WritesReturn(c, s, l);
  }

  lemma RetryWaits(c: Config, s: State, l: Label)
    requires l.CreateRetry? && Enabled(c, s, l)
    ensures var r, task := Apply(c, s, l).runs[l.id], s.tasks[l.task];
      && r.jobID in c.jobs && Siblings(task.run, r) && r.attempt == task.run.attempt + 1
      && r.createdAt == task.phase.finish && r.scheduledFor == task.phase.finish + l.delay
      && CanDelay(c.jobs[r.jobID].backoff, task.run.attempt, l.delay)
  {
  }

  lemma RetriesStep(c: Config, s: State, l: Label, id: string)
    requires LeaseInv(s) && TasksOk(c, s) && Enabled(c, s, l) && Fenced(s, l) && OutcomeInv(c, s)
    requires id in Apply(c, s, l).runs && Apply(c, s, l).runs[id].attempt > 0
    ensures Apply(c, s, l).runs[id].jobID in c.jobs && IsRetry(c, Apply(c, s, l), Apply(c, s, l).runs[id])
  {
    var s' := Apply(c, s, l);
    assert WriterOk(s, l);
    if id in s.runs {
      RunStays(c, s, l, id);
      SameRetry(c, s, s.runs[id], s'.runs[id]);
    } else {
      forall t | t in s.tasks
        ensures FinishKnown(s, s.tasks[t]) && TaskHasRun(s, s.tasks[t])
      {
        assert TaskOk(c, s, s.tasks[t]);
      }
      NewRetry(c, s, l, id);
    }
    RetryStays(c, s, l, s'.runs[id]);
  }

  // Goroutines.

  lemma RetryingBegins(c: Config, s: State, l: Label, t: nat)
    requires Enabled(c, s, l) && t in Apply(c, s, l).tasks && Apply(c, s, l).tasks[t].phase.Retrying?
    ensures || (l.RecordFailure? && l.task == t)
            || (t in s.tasks && Apply(c, s, l).tasks[t] == s.tasks[t])
  {
  }

  lemma FailureKnown(c: Config, s: State, l: Label)
    requires l.RecordFailure? && Enabled(c, s, l)
    ensures FinishKnown(Apply(c, s, l), Apply(c, s, l).tasks[l.task])
  {
  }

  lemma FinishStays(c: Config, s: State, l: Label, t: nat)
    requires LeaseInv(s) && Enabled(c, s, l) && Fenced(s, l) && t in Apply(c, s, l).tasks
    requires t in s.tasks ==> FinishKnown(s, s.tasks[t])
    ensures FinishKnown(Apply(c, s, l), Apply(c, s, l).tasks[t])
  {
    if Apply(c, s, l).tasks[t].phase.Retrying? {
      RetryingBegins(c, s, l, t);
      if l.RecordFailure? && l.task == t {
        FailureKnown(c, s, l);
      } else {
        StepKeepsOutcome(c, s, l, s.tasks[t].run.id);
      }
    }
  }

  lemma OutcomeStep(c: Config, s: State, l: Label)
    requires Inv(c, s) && LeaseInv(s) && OutcomeInv(c, s) && Enabled(c, s, l) && Fenced(s, l) && Inv(c, Apply(c, s, l))
    ensures OutcomeInv(c, Apply(c, s, l))
  {
    var s' := Apply(c, s, l);
    assert WriterOk(s, l);
    forall id | id in s'.runs
      ensures s'.runs[id].jobID in c.jobs && Recorded(c, s'.runs[id])
    {
      assert s'.runs[id].jobID in c.jobs;
      RecordedStep(c, s, l, id);
    }
    forall id | id in s'.runs && s'.runs[id].attempt > 0
      ensures s'.runs[id].jobID in c.jobs && IsRetry(c, s', s'.runs[id])
    {
      RetriesStep(c, s, l, id);
    }
    forall t | t in s'.tasks
      ensures FinishKnown(s', s'.tasks[t])
    {
      FinishStays(c, s, l, t);
    }
  }

  lemma {:induction false} OutcomesReachable(c: Config, s0: State, labels: seq<Label>)
    requires IsRun(c, s0, labels)
    ensures OutcomeInv(c, Final(c, s0, labels))
  {
    if labels != [] {
      var init := labels[..|labels| - 1];
      OutcomesReachable(c, s0, init);
      Reachable(c, s0, init);
      Reachable(c, s0, labels);
      LeasesReachable(c, Fencing, s0, init);
      OutcomeStep(c, Final(c, s0, init), labels[|labels| - 1]);
    }
  }

  // What follows for every run.

  /** Every outcome says when the run finished; a run fails while it has retries left, and dies when they are spent. */
  lemma OutcomesRecorded(c: Config, s0: State, labels: seq<Label>, id: string)
    requires IsRun(c, s0, labels)
    ensures var runs := Final(c, s0, labels).runs;
      id in runs ==> runs[id].jobID in c.jobs && Recorded(c, runs[id])
  {
    OutcomesReachable(c, s0, labels);
  }

  /** Every retry was created when an earlier attempt failed, and is due after a delay of the job's backoff. */
  lemma RetryAfterFailure(c: Config, s0: State, labels: seq<Label>, b: string)
    requires IsRun(c, s0, labels) && b in Final(c, s0, labels).runs && Final(c, s0, labels).runs[b].attempt > 0
    ensures Final(c, s0, labels).runs[b].jobID in c.jobs
    ensures IsRetry(c, Final(c, s0, labels), Final(c, s0, labels).runs[b])
  {
    OutcomesReachable(c, s0, labels);
  }

  /** With one process, the later of two consecutive attempts is due a delay of the backoff after the earlier failed. */
  lemma RetryIsDelayed(c: Config, s0: State, labels: seq<Label>, a: string, b: string)
    requires IsRun(c, s0, labels) && OneProcess(labels)
    requires var runs := Final(c, s0, labels).runs;
      a in runs && b in runs && Siblings(runs[a], runs[b]) && runs[a].attempt + 1 == runs[b].attempt
    ensures var runs := Final(c, s0, labels).runs;
      && runs[b].jobID in c.jobs && runs[a].state == Failed && runs[a].finishedAt.Some?
      && var delay := runs[b].scheduledFor - runs[a].finishedAt.value;
         delay >= 0 && CanDelay(c.jobs[runs[b].jobID].backoff, runs[a].attempt, delay)
  {
    var s := Final(c, s0, labels);
    RetryAfterFailure(c, s0, labels, b);
    UniqueReachable(c, s0, labels);
    var p :| p in s.runs && RetryOf(c, s.runs[p], s.runs[b]);
    assert Siblings(s.runs[a], s.runs[p]) && s.runs[a].attempt == s.runs[p].attempt;
  }
}
