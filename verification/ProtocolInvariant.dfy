/** What holds in every reachable state of the run lifecycle, whatever the interleaving and the number of processes. */
module ProtocolInvariant {
  import opened JobModel
  import opened Protocol

  /** The parts of a run that never change. */
  ghost predicate SameRun(r: Run, r': Run) {
    && r.id == r'.id && r.jobID == r'.jobID && r.batchID == r'.batchID
    && r.attempt == r'.attempt && r.scheduledFor == r'.scheduledFor && r.createdAt == r'.createdAt
  }

  predicate Over(r: Run) {
    r.state == Succeeded || r.state == Failed || r.state == Dead
  }

  /** Two runs of one chain. */
  ghost predicate Siblings(r: Run, r': Run) {
    r.jobID == r'.jobID && r.batchID == r'.batchID
  }

  // About runs.

  ghost predicate RunsTyped(c: Config, s: State) {
    forall id | id in s.runs ::
      && s.runs[id].id == id && s.runs[id].jobID in c.jobs && s.runs[id].batchID in s.root
      && s.runs[id].attempt <= c.LastAttempt(s.runs[id].jobID) && s.runs[id].state != Skipped
      && (s.runs[id].state == Pending ==> s.runs[id].leaseExpiry == 0)
  }

  ghost predicate HasAttempt(runs: map<string, Run>, r: Run, attempt: nat) {
    exists p :: p in runs && Siblings(runs[p], r) && runs[p].attempt == attempt
  }

  /** Every retry follows a failed attempt that was due no later. */
  ghost predicate Follows(runs: map<string, Run>, r: Run) {
    exists p :: p in runs && Siblings(runs[p], r) && runs[p].attempt + 1 == r.attempt
                && runs[p].state == Failed && runs[p].scheduledFor <= r.scheduledFor
  }

  ghost predicate RetriesFollow(s: State) {
    forall id | id in s.runs && s.runs[id].attempt > 0 :: Follows(s.runs, s.runs[id])
  }

  /** A failed attempt has its successor, or a goroutine is about to create it. */
  ghost predicate FailuresContinue(s: State) {
    forall id | id in s.runs && s.runs[id].state == Failed ::
      HasAttempt(s.runs, s.runs[id], s.runs[id].attempt + 1) || BeingRetried(s, id)
  }

  ghost predicate BeingRetried(s: State, id: string) {
    exists t :: t in s.tasks && s.tasks[t].phase.Retrying? && s.tasks[t].run.id == id
  }

  /** Every batch has a run of the job it started from. */
  ghost predicate BatchesRooted(c: Config, s: State) {
    forall b | b in s.root :: s.root[b] in c.jobs && HasRun(s.runs, s.root[b], b)
  }

  ghost predicate DepsSucceeded(c: Config, runs: map<string, Run>, job: string, batch: string) {
    && c.Deps(job) != []
    && forall k | 0 <= k < |c.Deps(job)| :: HasSucceeded(runs, c.Deps(job)[k], batch)
  }

  /** A run of another job than the batch's first has all its dependencies succeeded in the batch. */
  ghost predicate DagSafe(c: Config, s: State) {
    forall id | id in s.runs && s.runs[id].batchID in s.root && s.runs[id].jobID != s.root[s.runs[id].batchID] ::
      DepsSucceeded(c, s.runs, s.runs[id].jobID, s.runs[id].batchID)
  }

  /** Contains every job whose dependencies are in the set and have succeeded in the batch. */
  ghost predicate ClosedFor(c: Config, runs: map<string, Run>, batch: string, jobs: set<string>) {
    forall j | j in c.jobs && DepsSucceeded(c, runs, j, batch)
               && (forall k | 0 <= k < |c.Deps(j)| :: c.Deps(j)[k] in jobs) :: j in jobs
  }

  ghost predicate BatchWithin(runs: map<string, Run>, batch: string, jobs: set<string>) {
    forall id | id in runs && runs[id].batchID == batch :: runs[id].jobID in jobs
  }

  /** The jobs of a batch are the least set that can be reached from its first job. */
  ghost predicate Grounded(c: Config, s: State) {
    forall b, jobs | b in s.root && s.root[b] in jobs && ClosedFor(c, s.runs, b, jobs) ::
      BatchWithin(s.runs, b, jobs)
  }

  /** No run was claimed before it was due. */
  ghost predicate StartedDue(s: State) {
    forall id | id in s.runs && s.runs[id].state != Pending :: s.runs[id].scheduledFor <= s.now
  }

  // About goroutines.

  ghost predicate TaskHasRun(s: State, task: Task) {
    task.run.id in s.runs && SameRun(task.run, s.runs[task.run.id])
  }

  /** A goroutine that has not recorded an outcome. */
  ghost predicate UnrecordedOk(s: State, task: Task)
    requires TaskHasRun(s, task)
  {
    task.Unrecorded() ==>
      && task.run.state == Running && s.runs[task.run.id].state != Pending
      && task.run.leaseExpiry <= s.runs[task.run.id].leaseExpiry
      && task.run.scheduledFor <= s.now
      && (task.phase.Returned? ==> task.run.scheduledFor <= task.phase.finish <= s.now)
  }

  ghost predicate RetryingOk(c: Config, s: State, task: Task)
    requires TaskHasRun(s, task)
  {
    task.phase.Retrying? ==>
      && s.runs[task.run.id].state == Failed
      && task.run.attempt < c.LastAttempt(task.run.jobID)
      && task.run.scheduledFor <= task.phase.finish
  }

  ghost predicate RecordedOk(s: State, task: Task)
    requires TaskHasRun(s, task)
  {
    task.phase.Waiting? || task.phase.Enqueueing? ==> s.runs[task.run.id].state == Succeeded
  }

  /** What `enqueueDependents` knows about the first job of its list. */
  ghost predicate CheckOk(c: Config, s: State, task: Task) {
    task.phase.Enqueueing? ==>
      var p, batch := task.phase, task.run.batchID;
      && (forall j | j in p.todo :: j in c.jobs)
      && (p.check != Begin ==>
            && p.todo != [] && task.run.jobID in c.Deps(p.todo[0])
            && (p.check.Dep? ==> p.check.next <= |c.Deps(p.todo[0])|)
            && (forall k | 0 <= k < |c.Deps(p.todo[0])| && (p.check.Dep? ==> k < p.check.next) ::
                  HasSucceeded(s.runs, c.Deps(p.todo[0])[k], batch)))
  }

  ghost predicate TaskOk(c: Config, s: State, task: Task) {
    && TaskHasRun(s, task) && UnrecordedOk(s, task) && RetryingOk(c, s, task) && RecordedOk(s, task)
    && CheckOk(c, s, task)
  }

  ghost predicate TasksOk(c: Config, s: State) {
    forall t | t in s.tasks :: TaskOk(c, s, s.tasks[t])
  }

  /** Two claims of one run differ in their lease, and at most one goroutine has recorded its outcome. */
  ghost predicate ClaimsDistinct(s: State) {
    forall t, u | t in s.tasks && u in s.tasks && s.tasks[t].run.id == s.tasks[u].run.id && t != u ::
      if s.tasks[t].Unrecorded() && s.tasks[u].Unrecorded()
      then s.tasks[t].run.leaseExpiry != s.tasks[u].run.leaseExpiry
      else s.tasks[t].Unrecorded() || s.tasks[u].Unrecorded()
  }

  /** The goroutine recorded a success of a dependency of job in batch and has still to look at job. */
  ghost predicate WillInspect(c: Config, task: Task, job: string, batch: string) {
    && task.run.batchID == batch && task.run.jobID in c.Deps(job)
    && (task.phase.Waiting? || (task.phase.Enqueueing? && job in task.phase.todo))
  }

  ghost predicate Awaited(c: Config, s: State, job: string, batch: string) {
    exists t :: t in s.tasks && WillInspect(c, s.tasks[t], job, batch)
  }

  /** No lost wake-up. */
  ghost predicate WakeUps(c: Config, s: State) {
    forall j, b | j in c.jobs && b in s.root && DepsSucceeded(c, s.runs, j, b) ::
      HasRun(s.runs, j, b) || Awaited(c, s, j, b)
  }

  ghost predicate RunInv(c: Config, s: State) {
    && RunsTyped(c, s) && RetriesFollow(s)
    && BatchesRooted(c, s) && DagSafe(c, s) && Grounded(c, s)
  }

  ghost predicate TaskInv(c: Config, s: State) {
    TasksOk(c, s) && ClaimsDistinct(s)
  }

  ghost predicate LinkInv(c: Config, s: State) {
    FailuresContinue(s) && WakeUps(c, s) && StartedDue(s)
  }

  ghost predicate Inv(c: Config, s: State) {
    RunInv(c, s) && TaskInv(c, s) && LinkInv(c, s)
  }
}
