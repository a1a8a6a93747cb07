/** Every step of the run lifecycle keeps the invariant. */
module ProtocolSteps {
  import opened JobModel
  import opened Protocol
  import opened ProtocolInvariant
  import opened ProtocolRuns

  // Goroutines that a step does not touch.

  ghost predicate ChangesRuns(s: State, r: Run, s': State) {
    || s'.runs == s.runs
    || (Overwrites(s.runs, r, s'.runs) && s.runs[r.id].leaseExpiry <= r.leaseExpiry)
    || Adds(s.runs, r, s'.runs)
  }

  ghost predicate Later(s: State, s': State) {
    s.now <= s'.now
  }

  lemma UnrecordedStays(c: Config, s: State, r: Run, s': State, task: Task)
    requires TaskOk(c, s, task) && Later(s, s') && ChangesRuns(s, r, s')
    ensures TaskHasRun(s', task) && UnrecordedOk(s', task) && RecordedOk(s', task)
  {
  }

  lemma RetryingStays(c: Config, s: State, r: Run, s': State, task: Task)
    requires TaskOk(c, s, task) && ChangesRuns(s, r, s')
    ensures TaskHasRun(s', task) && RetryingOk(c, s', task)
  {
  }

  lemma CheckStays(c: Config, s: State, r: Run, s': State, task: Task)
    requires TaskOk(c, s, task) && ChangesRuns(s, r, s')
    ensures CheckOk(c, s', task)
  {
    if task.phase.Enqueueing? && task.phase.check != Begin && s'.runs != s.runs {
      var p, batch := task.phase, task.run.batchID;
      forall k | 0 <= k < |c.Deps(p.todo[0])| && (p.check.Dep? ==> k < p.check.next)
        ensures HasSucceeded(s'.runs, c.Deps(p.todo[0])[k], batch)
      {
        SucceededStays(s, r, s', c.Deps(p.todo[0])[k], batch);
      }
    }
  }

  lemma SucceededStays(s: State, r: Run, s': State, j: string, b: string)
    requires ChangesRuns(s, r, s') && HasSucceeded(s.runs, j, b)
    ensures HasSucceeded(s'.runs, j, b)
  {
    if Adds(s.runs, r, s'.runs) {
      AddHasSucceeded(s.runs, r, s'.runs, j, b);
    } else if s'.runs != s.runs {
      OverwriteHasSucceeded(s.runs, r, s'.runs, j, b);
    }
  }

  /** All goroutines but those in `touched` are as they were; the touched ones are all right. */
  lemma TasksStay(c: Config, s: State, r: Run, touched: set<nat>, s': State)
    requires TasksOk(c, s) && Later(s, s') && ChangesRuns(s, r, s')
    requires forall u | u in s'.tasks && u !in touched :: u in s.tasks && s'.tasks[u] == s.tasks[u]
    requires forall u | u in touched && u in s'.tasks :: TaskOk(c, s', s'.tasks[u])
    ensures TasksOk(c, s')
  {
    forall u | u in s'.tasks && u !in touched
      ensures TaskOk(c, s', s'.tasks[u])
    {
      UnrecordedStays(c, s, r, s', s.tasks[u]);
      RetryingStays(c, s, r, s', s.tasks[u]);
      CheckStays(c, s, r, s', s.tasks[u]);
    }
  }

  // What the remaining parts of the invariant need from a step.

  ghost predicate SameStore(s: State, s': State) {
    s'.runs == s.runs && s'.root == s.root
  }

  lemma SameStoreKeepsRuns(c: Config, s: State, s': State)
    requires SameStore(s, s') && RunInv(c, s)
    ensures RunInv(c, s')
  {
  }

  /** Every goroutine was there before with the same claim. */
  ghost predicate SameClaims(s: State, s': State) {
    forall u | u in s'.tasks ::
      && u in s.tasks && s'.tasks[u].run.id == s.tasks[u].run.id
      && s'.tasks[u].run.leaseExpiry == s.tasks[u].run.leaseExpiry
      && s'.tasks[u].Unrecorded() == s.tasks[u].Unrecorded()
  }

  lemma SameClaimsKeep(s: State, s': State)
    requires SameClaims(s, s') && ClaimsDistinct(s)
    ensures ClaimsDistinct(s')
  {
  }

  /** Goroutines about to create a retry are still there. */
  ghost predicate KeepsRetrying(s: State, s': State) {
    forall u | u in s.tasks && s.tasks[u].phase.Retrying? ::
      u in s'.tasks && s'.tasks[u].phase.Retrying? && s'.tasks[u].run.id == s.tasks[u].run.id
  }

  lemma RetriedStays(s: State, s': State, id: string)
    requires KeepsRetrying(s, s') && BeingRetried(s, id)
    ensures BeingRetried(s', id)
  {
  }

  lemma FailuresStay(s: State, r: Run, s': State)
    requires FailuresContinue(s) && KeepsRetrying(s, s') && ChangesRuns(s, r, s')
    requires r.state == Failed && Overwrites(s.runs, r, s'.runs) ==> BeingRetried(s', r.id)
    ensures FailuresContinue(s')
  {
    forall id | id in s'.runs && s'.runs[id].state == Failed
      ensures HasAttempt(s'.runs, s'.runs[id], s'.runs[id].attempt + 1) || BeingRetried(s', id)
    {
      if id in s.runs && s'.runs[id] == s.runs[id] {
        if BeingRetried(s, id) {
          RetriedStays(s, s', id);
        } else if s'.runs != s.runs {
          HasAttemptStays(s.runs, r, s'.runs, s.runs[id], s.runs[id].attempt + 1);
        }
      }
    }
  }

  /** Goroutines that still have to look at a job keep doing so, unless it has a run. */
  ghost predicate KeepsWaking(c: Config, s: State, s': State) {
    forall u, j, b | u in s.tasks && WillInspect(c, s.tasks[u], j, b) && DepsSucceeded(c, s'.runs, j, b) ::
      HasRun(s'.runs, j, b) || Awaited(c, s', j, b)
  }

  lemma WakeUpsStay(c: Config, s: State, s': State)
    requires WakeUps(c, s) && KeepsWaking(c, s, s') && s'.root == s.root
    requires forall j, b | HasRun(s.runs, j, b) :: HasRun(s'.runs, j, b)
    requires forall j, b | DepsSucceeded(c, s'.runs, j, b) :: DepsSucceeded(c, s.runs, j, b) || Awaited(c, s', j, b)
    ensures WakeUps(c, s')
  {
  }

  /** Goroutines waiting to inspect jobs are untouched. */
  lemma SameWaiters(c: Config, s: State, s': State)
    requires forall u | u in s.tasks && (s.tasks[u].phase.Waiting? || s.tasks[u].phase.Enqueueing?) ::
               u in s'.tasks && s'.tasks[u] == s.tasks[u]
    ensures KeepsWaking(c, s, s')
  {
  }

  lemma StartsStay(s: State, r: Run, s': State)
    requires StartedDue(s) && ChangesRuns(s, r, s') && Later(s, s')
    requires r.state != Pending ==> r.scheduledFor <= s'.now
    ensures StartedDue(s')
  {
  }

  // The steps, by what they change.

  /** Any run: a placeholder where the store does not change. */
  ghost function NoRun(): Run {
    NewRun("", "", "", 0, 0, 0)
  }

  /** The clock and the dispatcher's slot. */
  ghost predicate ClockShape(s: State, s': State) {
    SameStore(s, s') && s'.tasks == s.tasks && s.now <= s'.now
  }

  lemma ClockTasks(c: Config, s: State, s': State)
    requires TaskInv(c, s) && ClockShape(s, s')
    ensures TaskInv(c, s')
  {
  }

  lemma ClockLinks(c: Config, s: State, s': State)
    requires LinkInv(c, s) && ClockShape(s, s')
    ensures LinkInv(c, s')
  {
  }

  lemma SlotShape(c: Config, s: State, l: Label)
    requires (l.Advance? || l.CheckSlot? || l.DropSlot?) && Enabled(c, s, l)
    ensures ClockShape(s, Apply(c, s, l))
  {
  }

  /** A goroutine that has not recorded an outcome goes on or goes away. */
  ghost predicate WorkShape(c: Config, s: State, t: nat, s': State) {
    && SameStore(s, s') && Later(s, s')
    && t in s.tasks && s.tasks[t].Unrecorded()
    && (s'.tasks == s.tasks - {t} || (t in s'.tasks && s'.tasks == s.tasks[t := s'.tasks[t]]))
    && (t in s'.tasks ==>
          s'.tasks[t].run == s.tasks[t].run && s'.tasks[t].Unrecorded() && TaskOk(c, s', s'.tasks[t]))
  }

  lemma WorkTasks(c: Config, s: State, t: nat, s': State)
    requires TaskInv(c, s) && WorkShape(c, s, t, s')
    ensures TaskInv(c, s')
  {
    TasksStay(c, s, NoRun(), {t}, s');
    SameClaimsKeep(s, s');
  }

  lemma WorkLinks(c: Config, s: State, t: nat, s': State)
    requires LinkInv(c, s) && WorkShape(c, s, t, s')
    ensures LinkInv(c, s')
  {
    FailuresStay(s, NoRun(), s');
    SameWaiters(c, s, s');
    WakeUpsStay(c, s, s');
    StartsStay(s, NoRun(), s');
  }

  lemma ExecuteShape(c: Config, s: State, l: Label)
    requires l.Execute? && Enabled(c, s, l) && TaskOk(c, s, s.tasks[l.task])
    ensures WorkShape(c, s, l.task, Apply(c, s, l))
  {
  }

  lemma AbandonShape(c: Config, s: State, l: Label)
    requires l.Abandon? && Enabled(c, s, l)
    ensures WorkShape(c, s, l.task, Apply(c, s, l))
  {
  }

  // Inside enqueueDependents, without writing.

  /** A goroutine enters, moves on in, or leaves `enqueueDependents`. */
  ghost predicate MutexShape(c: Config, s: State, t: nat, s': State) {
    && SameStore(s, s') && Later(s, s')
    && t in s.tasks && (s.tasks[t].phase.Waiting? || s.tasks[t].phase.Enqueueing?)
    && (s'.tasks == s.tasks - {t} || (t in s'.tasks && s'.tasks == s.tasks[t := s'.tasks[t]]))
    && (t in s'.tasks ==>
          s'.tasks[t].run == s.tasks[t].run && s'.tasks[t].phase.Enqueueing? && TaskOk(c, s', s'.tasks[t]))
  }

  lemma MutexTasks(c: Config, s: State, t: nat, s': State)
    requires TaskInv(c, s) && MutexShape(c, s, t, s')
    ensures TaskInv(c, s')
  {
    OneEnters(c, s, t, s');
    SameClaimsKeep(s, s');
    TasksStay(c, s, NoRun(), {t}, s');
  }

  lemma OneEnters(c: Config, s: State, t: nat, s': State)
    requires MutexShape(c, s, t, s')
    ensures SameClaims(s, s')
  {
  }

  lemma MutexLinks(c: Config, s: State, t: nat, s': State)
    requires LinkInv(c, s) && MutexShape(c, s, t, s') && KeepsWaking(c, s, s')
    ensures LinkInv(c, s')
  {
    FailuresStay(s, NoRun(), s');
    WakeUpsStay(c, s, s');
    StartsStay(s, NoRun(), s');
  }

  lemma LockShape(c: Config, s: State, l: Label)
    requires c.Valid() && l.Lock? && Enabled(c, s, l) && TaskOk(c, s, s.tasks[l.task])
    ensures MutexShape(c, s, l.task, Apply(c, s, l)) && KeepsWaking(c, s, Apply(c, s, l))
  {
    var s' := Apply(c, s, l);
    forall u, j, b | u in s.tasks && WillInspect(c, s.tasks[u], j, b)
      ensures Awaited(c, s', j, b)
    {
      assert j in c.jobs;
      assert WillInspect(c, s'.tasks[u], j, b);
    }
  }

  lemma UnlockShape(c: Config, s: State, l: Label)
    requires l.Unlock? && Enabled(c, s, l)
    ensures MutexShape(c, s, l.task, Apply(c, s, l)) && KeepsWaking(c, s, Apply(c, s, l))
  {
    var s' := Apply(c, s, l);
    forall u, j, b | u in s.tasks && WillInspect(c, s.tasks[u], j, b)
      ensures Awaited(c, s', j, b)
    {
      assert WillInspect(c, s'.tasks[u], j, b);
    }
  }

  /** What a query shows stays known until the next one. */
  lemma InspectedOk(c: Config, s: State, task: Task, s': State)
    requires task.phase.Enqueueing? && task.phase.todo != [] && !task.phase.check.Create?
    requires TaskOk(c, s, task) && SameStore(s, s')
    ensures TaskOk(c, s', task.(phase := Inspected(c, s.runs, task.run, task.phase)))
  {
  }

  /** A job is only passed over if it is not ready or already has a run. */
  lemma InspectedWakes(c: Config, s: State, task: Task, j: string, b: string)
    requires task.phase.Enqueueing? && task.phase.todo != [] && !task.phase.check.Create?
    requires WillInspect(c, task, j, b) && DepsSucceeded(c, s.runs, j, b)
    ensures HasRun(s.runs, j, b) ||
            WillInspect(c, task.(phase := Inspected(c, s.runs, task.run, task.phase)), j, b)
  {
  }

  lemma InspectShape(c: Config, s: State, l: Label)
    requires l.Inspect? && Enabled(c, s, l) && TaskOk(c, s, s.tasks[l.task])
    ensures MutexShape(c, s, l.task, Apply(c, s, l)) && KeepsWaking(c, s, Apply(c, s, l))
  {
    var s' := Apply(c, s, l);
    InspectedOk(c, s, s.tasks[l.task], s');
    forall u, j, b | u in s.tasks && WillInspect(c, s.tasks[u], j, b) && DepsSucceeded(c, s'.runs, j, b)
      ensures HasRun(s'.runs, j, b) || Awaited(c, s', j, b)
    {
      if u == l.task {
        InspectedWakes(c, s, s.tasks[u], j, b);
      } else {
        assert s'.tasks[u] == s.tasks[u];
      }
      if !HasRun(s'.runs, j, b) {
        assert WillInspect(c, s'.tasks[u], j, b);
      }
    }
  }

  // Claims and outcomes.

  lemma OverwriteRuns(c: Config, s: State, r: Run, s': State)
    requires RunInv(c, s) && Overwrites(s.runs, r, s'.runs) && s'.root == s.root
    ensures RunInv(c, s')
  {
    OverwriteKeepsShape(c, s, r, s');
    OverwriteKeepsRetries(s, r, s');
    OverwriteKeepsDag(c, s, r, s');
    OverwriteKeepsGrounded(c, s, r, s');
  }

  lemma OverwriteWakes(c: Config, s: State, r: Run, s': State)
    requires WakeUps(c, s) && Overwrites(s.runs, r, s'.runs) && s'.root == s.root
    requires forall u | u in s.tasks && (s.tasks[u].phase.Waiting? || s.tasks[u].phase.Enqueueing?) ::
               u in s'.tasks && s'.tasks[u] == s.tasks[u]
    requires r.state == Succeeded ==> exists t :: t in s'.tasks && s'.tasks[t].phase.Waiting? && s'.tasks[t].run == r
    ensures WakeUps(c, s')
  {
    SameWaiters(c, s, s');
    forall j, b | HasRun(s.runs, j, b)
      ensures HasRun(s'.runs, j, b)
    {
      OverwriteHasRun(s.runs, r, s'.runs, j, b);
    }
    forall j, b | DepsSucceeded(c, s'.runs, j, b)
      ensures DepsSucceeded(c, s.runs, j, b) || Awaited(c, s', j, b)
    {
      if !DepsSucceeded(c, s.runs, j, b) {
        NewlySucceeded(c, s, r, s', j, b);
      }
    }
    WakeUpsStay(c, s, s');
  }

  /** If recording a success completes a job's dependencies, the recorder will look at that job. */
  lemma NewlySucceeded(c: Config, s: State, r: Run, s': State, j: string, b: string)
    requires Overwrites(s.runs, r, s'.runs)
    requires DepsSucceeded(c, s'.runs, j, b) && !DepsSucceeded(c, s.runs, j, b)
    requires r.state == Succeeded ==> exists t :: t in s'.tasks && s'.tasks[t].phase.Waiting? && s'.tasks[t].run == r
    ensures Awaited(c, s', j, b)
  {
  }

  ghost predicate ClaimShape(c: Config, s: State, r: Run, t: nat, s': State) {
    && Overwrites(s.runs, r, s'.runs) && s'.root == s.root && Later(s, s')
    && s.runs[r.id].leaseExpiry < r.leaseExpiry && r.state == Running
    && (s.runs[r.id].state == Pending || s.runs[r.id].state == Running)
    && t !in s.tasks && t in s'.tasks && s'.tasks == s.tasks[t := s'.tasks[t]]
    && s'.tasks[t].run == r && s'.tasks[t].phase.Executing?
    && r.scheduledFor <= s'.now
  }

  lemma ClaimTasks(c: Config, s: State, r: Run, t: nat, s': State)
    requires TaskInv(c, s) && ClaimShape(c, s, r, t, s')
    ensures TaskInv(c, s')
  {
    ClaimLeases(c, s, r, t, s');
    TasksStay(c, s, r, {t}, s');
  }

  lemma ClaimLeases(c: Config, s: State, r: Run, t: nat, s': State)
    requires TaskInv(c, s) && ClaimShape(c, s, r, t, s')
    ensures ClaimsDistinct(s')
  {
  }

  lemma ClaimLinks(c: Config, s: State, r: Run, t: nat, s': State)
    requires LinkInv(c, s) && ClaimShape(c, s, r, t, s')
    ensures LinkInv(c, s')
  {
    FailuresStay(s, r, s');
    OverwriteWakes(c, s, r, s');
    StartsStay(s, r, s');
  }

  lemma ClaimIsShape(c: Config, s: State, l: Label)
    requires c.Valid() && l.Claim? && Enabled(c, s, l) && RunsTyped(c, s) && StartedDue(s)
    ensures ClaimShape(c, s, Leased(s.runs[l.id], l.worker, l.at, c.lease), l.task, Apply(c, s, l))
  {
  }

  /** An outcome r is written by goroutine t, which was the run's holder. */
  ghost predicate RecordShape(c: Config, s: State, r: Run, t: nat, s': State) {
    && Overwrites(s.runs, r, s'.runs) && s'.root == s.root && Later(s, s')
    && s.runs[r.id].leaseExpiry <= r.leaseExpiry && s.runs[r.id].state == Running
    && Over(r) && r.scheduledFor <= s'.now
    && t in s.tasks && s.tasks[t].Unrecorded() && s.tasks[t].run.id == r.id
    && (if r.state == Dead then s'.tasks == s.tasks - {t}
        else && t in s'.tasks && s'.tasks == s.tasks[t := s'.tasks[t]]
             && s'.tasks[t].run == r && TaskOk(c, s', s'.tasks[t]))
    && (r.state == Succeeded ==> s'.tasks[t].phase.Waiting?)
    && (r.state == Failed ==> s'.tasks[t].phase.Retrying?)
  }

  lemma RecordClaims(c: Config, s: State, r: Run, t: nat, s': State)
    requires TasksOk(c, s) && ClaimsDistinct(s) && RecordShape(c, s, r, t, s')
    ensures ClaimsDistinct(s')
  {
  }

  lemma RecordTasks(c: Config, s: State, r: Run, t: nat, s': State)
    requires TaskInv(c, s) && RecordShape(c, s, r, t, s')
    ensures TaskInv(c, s')
  {
    RecordClaims(c, s, r, t, s');
    TasksStay(c, s, r, {t}, s');
  }

  lemma RecordLinks(c: Config, s: State, r: Run, t: nat, s': State)
    requires LinkInv(c, s) && RecordShape(c, s, r, t, s')
    ensures LinkInv(c, s')
  {
    FailuresStay(s, r, s');
    OverwriteWakes(c, s, r, s');
    StartsStay(s, r, s');
  }

  lemma SuccessShape(c: Config, s: State, l: Label)
    requires l.RecordSuccess? && Enabled(c, s, l) && Fenced(s, l) && TaskOk(c, s, s.tasks[l.task])
    ensures RecordShape(c, s, Finished(s.tasks[l.task].run, Succeeded, s.tasks[l.task].phase.finish, ""), l.task,
                        Apply(c, s, l))
  {
  }

  lemma DeadShape(c: Config, s: State, l: Label)
    requires l.RecordDead? && Enabled(c, s, l) && Fenced(s, l) && TaskOk(c, s, s.tasks[l.task])
    ensures RecordShape(c, s, Finished(s.tasks[l.task].run, Dead, s.tasks[l.task].phase.finish, l.error), l.task,
                        Apply(c, s, l))
  {
  }

  lemma FailureShape(c: Config, s: State, l: Label)
    requires l.RecordFailure? && Enabled(c, s, l) && Fenced(s, l) && TaskOk(c, s, s.tasks[l.task])
    ensures RecordShape(c, s, Finished(s.tasks[l.task].run, Failed, s.tasks[l.task].phase.finish, l.error), l.task,
                        Apply(c, s, l))
  {
  }

  // New runs.

  /** A run in a batch of its own. */
  ghost predicate BatchShape(c: Config, s: State, r: Run, s': State) {
    && Adds(s.runs, r, s'.runs) && Later(s, s') && s'.tasks == s.tasks
    && r.batchID !in s.root && s'.root == s.root[r.batchID := r.jobID]
    && r.jobID in c.jobs && r.attempt == 0
  }

  lemma BatchRuns(c: Config, s: State, r: Run, s': State)
    requires RunInv(c, s) && BatchShape(c, s, r, s')
    ensures RunInv(c, s')
  {
    AddKeepsShape(c, s, r, s');
    AddKeepsRetries(s, r, s');
    AddKeepsDag(c, s, r, s');
    NewBatchKeepsGrounded(c, s, r, s');
  }

  lemma BatchTasks(c: Config, s: State, r: Run, s': State)
    requires RunsTyped(c, s) && TaskInv(c, s) && BatchShape(c, s, r, s')
    ensures TaskInv(c, s')
  {
    SameClaimsKeep(s, s');
    TasksStay(c, s, r, {}, s');
  }

  lemma BatchLinks(c: Config, s: State, r: Run, s': State)
    requires RunsTyped(c, s) && LinkInv(c, s) && BatchShape(c, s, r, s')
    ensures LinkInv(c, s')
  {
    FailuresStay(s, r, s');
    StartsStay(s, r, s');
    BatchWakes(c, s, r, s');
  }

  lemma BatchWakes(c: Config, s: State, r: Run, s': State)
    requires RunsTyped(c, s) && WakeUps(c, s) && BatchShape(c, s, r, s')
    ensures WakeUps(c, s')
  {
    forall j, b | j in c.jobs && b in s'.root && DepsSucceeded(c, s'.runs, j, b)
      ensures HasRun(s'.runs, j, b) || Awaited(c, s', j, b)
    {
      DepsStaySucceeded(c, s.runs, r, s'.runs, j, b);
      assert HasSucceeded(s.runs, c.Deps(j)[0], b);
      AddHasRun(s.runs, r, s'.runs, j, b);
    }
  }

  lemma TriggerShape(c: Config, s: State, l: Label)
    requires l.Trigger? && Enabled(c, s, l)
    ensures BatchShape(c, s, NewRun(l.id, l.job, l.batch, 0, l.at, l.at), Apply(c, s, l))
  {
  }

  lemma RootShape(c: Config, s: State, l: Label)
    requires l.CreateRoot? && Enabled(c, s, l)
    ensures var (job, fireAt) := s.slots[l.process];
      BatchShape(c, s, NewRun(l.id, job, l.batch, 0, fireAt, fireAt), Apply(c, s, l))
  {
  }

  /** A run added to its batch by goroutine t, which goes away or moves on. */
  ghost predicate JoinShape(c: Config, s: State, r: Run, t: nat, s': State) {
    && Adds(s.runs, r, s'.runs) && Later(s, s') && s'.root == s.root
    && r.batchID in s.root && r.jobID in c.jobs && r.attempt <= c.LastAttempt(r.jobID)
    && (r.attempt > 0 ==> Follows(s.runs, r))
    && (HasRun(s.runs, r.jobID, r.batchID) || DepsSucceeded(c, s.runs, r.jobID, r.batchID))
    && t in s.tasks
    && (s'.tasks == s.tasks - {t} || (t in s'.tasks && s'.tasks == s.tasks[t := s'.tasks[t]]))
    && (t in s'.tasks ==>
          && s'.tasks[t].run == s.tasks[t].run && s'.tasks[t].phase.Enqueueing? && s.tasks[t].phase.Enqueueing?
          && TaskOk(c, s', s'.tasks[t]))
  }

  lemma JoinRuns(c: Config, s: State, r: Run, t: nat, s': State)
    requires RunInv(c, s) && JoinShape(c, s, r, t, s')
    ensures RunInv(c, s')
  {
    AddKeepsShape(c, s, r, s');
    AddKeepsRetries(s, r, s');
    JoinDag(c, s, r, s');
    AddKeepsGrounded(c, s, r, s');
  }

  lemma JoinDag(c: Config, s: State, r: Run, s': State)
    requires DagSafe(c, s) && RunsTyped(c, s) && Adds(s.runs, r, s'.runs) && s'.root == s.root
    requires HasRun(s.runs, r.jobID, r.batchID) || DepsSucceeded(c, s.runs, r.jobID, r.batchID)
    ensures DagSafe(c, s')
  {
    if r.batchID in s.root && r.jobID != s.root[r.batchID] && HasRun(s.runs, r.jobID, r.batchID) {
      var id :| id in s.runs && s.runs[id].jobID == r.jobID && s.runs[id].batchID == r.batchID;
      assert DepsSucceeded(c, s.runs, s.runs[id].jobID, s.runs[id].batchID);
    }
    AddKeepsDag(c, s, r, s');
  }

  lemma JoinTasks(c: Config, s: State, r: Run, t: nat, s': State)
    requires TaskInv(c, s) && JoinShape(c, s, r, t, s')
    ensures TaskInv(c, s')
  {
    JoinClaims(c, s, r, t, s');
    TasksStay(c, s, r, {t}, s');
  }

  lemma JoinClaims(c: Config, s: State, r: Run, t: nat, s': State)
    requires ClaimsDistinct(s) && JoinShape(c, s, r, t, s')
    ensures ClaimsDistinct(s')
  {
    SameClaimsKeep(s, s');
  }

  lemma JoinLinks(c: Config, s: State, r: Run, t: nat, s': State)
    requires LinkInv(c, s) && JoinShape(c, s, r, t, s')
    requires FailuresContinue(s') && KeepsWaking(c, s, s')
    ensures LinkInv(c, s')
  {
    StartsStay(s, r, s');
    forall j, b | HasRun(s.runs, j, b)
      ensures HasRun(s'.runs, j, b)
    {
      AddHasRun(s.runs, r, s'.runs, j, b);
    }
    forall j, b | DepsSucceeded(c, s'.runs, j, b)
      ensures DepsSucceeded(c, s.runs, j, b)
    {
      DepsStaySucceeded(c, s.runs, r, s'.runs, j, b);
    }
    WakeUpsStay(c, s, s');
  }

  // A retry.

  lemma RetryShape(c: Config, s: State, l: Label)
    requires l.CreateRetry? && Enabled(c, s, l)
    requires RunsTyped(c, s) && TasksOk(c, s)
    ensures var task := s.tasks[l.task];
      JoinShape(c, s, NextAttempt(task.run, task.phase.finish, l.id, l.delay), l.task, Apply(c, s, l))
  {
    var task := s.tasks[l.task];
    var r := NextAttempt(task.run, task.phase.finish, l.id, l.delay);
    assert TaskOk(c, s, task);
    RetryFollows(c, s, task, r);
  }

  lemma RetryFollows(c: Config, s: State, task: Task, r: Run)
    requires TaskOk(c, s, task) && task.phase.Retrying?
    requires Siblings(task.run, r) && r.attempt == task.run.attempt + 1 && r.scheduledFor >= task.phase.finish
    ensures Follows(s.runs, r) && HasRun(s.runs, r.jobID, r.batchID)
  {
  }

  lemma RetryLinks(c: Config, s: State, l: Label)
    requires l.CreateRetry? && Enabled(c, s, l) && TaskOk(c, s, s.tasks[l.task]) && FailuresContinue(s)
    requires RunsTyped(c, s)
    ensures FailuresContinue(Apply(c, s, l)) && KeepsWaking(c, s, Apply(c, s, l))
  {
    var s' := Apply(c, s, l);
    var task := s.tasks[l.task];
    var r := NextAttempt(task.run, task.phase.finish, l.id, l.delay);
    SameWaiters(c, s, s');
    forall id | id in s'.runs && s'.runs[id].state == Failed
      ensures HasAttempt(s'.runs, s'.runs[id], s'.runs[id].attempt + 1) || BeingRetried(s', id)
    {
      RetriedOrDone(s, l.task, r, s', id);
    }
  }

  lemma RetriedOrDone(s: State, t: nat, r: Run, s': State, id: string)
    requires FailuresContinue(s) && Adds(s.runs, r, s'.runs) && t in s.tasks && s'.tasks == s.tasks - {t}
    requires TaskHasRun(s, s.tasks[t])
    requires Siblings(r, s.tasks[t].run) && r.attempt == s.tasks[t].run.attempt + 1
    requires id in s.runs && s.runs[id].state == Failed
    ensures HasAttempt(s'.runs, s.runs[id], s.runs[id].attempt + 1) || BeingRetried(s', id)
  {
    HasAttemptStays(s.runs, r, s'.runs, s.runs[id], s.runs[id].attempt + 1);
    if !HasAttempt(s.runs, s.runs[id], s.runs[id].attempt + 1) {
      var u :| u in s.tasks && s.tasks[u].phase.Retrying? && s.tasks[u].run.id == id;
      if u == t {
        assert s'.runs[r.id] == r && Siblings(r, s.runs[id]);
      } else {
        assert u in s'.tasks && s'.tasks[u] == s.tasks[u];
      }
    }
  }

  // A dependent.

  lemma DependentShape(c: Config, s: State, l: Label)
    requires l.CreateDependent? && Enabled(c, s, l)
    requires RunsTyped(c, s) && TasksOk(c, s)
    ensures JoinShape(c, s, Dependent(s.tasks[l.task], l.id), l.task, Apply(c, s, l))
  {
    var r := Dependent(s.tasks[l.task], l.id);
    var s' := Apply(c, s, l);
    assert TaskOk(c, s, s.tasks[l.task]);
    assert DepsSucceeded(c, s.runs, r.jobID, r.batchID);
    MovedOnOk(c, s, r, s', s.tasks[l.task]);
  }

  lemma MovedOnOk(c: Config, s: State, r: Run, s': State, task: Task)
    requires TaskOk(c, s, task) && task.phase.Enqueueing? && task.phase.todo != [] && Adds(s.runs, r, s'.runs)
    ensures TaskOk(c, s', task.(phase := PassedOver(task.phase)))
  {
  }

  lemma DependentLinks(c: Config, s: State, l: Label)
    requires l.CreateDependent? && Enabled(c, s, l) && FailuresContinue(s)
    ensures FailuresContinue(Apply(c, s, l)) && KeepsWaking(c, s, Apply(c, s, l))
  {
    var s' := Apply(c, s, l);
    var p := s.tasks[l.task].phase;
    var r := Dependent(s.tasks[l.task], l.id);
    assert Adds(s.runs, r, s'.runs);
    FailuresStay(s, r, s');
    forall u, j, b | u in s.tasks && WillInspect(c, s.tasks[u], j, b)
      ensures HasRun(s'.runs, j, b) || Awaited(c, s', j, b)
    {
      if u == l.task {
        assert j == p.todo[0] || j in p.todo[1..];
        AddHasRun(s.runs, r, s'.runs, j, b);
        assert j in p.todo[1..] ==> WillInspect(c, s'.tasks[u], j, b);
      } else {
        assert WillInspect(c, s'.tasks[u], j, b);
      }
    }
  }

  // All steps.

  lemma ClockStep(c: Config, s: State, l: Label)
    requires Inv(c, s) && Enabled(c, s, l) && (l.Advance? || l.CheckSlot? || l.DropSlot?)
    ensures Inv(c, Apply(c, s, l))
  {
    var s' := Apply(c, s, l);
    SlotShape(c, s, l);
    SameStoreKeepsRuns(c, s, s');
    ClockTasks(c, s, s');
    ClockLinks(c, s, s');
  }

  lemma WorkStep(c: Config, s: State, l: Label)
    requires Inv(c, s) && Enabled(c, s, l) && (l.Execute? || l.Abandon?)
    ensures Inv(c, Apply(c, s, l))
  {
    var s' := Apply(c, s, l);
    if l.Execute? {
      ExecuteShape(c, s, l);
    } else {
      AbandonShape(c, s, l);
    }
    SameStoreKeepsRuns(c, s, s');
    WorkTasks(c, s, l.task, s');
    WorkLinks(c, s, l.task, s');
  }

  lemma MutexStep(c: Config, s: State, l: Label)
    requires c.Valid() && Inv(c, s) && Enabled(c, s, l) && (l.Lock? || l.Inspect? || l.Unlock?)
    ensures Inv(c, Apply(c, s, l))
  {
    var s' := Apply(c, s, l);
    if l.Lock? {
      LockShape(c, s, l);
    } else if l.Inspect? {
      InspectShape(c, s, l);
    } else {
      UnlockShape(c, s, l);
    }
    SameStoreKeepsRuns(c, s, s');
    MutexTasks(c, s, l.task, s');
    MutexLinks(c, s, l.task, s');
  }

  lemma ClaimStep(c: Config, s: State, l: Label)
    requires c.Valid() && Inv(c, s) && Enabled(c, s, l) && l.Claim?
    ensures Inv(c, Apply(c, s, l))
  {
    var s' := Apply(c, s, l);
    var r := Leased(s.runs[l.id], l.worker, l.at, c.lease);
    ClaimIsShape(c, s, l);
    OverwriteRuns(c, s, r, s');
    ClaimTasks(c, s, r, l.task, s');
    ClaimLinks(c, s, r, l.task, s');
  }

  lemma RecordedStep(c: Config, s: State, r: Run, t: nat, s': State)
    requires Inv(c, s) && RecordShape(c, s, r, t, s')
    ensures Inv(c, s')
  {
    OverwriteRuns(c, s, r, s');
    RecordTasks(c, s, r, t, s');
    RecordLinks(c, s, r, t, s');
  }

  lemma SuccessStep(c: Config, s: State, l: Label)
    requires Inv(c, s) && Enabled(c, s, l) && l.RecordSuccess? && Fenced(s, l)
    ensures Inv(c, Apply(c, s, l))
  {
    var task := s.tasks[l.task];
    SuccessShape(c, s, l);
    RecordedStep(c, s, Finished(task.run, Succeeded, task.phase.finish, ""), l.task, Apply(c, s, l));
  }

  lemma FailureStep(c: Config, s: State, l: Label)
    requires Inv(c, s) && Enabled(c, s, l) && l.RecordFailure? && Fenced(s, l)
    ensures Inv(c, Apply(c, s, l))
  {
    var task := s.tasks[l.task];
    FailureShape(c, s, l);
    RecordedStep(c, s, Finished(task.run, Failed, task.phase.finish, l.error), l.task, Apply(c, s, l));
  }

  lemma DeadStep(c: Config, s: State, l: Label)
    requires Inv(c, s) && Enabled(c, s, l) && l.RecordDead? && Fenced(s, l)
    ensures Inv(c, Apply(c, s, l))
  {
    var task := s.tasks[l.task];
    DeadShape(c, s, l);
    RecordedStep(c, s, Finished(task.run, Dead, task.phase.finish, l.error), l.task, Apply(c, s, l));
  }

  lemma BatchStep(c: Config, s: State, l: Label)
    requires Inv(c, s) && Enabled(c, s, l) && (l.CreateRoot? || l.Trigger?)
    ensures Inv(c, Apply(c, s, l))
  {
    var s' := Apply(c, s, l);
    var (job, at) := if l.Trigger? then (l.job, l.at) else s.slots[l.process];
    var r := NewRun(l.id, job, l.batch, 0, at, at);
    if l.Trigger? {
      TriggerShape(c, s, l);
    } else {
      RootShape(c, s, l);
    }
    BatchRuns(c, s, r, s');
    BatchTasks(c, s, r, s');
    BatchLinks(c, s, r, s');
  }

  ghost predicate JoinReady(c: Config, s: State, r: Run, t: nat, s': State) {
    JoinShape(c, s, r, t, s') && FailuresContinue(s') && KeepsWaking(c, s, s')
  }

  lemma JoinStep(c: Config, s: State, r: Run, t: nat, s': State)
    requires Inv(c, s) && JoinReady(c, s, r, t, s')
    ensures Inv(c, s')
  {
    JoinRuns(c, s, r, t, s');
    JoinTasks(c, s, r, t, s');
    JoinLinks(c, s, r, t, s');
  }

  lemma RetryStep(c: Config, s: State, l: Label)
    requires Inv(c, s) && Enabled(c, s, l) && l.CreateRetry?
    ensures Inv(c, Apply(c, s, l))
  {
    var task := s.tasks[l.task];
    RetryShape(c, s, l);
    RetryLinks(c, s, l);
    JoinStep(c, s, NextAttempt(task.run, task.phase.finish, l.id, l.delay), l.task, Apply(c, s, l));
  }

  lemma DependentStep(c: Config, s: State, l: Label)
    requires Inv(c, s) && Enabled(c, s, l) && l.CreateDependent?
    ensures Inv(c, Apply(c, s, l))
  {
    var r := DependentReady(c, s, l);
    JoinStep(c, s, r, l.task, Apply(c, s, l));
  }

  lemma DependentReady(c: Config, s: State, l: Label) returns (r: Run)
    requires RunsTyped(c, s) && TaskInv(c, s) && FailuresContinue(s) && Enabled(c, s, l) && l.CreateDependent?
    ensures JoinReady(c, s, r, l.task, Apply(c, s, l))
  {
    r := Dependent(s.tasks[l.task], l.id);
    DependentShape(c, s, l);
    DependentLinks(c, s, l);
  }

  predicate Quiet(l: Label) {
    || l.Advance? || l.CheckSlot? || l.DropSlot? || l.Execute? || l.Abandon?
    || l.Lock? || l.Inspect? || l.Unlock?
  }

  predicate Creates(l: Label) {
    l.CreateRoot? || l.Trigger? || l.CreateRetry? || l.CreateDependent?
  }

  lemma QuietStep(c: Config, s: State, l: Label)
    requires c.Valid() && Inv(c, s) && Enabled(c, s, l) && Quiet(l)
    ensures Inv(c, Apply(c, s, l))
  {
    if l.Execute? || l.Abandon? {
      WorkStep(c, s, l);
    } else if l.Lock? || l.Inspect? || l.Unlock? {
      MutexStep(c, s, l);
    } else {
      ClockStep(c, s, l);
    }
  }

  lemma CreateStep(c: Config, s: State, l: Label)
    requires Inv(c, s) && Enabled(c, s, l) && Creates(l)
    ensures Inv(c, Apply(c, s, l))
  {
    if l.CreateRetry? {
      RetryStep(c, s, l);
    } else if l.CreateDependent? {
      DependentStep(c, s, l);
    } else {
      BatchStep(c, s, l);
    }
  }

  lemma RecordStep(c: Config, s: State, l: Label)
    requires Inv(c, s) && Enabled(c, s, l) && Records(l) && Fenced(s, l)
    ensures Inv(c, Apply(c, s, l))
  {
    if l.RecordSuccess? {
      SuccessStep(c, s, l);
    } else if l.RecordFailure? {
      FailureStep(c, s, l);
    } else {
      DeadStep(c, s, l);
    }
  }

  /** Every step keeps the invariant, provided outcomes are written by the run's current holder. */
  lemma StepKeepsInv(c: Config, s: State, l: Label)
    requires c.Valid() && Inv(c, s) && Enabled(c, s, l) && Fenced(s, l)
    ensures Inv(c, Apply(c, s, l))
  {
    if Quiet(l) {
      QuietStep(c, s, l);
    } else if Creates(l) {
      CreateStep(c, s, l);
    } else if Records(l) {
      RecordStep(c, s, l);
    } else {
      ClaimStep(c, s, l);
    }
  }

  lemma InitialInv(c: Config, s: State)
    requires Initial(s)
    ensures Inv(c, s)
  {
  }

  /** The invariant holds after every fenced run of any number of processes. */
  lemma {:induction false} Reachable(c: Config, s: State, labels: seq<Label>)
    requires c.Valid() && Initial(s) && Legal(c, Fencing, s, labels)
    ensures Inv(c, Exec(c, Fencing, s, labels))
  {
    if labels == [] {
      InitialInv(c, s);
    } else {
      var init, last := labels[..|labels| - 1], labels[|labels| - 1];
      Reachable(c, s, init);
      StepKeepsInv(c, Exec(c, Fencing, s, init), last);
    }
  }
}
