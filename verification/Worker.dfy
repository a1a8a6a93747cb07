/** Handling one claimed run, `internal/scheduler/worker.go`, and the steps it amounts to. */
module Worker {
  import opened Text
  import opened CronSchedule
  import opened JobModel
  import opened Backoff
  import opened MemoryStore
  import opened Protocol

  /** How an execution ended.  A shutdown during it hides the result. */
  datatype Outcome = Success | Failure(error: string) | ShutDown

  /** The run as its outcome is recorded. */
  function Recorded(j: Job, r: Run, outcome: Outcome, finish: Time): Run
    requires !outcome.ShutDown?
  {
    if outcome.Success? then Finished(r, Succeeded, finish, "")
    else if r.attempt < j.maxRetries then Finished(r, Failed, finish, outcome.error)
    else Finished(r, Dead, finish, outcome.error)
  }

  /** What handling a run leaves in the store, if its job and the run are there. */
  function Handled(runs: map<string, Run>, j: Job, r: Run, outcome: Outcome, finish: Time, id: string,
                   delay: nat): map<string, Run>
  {
    if outcome.ShutDown? then runs
    else
      var done := Recorded(j, r, outcome, finish);
      if done.state == Failed then runs[r.id := done][id := NextAttempt(done, finish, id, delay)]
      else runs[r.id := done]
  }

  /**
   What is left in the store, field by field: the outcome, and after a failure with retries left
   the next attempt, due after a delay that the job's backoff gives.
   */
  ghost predicate RecordsOutcome(runs: map<string, Run>, j: Job, r: Run, outcome: Outcome, finish: Time, id: string,
                                 draw: real, runs': map<string, Run>) {
    var done := r.(finishedAt := Some(finish), updatedAt := finish);
    match outcome
    case ShutDown => runs' == runs
    case Success => runs' == runs[r.id := done.(state := Succeeded, error := "")]
    case Failure(error) =>
      if r.attempt >= j.maxRetries then runs' == runs[r.id := done.(state := Dead, error := error)]
      else
        && id in runs' && runs' == runs[r.id := done.(state := Failed, error := error)][id := runs'[id]]
        && var due := finish + Delay(j.backoff, r.attempt, draw);
           && due >= finish
           && runs'[id] ==
              Run(id, r.jobID, r.batchID, Pending, r.attempt + 1, due, None, None, 0, "", "", finish, finish)
  }

  /** `process`, given how the execution ended and when, the ID a retry gets and the jitter's draw. */
  method Process(store: Store, r: Run, outcome: Outcome, finish: Time, id: string, draw: real)
      returns (result: Run, ok: bool)
    requires store.Valid() && 0.0 <= draw < 1.0
    modifies store`runs
    ensures store.Valid()
    ensures ok == (r.jobID in store.jobs && (outcome.ShutDown? || r.id in old(store.runs)))
    ensures ok ==> store.runs == Handled(old(store.runs), store.jobs[r.jobID], r, outcome, finish, id,
                                         DrawnDelay(store.jobs[r.jobID].backoff, r.attempt, draw))
    ensures ok ==> RecordsOutcome(old(store.runs), store.jobs[r.jobID], r, outcome, finish, id, draw, store.runs)
    ensures ok ==> result == if outcome.ShutDown? then r else Recorded(store.jobs[r.jobID], r, outcome, finish)
    ensures !ok ==> store.runs == old(store.runs)
  {
    var found := store.GetJob(r.jobID);
    ghost var runs := store.runs;
    if found.None? {
      return r, false;
    }
    var j := found.value;
    HandledRecords(runs, j, r, outcome, finish, id, draw);
    if outcome.ShutDown? {
      return r, true;
    }
    result := r.(finishedAt := Some(finish), updatedAt := finish);
    if outcome.Success? {
      result := result.(state := Succeeded, error := "");
      ok := store.UpdateRun(result);
      return;
    }
    result := result.(error := outcome.error);
    if r.attempt < j.maxRetries {
      result := result.(state := Failed);
      ok := store.UpdateRun(result);
      if ok {
        store.CreateRun(NextAttempt(result, finish, id, DrawnDelay(j.backoff, result.attempt, draw)));
      }
      return;
    }
    result := result.(state := Dead);
    ok := store.UpdateRun(result);
  }

  lemma HandledRecords(runs: map<string, Run>, j: Job, r: Run, outcome: Outcome, finish: Time, id: string, draw: real)
    requires 0.0 <= draw < 1.0
    ensures RecordsOutcome(runs, j, r, outcome, finish, id, draw,
                           Handled(runs, j, r, outcome, finish, id, DrawnDelay(j.backoff, r.attempt, draw)))
  {
    DelayBounds(j.backoff, r.attempt, draw);
  }

  /** The steps of handling a run: executing it, recording the outcome and, if it failed, creating the retry. */
  function Steps(j: Job, r: Run, outcome: Outcome, task: nat, id: string, delay: nat): seq<Label> {
    match outcome
    case ShutDown => [Execute(task, false), Abandon(task)]
    case Success => [Execute(task, true), RecordSuccess(task)]
    case Failure(error) =>
      if r.attempt < j.maxRetries
      then [Execute(task, false), RecordFailure(task, error), CreateRetry(task, id, delay)]
      else [Execute(task, false), RecordDead(task, error)]
  }

  /** The goroutine is about to execute a run it still holds. */
  ghost predicate AboutTo(c: Config, s: State, t: nat) {
    && t in s.tasks && s.tasks[t].phase.Executing?
    && s.tasks[t].run.id in s.runs && s.runs[s.tasks[t].run.id] == s.tasks[t].run && s.tasks[t].run.jobID in c.jobs
  }

  /** An undisturbed `Process` is a legal sequence of steps with the same effect on the runs. */
  lemma ProcessIsSteps(c: Config, s: State, t: nat, outcome: Outcome, id: string, delay: nat)
    requires AboutTo(c, s, t) && id !in s.runs
    requires CanDelay(c.jobs[s.tasks[t].run.jobID].backoff, s.tasks[t].run.attempt, delay)
    ensures var r := s.tasks[t].run;
      var j := c.jobs[r.jobID];
      var labels := Steps(j, r, outcome, t, id, delay);
      && Legal(c, Fencing, s, labels)
      && Exec(c, Fencing, s, labels).runs == Handled(s.runs, j, r, outcome, s.now, id, delay)
  {
    var r := s.tasks[t].run;
    var labels := Steps(c.jobs[r.jobID], r, outcome, t, id, delay);
    ExecuteFirst(c, s, t, outcome.Success?);
    OneStep(c, Fencing, s, labels[..1], labels[1]);
    assert labels[..1] + [labels[1]] == labels[..2];
    if |labels| == 3 {
      OneStep(c, Fencing, s, labels[..2], labels[2]);
      assert labels[..2] + [labels[2]] == labels;
    } else {
      assert labels[..2] == labels;
    }
  }

  lemma ExecuteFirst(c: Config, s: State, t: nat, ok: bool)
    requires AboutTo(c, s, t)
    ensures Legal(c, Fencing, s, [Execute(t, ok)])
    ensures var s' := Exec(c, Fencing, s, [Execute(t, ok)]);
      s'.runs == s.runs && s'.tasks == s.tasks[t := s.tasks[t].(phase := Returned(ok, s.now))]
  {
    OneStep(c, Fencing, s, [], Execute(t, ok));
    assert [] + [Execute(t, ok)] == [Execute(t, ok)];
  }

  /** `Scheduler.Trigger`: a run due at once, in a batch of its own. */
  method Trigger(store: Store, jobID: string, now: Time, id: string, batch: string) returns (r: Option<Run>)
    requires store.Valid()
    modifies store`runs
    ensures store.Valid()
    ensures r.Some? <==> jobID in store.jobs
    ensures r.None? ==> store.runs == old(store.runs)
    ensures r.Some? ==>
      && r.value == Run(id, jobID, batch, Pending, 0, now, None, None, 0, "", "", now, now)
      && store.runs == old(store.runs)[id := r.value]
  {
    var found := store.GetJob(jobID);
    if found.None? {
      return None;
    }
    var run := NewRun(id, found.value.id, batch, 0, now, now);
    store.CreateRun(run);
    return Some(run);
  }

  /** What `Trigger` writes is a step of the protocol. */
  lemma TriggerIsStep(c: Config, s: State, job: string, id: string, batch: string)
    requires job in c.jobs && id !in s.runs && batch !in s.root
    ensures var l := Protocol.Trigger(job, id, batch, s.now);
      && Legal(c, Fencing, s, [l])
      && Exec(c, Fencing, s, [l]).runs
         == s.runs[id := Run(id, job, batch, Pending, 0, s.now, None, None, 0, "", "", s.now, s.now)]
  {
    var l := Protocol.Trigger(job, id, batch, s.now);
    OneStep(c, Fencing, s, [], l);
    assert [] + [l] == [l];
  }
}
