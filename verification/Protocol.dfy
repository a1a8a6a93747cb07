/**
 The run lifecycle as a step system.

 Every step is one atomic operation on the store, or a local step of one goroutine; steps of
 different goroutines interleave freely.  Claiming several runs in one `ClaimDue` call is a
 sequence of `Claim` steps, all with the time read when the tick began, which may be past.
 Job definitions are fixed, IDs drawn by `newID` are fresh, and no crash or store error
 separates an outcome from the retry or the dependents that belong to it.

 Any number of scheduler processes may share the store.  Each has its own mutex around
 `enqueueDependents` and its own dispatcher.
 */
module Protocol {
  import opened Text
  import opened CronSchedule
  import opened JobModel
  import opened Backoff

  /** The jobs, the order `ListJobs` returns them in, and the lease duration. */
  datatype Config = Config(jobs: map<string, Job>, listing: seq<string>, lease: nat) {
    ghost predicate Valid() {
      && 0 < lease
      && (forall id :: id in listing <==> id in jobs)
      && (forall i, j | 0 <= i < j < |listing| :: listing[i] != listing[j])
      && (forall id | id in jobs :: jobs[id].id == id)
    }

    function Deps(job: string): seq<string> {
      if job in jobs then jobs[job].dependsOn else []
    }

    /** The last attempt a job may reach. */
    function LastAttempt(job: string): nat {
      if job in jobs && jobs[job].maxRetries > 0 then jobs[job].maxRetries else 0
    }
  }

  /** Where `enqueueDependents` is with the first job of its list. */
  datatype Check = Begin | Dep(next: nat) | Existing | Create

  datatype Phase =
    | Executing
    | Returned(ok: bool, finish: Time)
    | Retrying(finish: Time)
    | Waiting
    | Enqueueing(todo: seq<string>, at: Time, check: Check)

  /** A worker goroutine, its copy of the run it claimed, and the scheduler process it belongs to. */
  datatype Task = Task(run: Run, phase: Phase, owner: nat) {
    /** No outcome has been written yet. */
    predicate Unrecorded() {
      phase.Executing? || phase.Returned?
    }
  }

  /**
   The store's runs and the goroutines at work, for each scheduler process the slot its
   dispatcher has checked and not yet written, and three histories: the job each batch started
   from, how often each run was executed, and the runs created for a cron slot.
   */
  datatype State = State(
    now: Time,
    runs: map<string, Run>,
    tasks: map<nat, Task>,
    slots: map<nat, (string, Time)>,
    root: map<string, string>,
    executions: map<string, nat>,
    cron: set<string>)

  datatype Label =
    | Advance(to: Time)
    | CheckSlot(process: nat, job: string, fireAt: Time)
    | CreateRoot(process: nat, id: string, batch: string)
    | DropSlot(process: nat)
    | Trigger(job: string, id: string, batch: string, at: Time)
    | Claim(process: nat, id: string, worker: string, task: nat, at: Time)
    | Execute(task: nat, ok: bool)
    | Abandon(task: nat)
    | RecordSuccess(task: nat)
    | RecordFailure(task: nat, error: string)
    | RecordDead(task: nat, error: string)
    | CreateRetry(task: nat, id: string, delay: nat)
    | Lock(task: nat)
    | Inspect(task: nat)
    | CreateDependent(task: nat, id: string)
    | Unlock(task: nat)

  // The store's queries.

  ghost predicate HasRun(runs: map<string, Run>, job: string, batch: string) {
    exists id :: id in runs && runs[id].jobID == job && runs[id].batchID == batch
  }

  ghost predicate HasSucceeded(runs: map<string, Run>, job: string, batch: string) {
    exists id :: id in runs && runs[id].jobID == job && runs[id].batchID == batch && runs[id].state == Succeeded
  }

  predicate Ready(r: Run, now: Time) {
    || (r.state == Pending && r.scheduledFor <= now)
    || (r.state == Running && r.leaseExpiry < now)
  }

  /** A claimed run as `ClaimDue` stores it. */
  function Leased(r: Run, worker: string, now: Time, lease: nat): Run {
    r.(state := Running, worker := worker, leaseExpiry := now + lease, updatedAt := now,
       startedAt := if r.startedAt.None? then Some(now) else r.startedAt)
  }

  function NewRun(id: string, job: string, batch: string, attempt: nat, at: Time, created: Time): Run {
    Run(id, job, batch, Pending, attempt, at, None, None, 0, "", "", created, created)
  }

  function Finished(r: Run, state: RunState, finish: Time, error: string): Run {
    r.(state := state, finishedAt := Some(finish), updatedAt := finish, error := error)
  }

  // Steps.

  ghost predicate FreshIds(s: State, id: string, batch: string) {
    id !in s.runs && batch !in s.root
  }

  /** The new attempt `scheduleRetry` creates after a failure at `finish`. */
  function NextAttempt(failed: Run, finish: Time, id: string, delay: nat): Run {
    NewRun(id, failed.jobID, failed.batchID, failed.attempt + 1, finish + delay, finish)
  }

  ghost predicate Enabled(c: Config, s: State, l: Label) {
    match l
    case Advance(to) => s.now <= to
    case CheckSlot(process, job, fireAt) =>
      && job in c.jobs && process !in s.slots
      && forall id | id in s.runs :: !(s.runs[id].jobID == job && s.runs[id].scheduledFor == fireAt)
    case CreateRoot(process, id, batch) =>
      process in s.slots && s.slots[process].0 in c.jobs && FreshIds(s, id, batch)
    case DropSlot(process) => process in s.slots
    case Trigger(job, id, batch, at) => job in c.jobs && FreshIds(s, id, batch) && at <= s.now
    case Claim(process, id, worker, task, at) =>
      id in s.runs && at <= s.now && Ready(s.runs[id], at) && task !in s.tasks
    case Execute(t, ok) => t in s.tasks && s.tasks[t].phase.Executing?
    case Abandon(t) => t in s.tasks && s.tasks[t].Unrecorded()
    case RecordSuccess(t) => t in s.tasks && s.tasks[t].phase.Returned? && s.tasks[t].phase.ok
    case RecordFailure(t, error) =>
      && t in s.tasks && s.tasks[t].phase.Returned? && !s.tasks[t].phase.ok
      && s.tasks[t].run.attempt < c.LastAttempt(s.tasks[t].run.jobID)
    case RecordDead(t, error) =>
      && t in s.tasks && s.tasks[t].phase.Returned? && !s.tasks[t].phase.ok
      && s.tasks[t].run.attempt >= c.LastAttempt(s.tasks[t].run.jobID)
    case CreateRetry(t, id, delay) =>
      && t in s.tasks && s.tasks[t].phase.Retrying? && s.tasks[t].run.jobID in c.jobs
      && id !in s.runs && CanDelay(c.jobs[s.tasks[t].run.jobID].backoff, s.tasks[t].run.attempt, delay)
    case Lock(t) =>
      && t in s.tasks && s.tasks[t].phase.Waiting?
      && forall u | u in s.tasks && s.tasks[u].owner == s.tasks[t].owner :: !s.tasks[u].phase.Enqueueing?
    case Inspect(t) =>
      && t in s.tasks && s.tasks[t].phase.Enqueueing? && s.tasks[t].phase.todo != []
      && !s.tasks[t].phase.check.Create?
    case CreateDependent(t, id) =>
      && t in s.tasks && s.tasks[t].phase.Enqueueing? && s.tasks[t].phase.todo != []
      && s.tasks[t].phase.check.Create? && id !in s.runs
    case Unlock(t) => t in s.tasks && s.tasks[t].phase.Enqueueing? && s.tasks[t].phase.todo == []
  }

  /** `enqueueDependents` goes on to the next job of its list. */
  ghost function PassedOver(p: Phase): Phase
    requires p.Enqueueing? && p.todo != []
  {
    Enqueueing(p.todo[1..], p.at, Begin)
  }

  /** The run `enqueueDependents` creates for the first job of its list. */
  ghost function Dependent(task: Task, id: string): Run
    requires task.phase.Enqueueing? && task.phase.todo != []
  {
    NewRun(id, task.phase.todo[0], task.run.batchID, 0, task.phase.at, task.phase.at)
  }

  /** The next point of `enqueueDependents` for the first job of the list, after one query. */
  ghost function Inspected(c: Config, runs: map<string, Run>, completed: Run, p: Phase): Phase
    requires p.Enqueueing? && p.todo != []
  {
    var job := p.todo[0];
    var next := PassedOver(p);
    match p.check
    case Begin => if completed.jobID in c.Deps(job) then p.(check := Dep(0)) else next
    case Dep(k) =>
      if k >= |c.Deps(job)| then p.(check := Existing)
      else if HasSucceeded(runs, c.Deps(job)[k], completed.batchID) then p.(check := Dep(k + 1))
      else next
    case Existing => if HasRun(runs, job, completed.batchID) then next else p.(check := Create)
    case Create => p
  }

  ghost function AddRun(s: State, r: Run): State {
    s.(runs := s.runs[r.id := r])
  }

  ghost function AddBatch(s: State, r: Run): State {
    AddRun(s, r).(root := s.root[r.batchID := r.jobID])
  }

  ghost function SetTask(s: State, t: nat, task: Task): State {
    s.(tasks := s.tasks[t := task])
  }

  ghost function EndTask(s: State, t: nat): State {
    s.(tasks := s.tasks - {t})
  }

  ghost function Count(executions: map<string, nat>, id: string): nat {
    if id in executions then executions[id] else 0
  }

  ghost function Apply(c: Config, s: State, l: Label): State
    requires Enabled(c, s, l)
  {
    match l
    case Advance(to) => s.(now := to)
    case CheckSlot(process, job, fireAt) => s.(slots := s.slots[process := (job, fireAt)])
    case CreateRoot(process, id, batch) =>
      var (job, fireAt) := s.slots[process];
      AddBatch(s, NewRun(id, job, batch, 0, fireAt, fireAt)).(slots := s.slots - {process}, cron := s.cron + {id})
    case DropSlot(process) => s.(slots := s.slots - {process})
    case Trigger(job, id, batch, at) => AddBatch(s, NewRun(id, job, batch, 0, at, at))
    case Claim(process, id, worker, task, at) =>
      var r := Leased(s.runs[id], worker, at, c.lease);
      SetTask(s.(runs := s.runs[id := r]), task, Task(r, Executing, process))
    case Execute(t, ok) =>
      var id := s.tasks[t].run.id;
      SetTask(s, t, s.tasks[t].(phase := Returned(ok, s.now)))
        .(executions := s.executions[id := Count(s.executions, id) + 1])
    case Abandon(t) => EndTask(s, t)
    case RecordSuccess(t) =>
      var r := Finished(s.tasks[t].run, Succeeded, s.tasks[t].phase.finish, "");
      SetTask(s.(runs := s.runs[r.id := r]), t, s.tasks[t].(run := r, phase := Waiting))
    case RecordFailure(t, error) =>
      var r := Finished(s.tasks[t].run, Failed, s.tasks[t].phase.finish, error);
      SetTask(s.(runs := s.runs[r.id := r]), t,
              s.tasks[t].(run := r, phase := Retrying(s.tasks[t].phase.finish)))
    case RecordDead(t, error) =>
      var r := Finished(s.tasks[t].run, Dead, s.tasks[t].phase.finish, error);
      EndTask(s.(runs := s.runs[r.id := r]), t)
    case CreateRetry(t, id, delay) =>
      EndTask(AddRun(s, NextAttempt(s.tasks[t].run, s.tasks[t].phase.finish, id, delay)), t)
    case Lock(t) => SetTask(s, t, s.tasks[t].(phase := Enqueueing(c.listing, s.now, Begin)))
    case Inspect(t) =>
      SetTask(s, t, s.tasks[t].(phase := Inspected(c, s.runs, s.tasks[t].run, s.tasks[t].phase)))
    case CreateDependent(t, id) =>
      SetTask(AddRun(s, Dependent(s.tasks[t], id)), t, s.tasks[t].(phase := PassedOver(s.tasks[t].phase)))
    case Unlock(t) => EndTask(s, t)
  }

  // Runs of the system.

  predicate Initial(s: State) {
    && s.runs == map[] && s.tasks == map[] && s.slots == map[] && s.root == map[]
    && s.executions == map[] && s.cron == {}
  }

  /** The label writes an outcome. */
  predicate Records(l: Label) {
    l.RecordSuccess? || l.RecordFailure? || l.RecordDead?
  }

  /** An outcome is only written while the run is still as this claim left it. */
  ghost predicate Fenced(s: State, l: Label) {
    Records(l) && l.task in s.tasks && s.tasks[l.task].run.id in s.runs ==>
      s.runs[s.tasks[l.task].run.id] == s.tasks[l.task].run
  }

  /** An outcome is written no later than the claim's lease expires. */
  ghost predicate Timely(s: State, l: Label) {
    Records(l) && l.task in s.tasks ==> s.now <= s.tasks[l.task].run.leaseExpiry
  }

  /** A `ClaimDue` call starts only when no earlier claim is still being worked on. */
  ghost predicate Barrier(s: State, l: Label) {
    l.Claim? ==>
      forall t | t in s.tasks && s.tasks[t].Unrecorded() ::
        s.tasks[t].run.worker == l.worker && s.tasks[t].run.updatedAt == l.at
  }

  /** The step is one of the first scheduler process. */
  predicate Local(l: Label) {
    l.Claim? || l.CheckSlot? || l.CreateRoot? || l.DropSlot? ==> l.process == 0
  }

  /** All goroutines and dispatchers belong to one scheduler process. */
  ghost predicate OneProcess(labels: seq<Label>) {
    forall i | 0 <= i < |labels| :: Local(labels[i])
  }

  /** What the mutex and the single dispatcher of one process guarantee. */
  ghost predicate Alone(s: State, l: Label) {
    && (l.Lock? ==> forall u | u in s.tasks :: !s.tasks[u].phase.Enqueueing?)
    && (l.CheckSlot? ==> s.slots == map[])
  }

  /** What keeps outcomes from being written by goroutines that lost their lease, if anything does. */
  datatype Discipline = Fencing | Timeliness | DrainBarrier | Unrestricted

  ghost predicate Obeys(d: Discipline, s: State, l: Label) {
    match d
    case Fencing => Fenced(s, l)
    case Timeliness => Timely(s, l)
    case DrainBarrier => Barrier(s, l)
    case Unrestricted => true
  }

  /** The labels can be taken one after the other from s, all obeying the discipline. */
  ghost predicate Legal(c: Config, d: Discipline, s: State, labels: seq<Label>)
    decreases |labels|, 0
  {
    labels == [] ||
    (var init, last := labels[..|labels| - 1], labels[|labels| - 1];
     Legal(c, d, s, init) && Enabled(c, Exec(c, d, s, init), last) && Obeys(d, Exec(c, d, s, init), last))
  }

  ghost function Exec(c: Config, d: Discipline, s: State, labels: seq<Label>): State
    requires Legal(c, d, s, labels)
    decreases |labels|, 1
  {
    if labels == [] then s
    else Apply(c, Exec(c, d, s, labels[..|labels| - 1]), labels[|labels| - 1])
  }

  lemma OneStep(c: Config, d: Discipline, s: State, labels: seq<Label>, l: Label)
    requires Legal(c, d, s, labels) && Enabled(c, Exec(c, d, s, labels), l) && Obeys(d, Exec(c, d, s, labels), l)
    ensures Legal(c, d, s, labels + [l])
    ensures Exec(c, d, s, labels + [l]) == Apply(c, Exec(c, d, s, labels), l)
  {
  }
}
