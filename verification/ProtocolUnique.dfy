/** What one scheduler process adds: its mutex and its claims keep attempts from being doubled. */
module ProtocolUnique {
  import opened JobModel
  import opened Protocol
  import opened ProtocolInvariant
  import opened ProtocolLeases
  import opened ProtocolSteps

  /** No two runs of a job in a batch have the same attempt number. */
  ghost predicate AttemptsUnique(s: State) {
    forall a, b | a in s.runs && b in s.runs && Siblings(s.runs[a], s.runs[b])
                  && s.runs[a].attempt == s.runs[b].attempt :: a == b
  }

  /** At most one goroutine is inside `enqueueDependents`. */
  ghost predicate MutexHeldOnce(s: State) {
    forall t, u | t in s.tasks && u in s.tasks && s.tasks[t].phase.Enqueueing? && s.tasks[u].phase.Enqueueing? :: t == u
  }

  /** The goroutine has found the first job of its list missing in the batch. */
  predicate Creating(task: Task) {
    task.phase.Enqueueing? && task.phase.todo != [] && task.phase.check == Create
  }

  /** The run a goroutine is about to create is not there yet. */
  ghost predicate NothingYet(s: State, task: Task) {
    && (task.phase.Retrying? ==> !HasAttempt(s.runs, task.run, task.run.attempt + 1))
    && (Creating(task) ==> !HasRun(s.runs, task.phase.todo[0], task.run.batchID))
  }

  ghost predicate UniqueInv(s: State) {
    AttemptsUnique(s) && MutexHeldOnce(s) && forall t | t in s.tasks :: NothingYet(s, s.tasks[t])
  }

  // Runs are kept and at most one is new.

  ghost predicate KeepsRuns(s: State, s': State) {
    forall id | id in s.runs :: id in s'.runs && SameRun(s.runs[id], s'.runs[id])
  }

  ghost predicate IsNew(s: State, s': State, id: string) {
    id in s'.runs && id !in s.runs
  }

  ghost predicate OneNew(s: State, s': State) {
    forall a, b | IsNew(s, s', a) && IsNew(s, s', b) :: a == b
  }

  lemma StepAddsOne(c: Config, s: State, l: Label)
    requires LeaseInv(s) && Enabled(c, s, l)
    ensures KeepsRuns(s, Apply(c, s, l)) && OneNew(s, Apply(c, s, l))
  {
    var s' := Apply(c, s, l);
    assert WriterOk(s, l);
    forall id | id in s.runs
      ensures id in s'.runs && SameRun(s.runs[id], s'.runs[id])
    {
      RunStays(c, s, l, id);
    }
    forall a, b | IsNew(s, s', a) && IsNew(s, s', b)
      ensures a == b
    {
      OneAtATime(c, s, l, a, b);
    }
  }

  /** The new run is no other attempt, and nobody else is about to create it. */
  ghost predicate NotInTheWay(r: Run, task: Task) {
    && (task.phase.Retrying? ==> !(Siblings(r, task.run) && r.attempt == task.run.attempt + 1))
    && (Creating(task) ==> !(r.jobID == task.phase.todo[0] && r.batchID == task.run.batchID))
  }

  lemma AttemptsStay(s: State, s': State)
    requires AttemptsUnique(s) && KeepsRuns(s, s') && OneNew(s, s')
    requires forall id | IsNew(s, s', id) :: !HasAttempt(s.runs, s'.runs[id], s'.runs[id].attempt)
    ensures AttemptsUnique(s')
  {
    forall a, b | a in s'.runs && b in s'.runs && Siblings(s'.runs[a], s'.runs[b])
                  && s'.runs[a].attempt == s'.runs[b].attempt
      ensures a == b
    {
      if a in s.runs && b in s.runs {
        assert Siblings(s.runs[a], s.runs[b]);
      } else if a in s.runs || b in s.runs {
        var kept, added := if a in s.runs then a else b, if a in s.runs then b else a;
        assert IsNew(s, s', added) && Siblings(s.runs[kept], s'.runs[added]);
        assert HasAttempt(s.runs, s'.runs[added], s'.runs[added].attempt);
      } else {
        assert IsNew(s, s', a) && IsNew(s, s', b);
      }
    }
  }

  lemma NoAttemptStays(s: State, s': State, x: Run, n: nat)
    requires KeepsRuns(s, s') && !HasAttempt(s.runs, x, n)
    requires forall id | IsNew(s, s', id) :: !(Siblings(s'.runs[id], x) && s'.runs[id].attempt == n)
    ensures !HasAttempt(s'.runs, x, n)
  {
    forall p | p in s'.runs
      ensures !(Siblings(s'.runs[p], x) && s'.runs[p].attempt == n)
    {
      if p in s.runs {
        assert Siblings(s.runs[p], x) <==> Siblings(s'.runs[p], x);
      } else {
        assert IsNew(s, s', p);
      }
    }
  }

  lemma NoRunStays(s: State, s': State, job: string, batch: string)
    requires KeepsRuns(s, s') && !HasRun(s.runs, job, batch)
    requires forall id | IsNew(s, s', id) :: !(s'.runs[id].jobID == job && s'.runs[id].batchID == batch)
    ensures !HasRun(s'.runs, job, batch)
  {
    forall p | p in s'.runs
      ensures !(s'.runs[p].jobID == job && s'.runs[p].batchID == batch)
    {
      if p !in s.runs {
        assert IsNew(s, s', p);
      }
    }
  }

  lemma NothingYetStays(s: State, s': State, task: Task)
    requires NothingYet(s, task) && KeepsRuns(s, s')
    requires forall id | IsNew(s, s', id) :: NotInTheWay(s'.runs[id], task)
    ensures NothingYet(s', task)
  {
    if task.phase.Retrying? {
      NoAttemptStays(s, s', task.run, task.run.attempt + 1);
    }
    if Creating(task) {
      NoRunStays(s, s', task.phase.todo[0], task.run.batchID);
    }
  }

  // What the new run is.

  /** The run the step creates fits: it is nobody's attempt yet, and no other goroutine is about to create it. */
  ghost predicate Fits(s: State, r: Run, creator: set<nat>) {
    && !HasAttempt(s.runs, r, r.attempt)
    && forall u | u in s.tasks && u !in creator :: NotInTheWay(r, s.tasks[u])
  }

  lemma NewBatchFits(c: Config, s: State, r: Run)
    requires RunsTyped(c, s) && TasksOk(c, s) && r.batchID !in s.root
    ensures Fits(s, r, {})
  {
    forall u | u in s.tasks
      ensures NotInTheWay(r, s.tasks[u])
    {
      assert TaskOk(c, s, s.tasks[u]);
    }
  }

  lemma RetryFits(c: Config, s: State, t: nat, r: Run)
    requires TasksOk(c, s) && ClaimsDistinct(s) && RunsTyped(c, s) && UniqueInv(s)
    requires t in s.tasks && s.tasks[t].phase.Retrying? && Siblings(r, s.tasks[t].run)
    requires r.attempt == s.tasks[t].run.attempt + 1
    ensures Fits(s, r, {t})
  {
    assert NothingYet(s, s.tasks[t]) && TaskOk(c, s, s.tasks[t]);
    forall u | u in s.tasks && u != t
      ensures NotInTheWay(r, s.tasks[u])
    {
      assert TaskOk(c, s, s.tasks[u]) && NothingYet(s, s.tasks[u]);
      if s.tasks[u].phase.Retrying? && Siblings(r, s.tasks[u].run) && r.attempt == s.tasks[u].run.attempt + 1 {
        SameAttempt(s, t, u);
      }
    }
  }

  lemma SameAttempt(s: State, t: nat, u: nat)
    requires AttemptsUnique(s) && t in s.tasks && u in s.tasks
    requires TaskHasRun(s, s.tasks[t]) && TaskHasRun(s, s.tasks[u])
    requires Siblings(s.tasks[t].run, s.tasks[u].run) && s.tasks[t].run.attempt == s.tasks[u].run.attempt
    ensures s.tasks[t].run.id == s.tasks[u].run.id
  {
    var a, b := s.tasks[t].run.id, s.tasks[u].run.id;
    assert Siblings(s.runs[a], s.runs[b]) && s.runs[a].id == a;
  }

  lemma DependentFits(c: Config, s: State, t: nat, r: Run)
    requires TasksOk(c, s) && UniqueInv(s)
    requires t in s.tasks && Creating(s.tasks[t])
    requires r.jobID == s.tasks[t].phase.todo[0] && r.batchID == s.tasks[t].run.batchID && r.attempt == 0
    ensures Fits(s, r, {t})
  {
    assert NothingYet(s, s.tasks[t]);
    forall u | u in s.tasks && u != t
      ensures NotInTheWay(r, s.tasks[u])
    {
      assert TaskOk(c, s, s.tasks[u]);
    }
  }

  /** Which goroutine creates a run in this step, if one does. */
  function Creator(l: Label): set<nat> {
    if l.CreateRetry? || l.CreateDependent? then {l.task} else {}
  }

  lemma NewRunFits(c: Config, s: State, l: Label, id: string)
    requires Inv(c, s) && UniqueInv(s) && WriterOk(s, l) && Enabled(c, s, l) && IsNew(s, Apply(c, s, l), id)
    ensures Fits(s, Apply(c, s, l).runs[id], Creator(l))
  {
    var r := Apply(c, s, l).runs[id];
    var how := HowCreated(c, s, l, id);
    if l.CreateRetry? {
      RetryFits(c, s, l.task, r);
    } else if l.CreateDependent? {
      DependentFits(c, s, l.task, r);
    } else {
      NewBatchFits(c, s, r);
    }
  }

  lemma HowCreated(c: Config, s: State, l: Label, id: string) returns (r: Run)
    requires WriterOk(s, l) && Enabled(c, s, l) && IsNew(s, Apply(c, s, l), id)
    ensures r == Apply(c, s, l).runs[id] && Creates(l)
    ensures l.CreateRetry? ==>
      && s.tasks[l.task].phase.Retrying?
      && Siblings(r, s.tasks[l.task].run) && r.attempt == s.tasks[l.task].run.attempt + 1
    ensures l.CreateDependent? ==>
      && Creating(s.tasks[l.task]) && r.attempt == 0
      && r.jobID == s.tasks[l.task].phase.todo[0] && r.batchID == s.tasks[l.task].run.batchID
    ensures l.CreateRoot? || l.Trigger? ==> r.batchID !in s.root
  {
    WritesReturn(c, s, l);
    r := Apply(c, s, l).runs[id];
  }

  // The goroutines.

  /** The goroutine that takes the step. */
  ghost predicate Acts(l: Label, t: nat) {
    && !l.Advance? && !l.CheckSlot? && !l.CreateRoot? && !l.DropSlot? && !l.Trigger?
    && l.task == t
  }

  lemma OthersStay(c: Config, s: State, l: Label, t: nat)
    requires Enabled(c, s, l) && t in Apply(c, s, l).tasks && !Acts(l, t)
    ensures t in s.tasks && Apply(c, s, l).tasks[t] == s.tasks[t]
  {
  }

  lemma EntersByLock(c: Config, s: State, l: Label, t: nat)
    requires Enabled(c, s, l) && t in Apply(c, s, l).tasks && Apply(c, s, l).tasks[t].phase.Enqueueing?
    ensures (t in s.tasks && s.tasks[t].phase.Enqueueing?) || (l.Lock? && l.task == t)
  {
  }

  lemma MutexStays(c: Config, s: State, l: Label)
    requires MutexHeldOnce(s) && Enabled(c, s, l) && Alone(s, l)
    ensures MutexHeldOnce(Apply(c, s, l))
  {
    var s' := Apply(c, s, l);
    forall t, u | t in s'.tasks && u in s'.tasks && s'.tasks[t].phase.Enqueueing? && s'.tasks[u].phase.Enqueueing?
      ensures t == u
    {
      EntersByLock(c, s, l, t);
      EntersByLock(c, s, l, u);
    }
  }

  /** A run that has not failed has no successor. */
  lemma NoSuccessor(s: State, id: string)
    requires AttemptsUnique(s) && RetriesFollow(s)
    requires id in s.runs && s.runs[id].state != Failed
    ensures !HasAttempt(s.runs, s.runs[id], s.runs[id].attempt + 1)
  {
  }

  lemma InspectFinds(c: Config, s: State, l: Label)
    requires l.Inspect? && Enabled(c, s, l)
    ensures NothingYet(Apply(c, s, l), Apply(c, s, l).tasks[l.task])
  {
  }

  /** A goroutine whose run has just failed finds no retry. */
  lemma FailureFinds(s: State, s': State, id: string, task: Task)
    requires id in s.runs && !HasAttempt(s.runs, s.runs[id], s.runs[id].attempt + 1)
    requires KeepsRuns(s, s') && forall a :: !IsNew(s, s', a)
    requires task.phase.Retrying? && Siblings(task.run, s.runs[id]) && task.run.attempt == s.runs[id].attempt
    ensures NothingYet(s', task)
  {
    SiblingsShareAttempts(s.runs, task.run, s.runs[id], task.run.attempt + 1);
    NoAttemptStays(s, s', task.run, task.run.attempt + 1);
  }

  lemma SiblingsShareAttempts(runs: map<string, Run>, x: Run, y: Run, n: nat)
    requires Siblings(x, y)
    ensures HasAttempt(runs, x, n) <==> HasAttempt(runs, y, n)
  {
  }

  lemma FailingRun(c: Config, s: State, l: Label)
    requires WriterOk(s, l) && l.RecordFailure? && Enabled(c, s, l) && Fenced(s, l)
    ensures var id, task := s.tasks[l.task].run.id, Apply(c, s, l).tasks[l.task];
      && id in s.runs && s.runs[id].state != Failed && task.phase.Retrying?
      && Siblings(task.run, s.runs[id]) && task.run.attempt == s.runs[id].attempt
  {
  }

  /** Other steps leave their goroutine in a phase that promises nothing. */
  lemma ActorPromisesNothing(c: Config, s: State, l: Label, t: nat)
    requires Enabled(c, s, l) && Acts(l, t) && t in Apply(c, s, l).tasks && !l.Inspect? && !l.RecordFailure?
    ensures var task := Apply(c, s, l).tasks[t]; !task.phase.Retrying? && !Creating(task)
  {
  }

  lemma OutcomesAddNothing(c: Config, s: State, l: Label)
    requires WriterOk(s, l) && Enabled(c, s, l) && Records(l)
    ensures forall id :: !IsNew(s, Apply(c, s, l), id)
  {
    WritesReturn(c, s, l);
  }

  lemma ActorFinds(c: Config, s: State, l: Label, t: nat)
    requires AttemptsUnique(s) && RetriesFollow(s) && WriterOk(s, l) && Enabled(c, s, l) && Fenced(s, l)
    requires KeepsRuns(s, Apply(c, s, l)) && Acts(l, t) && t in Apply(c, s, l).tasks
    ensures NothingYet(Apply(c, s, l), Apply(c, s, l).tasks[t])
  {
    if l.Inspect? {
      InspectFinds(c, s, l);
    } else if l.RecordFailure? {
      OutcomesAddNothing(c, s, l);
      FailingRun(c, s, l);
      NoSuccessor(s, s.tasks[l.task].run.id);
      FailureFinds(s, Apply(c, s, l), s.tasks[l.task].run.id, Apply(c, s, l).tasks[t]);
    } else {
      ActorPromisesNothing(c, s, l, t);
    }
  }

  lemma OtherFinds(c: Config, s: State, l: Label, t: nat)
    requires Enabled(c, s, l) && KeepsRuns(s, Apply(c, s, l)) && t in Apply(c, s, l).tasks && !Acts(l, t)
    requires t in s.tasks ==> NothingYet(s, s.tasks[t])
    requires forall id | IsNew(s, Apply(c, s, l), id) :: Fits(s, Apply(c, s, l).runs[id], Creator(l))
    ensures NothingYet(Apply(c, s, l), Apply(c, s, l).tasks[t])
  {
    OthersStay(c, s, l, t);
    assert t !in Creator(l);
    NothingYetStays(s, Apply(c, s, l), s.tasks[t]);
  }

  lemma UniqueStep(c: Config, s: State, l: Label)
    requires Inv(c, s) && LeaseInv(s) && UniqueInv(s) && Enabled(c, s, l) && Alone(s, l) && Fenced(s, l)
    ensures UniqueInv(Apply(c, s, l))
  {
    var s' := Apply(c, s, l);
    StepAddsOne(c, s, l);
    assert WriterOk(s, l);
    forall id | IsNew(s, s', id)
      ensures Fits(s, s'.runs[id], Creator(l))
    {
      NewRunFits(c, s, l, id);
    }
    AttemptsStay(s, s');
    MutexStays(c, s, l);
    forall t | t in s'.tasks
      ensures NothingYet(s', s'.tasks[t])
    {
      if Acts(l, t) {
        ActorFinds(c, s, l, t);
      } else {
        OtherFinds(c, s, l, t);
      }
    }
  }

  // One scheduler process.

  /** Every goroutine and every checked slot belongs to the first process. */
  ghost predicate AllMine(s: State) {
    (forall t | t in s.tasks :: s.tasks[t].owner == 0) && s.slots.Keys <= {0}
  }

  lemma LocalIsAlone(c: Config, s: State, l: Label)
    requires AllMine(s) && Enabled(c, s, l) && Local(l)
    ensures Alone(s, l)
  {
  }

  lemma StaysMine(c: Config, s: State, l: Label)
    requires AllMine(s) && Enabled(c, s, l) && Local(l)
    ensures AllMine(Apply(c, s, l))
  {
  }

  /** No attempt is doubled in a fenced run of one process. */
  lemma {:induction false} UniqueReachable(c: Config, s: State, labels: seq<Label>)
    requires c.Valid() && Initial(s) && Legal(c, Fencing, s, labels) && OneProcess(labels)
    ensures UniqueInv(Exec(c, Fencing, s, labels)) && AllMine(Exec(c, Fencing, s, labels))
  {
    if labels != [] {
      var init, last := labels[..|labels| - 1], labels[|labels| - 1];
      UniqueReachable(c, s, init);
      Reachable(c, s, init);
      LeasesReachable(c, Fencing, s, init);
      var before := Exec(c, Fencing, s, init);
      LocalIsAlone(c, before, last);
      StaysMine(c, before, last);
      UniqueStep(c, before, last);
    }
  }
}
