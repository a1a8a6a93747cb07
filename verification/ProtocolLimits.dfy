/** Why a discipline is needed: `UpdateRun` itself does not fence outcomes. */
module ProtocolLimits {
  import opened CronSchedule
  import opened JobModel
  import opened Protocol
  import opened ProtocolInvariant
  import opened ProtocolLeases
  import opened ProtocolSlots

  /** Two goroutines hold copies of one run, the first from a lease that has expired. */
  ghost predicate TwoHolders(c: Config, s: State, id: string, job: string) {
    && 0 in s.tasks && 1 in s.tasks && s.tasks[0].phase == Executing && s.tasks[1].phase == Executing
    && s.tasks[0].run.id == s.tasks[1].run.id == id && s.tasks[0].run.jobID == s.tasks[1].run.jobID == job
    && c.LastAttempt(job) == 0
  }

  /** A run can be claimed again while its first claimer is still at work. */
  lemma ClaimTwice(c: Config, s0: State, job: string, id: string, batch: string) returns (labels: seq<Label>)
    requires Initial(s0) && job in c.jobs && c.LastAttempt(job) == 0
    ensures Legal(c, Unrestricted, s0, labels) && TwoHolders(c, Exec(c, Unrestricted, s0, labels), id, job)
  {
    var late := s0.now + c.lease + 1;
    var t := Trigger(job, id, batch, s0.now);
    OneStep(c, Unrestricted, s0, [], t);
    OneStep(c, Unrestricted, s0, [] + [t], Claim(0, id, "first", 0, s0.now));
    labels := [] + [t] + [Claim(0, id, "first", 0, s0.now)];
    OneStep(c, Unrestricted, s0, labels, Advance(late));
    OneStep(c, Unrestricted, s0, labels + [Advance(late)], Claim(0, id, "second", 1, late));
    labels := labels + [Advance(late)] + [Claim(0, id, "second", 1, late)];
  }

  /**
   Without a discipline a final outcome can be overwritten: from every empty state, and for
   every job without retries, some run of the system takes a succeeded run to dead.
   */
  lemma LateOutcomeOverwrites(c: Config, s0: State, job: string, id: string, batch: string)
      returns (labels: seq<Label>, n: nat)
    requires Initial(s0) && job in c.jobs && c.LastAttempt(job) == 0
    ensures n <= |labels| && Legal(c, Unrestricted, s0, labels) && Legal(c, Unrestricted, s0, labels[..n])
    ensures var runs := Exec(c, Unrestricted, s0, labels[..n]).runs; id in runs && runs[id].state == Succeeded
    ensures var runs := Exec(c, Unrestricted, s0, labels).runs; id in runs && runs[id].state == Dead
  {
    var claims := ClaimTwice(c, s0, job, id, batch);
    OneStep(c, Unrestricted, s0, claims, Execute(0, true));
    var first := claims + [Execute(0, true)];
    OneStep(c, Unrestricted, s0, first, RecordSuccess(0));
    first := first + [RecordSuccess(0)];
    OneStep(c, Unrestricted, s0, first, Execute(1, false));
    OneStep(c, Unrestricted, s0, first + [Execute(1, false)], RecordDead(1, ""));
    labels, n := first + [Execute(1, false)] + [RecordDead(1, "")], |first|;
    assert labels[..n] == first;
  }

  /** Two dispatchers have found the slot free and not yet written. */
  ghost predicate BothChecked(s: State, job: string, fireAt: Time) {
    && s.runs == map[] && s.root == map[] && s.cron == {}
    && 0 in s.slots && 1 in s.slots && s.slots[0] == s.slots[1] == (job, fireAt)
  }

  lemma CheckTwice(c: Config, d: Discipline, s0: State, job: string, fireAt: Time) returns (labels: seq<Label>)
    requires Initial(s0) && job in c.jobs
    ensures Legal(c, d, s0, labels) && BothChecked(Exec(c, d, s0, labels), job, fireAt)
  {
    var first, second := CheckSlot(0, job, fireAt), CheckSlot(1, job, fireAt);
    CheckFree(c, s0, first);
    OneStep(c, d, s0, [], first);
    CheckFree(c, Apply(c, s0, first), second);
    OneStep(c, d, s0, [] + [first], second);
    labels := [] + [first] + [second];
  }

  lemma CheckFree(c: Config, s: State, l: Label)
    requires l.CheckSlot? && l.job in c.jobs && l.process !in s.slots && s.runs == map[]
    ensures Enabled(c, s, l) && Apply(c, s, l) == s.(slots := s.slots[l.process := (l.job, l.fireAt)])
    ensures forall d :: Obeys(d, s, l)
  {
  }

  lemma CreateCron(c: Config, s: State, l: Label, job: string, fireAt: Time)
    requires l.CreateRoot? && Enabled(c, s, l) && s.slots[l.process] == (job, fireAt)
    ensures var s' := Apply(c, s, l);
      && IsCronRun(s', l.id, job, fireAt)
      && s'.runs.Keys == s.runs.Keys + {l.id} && s'.root.Keys == s.root.Keys + {l.batch}
      && (forall id | IsCronRun(s, id, job, fireAt) :: IsCronRun(s', id, job, fireAt))
      && forall p | p in s.slots && p != l.process :: p in s'.slots && s'.slots[p] == s.slots[p]
  {
  }

  /** Two scheduler processes can both create a run for a slot: the check and the write are not one step. */
  lemma TwoDispatchersTwoRuns(c: Config, d: Discipline, s0: State, job: string, fireAt: Time, a: string, b: string)
      returns (labels: seq<Label>)
    requires Initial(s0) && job in c.jobs && a != b
    ensures Legal(c, d, s0, labels)
    ensures var s := Exec(c, d, s0, labels); IsCronRun(s, a, job, fireAt) && IsCronRun(s, b, job, fireAt)
  {
    labels := CheckTwice(c, d, s0, job, fireAt);
    var first, second := CreateRoot(0, a, a), CreateRoot(1, b, b);
    var s := Exec(c, d, s0, labels);
    CreateCron(c, s, first, job, fireAt);
    OneStep(c, d, s0, labels, first);
    labels := labels + [first];
    CreateCron(c, Apply(c, s, first), second, job, fireAt);
    OneStep(c, d, s0, labels, second);
    labels := labels + [second];
  }

  // Exactly when outcomes are final.

  /** The step would write its outcome to this run. */
  ghost predicate WritesTo(s: State, l: Label, id: string) {
    Records(l) && l.task in s.tasks && s.tasks[l.task].run.id == id
  }

  function Outcome(l: Label): RunState
    requires Records(l)
  {
    if l.RecordSuccess? then Succeeded else if l.RecordFailure? then Failed else Dead
  }

  /** The step writes no outcome to a run that has one. */
  ghost predicate FindsOpen(s: State, l: Label) {
    forall id | id in s.runs && WritesTo(s, l, id) :: !Over(s.runs[id])
  }

  /** The step writes no outcome to a run that has a different one. */
  ghost predicate FindsSame(s: State, l: Label) {
    forall id | id in s.runs && WritesTo(s, l, id) && Over(s.runs[id]) :: s.runs[id].state == Outcome(l)
  }

  /** Runs that are over are as they were. */
  ghost predicate LeavesRuns(s: State, s': State) {
    forall id | id in s.runs && Over(s.runs[id]) :: id in s'.runs && s'.runs[id] == s.runs[id]
  }

  /** Runs that are over are in the state they were in. */
  ghost predicate LeavesStates(s: State, s': State) {
    forall id | id in s.runs && Over(s.runs[id]) :: id in s'.runs && s'.runs[id].state == s.runs[id].state
  }

  lemma WrittenState(c: Config, s: State, l: Label)
    requires Records(l) && Enabled(c, s, l)
    ensures var id := s.tasks[l.task].run.id;
      id in Apply(c, s, l).runs && Apply(c, s, l).runs[id].state == Outcome(l)
  {
  }

  lemma StepLeavesIff(c: Config, s: State, l: Label)
    requires WriterOk(s, l) && Enabled(c, s, l)
    ensures LeavesRuns(s, Apply(c, s, l)) <==> FindsOpen(s, l)
    ensures LeavesStates(s, Apply(c, s, l)) <==> FindsSame(s, l)
  {
    WritesReturn(c, s, l);
    if Records(l) {
      WrittenRun(c, s, l);
      WrittenState(c, s, l);
    }
    forall id | id in s.runs && Over(s.runs[id]) && !WritesTo(s, l, id)
      ensures id in Apply(c, s, l).runs && Apply(c, s, l).runs[id] == s.runs[id]
    {
      Untouched(c, s, l, id);
    }
  }

  // The same over whole runs of the system.

  ghost predicate RunsKept(c: Config, s0: State, labels: seq<Label>, n: nat, m: nat)
    requires Legal(c, Unrestricted, s0, labels) && n <= m <= |labels|
  {
    LeavesRuns(At(c, Unrestricted, s0, labels, n), At(c, Unrestricted, s0, labels, m))
  }

  ghost predicate StatesKept(c: Config, s0: State, labels: seq<Label>, n: nat, m: nat)
    requires Legal(c, Unrestricted, s0, labels) && n <= m <= |labels|
  {
    LeavesStates(At(c, Unrestricted, s0, labels, n), At(c, Unrestricted, s0, labels, m))
  }

  ghost predicate OpenAt(c: Config, s0: State, labels: seq<Label>, n: nat)
    requires Legal(c, Unrestricted, s0, labels) && n < |labels|
  {
    FindsOpen(At(c, Unrestricted, s0, labels, n), labels[n])
  }

  ghost predicate SameAt(c: Config, s0: State, labels: seq<Label>, n: nat)
    requires Legal(c, Unrestricted, s0, labels) && n < |labels|
  {
    FindsSame(At(c, Unrestricted, s0, labels, n), labels[n])
  }

  /** No outcome is ever written to a run that has one. */
  ghost predicate AllOpen(c: Config, s0: State, labels: seq<Label>)
    requires Legal(c, Unrestricted, s0, labels)
  {
    forall n | 0 <= n < |labels| :: OpenAt(c, s0, labels, n)
  }

  /** No outcome is ever written to a run that has a different one. */
  ghost predicate AllSame(c: Config, s0: State, labels: seq<Label>)
    requires Legal(c, Unrestricted, s0, labels)
  {
    forall n | 0 <= n < |labels| :: SameAt(c, s0, labels, n)
  }

  lemma KeptByStep(c: Config, s0: State, labels: seq<Label>, n: nat)
    requires Initial(s0) && Legal(c, Unrestricted, s0, labels) && n < |labels|
    ensures RunsKept(c, s0, labels, n, n + 1) <==> OpenAt(c, s0, labels, n)
    ensures StatesKept(c, s0, labels, n, n + 1) <==> SameAt(c, s0, labels, n)
  {
    AtNext(c, Unrestricted, s0, labels, n);
    AtReachable(c, Unrestricted, s0, labels, n);
    StepLeavesIff(c, At(c, Unrestricted, s0, labels, n), labels[n]);
  }

  lemma {:induction false} KeptBetween(c: Config, s0: State, labels: seq<Label>, n: nat, m: nat)
    requires Initial(s0) && Legal(c, Unrestricted, s0, labels) && n <= m <= |labels|
    ensures AllOpen(c, s0, labels) ==> RunsKept(c, s0, labels, n, m)
    ensures AllSame(c, s0, labels) ==> StatesKept(c, s0, labels, n, m)
    decreases m - n
  {
    if n < m {
      KeptBetween(c, s0, labels, n, m - 1);
      KeptByStep(c, s0, labels, m - 1);
      KeptOnward(c, s0, labels, n, m - 1, m);
    }
  }

  lemma KeptOnward(c: Config, s0: State, labels: seq<Label>, n: nat, m: nat, k: nat)
    requires Legal(c, Unrestricted, s0, labels) && n <= m <= k <= |labels|
    ensures RunsKept(c, s0, labels, n, m) && RunsKept(c, s0, labels, m, k) ==> RunsKept(c, s0, labels, n, k)
    ensures StatesKept(c, s0, labels, n, m) && StatesKept(c, s0, labels, m, k) ==> StatesKept(c, s0, labels, n, k)
  {
  }

  /**
   With no discipline at all, finished runs stay exactly as they are throughout a run of the
   system exactly when no outcome is written to a run that already has one.
   */
  lemma OutcomesFinalIff(c: Config, s0: State, labels: seq<Label>)
    requires Initial(s0) && Legal(c, Unrestricted, s0, labels)
    ensures (forall n, m | 0 <= n <= m <= |labels| :: RunsKept(c, s0, labels, n, m)) <==>
            AllOpen(c, s0, labels)
  {
    if AllOpen(c, s0, labels) {
      forall n, m | 0 <= n <= m <= |labels|
        ensures RunsKept(c, s0, labels, n, m)
      {
        KeptBetween(c, s0, labels, n, m);
      }
    } else {
      var n :| 0 <= n < |labels| && !OpenAt(c, s0, labels, n);
      KeptByStep(c, s0, labels, n);
      assert !RunsKept(c, s0, labels, n, n + 1);
    }
  }

  /** And the states succeeded, failed and dead are never left exactly when no different outcome is written. */
  lemma StatesFinalIff(c: Config, s0: State, labels: seq<Label>)
    requires Initial(s0) && Legal(c, Unrestricted, s0, labels)
    ensures (forall n, m | 0 <= n <= m <= |labels| :: StatesKept(c, s0, labels, n, m)) <==>
            AllSame(c, s0, labels)
  {
    if AllSame(c, s0, labels) {
      forall n, m | 0 <= n <= m <= |labels|
        ensures StatesKept(c, s0, labels, n, m)
      {
        KeptBetween(c, s0, labels, n, m);
      }
    } else {
      var n :| 0 <= n < |labels| && !SameAt(c, s0, labels, n);
      KeptByStep(c, s0, labels, n);
      assert !StatesKept(c, s0, labels, n, n + 1);
    }
  }
}
