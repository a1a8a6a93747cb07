/** A batch can always be drained: neither the mutex nor the retries can block it. */
module ProtocolDrain {
  import opened JobModel
  import opened Backoff
  import opened Counting
  import opened Protocol
  import opened ProtocolInvariant
  import opened ProtocolLeases
  import opened ProtocolSteps
  import opened ProtocolTheorems

  /** A fenced run of one process. */
  ghost predicate IsLocalRun(c: Config, s0: State, labels: seq<Label>) {
    IsRun(c, s0, labels) && OneProcess(labels)
  }

  lemma Take(c: Config, s0: State, labels: seq<Label>, l: Label)
    requires IsLocalRun(c, s0, labels) && Local(l)
    requires Enabled(c, Final(c, s0, labels), l) && Fenced(Final(c, s0, labels), l)
    ensures IsLocalRun(c, s0, labels + [l]) && Final(c, s0, labels + [l]) == Apply(c, Final(c, s0, labels), l)
  {
    OneStep(c, Fencing, s0, labels, l);
  }

  // What is left to do.

  ghost function Open(s: State, batch: string): set<string> {
    set id | id in s.runs && s.runs[id].batchID == batch && !Over(s.runs[id])
  }

  /** The goroutines that have recorded an outcome in the batch. */
  ghost function Busy(s: State, batch: string): set<nat> {
    set t | t in s.tasks && s.tasks[t].run.batchID == batch && !s.tasks[t].Unrecorded()
  }

  ghost function Holding(s: State): set<nat> {
    set t | t in s.tasks && s.tasks[t].phase.Enqueueing?
  }

  /** Runs were only added, and are pending. */
  ghost predicate OnlyAdds(s: State, s': State) {
    && (forall id | id in s.runs :: id in s'.runs && s'.runs[id] == s.runs[id])
    && (forall id | id in s'.runs && id !in s.runs :: s'.runs[id].state == Pending)
  }

  lemma AddsTwice(s: State, s': State, s'': State)
    requires OnlyAdds(s, s') && OnlyAdds(s', s'')
    ensures OnlyAdds(s, s'')
  {
  }

  lemma AddsKeep(s: State, s': State, batch: string, ok: string -> bool)
    requires OnlyAdds(s, s')
    ensures EndsAs(s, batch, ok) ==> EndsAs(s', batch, ok)
    ensures BatchIds(s.runs, batch) <= BatchIds(s'.runs, batch)
    ensures BatchIds(s'.runs, batch) == BatchIds(s.runs, batch) ==> Open(s', batch) == Open(s, batch)
  {
    if BatchIds(s'.runs, batch) == BatchIds(s.runs, batch) {
      forall id
        ensures id in Open(s', batch) <==> id in Open(s, batch)
      {
        assert id in BatchIds(s'.runs, batch) <==> id in BatchIds(s.runs, batch);
      }
    }
  }

  // New names.

  lemma {:induction false} FreshId(used: set<string>) returns (id: string)
    ensures forall u | u in used :: |u| < |id|
  {
    id := "x";
    if used != {} {
      var u :| u in used;
      id := FreshId(used - {u});
      if |id| <= |u| {
        id := u + "x";
      }
    }
  }

  lemma {:induction false} FreshTask(used: set<nat>) returns (t: nat)
    ensures forall u | u in used :: u < t
  {
    t := 0;
    if used != {} {
      var u :| u in used;
      t := FreshTask(used - {u});
      assert forall v | v in used :: v == u || v in used - {u};
      if t <= u {
        t := u + 1;
      }
    }
  }

  // A retry.

  lemma RetryMoves(c: Config, s0: State, labels: seq<Label>, t: nat) returns (labels': seq<Label>)
    requires IsLocalRun(c, s0, labels) && t in Final(c, s0, labels).tasks
    requires Final(c, s0, labels).tasks[t].phase.Retrying?
    ensures labels <= labels' && IsLocalRun(c, s0, labels')
    ensures var s, s' := Final(c, s0, labels), Final(c, s0, labels');
      OnlyAdds(s, s') && BatchIds(s'.runs, s.tasks[t].run.batchID) != BatchIds(s.runs, s.tasks[t].run.batchID)
  {
    var s := Final(c, s0, labels);
    Reachable(c, s0, labels);
    var id := FreshId(s.runs.Keys);
    var l := RetryEnabled(c, s, t, id);
    Take(c, s0, labels, l);
    RetryAdds(c, s, l);
    labels' := labels + [l];
  }

  lemma RetryEnabled(c: Config, s: State, t: nat, id: string) returns (l: Label)
    requires RunsTyped(c, s) && TasksOk(c, s) && t in s.tasks && s.tasks[t].phase.Retrying? && id !in s.runs
    ensures l.CreateRetry? && l.task == t && l.id == id && Enabled(c, s, l)
  {
    assert TaskOk(c, s, s.tasks[t]);
    var r := s.tasks[t].run;
    l := CreateRetry(t, id, DrawnDelay(c.jobs[r.jobID].backoff, r.attempt, 0.0));
  }

  lemma RetryAdds(c: Config, s: State, l: Label)
    requires l.CreateRetry? && Enabled(c, s, l)
    ensures OnlyAdds(s, Apply(c, s, l))
    ensures var batch := s.tasks[l.task].run.batchID;
      l.id in BatchIds(Apply(c, s, l).runs, batch) && l.id !in BatchIds(s.runs, batch)
  {
  }

  // Inside enqueueDependents.

  /** How far the goroutine is from having looked at the first job of its list. */
  ghost function Work(c: Config, p: Phase): nat
    requires p.Enqueueing? && p.todo != []
  {
    var n := |c.Deps(p.todo[0])|;
    match p.check
    case Begin => n + 3
    case Dep(k) => if k <= n then n - k + 2 else 2
    case Existing => 1
    case Create => 0
  }

  /** One step of the goroutine that holds the mutex. */
  ghost predicate MovesOn(c: Config, s: State, t: nat, s': State) {
    && t in s.tasks && s.tasks[t].phase.Enqueueing? && OnlyAdds(s, s')
    && t in s'.tasks && s'.tasks == s.tasks[t := s'.tasks[t]]
    && s'.tasks[t].run == s.tasks[t].run && s'.tasks[t].phase.Enqueueing? && s.tasks[t].phase.todo != []
    && var p, p' := s.tasks[t].phase, s'.tasks[t].phase;
       |p'.todo| < |p.todo| || (p'.todo == p.todo && Work(c, p') < Work(c, p))
  }

  lemma InspectMoves(c: Config, s: State, t: nat)
    requires Enabled(c, s, Inspect(t))
    ensures MovesOn(c, s, t, Apply(c, s, Inspect(t)))
  {
  }

  lemma CreateMoves(c: Config, s: State, t: nat, id: string)
    requires Enabled(c, s, CreateDependent(t, id))
    ensures MovesOn(c, s, t, Apply(c, s, CreateDependent(t, id)))
  {
  }

  lemma MoveOn(c: Config, s0: State, labels: seq<Label>, t: nat) returns (labels': seq<Label>)
    requires IsLocalRun(c, s0, labels) && t in Final(c, s0, labels).tasks
    requires Final(c, s0, labels).tasks[t].phase.Enqueueing? && Final(c, s0, labels).tasks[t].phase.todo != []
    ensures labels <= labels' && IsLocalRun(c, s0, labels')
    ensures MovesOn(c, Final(c, s0, labels), t, Final(c, s0, labels'))
  {
    var s := Final(c, s0, labels);
    var l;
    if s.tasks[t].phase.check.Create? {
      var id := FreshId(s.runs.Keys);
      l := CreateDependent(t, id);
      CreateMoves(c, s, t, id);
    } else {
      l := Inspect(t);
      InspectMoves(c, s, t);
    }
    Take(c, s0, labels, l);
    labels' := labels + [l];
  }

  /** The goroutine leaves, having only added runs. */
  ghost predicate Leaves(s: State, t: nat, s': State) {
    OnlyAdds(s, s') && s'.tasks == s.tasks - {t}
  }

  lemma UnlockLeaves(c: Config, s: State, t: nat)
    requires Enabled(c, s, Unlock(t))
    ensures Leaves(s, t, Apply(c, s, Unlock(t)))
  {
  }

  lemma LeavesLater(c: Config, s: State, t: nat, s': State, s'': State)
    requires MovesOn(c, s, t, s') && Leaves(s', t, s'')
    ensures Leaves(s, t, s'')
  {
    AddsTwice(s, s', s'');
    assert s.tasks[t := s'.tasks[t]] - {t} == s.tasks - {t};
  }

  lemma {:induction false} Release(c: Config, s0: State, labels: seq<Label>, t: nat) returns (labels': seq<Label>)
    requires IsLocalRun(c, s0, labels) && t in Final(c, s0, labels).tasks
    requires Final(c, s0, labels).tasks[t].phase.Enqueueing?
    ensures labels <= labels' && IsLocalRun(c, s0, labels') && Leaves(Final(c, s0, labels), t, Final(c, s0, labels'))
    decreases |Final(c, s0, labels).tasks[t].phase.todo|,
              if Final(c, s0, labels).tasks[t].phase.todo == [] then 0 else Work(c, Final(c, s0, labels).tasks[t].phase)
  {
    var s := Final(c, s0, labels);
    if s.tasks[t].phase.todo == [] {
      Take(c, s0, labels, Unlock(t));
      UnlockLeaves(c, s, t);
      labels' := labels + [Unlock(t)];
    } else {
      var middle := MoveOn(c, s0, labels, t);
      labels' := Release(c, s0, middle, t);
      LeavesLater(c, s, t, Final(c, s0, middle), Final(c, s0, labels'));
    }
  }

  lemma Enter(c: Config, s0: State, labels: seq<Label>, t: nat) returns (labels': seq<Label>)
    requires IsLocalRun(c, s0, labels) && t in Final(c, s0, labels).tasks
    requires Final(c, s0, labels).tasks[t].phase.Waiting? && Holding(Final(c, s0, labels)) == {}
    ensures labels <= labels' && IsLocalRun(c, s0, labels') && Leaves(Final(c, s0, labels), t, Final(c, s0, labels'))
  {
    var s := Final(c, s0, labels);
    forall u | u in s.tasks
      ensures !s.tasks[u].phase.Enqueueing?
    {
      assert u !in Holding(s);
    }
    Take(c, s0, labels, Lock(t));
    var s' := Apply(c, s, Lock(t));
    labels' := Release(c, s0, labels + [Lock(t)], t);
    AddsTwice(s, s', Final(c, s0, labels'));
    assert s'.tasks - {t} == s.tasks - {t};
  }

  // Running a run that is not over.

  /** The run got an outcome as ok says, and nothing else happened to the runs. */
  ghost predicate Ends(s: State, id: string, ok: string -> bool, s': State) {
    && id in s.runs && s'.runs.Keys == s.runs.Keys
    && (forall a | a in s.runs && a != id :: s'.runs[a] == s.runs[a])
    && SameRun(s.runs[id], s'.runs[id]) && Over(s'.runs[id])
    && (s'.runs[id].state == Succeeded ==> ok(s.runs[id].jobID))
    && (s'.runs[id].state == Dead ==> !ok(s.runs[id].jobID))
  }

  lemma EndsKeep(s: State, id: string, ok: string -> bool, s': State, batch: string)
    requires Ends(s, id, ok, s') && s.runs[id].batchID == batch && !Over(s.runs[id])
    ensures EndsAs(s, batch, ok) ==> EndsAs(s', batch, ok)
    ensures BatchIds(s'.runs, batch) == BatchIds(s.runs, batch) && Open(s', batch) == Open(s, batch) - {id}
  {
  }

  /** The outcome the goroutine records. */
  function Record(c: Config, run: Run, t: nat, good: bool): Label {
    if good then RecordSuccess(t)
    else if run.attempt < c.LastAttempt(run.jobID) then RecordFailure(t, "")
    else RecordDead(t, "")
  }

  /** The goroutine has executed the run that it holds. */
  ghost predicate Executed(s: State, t: nat, id: string, good: bool) {
    && t in s.tasks && s.tasks[t].phase.Returned? && s.tasks[t].phase.ok == good && s.tasks[t].run.id == id
    && id in s.runs && s.runs[id] == s.tasks[t].run
  }

  lemma RecordEnds(c: Config, s: State, t: nat, id: string, ok: string -> bool)
    requires id in s.runs && Executed(s, t, id, ok(s.runs[id].jobID))
    ensures var l := Record(c, s.tasks[t].run, t, ok(s.runs[id].jobID));
      Enabled(c, s, l) && Fenced(s, l) && Ends(s, id, ok, Apply(c, s, l))
  {
  }

  /** Claiming and executing only lease the run. */
  ghost predicate LeasesRun(s: State, id: string, s': State) {
    && id in s.runs && s'.runs.Keys == s.runs.Keys
    && (forall a | a in s.runs && a != id :: s'.runs[a] == s.runs[a]) && SameRun(s.runs[id], s'.runs[id])
  }

  lemma ClaimExecutes(c: Config, s: State, id: string, t: nat, good: bool)
    requires id in s.runs && s.runs[id].id == id && t !in s.tasks && Ready(s.runs[id], s.now)
    ensures var l := Claim(0, id, "", t, s.now);
      && Enabled(c, s, l) && Enabled(c, Apply(c, s, l), Execute(t, good))
      && var s' := Apply(c, Apply(c, s, l), Execute(t, good)); Executed(s', t, id, good) && LeasesRun(s, id, s')
  {
  }

  /** Let time pass until the run can be claimed, then claim it and execute it. */
  lemma ExecuteIt(c: Config, s0: State, labels: seq<Label>, id: string, good: bool)
      returns (labels': seq<Label>, t: nat)
    requires IsLocalRun(c, s0, labels) && id in Final(c, s0, labels).runs && !Over(Final(c, s0, labels).runs[id])
    ensures labels <= labels' && IsLocalRun(c, s0, labels')
    ensures Executed(Final(c, s0, labels'), t, id, good)
    ensures LeasesRun(Final(c, s0, labels), id, Final(c, s0, labels'))
  {
    var s := Final(c, s0, labels);
    LeasesReachable(c, Fencing, s0, labels);
    assert LeaseRun(s, id);
    var later := s.now + s.runs[id].scheduledFor + s.runs[id].leaseExpiry + 1;
    t := FreshTask(s.tasks.Keys);
    var s1 := s.(now := later);
    ClaimExecutes(c, s1, id, t, good);
    Take(c, s0, labels, Advance(later));
    labels' := labels + [Advance(later)];
    Take(c, s0, labels', Claim(0, id, "", t, later));
    labels' := labels' + [Claim(0, id, "", t, later)];
    Take(c, s0, labels', Execute(t, good));
    labels' := labels' + [Execute(t, good)];
  }

  lemma RunIt(c: Config, s0: State, labels: seq<Label>, id: string, ok: string -> bool) returns (labels': seq<Label>)
    requires IsLocalRun(c, s0, labels) && id in Final(c, s0, labels).runs && !Over(Final(c, s0, labels).runs[id])
    ensures labels <= labels' && IsLocalRun(c, s0, labels')
    ensures Ends(Final(c, s0, labels), id, ok, Final(c, s0, labels'))
  {
    var s := Final(c, s0, labels);
    var good := ok(s.runs[id].jobID);
    var middle, t := ExecuteIt(c, s0, labels, id, good);
    var s' := Final(c, s0, middle);
    RecordEnds(c, s', t, id, ok);
    var l := Record(c, s'.tasks[t].run, t, good);
    Take(c, s0, middle, l);
    labels' := middle + [l];
    EndsAfterLease(s, id, s', ok, Apply(c, s', l));
  }

  lemma EndsAfterLease(s: State, id: string, s': State, ok: string -> bool, s'': State)
    requires LeasesRun(s, id, s') && Ends(s', id, ok, s'')
    ensures Ends(s, id, ok, s'')
  {
  }

  // Draining.

  lemma RoomLeft(c: Config, s0: State, labels: seq<Label>, batch: string)
    requires IsLocalRun(c, s0, labels)
    ensures |BatchIds(Final(c, s0, labels).runs, batch)| <= Budget(c, c.listing)
  {
    BatchBound(c, s0, labels, batch);
  }

  lemma Grew(a: set<string>, b: set<string>)
    requires a <= b && a != b
    ensures |a| < |b|
  {
    SubsetSize(a, b);
  }

  lemma LeavesLess(s: State, t: nat, s': State, batch: string)
    requires Leaves(s, t, s') && t in s.tasks
    ensures Busy(s', batch) == Busy(s, batch) - {t} && Holding(s') == Holding(s) - {t}
  {
  }

  lemma BusyWaits(s: State, batch: string, t: nat)
    requires t in Busy(s, batch) && !s.tasks[t].phase.Retrying? && Holding(s) == {}
    ensures s.tasks[t].phase.Waiting?
  {
    assert t !in Holding(s);
  }

  lemma SomethingOpen(s: State, batch: string)
    requires !Drained(s, batch) && Busy(s, batch) == {}
    ensures Open(s, batch) != {}
  {
    assert forall t | t in s.tasks && s.tasks[t].run.batchID == batch ::
        s.tasks[t].Unrecorded() || t in Busy(s, batch);
    var id :| id in s.runs && s.runs[id].batchID == batch && !Over(s.runs[id]);
    assert id in Open(s, batch);
  }

  /** Less is left to do: fewer runs can still be created, or are open, or fewer goroutines are busy or in the way. */
  ghost predicate LessLeft(s: State, s': State, batch: string) {
    var ids, ids' := BatchIds(s.runs, batch), BatchIds(s'.runs, batch);
    || |ids| < |ids'|
    || (|ids| == |ids'| && |Open(s', batch)| < |Open(s, batch)|)
    || (|ids| == |ids'| && |Open(s', batch)| == |Open(s, batch)| && |Busy(s', batch)| < |Busy(s, batch)|)
    || (&& |ids| == |ids'| && |Open(s', batch)| == |Open(s, batch)| && |Busy(s', batch)| == |Busy(s, batch)|
        && |Holding(s')| < |Holding(s)|)
  }

  ghost predicate KeepsEnds(s: State, s': State, batch: string, ok: string -> bool) {
    EndsAs(s, batch, ok) ==> EndsAs(s', batch, ok)
  }

  lemma AddsLess(s: State, s': State, batch: string, ok: string -> bool)
    requires OnlyAdds(s, s')
    requires BatchIds(s'.runs, batch) == BatchIds(s.runs, batch) ==>
      || |Busy(s', batch)| < |Busy(s, batch)|
      || (|Busy(s', batch)| == |Busy(s, batch)| && |Holding(s')| < |Holding(s)|)
    ensures LessLeft(s, s', batch) && KeepsEnds(s, s', batch, ok)
  {
    AddsKeep(s, s', batch, ok);
    if BatchIds(s'.runs, batch) != BatchIds(s.runs, batch) {
      Grew(BatchIds(s.runs, batch), BatchIds(s'.runs, batch));
    }
  }

  lemma LeavesAreLess(s: State, t: nat, s': State, batch: string, ok: string -> bool)
    requires Leaves(s, t, s') && (t in Busy(s, batch) || t in Holding(s))
    ensures LessLeft(s, s', batch) && KeepsEnds(s, s', batch, ok)
  {
    LeavesLess(s, t, s', batch);
    AddsLess(s, s', batch, ok);
  }

  lemma EndsAreLess(s: State, id: string, ok: string -> bool, s': State, batch: string)
    requires Ends(s, id, ok, s') && id in Open(s, batch)
    ensures LessLeft(s, s', batch) && KeepsEnds(s, s', batch, ok)
  {
    EndsKeep(s, id, ok, s', batch);
  }

  /** Unless the batch is drained, something can be done about it. */
  lemma OneMove(c: Config, s0: State, labels: seq<Label>, batch: string, ok: string -> bool)
      returns (labels': seq<Label>)
    requires IsLocalRun(c, s0, labels) && !Drained(Final(c, s0, labels), batch)
    ensures labels <= labels' && IsLocalRun(c, s0, labels')
    ensures var s, s' := Final(c, s0, labels), Final(c, s0, labels');
      LessLeft(s, s', batch) && KeepsEnds(s, s', batch, ok)
  {
    var s := Final(c, s0, labels);
    if t :| t in Busy(s, batch) && s.tasks[t].phase.Retrying? {
      labels' := RetryMoves(c, s0, labels, t);
      AddsLess(s, Final(c, s0, labels'), batch, ok);
    } else if Holding(s) != {} {
      var t :| t in Holding(s);
      labels' := Release(c, s0, labels, t);
      LeavesAreLess(s, t, Final(c, s0, labels'), batch, ok);
    } else if Busy(s, batch) != {} {
      var t :| t in Busy(s, batch);
      BusyWaits(s, batch, t);
      labels' := Enter(c, s0, labels, t);
      LeavesAreLess(s, t, Final(c, s0, labels'), batch, ok);
    } else {
      SomethingOpen(s, batch);
      var id :| id in Open(s, batch);
      labels' := RunIt(c, s0, labels, id, ok);
      EndsAreLess(s, id, ok, Final(c, s0, labels'), batch);
    }
  }

  /**
   Whatever state one scheduler process has reached, and however each job is to end from here
   on, there is a way on that drains the batch.
   */
  lemma {:induction false} CanDrain(c: Config, s0: State, labels: seq<Label>, batch: string, ok: string -> bool)
      returns (labels': seq<Label>)
    requires IsLocalRun(c, s0, labels)
    ensures labels <= labels' && IsLocalRun(c, s0, labels') && Drained(Final(c, s0, labels'), batch)
    ensures KeepsEnds(Final(c, s0, labels), Final(c, s0, labels'), batch, ok)
    decreases Budget(c, c.listing) - |BatchIds(Final(c, s0, labels).runs, batch)|,
              |Open(Final(c, s0, labels), batch)|, |Busy(Final(c, s0, labels), batch)|, |Holding(Final(c, s0, labels))|
  {
    RoomLeft(c, s0, labels, batch);
    if Drained(Final(c, s0, labels), batch) {
      labels' := labels;
    } else {
      var next := OneMove(c, s0, labels, batch, ok);
      RoomLeft(c, s0, next, batch);
      labels' := CanDrain(c, s0, next, batch, ok);
    }
  }
}
