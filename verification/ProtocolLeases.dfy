/**
 What holds of runs, claims and leases in every reachable state, whatever the number of
 scheduler processes on the store and with no discipline at all.
 */
module ProtocolLeases {
  import opened JobModel
  import opened Protocol
  import opened ProtocolInvariant

  // What a step touches.

  /** Goroutines without an outcome only come from claims, and keep their copy of the run. */
  lemma WasUnrecorded(c: Config, s: State, l: Label, t: nat)
    requires Enabled(c, s, l) && !(l.Claim? && l.task == t)
    requires t in Apply(c, s, l).tasks && Apply(c, s, l).tasks[t].Unrecorded()
    ensures t in s.tasks && s.tasks[t].Unrecorded() && s.tasks[t].run == Apply(c, s, l).tasks[t].run
    ensures Records(l) ==> l.task != t
  {
  }

  /** Runs change only by being claimed and by having their outcome written. */
  lemma Untouched(c: Config, s: State, l: Label, id: string)
    requires Enabled(c, s, l) && id in s.runs
    requires !(l.Claim? && l.id == id) && !(Records(l) && s.tasks[l.task].run.id == id)
    ensures id in Apply(c, s, l).runs && Apply(c, s, l).runs[id] == s.runs[id]
  {
  }

  lemma WritesReturn(c: Config, s: State, l: Label)
    requires Enabled(c, s, l)
    ensures Records(l) ==> l.task in s.tasks && s.tasks[l.task].phase.Returned?
    ensures l.Claim? ==> l.id in s.runs && l.at <= s.now && Ready(s.runs[l.id], l.at)
    ensures s.now <= Apply(c, s, l).now
  {
  }

  lemma ExecutionsGrow(c: Config, s: State, l: Label, id: string)
    requires Enabled(c, s, l)
    ensures Count(s.executions, id) <= Count(Apply(c, s, l).executions, id)
  {
  }

  /** Goroutines come from claims and stay with their run. */
  lemma SameTask(c: Config, s: State, l: Label, t: nat)
    requires Enabled(c, s, l) && !(l.Claim? && l.task == t) && t in Apply(c, s, l).tasks
    ensures t in s.tasks && SameRun(s.tasks[t].run, Apply(c, s, l).tasks[t].run)
    ensures s.tasks[t].owner == Apply(c, s, l).tasks[t].owner
  {
  }

  lemma ReturnedWasExecuted(c: Config, s: State, l: Label, t: nat)
    requires Enabled(c, s, l) && t in Apply(c, s, l).tasks && Apply(c, s, l).tasks[t].phase.Returned?
    ensures t in s.tasks && s.tasks[t].run == Apply(c, s, l).tasks[t].run
    ensures s.tasks[t].phase.Returned? || Count(Apply(c, s, l).executions, s.tasks[t].run.id) >= 1
  {
  }

  lemma NewRunIsPending(c: Config, s: State, l: Label, id: string)
    requires Enabled(c, s, l) && id in Apply(c, s, l).runs && id !in s.runs
    requires Records(l) ==> s.tasks[l.task].run.id in s.runs
    ensures Apply(c, s, l).runs[id].id == id && Apply(c, s, l).runs[id].state == Pending
  {
  }

  lemma ClaimedRun(c: Config, s: State, l: Label)
    requires l.Claim? && Enabled(c, s, l)
    ensures var s' := Apply(c, s, l);
      && s'.runs.Keys == s.runs.Keys && l.task in s'.tasks
      && s'.tasks[l.task] == Task(s'.runs[l.id], Executing, l.process)
      && SameRun(s.runs[l.id], s'.runs[l.id]) && s'.runs[l.id].state == Running
      && s'.runs[l.id].leaseExpiry == s'.runs[l.id].updatedAt + c.lease && s'.runs[l.id].updatedAt == l.at
      && Ready(s.runs[l.id], l.at)
  {
  }

  lemma WrittenRun(c: Config, s: State, l: Label)
    requires Records(l) && Enabled(c, s, l)
    ensures var r := s.tasks[l.task].run;
      && r.id in Apply(c, s, l).runs && Over(Apply(c, s, l).runs[r.id])
      && SameRun(r, Apply(c, s, l).runs[r.id]) && Apply(c, s, l).runs[r.id].leaseExpiry == r.leaseExpiry
  {
  }

  // The invariant.

  ghost predicate LeaseRun(s: State, id: string)
    requires id in s.runs
  {
    s.runs[id].id == id && s.runs[id].state != Skipped && (Over(s.runs[id]) ==> Count(s.executions, id) >= 1)
  }

  /** What a claim that is still being worked on knows: its run was claimed, and a later claim has a later lease. */
  ghost predicate OpenTask(s: State, run: Run)
    requires run.id in s.runs
  {
    && s.runs[run.id].state != Pending
    && (s.runs[run.id].state == Running ==> run.leaseExpiry <= s.runs[run.id].leaseExpiry)
    && (Over(s.runs[run.id]) ==> run.leaseExpiry != s.runs[run.id].leaseExpiry)
  }

  /** The goroutine's run is in the store, and it was executed before it returned. */
  ghost predicate LeaseTask(s: State, task: Task) {
    && task.run.id in s.runs && SameRun(task.run, s.runs[task.run.id])
    && (task.phase.Returned? ==> Count(s.executions, task.run.id) >= 1)
    && (task.Unrecorded() ==> task.run.state == Running && OpenTask(s, task.run))
  }

  /** Claims of one run that are still being worked on have different leases. */
  ghost predicate LeasesDiffer(s: State) {
    forall t, u | t in s.tasks && u in s.tasks && s.tasks[t].run.id == s.tasks[u].run.id && t != u
                  && s.tasks[t].Unrecorded() && s.tasks[u].Unrecorded() ::
      s.tasks[t].run.leaseExpiry != s.tasks[u].run.leaseExpiry
  }

  ghost predicate LeaseInv(s: State) {
    && (forall id | id in s.runs :: LeaseRun(s, id))
    && (forall t | t in s.tasks :: LeaseTask(s, s.tasks[t]))
    && LeasesDiffer(s)
  }

  // Every step keeps it.

  /** Whoever writes an outcome was at work on a run of the store. */
  ghost predicate WriterOk(s: State, l: Label) {
    Records(l) && l.task in s.tasks ==> LeaseTask(s, s.tasks[l.task])
  }

  /** No run is lost, and what it is for never changes. */
  lemma RunStays(c: Config, s: State, l: Label, id: string)
    requires WriterOk(s, l) && Enabled(c, s, l) && id in s.runs
    ensures id in Apply(c, s, l).runs && SameRun(s.runs[id], Apply(c, s, l).runs[id])
  {
    WritesReturn(c, s, l);
    if l.Claim? && l.id == id {
      ClaimedRun(c, s, l);
    } else if Records(l) && s.tasks[l.task].run.id == id {
      WrittenRun(c, s, l);
    } else {
      Untouched(c, s, l, id);
    }
  }

  /** A step creates at most one run. */
  lemma OneAtATime(c: Config, s: State, l: Label, a: string, b: string)
    requires Enabled(c, s, l) && WriterOk(s, l)
    requires a in Apply(c, s, l).runs && a !in s.runs && b in Apply(c, s, l).runs && b !in s.runs
    ensures a == b
  {
    WritesReturn(c, s, l);
  }

  lemma LeaseRunStays(c: Config, s: State, l: Label, id: string)
    requires WriterOk(s, l) && (id in s.runs ==> LeaseRun(s, id))
    requires Enabled(c, s, l) && id in Apply(c, s, l).runs
    ensures LeaseRun(Apply(c, s, l), id)
  {
    WritesReturn(c, s, l);
    ExecutionsGrow(c, s, l, id);
    if id !in s.runs {
      NewRunIsPending(c, s, l, id);
    } else {
      RunStays(c, s, l, id);
      if l.Claim? && l.id == id {
        ClaimedRun(c, s, l);
      } else if Records(l) && s.tasks[l.task].run.id == id {
        WrittenRun(c, s, l);
      } else {
        Untouched(c, s, l, id);
      }
    }
  }

  lemma LeaseTaskStays(c: Config, s: State, l: Label, t: nat)
    requires LeaseInv(s) && Enabled(c, s, l) && t in Apply(c, s, l).tasks
    ensures LeaseTask(Apply(c, s, l), Apply(c, s, l).tasks[t])
  {
    var s' := Apply(c, s, l);
    if l.Claim? && l.task == t {
      ClaimedRun(c, s, l);
      assert LeaseRun(s, l.id);
    } else {
      SameTask(c, s, l, t);
      assert LeaseTask(s, s.tasks[t]);
      RunStays(c, s, l, s.tasks[t].run.id);
      if s'.tasks[t].phase.Returned? {
        ReturnedWasExecuted(c, s, l, t);
        ExecutionsGrow(c, s, l, s.tasks[t].run.id);
      }
      if s'.tasks[t].Unrecorded() {
        WasUnrecorded(c, s, l, t);
        OpenTaskStays(c, s, l, t);
      }
    }
  }

  lemma OpenTaskStays(c: Config, s: State, l: Label, t: nat)
    requires Enabled(c, s, l) && t in s.tasks && s.tasks[t].Unrecorded() && LeaseTask(s, s.tasks[t]) && LeasesDiffer(s)
    requires Records(l) ==> l.task != t
    ensures s.tasks[t].run.id in Apply(c, s, l).runs && OpenTask(Apply(c, s, l), s.tasks[t].run)
  {
    var id := s.tasks[t].run.id;
    WritesReturn(c, s, l);
    if l.Claim? && l.id == id {
      ClaimedRun(c, s, l);
    } else if Records(l) && s.tasks[l.task].run.id == id {
      WrittenRun(c, s, l);
    } else {
      Untouched(c, s, l, id);
    }
  }

  lemma NewLeaseDiffers(c: Config, s: State, l: Label, t: nat)
    requires l.Claim? && Enabled(c, s, l) && t in s.tasks && s.tasks[t].Unrecorded() && LeaseTask(s, s.tasks[t])
    requires s.tasks[t].run.id == l.id
    ensures s.tasks[t].run.leaseExpiry < Apply(c, s, l).tasks[l.task].run.leaseExpiry
  {
  }

  lemma LeasesStayDifferent(c: Config, s: State, l: Label)
    requires LeaseInv(s) && Enabled(c, s, l)
    ensures LeasesDiffer(Apply(c, s, l))
  {
    var s' := Apply(c, s, l);
    forall t, u | t in s'.tasks && u in s'.tasks && s'.tasks[t].run.id == s'.tasks[u].run.id && t != u
                  && s'.tasks[t].Unrecorded() && s'.tasks[u].Unrecorded()
      ensures s'.tasks[t].run.leaseExpiry != s'.tasks[u].run.leaseExpiry
    {
      if l.Claim? && (l.task == t || l.task == u) {
        var other := if l.task == t then u else t;
        WasUnrecorded(c, s, l, other);
        ClaimedRun(c, s, l);
        assert LeaseRun(s, l.id) && LeaseTask(s, s.tasks[other]);
        NewLeaseDiffers(c, s, l, other);
      } else {
        WasUnrecorded(c, s, l, t);
        WasUnrecorded(c, s, l, u);
      }
    }
  }

  lemma LeaseStep(c: Config, s: State, l: Label)
    requires LeaseInv(s) && Enabled(c, s, l)
    ensures LeaseInv(Apply(c, s, l))
  {
    var s' := Apply(c, s, l);
    forall id | id in s'.runs
      ensures LeaseRun(s', id)
    {
      LeaseRunStays(c, s, l, id);
    }
    forall t | t in s'.tasks
      ensures LeaseTask(s', s'.tasks[t])
    {
      LeaseTaskStays(c, s, l, t);
    }
    LeasesStayDifferent(c, s, l);
  }

  lemma {:induction false} LeasesReachable(c: Config, d: Discipline, s0: State, labels: seq<Label>)
    requires Initial(s0) && Legal(c, d, s0, labels)
    ensures LeaseInv(Exec(c, d, s0, labels))
  {
    if labels != [] {
      var init := labels[..|labels| - 1];
      LeasesReachable(c, d, s0, init);
      LeaseStep(c, Exec(c, d, s0, init), labels[|labels| - 1]);
    }
  }

  // Points of a run of the system.

  lemma {:induction false} PrefixLegal(c: Config, d: Discipline, s0: State, labels: seq<Label>, n: nat)
    requires Legal(c, d, s0, labels) && n <= |labels|
    ensures Legal(c, d, s0, labels[..n])
  {
    if n == |labels| {
      assert labels[..n] == labels;
    } else {
      var init := labels[..|labels| - 1];
      PrefixLegal(c, d, s0, init, n);
      assert init[..n] == labels[..n];
    }
  }

  /** The state after the first n steps. */
  ghost function At(c: Config, d: Discipline, s0: State, labels: seq<Label>, n: nat): State
    requires Legal(c, d, s0, labels) && n <= |labels|
  {
    PrefixLegal(c, d, s0, labels, n);
    Exec(c, d, s0, labels[..n])
  }

  lemma AtNext(c: Config, d: Discipline, s0: State, labels: seq<Label>, n: nat)
    requires Legal(c, d, s0, labels) && n < |labels|
    ensures Enabled(c, At(c, d, s0, labels, n), labels[n]) && Obeys(d, At(c, d, s0, labels, n), labels[n])
    ensures At(c, d, s0, labels, n + 1) == Apply(c, At(c, d, s0, labels, n), labels[n])
  {
    PrefixLegal(c, d, s0, labels, n);
    PrefixLegal(c, d, s0, labels, n + 1);
    assert labels[..n + 1][..n] == labels[..n];
  }

  lemma AtReachable(c: Config, d: Discipline, s0: State, labels: seq<Label>, n: nat)
    requires Initial(s0) && Legal(c, d, s0, labels) && n <= |labels|
    ensures LeaseInv(At(c, d, s0, labels, n))
  {
    PrefixLegal(c, d, s0, labels, n);
    LeasesReachable(c, d, s0, labels[..n]);
  }
}
