/**
 Why outcomes are written by the run's current holder.

 Nothing in the store fences an outcome: `UpdateRun` overwrites whatever is there.  Two
 disciplines make up for it, and both work for any number of scheduler processes on one
 store, since only leases matter: every outcome is written before its lease expires; or a
 claim starts only after all the goroutines of the last claim are done, which is what a
 single scheduler does, however long its jobs take.
 */
module ProtocolDisciplines {
  import opened Protocol
  import opened ProtocolLeases

  /** The run is exactly as this goroutine claimed it. */
  ghost predicate Holds(s: State, t: nat) {
    t in s.tasks && s.tasks[t].run.id in s.runs && s.runs[s.tasks[t].run.id] == s.tasks[t].run
  }

  /** A claim whose lease has not expired is the run's current one. */
  ghost predicate LiveClaimsHold(s: State) {
    forall t | t in s.tasks && s.tasks[t].Unrecorded() && s.now <= s.tasks[t].run.leaseExpiry :: Holds(s, t)
  }

  /** Every claim still being worked on is the run's current one. */
  ghost predicate AllClaimsHold(c: Config, s: State) {
    forall t | t in s.tasks && s.tasks[t].Unrecorded() ::
      Holds(s, t) && s.tasks[t].run.leaseExpiry == s.tasks[t].run.updatedAt + c.lease
  }

  /** A run has at most one holder. */
  lemma OneHolder(s: State, t: nat, u: nat)
    requires LeasesDiffer(s) && t in s.tasks && u in s.tasks && s.tasks[t].Unrecorded() && s.tasks[u].Unrecorded()
    requires Holds(s, t) && Holds(s, u) && s.tasks[t].run.id == s.tasks[u].run.id
    ensures t == u
  {
  }

  /** A holder stays one until it records its outcome or the run is claimed again. */
  lemma HolderStays(c: Config, s: State, l: Label, t: nat)
    requires LeasesDiffer(s) && Enabled(c, s, l)
    requires Records(l) ==> Holds(s, l.task)
    requires t in s.tasks && s.tasks[t].Unrecorded() && Holds(s, t)
    requires !(l.Claim? && l.id == s.tasks[t].run.id) && !(l.Claim? && l.task == t)
    requires t in Apply(c, s, l).tasks && Apply(c, s, l).tasks[t].Unrecorded()
    ensures Holds(Apply(c, s, l), t)
  {
    WasUnrecorded(c, s, l, t);
    WritesReturn(c, s, l);
    Untouched(c, s, l, s.tasks[t].run.id);
  }

  lemma ClaimHolds(c: Config, s: State, l: Label)
    requires l.Claim? && Enabled(c, s, l) && s.runs[l.id].id == l.id
    ensures Holds(Apply(c, s, l), l.task)
    ensures var r := Apply(c, s, l).tasks[l.task].run; r.leaseExpiry == r.updatedAt + c.lease
  {
    ClaimedRun(c, s, l);
  }

  lemma TimelyWrite(s: State, l: Label)
    requires LiveClaimsHold(s) && Timely(s, l) && (Records(l) ==> l.task in s.tasks && s.tasks[l.task].Unrecorded())
    ensures Fenced(s, l) && (Records(l) ==> Holds(s, l.task))
  {
  }

  lemma TimelyStep(c: Config, s: State, l: Label)
    requires LeaseInv(s) && LiveClaimsHold(s) && Enabled(c, s, l) && Timely(s, l)
    ensures Fenced(s, l) && LiveClaimsHold(Apply(c, s, l))
  {
    WritesReturn(c, s, l);
    TimelyWrite(s, l);
    var s' := Apply(c, s, l);
    forall t | t in s'.tasks && s'.tasks[t].Unrecorded() && s'.now <= s'.tasks[t].run.leaseExpiry
      ensures Holds(s', t)
    {
      if l.Claim? && t == l.task {
        assert LeaseRun(s, l.id);
        ClaimHolds(c, s, l);
      } else {
        WasUnrecorded(c, s, l, t);
        assert Holds(s, t) && LeaseTask(s, s.tasks[t]);
        HolderStays(c, s, l, t);
      }
    }
  }

  lemma BarrierStep(c: Config, s: State, l: Label)
    requires LeaseInv(s) && AllClaimsHold(c, s) && Enabled(c, s, l) && Barrier(s, l)
    ensures Fenced(s, l) && AllClaimsHold(c, Apply(c, s, l))
  {
    WritesReturn(c, s, l);
    var s' := Apply(c, s, l);
    forall t | t in s'.tasks && s'.tasks[t].Unrecorded()
      ensures Holds(s', t) && s'.tasks[t].run.leaseExpiry == s'.tasks[t].run.updatedAt + c.lease
    {
      if l.Claim? && t == l.task {
        assert LeaseRun(s, l.id);
        ClaimHolds(c, s, l);
      } else {
        WasUnrecorded(c, s, l, t);
        assert Holds(s, t) && LeaseTask(s, s.tasks[t]);
        HolderStays(c, s, l, t);
      }
    }
  }

  /** Runs that keep to their leases never write over someone else's claim. */
  lemma {:induction false} TimelyIsFenced(c: Config, s: State, labels: seq<Label>)
    requires Initial(s) && Legal(c, Timeliness, s, labels)
    ensures Legal(c, Fencing, s, labels) && Exec(c, Fencing, s, labels) == Exec(c, Timeliness, s, labels)
    ensures LiveClaimsHold(Exec(c, Timeliness, s, labels))
  {
    if labels != [] {
      var init, last := labels[..|labels| - 1], labels[|labels| - 1];
      TimelyIsFenced(c, s, init);
      LeasesReachable(c, Timeliness, s, init);
      TimelyStep(c, Exec(c, Timeliness, s, init), last);
    }
  }

  /** Nor do the runs of a single scheduler, however late their outcomes come. */
  lemma {:induction false} BarrierIsFenced(c: Config, s: State, labels: seq<Label>)
    requires Initial(s) && Legal(c, DrainBarrier, s, labels)
    ensures Legal(c, Fencing, s, labels) && Exec(c, Fencing, s, labels) == Exec(c, DrainBarrier, s, labels)
    ensures AllClaimsHold(c, Exec(c, DrainBarrier, s, labels))
  {
    if labels != [] {
      var init, last := labels[..|labels| - 1], labels[|labels| - 1];
      BarrierIsFenced(c, s, init);
      LeasesReachable(c, DrainBarrier, s, init);
      BarrierStep(c, Exec(c, DrainBarrier, s, init), last);
    }
  }
}
