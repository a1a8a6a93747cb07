/** When a cron slot gets at most one run. */
module ProtocolSlots {
  import opened CronSchedule
  import opened Protocol
  import opened ProtocolLeases
  import opened ProtocolUnique

  /** The run was created for the slot. */
  ghost predicate IsCronRun(s: State, id: string, job: string, fireAt: Time) {
    id in s.cron && id in s.runs && s.runs[id].jobID == job && s.runs[id].scheduledFor == fireAt
  }

  ghost predicate SlotFree(s: State, job: string, fireAt: Time) {
    forall id :: !IsCronRun(s, id, job, fireAt)
  }

  /** At most one run was created for each cron slot of a job. */
  ghost predicate SlotsUnique(s: State) {
    forall a, b, job, fireAt: Time | IsCronRun(s, a, job, fireAt) && IsCronRun(s, b, job, fireAt) :: a == b
  }

  /** The dispatcher writes only where there is still no run for the slot. */
  ghost predicate FindsFree(s: State, l: Label) {
    l.CreateRoot? && l.process in s.slots ==> SlotFree(s, s.slots[l.process].0, s.slots[l.process].1)
  }

  // One step.

  lemma CronStays(c: Config, s: State, l: Label, id: string, job: string, fireAt: Time)
    requires WriterOk(s, l) && Enabled(c, s, l) && s.cron <= s.runs.Keys && !(l.CreateRoot? && l.id == id)
    ensures IsCronRun(Apply(c, s, l), id, job, fireAt) <==> IsCronRun(s, id, job, fireAt)
  {
    CronKeeps(c, s, l);
    if id in s.runs {
      RunStays(c, s, l, id);
    }
  }

  lemma CronKeeps(c: Config, s: State, l: Label)
    requires Enabled(c, s, l)
    ensures Apply(c, s, l).cron == if l.CreateRoot? then s.cron + {l.id} else s.cron
  {
  }

  lemma CreatedRoot(c: Config, s: State, l: Label, job: string, fireAt: Time)
    requires l.CreateRoot? && Enabled(c, s, l)
    ensures l.id !in s.runs
    ensures IsCronRun(Apply(c, s, l), l.id, job, fireAt) <==> s.slots[l.process] == (job, fireAt)
  {
  }

  lemma CronKnown(c: Config, s: State, l: Label)
    requires WriterOk(s, l) && Enabled(c, s, l) && s.cron <= s.runs.Keys
    ensures Apply(c, s, l).cron <= Apply(c, s, l).runs.Keys
  {
    var s' := Apply(c, s, l);
    CronKeeps(c, s, l);
    forall id | id in s'.cron
      ensures id in s'.runs
    {
      if l.CreateRoot? && id == l.id {
        CreatedRoot(c, s, l, s.slots[l.process].0, s.slots[l.process].1);
      } else {
        RunStays(c, s, l, id);
      }
    }
  }

  /** Uniqueness survives a step exactly when the step finds its slot free. */
  lemma UniqueAfterIff(c: Config, s: State, l: Label)
    requires WriterOk(s, l) && Enabled(c, s, l) && s.cron <= s.runs.Keys && SlotsUnique(s)
    ensures SlotsUnique(Apply(c, s, l)) <==> FindsFree(s, l)
  {
    var s' := Apply(c, s, l);
    forall id, job, fireAt: Time | !(l.CreateRoot? && l.id == id)
      ensures IsCronRun(s', id, job, fireAt) <==> IsCronRun(s, id, job, fireAt)
    {
      CronStays(c, s, l, id, job, fireAt);
    }
    if l.CreateRoot? {
      forall job, fireAt: Time
        ensures IsCronRun(s', l.id, job, fireAt) <==> s.slots[l.process] == (job, fireAt)
      {
        CreatedRoot(c, s, l, job, fireAt);
      }
      RootUniqueIff(s, s', l.id, s.slots[l.process].0, s.slots[l.process].1);
    }
  }

  lemma RootUniqueIff(s: State, s': State, added: string, job: string, fireAt: Time)
    requires SlotsUnique(s) && added !in s.cron
    requires forall id, j, f: Time | id != added :: IsCronRun(s', id, j, f) <==> IsCronRun(s, id, j, f)
    requires forall j, f: Time :: IsCronRun(s', added, j, f) <==> (job, fireAt) == (j, f)
    ensures SlotsUnique(s') <==> SlotFree(s, job, fireAt)
  {
    if id :| IsCronRun(s, id, job, fireAt) {
      assert IsCronRun(s', id, job, fireAt) && IsCronRun(s', added, job, fireAt);
    }
  }

  // Whole runs.

  lemma {:induction false} CronReachable(c: Config, d: Discipline, s0: State, labels: seq<Label>)
    requires Initial(s0) && Legal(c, d, s0, labels)
    ensures Exec(c, d, s0, labels).cron <= Exec(c, d, s0, labels).runs.Keys
  {
    if labels != [] {
      var init := labels[..|labels| - 1];
      CronReachable(c, d, s0, init);
      LeasesReachable(c, d, s0, init);
      CronKnown(c, Exec(c, d, s0, init), labels[|labels| - 1]);
    }
  }

  ghost predicate UniqueAt(c: Config, d: Discipline, s0: State, labels: seq<Label>, n: nat)
    requires Legal(c, d, s0, labels) && n <= |labels|
  {
    SlotsUnique(At(c, d, s0, labels, n))
  }

  ghost predicate FreeAt(c: Config, d: Discipline, s0: State, labels: seq<Label>, n: nat)
    requires Legal(c, d, s0, labels) && n < |labels|
  {
    FindsFree(At(c, d, s0, labels, n), labels[n])
  }

  lemma UniqueNextIff(c: Config, d: Discipline, s0: State, labels: seq<Label>, n: nat)
    requires Initial(s0) && Legal(c, d, s0, labels) && n < |labels| && UniqueAt(c, d, s0, labels, n)
    ensures UniqueAt(c, d, s0, labels, n + 1) <==> FreeAt(c, d, s0, labels, n)
  {
    AtNext(c, d, s0, labels, n);
    AtReachable(c, d, s0, labels, n);
    PrefixLegal(c, d, s0, labels, n);
    CronReachable(c, d, s0, labels[..n]);
    UniqueAfterIff(c, At(c, d, s0, labels, n), labels[n]);
  }

  lemma {:induction false} UniqueWhileFree(c: Config, d: Discipline, s0: State, labels: seq<Label>, n: nat)
    requires Initial(s0) && Legal(c, d, s0, labels) && n <= |labels|
    requires forall i | 0 <= i < |labels| :: FreeAt(c, d, s0, labels, i)
    ensures UniqueAt(c, d, s0, labels, n)
    decreases n
  {
    if n > 0 {
      UniqueWhileFree(c, d, s0, labels, n - 1);
      UniqueNextIff(c, d, s0, labels, n - 1);
    }
  }

  /**
   Under every discipline and for any number of processes: throughout a run of the system each
   cron slot has at most one run exactly when every dispatcher still finds its slot free when
   it writes.
   */
  lemma SlotsUniqueIff(c: Config, d: Discipline, s0: State, labels: seq<Label>)
    requires Initial(s0) && Legal(c, d, s0, labels)
    ensures (forall n | 0 <= n <= |labels| :: UniqueAt(c, d, s0, labels, n)) <==>
            (forall n | 0 <= n < |labels| :: FreeAt(c, d, s0, labels, n))
  {
    if forall n | 0 <= n < |labels| :: FreeAt(c, d, s0, labels, n) {
      forall n | 0 <= n <= |labels|
        ensures UniqueAt(c, d, s0, labels, n)
      {
        UniqueWhileFree(c, d, s0, labels, n);
      }
    }
    if forall n | 0 <= n <= |labels| :: UniqueAt(c, d, s0, labels, n) {
      forall n | 0 <= n < |labels|
        ensures FreeAt(c, d, s0, labels, n)
      {
        assert UniqueAt(c, d, s0, labels, n) && UniqueAt(c, d, s0, labels, n + 1);
        UniqueNextIff(c, d, s0, labels, n);
      }
    }
  }

  // One process.

  /** A checked slot is free until it is written or dropped. */
  ghost predicate ChecksHold(s: State) {
    forall p | p in s.slots :: SlotFree(s, s.slots[p].0, s.slots[p].1)
  }

  lemma SlotsChange(c: Config, s: State, l: Label, p: nat)
    requires Enabled(c, s, l) && p in Apply(c, s, l).slots
    ensures || (l.CheckSlot? && l.process == p && Apply(c, s, l).slots[p] == (l.job, l.fireAt))
            || (p in s.slots && Apply(c, s, l).slots[p] == s.slots[p] && !(l.CreateRoot? && l.process == p))
  {
  }

  lemma CheckedIsFree(c: Config, s: State, l: Label)
    requires l.CheckSlot? && Enabled(c, s, l)
    ensures SlotFree(s, l.job, l.fireAt)
  {
  }

  lemma ChecksStay(c: Config, s: State, l: Label)
    requires WriterOk(s, l) && Enabled(c, s, l) && s.cron <= s.runs.Keys && ChecksHold(s) && AllMine(s) && Local(l)
    ensures ChecksHold(Apply(c, s, l)) && FindsFree(s, l)
  {
    var s' := Apply(c, s, l);
    forall p | p in s'.slots
      ensures SlotFree(s', s'.slots[p].0, s'.slots[p].1)
    {
      SlotsChange(c, s, l, p);
      var (job, fireAt) := s'.slots[p];
      if l.CheckSlot? && l.process == p {
        CheckedIsFree(c, s, l);
      }
      StaysMine(c, s, l);
      forall id
        ensures !IsCronRun(s', id, job, fireAt)
      {
        CronStays(c, s, l, id, job, fireAt);
      }
    }
  }

  /** In runs of one process, whatever the discipline, a cron slot never gets two runs. */
  lemma {:induction false} OneRunPerSlot(c: Config, d: Discipline, s0: State, labels: seq<Label>)
    requires Initial(s0) && Legal(c, d, s0, labels) && OneProcess(labels)
    ensures var s := Exec(c, d, s0, labels);
      s.cron <= s.runs.Keys && SlotsUnique(s) && ChecksHold(s) && AllMine(s)
  {
    if labels != [] {
      var init, last := labels[..|labels| - 1], labels[|labels| - 1];
      OneRunPerSlot(c, d, s0, init);
      LeasesReachable(c, d, s0, init);
      var s := Exec(c, d, s0, init);
      assert WriterOk(s, last);
      CronKnown(c, s, last);
      ChecksStay(c, s, last);
      UniqueAfterIff(c, s, last);
      StaysMine(c, s, last);
    }
  }
}
