/** Which runs the dispatcher creates for the fire times it walks over. */
module Materialise {
  import opened Text
  import opened CronSchedule
  import opened JobModel
  import P = Protocol

  /** The job has a run for the slot. */
  ghost predicate SlotTaken(runs: map<string, Run>, job: string, slot: Time) {
    exists id :: id in runs && runs[id].jobID == job && runs[id].scheduledFor == slot
  }

  ghost predicate AllTaken(runs: map<string, Run>, job: string, slots: seq<Time>) {
    forall i | 0 <= i < |slots| :: SlotTaken(runs, job, slots[i])
  }

  /** No run is lost, and each keeps its job and slot. */
  ghost predicate Persist(runs: map<string, Run>, runs': map<string, Run>) {
    forall id | id in runs ::
      id in runs' && runs'[id].jobID == runs[id].jobID && runs'[id].scheduledFor == runs[id].scheduledFor
  }

  /** A pending first attempt, untouched since it was created for its slot. */
  ghost predicate IsRoot(r: Run, id: string) {
    && r.id == id && r.state == Pending && r.attempt == 0
    && r.createdAt == r.updatedAt == r.scheduledFor && Untouched(r)
  }

  ghost predicate Untouched(r: Run) {
    r.startedAt == None && r.finishedAt == None && r.leaseExpiry == 0 && r.worker == "" && r.error == ""
  }

  ghost predicate SameSlot(r: Run, r': Run) {
    r.jobID == r'.jobID && r.scheduledFor == r'.scheduledFor
  }

  /**
   Runs were created for some of the slots and nothing else happened: each for a slot of its job
   that had no run before, at most one per slot, and each in a batch of its own.
   */
  ghost predicate Grows(runs: map<string, Run>, slots: set<(string, Time)>, runs': map<string, Run>) {
    && (forall id | id in runs :: id in runs' && runs'[id] == runs[id])
    && (forall id | id in runs' && id !in runs ::
          && IsRoot(runs'[id], id) && (runs'[id].jobID, runs'[id].scheduledFor) in slots
          && !SlotTaken(runs, runs'[id].jobID, runs'[id].scheduledFor))
    && (forall a, b | a in runs' && b in runs' && a !in runs && a != b ::
          runs'[a].batchID != runs'[b].batchID && (b !in runs ==> !SameSlot(runs'[a], runs'[b])))
  }

  ghost function SlotsOf(job: string, slots: seq<Time>): set<(string, Time)> {
    set t | t in slots :: (job, t)
  }

  /** What was created in two passes, one right after the other. */
  lemma GrowsTwice(runs: map<string, Run>, slots: set<(string, Time)>, runs': map<string, Run>,
                   slots': set<(string, Time)>, runs'': map<string, Run>)
    requires Grows(runs, slots, runs') && Grows(runs', slots', runs'')
    ensures Grows(runs, slots + slots', runs'')
  {
  }

  lemma AllTakenStays(runs: map<string, Run>, runs': map<string, Run>, job: string, slots: seq<Time>)
    requires Persist(runs, runs') && AllTaken(runs, job, slots)
    ensures AllTaken(runs', job, slots)
  {
  }

  lemma GrowsNone(runs: map<string, Run>, slots: set<(string, Time)>)
    ensures Grows(runs, slots, runs)
  {
  }

  lemma GrowsByOne(runs: map<string, Run>, r: Run)
    requires r.id !in runs && IsRoot(r, r.id) && !SlotTaken(runs, r.jobID, r.scheduledFor)
    requires forall id | id in runs :: runs[id].batchID != r.batchID
    ensures Grows(runs, {(r.jobID, r.scheduledFor)}, runs[r.id := r])
    ensures SlotTaken(runs[r.id := r], r.jobID, r.scheduledFor)
  {
  }

  /** A pass, with the runs before and after it. */
  datatype Growth = Growth(before: map<string, Run>, slots: set<(string, Time)>, after: map<string, Run>)

  /** Passes one after the other; between them runs may be created and changed, but none is lost. */
  ghost predicate Passes(gs: seq<Growth>) {
    && (forall i | 0 <= i < |gs| :: Grows(gs[i].before, gs[i].slots, gs[i].after))
    && (forall i | 0 <= i < |gs| - 1 :: Persist(gs[i].after, gs[i + 1].before))
  }

  ghost predicate Created(g: Growth, id: string) {
    id in g.after && id !in g.before
  }

  lemma {:induction false} PersistThrough(gs: seq<Growth>, i: nat, j: nat)
    requires Passes(gs) && i < j < |gs|
    ensures Persist(gs[i].after, gs[j].before)
    decreases j
  {
    assert Persist(gs[j - 1].after, gs[j].before);
    if i < j - 1 {
      PersistThrough(gs, i, j - 1);
      assert Persist(gs[j - 1].before, gs[j - 1].after);
    }
  }

  /**
   Over any number of passes, from whatever caches and failures they come, and whatever else
   happens to the store between them: at most one run is created for a slot of a job.
   */
  lemma OnePerSlot(gs: seq<Growth>, i: nat, a: string, j: nat, b: string)
    requires Passes(gs) && i <= j < |gs| && Created(gs[i], a) && Created(gs[j], b)
    requires SameSlot(gs[i].after[a], gs[j].after[b])
    ensures i == j && a == b
  {
    var r := gs[j].after[b];
    assert !SlotTaken(gs[j].before, r.jobID, r.scheduledFor);
    if i < j {
      PersistThrough(gs, i, j);
    }
  }

  /** Creating a root is a slot check and a write of the protocol. */
  lemma RootIsSteps(c: P.Config, d: P.Discipline, s: P.State, process: nat, job: string, fireAt: Time, id: string,
                    batch: string)
    requires job in c.jobs && process !in s.slots && !SlotTaken(s.runs, job, fireAt) && P.FreshIds(s, id, batch)
    ensures P.Legal(c, d, s, [P.CheckSlot(process, job, fireAt)] + [P.CreateRoot(process, id, batch)])
    ensures P.Exec(c, d, s, [P.CheckSlot(process, job, fireAt)] + [P.CreateRoot(process, id, batch)]).runs ==
            s.runs[id := P.NewRun(id, job, batch, 0, fireAt, fireAt)]
  {
    P.OneStep(c, d, s, [], P.CheckSlot(process, job, fireAt));
    assert [] + [P.CheckSlot(process, job, fireAt)] == [P.CheckSlot(process, job, fireAt)];
    P.OneStep(c, d, s, [P.CheckSlot(process, job, fireAt)], P.CreateRoot(process, id, batch));
  }
}
