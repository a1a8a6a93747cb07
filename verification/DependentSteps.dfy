/** An undisturbed `enqueueDependents` as a sequence of protocol steps. */
module DependentSteps {
  import opened CronSchedule
  import opened JobModel
  import opened MemoryStore
  import opened Protocol
  import opened Dependents

  /** The steps goroutine t takes to enqueue dependents. */
  predicate OfTask(l: Label, t: nat) {
    (l.Lock? || l.Inspect? || l.CreateDependent? || l.Unlock?) && l.task == t
  }

  /** The labels are legal steps of goroutine t from s to s'. */
  ghost predicate Path(c: Config, d: Discipline, t: nat, s: State, labels: seq<Label>, s': State) {
    && (forall i | 0 <= i < |labels| :: OfTask(labels[i], t))
    && Legal(c, d, s, labels) && Exec(c, d, s, labels) == s'
  }

  lemma Extend(c: Config, d: Discipline, t: nat, s: State, labels: seq<Label>, s': State, l: Label)
    requires Path(c, d, t, s, labels, s') && OfTask(l, t) && Enabled(c, s', l)
    ensures Path(c, d, t, s, labels + [l], Apply(c, s', l))
  {
    OneStep(c, d, s, labels, l);
  }

  /** The state with these runs and goroutine t in this phase. */
  ghost function Point(s: State, t: nat, runs: map<string, Run>, p: Phase): State
    requires t in s.tasks
  {
    s.(runs := runs, tasks := s.tasks[t := s.tasks[t].(phase := p)])
  }

  lemma PointMoves(s: State, t: nat, runs: map<string, Run>, p: Phase, runs': map<string, Run>, p': Phase)
    requires t in s.tasks
    ensures var q := Point(s, t, runs, p);
      SetTask(q.(runs := runs'), t, q.tasks[t].(phase := p')) == Point(s, t, runs', p')
  {
  }

  lemma InspectPath(c: Config, d: Discipline, t: nat, s: State, labels: seq<Label>, runs: map<string, Run>, p: Phase)
    requires t in s.tasks && p.Enqueueing? && p.todo != [] && !p.check.Create?
    requires Path(c, d, t, s, labels, Point(s, t, runs, p))
    ensures Path(c, d, t, s, labels + [Inspect(t)], Point(s, t, runs, Inspected(c, runs, s.tasks[t].run, p)))
  {
    Extend(c, d, t, s, labels, Point(s, t, runs, p), Inspect(t));
    PointMoves(s, t, runs, p, runs, Inspected(c, runs, s.tasks[t].run, p));
  }

  ghost predicate SucceededFrom(runs: map<string, Run>, deps: seq<string>, batch: string, k: nat) {
    forall i | k <= i < |deps| :: HasSucceeded(runs, deps[i], batch)
  }

  /** Where looking at the dependencies from the k-th on ends. */
  ghost function DepsEnd(c: Config, runs: map<string, Run>, batch: string, p: Phase, k: nat): Phase
    requires p.Enqueueing? && p.todo != []
  {
    if SucceededFrom(runs, c.Deps(p.todo[0]), batch, k) then p.(check := Existing) else PassedOver(p)
  }

  lemma DepsEndNext(c: Config, runs: map<string, Run>, completed: Run, p: Phase, k: nat)
    requires p.Enqueueing? && p.todo != [] && p.check == Dep(k) && k <= |c.Deps(p.todo[0])|
    ensures var q, batch, deps := Inspected(c, runs, completed, p), completed.batchID, c.Deps(p.todo[0]);
      if k < |deps| && HasSucceeded(runs, deps[k], batch)
      then q == p.(check := Dep(k + 1)) && DepsEnd(c, runs, batch, q, k + 1) == DepsEnd(c, runs, batch, p, k)
      else q == DepsEnd(c, runs, batch, p, k)
  {
    var deps, batch := c.Deps(p.todo[0]), completed.batchID;
    if k < |deps| && HasSucceeded(runs, deps[k], batch) {
      assert SucceededFrom(runs, deps, batch, k + 1) ==> SucceededFrom(runs, deps, batch, k);
    }
  }

  lemma {:induction false} DepsPath(c: Config, d: Discipline, t: nat, s: State, labels: seq<Label>,
                                    runs: map<string, Run>,
                                    p: Phase, k: nat)
      returns (labels': seq<Label>)
    requires t in s.tasks && p.Enqueueing? && p.todo != [] && p.check == Dep(k) && k <= |c.Deps(p.todo[0])|
    requires Path(c, d, t, s, labels, Point(s, t, runs, p))
    ensures Path(c, d, t, s, labels', Point(s, t, runs, DepsEnd(c, runs, s.tasks[t].run.batchID, p, k)))
    decreases |c.Deps(p.todo[0])| - k
  {
    InspectPath(c, d, t, s, labels, runs, p);
    DepsEndNext(c, runs, s.tasks[t].run, p, k);
    labels' := labels + [Inspect(t)];
    var deps := c.Deps(p.todo[0]);
    if k < |deps| && HasSucceeded(runs, deps[k], s.tasks[t].run.batchID) {
      labels' := DepsPath(c, d, t, s, labels', runs, p.(check := Dep(k + 1)), k + 1);
    }
  }

  /** What the code does for one job. */
  ghost predicate Handles(j: Job, completed: Run, at: Time, id: string, runs: map<string, Run>,
                          runs': map<string, Run>) {
    if Starts(j, completed, runs)
    then id !in runs && runs' == runs[id := NewRun(id, j.id, completed.batchID, 0, at, at)]
    else runs' == runs
  }

  lemma JobPath(c: Config, d: Discipline, t: nat, s: State, labels: seq<Label>, runs: map<string, Run>, p: Phase,
                j: Job, id: string, runs': map<string, Run>)
      returns (labels': seq<Label>)
    requires t in s.tasks && p.Enqueueing? && p.todo != [] && p.check == Begin
    requires p.todo[0] == j.id && j.id in c.jobs && c.jobs[j.id] == j
    requires Handles(j, s.tasks[t].run, p.at, id, runs, runs')
    requires Path(c, d, t, s, labels, Point(s, t, runs, p))
    ensures Path(c, d, t, s, labels', Point(s, t, runs', PassedOver(p)))
  {
    InspectPath(c, d, t, s, labels, runs, p);
    labels' := labels + [Inspect(t)];
    if s.tasks[t].run.jobID in j.dependsOn {
      labels' := DepsPath(c, d, t, s, labels', runs, p.(check := Dep(0)), 0);
      assert SucceededFrom(runs, j.dependsOn, s.tasks[t].run.batchID, 0) <==> Wakes(j, s.tasks[t].run, runs);
      if Wakes(j, s.tasks[t].run, runs) {
        labels' := CreatePath(c, d, t, s, labels', runs, p.(check := Existing), j, id, runs');
      }
    }
  }

  /** The last query, and the write. */
  lemma CreatePath(c: Config, d: Discipline, t: nat, s: State, labels: seq<Label>, runs: map<string, Run>, p: Phase,
                   j: Job, id: string, runs': map<string, Run>)
      returns (labels': seq<Label>)
    requires t in s.tasks && p.Enqueueing? && p.todo != [] && p.check == Existing && p.todo[0] == j.id
    requires Wakes(j, s.tasks[t].run, runs) && Handles(j, s.tasks[t].run, p.at, id, runs, runs')
    requires Path(c, d, t, s, labels, Point(s, t, runs, p))
    ensures Path(c, d, t, s, labels', Point(s, t, runs', PassedOver(p)))
  {
    InspectPath(c, d, t, s, labels, runs, p);
    labels' := labels + [Inspect(t)];
    if !HasRun(runs, j.id, s.tasks[t].run.batchID) {
      var q := p.(check := Create);
      Extend(c, d, t, s, labels', Point(s, t, runs, q), CreateDependent(t, id));
      PointMoves(s, t, runs, q, runs', PassedOver(q));
      labels' := labels' + [CreateDependent(t, id)];
    }
  }

  // The whole list.

  ghost function Ids(js: seq<Job>): set<string> {
    set i | 0 <= i < |js| :: js[i].id
  }

  /** The runs after the first n jobs, of a call that ends with runs'. */
  ghost function Upto(js: seq<Job>, n: nat, runs: map<string, Run>, runs': map<string, Run>): map<string, Run>
    requires n <= |js|
  {
    map id | id in runs' && (id in runs || runs'[id].jobID in Ids(js[..n])) :: runs'[id]
  }

  /** js are the jobs in the order they are listed in. */
  ghost predicate Listed(c: Config, js: seq<Job>) {
    && DistinctKeys(js, JobKey) && |c.listing| == |js|
    && forall i | 0 <= i < |js| :: js[i].id == c.listing[i] && js[i].id in c.jobs && c.jobs[js[i].id] == js[i]
  }

  lemma UptoUnblocks(js: seq<Job>, n: nat, completed: Run, now: Time, runs: map<string, Run>, runs': map<string, Run>)
    requires n <= |js| && Unblocks(js, |js|, completed, now, runs, runs')
    ensures Unblocks(js, 0, completed, now, runs, Upto(js, n, runs, runs'))
  {
  }

  lemma NextIds(js: seq<Job>, n: nat)
    requires n < |js| && DistinctKeys(js, JobKey)
    ensures js[n].id !in Ids(js[..n]) && Ids(js[..n + 1]) == Ids(js[..n]) + {js[n].id}
  {
    assert forall i | 0 <= i < n :: JobKey(js[i]) != JobKey(js[n]);
    assert forall i | 0 <= i < n :: js[..n + 1][i] == js[..n][i];
    assert js[..n + 1][n] == js[n];
  }

  /** From one job to the next, the runs change as the code changes them. */
  lemma UptoHandles(js: seq<Job>, n: nat, completed: Run, now: Time, runs: map<string, Run>, runs': map<string, Run>)
      returns (id: string)
    requires n < |js| && DistinctKeys(js, JobKey) && Unblocks(js, |js|, completed, now, runs, runs')
    ensures Handles(js[n], completed, now, id, Upto(js, n, runs, runs'), Upto(js, n + 1, runs, runs'))
  {
    var before, after := Upto(js, n, runs, runs'), Upto(js, n + 1, runs, runs');
    var j := js[n];
    NextIds(js, n);
    UptoUnblocks(js, n, completed, now, runs, runs');
    WakesStays(js, 0, completed, now, runs, before, j);
    SameHasRun(js, n, completed, now, runs, runs');
    if Starts(j, completed, runs) {
      assert HasRun(runs', j.id, completed.batchID);
      id :| id in runs' && runs'[id].jobID == j.id && runs'[id].batchID == completed.batchID;
      assert id !in runs;
      assert after == before[id := runs'[id]];
    } else {
      id := "";
      NoneStarted(js, n, completed, now, runs, runs');
      assert after == before;
    }
  }

  lemma SameHasRun(js: seq<Job>, n: nat, completed: Run, now: Time, runs: map<string, Run>, runs': map<string, Run>)
    requires n < |js| && js[n].id !in Ids(js[..n]) && Unblocks(js, |js|, completed, now, runs, runs')
    ensures HasRun(Upto(js, n, runs, runs'), js[n].id, completed.batchID) <==> HasRun(runs, js[n].id, completed.batchID)
  {
    HasRunStays(runs, Upto(js, n, runs, runs'), js[n].id, completed.batchID);
  }

  lemma NoneStarted(js: seq<Job>, n: nat, completed: Run, now: Time, runs: map<string, Run>, runs': map<string, Run>)
    requires n < |js| && DistinctKeys(js, JobKey) && Unblocks(js, |js|, completed, now, runs, runs')
    requires !Starts(js[n], completed, runs)
    ensures forall id | id in runs' && id !in runs :: runs'[id].jobID != js[n].id
  {
    forall id | id in runs' && id !in runs
      ensures runs'[id].jobID != js[n].id
    {
      assert StartedIn(js, completed, runs, runs'[id].jobID);
      var i :| 0 <= i < |js| && js[i].id == runs'[id].jobID && Starts(js[i], completed, runs);
      assert i != n ==> JobKey(js[i]) != JobKey(js[n]);
    }
  }

  /** The goroutine has recorded a success and may take its process's mutex. */
  ghost predicate MayEnqueue(c: Config, s: State, t: nat) {
    t in s.tasks && s.tasks[t].phase.Waiting? && Enabled(c, s, Lock(t))
  }

  /** The call of goroutine t that ends with runs'. */
  ghost predicate Plan(c: Config, s: State, t: nat, js: seq<Job>, runs': map<string, Run>) {
    Listed(c, js) && MayEnqueue(c, s, t) && Unblocks(js, |js|, s.tasks[t].run, s.now, s.runs, runs')
  }

  /** The state after the first n jobs. */
  ghost function Midway(c: Config, s: State, t: nat, js: seq<Job>, n: nat, runs': map<string, Run>): State
    requires Plan(c, s, t, js, runs') && n <= |js|
  {
    Point(s, t, Upto(js, n, s.runs, runs'), Enqueueing(c.listing[n..], s.now, Begin))
  }

  /** Some steps of goroutine t lead past the first n jobs. */
  ghost predicate Reaches(c: Config, d: Discipline, t: nat, s: State, js: seq<Job>, n: nat, runs': map<string, Run>)
    requires Plan(c, s, t, js, runs') && n <= |js|
  {
    exists labels :: Path(c, d, t, s, labels, Midway(c, s, t, js, n, runs'))
  }

  lemma {:induction false} ReachesAll(c: Config, d: Discipline, t: nat, s: State, js: seq<Job>, n: nat,
                                      runs': map<string, Run>)
    requires Plan(c, s, t, js, runs') && n <= |js|
    ensures Reaches(c, d, t, s, js, n, runs')
    decreases n
  {
    if n == 0 {
      var labels := LockPath(c, d, t, s, js, runs');
    } else {
      ReachesAll(c, d, t, s, js, n - 1, runs');
      ReachesNext(c, d, t, s, js, n - 1, runs');
    }
  }

  lemma ReachesNext(c: Config, d: Discipline, t: nat, s: State, js: seq<Job>, n: nat, runs': map<string, Run>)
    requires Plan(c, s, t, js, runs') && n < |js| && Reaches(c, d, t, s, js, n, runs')
    ensures Reaches(c, d, t, s, js, n + 1, runs')
  {
    var labels :| Path(c, d, t, s, labels, Midway(c, s, t, js, n, runs'));
    var labels' := NextPath(c, d, t, s, labels, js, n, runs');
  }

  lemma LockPath(c: Config, d: Discipline, t: nat, s: State, js: seq<Job>, runs': map<string, Run>)
      returns (labels: seq<Label>)
    requires Plan(c, s, t, js, runs')
    ensures Path(c, d, t, s, labels, Midway(c, s, t, js, 0, runs'))
  {
    labels := [] + [Lock(t)];
    Extend(c, d, t, s, [], s, Lock(t));
    NoneYet(js, s.tasks[t].run, s.now, s.runs, runs');
    assert c.listing[0..] == c.listing;
  }

  lemma NoneYet(js: seq<Job>, completed: Run, now: Time, runs: map<string, Run>, runs': map<string, Run>)
    requires Unblocks(js, |js|, completed, now, runs, runs')
    ensures Upto(js, 0, runs, runs') == runs
  {
  }

  lemma NextPath(c: Config, d: Discipline, t: nat, s: State, labels: seq<Label>, js: seq<Job>, n: nat,
                 runs': map<string, Run>)
      returns (labels': seq<Label>)
    requires Plan(c, s, t, js, runs') && n < |js| && Path(c, d, t, s, labels, Midway(c, s, t, js, n, runs'))
    ensures Path(c, d, t, s, labels', Midway(c, s, t, js, n + 1, runs'))
  {
    var p := Enqueueing(c.listing[n..], s.now, Begin);
    var id := UptoHandles(js, n, s.tasks[t].run, s.now, s.runs, runs');
    assert c.listing[n..][1..] == c.listing[n + 1..];
    labels' := JobPath(c, d, t, s, labels, Upto(js, n, s.runs, runs'), p, js[n], id, Upto(js, n + 1, s.runs, runs'));
  }

  /**
   An undisturbed, error-free `EnqueueDependents` is a legal sequence of steps of its goroutine,
   from taking the mutex to releasing it, with the same effect on the runs.
   */
  lemma EnqueueIsSteps(c: Config, d: Discipline, t: nat, s: State, js: seq<Job>, runs': map<string, Run>)
      returns (labels: seq<Label>)
    requires Plan(c, s, t, js, runs')
    ensures Path(c, d, t, s, labels, s.(runs := runs', tasks := s.tasks - {t}))
  {
    ReachesAll(c, d, t, s, js, |js|, runs');
    labels :| Path(c, d, t, s, labels, Midway(c, s, t, js, |js|, runs'));
    assert Upto(js, |js|, s.runs, runs') == runs' by {
      AllListed(js, s.tasks[t].run, s.now, s.runs, runs');
    }
    assert c.listing[|js|..] == [];
    UnlockPath(c, d, t, s, labels, runs', Enqueueing([], s.now, Begin));
    labels := labels + [Unlock(t)];
  }

  lemma UnlockPath(c: Config, d: Discipline, t: nat, s: State, labels: seq<Label>, runs': map<string, Run>, p: Phase)
    requires t in s.tasks && p.Enqueueing? && p.todo == [] && Path(c, d, t, s, labels, Point(s, t, runs', p))
    ensures Path(c, d, t, s, labels + [Unlock(t)], s.(runs := runs', tasks := s.tasks - {t}))
  {
    var end := Point(s, t, runs', p);
    Extend(c, d, t, s, labels, end, Unlock(t));
    assert end.tasks - {t} == s.tasks - {t};
  }

  lemma AllListed(js: seq<Job>, completed: Run, now: Time, runs: map<string, Run>, runs': map<string, Run>)
    requires Unblocks(js, |js|, completed, now, runs, runs')
    ensures Upto(js, |js|, runs, runs') == runs'
  {
    assert js[..|js|] == js;
    forall id | id in runs' && id !in runs
      ensures runs'[id].jobID in Ids(js)
    {
      assert StartedIn(js, completed, runs, runs'[id].jobID);
    }
  }
}
