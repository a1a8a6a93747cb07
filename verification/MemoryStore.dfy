/** The in-memory store, `internal/store/memory`.  Each method is one atomic operation. */
module MemoryStore {
  import opened Text
  import opened CronSchedule
  import opened Ordering
  import opened JobModel
  import P = Protocol

  // The orders runs are listed and claimed in.

  predicate DueBefore(a: Run, b: Run) {
    a.scheduledFor < b.scheduledFor || (a.scheduledFor == b.scheduledFor && Less(a.id, b.id))
  }

  predicate NewerThan(a: Run, b: Run) {
    a.createdAt > b.createdAt || (a.createdAt == b.createdAt && Less(b.id, a.id))
  }

  predicate IdBefore(a: Job, b: Job) {
    Less(a.id, b.id)
  }

  lemma OrdersAreWeak()
    ensures WeakOrder(DueBefore) && WeakOrder(NewerThan) && WeakOrder(IdBefore)
  {
    StringOrder();
  }

  lemma DueBeforeTotal(a: Run, b: Run)
    requires a.id != b.id && !DueBefore(b, a)
    ensures DueBefore(a, b)
  {
    LessTotal(a.id, b.id);
  }

  ghost predicate Keyed(runs: map<string, Run>) {
    forall id | id in runs :: runs[id].id == id
  }

  ghost predicate JobsKeyed(jobs: map<string, Job>) {
    forall id | id in jobs :: jobs[id].id == id
  }

  /** A zero field of the filter matches everything. */
  datatype RunFilter = RunFilter(jobID: string, batchID: string, state: Option<RunState>, limit: int, offset: int) {
    predicate Matches(r: Run) {
      && (jobID == "" || r.jobID == jobID)
      && (batchID == "" || r.batchID == batchID)
      && (state.None? || r.state == state.value)
    }

    function Select(): Run -> bool {
      (r: Run) => Matches(r)
    }

    /** The part of the full listing the filter asks for. */
    function Page(all: seq<Run>): seq<Run> {
      var rest := if offset <= 0 then all else if offset >= |all| then [] else all[offset..];
      if limit > 0 && |rest| > limit then rest[..limit] else rest
    }
  }

  // Listing the values of a map.

  ghost predicate DistinctKeys<T>(s: seq<T>, key: T -> string) {
    forall i, j | 0 <= i < j < |s| :: key(s[i]) != key(s[j])
  }

  /** all lists the values satisfying a condition, once each, in the given order. */
  ghost predicate Lists<T>(m: map<string, T>, key: T -> string, select: T -> bool, less: (T, T) -> bool, all: seq<T>) {
    && Sorted(all, less) && DistinctKeys(all, key)
    && (forall i | 0 <= i < |all| :: key(all[i]) in m && m[key(all[i])] == all[i] && select(all[i]))
    && (forall id | id in m && select(m[id]) :: m[id] in all)
  }

  /** Go through the map in any order, keep what is selected, and sort it. */
  method Collect<T(!new)>(m: map<string, T>, key: T -> string, select: T -> bool, less: (T, T) -> bool)
      returns (all: seq<T>)
    requires (forall id | id in m :: key(m[id]) == id) && WeakOrder(less)
    ensures Lists(m, key, select, less, all)
  {
    var found: seq<T> := [];
    var rest := m.Keys;
    while rest != {}
      invariant rest <= m.Keys && DistinctKeys(found, key)
      invariant forall i | 0 <= i < |found| ::
        key(found[i]) in m && key(found[i]) !in rest && m[key(found[i])] == found[i] && select(found[i])
      invariant forall id | id in m && id !in rest && select(m[id]) :: m[id] in found
    {
      var id :| id in rest;
      rest := rest - {id};
      if select(m[id]) {
        found := found + [m[id]];
      }
    }
    all := Sort(found, less);
    SortSorted(found, less);
    SortKeeps(found, key, less);
    assert forall i | 0 <= i < |all| :: all[i] in found;
  }

  lemma SortKeeps<T>(found: seq<T>, key: T -> string, less: (T, T) -> bool)
    requires DistinctKeys(found, key)
    ensures forall r :: r in Sort(found, less) <==> r in found
    ensures DistinctKeys(Sort(found, less), key)
  {
    var all := Sort(found, less);
    SameElements(found, less);
    assert Distinct(found);
    PermutationDistinct(found, all);
    forall i, j | 0 <= i < j < |all|
      ensures key(all[i]) != key(all[j])
    {
      ComesFrom(found, less, i);
      ComesFrom(found, less, j);
      SameKey(found, key, all[i], all[j]);
    }
  }

  lemma ComesFrom<T>(s: seq<T>, less: (T, T) -> bool, i: nat)
    requires i < |s|
    ensures Sort(s, less)[i] in s
  {
    assert Sort(s, less)[i] in multiset(Sort(s, less));
  }

  lemma SameKey<T>(s: seq<T>, key: T -> string, x: T, y: T)
    requires DistinctKeys(s, key) && x in s && y in s
    ensures key(x) == key(y) ==> x == y
  {
  }

  /** Different keys are never tied. */
  ghost predicate Strict<T(!new)>(key: T -> string, less: (T, T) -> bool) {
    forall x, y | key(x) != key(y) :: less(x, y) || less(y, x)
  }

  lemma OrdersAreStrict()
    ensures Strict(RunKey, DueBefore) && Strict(RunKey, NewerThan) && Strict(JobKey, IdBefore)
  {
    forall a: string, b: string | a != b
      ensures Less(a, b) || Less(b, a)
    {
      LessTotal(a, b);
    }
  }

  /** A listing is determined by its condition and order, so the order the map is iterated in does not show. */
  lemma ListingUnique<T(!new)>(m: map<string, T>, key: T -> string, select: T -> bool, less: (T, T) -> bool,
                        a: seq<T>, b: seq<T>)
    requires Lists(m, key, select, less, a) && Lists(m, key, select, less, b) && WeakOrder(less) && Strict(key, less)
    ensures a == b
  {
    SameListing(key, less, a, b);
  }

  lemma {:induction false} SameListing<T(!new)>(key: T -> string, less: (T, T) -> bool, a: seq<T>, b: seq<T>)
    requires Sorted(a, less) && Sorted(b, less) && DistinctKeys(a, key) && DistinctKeys(b, key)
    requires WeakOrder(less) && Strict(key, less) && forall x :: x in a <==> x in b
    requires forall x, y | x in a && y in a && key(x) == key(y) :: x == y
    ensures a == b
    decreases |a|
  {
    assert (a != [] ==> a[0] in a) && (b != [] ==> b[0] in b);
    if a != [] {
      SameHead(key, less, a, b);
      forall x
        ensures x in a[1..] <==> x in b[1..]
      {
        InTail(key, a, x);
        InTail(key, b, x);
      }
      SameListing(key, less, a[1..], b[1..]);
      assert a == [a[0]] + a[1..] && b == [b[0]] + b[1..];
    }
  }

  lemma SameHead<T(!new)>(key: T -> string, less: (T, T) -> bool, a: seq<T>, b: seq<T>)
    requires a != [] && b != [] && Sorted(a, less) && Sorted(b, less)
    requires WeakOrder(less) && Strict(key, less) && forall x :: x in a <==> x in b
    requires forall x, y | x in a && y in a && key(x) == key(y) :: x == y
    ensures a[0] == b[0]
  {
    assert a[0] in a && b[0] in b;
    var i :| 0 <= i < |a| && a[i] == b[0];
    var j :| 0 <= j < |b| && b[j] == a[0];
    assert i > 0 ==> !less(a[i], a[0]);
    assert j > 0 ==> !less(b[j], b[0]);
  }

  lemma InTail<T>(key: T -> string, s: seq<T>, x: T)
    requires s != [] && DistinctKeys(s, key)
    ensures x in s[1..] <==> x in s && x != s[0]
  {
    assert s == [s[0]] + s[1..];
  }

  function ReadyAt(now: Time): Run -> bool {
    (r: Run) => P.Ready(r, now)
  }

  function RunKey(r: Run): string {
    r.id
  }

  function JobKey(j: Job): string {
    j.id
  }

  /** The first limit elements, or all of them if limit is not positive. */
  function Capped<T>(s: seq<T>, limit: int): seq<T> {
    if limit > 0 && |s| > limit then s[..limit] else s
  }

  /** What `ClaimDue` does to the runs: those in ids are leased, the rest is untouched. */
  ghost predicate LeasesExactly(runs: map<string, Run>, ids: set<string>, worker: string, now: Time, lease: nat,
                                runs': map<string, Run>) {
    && runs'.Keys == runs.Keys
    && forall id | id in runs :: runs'[id] == if id in ids then P.Leased(runs[id], worker, now, lease) else runs[id]
  }

  ghost predicate Stored(runs: map<string, Run>, due: seq<Run>) {
    forall i | 0 <= i < |due| :: due[i].id in runs && runs[due[i].id] == due[i]
  }

  // What the orders mean.

  /** Newer runs come first, and of two equally new ones the one with the larger ID. */
  ghost predicate NewestFirst(out: seq<Run>) {
    forall i, j | 0 <= i < j < |out| ::
      && out[i].createdAt >= out[j].createdAt
      && (out[i].createdAt == out[j].createdAt ==> Less(out[j].id, out[i].id))
  }

  /** Runs due earlier come first, and of two due at the same time the one with the smaller ID. */
  ghost predicate EarliestFirst(out: seq<Run>) {
    forall i, j | 0 <= i < j < |out| ::
      && out[i].scheduledFor <= out[j].scheduledFor
      && (out[i].scheduledFor == out[j].scheduledFor ==> Less(out[i].id, out[j].id))
  }

  /** The listed runs are stored, and have the job, batch and state that were asked for. */
  ghost predicate OnlyMatching(runs: map<string, Run>, f: RunFilter, out: seq<Run>) {
    forall i | 0 <= i < |out| ::
      && out[i].id in runs && runs[out[i].id] == out[i]
      && (f.jobID != "" ==> out[i].jobID == f.jobID) && (f.batchID != "" ==> out[i].batchID == f.batchID)
      && (f.state.Some? ==> out[i].state == f.state.value)
  }

  /** Every such run is listed. */
  ghost predicate AllMatching(runs: map<string, Run>, f: RunFilter, out: seq<Run>) {
    forall id | id in runs ::
      && (f.jobID == "" || runs[id].jobID == f.jobID) && (f.batchID == "" || runs[id].batchID == f.batchID)
      && (f.state.None? || runs[id].state == f.state.value)
      ==> runs[id] in out
  }

  lemma ListingMeans(runs: map<string, Run>, f: RunFilter, all: seq<Run>)
    requires Lists(runs, RunKey, f.Select(), NewerThan, all)
    ensures NewestFirst(all) && OnlyMatching(runs, f, all) && AllMatching(runs, f, all)
  {
    forall i, j | 0 <= i < j < |all|
      ensures all[i].createdAt >= all[j].createdAt
      ensures all[i].createdAt == all[j].createdAt ==> Less(all[j].id, all[i].id)
    {
      assert RunKey(all[i]) != RunKey(all[j]) && !NewerThan(all[j], all[i]);
      LessTotal(all[i].id, all[j].id);
    }
    assert forall i | 0 <= i < |all| :: RunKey(all[i]) in runs;
  }

  /** A page is the part of the listing from the offset on, of at most limit runs if that is positive. */
  lemma PageMeans(f: RunFilter, all: seq<Run>)
    ensures var out, skip := f.Page(all), if f.offset <= 0 then 0 else f.offset;
      && |out| == (var rest := if skip <= |all| then |all| - skip else 0;
                   if 0 < f.limit < rest then f.limit else rest)
      && forall i | 0 <= i < |out| :: skip + i < |all| && out[i] == all[skip + i]
  {
  }

  /** The runs of before, leased: running under the worker until now + lease, and started now if not earlier. */
  ghost predicate AreLeased(before: map<string, Run>, worker: string, now: Time, lease: nat, claimed: seq<Run>) {
    forall i | 0 <= i < |claimed| ::
      && claimed[i].id in before
      && var r := before[claimed[i].id];
         claimed[i] == r.(state := Running, worker := worker, leaseExpiry := now + lease, updatedAt := now,
                          startedAt := Some(if r.startedAt.Some? then r.startedAt.value else now))
  }

  lemma LeasedInOrder(before: map<string, Run>, ready: seq<Run>, limit: int, worker: string, now: Time, lease: nat,
                      claimed: seq<Run>)
    requires Lists(before, RunKey, ReadyAt(now), DueBefore, ready)
    requires Copies(Capped(ready, limit), worker, now, lease, claimed)
    ensures Copies(ready, worker, now, lease, claimed)
    ensures AreLeased(before, worker, now, lease, claimed)
    ensures EarliestFirst(claimed)
  {
    forall i, j | 0 <= i < j < |claimed|
      ensures claimed[i].scheduledFor <= claimed[j].scheduledFor
      ensures claimed[i].scheduledFor == claimed[j].scheduledFor ==> Less(claimed[i].id, claimed[j].id)
    {
      DueFirst(before, ready, now, i, j);
    }
    assert forall i | 0 <= i < |claimed| :: RunKey(ready[i]) in before;
  }

  lemma CappedStored(before: map<string, Run>, ready: seq<Run>, now: Time, limit: int)
    requires Lists(before, RunKey, ReadyAt(now), DueBefore, ready)
    ensures Stored(before, Capped(ready, limit))
  {
    assert forall i | 0 <= i < |ready| :: RunKey(ready[i]) in before;
  }

  lemma DueFirst(before: map<string, Run>, ready: seq<Run>, now: Time, i: nat, j: nat)
    requires Lists(before, RunKey, ReadyAt(now), DueBefore, ready) && i < j < |ready|
    ensures ready[i].scheduledFor <= ready[j].scheduledFor
    ensures ready[i].scheduledFor == ready[j].scheduledFor ==> Less(ready[i].id, ready[j].id)
  {
    assert RunKey(ready[i]) != RunKey(ready[j]) && !DueBefore(ready[j], ready[i]);
    LessTotal(ready[i].id, ready[j].id);
  }

  /** What `ClaimDue` returns: the runs as they were leased. */
  ghost predicate Copies(due: seq<Run>, worker: string, now: Time, lease: nat, claimed: seq<Run>) {
    |claimed| <= |due| && forall i | 0 <= i < |claimed| :: claimed[i] == P.Leased(due[i], worker, now, lease)
  }

  class Store {
    var jobs: map<string, Job>
    var runs: map<string, Run>

    ghost predicate Valid()
      reads this
    {
      JobsKeyed(jobs) && Keyed(runs)
    }

    constructor ()
      ensures Valid() && jobs == map[] && runs == map[]
    {
      jobs, runs := map[], map[];
    }

    method PutJob(j: Job)
      requires Valid()
      modifies this`jobs
      ensures Valid() && jobs == old(jobs)[j.id := j]
    {
      jobs := jobs[j.id := j];
    }

    method GetJob(id: string) returns (r: Option<Job>)
      ensures r == if id in jobs then Some(jobs[id]) else None
    {
      r := if id in jobs then Some(jobs[id]) else None;
    }

    /** All jobs, by ID. */
    method ListJobs() returns (out: seq<Job>)
      requires Valid()
      ensures Lists(jobs, JobKey, (j: Job) => true, IdBefore, out)
      ensures forall i, j | 0 <= i < j < |out| :: Less(out[i].id, out[j].id)
    {
      OrdersAreWeak();
      OrdersAreStrict();
      out := Collect(jobs, JobKey, (j: Job) => true, IdBefore);
      forall i, j | 0 <= i < j < |out|
        ensures Less(out[i].id, out[j].id)
      {
        assert JobKey(out[i]) != JobKey(out[j]) && !IdBefore(out[j], out[i]);
      }
    }

    /** A run with the same ID is overwritten. */
    method CreateRun(r: Run)
      requires Valid()
      modifies this`runs
      ensures Valid() && runs == old(runs)[r.id := r]
    {
      runs := runs[r.id := r];
    }

    method UpdateRun(r: Run) returns (found: bool)
      requires Valid()
      modifies this`runs
      ensures Valid() && found == (r.id in old(runs))
      ensures runs == if found then old(runs)[r.id := r] else old(runs)
    {
      found := r.id in runs;
      if found {
        runs := runs[r.id := r];
      }
    }

    /** The matching runs, newest first, cut to the requested page. */
    method ListRuns(f: RunFilter) returns (out: seq<Run>)
      requires Valid()
      ensures exists all :: Lists(runs, RunKey, f.Select(), NewerThan, all) && out == f.Page(all)
      ensures NewestFirst(out) && OnlyMatching(runs, f, out)
      ensures f.offset <= 0 && f.limit <= 0 ==> AllMatching(runs, f, out)
    {
      OrdersAreWeak();
      var all := Collect(runs, RunKey, f.Select(), NewerThan);
      ListingMeans(runs, f, all);
      PageMeans(f, all);
      out := all;
      if f.offset > 0 {
        if f.offset >= |out| {
          return [];
        }
        out := out[f.offset..];
      }
      if f.limit > 0 && |out| > f.limit {
        out := out[..f.limit];
      }
    }

    /** The ready runs in due order, cut to limit, leased to worker. */
    method ClaimDue(now: Time, worker: string, lease: nat, limit: int)
        returns (claimed: seq<Run>, ghost ready: seq<Run>)
      requires Valid()
      modifies this`runs
      ensures Valid()
      ensures Lists(old(runs), RunKey, ReadyAt(now), DueBefore, ready)
      ensures |claimed| == |Capped(ready, limit)| && Copies(ready, worker, now, lease, claimed)
      ensures LeasesExactly(old(runs), IdsOf(Capped(ready, limit)), worker, now, lease, runs)
      ensures AreLeased(old(runs), worker, now, lease, claimed)
      ensures EarliestFirst(claimed)
    {
      var found := CollectReady(now, limit);
      ready := found;
      claimed := LeaseAll(Capped(found, limit), worker, now, lease);
      LeasedInOrder(old(runs), found, limit, worker, now, lease, claimed);
    }

    /** The first half of `ClaimDue`: the runs that can be claimed, in order. */
    method CollectReady(now: Time, limit: int) returns (ready: seq<Run>)
      requires Valid()
      ensures Lists(runs, RunKey, ReadyAt(now), DueBefore, ready)
      ensures Stored(runs, Capped(ready, limit))
    {
      OrdersAreWeak();
      ready := Collect(runs, RunKey, ReadyAt(now), DueBefore);
      CappedStored(runs, ready, now, limit);
    }

    /** The loop of `ClaimDue`. */
    method LeaseAll(due: seq<Run>, worker: string, now: Time, lease: nat) returns (claimed: seq<Run>)
      requires Valid() && Stored(runs, due)
      modifies this`runs
      ensures Valid()
      ensures |claimed| == |due| && Copies(due, worker, now, lease, claimed)
      ensures LeasesExactly(old(runs), IdsOf(due), worker, now, lease, runs)
    {
      claimed := [];
      ghost var before := runs;
      for i := 0 to |due|
        invariant |claimed| == i && Copies(due, worker, now, lease, claimed)
        invariant LeasesExactly(before, IdsOf(due[..i]), worker, now, lease, runs)
      {
        NextLease(before, due, i, worker, now, lease, runs);
        var r := P.Leased(due[i], worker, now, lease);
        runs := runs[r.id := r];
        claimed := claimed + [r];
      }
      assert due[..|due|] == due;
      LeasesKeepKeys(before, IdsOf(due), worker, now, lease, runs);
    }
  }

  ghost function IdsOf(s: seq<Run>): set<string> {
    set r | r in s :: r.id
  }

  lemma LeasesKeepKeys(before: map<string, Run>, ids: set<string>, worker: string, now: Time, lease: nat,
                       runs: map<string, Run>)
    requires Keyed(before) && LeasesExactly(before, ids, worker, now, lease, runs)
    ensures Keyed(runs)
  {
  }

  lemma NextLease(before: map<string, Run>, due: seq<Run>, i: nat, worker: string, now: Time, lease: nat,
                  runs: map<string, Run>)
    requires i < |due| && LeasesExactly(before, IdsOf(due[..i]), worker, now, lease, runs)
    requires Stored(before, due)
    ensures LeasesExactly(before, IdsOf(due[..i + 1]), worker, now, lease,
                          runs[due[i].id := P.Leased(due[i], worker, now, lease)])
  {
  }
}
