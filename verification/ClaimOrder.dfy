/** Which runs a `ClaimDue` call takes, how long a ready run waits, and how a call is made of steps. */
module ClaimOrder {
  import opened CronSchedule
  import opened Counting
  import opened Ordering
  import opened JobModel
  import opened MemoryStore
  import opened P = Protocol

  /** One call of `ClaimDue`: the runs before and after it, and the ready ones in due order. */
  datatype Call = Call(
    before: map<string, Run>, ready: seq<Run>, now: Time, worker: string, lease: nat, limit: int,
    after: map<string, Run>)
  {
    /** The runs taken. */
    function Due(): seq<Run> {
      Capped(ready, limit)
    }
  }

  /** What `Store.ClaimDue` ensures. */
  ghost predicate IsClaim(k: Call) {
    && Keyed(k.before)
    && Lists(k.before, RunKey, ReadyAt(k.now), DueBefore, k.ready)
    && LeasesExactly(k.before, IdsOf(k.Due()), k.worker, k.now, k.lease, k.after)
  }

  /** The ready runs that go before id. */
  ghost function Ahead(runs: map<string, Run>, now: Time, id: string): set<string>
    requires id in runs
  {
    set x | x in runs && Ready(runs[x], now) && DueBefore(runs[x], runs[id])
  }

  ghost predicate IsReady(runs: map<string, Run>, now: Time, id: string) {
    id in runs && Ready(runs[id], now)
  }

  lemma NotYetTaken(due: seq<Run>, n: nat)
    requires n < |due| && DistinctKeys(due, RunKey)
    ensures due[n].id !in IdsOf(due[..n])
  {
  }

  lemma {:induction false} DistinctCount(s: seq<Run>)
    requires DistinctKeys(s, RunKey)
    ensures |IdsOf(s)| == |s|
  {
    if s != [] {
      var init, last := s[..|s| - 1], s[|s| - 1];
      DistinctCount(init);
      assert s == init + [last];
      assert IdsOf(s) == IdsOf(init) + {last.id};
      NotYetTaken(s, |s| - 1);
    }
  }

  /** The ready runs ahead of the one at position i are those before that position. */
  lemma AheadOfPosition(k: Call, i: nat)
    requires IsClaim(k) && i < |k.ready|
    ensures k.ready[i].id in k.before
    ensures Ahead(k.before, k.now, k.ready[i].id) == IdsOf(k.ready[..i])
  {
    var id := k.ready[i].id;
    assert RunKey(k.ready[i]) in k.before;
    forall x | x in Ahead(k.before, k.now, id)
      ensures x in IdsOf(k.ready[..i])
    {
      var j :| 0 <= j < |k.ready| && k.ready[j] == k.before[x];
      DueIsAsymmetric(k, i, j);
      assert k.ready[j] in k.ready[..i];
    }
    forall j | 0 <= j < i
      ensures k.ready[j].id in Ahead(k.before, k.now, id)
    {
      assert RunKey(k.ready[j]) in k.before && RunKey(k.ready[j]) != RunKey(k.ready[i]);
      DueBeforeTotal(k.ready[j], k.ready[i]);
    }
  }

  lemma DueIsAsymmetric(k: Call, i: nat, j: nat)
    requires IsClaim(k) && i < |k.ready| && j < |k.ready| && DueBefore(k.ready[j], k.ready[i])
    ensures j < i
  {
    OrdersAreWeak();
  }

  lemma Position(k: Call, id: string) returns (i: nat)
    requires IsClaim(k) && IsReady(k.before, k.now, id)
    ensures i < |k.ready| && k.ready[i] == k.before[id] && k.ready[i].id == id
    ensures |Ahead(k.before, k.now, id)| == i
  {
    i :| 0 <= i < |k.ready| && k.ready[i] == k.before[id];
    AheadOfPosition(k, i);
    DistinctCount(k.ready[..i]);
  }

  /** Whether the run at a position is taken. */
  lemma TakenByPosition(k: Call, i: nat)
    requires IsClaim(k) && i < |k.ready|
    ensures k.ready[i].id in IdsOf(k.Due()) <==> i < |k.Due()|
  {
  }

  /** A call with a positive limit takes a run exactly when it is ready with fewer than limit ready runs ahead. */
  lemma ClaimedIff(k: Call, id: string)
    requires IsClaim(k) && k.limit > 0
    ensures id in IdsOf(k.Due()) <==>
            IsReady(k.before, k.now, id) && |Ahead(k.before, k.now, id)| < k.limit
  {
    if IsReady(k.before, k.now, id) {
      var i := Position(k, id);
      TakenByPosition(k, i);
    } else if r :| r in k.Due() && r.id == id {
      var i :| 0 <= i < |k.Due()| && k.Due()[i] == r;
      assert RunKey(k.ready[i]) in k.before && Ready(k.ready[i], k.now);
    }
  }

  /** A run that is taken is due no later than a ready one that is left, and at the same time it has the smaller ID. */
  lemma TakesEarliest(k: Call, a: string, b: string)
    requires IsClaim(k) && a in IdsOf(k.Due()) && b !in IdsOf(k.Due())
    requires b in k.before
    requires var r := k.before[b];
      (r.state == Pending && r.scheduledFor <= k.now) || (r.state == Running && r.leaseExpiry < k.now)
    ensures a in k.before && k.before[a].scheduledFor <= k.before[b].scheduledFor
    ensures k.before[a].scheduledFor == k.before[b].scheduledFor ==> Less(a, b)
  {
    var j := Position(k, b);
    TakenByPosition(k, j);
    var i :| 0 <= i < |k.Due()| && k.Due()[i].id == a;
    assert RunKey(k.ready[i]) in k.before;
    DueFirst(k.before, k.ready, k.now, i, j);
  }

  /** Without a positive limit every ready run is taken. */
  lemma NoLimit(k: Call, id: string)
    requires IsClaim(k) && k.limit <= 0
    ensures id in IdsOf(k.Due()) <==> IsReady(k.before, k.now, id)
  {
    if id in IdsOf(k.Due()) {
      TakenIsReady(k, id);
    }
    if IsReady(k.before, k.now, id) {
      var i := Position(k, id);
    }
  }

  lemma TakenIsReady(k: Call, id: string)
    requires IsClaim(k) && id in IdsOf(k.Due())
    ensures id in k.before
    ensures var r := k.before[id];
      (r.state == Pending && r.scheduledFor <= k.now) || (r.state == Running && r.leaseExpiry < k.now)
  {
    var i :| 0 <= i < |k.Due()| && k.Due()[i].id == id;
    assert RunKey(k.ready[i]) in k.before && Ready(k.ready[i], k.now);
  }

  /** A ready run that is not taken stays as it was, and limit runs fewer are ahead of it. */
  lemma MovesUp(k: Call, id: string)
    requires IsClaim(k) && k.limit > 0 && IsReady(k.before, k.now, id) && id !in IdsOf(k.Due())
    ensures id in k.after && k.after[id] == k.before[id]
    ensures |Ahead(k.after, k.now, id)| <= |Ahead(k.before, k.now, id)| - k.limit
  {
    var i := Position(k, id);
    TakenByPosition(k, i);
    AheadOfPosition(k, i);
    var left := k.ready[k.limit..i];
    forall x | x in Ahead(k.after, k.now, id)
      ensures x in IdsOf(left)
    {
      StillAhead(k, i, x);
    }
    DistinctCount(left);
    SubsetSize(Ahead(k.after, k.now, id), IdsOf(left));
  }

  /** Leased runs are not ready, so what is ready after a call was not taken. */
  lemma WasReady(k: Call, x: string)
    requires IsClaim(k) && IsReady(k.after, k.now, x)
    ensures x in k.before && k.after[x] == k.before[x] && x !in IdsOf(k.Due())
  {
  }

  lemma ReadyPosition(k: Call, x: string) returns (j: nat)
    requires IsClaim(k) && IsReady(k.after, k.now, x)
    ensures x in k.before && k.after[x] == k.before[x] && x !in IdsOf(k.Due())
    ensures j < |k.ready| && k.ready[j] == k.before[x] && k.ready[j].id == x
  {
    WasReady(k, x);
    assert k.before[x] in k.ready;
    j :| 0 <= j < |k.ready| && k.ready[j] == k.before[x];
  }

  lemma StillAhead(k: Call, i: nat, x: string)
    requires IsClaim(k) && k.limit > 0 && k.limit <= i < |k.ready| && k.ready[i].id in k.after
    requires k.after[k.ready[i].id] == k.ready[i] && x in Ahead(k.after, k.now, k.ready[i].id)
    ensures x in IdsOf(k.ready[k.limit..i])
  {
    var j := ReadyPosition(k, x);
    DueIsAsymmetric(k, i, j);
    TakenByPosition(k, j);
    assert k.ready[j] in k.ready[k.limit..i];
  }

  /** Between two calls the waiting run is left alone and no run ahead of it becomes ready. */
  ghost predicate NobodyJumpsAhead(k: Call, k': Call, id: string) {
    IsReady(k.after, k.now, id) ==>
      && IsReady(k'.before, k'.now, id)
      && Ahead(k'.before, k'.now, id) <= Ahead(k.after, k.now, id)
  }

  ghost predicate Undisturbed(calls: seq<Call>, limit: int, id: string) {
    && (forall i | 0 <= i < |calls| :: IsClaim(calls[i]) && calls[i].limit == limit)
    && (forall i | 0 <= i < |calls| - 1 :: NobodyJumpsAhead(calls[i], calls[i + 1], id))
  }

  /**
   Bounded wait: a run with n ready runs ahead is taken by call n / limit + 1 at the latest
   (i, counted from zero, is at most n / limit).
   */
  lemma {:induction false} BoundedWait(calls: seq<Call>, limit: int, id: string) returns (i: nat)
    requires limit > 0 && calls != [] && Undisturbed(calls, limit, id)
    requires IsReady(calls[0].before, calls[0].now, id)
    requires |Ahead(calls[0].before, calls[0].now, id)| < |calls| * limit
    ensures i < |calls| && i * limit <= |Ahead(calls[0].before, calls[0].now, id)|
    ensures id in IdsOf(calls[i].Due())
    decreases |calls|
  {
    var k := calls[0];
    var ahead := |Ahead(k.before, k.now, id)|;
    ClaimedIff(k, id);
    if ahead < limit {
      i := 0;
    } else {
      var rest := calls[1..];
      AtLeastTwo(ahead, |calls|, limit);
      var ahead' := NextCall(calls, limit, id);
      OneCallLess(ahead, ahead', |calls|, limit);
      var j := BoundedWait(rest, limit, id);
      OneCallMore(ahead, ahead', j, limit);
      assert rest[j] == calls[j + 1];
      i := j + 1;
    }
  }

  /** A ready run that is not taken finds limit fewer runs ahead at the next call. */
  lemma NextCall(calls: seq<Call>, limit: int, id: string) returns (ahead': nat)
    requires limit > 0 && |calls| > 1 && Undisturbed(calls, limit, id)
    requires IsReady(calls[0].before, calls[0].now, id) && id !in IdsOf(calls[0].Due())
    ensures Undisturbed(calls[1..], limit, id) && IsReady(calls[1].before, calls[1].now, id)
    ensures ahead' == |Ahead(calls[1].before, calls[1].now, id)| <= |Ahead(calls[0].before, calls[0].now, id)| - limit
  {
    var k, k' := calls[0], calls[1];
    UndisturbedTail(calls, limit, id);
    MovesUp(k, id);
    ahead' := |Ahead(k'.before, k'.now, id)|;
    SubsetSize(Ahead(k'.before, k'.now, id), Ahead(k.after, k.now, id));
  }

  lemma UndisturbedTail(calls: seq<Call>, limit: int, id: string)
    requires |calls| > 1 && Undisturbed(calls, limit, id)
    ensures Undisturbed(calls[1..], limit, id)
    ensures IsClaim(calls[0]) && calls[0].limit == limit && NobodyJumpsAhead(calls[0], calls[1], id)
  {
    var rest := calls[1..];
    assert forall i | 0 <= i < |rest| :: rest[i] == calls[i + 1];
    assert NobodyJumpsAhead(calls[0], calls[0 + 1], id);
  }

  lemma AtLeastTwo(ahead: nat, calls: nat, limit: int)
    requires 0 < limit <= ahead < calls * limit
    ensures calls > 1
  {
    assert calls == 0 ==> calls * limit == 0;
    assert calls == 1 ==> calls * limit == limit;
  }

  lemma OneCallLess(ahead: nat, ahead': nat, calls: nat, limit: int)
    requires ahead < calls * limit && ahead' <= ahead - limit
    ensures ahead' < (calls - 1) * limit
  {
    assert (calls - 1) * limit == calls * limit - limit;
  }

  lemma OneCallMore(ahead: nat, ahead': nat, i: nat, limit: int)
    requires i * limit <= ahead' <= ahead - limit
    ensures (i + 1) * limit <= ahead
  {
    assert (i + 1) * limit == i * limit + limit;
  }
}
