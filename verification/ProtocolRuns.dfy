/** How the store's runs may change, and what that keeps. */
module ProtocolRuns {
  import opened JobModel
  import opened Protocol
  import opened ProtocolInvariant

  /** One run is overwritten: a claim or an outcome. */
  ghost predicate Overwrites(runs: map<string, Run>, r: Run, runs': map<string, Run>) {
    && r.id in runs && SameRun(runs[r.id], r) && !Over(runs[r.id]) && r.state != Pending && r.state != Skipped
    && runs' == runs[r.id := r]
  }

  /** One run is added. */
  ghost predicate Adds(runs: map<string, Run>, r: Run, runs': map<string, Run>) {
    r.id !in runs && r.state == Pending && r.leaseExpiry == 0 && runs' == runs[r.id := r]
  }

  lemma OverwriteHasRun(runs: map<string, Run>, r: Run, runs': map<string, Run>, j: string, b: string)
    requires Overwrites(runs, r, runs')
    ensures HasRun(runs', j, b) <==> HasRun(runs, j, b)
  {
    if HasRun(runs, j, b) {
      var id :| id in runs && runs[id].jobID == j && runs[id].batchID == b;
      assert id in runs' && runs'[id].jobID == j && runs'[id].batchID == b;
    }
    if HasRun(runs', j, b) {
      var id :| id in runs' && runs'[id].jobID == j && runs'[id].batchID == b;
      assert id in runs && runs[id].jobID == j && runs[id].batchID == b;
    }
  }

  lemma OverwriteHasSucceeded(runs: map<string, Run>, r: Run, runs': map<string, Run>, j: string, b: string)
    requires Overwrites(runs, r, runs')
    ensures HasSucceeded(runs', j, b) <==>
            HasSucceeded(runs, j, b) || (r.state == Succeeded && r.jobID == j && r.batchID == b)
  {
    if HasSucceeded(runs, j, b) {
      var id :| id in runs && runs[id].jobID == j && runs[id].batchID == b && runs[id].state == Succeeded;
      assert id in runs' && runs'[id] == runs[id];
    }
    if HasSucceeded(runs', j, b) {
      var id :| id in runs' && runs'[id].jobID == j && runs'[id].batchID == b && runs'[id].state == Succeeded;
      assert id != r.id ==> runs[id] == runs'[id];
    }
    if r.state == Succeeded && r.jobID == j && r.batchID == b {
      assert runs'[r.id] == r;
    }
  }

  lemma AddHasRun(runs: map<string, Run>, r: Run, runs': map<string, Run>, j: string, b: string)
    requires Adds(runs, r, runs')
    ensures HasRun(runs', j, b) <==> HasRun(runs, j, b) || (r.jobID == j && r.batchID == b)
  {
    if HasRun(runs, j, b) {
      var id :| id in runs && runs[id].jobID == j && runs[id].batchID == b;
      assert id in runs' && runs'[id] == runs[id];
    }
    if HasRun(runs', j, b) {
      var id :| id in runs' && runs'[id].jobID == j && runs'[id].batchID == b;
      assert id != r.id ==> runs[id] == runs'[id];
    }
    if r.jobID == j && r.batchID == b {
      assert runs'[r.id] == r;
    }
  }

  lemma AddHasSucceeded(runs: map<string, Run>, r: Run, runs': map<string, Run>, j: string, b: string)
    requires Adds(runs, r, runs')
    ensures HasSucceeded(runs', j, b) <==> HasSucceeded(runs, j, b)
  {
    if HasSucceeded(runs, j, b) {
      var id :| id in runs && runs[id].jobID == j && runs[id].batchID == b && runs[id].state == Succeeded;
      assert id in runs' && runs'[id] == runs[id];
    }
    if HasSucceeded(runs', j, b) {
      var id :| id in runs' && runs'[id].jobID == j && runs'[id].batchID == b && runs'[id].state == Succeeded;
      assert runs[id] == runs'[id];
    }
  }

  /** Successes are never lost, so satisfied dependencies stay satisfied. */
  lemma DepsStaySucceeded(c: Config, runs: map<string, Run>, r: Run, runs': map<string, Run>, j: string, b: string)
    requires Overwrites(runs, r, runs') || Adds(runs, r, runs')
    ensures DepsSucceeded(c, runs, j, b) ==> DepsSucceeded(c, runs', j, b)
    ensures Adds(runs, r, runs') || r.state != Succeeded ==>
      (DepsSucceeded(c, runs', j, b) ==> DepsSucceeded(c, runs, j, b))
  {
    forall k | 0 <= k < |c.Deps(j)|
      ensures HasSucceeded(runs, c.Deps(j)[k], b) ==> HasSucceeded(runs', c.Deps(j)[k], b)
      ensures Adds(runs, r, runs') || r.state != Succeeded ==>
        (HasSucceeded(runs', c.Deps(j)[k], b) ==> HasSucceeded(runs, c.Deps(j)[k], b))
    {
      if Adds(runs, r, runs') {
        AddHasSucceeded(runs, r, runs', c.Deps(j)[k], b);
      } else {
        OverwriteHasSucceeded(runs, r, runs', c.Deps(j)[k], b);
      }
    }
  }

  lemma FollowsStays(runs: map<string, Run>, r: Run, runs': map<string, Run>, x: Run)
    requires Overwrites(runs, r, runs') || Adds(runs, r, runs')
    requires Follows(runs, x)
    ensures Follows(runs', x)
  {
    var p :| p in runs && Siblings(runs[p], x) && runs[p].attempt + 1 == x.attempt
             && runs[p].state == Failed && runs[p].scheduledFor <= x.scheduledFor;
    assert p in runs' && runs'[p] == runs[p];
  }

  lemma HasAttemptStays(runs: map<string, Run>, r: Run, runs': map<string, Run>, x: Run, n: nat)
    requires Overwrites(runs, r, runs') || Adds(runs, r, runs')
    ensures HasAttempt(runs, x, n) ==> HasAttempt(runs', x, n)
    ensures HasAttempt(runs', x, n) ==>
      HasAttempt(runs, x, n) || (Adds(runs, r, runs') && Siblings(r, x) && r.attempt == n)
  {
    if HasAttempt(runs, x, n) {
      var p :| p in runs && Siblings(runs[p], x) && runs[p].attempt == n;
      assert p in runs' && Siblings(runs'[p], x) && runs'[p].attempt == n;
    }
    if HasAttempt(runs', x, n) {
      var p :| p in runs' && Siblings(runs'[p], x) && runs'[p].attempt == n;
      if p in runs {
        assert Siblings(runs[p], x) && runs[p].attempt == n;
      }
    }
  }

  /** A set closed after the change was closed before it. */
  lemma ClosedBefore(c: Config, runs: map<string, Run>, r: Run, runs': map<string, Run>, b: string, jobs: set<string>)
    requires Overwrites(runs, r, runs') || Adds(runs, r, runs')
    requires ClosedFor(c, runs', b, jobs)
    ensures ClosedFor(c, runs, b, jobs)
  {
    forall j | j in c.jobs && DepsSucceeded(c, runs, j, b)
               && (forall k | 0 <= k < |c.Deps(j)| :: c.Deps(j)[k] in jobs)
      ensures j in jobs
    {
      DepsStaySucceeded(c, runs, r, runs', j, b);
    }
  }

  // Overwriting.

  lemma OverwriteKeepsShape(c: Config, s: State, r: Run, s': State)
    requires Overwrites(s.runs, r, s'.runs) && s'.root == s.root
    requires RunsTyped(c, s) && BatchesRooted(c, s)
    ensures RunsTyped(c, s') && BatchesRooted(c, s')
  {
    forall b | b in s'.root
      ensures s'.root[b] in c.jobs && HasRun(s'.runs, s'.root[b], b)
    {
      OverwriteHasRun(s.runs, r, s'.runs, s'.root[b], b);
    }
  }

  lemma OverwriteKeepsRetries(s: State, r: Run, s': State)
    requires Overwrites(s.runs, r, s'.runs) && RetriesFollow(s)
    ensures RetriesFollow(s')
  {
    forall id | id in s'.runs && s'.runs[id].attempt > 0
      ensures Follows(s'.runs, s'.runs[id])
    {
      FollowsStays(s.runs, r, s'.runs, s.runs[id]);
    }
  }

  lemma OverwriteKeepsDag(c: Config, s: State, r: Run, s': State)
    requires Overwrites(s.runs, r, s'.runs) && s'.root == s.root && DagSafe(c, s)
    ensures DagSafe(c, s')
  {
    forall id | id in s'.runs && s'.runs[id].batchID in s'.root && s'.runs[id].jobID != s'.root[s'.runs[id].batchID]
      ensures DepsSucceeded(c, s'.runs, s'.runs[id].jobID, s'.runs[id].batchID)
    {
      DepsStaySucceeded(c, s.runs, r, s'.runs, s.runs[id].jobID, s.runs[id].batchID);
    }
  }

  lemma OverwriteKeepsGrounded(c: Config, s: State, r: Run, s': State)
    requires Overwrites(s.runs, r, s'.runs) && s'.root == s.root && Grounded(c, s)
    ensures Grounded(c, s')
  {
    forall b, jobs | b in s'.root && s'.root[b] in jobs && ClosedFor(c, s'.runs, b, jobs)
      ensures BatchWithin(s'.runs, b, jobs)
    {
      ClosedBefore(c, s.runs, r, s'.runs, b, jobs);
      assert BatchWithin(s.runs, b, jobs);
    }
  }

  // Adding.

  lemma AddKeepsRetries(s: State, r: Run, s': State)
    requires Adds(s.runs, r, s'.runs) && RetriesFollow(s)
    requires r.attempt > 0 ==> Follows(s.runs, r)
    ensures RetriesFollow(s')
  {
    forall id | id in s'.runs && s'.runs[id].attempt > 0
      ensures Follows(s'.runs, s'.runs[id])
    {
      FollowsStays(s.runs, r, s'.runs, s'.runs[id]);
    }
  }

  lemma AddKeepsDag(c: Config, s: State, r: Run, s': State)
    requires Adds(s.runs, r, s'.runs) && DagSafe(c, s) && RunsTyped(c, s)
    requires forall b | b in s.root :: b in s'.root && s'.root[b] == s.root[b]
    requires r.batchID in s'.root && r.jobID != s'.root[r.batchID] ==> DepsSucceeded(c, s.runs, r.jobID, r.batchID)
    ensures DagSafe(c, s')
  {
    forall id | id in s'.runs && s'.runs[id].batchID in s'.root && s'.runs[id].jobID != s'.root[s'.runs[id].batchID]
      ensures DepsSucceeded(c, s'.runs, s'.runs[id].jobID, s'.runs[id].batchID)
    {
      DepsStaySucceeded(c, s.runs, r, s'.runs, s'.runs[id].jobID, s'.runs[id].batchID);
    }
  }

  /** A job added to an existing batch was reachable in it. */
  lemma AddKeepsGrounded(c: Config, s: State, r: Run, s': State)
    requires Adds(s.runs, r, s'.runs) && s'.root == s.root && Grounded(c, s)
    requires r.jobID in c.jobs
    requires HasRun(s.runs, r.jobID, r.batchID) || DepsSucceeded(c, s.runs, r.jobID, r.batchID)
    ensures Grounded(c, s')
  {
    forall b, jobs | b in s'.root && s'.root[b] in jobs && ClosedFor(c, s'.runs, b, jobs)
      ensures BatchWithin(s'.runs, b, jobs)
    {
      ClosedBefore(c, s.runs, r, s'.runs, b, jobs);
      assert BatchWithin(s.runs, b, jobs);
      if r.batchID == b {
        AddedIsWithin(c, s.runs, r, b, jobs);
      }
    }
  }

  lemma AddedIsWithin(c: Config, runs: map<string, Run>, r: Run, b: string, jobs: set<string>)
    requires BatchWithin(runs, b, jobs) && ClosedFor(c, runs, b, jobs) && r.batchID == b && r.jobID in c.jobs
    requires HasRun(runs, r.jobID, b) || DepsSucceeded(c, runs, r.jobID, b)
    ensures r.jobID in jobs
  {
  }

  /** A new batch holds nothing but its first job's run. */
  lemma NewBatchKeepsGrounded(c: Config, s: State, r: Run, s': State)
    requires Adds(s.runs, r, s'.runs) && r.batchID !in s.root && s'.root == s.root[r.batchID := r.jobID]
    requires Grounded(c, s) && RunsTyped(c, s)
    ensures Grounded(c, s')
  {
    forall b, jobs | b in s'.root && s'.root[b] in jobs && ClosedFor(c, s'.runs, b, jobs)
      ensures BatchWithin(s'.runs, b, jobs)
    {
      if b != r.batchID {
        ClosedBefore(c, s.runs, r, s'.runs, b, jobs);
        assert BatchWithin(s.runs, b, jobs);
      }
    }
  }

  lemma AddKeepsShape(c: Config, s: State, r: Run, s': State)
    requires Adds(s.runs, r, s'.runs)
    requires r.batchID in s'.root && forall b | b in s.root :: b in s'.root && s'.root[b] == s.root[b]
    requires forall b | b in s'.root && b !in s.root :: b == r.batchID && s'.root[b] == r.jobID
    requires r.jobID in c.jobs && r.attempt <= c.LastAttempt(r.jobID)
    requires RunsTyped(c, s) && BatchesRooted(c, s)
    ensures RunsTyped(c, s') && BatchesRooted(c, s')
  {
    forall b | b in s'.root
      ensures s'.root[b] in c.jobs && HasRun(s'.runs, s'.root[b], b)
    {
      AddHasRun(s.runs, r, s'.runs, s'.root[b], b);
    }
  }
}
