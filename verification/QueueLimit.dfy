/** The limit on attempts: a job that keeps crashing its worker passes it as often as one likes, and
    exactly what lets a job pass it. */
module QueueLimit {
  import opened Util
  import opened JobQueue
  import opened QueueProtocol
  import opened QueueProgress

  lemma ExtendKept(run: seq<Step>, step: Step)
    requires Legal(START, run) && LeaseKept(START, run) && Enabled(After(START, run), step)
    requires !BreaksLease(After(START, run), step)
    ensures Legal(START, run + [step]) && LeaseKept(START, run + [step])
    ensures After(START, run + [step]) == Apply(After(START, run), step)
  {
    hide Apply, Enabled, BreaksLease;
    Extend(START, run, step);
    assert (run + [step])[..|run|] == run;
  }

  // ------------------------------------------------------------- passing the limit

  /** Job 0 is alone, due, nobody's, and has been started n times. */
  ghost predicate Waiting(s: State, n: nat, max: nat) {
    && s.rows.Keys == {0} && s.holders == map[]
    && s.rows[0].status == Queued && s.rows[0].attempts == n && s.rows[0].maxAttempts == max
    && s.rows[0].runAfter <= s.now
  }

  /** A run after which job 0 waits, with so many claims and reclaims behind it. */
  ghost predicate Reaches(run: seq<Step>, n: nat, max: nat, reclaims: nat) {
    && Legal(START, run) && LeaseKept(START, run) && Waiting(After(START, run), n, max)
    && Claims(After(START, run).log, 0) == n && Reclaims(After(START, run).log, 0) == reclaims
  }

  lemma Enqueued(max: nat) returns (run: seq<Step>)
    ensures Reaches(run, 0, max, 0) && run == [Enqueue(0, max)]
  {
    assert Legal(START, []) && LeaseKept(START, []);
    ExtendKept([], Enqueue(0, max));
    run := [] + [Enqueue(0, max)];
  }

  lemma Taken(run: seq<Step>, n: nat, max: nat, reclaims: nat) returns (longer: seq<Step>)
    requires Reaches(run, n, max, reclaims)
    ensures Legal(START, longer) && LeaseKept(START, longer)
    ensures var s, t := After(START, run), After(START, longer);
      && longer == run + [Claim(1, 0)] && t == Apply(s, Claim(1, 0))
      && Claims(t.log, 0) == n + 1 && Reclaims(t.log, 0) == reclaims
  {
    var s := After(START, run);
    assert IsNext(s.rows, s.now, 0);
    ExtendKept(run, Claim(1, 0));
    longer := run + [Claim(1, 0)];
    LogAppend(s.log, EvClaimed(0), 0, 0);
  }

  /** Claimed, and the worker dies; 301 seconds later the job is put back. */
  lemma Crashed(run: seq<Step>, n: nat, max: nat, reclaims: nat) returns (longer: seq<Step>)
    requires Reaches(run, n, max, reclaims)
    ensures Reaches(longer, n + 1, max, reclaims + 1)
  {
    hide Legal, LeaseKept, Claims, Reclaims;
    var a := Taken(run, n, max, reclaims);
    ExtendKept(a, Tick(301));
    ExtendKept(a + [Tick(301)], Crash(1));
    var b := a + [Tick(301)] + [Crash(1)];
    var s := After(START, b);
    assert s.holders == map[];
    ExtendKept(b, Reclaim(300));
    longer := b + [Reclaim(300)];
    var ids := set id | id in s.rows && Stale(s.rows[id], 300, s.now);
    assert 0 in ids;
    LogAppend(s.log, EvReclaimed(ids), 0, 0);
  }

  /** Claimed, failed for a passing reason, and due again after the back-off. */
  lemma Retried(run: seq<Step>, n: nat, max: nat, reclaims: nat) returns (longer: seq<Step>)
    requires Reaches(run, n, max, reclaims) && n + 1 < max
    ensures Reaches(longer, n + 1, max, reclaims)
    ensures longer == run + [Claim(1, 0)] + [Fail(1, false, "timeout")] + [Tick(Backoff(n + 1))]
  {
    hide Legal, LeaseKept, Claims, Reclaims;
    var a := Taken(run, n, max, reclaims);
    var s := After(START, a);
    ExtendKept(a, Fail(1, false, "timeout"));
    var b := a + [Fail(1, false, "timeout")];
    LogAppend(s.log, EvRetried(0, n + 1), 0, 0);
    ExtendKept(b, Tick(Backoff(n + 1)));
    longer := b + [Tick(Backoff(n + 1))];
    assert After(START, longer).holders == map[];
  }

  /** Whatever the limit, for every n there is a run in which every lease is kept and a job that crashes
      its worker each time has been started n times, and is waiting to be started again. */
  lemma {:induction false} CrashingJobNeverStops(n: nat, max: nat) returns (run: seq<Step>)
    ensures Legal(START, run) && LeaseKept(START, run)
    ensures var s := After(START, run);
      && s.rows.Keys == {0} && s.rows[0].status == Queued && s.rows[0].attempts == n && s.rows[0].maxAttempts == max
      && Claims(s.log, 0) == n && Reclaims(s.log, 0) == n
    ensures Reaches(run, n, max, n)
  {
    if n == 0 {
      run := Enqueued(max);
    } else {
      run := CrashingJobNeverStops(n - 1, max);
      run := Crashed(run, n - 1, max, n - 1);
    }
  }

  lemma {:induction false} RetriedOften(n: nat, max: nat) returns (run: seq<Step>)
    requires n == 0 || n < max
    ensures Reaches(run, n, max, 0)
  {
    if n == 0 {
      run := Enqueued(max);
    } else {
      run := RetriedOften(n - 1, max);
      run := Retried(run, n - 1, max, 0);
    }
  }

  lemma {:induction false} RetriedThenCrashed(max: nat, reclaims: nat) returns (run: seq<Step>)
    ensures Reaches(run, (if max == 0 then 0 else max - 1) + reclaims, max, reclaims)
  {
    var retries := if max == 0 then 0 else max - 1;
    if reclaims == 0 {
      run := RetriedOften(retries, max);
    } else {
      run := RetriedThenCrashed(max, reclaims - 1);
      run := Crashed(run, retries + reclaims - 1, max, reclaims - 1);
    }
  }

  /** The bound on claims is attained: for every limit and every number of reclaims there is a run, all
      leases kept, with exactly limit + reclaims claims. */
  lemma BoundIsAttained(max: nat, reclaims: nat) returns (run: seq<Step>)
    ensures Legal(START, run) && LeaseKept(START, run) && 0 in After(START, run).rows
    ensures var s := After(START, run);
      && s.rows[0].maxAttempts == max && Reclaims(s.log, 0) == reclaims
      && s.rows[0].attempts == Claims(s.log, 0) == MaxRuns(s.rows[0]) + reclaims
  {
    run := RetriedThenCrashed(max, reclaims);
    run := Taken(run, (if max == 0 then 0 else max - 1) + reclaims, max, reclaims);
  }

  // ------------------------------------------------------- what it takes to pass it

  /** The step puts the job back in the queue although its attempts are spent: a reclaim, which never
      looks, or the retry of a worker that remembers an earlier attempt. */
  ghost predicate PutsBackSpent(s: State, step: Step, id: JobId)
    requires Enabled(s, step)
  {
    && id in s.rows && s.rows[id].attempts >= MaxRuns(s.rows[id])
    && (step.Reclaim? || step.Fail?)
    && (step.Reclaim? ==> Stale(s.rows[id], step.timeout, s.now))
    && (step.Fail? ==> s.holders[step.w].job.id == id && Retries(s.holders[step.w].job, step.permanent))
  }

  /** Step n of the run does that. */
  ghost predicate PutBackAt(run: seq<Step>, id: JobId, n: nat) {
    n < |run| && Legal(START, run[..n]) && Enabled(After(START, run[..n]), run[n])
    && PutsBackSpent(After(START, run[..n]), run[n], id)
  }

  predicate ClaimedAt(run: seq<Step>, id: JobId, m: nat) { m < |run| && run[m].Claim? && run[m].id == id }

  ghost predicate PutBack(run: seq<Step>, id: JobId) { exists n: nat :: PutBackAt(run, id, n) }

  ghost predicate ClaimedWhenSpent(run: seq<Step>, id: JobId) {
    exists n: nat, m: nat :: n < m && PutBackAt(run, id, n) && ClaimedAt(run, id, m)
  }

  lemma PutBackSnoc(run: seq<Step>, id: JobId)
    requires Legal(START, run) && run != []
    ensures var init, step := run[..|run| - 1], run[|run| - 1];
      && (PutBack(run, id) <==> PutBack(init, id) || PutsBackSpent(After(START, init), step, id))
      && (ClaimedWhenSpent(run, id) <==>
           ClaimedWhenSpent(init, id) || (PutBack(init, id) && step.Claim? && step.id == id))
  {
    hide Apply, Enabled, PutsBackSpent;
    var init, last := run[..|run| - 1], |run| - 1;
    forall n: nat | n < last ensures PutBackAt(run, id, n) <==> PutBackAt(init, id, n) {
      assert init[..n] == run[..n] && init[n] == run[n];
    }
    assert PutBackAt(run, id, last) <==> PutsBackSpent(After(START, init), run[last], id);
    forall m: nat | m < last ensures ClaimedAt(run, id, m) <==> ClaimedAt(init, id, m) {
    }
    hide PutBackAt, ClaimedAt;
    if n: nat :| PutBackAt(run, id, n) {
      PutBackInRange(run, id, n);
    }
    if n: nat :| PutBackAt(init, id, n) {
      PutBackInRange(init, id, n);
    }
    ClaimsSnoc(run, init, id);
  }

  lemma PutBackInRange(run: seq<Step>, id: JobId, n: nat)
    requires PutBackAt(run, id, n)
    ensures n < |run|
  {
  }

  lemma ClaimsSnoc(run: seq<Step>, init: seq<Step>, id: JobId)
    requires run != [] && init == run[..|run| - 1]
    requires forall n: nat :: n < |init| ==> (PutBackAt(run, id, n) <==> PutBackAt(init, id, n))
    ensures ClaimedWhenSpent(run, id) <==>
      ClaimedWhenSpent(init, id) || (PutBack(init, id) && run[|run| - 1].Claim? && run[|run| - 1].id == id)
  {
    var last := |run| - 1;
    if n: nat, m: nat :| n < m && PutBackAt(run, id, n) && ClaimedAt(run, id, m) {
      assert PutBackAt(init, id, n);
      if m < last {
        assert ClaimedAt(init, id, m);
      }
    }
    if n: nat, m: nat :| n < m && PutBackAt(init, id, n) && ClaimedAt(init, id, m) {
      assert PutBackAt(run, id, n) && ClaimedAt(run, id, m);
    }
    if n: nat :| PutBackAt(init, id, n) {
      assert PutBackAt(run, id, n);
      if run[last].Claim? && run[last].id == id {
        assert ClaimedAt(run, id, last);
      }
    }
  }

  /** What the history says of the job's row. */
  ghost predicate Accounted(run: seq<Step>, id: JobId)
    requires Legal(START, run)
  {
    var rows := After(START, run).rows;
    && (PutBack(run, id) ==> id in rows && rows[id].attempts >= MaxRuns(rows[id]))
    && (ClaimedWhenSpent(run, id) <==> id in rows && rows[id].attempts > MaxRuns(rows[id]))
    && (id in rows && rows[id].status == Queued && rows[id].attempts >= MaxRuns(rows[id]) ==> PutBack(run, id))
  }

  lemma AccountedStep(run: seq<Step>, id: JobId)
    requires Legal(START, run) && run != [] && Accounted(run[..|run| - 1], id) && Inv(After(START, run[..|run| - 1]))
    ensures Accounted(run, id)
  {
    hide Inv, RowOk, HolderOk, PutBack, ClaimedWhenSpent, Before, Backoff;
    PutBackSnoc(run, id);
    var s, step := After(START, run[..|run| - 1]), run[|run| - 1];
    if step.Fail? {
      HolderStarted(s, step.w);
    }
  }

  lemma HolderStarted(s: State, w: WorkerId)
    requires Inv(s) && w in s.holders
    ensures s.holders[w].job.id in s.rows && s.holders[w].job.maxAttempts == s.rows[s.holders[w].job.id].maxAttempts
  {
    assert HolderOk(s, w);
  }

  lemma {:induction false} RunIsAccounted(run: seq<Step>, id: JobId)
    requires Legal(START, run)
    ensures Accounted(run, id)
    decreases |run|
  {
    hide Inv, Apply, Enabled;
    if run == [] {
      assert forall n: nat :: !PutBackAt(run, id, n);
    } else {
      hide Accounted;
      RunIsAccounted(run[..|run| - 1], id);
      RunKeepsInv(run[..|run| - 1]);
      AccountedStep(run, id);
    }
  }

  /** In every run: a job has been started more often than allowed exactly when it was claimed after it had
      been put back with its attempts spent. */
  lemma LimitPassedIff(run: seq<Step>, id: JobId)
    requires Legal(START, run) && id in After(START, run).rows
    ensures var j := After(START, run).rows[id]; j.attempts > MaxRuns(j) <==> ClaimedWhenSpent(run, id)
  {
    RunIsAccounted(run, id);
  }

  /** With every lease kept only a reclaim puts back a job with its attempts spent; so the guard that is
      missing from the reclaim, attempts < max_attempts, is all that it would take. */
  lemma OnlyReclaimsPutBack(run: seq<Step>, id: JobId, n: nat)
    requires Legal(START, run) && LeaseKept(START, run) && PutBackAt(run, id, n)
    ensures run[n].Reclaim?
  {
    hide Apply, Legal, LeaseKept, Inv;
    LeasePrefix(run, n);
    ExclusiveIffLeaseKept(run[..n]);
    ExclusiveNow(run[..n]);
    RunKeepsInv(run[..n]);
    var s := After(START, run[..n]);
    if run[n].Fail? {
      OwnRetrySparesSpent(s, run[n], id);
    }
  }

  lemma OwnRetrySparesSpent(s: State, step: Step, id: JobId)
    requires Inv(s) && Exclusive(s) && Enabled(s, step) && step.Fail?
    ensures !PutsBackSpent(s, step, id)
  {
    HolderStarted(s, step.w);
    hide Inv;
  }

  /** Step n is a reclaim that puts the job back with its attempts spent. */
  ghost predicate ReclaimedSpentAt(run: seq<Step>, id: JobId, n: nat) {
    PutBackAt(run, id, n) && run[n].Reclaim?
  }

  /** With every lease kept: started more often than allowed exactly when claimed after a reclaim put it
      back at attempts >= max_attempts, the case that a guard in the reclaim would exclude. */
  lemma LimitPassedIffReclaimedSpent(run: seq<Step>, id: JobId)
    requires Legal(START, run) && LeaseKept(START, run) && id in After(START, run).rows
    ensures var j := After(START, run).rows[id];
      j.attempts > MaxRuns(j) <==>
      (exists n: nat, m: nat :: n < m && ReclaimedSpentAt(run, id, n) && ClaimedAt(run, id, m))
  {
    hide Legal, LeaseKept, After, PutBackAt;
    LimitPassedIff(run, id);
    if n: nat, m: nat :| n < m && PutBackAt(run, id, n) && ClaimedAt(run, id, m) {
      PutBackInRange(run, id, n);
      OnlyReclaimsPutBack(run, id, n);
      assert ReclaimedSpentAt(run, id, n);
    }
  }
}
