/** How long a retried job waits: ten seconds the first time, and each time twice as long as before. */
module QueueWaits {
  import opened Util
  import opened JobQueue
  import opened QueueProtocol
  import opened QueueProgress
  import opened QueueLimit

  /** Ten seconds, doubled k times. */
  ghost function TenDoubled(k: nat): nat { if k == 0 then 10 else TenDoubled(k - 1) + TenDoubled(k - 1) }

  /** How often the job has gone back to the queue. */
  ghost function PutBacks(s: State, id: JobId): nat { RetrySum(s.log, id, One) + Reclaims(s.log, id) }

  /** Each claim but the one in progress, or the last of a finished job, ended with the job put back. */
  ghost predicate Tallied(s: State) {
    forall id :: id in s.rows ==>
      s.rows[id].attempts == PutBacks(s, id) + (if s.rows[id].status == Queued then 0 else 1)
  }

  lemma RowTallied(s: State, step: Step, id: JobId)
    requires Inv(s) && Exclusive(s) && Tallied(s) && Enabled(s, step) && id in s.rows
    ensures var t := Apply(s, step);
      && id in t.rows
      && t.rows[id].attempts == PutBacks(t, id) + (if t.rows[id].status == Queued then 0 else 1)
  {
    hide RowOk, HolderOk, Claims, Reclaims, RetrySum, RetriedAttempts, DistinctRetries, Completions, Backoff,
         Before, One;
    var t := Apply(s, step);
    if t.log != s.log {
      LogAppend(s.log, t.log[|s.log|], id, 0);
    }
  }

  lemma NewRowTallied(s: State, step: Step, id: JobId)
    requires Inv(s) && Enabled(s, step) && id !in s.rows && id in Apply(s, step).rows
    ensures var t := Apply(s, step); t.rows[id].attempts == 0 == PutBacks(t, id) && t.rows[id].status == Queued
  {
    hide RowOk, HolderOk, Before;
    NoHistory(s.log, id, 0);
  }

  lemma {:induction false} RunIsTallied(run: seq<Step>)
    requires Legal(START, run) && LeaseKept(START, run)
    ensures Tallied(After(START, run))
    decreases |run|
  {
    hide Inv, Apply, Enabled, Exclusive, BreaksLease, PutBacks;
    if run != [] {
      var init, step := run[..|run| - 1], run[|run| - 1];
      var s, t := After(START, init), After(START, run);
      RunIsTallied(init);
      RunKeepsInv(init);
      ExclusiveIffLeaseKept(init);
      ExclusiveNow(init);
      forall id | id in t.rows
        ensures t.rows[id].attempts == PutBacks(t, id) + (if t.rows[id].status == Queued then 0 else 1)
      {
        if id in s.rows {
          RowTallied(s, step, id);
        } else {
          NewRowTallied(s, step, id);
        }
      }
    }
  }

  lemma BackoffDoubles(k: nat)
    ensures Backoff(k + 1) == TenDoubled(k)
  {
    if k > 0 {
      BackoffDoubles(k - 1);
    }
  }

  /** With every lease kept the run comes to a worker reporting a failure of the job that sends it back to the queue. */
  ghost predicate EndsInRetry(run: seq<Step>, id: JobId) {
    && Legal(START, run) && LeaseKept(START, run) && run != [] && id in After(START, run).rows
    && var s, t := After(START, run[..|run| - 1]), After(START, run);
    |t.log| > |s.log| && t.log[|s.log|].EvRetried? && t.log[|s.log|].id == id
  }

  /** What the job then waits, read off its row and the clock. */
  ghost function Wait(run: seq<Step>, id: JobId): int
    requires EndsInRetry(run, id)
  {
    After(START, run).rows[id].runAfter - After(START, run).now
  }

  /** How often it had gone back to the queue before. */
  ghost function PutBacksBefore(run: seq<Step>, id: JobId): nat
    requires EndsInRetry(run, id)
  {
    PutBacks(After(START, run[..|run| - 1]), id)
  }

  /** A retry waits ten seconds, doubled once for each time the job had gone back to the queue before. */
  lemma RetryWaits(run: seq<Step>, id: JobId)
    requires EndsInRetry(run, id)
    ensures Wait(run, id) == TenDoubled(PutBacksBefore(run, id))
  {
    var init, step := run[..|run| - 1], run[|run| - 1];
    var s := After(START, init);
    hide Inv, Exclusive, Tallied, Apply, Enabled, PutBacks, RetrySum;
    RunIsTallied(init);
    RunKeepsInv(init);
    ExclusiveIffLeaseKept(init);
    ExclusiveNow(init);
    RetryStepWaits(s, step, id);
  }

  lemma RetryStepWaits(s: State, step: Step, id: JobId)
    requires Inv(s) && Exclusive(s) && Tallied(s) && Enabled(s, step)
    requires var t := Apply(s, step); |t.log| > |s.log| && t.log[|s.log|].EvRetried? && t.log[|s.log|].id == id
    ensures var t := Apply(s, step);
      id in t.rows && t.rows[id].runAfter - t.now == TenDoubled(PutBacks(s, id))
  {
    hide Inv, PutBacks, Backoff, Before, TenDoubled;
    assert step.Fail?;
    var job := s.holders[step.w].job;
    assert job.id == id && s.rows[id].status == Running && job.attempts == s.rows[id].attempts == PutBacks(s, id) + 1;
    BackoffDoubles(PutBacks(s, id));
  }

  /** The first retry of a job waits ten seconds. */
  lemma FirstRetryWaitsTen(run: seq<Step>, id: JobId)
    requires EndsInRetry(run, id) && PutBacksBefore(run, id) == 0
    ensures Wait(run, id) == 10
  {
    hide EndsInRetry, Wait, PutBacksBefore;
    RetryWaits(run, id);
  }

  /** And every later one twice as long as the one before, when nothing else put the job back in between. */
  lemma LaterRetryWaitsTwice(earlier: seq<Step>, run: seq<Step>, id: JobId)
    requires EndsInRetry(earlier, id) && earlier <= run && EndsInRetry(run, id)
    requires PutBacksBefore(run, id) == PutBacksBefore(earlier, id) + 1
    ensures Wait(run, id) == 2 * Wait(earlier, id)
  {
    hide EndsInRetry, Wait, PutBacksBefore;
    RetryWaits(run, id);
    RetryWaits(earlier, id);
  }

  // ------------------------------------------------------------- the whole schedule

  /** A run whose clock only ever moved while job 0 was waiting out its retries. */
  ghost predicate WaitedOut(run: seq<Step>, n: nat, max: nat) {
    && Reaches(run, n, max, 0)
    && var s := After(START, run);
    && s.now == s.rows[0].runAfter == RetrySum(s.log, 0, BackoffOf)
    && s.now + 10 == TenDoubled(n)
  }

  lemma RetriedInTime(run: seq<Step>, n: nat, max: nat) returns (longer: seq<Step>)
    requires WaitedOut(run, n, max) && n + 1 < max
    ensures WaitedOut(longer, n + 1, max)
  {
    hide Legal, LeaseKept, Claims, Reclaims, RetrySum, Waiting, After;
    longer := Retried(run, n, max, 0);
    RetriedTakes(run, n, max, longer);
    BackoffDoubles(n);
  }

  lemma RetriedTakes(run: seq<Step>, n: nat, max: nat, longer: seq<Step>)
    requires Reaches(run, n, max, 0) && n + 1 < max
    requires longer == run + [Claim(1, 0)] + [Fail(1, false, "timeout")] + [Tick(Backoff(n + 1))]
    requires Legal(START, longer)
    ensures var s, t := After(START, run), After(START, longer);
      && 0 in s.rows && 0 in t.rows && t.now == t.rows[0].runAfter == s.now + Backoff(n + 1)
      && RetrySum(t.log, 0, BackoffOf) == RetrySum(s.log, 0, BackoffOf) + Backoff(n + 1)
  {
    var a := run + [Claim(1, 0)];
    var b := a + [Fail(1, false, "timeout")];
    assert longer[..|b|] == b && b[..|a|] == a && a[..|run|] == run;
    hide Apply, Enabled, Backoff, RetrySum;
    assert Legal(START, b) && Legal(START, a) && Legal(START, run);
    var s := After(START, run);
    assert After(START, a) == Apply(s, Claim(1, 0));
    assert After(START, b) == Apply(After(START, a), Fail(1, false, "timeout"));
    assert After(START, longer) == Apply(After(START, b), Tick(Backoff(n + 1)));
    hide Legal, After;
    OneRetry(s, n, max);
  }

  lemma OneRetry(s: State, n: nat, max: nat)
    requires Waiting(s, n, max) && n + 1 < max && Enabled(s, Claim(1, 0))
    requires Enabled(Apply(s, Claim(1, 0)), Fail(1, false, "timeout"))
    ensures var t := Apply(Apply(Apply(s, Claim(1, 0)), Fail(1, false, "timeout")), Tick(Backoff(n + 1)));
      && 0 in t.rows && t.now == t.rows[0].runAfter == s.now + Backoff(n + 1)
      && RetrySum(t.log, 0, BackoffOf) == RetrySum(s.log, 0, BackoffOf) + Backoff(n + 1)
  {
    hide RetrySum, Backoff, Before;
    RetrySumAppend(s.log, EvClaimed(0));
    RetrySumAppend(s.log + [EvClaimed(0)], EvRetried(0, n + 1));
  }

  lemma RetrySumAppend(log: seq<Event>, e: Event)
    ensures RetrySum(log + [e], 0, BackoffOf)
      == RetrySum(log, 0, BackoffOf) + (if e.EvRetried? && e.id == 0 then BackoffOf(e.attempt) else 0)
  {
    assert (log + [e])[..|log|] == log;
  }

  lemma {:induction false} WaitsOut(n: nat, max: nat) returns (run: seq<Step>)
    requires n == 0 || n < max
    ensures WaitedOut(run, n, max)
  {
    if n == 0 {
      run := Enqueued(max);
    } else {
      run := WaitsOut(n - 1, max);
      run := RetriedInTime(run, n - 1, max);
    }
  }

  /** The bound on the back-off is attained: for every limit there is a run, leases kept, in which a job has used up
      its retries and waited exactly 10 * (2^(max_attempts - 1) - 1) seconds, the clock standing at that. */
  lemma ScheduleIsAttained(max: nat) returns (run: seq<Step>)
    requires max >= 1
    ensures Legal(START, run) && LeaseKept(START, run) && 0 in After(START, run).rows
    ensures var s := After(START, run);
      && s.rows[0].maxAttempts == max && s.rows[0].attempts == max - 1 == RetrySum(s.log, 0, One)
      && RetrySum(s.log, 0, BackoffOf) == s.now == TenDoubled(max - 1) - 10 == 10 * (Pow2(max - 1) - 1)
  {
    run := WaitsOut(max - 1, max);
    RunIsTallied(run);
    BackoffDoubles(max - 1);
  }
}
