/** What the queue protocol promises about progress, and why the lease is needed. */
module QueueProgress {
  import opened Util
  import opened JobQueue
  import opened QueueProtocol

  lemma Extend(s: State, run: seq<Step>, step: Step)
    requires Legal(s, run) && Enabled(After(s, run), step)
    ensures Legal(s, run + [step]) && After(s, run + [step]) == Apply(After(s, run), step)
  {
    hide Apply, Enabled;
    assert (run + [step])[..|run|] == run;
  }

  // -------------------------------------------------- without the lease assumption

  function RunningRow(attempts: nat, w: WorkerId, at: int, runAfter: int): Job {
    Job(Running, Some(Retrieval), attempts, 3, Some(at), Some(w), runAfter, 0, None)
  }

  function RestingRow(status: Status, attempts: nat, runAfter: int, error: Option<string>): Job {
    Job(status, None, attempts, 3, None, None, runAfter, 0, error)
  }

  const LATE: seq<Step> := [
    Enqueue(0, 3), Claim(1, 0), Tick(301), Reclaim(300), Claim(2, 0), Succeed(2),
    Fail(1, false, "late"), Tick(10), Claim(2, 0), Succeed(2)]

  /** The states the run LATE goes through. */
  ghost function LateState(i: nat): State
    requires i <= 10
  {
    var first, log := map[1 := Holder(ClaimedJob(0, 1, 3), 0)], [EvClaimed(0), EvReclaimed({0})];
    if i == 0 then START
    else if i == 1 then State(map[0 := RestingRow(Queued, 0, 0, None)], map[], 0, [])
    else if i == 2 then State(map[0 := RunningRow(1, 1, 0, 0)], first, 0, [EvClaimed(0)])
    else if i == 3 then State(map[0 := RunningRow(1, 1, 0, 0)], first, 301, [EvClaimed(0)])
    else if i == 4 then State(map[0 := RestingRow(Queued, 1, 0, None)], first, 301, log)
    else if i == 5 then
      State(map[0 := RunningRow(2, 2, 301, 0)], first[2 := Holder(ClaimedJob(0, 2, 3), 301)], 301, log + [EvClaimed(0)])
    else if i == 6 then
      State(map[0 := RestingRow(Succeeded, 2, 0, None)], first, 301, log + [EvClaimed(0), EvSucceeded(0)])
    else
      var after := log + [EvClaimed(0), EvSucceeded(0), EvRetried(0, 1)];
      if i == 7 then State(map[0 := RestingRow(Queued, 2, 311, Some("late"))], map[], 301, after)
      else if i == 8 then State(map[0 := RestingRow(Queued, 2, 311, Some("late"))], map[], 311, after)
      else if i == 9 then
        State(map[0 := RunningRow(3, 2, 311, 311)], map[2 := Holder(ClaimedJob(0, 3, 3), 311)], 311,
          after + [EvClaimed(0)])
      else State(map[0 := RestingRow(Succeeded, 3, 311, None)], map[], 311, after + [EvClaimed(0), EvSucceeded(0)])
  }

  lemma LateStep(i: nat)
    requires i < 10
    ensures Enabled(LateState(i), LATE[i]) && Apply(LateState(i), LATE[i]) == LateState(i + 1)
  {
    if i < 5 {
      LateStepEarly(i);
    } else {
      LateStepLater(i);
    }
  }

  lemma LateStepEarly(i: nat)
    requires i < 5
    ensures Enabled(LateState(i), LATE[i]) && Apply(LateState(i), LATE[i]) == LateState(i + 1)
  {
    var s, t := LateState(i), Apply(LateState(i), LATE[i]);
    if i == 3 {
      var ids := set id | id in s.rows && Stale(s.rows[id], 300, s.now);
      assert LATE[i] == Reclaim(300) && ids == {0};
      assert t.log == s.log + [EvReclaimed(ids)];
    }
    assert t.rows == LateState(i + 1).rows;
    assert t.holders == LateState(i + 1).holders;
    assert t.log == LateState(i + 1).log;
  }

  lemma LateStepLater(i: nat)
    requires 5 <= i < 10
    ensures Enabled(LateState(i), LATE[i]) && Apply(LateState(i), LATE[i]) == LateState(i + 1)
  {
    var s, t := LateState(i), Apply(LateState(i), LATE[i]);
    assert t.rows == LateState(i + 1).rows;
    assert t.holders == LateState(i + 1).holders;
    assert t.log == LateState(i + 1).log;
  }

  lemma {:induction false} LateRun(n: nat)
    requires n <= 10
    ensures Legal(START, LATE[..n]) && After(START, LATE[..n]) == LateState(n)
  {
    hide Apply, Enabled, LateState;
    if n == 0 {
      LateStart();
    } else {
      LateRun(n - 1);
      LateStep(n - 1);
      Extend(START, LATE[..n - 1], LATE[n - 1]);
      assert LATE[..n] == LATE[..n - 1] + [LATE[n - 1]];
    }
  }

  lemma LateStart()
    ensures LateState(0) == START
  {
  }

  /** Worker 1 outlives its lock, worker 2 is given the job and succeeds, worker 1 then reports
      its failure: the succeeded job is queued again, and succeeds a second time. */
  lemma LateFailureReopensJob()
    ensures Legal(START, LATE[..6]) && After(START, LATE[..6]).rows == map[0 := RestingRow(Succeeded, 2, 0, None)]
    ensures Legal(START, LATE[..7])
      && After(START, LATE[..7]).rows == map[0 := RestingRow(Queued, 2, 311, Some("late"))]
    ensures Legal(START, LATE) && !LeaseKept(START, LATE)
    ensures Completions(After(START, LATE).log, 0) == 2
  {
    hide Apply, Enabled;
    LateRun(6);
    LateRun(7);
    LateRun(10);
    assert LATE[..10] == LATE;
    JobsMayCompleteTwice(LATE, 6);
    WitnessCompletions();
  }

  lemma JobsMayCompleteTwice(run: seq<Step>, n: nat)
    requires Legal(START, run) && n < |run| && Legal(START, run[..n]) && Legal(START, run[..n + 1])
    requires 0 in After(START, run[..n]).rows && After(START, run[..n]).rows[0].status == Succeeded
    requires After(START, run[..n + 1]).rows.Keys >= {0} && After(START, run[..n + 1]).rows[0].status == Queued
    ensures !LeaseKept(START, run)
  {
    hide Apply, Enabled, BreaksLease;
    if LeaseKept(START, run) {
      LeasePrefix(run, n + 1);
      assert run[..n + 1][..n] == run[..n];
      TerminalIsAbsorbing(run[..n + 1], n, 0);
    }
  }

  lemma LeasePrefix(run: seq<Step>, n: nat)
    requires Legal(START, run) && LeaseKept(START, run) && n <= |run|
    ensures Legal(START, run[..n]) && LeaseKept(START, run[..n])
    decreases |run|
  {
    hide Apply, Enabled, BreaksLease;
    if n == |run| {
      assert run[..n] == run;
    } else {
      assert run[..|run| - 1][..n] == run[..n];
      LeasePrefix(run[..|run| - 1], n);
    }
  }

  lemma WitnessCompletions()
    ensures Completions(LateState(10).log, 0) == 2
  {
    var log := [EvClaimed(0), EvReclaimed({0}), EvClaimed(0), EvSucceeded(0), EvRetried(0, 1), EvClaimed(0),
      EvSucceeded(0)];
    assert LateState(10).log == log;
    assert log[..6][..5] == log[..5] && log[..5][..4] == log[..4] && log[..4][..3] == log[..3];
    assert log[..3][..2] == log[..2] && log[..2][..1] == log[..1] && log[..1][..0] == [];
    assert Completions(log[..3], 0) == Completions(log[..2], 0) == Completions(log[..1], 0) == 0;
    assert Completions(log[..6], 0) == Completions(log[..5], 0) == Completions(log[..4], 0) == 1;
  }

  // ------------------------------------------------------------ crash-free runs

  /** Every running row is in the hands of a live worker. */
  ghost predicate Held(s: State) {
    forall id :: id in s.rows && s.rows[id].status == Running ==>
      exists w :: w in s.holders && s.holders[w].job.id == id
  }

  ghost function MaxRuns(j: Job): nat { if j.maxAttempts == 0 then 1 else j.maxAttempts }

  /** What a job still has ahead of it: claims and endings. */
  ghost function Measure(j: Job): int {
    if j.Terminal() then 0 else 2 * (MaxRuns(j) - j.attempts) + (if j.status == Running then 1 else 0)
  }

  ghost function Work(log: seq<Event>, id: JobId): nat {
    Claims(log, id) + RetrySum(log, id, One) + Completions(log, id)
  }

  ghost predicate WithinWork(s: State, id: JobId)
    requires id in s.rows
  {
    Reclaims(s.log, id) == 0 && Work(s.log, id) + Measure(s.rows[id]) <= 2 * MaxRuns(s.rows[id])
  }

  ghost predicate Progressing(s: State) {
    && Held(s)
    && forall id :: id in s.rows ==>
      && WithinWork(s, id)
      && Measure(s.rows[id]) >= 0
      && (Measure(s.rows[id]) == 0 <==> s.rows[id].Terminal())
  }

  lemma HeldStays(s: State, step: Step)
    requires Inv(s) && Exclusive(s) && Held(s) && Enabled(s, step) && !BreaksLease(s, step) && !step.Crash?
    ensures Held(Apply(s, step))
    ensures step.Reclaim? ==> forall id :: id in s.rows ==> !Stale(s.rows[id], step.timeout, s.now)
  {
    hide RowOk, HolderOk;
    var t := Apply(s, step);
    forall id | id in t.rows && t.rows[id].status == Running
      ensures exists w :: w in t.holders && t.holders[w].job.id == id
    {
      if step.Claim? && id == step.id {
        assert t.holders[step.w].job.id == id;
      } else {
        var w :| w in s.holders && s.holders[w].job.id == id;
        assert w in t.holders && t.holders[w] == s.holders[w];
      }
    }
  }

  /** Runs left, from the retry count alone: a queued row has an attempt to spare. */
  lemma AttemptsLeft(s: State, id: JobId)
    requires Inv(s) && id in s.rows && Reclaims(s.log, id) == 0
    ensures s.rows[id].attempts + (if s.rows[id].status == Queued then 1 else 0) <= MaxRuns(s.rows[id])
  {
    assert RowOk(s, id);
    RetrySumIsWeight(s.log, id, LastRetry(s.rows[id]), One);
    CountAtMost(RetriedAttempts(s.log, id), LastRetry(s.rows[id]));
  }

  /** Whatever the event counts as work is taken off what the row has ahead of it. */
  ghost predicate UsesUpWork(s: State, t: State, id: JobId, e: Event)
    requires id in s.rows && id in t.rows
  {
    && t.log == s.log + [e] && (e.EvReclaimed? ==> id !in e.ids)
    && MaxRuns(t.rows[id]) == MaxRuns(s.rows[id])
    && Measure(t.rows[id]) + (if e == EvClaimed(id) then 1 else 0) + (if e.EvRetried? && e.id == id then 1 else 0)
         + (if e == EvSucceeded(id) || e == EvParked(id) then 1 else 0) <= Measure(s.rows[id])
  }

  lemma WorkUsedUp(s: State, t: State, id: JobId, e: Event)
    requires id in s.rows && id in t.rows && WithinWork(s, id) && UsesUpWork(s, t, id, e)
    ensures WithinWork(t, id)
  {
    hide Claims, RetrySum, Reclaims, Completions, Measure, One;
    LogAppend(s.log, e, id, 0);
  }

  lemma WriteProgresses(s: State, step: Step, id: JobId)
    requires Inv(s) && Exclusive(s) && Enabled(s, step) && (step.Claim? || step.Succeed? || step.Fail?)
    requires id in s.rows && WithinWork(s, id)
    ensures WithinWork(Apply(s, step), id)
  {
    var t := Apply(s, step);
    assert UsesUpWork(s, t, id, t.log[|s.log|]) by {
      assert step.Fail? ==> HolderOk(s, step.w);
      AttemptsLeft(s, id);
      hide RowOk, HolderOk, Claims, RetrySum, Reclaims, Completions, RetriedAttempts, DistinctRetries, Backoff,
           Before, Inv, One;
    }
    hide Apply, Enabled, Exclusive, Inv, UsesUpWork, WithinWork;
    WorkUsedUp(s, t, id, t.log[|s.log|]);
  }

  lemma ReclaimProgresses(s: State, step: Step, id: JobId)
    requires Inv(s) && Exclusive(s) && Held(s) && Enabled(s, step) && !BreaksLease(s, step) && step.Reclaim?
    requires id in s.rows && WithinWork(s, id)
    ensures WithinWork(Apply(s, step), id)
  {
    var t := Apply(s, step);
    HeldStays(s, step);
    assert UsesUpWork(s, t, id, t.log[|s.log|]) by {
      hide Inv, Exclusive, Held, BreaksLease;
    }
    hide Apply, Enabled, Exclusive, Inv, Held, BreaksLease, UsesUpWork, WithinWork;
    WorkUsedUp(s, t, id, t.log[|s.log|]);
  }

  lemma StepProgresses(s: State, step: Step, id: JobId)
    requires Inv(s) && Exclusive(s) && Progressing(s) && Enabled(s, step) && !BreaksLease(s, step) && !step.Crash?
    requires id in Apply(s, step).rows
    ensures WithinWork(Apply(s, step), id)
  {
    if id !in s.rows {
      NoHistory(s.log, id, 0);
    } else if step.Claim? || step.Succeed? || step.Fail? {
      WriteProgresses(s, step, id);
    } else if step.Reclaim? {
      ReclaimProgresses(s, step, id);
    } else {
      hide RowOk, HolderOk, Inv, Exclusive;
    }
  }

  lemma {:induction false} CrashFreeRunsProgress(run: seq<Step>)
    requires Legal(START, run) && LeaseKept(START, run) && forall step :: step in run ==> !step.Crash?
    ensures Progressing(After(START, run))
    decreases |run|
  {
    hide Inv, Apply, Enabled, Exclusive, BreaksLease;
    if run != [] {
      var init, step := run[..|run| - 1], run[|run| - 1];
      assert step in run;
      CrashFreeRunsProgress(init);
      var s := After(START, init);
      RunKeepsInv(init);
      RunKeepsInv(run);
      ExclusiveIffLeaseKept(init);
      ExclusiveNow(init);
      HeldStays(s, step);
      forall id | id in After(START, run).rows
        ensures WithinWork(After(START, run), id)
        ensures Measure(After(START, run).rows[id]) >= 0
        ensures Measure(After(START, run).rows[id]) == 0 <==> After(START, run).rows[id].Terminal()
      {
        StepProgresses(s, step, id);
        AttemptsLeft(After(START, run), id);
      }
    }
  }

  /** Without crashes every job is claimed at most max_attempts times, never reclaimed, and finished
      for good once it has been claimed so often and is not running any more. */
  lemma CrashFreeJobsTerminate(run: seq<Step>, id: JobId)
    requires Legal(START, run) && LeaseKept(START, run) && forall step :: step in run ==> !step.Crash?
    requires id in After(START, run).rows
    ensures var s := After(START, run);
      && Reclaims(s.log, id) == 0 && Claims(s.log, id) <= MaxRuns(s.rows[id])
      && Work(s.log, id) <= 2 * MaxRuns(s.rows[id])
      && (Work(s.log, id) == 2 * MaxRuns(s.rows[id]) ==> s.rows[id].Terminal())
      && (Claims(s.log, id) == MaxRuns(s.rows[id]) && s.rows[id].status != Running ==> s.rows[id].Terminal())
  {
    hide After, Legal, LeaseKept;
    CrashFreeRunsProgress(run);
    RetriesAreBounded(run, id);
    RunKeepsInv(run);
    AttemptsLeft(After(START, run), id);
  }

  // ---------------------------------------------------------------- no starvation

  /** The queued jobs that may be taken before job j. */
  ghost function Ahead(s: State, j: JobId): set<JobId>
    requires j in s.rows
  {
    set k | k in s.rows && k != j && s.rows[k].status == Queued && !Before(s.rows[j], s.rows[k])
  }

  /** Once j is overdue, no step but a reclaim puts anything ahead of it, and a claim that passes
      it over takes a job that was ahead. */
  lemma NothingOvertakes(s: State, step: Step, j: JobId)
    requires Inv(s) && Exclusive(s) && Enabled(s, step) && !step.Reclaim?
    requires j in s.rows && s.rows[j].status == Queued && s.rows[j].runAfter < s.now
    requires step.Claim? ==> step.id != j
    ensures var t := Apply(s, step);
      && j in t.rows && t.rows[j] == s.rows[j] && s.rows[j].runAfter < t.now
      && Ahead(t, j) <= Ahead(s, j)
      && (step.Claim? ==> step.id in Ahead(s, j) && Ahead(t, j) <= Ahead(s, j) - {step.id})
  {
    hide RowOk, HolderOk;
  }

  ghost function ClaimsTaken(run: seq<Step>): nat {
    if run == [] then 0 else ClaimsTaken(run[..|run| - 1]) + (if run[|run| - 1].Claim? then 1 else 0)
  }

  ghost predicate PassesOver(run: seq<Step>, j: JobId) {
    forall step :: step in run ==> !step.Reclaim? && (step.Claim? ==> step.id != j)
  }

  lemma {:induction false} OvertakenBounded(s: State, run: seq<Step>, j: JobId)
    requires Inv(s) && Exclusive(s) && Legal(s, run) && PassesOver(run, j)
    requires j in s.rows && s.rows[j].status == Queued && s.rows[j].runAfter < s.now
    ensures var t := After(s, run);
      && Inv(t) && Exclusive(t) && j in t.rows && t.rows[j] == s.rows[j] && s.rows[j].runAfter < t.now
      && ClaimsTaken(run) + |Ahead(t, j)| <= |Ahead(s, j)|
    decreases |run|
  {
    hide Inv, Apply, Enabled, Exclusive, Ahead;
    if run != [] {
      var init, step := run[..|run| - 1], run[|run| - 1];
      assert step in run && PassesOver(init, j) by {
        assert forall x :: x in init ==> x in run;
      }
      OvertakenBounded(s, init, j);
      var m := After(s, init);
      StepKeepsInv(m, step);
      NotReclaimKeeps(m, step);
      NothingOvertakes(m, step, j);
      SubsetSize(Ahead(Apply(m, step), j), if step.Claim? then Ahead(m, j) - {step.id} else Ahead(m, j));
    }
  }

  lemma NotReclaimKeeps(s: State, step: Step)
    requires Inv(s) && Exclusive(s) && Enabled(s, step) && !step.Reclaim?
    ensures Exclusive(Apply(s, step))
  {
    hide Inv, Apply, Enabled, Exclusive;
    StepKeepsExclusiveIff(s, step);
  }

  lemma SubsetSize<T>(a: set<T>, b: set<T>)
    requires a <= b
    ensures |a| <= |b|
  {
    assert b == a + (b - a);
  }

  /** Between reclaims an overdue job is passed over by at most as many claims as there were jobs
      ahead of it; and as long as it waits, some claim is possible. */
  lemma NoStarvation(before: seq<Step>, run: seq<Step>, j: JobId)
    requires Legal(START, before) && LeaseKept(START, before)
    requires Legal(After(START, before), run) && PassesOver(run, j)
    requires var s := After(START, before); j in s.rows && s.rows[j].status == Queued && s.rows[j].runAfter < s.now
    ensures ClaimsTaken(run) <= |Ahead(After(START, before), j)|
    ensures exists id :: IsNext(After(After(START, before), run).rows, After(After(START, before), run).now, id)
  {
    hide Inv, Apply, Enabled, Exclusive, Ahead;
    RunKeepsInv(before);
    ExclusiveIffLeaseKept(before);
    ExclusiveNow(before);
    OvertakenBounded(After(START, before), run, j);
    var t := After(After(START, before), run);
    assert Runnable(t.rows[j], t.now);
    var id := NextAmong(t.rows, t.now, t.rows.Keys);
    assert IsNext(t.rows, t.now, id);
  }
}
