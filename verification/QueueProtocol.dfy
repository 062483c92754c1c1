/** The queue as a protocol: any number of workers, crashes and a clock, every interleaving.
    A worker's steps are the statements of JobQueue; none of its writes checks who holds the row. */
module QueueProtocol {
  import opened Util
  import opened JobQueue

  /** A live worker between its claim and its last write: what it remembers, and when it claimed. */
  datatype Holder = Holder(job: ClaimedJob, at: int)

  datatype Event =
    | EvClaimed(id: JobId)
    | EvSucceeded(id: JobId)
    | EvRetried(id: JobId, attempt: nat)
    | EvParked(id: JobId)
    | EvReclaimed(ids: set<JobId>)

  datatype State = State(rows: Table, holders: map<WorkerId, Holder>, now: int, log: seq<Event>)

  datatype Step =
    | Tick(seconds: nat)
    | Enqueue(id: JobId, maxAttempts: nat)
    | Claim(w: WorkerId, id: JobId)
    | SetStage(w: WorkerId, stage: Stage)
    | Succeed(w: WorkerId)
    | Fail(w: WorkerId, permanent: bool, code: string)
    | Crash(w: WorkerId)
    | Reclaim(timeout: int)

  ghost predicate Enabled(s: State, step: Step) {
    match step
    case Tick(_) => true
    case Enqueue(id, _) => id !in s.rows
    case Claim(w, id) => w !in s.holders && IsNext(s.rows, s.now, id)
    case SetStage(w, _) => w in s.holders && s.holders[w].job.id in s.rows
    case Succeed(w) => w in s.holders && s.holders[w].job.id in s.rows
    case Fail(w, _, _) => w in s.holders && s.holders[w].job.id in s.rows && s.holders[w].job.attempts >= 1
    case Crash(w) => w in s.holders
    case Reclaim(_) => true
  }

  function Drop(holders: map<WorkerId, Holder>, w: WorkerId): map<WorkerId, Holder> {
    map v | v in holders && v != w :: holders[v]
  }

  ghost function Apply(s: State, step: Step): State
    requires Enabled(s, step)
  {
    match step
    case Tick(seconds) => s.(now := s.now + seconds)
    case Enqueue(id, maxAttempts) => s.(rows := s.rows[id := Fresh(maxAttempts, s.now)])
    case Claim(w, id) =>
      var row := ClaimedRow(s.rows[id], w, s.now);
      s.(rows := s.rows[id := row],
         holders := s.holders[w := Holder(ClaimedJob(id, row.attempts, row.maxAttempts), s.now)],
         log := s.log + [EvClaimed(id)])
    case SetStage(w, stage) =>
      var id := s.holders[w].job.id;
      s.(rows := s.rows[id := s.rows[id].(stage := Some(stage))])
    case Succeed(w) =>
      var id := s.holders[w].job.id;
      s.(rows := s.rows[id := SucceededRow(s.rows[id])], holders := Drop(s.holders, w),
        log := s.log + [EvSucceeded(id)])
    case Fail(w, permanent, code) =>
      var job := s.holders[w].job;
      s.(rows := s.rows[job.id := FailedRow(s.rows[job.id], job, permanent, code, s.now)],
         holders := Drop(s.holders, w),
         log := s.log + [if Retries(job, permanent) then EvRetried(job.id, job.attempts) else EvParked(job.id)])
    case Crash(w) => s.(holders := Drop(s.holders, w))
    case Reclaim(timeout) =>
      s.(rows := Reclaimed(s.rows, timeout, s.now),
         log := s.log + [EvReclaimed(set id | id in s.rows && Stale(s.rows[id], timeout, s.now))])
  }

  const START := State(map[], map[], 0, [])

  /** A run: the steps taken one after another, each enabled where it is taken. */
  ghost predicate Legal(s: State, run: seq<Step>)
    decreases |run|, 0
  {
    run == [] || (Legal(s, run[..|run| - 1]) && Enabled(After(s, run[..|run| - 1]), run[|run| - 1]))
  }

  ghost function After(s: State, run: seq<Step>): State
    requires Legal(s, run)
    decreases |run|, 1
  {
    if run == [] then s else Apply(After(s, run[..|run| - 1]), run[|run| - 1])
  }

  // ------------------------------------------------------------- counting events

  ghost function Claims(log: seq<Event>, id: JobId): nat {
    if log == [] then 0
    else Claims(log[..|log| - 1], id) + (if log[|log| - 1] == EvClaimed(id) then 1 else 0)
  }

  ghost function Reclaims(log: seq<Event>, id: JobId): nat {
    if log == [] then 0
    else
      var e := log[|log| - 1];
      Reclaims(log[..|log| - 1], id) + (if e.EvReclaimed? && id in e.ids then 1 else 0)
  }

  /** How often the job was finished for good. */
  ghost function Completions(log: seq<Event>, id: JobId): nat {
    if log == [] then 0
    else
      var e := log[|log| - 1];
      Completions(log[..|log| - 1], id) + (if e == EvSucceeded(id) || e == EvParked(id) then 1 else 0)
  }

  /** The sum of `f` over the attempt numbers of the job's retries. */
  ghost function RetrySum(log: seq<Event>, id: JobId, f: nat -> nat): nat {
    if log == [] then 0
    else
      var e := log[|log| - 1];
      RetrySum(log[..|log| - 1], id, f) + (if e.EvRetried? && e.id == id then f(e.attempt) else 0)
  }

  ghost function RetriedAttempts(log: seq<Event>, id: JobId): set<nat> {
    if log == [] then {}
    else
      var e := log[|log| - 1];
      RetriedAttempts(log[..|log| - 1], id) + (if e.EvRetried? && e.id == id then {e.attempt} else {})
  }

  /** The job's retries carry pairwise different attempt numbers between 1 and n. */
  ghost predicate DistinctRetries(log: seq<Event>, id: JobId, n: nat) {
    log == [] ||
    var e := log[|log| - 1];
    && DistinctRetries(log[..|log| - 1], id, n)
    && (e.EvRetried? && e.id == id ==> 1 <= e.attempt <= n && e.attempt !in RetriedAttempts(log[..|log| - 1], id))
  }

  // -------------------------------------------- what holds in every run, lease or no lease

  ghost predicate RowOk(s: State, id: JobId)
    requires id in s.rows
  {
    var j := s.rows[id];
    && (j.status == Running <==> j.lockedAt.Some?)
    && (j.lockedAt.Some? ==> j.lockedAt.value <= s.now)
    && j.createdAt <= s.now
    && j.attempts == Claims(s.log, id)
    && j.attempts + (if j.status == Queued then 1 else 0) <= 1 + RetrySum(s.log, id, One) + Reclaims(s.log, id)
    && DistinctRetries(s.log, id, LastRetry(j))
    && (forall a :: a in RetriedAttempts(s.log, id) ==> a <= j.attempts)
  }

  function One(a: nat): nat { 1 }

  ghost predicate HolderOk(s: State, w: WorkerId)
    requires w in s.holders
  {
    var h := s.holders[w];
    && h.job.id in s.rows
    && 1 <= h.job.attempts <= s.rows[h.job.id].attempts
    && h.job.maxAttempts == s.rows[h.job.id].maxAttempts
    && h.job.attempts !in RetriedAttempts(s.log, h.job.id)
    && h.at <= s.now
  }

  ghost predicate Inv(s: State) {
    && (forall id :: id in s.rows ==> RowOk(s, id))
    && (forall w :: w in s.holders ==> HolderOk(s, w))
    && (forall v, w :: v in s.holders && w in s.holders && v != w ==>
          s.holders[v].job.id != s.holders[w].job.id || s.holders[v].job.attempts != s.holders[w].job.attempts)
    && (forall e :: e in s.log && e.EvClaimed? ==> e.id in s.rows)
    && (forall e :: e in s.log && e.EvRetried? ==> e.id in s.rows)
    && (forall e :: e in s.log && e.EvReclaimed? ==> e.ids <= s.rows.Keys)
    && (forall e :: e in s.log && (e.EvSucceeded? || e.EvParked?) ==> e.id in s.rows)
  }

  // ---------------------------------------------------------------- exclusivity

  /** Every live holder owns its row: running, under its own name, since its own claim, on its
      own attempt. In particular no job has two live holders. */
  ghost predicate Exclusive(s: State) {
    forall w :: w in s.holders ==>
      var h := s.holders[w];
      && h.job.id in s.rows
      && s.rows[h.job.id].status == Running
      && s.rows[h.job.id].lockedBy == Some(w) && s.rows[h.job.id].lockedAt == Some(h.at)
      && s.rows[h.job.id].attempts == h.job.attempts
  }

  /** The step reclaims a row whose holder is still at work: the lease was not kept. */
  ghost predicate BreaksLease(s: State, step: Step) {
    step.Reclaim? && exists w :: w in s.holders && s.holders[w].at < s.now - step.timeout
  }

  /** The configured assumption, in every state of the run: a live worker is done before its lock
      is old enough to be reclaimed. It is only ever needed where a reclaim happens. */
  ghost predicate LeaseKept(s: State, run: seq<Step>)
    requires Legal(s, run)
    decreases run
  {
    run == [] ||
    (LeaseKept(s, run[..|run| - 1]) && !BreaksLease(After(s, run[..|run| - 1]), run[|run| - 1]))
  }

  ghost predicate AlwaysExclusive(s: State, run: seq<Step>)
    requires Legal(s, run)
    decreases run
  {
    Exclusive(After(s, run)) && (run == [] || AlwaysExclusive(s, run[..|run| - 1]))
  }

  lemma NoSharedJob(s: State)
    requires Exclusive(s)
    ensures forall v, w :: v in s.holders && w in s.holders && s.holders[v].job.id == s.holders[w].job.id ==> v == w
  {
  }

  /** A step from an exclusive state leads to an exclusive state exactly when it does not
      reclaim a row under a live holder. */
  lemma StepKeepsExclusiveIff(s: State, step: Step)
    requires Inv(s) && Exclusive(s) && Enabled(s, step)
    ensures Exclusive(Apply(s, step)) <==> !BreaksLease(s, step)
  {
    hide RowOk, HolderOk;
    var t := Apply(s, step);
    NoSharedJob(s);
    if BreaksLease(s, step) {
      var w :| w in s.holders && s.holders[w].at < s.now - step.timeout;
      assert t.rows[s.holders[w].job.id].status == Queued;
    } else {
      forall w | w in t.holders
        ensures var h := t.holders[w];
          && h.job.id in t.rows
          && t.rows[h.job.id].status == Running
          && t.rows[h.job.id].lockedBy == Some(w) && t.rows[h.job.id].lockedAt == Some(h.at)
          && t.rows[h.job.id].attempts == h.job.attempts
      {
      }
    }
  }

  // ------------------------------------------------------------- the invariant

  lemma {:induction false} LogAppend(log: seq<Event>, e: Event, id: JobId, n: nat)
    ensures Claims(log + [e], id) == Claims(log, id) + (if e == EvClaimed(id) then 1 else 0)
    ensures Reclaims(log + [e], id) == Reclaims(log, id) + (if e.EvReclaimed? && id in e.ids then 1 else 0)
    ensures RetrySum(log + [e], id, One) == RetrySum(log, id, One) + (if e.EvRetried? && e.id == id then 1 else 0)
    ensures RetriedAttempts(log + [e], id) == RetriedAttempts(log, id)
      + (if e.EvRetried? && e.id == id then {e.attempt} else {})
    ensures DistinctRetries(log + [e], id, n) <==>
      (DistinctRetries(log, id, n)
       && (e.EvRetried? && e.id == id ==> 1 <= e.attempt <= n && e.attempt !in RetriedAttempts(log, id)))
    ensures Completions(log + [e], id) == Completions(log, id)
      + (if e == EvSucceeded(id) || e == EvParked(id) then 1 else 0)
  {
    assert (log + [e])[..|log|] == log;
  }

  /** A job nobody has inserted yet has no history. */
  lemma NoHistory(log: seq<Event>, id: JobId, n: nat)
    requires forall e :: e in log ==> (if e.EvReclaimed? then id !in e.ids else e.id != id)
    ensures Claims(log, id) == 0 && Reclaims(log, id) == 0 && RetrySum(log, id, One) == 0
    ensures RetriedAttempts(log, id) == {} && DistinctRetries(log, id, n) && Completions(log, id) == 0
  {
    if log != [] {
      assert log[|log| - 1] in log;
      NoHistory(log[..|log| - 1], id, n);
    }
  }

  function LastRetry(j: Job): nat { if j.maxAttempts == 0 then 0 else j.maxAttempts - 1 }

  /** What a step that is no retry may do to a row, given the event it logs. */
  ghost predicate RowMoves(s: State, t: State, id: JobId, e: Event)
    requires id in s.rows && id in t.rows
  {
    var j, k := s.rows[id], t.rows[id];
    && t.log == s.log + [e] && t.now == s.now && !e.EvRetried?
    && (k.status == Running <==> k.lockedAt.Some?) && (k.lockedAt.Some? ==> k.lockedAt.value <= t.now)
    && k.createdAt == j.createdAt && k.maxAttempts == j.maxAttempts
    && k.attempts == j.attempts + (if e == EvClaimed(id) then 1 else 0)
    && k.attempts + (if k.status == Queued then 1 else 0)
         <= j.attempts + (if j.status == Queued then 1 else 0) + (if e.EvReclaimed? && id in e.ids then 1 else 0)
  }

  lemma MovedRowOk(s: State, t: State, id: JobId, e: Event)
    requires RowOkIn(s, id) && id in t.rows && RowMoves(s, t, id, e)
    ensures RowOk(t, id)
  {
    assert RowOk(s, id);
    assert LastRetry(t.rows[id]) == LastRetry(s.rows[id]);
    hide Claims, Reclaims, RetrySum, RetriedAttempts, DistinctRetries, LastRetry, One;
    LogAppend(s.log, e, id, LastRetry(s.rows[id]));
  }

  lemma RowKeptByWrite(s: State, step: Step, id: JobId)
    requires RowOkIn(s, id) && Enabled(s, step) && (step.Claim? || step.Succeed? || step.Reclaim?)
    ensures RowOk(Apply(s, step), id)
  {
    var t := Apply(s, step);
    assert RowMoves(s, t, id, t.log[|s.log|]) by {
      assert RowOk(s, id);
      hide Claims, Reclaims, RetrySum, RetriedAttempts, DistinctRetries, HolderOk, Before;
    }
    hide Apply, Enabled, RowMoves, RowOk;
    MovedRowOk(s, t, id, t.log[|s.log|]);
  }

  ghost predicate RowOkIn(s: State, id: JobId) { id in s.rows && RowOk(s, id) }

  lemma RowKeptByFail(s: State, step: Step, id: JobId)
    requires Inv(s) && Enabled(s, step) && id in s.rows && step.Fail?
    ensures RowOk(Apply(s, step), id)
  {
    assert RowOk(s, id) && HolderOk(s, step.w);
    hide Inv;
    var job, t := s.holders[step.w].job, Apply(s, step);
    var e := if Retries(job, step.permanent) then EvRetried(job.id, job.attempts) else EvParked(job.id);
    assert t.log == s.log + [e] && t.now == s.now && (id != job.id ==> t.rows[id] == s.rows[id]);
    hide Claims, Reclaims, RetrySum, RetriedAttempts, DistinctRetries, LastRetry, Backoff, One;
    LogAppend(s.log, e, id, LastRetry(s.rows[id]));
    if id == job.id {
      OwnRowFails(s, step, t, e);
    } else {
      hide Apply, Enabled;
    }
  }

  lemma OwnRowFails(s: State, step: Step, t: State, e: Event)
    requires Enabled(s, step) && step.Fail? && t == Apply(s, step)
    requires RowOk(s, s.holders[step.w].job.id) && HolderOk(s, step.w)
    requires var job := s.holders[step.w].job;
      e == if Retries(job, step.permanent) then EvRetried(job.id, job.attempts) else EvParked(job.id)
    ensures RowOk(t, s.holders[step.w].job.id)
  {
    var id := s.holders[step.w].job.id;
    assert LastRetry(t.rows[id]) == LastRetry(s.rows[id]) && t.log == s.log + [e];
    assert e.EvRetried? ==> e.attempt <= LastRetry(s.rows[id]);
    hide Claims, Reclaims, RetrySum, RetriedAttempts, DistinctRetries, LastRetry, Backoff, One;
    LogAppend(s.log, e, id, LastRetry(s.rows[id]));
  }

  lemma RowKept(s: State, step: Step, id: JobId)
    requires Inv(s) && Enabled(s, step) && id in Apply(s, step).rows
    ensures RowOk(Apply(s, step), id)
  {
    hide HolderOk, Before, Backoff;
    if id !in s.rows {
      NoHistory(s.log, id, LastRetry(Apply(s, step).rows[id]));
    } else if step.Fail? {
      RowKeptByFail(s, step, id);
    } else {
      assert RowOkIn(s, id);
      if step.Claim? || step.Succeed? || step.Reclaim? {
        RowKeptByWrite(s, step, id);
      }
    }
  }

  lemma RowsGrow(s: State, step: Step, id: JobId)
    requires Enabled(s, step) && id in s.rows
    ensures var t := Apply(s, step);
      && id in t.rows && t.rows[id].maxAttempts == s.rows[id].maxAttempts && t.rows[id].attempts >= s.rows[id].attempts
      && t.now >= s.now
  {
    hide Before, Backoff;
  }

  ghost predicate RetriedByOther(s: State, w: WorkerId, e: Event)
    requires e.EvRetried?
  {
    exists v :: v in s.holders && v != w && s.holders[v].job.id == e.id && s.holders[v].job.attempts == e.attempt
  }

  lemma HolderUntouched(s: State, step: Step, w: WorkerId)
    requires Enabled(s, step) && w in s.holders && w in Apply(s, step).holders
    ensures var t := Apply(s, step);
      && t.holders[w] == s.holders[w]
      && (t.log == s.log || (|t.log| == |s.log| + 1 && t.log == s.log + [t.log[|s.log|]]))
      && (t.log != s.log && t.log[|s.log|].EvRetried? ==> RetriedByOther(s, w, t.log[|s.log|]))
  {
    hide Before, Backoff;
  }

  lemma OldHolderKept(s: State, step: Step, w: WorkerId)
    requires Inv(s) && Enabled(s, step) && w in s.holders && w in Apply(s, step).holders
    ensures HolderOk(Apply(s, step), w)
  {
    hide Apply, Enabled, RowOk, Claims, Reclaims, RetrySum, RetriedAttempts, DistinctRetries;
    assert HolderOk(s, w);
    RowsGrow(s, step, s.holders[w].job.id);
    HolderUntouched(s, step, w);
    var t := Apply(s, step);
    if t.log != s.log {
      LogAppend(s.log, t.log[|s.log|], s.holders[w].job.id, 0);
    }
  }

  lemma NewHolderOk(s: State, step: Step)
    requires Inv(s) && Enabled(s, step) && step.Claim?
    ensures HolderOk(Apply(s, step), step.w)
  {
    assert RowOk(s, step.id);
    hide Claims, Reclaims, RetrySum, RetriedAttempts, DistinctRetries, HolderOk;
    LogAppend(s.log, EvClaimed(step.id), step.id, 0);
    NewHolderFacts(s, step);
  }

  lemma NewHolderFacts(s: State, step: Step)
    requires Enabled(s, step) && step.Claim? && RowOk(s, step.id)
    requires RetriedAttempts(s.log + [EvClaimed(step.id)], step.id) == RetriedAttempts(s.log, step.id)
    ensures HolderOk(Apply(s, step), step.w)
  {
    hide Claims, Reclaims, RetrySum, RetriedAttempts, DistinctRetries;
  }

  lemma StepKeepsInv(s: State, step: Step)
    requires Inv(s) && Enabled(s, step)
    ensures Inv(Apply(s, step))
  {
    var t := Apply(s, step);
    forall id | id in t.rows ensures RowOk(t, id) {
      RowKept(s, step, id);
    }
    forall w | w in t.holders ensures HolderOk(t, w) {
      if w in s.holders {
        OldHolderKept(s, step, w);
      } else {
        NewHolderOk(s, step);
      }
    }
    SnapshotsDiffer(s, step);
    hide RowOk, HolderOk;
    assert s.rows.Keys <= t.rows.Keys;
    forall e | e in t.log && e !in s.log ensures (if e.EvReclaimed? then e.ids <= t.rows.Keys else e.id in t.rows) {
    }
  }

  lemma SnapshotsDiffer(s: State, step: Step)
    requires Inv(s) && Enabled(s, step)
    ensures var t := Apply(s, step);
      forall v, w :: v in t.holders && w in t.holders && v != w ==>
        t.holders[v].job.id != t.holders[w].job.id || t.holders[v].job.attempts != t.holders[w].job.attempts
  {
    hide RowOk;
    var t := Apply(s, step);
    forall v, w | v in t.holders && w in t.holders && v != w
      ensures t.holders[v].job.id != t.holders[w].job.id || t.holders[v].job.attempts != t.holders[w].job.attempts
    {
      if step.Claim? {
        assert v in s.holders ==> HolderOk(s, v);
        assert w in s.holders ==> HolderOk(s, w);
      }
    }
  }

  lemma {:induction false} RunKeepsInv(run: seq<Step>)
    requires Legal(START, run)
    ensures Inv(After(START, run))
    decreases run
  {
    hide Inv, Apply, Enabled;
    if run == [] {
      StartInv();
    } else {
      RunKeepsInv(run[..|run| - 1]);
      StepKeepsInv(After(START, run[..|run| - 1]), run[|run| - 1]);
    }
  }

  lemma StartInv()
    ensures Inv(START) && Exclusive(START)
  {
  }

  // ------------------------------------------------------------- the main theorems

  /** Over every interleaving: exclusivity holds throughout exactly when no reclaim ever hits a
      live holder. */
  lemma {:induction false} ExclusiveIffLeaseKept(run: seq<Step>)
    requires Legal(START, run)
    ensures AlwaysExclusive(START, run) <==> LeaseKept(START, run)
    decreases run
  {
    hide Inv, Apply, Enabled, Exclusive, BreaksLease;
    if run == [] {
      StartInv();
    } else {
      var init := run[..|run| - 1];
      ExclusiveIffLeaseKept(init);
      RunKeepsInv(init);
      if AlwaysExclusive(START, init) {
        ExclusiveNow(init);
        StepKeepsExclusiveIff(After(START, init), run[|run| - 1]);
      }
    }
  }

  lemma ExclusiveNow(run: seq<Step>)
    requires Legal(START, run) && AlwaysExclusive(START, run)
    ensures Exclusive(After(START, run))
  {
    hide Exclusive, Apply;
  }

  /** succeeded and failed are absorbing: no step of a lease-keeping run touches such a row. */
  lemma TerminalStays(s: State, step: Step, id: JobId)
    requires Exclusive(s) && Enabled(s, step) && id in s.rows && s.rows[id].Terminal()
    ensures id in Apply(s, step).rows && Apply(s, step).rows[id] == s.rows[id]
  {
  }

  lemma {:induction false} TerminalIsAbsorbing(run: seq<Step>, n: nat, id: JobId)
    requires Legal(START, run) && LeaseKept(START, run) && n <= |run| && Legal(START, run[..n])
    requires id in After(START, run[..n]).rows && After(START, run[..n]).rows[id].Terminal()
    ensures id in After(START, run).rows && After(START, run).rows[id] == After(START, run[..n]).rows[id]
    decreases run
  {
    hide Apply, Enabled, Exclusive, BreaksLease, Job.Terminal;
    if n == |run| {
      assert run[..n] == run;
    } else {
      var init := run[..|run| - 1];
      assert init[..n] == run[..n];
      TerminalIsAbsorbing(init, n, id);
      ExclusiveIffLeaseKept(init);
      ExclusiveNow(init);
      TerminalStays(After(START, init), run[|run| - 1], id);
    }
  }

  /** In a lease-keeping run a job is finished once, and has been exactly when its row says so. */
  ghost predicate CompletedOnce(s: State) {
    forall id :: id in s.rows ==> Completions(s.log, id) == if s.rows[id].Terminal() then 1 else 0
  }

  lemma RowCompletesOnce(s: State, step: Step, id: JobId)
    requires Exclusive(s) && CompletedOnce(s) && Enabled(s, step) && id in s.rows
    ensures var t := Apply(s, step);
      id in t.rows && Completions(t.log, id) == if t.rows[id].Terminal() then 1 else 0
  {
    hide Completions, Backoff, Before, Claims, Reclaims, RetrySum, RetriedAttempts, DistinctRetries;
    var t := Apply(s, step);
    if t.log != s.log {
      LogAppend(s.log, t.log[|s.log|], id, 0);
    }
  }

  lemma StepCompletesOnce(s: State, step: Step)
    requires Inv(s) && Exclusive(s) && CompletedOnce(s) && Enabled(s, step)
    ensures CompletedOnce(Apply(s, step))
  {
    hide Exclusive, Inv, Apply, Enabled, Job.Terminal;
    var t := Apply(s, step);
    forall id | id in t.rows ensures Completions(t.log, id) == if t.rows[id].Terminal() then 1 else 0 {
      if id in s.rows {
        RowCompletesOnce(s, step, id);
      } else {
        NewRowIsIncomplete(s, step, id);
      }
    }
  }

  lemma NewRowIsIncomplete(s: State, step: Step, id: JobId)
    requires Inv(s) && Enabled(s, step) && id !in s.rows && id in Apply(s, step).rows
    ensures var t := Apply(s, step); Completions(t.log, id) == 0 && !t.rows[id].Terminal()
  {
    hide RowOk, HolderOk, Completions, Before;
    NoHistory(s.log, id, 0);
  }

  lemma {:induction false} JobsCompleteOnce(run: seq<Step>)
    requires Legal(START, run) && LeaseKept(START, run)
    ensures CompletedOnce(After(START, run))
    decreases run
  {
    hide Inv, Apply, Enabled, Exclusive, BreaksLease;
    if run != [] {
      var init := run[..|run| - 1];
      JobsCompleteOnce(init);
      RunKeepsInv(init);
      ExclusiveIffLeaseKept(init);
      ExclusiveNow(init);
      StepCompletesOnce(After(START, init), run[|run| - 1]);
    }
  }

  // ----------------------------------------------- retries, with or without the lease

  ghost function WeightUpTo(attempts: set<nat>, n: nat, f: nat -> nat): nat {
    if n == 0 then 0 else WeightUpTo(attempts, n - 1, f) + (if n in attempts then f(n) else 0)
  }

  lemma {:induction false} WeightAdd(attempts: set<nat>, a: nat, n: nat, f: nat -> nat)
    requires a !in attempts
    ensures WeightUpTo(attempts + {a}, n, f) == WeightUpTo(attempts, n, f) + (if 1 <= a <= n then f(a) else 0)
  {
    if n > 0 {
      WeightAdd(attempts, a, n - 1, f);
    }
  }

  /** Distinct attempt numbers: the sum over retries is a sum over a set of numbers up to n. */
  lemma {:induction false} RetrySumIsWeight(log: seq<Event>, id: JobId, n: nat, f: nat -> nat)
    requires DistinctRetries(log, id, n)
    ensures RetrySum(log, id, f) == WeightUpTo(RetriedAttempts(log, id), n, f)
  {
    if log == [] {
      EmptyWeight(n, f);
    } else {
      var init, e := log[..|log| - 1], log[|log| - 1];
      RetrySumIsWeight(init, id, n, f);
      if e.EvRetried? && e.id == id {
        WeightAdd(RetriedAttempts(init, id), e.attempt, n, f);
      } else {
        assert RetriedAttempts(log, id) == RetriedAttempts(init, id);
      }
    }
  }

  lemma EmptyWeight(n: nat, f: nat -> nat)
    ensures WeightUpTo({}, n, f) == 0
  {
    if n > 0 {
      EmptyWeight(n - 1, f);
    }
  }

  lemma CountAtMost(attempts: set<nat>, n: nat)
    ensures WeightUpTo(attempts, n, One) <= n
  {
    if n > 0 {
      CountAtMost(attempts, n - 1);
    }
  }

  function BackoffOf(a: nat): nat { if a == 0 then 0 else Backoff(a) }

  lemma BackoffAtMost(attempts: set<nat>, n: nat)
    ensures WeightUpTo(attempts, n, BackoffOf) <= 10 * (Pow2(n) - 1)
  {
    if n > 0 {
      BackoffAtMost(attempts, n - 1);
    }
  }

  /** In every legal run, lease or not: the attempts on the row are its claims; they exceed the
      configured maximum by at most the number of reclaims of the job; and the back-off it was
      ever made to wait is bounded by the schedule. */
  lemma RetriesAreBounded(run: seq<Step>, id: JobId)
    requires Legal(START, run) && id in After(START, run).rows
    ensures var s := After(START, run);
      var max := if s.rows[id].maxAttempts == 0 then 1 else s.rows[id].maxAttempts;
      && s.rows[id].attempts == Claims(s.log, id) <= max + Reclaims(s.log, id)
      && RetrySum(s.log, id, BackoffOf) <= 10 * (Pow2(max - 1) - 1)
  {
    hide After;
    RunKeepsInv(run);
    var s := After(START, run);
    assert RowOk(s, id);
    var n := LastRetry(s.rows[id]);
    RetrySumIsWeight(s.log, id, n, One);
    RetrySumIsWeight(s.log, id, n, BackoffOf);
    CountAtMost(RetriedAttempts(s.log, id), n);
    BackoffAtMost(RetriedAttempts(s.log, id), n);
  }
}
