/** The job table and its statements, api/src/tripplan/jobs/queue.py. Each SQL statement is one atomic step. */
module JobQueue {
  import opened Util

  type JobId = nat
  type WorkerId = nat

  datatype Status = Queued | Running | Succeeded | Failed

  datatype Stage = Retrieval | Compose | Validate | Route | Assemble

  datatype Job = Job(
    status: Status, stage: Option<Stage>, attempts: nat, maxAttempts: nat,
    lockedAt: Option<int>, lockedBy: Option<WorkerId>,
    runAfter: int, createdAt: int, error: Option<string>) {
    predicate Terminal() { status == Succeeded || status == Failed }
  }

  type Table = map<JobId, Job>

  /** What a worker remembers of the row it claimed. */
  datatype ClaimedJob = ClaimedJob(id: JobId, attempts: nat, maxAttempts: nat) {
    predicate IsFinalAttempt() { attempts >= maxAttempts }
  }

  function Pow2(n: nat): (p: nat)
    ensures p >= 1
  {
    if n == 0 then 1 else 2 * Pow2(n - 1)
  }

  /** 10s, 20s, 40s, ... for attempts 1, 2, 3, ... */
  function Backoff(attempts: nat): nat
    requires attempts >= 1
  {
    10 * Pow2(attempts - 1)
  }

  // ------------------------------------------------- the statements as functions

  /** An inserted row: every column but the request takes its default. */
  function Fresh(maxAttempts: nat, now: int): Job { Job(Queued, None, 0, maxAttempts, None, None, now, now, None) }

  predicate Runnable(j: Job, now: int) { j.status == Queued && j.runAfter <= now }

  /** ORDER BY run_after, created_at. */
  predicate Before(a: Job, b: Job) {
    a.runAfter < b.runAfter || (a.runAfter == b.runAfter && a.createdAt < b.createdAt)
  }

  /** A row the claim statement may select: runnable, and no runnable row is before it. */
  predicate IsNext(rows: Table, now: int, id: JobId) {
    && id in rows && Runnable(rows[id], now)
    && forall k :: k in rows && Runnable(rows[k], now) ==> !Before(rows[k], rows[id])
  }

  function ClaimedRow(j: Job, w: WorkerId, now: int): Job {
    j.(status := Running, stage := Some(Retrieval), attempts := j.attempts + 1,
       lockedAt := Some(now), lockedBy := Some(w), error := None)
  }

  function Unlocked(j: Job): Job { j.(stage := None, lockedAt := None, lockedBy := None) }

  function SucceededRow(j: Job): Job { Unlocked(j).(status := Succeeded) }

  function RetriedRow(j: Job, attempts: nat, code: string, now: int): Job
    requires attempts >= 1
  {
    Unlocked(j).(status := Queued, runAfter := now + Backoff(attempts), error := Some(code))
  }

  function ParkedRow(j: Job, code: string): Job { Unlocked(j).(status := Failed, error := Some(code)) }

  predicate Retries(job: ClaimedJob, permanent: bool) { !permanent && !job.IsFinalAttempt() }

  function FailedRow(j: Job, job: ClaimedJob, permanent: bool, code: string, now: int): Job
    requires job.attempts >= 1
  {
    if Retries(job, permanent) then RetriedRow(j, job.attempts, code, now) else ParkedRow(j, code)
  }

  predicate Stale(j: Job, timeout: int, now: int) {
    j.status == Running && j.lockedAt.Some? && j.lockedAt.value < now - timeout
  }

  function Reclaimed(rows: Table, timeout: int, now: int): Table {
    map id | id in rows :: if Stale(rows[id], timeout, now) then Unlocked(rows[id]).(status := Queued) else rows[id]
  }

  lemma NextAmong(rows: Table, now: int, ids: set<JobId>) returns (id: JobId)
    requires ids <= rows.Keys && exists k :: k in ids && Runnable(rows[k], now)
    ensures id in ids && Runnable(rows[id], now)
    ensures forall k :: k in ids && Runnable(rows[k], now) ==> !Before(rows[k], rows[id])
    decreases |ids|
  {
    var k :| k in ids && Runnable(rows[k], now);
    if exists m :: m in ids - {k} && Runnable(rows[m], now) {
      id := NextAmong(rows, now, ids - {k});
      if Before(rows[k], rows[id]) {
        id := k;
      }
    } else {
      id := k;
    }
  }

  // ---------------------------------------------------------------- the table

  class JobTable {
    /** The default of the column max_attempts: 3 in the first migration. */
    const maxAttempts: nat
    var rows: Table

    constructor (maxAttempts: nat)
      ensures rows == map[] && this.maxAttempts == maxAttempts
    {
      this.maxAttempts := maxAttempts;
      rows := map[];
    }

    method Enqueue(id: JobId, now: int)
      requires id !in rows
      modifies this
      ensures rows == old(rows)[id := Fresh(maxAttempts, now)]
      // due at once, never started, nobody's
      ensures rows[id].status == Queued && rows[id].stage == None && rows[id].error == None
      ensures rows[id].attempts == 0 && rows[id].maxAttempts == maxAttempts
      ensures rows[id].lockedAt == None && rows[id].lockedBy == None
      ensures rows[id].runAfter == now == rows[id].createdAt
    {
      rows := rows[id := Fresh(maxAttempts, now)];
    }

    /** None exactly when nothing is runnable; otherwise the row first in order is locked
        and its attempt counted. */
    method Claim(w: WorkerId, now: int) returns (job: Option<ClaimedJob>)
      modifies this
      ensures job.None? <==> forall k :: k in old(rows) ==> !Runnable(old(rows)[k], now)
      ensures job.None? ==> rows == old(rows)
      ensures job.Some? ==>
        && IsNext(old(rows), now, job.value.id)
        && rows == old(rows)[job.value.id := ClaimedRow(old(rows)[job.value.id], w, now)]
        && job.value == ClaimedJob(job.value.id, rows[job.value.id].attempts, rows[job.value.id].maxAttempts)
      // queued, due, and no other queued and due row is older
      ensures job.Some? ==>
        var was := old(rows)[job.value.id];
        && was.status == Queued && was.runAfter <= now
        && (forall k :: k in old(rows) && old(rows)[k].status == Queued && old(rows)[k].runAfter <= now ==>
              || was.runAfter < old(rows)[k].runAfter
              || (was.runAfter == old(rows)[k].runAfter && was.createdAt <= old(rows)[k].createdAt))
        && rows[job.value.id] == was.(status := Running, stage := Some(Retrieval), attempts := was.attempts + 1,
                                      lockedAt := Some(now), lockedBy := Some(w), error := None)
    {
      if forall k :: k in rows ==> !Runnable(rows[k], now) {
        return None;
      }
      ghost var next := NextAmong(rows, now, rows.Keys);
      assert IsNext(rows, now, next);
      var id :| id in rows && IsNext(rows, now, id);
      rows := rows[id := ClaimedRow(rows[id], w, now)];
      return Some(ClaimedJob(id, rows[id].attempts, rows[id].maxAttempts));
    }

    method SetStage(id: JobId, stage: Stage)
      modifies this
      ensures rows == if id in old(rows) then old(rows)[id := old(rows)[id].(stage := Some(stage))] else old(rows)
    {
      if id in rows {
        rows := rows[id := rows[id].(stage := Some(stage))];
      }
    }

    method Succeed(id: JobId)
      modifies this
      ensures rows == if id in old(rows) then old(rows)[id := SucceededRow(old(rows)[id])] else old(rows)
      ensures id in rows ==>
        rows[id] == old(rows)[id].(status := Succeeded, stage := None, lockedAt := None, lockedBy := None)
    {
      if id in rows {
        rows := rows[id := SucceededRow(rows[id])];
      }
    }

    method Fail(job: ClaimedJob, permanent: bool, code: string, now: int) returns (retry: bool)
      requires job.attempts >= 1
      modifies this
      ensures retry <==> !permanent && job.attempts < job.maxAttempts
      ensures rows == if job.id in old(rows)
        then old(rows)[job.id := FailedRow(old(rows)[job.id], job, permanent, code, now)] else old(rows)
      ensures job.id in rows ==>
        var off := old(rows)[job.id].(stage := None, lockedAt := None, lockedBy := None, error := Some(code));
        rows[job.id] == if retry then off.(status := Queued, runAfter := now + Backoff(job.attempts))
                        else off.(status := Failed)
    {
      retry := !permanent && !job.IsFinalAttempt();
      if job.id !in rows {
        return;
      }
      if retry {
        var backoff := Backoff(job.attempts);
        rows := rows[job.id := rows[job.id].(status := Queued, stage := None, lockedAt := None, lockedBy := None,
                                             runAfter := now + backoff, error := Some(code))];
      } else {
        rows := rows[job.id := rows[job.id].(status := Failed, stage := None, lockedAt := None, lockedBy := None,
                                             error := Some(code))];
      }
    }

    method ReclaimStale(timeout: int, now: int) returns (ids: set<JobId>)
      modifies this
      ensures rows == Reclaimed(old(rows), timeout, now)
      ensures forall id :: id in ids <==> id in old(rows) && Stale(old(rows)[id], timeout, now)
      ensures rows.Keys == old(rows).Keys
      ensures forall id :: id in rows ==>
        var was := old(rows)[id];
        if was.status == Running && was.lockedAt.Some? && was.lockedAt.value < now - timeout
        then id in ids && rows[id] == was.(status := Queued, stage := None, lockedAt := None, lockedBy := None)
        else id !in ids && rows[id] == was
    {
      ids := set id | id in rows && Stale(rows[id], timeout, now);
      rows := map id | id in rows :: if id in ids then Unlocked(rows[id]).(status := Queued) else rows[id];
    }
  }
}
