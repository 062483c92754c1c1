/** Every call on the job table is a step of the queue protocol, and a worker's turn is a run of it. */
module WorkerTurns {
  import opened Util
  import opened Domain
  import opened JobQueue
  import opened QueueProtocol
  import opened TravelStore
  import opened Worker
  import AuditTrail
  import Engine
  import Pipeline
  import QueueProgress
  import Retrieval

  // -------------------------------------------------------------- call by call

  /** The table shows the rows of the state, and the clock its time. */
  ghost predicate Shows(jobs: JobTable, s: State, now: int)
    reads jobs
  {
    jobs.rows == s.rows && s.now == now
  }

  method EnqueueIsStep(jobs: JobTable, id: JobId, now: int, ghost s: State) returns (ghost t: State)
    requires Shows(jobs, s, now) && id !in jobs.rows
    modifies jobs
    ensures var step := Enqueue(id, jobs.maxAttempts); Enabled(s, step) && t == Apply(s, step) && Shows(jobs, t, now)
  {
    jobs.Enqueue(id, now);
    t := Apply(s, Enqueue(id, jobs.maxAttempts));
  }

  /** Nothing is claimed exactly when no claim is enabled; what is claimed, the worker holds from then on. */
  method ClaimIsStep(jobs: JobTable, w: WorkerId, now: int, ghost s: State)
    returns (job: Option<ClaimedJob>, ghost t: State)
    requires Shows(jobs, s, now) && w !in s.holders
    modifies jobs
    ensures job.None? <==> forall id :: id in s.rows ==> !Runnable(s.rows[id], now)
    ensures job.None? ==> forall id :: !Enabled(s, Claim(w, id))
    ensures job.None? ==> t == s
    ensures job.Some? ==>
      var step := Claim(w, job.value.id);
      Enabled(s, step) && t == Apply(s, step) && t.holders == s.holders[w := Holder(job.value, now)]
    ensures job.Some? ==> job.value.id in t.rows && 1 <= job.value.attempts == t.rows[job.value.id].attempts
    ensures Shows(jobs, t, now)
  {
    job := jobs.Claim(w, now);
    t := s;
    if job.Some? {
      t := Apply(s, Claim(w, job.value.id));
    }
  }

  method ReclaimIsStep(jobs: JobTable, timeout: int, now: int, ghost s: State) returns (ids: set<JobId>, ghost t: State)
    requires Shows(jobs, s, now)
    modifies jobs
    ensures Enabled(s, Reclaim(timeout)) && t == Apply(s, Reclaim(timeout)) && Shows(jobs, t, now)
    ensures t.log == s.log + [EvReclaimed(ids)] && t.holders == s.holders
  {
    ids := jobs.ReclaimStale(timeout, now);
    t := Apply(s, Reclaim(timeout));
    assert t.log[|s.log|].ids == ids;
  }

  /** The three writes of a worker, for the job it remembers: none of them looks at who holds the row. */
  method SetStageIsStep(jobs: JobTable, w: WorkerId, job: ClaimedJob, stage: Stage, now: int, ghost s: State)
    returns (ghost t: State)
    requires Shows(jobs, s, now) && Enabled(s, SetStage(w, stage)) && s.holders[w].job == job
    modifies jobs
    ensures t == Apply(s, SetStage(w, stage)) && Shows(jobs, t, now)
  {
    jobs.SetStage(job.id, stage);
    t := Apply(s, SetStage(w, stage));
  }

  method SucceedIsStep(jobs: JobTable, w: WorkerId, job: ClaimedJob, now: int, ghost s: State) returns (ghost t: State)
    requires Shows(jobs, s, now) && Enabled(s, Succeed(w)) && s.holders[w].job == job
    modifies jobs
    ensures t == Apply(s, Succeed(w)) && Shows(jobs, t, now)
  {
    jobs.Succeed(job.id);
    t := Apply(s, Succeed(w));
  }

  method FailIsStep(jobs: JobTable, w: WorkerId, job: ClaimedJob, permanent: bool, code: string, now: int,
                    ghost s: State)
    returns (retry: bool, ghost t: State)
    requires Shows(jobs, s, now) && Enabled(s, Fail(w, permanent, code)) && s.holders[w].job == job
    modifies jobs
    ensures t == Apply(s, Fail(w, permanent, code)) && Shows(jobs, t, now)
    ensures t.log == s.log + [if retry then EvRetried(job.id, job.attempts) else EvParked(job.id)]
  {
    retry := jobs.Fail(job, permanent, code, now);
    t := Apply(s, Fail(w, permanent, code));
  }

  // -------------------------------------------------------------- turn by turn

  /** However a job ends, its ending is a run that writes the row as RowAfter says and lets go of it. */
  lemma EndingIsRun(s: State, run: seq<Step>, w: WorkerId, ending: Ending)
    requires Legal(s, run) && Enabled(After(s, run), Fail(w, true, ""))
    ensures var a := After(s, run);
      && Legal(s, run + StepsOf(w, ending))
      && var b := After(s, run + StepsOf(w, ending)); var job := a.holders[w].job;
      && b.rows == a.rows[job.id := RowAfter(a.rows[job.id], job, ending, a.now)]
      && b.holders == Drop(a.holders, w) && b.now == a.now
  {
    if ending.Finished? {
      QueueProgress.Extend(s, run, SetStage(w, Assemble));
      QueueProgress.Extend(s, run + [SetStage(w, Assemble)], Succeed(w));
      assert run + StepsOf(w, ending) == run + [SetStage(w, Assemble)] + [Succeed(w)];
    } else {
      QueueProgress.Extend(s, run, StepsOf(w, ending)[0]);
    }
  }

  lemma OneStep(s: State, step: Step)
    requires Enabled(s, step)
    ensures Legal(s, [step]) && After(s, [step]) == Apply(s, step)
  {
    assert Legal(s, []);
    QueueProgress.Extend(s, [], step);
    assert [] + [step] == [step];
  }

  /** Release what is stale, then claim. */
  method TakeJob(jobs: JobTable, w: WorkerId, timeout: int, now: int, ghost s: State)
    returns (job: Option<ClaimedJob>, ghost run: seq<Step>)
    requires Shows(jobs, s, now) && w !in s.holders
    modifies jobs
    ensures run == [Reclaim(timeout)] + if job.Some? then [Claim(w, job.value.id)] else []
    ensures Legal(s, run) && Shows(jobs, After(s, run), now)
    ensures job.None? ==> forall id :: id in jobs.rows ==> !Runnable(jobs.rows[id], now)
    ensures After(s, run).holders == if job.Some? then s.holders[w := Holder(job.value, now)] else s.holders
    ensures job.Some? ==> job.value.attempts >= 1 && job.value.id in jobs.rows
  {
    hide Apply, Enabled, Legal, After, Runnable, Reclaimed;
    ghost var t;
    var ids;
    ids, t := ReclaimIsStep(jobs, timeout, now, s);
    OneStep(s, Reclaim(timeout));
    run := [Reclaim(timeout)];
    job, t := ClaimIsStep(jobs, w, now, t);
    if job.Some? {
      QueueProgress.Extend(s, run, Claim(w, job.value.id));
      run := run + [Claim(w, job.value.id)];
    }
  }

  /** The same after `work` seconds with the job just claimed. */
  lemma WorkThenEnd(s: State, run: seq<Step>, w: WorkerId, job: ClaimedJob, work: nat, now: int)
    requires Legal(s, run) && After(s, run).now == now && w !in s.holders && job.attempts >= 1
    requires job.id in After(s, run).rows && After(s, run).holders == s.holders[w := Holder(job, now)]
    ensures forall ending :: EndsTurn(s, run, w, job, work, ending)
  {
    var worked := run + [Tick(work)];
    QueueProgress.Extend(s, run, Tick(work));
    forall ending ensures EndsTurn(s, run, w, job, work, ending) {
      EndingIsRun(s, worked, w, ending);
      assert Drop(s.holders[w := Holder(job, now)], w) == s.holders;
    }
  }

  ghost predicate EndsTurn(s: State, run: seq<Step>, w: WorkerId, job: ClaimedJob, work: nat, ending: Ending)
    requires Legal(s, run) && job.id in After(s, run).rows && job.attempts >= 1
  {
    var a, longer := After(s, run), run + [Tick(work)] + StepsOf(w, ending);
    && Legal(s, longer) && After(s, longer).holders == s.holders && After(s, longer).now == a.now + work
    && After(s, longer).rows == a.rows[job.id := RowAfter(a.rows[job.id], job, ending, a.now + work)]
  }

  function LoadBrief(briefs: map<nat, Retrieval.Brief>, request: nat): Option<Retrieval.Brief> {
    if request in briefs then Some(briefs[request]) else None
  }

  /** One pass of the worker's loop while no other worker writes: release, claim, run the job for `work`
      seconds, report. It is a legal run of the protocol, and the worker holds nothing before and after. */
  method Turn(desk: Desk, requestOf: JobId -> nat, briefs: map<nat, Retrieval.Brief>, llm: Pipeline.LlmComposer?,
              legs: TravelTable, store: AuditTrail.ItineraryStore, jobs: JobTable, w: WorkerId, timeout: int,
              id: AuditTrail.ItineraryId, fault: Option<Fault>, now: int, work: nat, ghost s: State)
    returns (job: Option<ClaimedJob>, ending: Ending, ghost run: seq<Step>)
    requires Shows(jobs, s, now) && w !in s.holders && desk.world.KeyedById()
    requires forall request :: request in briefs ==> briefs[request].days >= 1
    requires forall key :: key in store.audit ==> key.itinerary != id
    modifies legs, store, jobs, if llm != null then {llm} else {}
    ensures run == [Reclaim(timeout)] +
      if job.Some? then [Claim(w, job.value.id), Tick(work)] + StepsOf(w, ending) else []
    ensures Legal(s, run) && After(s, run).holders == s.holders
    ensures Shows(jobs, After(s, run), if job.Some? then now + work else now)
    ensures job.None? ==> store.versions == old(store.versions) && store.audit == old(store.audit)
    ensures job.Some? ==>
      var request := requestOf(job.value.id);
      ending == EndingOf(fault, request in briefs, old(Plannable(desk, LoadBrief(briefs, request), llm)))
  {
    hide Plannable, Kept, Legal, After, StepsOf, RowAfter;
    ending := Finished;
    job, run := TakeJob(jobs, w, timeout, now, s);
    if job.Some? {
      hide Reclaimed, Runnable;
      var request := requestOf(job.value.id);
      WorkThenEnd(s, run, w, job.value, work, now);
      var made;
      ending, made := RunJob(desk, LoadBrief(briefs, request), llm, legs, store, jobs, job.value, request, id, fault,
        now + work);
      assert EndsTurn(s, run, w, job.value, work, ending);
      run := run + [Tick(work)] + StepsOf(w, ending);
    }
  }
}
