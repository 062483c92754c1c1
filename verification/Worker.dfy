/** The worker, api/src/tripplan/jobs/worker.py: what it does with a job, and that each of its turns is a run
    of the queue protocol. */
module Worker {
  import opened Util
  import opened Domain
  import opened JobQueue
  import opened QueueProtocol
  import opened TravelStore
  import opened Engine
  import AuditTrail
  import Assemble
  import ComposeProofs
  import Pipeline
  import QueueProgress
  import Retrieval
  import Routing
  import Validate

  // ------------------------------------------------------------------ running a job

  /** What may be raised besides an engine error; only the first three are taken for passing trouble. */
  datatype Exc =
    | PostgresError(name: string)
    | OsError(name: string)
    | TimeoutError(name: string)
    | OtherError(name: string)

  /** The calls of `run_job` that may raise, in order. One that raises has had no effect. */
  datatype Point = Loading | Generating | Staging | Saving | Succeeding

  datatype Fault = Fault(at: Point, exc: Exc)

  datatype Ending = Finished | Parked(code: string) | Raised(code: string)

  function CodeOf(e: Exc): string { if e.OtherError? then "unexpected" else e.name }

  /** How a job ends: `fault` is what is raised and where, if the job gets that far. */
  function EndingOf(fault: Option<Fault>, found: bool, plannable: bool): Ending {
    if fault.Some? && fault.value.at == Loading then Raised(CodeOf(fault.value.exc))
    else if !found then Parked("request_missing")
    else if fault.Some? && fault.value.at == Generating then Raised(CodeOf(fault.value.exc))
    else if !plannable then Parked("engine_error")
    else if fault.Some? then Raised(CodeOf(fault.value.exc))
    else Finished
  }

  /** The write that belongs to the ending: a missing request and an engine error park the job at once, anything
      else that goes wrong is retried while attempts are left. */
  function RowAfter(j: Job, job: ClaimedJob, ending: Ending, now: int): Job
    requires job.attempts >= 1
  {
    match ending
    case Finished => SucceededRow(j)
    case Parked(code) => FailedRow(j, job, true, code, now)
    case Raised(code) => FailedRow(j, job, false, code, now)
  }

  /** What each exception leaves in the row. A missing request and an engine error park the job, whatever attempts
      are left; a database, network or time-out error is retried under its own name, anything else as unexpected,
      while attempts are left; without an exception the job has succeeded. */
  lemma ExceptionsAreHandled(fault: Option<Fault>, found: bool, plannable: bool, j: Job, job: ClaimedJob, now: int)
    requires job.attempts >= 1
    ensures var row := RowAfter(j, job, EndingOf(fault, found, plannable), now);
      var early := fault.Some? && (fault.value.at == Loading || (found && fault.value.at == Generating));
      var late := fault.Some? && found && plannable;
      var code := if fault.None? then "" else
        match fault.value.exc
        case PostgresError(name) => name
        case OsError(name) => name
        case TimeoutError(name) => name
        case OtherError(_) => "unexpected";
      if early || late then
        if job.attempts < job.maxAttempts
        then row.status == Queued && row.error == Some(code) && row.runAfter == now + Backoff(job.attempts)
        else row.status == Failed && row.error == Some(code)
      else if !found then row.status == Failed && row.error == Some("request_missing")
      else if !plannable then row.status == Failed && row.error == Some("engine_error")
      else row.status == Succeeded && row.error == j.error
  {
    hide Backoff;
  }

  /** The steps of the protocol that amount to. */
  ghost function StepsOf(w: WorkerId, ending: Ending): seq<Step> {
    match ending
    case Finished => [SetStage(w, Assemble), Succeed(w)]
    case Parked(code) => [Fail(w, true, code)]
    case Raised(code) => [Fail(w, false, code)]
  }

  /** Everything else a job depends on. */
  datatype Desk = Desk(
    world: World, dayStart: nat, prices: Assemble.PriceList, party: nat, maxTravel: nat, facts: Assemble.FactList,
    unmet: seq<string>)

  ghost predicate Plannable(desk: Desk, brief: Option<Retrieval.Brief>, llm: Pipeline.LlmComposer?)
    reads if llm != null then {llm} else {}
  {
    brief.Some? &&
    var inp := desk.world.Inputs(brief.value);
    inp.cs.Doable() != [] && (ComposeProofs.NoHoles(inp) || (llm != null && Answers(desk.world, brief.value, llm)))
  }

  /** Every stop and bed of the plan is in the audit trail under the itinerary's id. */
  ghost predicate Audited(audit: AuditTrail.Audit, id: AuditTrail.ItineraryId, plan: Routing.RoutedPlan) {
    forall day :: day in plan.days ==> AuditTrail.DayAudited(audit, id, day)
  }

  /** Does the fault strike at this call? */
  predicate Strikes(fault: Option<Fault>, at: Point) { fault.Some? && fault.value.at == at }

  /** Plan, stage and save: all but the last call of a job that has its request. What is left behind is
      either nothing or a saved itinerary. */
  method PlanAndSave(desk: Desk, brief: Retrieval.Brief, llm: Pipeline.LlmComposer?, legs: TravelTable,
                     store: AuditTrail.ItineraryStore, jobs: JobTable, job: ClaimedJob, request: nat,
                     id: AuditTrail.ItineraryId, fault: Option<Fault>)
    returns (planned: bool, made: Option<Generated>)
    requires job.id in jobs.rows && desk.world.KeyedById() && brief.days >= 1
    requires forall key :: key in store.audit ==> key.itinerary != id
    modifies legs, store, jobs, if llm != null then {llm} else {}
    ensures planned <==> old(Plannable(desk, Some(brief), llm))
    ensures made.Some? <==> planned && !Strikes(fault, Staging) && !Strikes(fault, Saving)
    ensures made.None? ==> store.versions == old(store.versions) && store.audit == old(store.audit)
    ensures made.Some? ==> Kept(desk, brief, old(store.versions), store.versions, store.audit, request, id, made.value)
    ensures jobs.rows.Keys == old(jobs.rows).Keys
    ensures forall k :: k in jobs.rows && k != job.id ==> jobs.rows[k] == old(jobs.rows)[k]
    ensures Unlocked(jobs.rows[job.id]) == Unlocked(old(jobs.rows)[job.id])
  {
    hide Validate.DraftValid, Routing.Planned, AuditTrail.DayAudited, AuditTrail.AllInserted, AuditTrail.Latest, Kept;
    made := None;
    PlannableIs(desk, brief, llm);
    var r, loaded := Generate(desk.world, brief, llm, legs);
    planned := r.Ok?;
    if planned && !Strikes(fault, Staging) {
      jobs.SetStage(job.id, Stage.Assemble);
      if !Strikes(fault, Saving) {
        AssembleAndSave(desk, brief, r.value, loaded, store, request, id);
        made := Some(r.value);
      }
    }
  }

  method AssembleAndSave(desk: Desk, brief: Retrieval.Brief, g: Generated, ghost loaded: map<Pair, TravelLeg>,
                         store: AuditTrail.ItineraryStore, request: nat, id: AuditTrail.ItineraryId)
    requires forall key :: key in store.audit ==> key.itinerary != id
    requires Validate.DraftValid(g.outcome.draft, desk.world.Inputs(brief).cs, brief.days)
    requires g.plan == Routing.Planned(desk.world.Measuring(brief, loaded), g.outcome.draft, desk.world.origin)
    modifies store
    ensures Kept(desk, brief, old(store.versions), store.versions, store.audit, request, id, g)
  {
    hide *;
    TrailIsKept(desk, brief, g, loaded, store.versions, store.audit, request, id);
    var it := Assemble.AssembleAll(g.plan, desk.dayStart, desk.prices, desk.party, desk.maxTravel, desk.facts,
                                   g.outcome.report, desk.unmet, g.outcome.composer.Deterministic?);
    var version := store.Save(id, request, it);
  }

  lemma TrailIsKept(desk: Desk, brief: Retrieval.Brief, g: Generated, loaded: map<Pair, TravelLeg>,
                    versions: seq<AuditTrail.Version>, audit: AuditTrail.Audit, request: nat,
                    id: AuditTrail.ItineraryId)
    requires forall key :: key in audit ==> key.itinerary != id
    requires Validate.DraftValid(g.outcome.draft, desk.world.Inputs(brief).cs, brief.days)
    requires g.plan == Routing.Planned(desk.world.Measuring(brief, loaded), g.outcome.draft, desk.world.origin)
    ensures Kept(desk, brief, versions,
                 versions + [AuditTrail.Version(id, request, AuditTrail.Latest(versions, request) + 1)],
                 AuditTrail.AllInserted(audit, id, AuditTrail.ReferencesOf(Assemble.Pages(g.plan.days, desk.dayStart))),
                 request, id, g)
  {
    hide Validate.DraftValid, Routing.Planned, AuditTrail.DayAudited, AuditTrail.AllInserted, AuditTrail.Latest;
    hide AuditTrail.ReferencesOf, Assemble.Pages;
    AuditTrail.ValidatedIsAudited(
      desk.world.Measuring(brief, loaded), g.outcome.draft, desk.world.Inputs(brief).cs, brief.days,
      desk.world.origin, desk.dayStart, audit, id);
  }

  /** What a saved itinerary is: a valid draft, the request's next version, every stop and bed on record. */
  ghost predicate Kept(desk: Desk, brief: Retrieval.Brief, before: seq<AuditTrail.Version>,
                       after: seq<AuditTrail.Version>, audit: AuditTrail.Audit, request: nat,
                       id: AuditTrail.ItineraryId, g: Generated)
  {
    && Validate.DraftValid(g.outcome.draft, desk.world.Inputs(brief).cs, brief.days)
    && after == before + [AuditTrail.Version(id, request, AuditTrail.Latest(before, request) + 1)]
    && Audited(audit, id, g.plan)
  }

  lemma PlannableIs(desk: Desk, brief: Retrieval.Brief, llm: Pipeline.LlmComposer?)
    ensures Plannable(desk, Some(brief), llm) <==>
      desk.world.Inputs(brief).cs.Doable() != []
      && (ComposeProofs.NoHoles(desk.world.Inputs(brief)) || (llm != null && Answers(desk.world, brief, llm)))
  {
  }

  /** `run_job`. A job whose last call raises has saved its itinerary all the same, and is retried. */
  method RunJob(desk: Desk, brief: Option<Retrieval.Brief>, llm: Pipeline.LlmComposer?, legs: TravelTable,
                store: AuditTrail.ItineraryStore, jobs: JobTable, job: ClaimedJob, request: nat,
                id: AuditTrail.ItineraryId, fault: Option<Fault>, now: int)
    returns (ending: Ending, made: Option<Generated>)
    requires job.attempts >= 1 && job.id in jobs.rows && desk.world.KeyedById()
    requires brief.Some? ==> brief.value.days >= 1
    requires forall key :: key in store.audit ==> key.itinerary != id
    modifies legs, store, jobs, if llm != null then {llm} else {}
    ensures ending == EndingOf(fault, brief.Some?, old(Plannable(desk, brief, llm)))
    ensures jobs.rows == old(jobs.rows)[job.id := RowAfter(old(jobs.rows)[job.id], job, ending, now)]
    ensures jobs.rows[job.id].attempts == old(jobs.rows)[job.id].attempts
    // an itinerary is saved exactly when the job finishes, or only its last call raises
    ensures made.Some? <==> ending.Finished? || (Strikes(fault, Succeeding) && old(Plannable(desk, brief, llm)))
    ensures made.None? ==> store.versions == old(store.versions) && store.audit == old(store.audit)
    ensures made.Some? ==>
      brief.Some? && Kept(desk, brief.value, old(store.versions), store.versions, store.audit, request, id, made.value)
  {
    hide Plannable, Kept;
    made := None;
    var planned := false;
    if brief.Some? && !Strikes(fault, Loading) && !Strikes(fault, Generating) {
      planned, made := PlanAndSave(desk, brief.value, llm, legs, store, jobs, job, request, id, fault);
    } else {
      NothingPlanned(desk, brief, llm, fault);
    }
    ending := EndingOf(fault, brief.Some?, planned);
    match ending {
      case Finished =>
        jobs.Succeed(job.id);
      case Parked(code) =>
        var _ := jobs.Fail(job, true, code, now);
      case Raised(code) =>
        var _ := jobs.Fail(job, false, code, now);
    }
  }

  /** Where the pipeline is not entered, it does not matter what it would have come to. */
  lemma NothingPlanned(desk: Desk, brief: Option<Retrieval.Brief>, llm: Pipeline.LlmComposer?, fault: Option<Fault>)
    requires brief.None? || Strikes(fault, Loading) || Strikes(fault, Generating)
    ensures EndingOf(fault, brief.Some?, false) == EndingOf(fault, brief.Some?, Plannable(desk, brief, llm))
    ensures Strikes(fault, Succeeding) ==> !Plannable(desk, brief, llm)
  {
  }
}
