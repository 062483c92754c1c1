/** Stages 2 and 3 together: try the model, repair, fall back.
    api/src/tripplan/engine/pipeline.py, `_compose_and_validate`. */
module Pipeline {
  import opened Util
  import opened Domain
  import opened Validate
  import opened ComposeGreedy
  import opened ComposeProofs

  /** One call to the model: which draft it is asked to repair, and what it is told is wrong. */
  datatype Call = Call(repairOf: Option<Draft>, quoted: seq<Violation>)

  /** The language model, as an oracle: its k-th answer is any draft at all, or None. */
  class LlmComposer {
    const answers: nat -> Option<Draft>
    var log: seq<Call>

    constructor (answers: nat -> Option<Draft>)
      ensures this.answers == answers && log == []
    {
      this.answers := answers;
      log := [];
    }

    method Compose(repairOf: Option<Draft>, quoted: seq<Violation>) returns (draft: Option<Draft>)
      modifies this`log
      ensures draft == answers(|old(log)|)
      ensures log == old(log) + [Call(repairOf, quoted)]
    {
      draft := answers(|log|);
      log := log + [Call(repairOf, quoted)];
    }
  }

  datatype ComposerName = Llm | Deterministic

  datatype Reason = Declined | RejectedAfterRepair

  datatype Outcome = Outcome(draft: Draft, composer: ComposerName, fallback: Option<Reason>, report: seq<Violation>)

  datatype EngineError = InvalidComposition(report: seq<Violation>)

  // --------------------------------------------------------- what must come out

  ghost predicate Good(inp: Inputs, answer: Option<Draft>) {
    answer.Some? && DraftValid(answer.value, inp.cs, inp.days)
  }

  /** The answer the tries end with: the first among k, k+1, ..., last that is a refusal or valid, else the last. */
  ghost function LastCall(inp: Inputs, answers: nat -> Option<Draft>, k: nat, last: nat): (m: nat)
    requires k <= last
    ensures k <= m <= last
    decreases last - k
  {
    if answers(k).None? || Good(inp, answers(k)) || k == last then k else LastCall(inp, answers, k + 1, last)
  }

  /** The answer that is returned, if any. */
  ghost function Accepted(inp: Inputs, answers: nat -> Option<Draft>, k: nat, last: nat): (a: Option<nat>)
    requires k <= last
  {
    var m := LastCall(inp, answers, k, last);
    if Good(inp, answers(m)) then Some(m) else None
  }

  ghost predicate NoneGood(inp: Inputs, answers: nat -> Option<Draft>, k: nat, m: nat) {
    forall j :: k <= j <= m ==> !Good(inp, answers(j))
  }

  /** The tries end at answer m without success: it is a refusal or the last, and none up to it is valid. */
  ghost predicate EndsAt(inp: Inputs, answers: nat -> Option<Draft>, k: nat, last: nat, m: nat) {
    k <= m <= last && (answers(m).None? || m == last) && NoneGood(inp, answers, k, m)
  }

  ghost predicate NeverSucceeds(inp: Inputs, answers: nat -> Option<Draft>, k: nat, last: nat) {
    exists m :: EndsAt(inp, answers, k, last, m)
  }

  lemma {:induction false} LastCallFacts(inp: Inputs, answers: nat -> Option<Draft>, k: nat, last: nat)
    requires k <= last
    ensures var m := LastCall(inp, answers, k, last);
      && (forall j :: k <= j < m ==> answers(j).Some? && !Good(inp, answers(j)))
      && (answers(m).None? || Good(inp, answers(m)) || m == last)
    decreases last - k
  {
    hide Good;
    if answers(k).Some? && !Good(inp, answers(k)) && k < last {
      LastCallFacts(inp, answers, k + 1, last);
    }
  }

  /** The accepted answer is valid, and every answer before it was an invalid draft; nothing is
      accepted exactly when an answer is refused before any is valid, or all of them are invalid. */
  lemma AcceptedIsFirstGood(inp: Inputs, answers: nat -> Option<Draft>, k: nat, last: nat)
    requires k <= last
    ensures var a := Accepted(inp, answers, k, last);
      && (a.Some? ==> k <= a.value <= last && Good(inp, answers(a.value)))
      && (a.Some? ==> forall j :: k <= j < a.value ==> answers(j).Some? && !Good(inp, answers(j)))
      && (a.None? <==> NeverSucceeds(inp, answers, k, last))
  {
    LastCallFacts(inp, answers, k, last);
    NoneIsNotGood(inp, answers(LastCall(inp, answers, k, last)));
    EndsAtLastCall(inp, answers, k, last, LastCall(inp, answers, k, last));
  }

  lemma NoneIsNotGood(inp: Inputs, answer: Option<Draft>)
    ensures answer.None? ==> !Good(inp, answer)
  {
  }

  lemma EndsAtLastCall(inp: Inputs, answers: nat -> Option<Draft>, k: nat, last: nat, m: nat)
    requires k <= m <= last && forall j :: k <= j < m ==> answers(j).Some? && !Good(inp, answers(j))
    requires if Good(inp, answers(m)) then answers(m).Some? else answers(m).None? || m == last
    ensures NeverSucceeds(inp, answers, k, last) <==> !Good(inp, answers(m))
  {
    hide Good;
    if Good(inp, answers(m)) {
      forall e: nat ensures !EndsAt(inp, answers, k, last, e) {
        assert k <= e < m ==> answers(e).Some? && e != last;
      }
    } else {
      assert EndsAt(inp, answers, k, last, m);
    }
  }

  /** `report` is the set of violations stage 3 raises against the draft. */
  ghost predicate IsReport(report: seq<Violation>, draft: Draft, inp: Inputs) {
    forall v :: v in report <==> Reported(v, draft, inp.cs, inp.days, inp.dayMinutes)
  }

  ghost predicate IsFatalReport(report: seq<Violation>, draft: Draft, inp: Inputs) {
    forall v :: v in report <==> v.severity == Fatal && Reported(v, draft, inp.cs, inp.days, inp.dayMinutes)
  }

  /** Call k of a job whose calls begin at `first`: a first attempt, or a repair of the FIRST
      answer quoting what was wrong with the LATEST one. */
  ghost predicate IsCall(c: Call, answers: nat -> Option<Draft>, first: nat, k: nat, inp: Inputs) {
    if k <= first then c == Call(None, [])
    else
      && answers(first).Some? && answers(k - 1).Some?
      && c.repairOf == answers(first)
      && IsFatalReport(c.quoted, answers(k - 1).value, inp)
  }

  ghost predicate CallsFrom(log: seq<Call>, answers: nat -> Option<Draft>, first: nat, inp: Inputs) {
    forall k :: first <= k < |log| ==> IsCall(log[k], answers, first, k, inp)
  }

  lemma FatalsReport(report: seq<Violation>, draft: Draft, inp: Inputs)
    requires IsReport(report, draft, inp)
    ensures IsFatalReport(Fatals(report), draft, inp)
  {
    hide Reported;
  }

  lemma CallAdded(log: seq<Call>, c: Call, answers: nat -> Option<Draft>, first: nat, inp: Inputs)
    requires CallsFrom(log, answers, first, inp) && IsCall(c, answers, first, |log|, inp)
    ensures CallsFrom(log + [c], answers, first, inp)
  {
    hide IsCall;
  }

  lemma NoCalls(log: seq<Call>, answers: nat -> Option<Draft>, inp: Inputs)
    ensures CallsFrom(log, answers, |log|, inp) && IsCall(Call(None, []), answers, |log|, |log|, inp)
  {
  }

  lemma RepairCall(report: seq<Violation>, answers: nat -> Option<Draft>, first: nat, k: nat, inp: Inputs)
    requires first < k && answers(first).Some? && answers(k - 1).Some? && IsReport(report, answers(k - 1).value, inp)
    ensures IsCall(Call(answers(first), Fatals(report)), answers, first, k, inp)
  {
    FatalsReport(report, answers(k - 1).value, inp);
  }

  lemma NotYet(inp: Inputs, answers: nat -> Option<Draft>, k: nat, last: nat)
    requires k < last && answers(k).Some? && !Good(inp, answers(k))
    ensures LastCall(inp, answers, k, last) == LastCall(inp, answers, k + 1, last)
  {
  }

  /** The calls of one job, from `first` on: as many as it takes to reach the last answer, each with what it is told. */
  ghost predicate TrialLog(log: seq<Call>, inp: Inputs, answers: nat -> Option<Draft>, first: nat, maxRepairs: nat) {
    && |log| == LastCall(inp, answers, first, first + maxRepairs) + 1
    && CallsFrom(log, answers, first, inp)
  }

  method Check(inp: Inputs, draft: Draft) returns (report: seq<Violation>)
    ensures IsReport(report, draft, inp)
    ensures IsOk(report) <==> Good(inp, Some(draft))
  {
    hide DraftValid, Reported;
    report := Validate.Validate(draft, inp.cs, inp.days, inp.dayMinutes);
  }

  /** What became of the tries: the accepted answer with its report, or a reason to fall back. */
  ghost predicate Tried(inp: Inputs, answers: nat -> Option<Draft>, first: nat, last: nat,
                        found: Option<(Draft, seq<Violation>)>, fallback: Option<Reason>)
    requires first <= last
  {
    match Accepted(inp, answers, first, last)
    case Some(k) =>
      && found.Some? && answers(k) == Some(found.value.0) && IsReport(found.value.1, found.value.0, inp)
      && fallback.None?
    case None =>
      && found.None? && fallback.Some?
      && (fallback == Some(Declined) <==> answers(first).None?)
  }

  /** Stage 2 and 3 with a model: the calls made, neither more nor fewer, and the answer taken. */
  method TryModel(inp: Inputs, llm: LlmComposer, maxRepairs: nat)
    returns (found: Option<(Draft, seq<Violation>)>, fallback: Option<Reason>)
    modifies llm`log
    ensures Tried(inp, llm.answers, |old(llm.log)|, |old(llm.log)| + maxRepairs, found, fallback)
    ensures old(llm.log) < llm.log && TrialLog(llm.log, inp, llm.answers, |old(llm.log)|, maxRepairs)
  {
    hide Fatals, IsOk, CallsFrom, IsCall, IsReport, Good;
    ghost var first := |llm.log|;
    found, fallback := None, None;
    assert CallsFrom(llm.log, llm.answers, first, inp) && IsCall(Call(None, []), llm.answers, first, first, inp) by {
      NoCalls(llm.log, llm.answers, inp);
    }
    CallAdded(llm.log, Call(None, []), llm.answers, first, inp);
    var draft := llm.Compose(None, []);
    NoneIsNotGood(inp, draft);
    if draft.None? {
      return None, Some(Declined);
    }
    var result := Check(inp, draft.value);
    if IsOk(result) {
      return Some((draft.value, result)), None;
    }
    ghost var latest := draft.value;
    var attempt := 0;
    while attempt < maxRepairs
      invariant 0 <= attempt <= maxRepairs
      invariant |llm.log| == first + 1 + attempt && old(llm.log) < llm.log
      invariant llm.answers(first) == draft
      invariant llm.answers(first + attempt) == Some(latest) && !Good(inp, Some(latest))
      invariant IsReport(result, latest, inp)
      invariant LastCall(inp, llm.answers, first, first + maxRepairs)
             == LastCall(inp, llm.answers, first + attempt, first + maxRepairs)
      invariant CallsFrom(llm.log, llm.answers, first, inp)
    {
      RepairCall(result, llm.answers, first, |llm.log|, inp);
      CallAdded(llm.log, Call(draft, Fatals(result)), llm.answers, first, inp);
      NotYet(inp, llm.answers, first + attempt, first + maxRepairs);
      var repaired := llm.Compose(draft, Fatals(result));
      NoneIsNotGood(inp, repaired);
      if repaired.None? {
        break;
      }
      result := Check(inp, repaired.value);
      latest := repaired.value;
      if IsOk(result) {
        return Some((repaired.value, result)), None;
      }
      attempt := attempt + 1;
    }
    fallback := Some(RejectedAfterRepair);
  }

  method ComposeAndValidate(inp: Inputs, llm: LlmComposer?, maxRepairs: nat) returns (r: Result<Outcome, EngineError>)
    requires inp.cs.WellFormed() && inp.days >= 1
    modifies if llm != null then {llm} else {}
    // whatever the model says, the draft that leaves stage 3 is valid, with the report that belongs to it
    ensures r.Ok? ==> DraftValid(r.value.draft, inp.cs, inp.days) && IsReport(r.value.report, r.value.draft, inp)
    // "llm" exactly when the draft is the first valid answer; otherwise our own composition
    ensures var a := if llm == null then None
                     else Accepted(inp, llm.answers, |old(llm.log)|, |old(llm.log)| + maxRepairs);
      if a.Some?
      then r.Ok? && r.value.composer == Llm && r.value.fallback == None && Some(r.value.draft) == llm.answers(a.value)
      else
        && (r.Ok? <==> inp.cs.Doable() != [] && NoHoles(inp))
        && (r.Ok? ==> r.value.composer == Deterministic && r.value.draft == Composed(inp))
        && (r.Ok? ==> (r.value.fallback.None? <==> llm == null))
    ensures llm != null ==>
      old(llm.log) < llm.log && TrialLog(llm.log, inp, llm.answers, |old(llm.log)|, maxRepairs)
  {
    hide DraftValid, Reported, NoHoles, Composed;
    var fallback: Option<Reason> := None;
    if llm != null {
      AcceptedIsFirstGood(inp, llm.answers, |llm.log|, |llm.log| + maxRepairs);
      var found;
      found, fallback := TryModel(inp, llm, maxRepairs);
      if found.Some? {
        return Ok(Outcome(found.value.0, Llm, None, found.value.1));
      }
    }
    var draft := Compose(inp);
    var result := Check(inp, draft);
    ComposedValidIff(inp);
    if !IsOk(result) {
      return Err(InvalidComposition(Fatals(result)));
    }
    return Ok(Outcome(draft, Deterministic, fallback, result));
  }

  /** With something to do and somewhere to sleep, our own composition is always accepted, and
      nothing advisory but an empty (arrival) day is ever held against it. */
  lemma FallbackNeverFails(inp: Inputs, v: Violation)
    requires inp.cs.WellFormed() && inp.days >= 1 && inp.dayMinutes >= 0
    requires inp.cs.Doable() != [] && inp.cs.stays != []
    ensures DraftValid(Composed(inp), inp.cs, inp.days)
    ensures Reported(v, Composed(inp), inp.cs, inp.days, inp.dayMinutes) ==>
      v.code == EmptyDay && v.severity == Advisory
  {
    hide Composed, ClusterTour, DayOf, CandidateSet.ByRef, CandidateSet.WellFormed;
    ComposedValidIff(inp);
    if Reported(v, Composed(inp), inp.cs, inp.days, inp.dayMinutes) {
      ValidImpliesOk(v, Composed(inp), inp.cs, inp.days, inp.dayMinutes);
      ComposedNeverOverfull(inp, v);
      if v.code == NoStay {
        ComposedHasBeds(inp, v);
      }
    }
  }

  lemma ComposedHasBeds(inp: Inputs, v: Violation)
    requires inp.cs.WellFormed() && inp.cs.stays != []
    requires Reported(v, Composed(inp), inp.cs, inp.days, inp.dayMinutes)
    ensures v.code != NoStay
  {
    hide ClusterTour, DayOf, Stops, CandidateSet.ByRef, CandidateSet.WellFormed, OccursBefore;
    var tour, draft := ClusterTour(inp), Composed(inp);
    forall i | 0 <= i < |draft.days| ensures draft.days[i].HasBed() {
      BedsResolve(inp, tour, i + 1);
    }
  }

  // ------------------------------------------------------- what a repair is told

  /** The quoted violations are violations of the draft the model is asked to repair. */
  ghost predicate QuotesItsDraft(c: Call, inp: Inputs) {
    c.repairOf.Some? ==> forall v :: v in c.quoted ==> Reported(v, c.repairOf.value, inp.cs, inp.days, inp.dayMinutes)
  }

  ghost predicate AllQuoteTheirDraft(log: seq<Call>, inp: Inputs) {
    forall k :: 0 <= k < |log| ==> QuotesItsDraft(log[k], inp)
  }

  const EMPTY: Draft := Draft([])
  const TWICE: Draft := Draft([DraftDay(1, None, []), DraftDay(1, None, [])])

  /** A model that first says nothing useful, then day 1 twice, and then gives up. */
  ghost function Fumbling(): nat -> Option<Draft> {
    (k: nat) => if k == 0 then Some(EMPTY) else if k == 1 then Some(TWICE) else None
  }

  lemma FumbledNumbers(inp: Inputs)
    requires inp.days >= 1
    ensures Numbers(EMPTY) == [] && Numbers(TWICE) == [1, 1] && multiset([1, 1])[1] == 2
    ensures !Good(inp, Some(EMPTY)) && !Good(inp, Some(TWICE))
  {
    assert Numbers(EMPTY) == [] && Numbers(TWICE) == [1, 1];
    DayNumbersOk(EMPTY, inp.days);
    DayNumbersOk(TWICE, inp.days);
    assert multiset(Numbers(TWICE))[1] == 2;
    assert |EMPTY.days| == 0;
  }

  /** For every brief and every set of candidates: after those two answers the second repair sends the empty
      draft and complains of a duplicate that draft does not have. */
  lemma SecondRepairMisquotes(inp: Inputs, c: Call)
    requires inp.days >= 1 && IsCall(c, Fumbling(), 0, 2, inp)
    ensures !QuotesItsDraft(c, inp)
  {
    FumbledNumbers(inp);
    var duplicate := Violation(DuplicateDayNumber, Fatal, None, Some(1));
    assert Reported(duplicate, TWICE, inp.cs, inp.days, inp.dayMinutes);
    assert !Reported(duplicate, EMPTY, inp.cs, inp.days, inp.dayMinutes);
    assert duplicate in c.quoted;
  }

  function Missing(from: nat, days: nat): seq<Violation>
    requires from <= days
  {
    seq(days - from, i requires 0 <= i < days - from => Violation(MissingDayNumber, Fatal, None, Some(from + 1 + i)))
  }

  lemma MissingAre(from: nat, days: nat, v: Violation)
    requires from <= days
    ensures v in Missing(from, days) <==>
      v.code == MissingDayNumber && v.severity == Fatal && v.ref == None && v.day.Some? && from < v.day.value <= days
  {
    if v.day.Some? && from < v.day.value <= days && v == Violation(MissingDayNumber, Fatal, None, v.day) {
      assert Missing(from, days)[v.day.value - from - 1] == v;
    }
  }

  lemma EmptyReport(inp: Inputs, v: Violation)
    requires inp.days >= 1
    ensures Reported(v, EMPTY, inp.cs, inp.days, inp.dayMinutes) <==>
      v == Violation(DayCountMismatch, Fatal, None, None) || v in Missing(0, inp.days)
  {
    hide CandidateSet.ByRef;
    FumbledNumbers(inp);
    MissingAre(0, inp.days, v);
  }

  lemma TwiceReport(inp: Inputs, v: Violation)
    requires inp.days >= 1 && v.severity == Fatal
    ensures Reported(v, TWICE, inp.cs, inp.days, inp.dayMinutes) <==>
      || v in [Violation(DuplicateDayNumber, Fatal, None, Some(1)), Violation(EmptyDay, Fatal, None, Some(1))]
      || (inp.days != 2 && v == Violation(DayCountMismatch, Fatal, None, None)) || v in Missing(1, inp.days)
  {
    hide CandidateSet.ByRef, Missing;
    FumbledNumbers(inp);
    MissingAre(1, inp.days, v);
    assert multiset(Numbers(TWICE)) == multiset{1, 1};
    var day := DraftDay(1, None, []);
    assert TWICE.days[0] == TWICE.days[1] == day && |TWICE.days| == 2;
    assert BedReported(Violation(EmptyDay, Fatal, None, Some(1)), day, inp.cs.ByRef());
    assert v.code == EmptyDay && DayReported(v, TWICE, inp.cs.ByRef(), inp.dayMinutes, 0) ==>
      v.day == Some(1) && v.ref == None;
  }

  /** What the two answers of the fumbling model are reported for. */
  lemma FumbledReports(inp: Inputs) returns (first: seq<Violation>, second: seq<Violation>)
    requires inp.days >= 1
    ensures IsFatalReport(first, EMPTY, inp) && IsFatalReport(second, TWICE, inp)
  {
    hide Reported, Missing;
    var count := Violation(DayCountMismatch, Fatal, None, None);
    first := [count] + Missing(0, inp.days);
    second := [Violation(DuplicateDayNumber, Fatal, None, Some(1)), Violation(EmptyDay, Fatal, None, Some(1))]
      + (if inp.days == 2 then [] else [count]) + Missing(1, inp.days);
    forall v ensures v in first <==> v.severity == Fatal && Reported(v, EMPTY, inp.cs, inp.days, inp.dayMinutes) {
      MissingAre(0, inp.days, v);
      EmptyReport(inp, v);
    }
    forall v ensures v in second <==> v.severity == Fatal && Reported(v, TWICE, inp.cs, inp.days, inp.dayMinutes) {
      MissingAre(1, inp.days, v);
      if v.severity == Fatal {
        TwiceReport(inp, v);
      }
    }
  }

  /** So with two repairs allowed a job can make a call that misquotes its draft. */
  lemma MisquotingJob(inp: Inputs, maxRepairs: nat) returns (log: seq<Call>)
    requires inp.days >= 1 && maxRepairs >= 2
    ensures TrialLog(log, inp, Fumbling(), 0, maxRepairs) && !AllQuoteTheirDraft(log, inp)
  {
    var answers := Fumbling();
    FumbledNumbers(inp);
    assert LastCall(inp, answers, 2, maxRepairs) == 2;
    assert LastCall(inp, answers, 0, maxRepairs) == LastCall(inp, answers, 1, maxRepairs) == 2;
    hide Good, LastCall;
    var first, second := FumbledReports(inp);
    log := [Call(None, []), Call(Some(EMPTY), first), Call(Some(EMPTY), second)];
    assert answers(0) == Some(EMPTY) && answers(1) == Some(TWICE);
    SecondRepairMisquotes(inp, log[2]);
  }

  /** Every call of every job quotes the draft it sends, whatever the model answers, exactly when at most one
      repair is allowed. */
  lemma RepairsQuoteTheirDraftIff(inp: Inputs, maxRepairs: nat)
    requires inp.days >= 1
    ensures maxRepairs <= 1 <==>
      forall answers, log :: TrialLog(log, inp, answers, 0, maxRepairs) ==> AllQuoteTheirDraft(log, inp)
  {
    hide Good, LastCall;
    if maxRepairs >= 2 {
      var log := MisquotingJob(inp, maxRepairs);
    } else {
      forall answers, log | TrialLog(log, inp, answers, 0, maxRepairs) ensures AllQuoteTheirDraft(log, inp) {
        OneRepairQuotes(inp, answers, log, maxRepairs);
      }
    }
  }

  lemma OneRepairQuotes(inp: Inputs, answers: nat -> Option<Draft>, log: seq<Call>, maxRepairs: nat)
    requires maxRepairs <= 1 && TrialLog(log, inp, answers, 0, maxRepairs)
    ensures AllQuoteTheirDraft(log, inp)
  {
    hide Good, Reported;
    forall k | 0 <= k < |log| ensures QuotesItsDraft(log[k], inp) {
      assert IsCall(log[k], answers, 0, k, inp);
    }
  }
}
