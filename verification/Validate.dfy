/** Stage 3, api/src/tripplan/engine/validate.py: which drafts are accepted. */
module Validate {
  import opened Util
  import opened Domain

  datatype Severity = Fatal | Advisory

  datatype Code =
    | UnknownRef | WrongKindForStay | WrongKindForItem | DayCountMismatch | DuplicateDayNumber
    | MissingDayNumber | RepeatedPoi | EmptyDay | NoStay | OverTimeBudget

  datatype Violation = Violation(code: Code, severity: Severity, ref: Option<string>, day: Option<int>)

  function Fatals(vs: seq<Violation>): seq<Violation> { Filter(vs, (v: Violation) => v.severity == Fatal) }

  predicate IsOk(vs: seq<Violation>) { Fatals(vs) == [] }

  // ------------------------------------------------- what a valid draft is

  function Numbers(draft: Draft): seq<int> {
    seq(|draft.days|, i requires 0 <= i < |draft.days| => draft.days[i].number)
  }

  function OneTo(n: nat): seq<int> { seq(n, i => i + 1) }

  ghost predicate References(draft: Draft, ref: string) {
    exists d :: d in draft.days && ((d.HasBed() && d.stayRef.value == ref) || ref in d.items)
  }

  /** Stop `k` of day `i` exists and names `ref`. */
  predicate ItemAt(draft: Draft, i: int, k: int, ref: string) {
    0 <= i < |draft.days| && 0 <= k < |draft.days[i].items| && draft.days[i].items[k] == ref
  }

  predicate Earlier(i: int, k: int, j: int, l: int) { i < j || (i == j && k < l) }

  /** The item names a place or activity that must not appear twice. */
  predicate MustNotRepeat(byRef: map<string, Candidate>, ref: string) {
    ref in byRef && byRef[ref].kind != Stay && !byRef[ref].repeatable
  }

  /** The rules of stage 3, independent of how they are checked. */
  ghost predicate DraftValid(draft: Draft, cs: CandidateSet, days: nat) {
    var byRef := cs.ByRef();
    && (forall r :: References(draft, r) ==> r in byRef)
    && multiset(Numbers(draft)) == multiset(OneTo(days))
    && (forall d :: d in draft.days && d.HasBed() ==> d.stayRef.value in byRef && byRef[d.stayRef.value].kind == Stay)
    && (forall d, r :: d in draft.days && r in d.items ==> r in byRef && byRef[r].kind != Stay)
    && (forall i, k, j, l, r :: ItemAt(draft, i, k, r) && ItemAt(draft, j, l, r) && Earlier(i, k, j, l) ==>
          !MustNotRepeat(byRef, r))
    && (forall d :: d in draft.days ==> d.items != [] || d.HasBed())
  }

  // ------------------------------------------ what each report stands for

  /** Activity minutes of a day as the validator adds them up: an unknown duration is 0. */
  function ActivityMinutes(items: seq<string>, byRef: map<string, Candidate>): (m: nat) {
    if items == [] then 0
    else
      var n := |items| - 1;
      ActivityMinutes(items[..n], byRef) +
      (if items[n] in byRef && byRef[items[n]].kind != Stay && byRef[items[n]].duration.Some?
       then byRef[items[n]].duration.value else 0)
  }

  ghost predicate OccursBefore(draft: Draft, ref: string, j: int, l: int) {
    exists i, k :: ItemAt(draft, i, k, ref) && Earlier(i, k, j, l)
  }

  ghost predicate RefReported(v: Violation, draft: Draft, byRef: map<string, Candidate>) {
    v.code == UnknownRef && v.severity == Fatal && v.day == None &&
    v.ref.Some? && References(draft, v.ref.value) && v.ref.value !in byRef
  }

  ghost predicate NumberReported(v: Violation, draft: Draft, days: nat) {
    v.severity == Fatal && v.ref == None &&
    match v.code
    case DayCountMismatch => v.day == None && |draft.days| != days
    case DuplicateDayNumber => v.day.Some? && multiset(Numbers(draft))[v.day.value] > 1
    case MissingDayNumber => v.day.Some? && 1 <= v.day.value <= days && v.day.value !in Numbers(draft)
    case _ => false
  }

  ghost predicate StructureReported(v: Violation, draft: Draft, byRef: map<string, Candidate>, days: nat) {
    RefReported(v, draft, byRef) || NumberReported(v, draft, days)
  }

  ghost predicate ItemReported(v: Violation, draft: Draft, byRef: map<string, Candidate>, i: nat, k: nat)
    requires i < |draft.days| && k < |draft.days[i].items|
  {
    var d := draft.days[i];
    var ref := d.items[k];
    ref in byRef &&
    if byRef[ref].kind == Stay then v == Violation(WrongKindForItem, Fatal, Some(ref), Some(d.number))
    else
      !byRef[ref].repeatable && OccursBefore(draft, ref, i, k)
      && v == Violation(RepeatedPoi, Fatal, Some(ref), Some(d.number))
  }

  ghost predicate BedReported(v: Violation, d: DraftDay, byRef: map<string, Candidate>) {
    || (d.HasBed() && d.stayRef.value in byRef && byRef[d.stayRef.value].kind != Stay
        && v == Violation(WrongKindForStay, Fatal, d.stayRef, Some(d.number)))
    || (!d.HasBed() && v == Violation(NoStay, Advisory, None, Some(d.number)))
    || (d.items == [] && v == Violation(EmptyDay, if d.HasBed() then Advisory else Fatal, None, Some(d.number)))
  }

  ghost predicate DayReported(v: Violation, draft: Draft, byRef: map<string, Candidate>, dayMinutes: int, i: nat)
    requires i < |draft.days|
  {
    var d := draft.days[i];
    || BedReported(v, d, byRef)
    || (exists k :: 0 <= k < |d.items| && ItemReported(v, draft, byRef, i, k))
    || (ActivityMinutes(d.items, byRef) > dayMinutes && v == Violation(OverTimeBudget, Advisory, None, Some(d.number)))
  }

  /** Exactly the violations a draft deserves. */
  ghost predicate Reported(v: Violation, draft: Draft, cs: CandidateSet, days: nat, dayMinutes: int) {
    || StructureReported(v, draft, cs.ByRef(), days)
    || exists i :: 0 <= i < |draft.days| && DayReported(v, draft, cs.ByRef(), dayMinutes, i)
  }

  // ------------------------------------------------------------- the loops

  method ReferencedRefs(draft: Draft) returns (refs: set<string>)
    ensures forall r :: r in refs <==> References(draft, r)
  {
    refs := {};
    for i := 0 to |draft.days|
      invariant forall r :: r in refs <==>
        exists d :: d in draft.days[..i] && ((d.HasBed() && d.stayRef.value == r) || r in d.items)
    {
      var day := draft.days[i];
      assert draft.days[..i + 1] == draft.days[..i] + [day];
      if day.HasBed() {
        refs := refs + {day.stayRef.value};
      }
      refs := refs + (set r | r in day.items);
    }
    assert draft.days[..|draft.days|] == draft.days;
  }

  method CheckRefs(draft: Draft, byRef: map<string, Candidate>) returns (vs: seq<Violation>)
    ensures forall v :: v in vs <==> RefReported(v, draft, byRef)
  {
    vs := [];
    var refs := ReferencedRefs(draft);
    ghost var done: set<string> := {};
    while refs != {}
      invariant done !! refs && forall r :: r in done + refs <==> References(draft, r)
      invariant forall v :: v in vs <==> RefReported(v, draft, byRef) && v.ref.value in done
      decreases |refs|
    {
      var ref :| ref in refs;
      if ref !in byRef {
        vs := vs + [Violation(UnknownRef, Fatal, Some(ref), None)];
      }
      refs, done := refs - {ref}, done + {ref};
    }
  }

  method CheckDuplicates(draft: Draft, days: nat) returns (vs: seq<Violation>)
    ensures forall v :: v in vs <==> v.code == DuplicateDayNumber && NumberReported(v, draft, days)
  {
    var numbers := Numbers(draft);
    var duplicates := set n | n in numbers && multiset(numbers)[n] > 1;
    assert forall n :: multiset(numbers)[n] > 1 ==> n in duplicates by {
      forall n | multiset(numbers)[n] > 1 ensures n in numbers {
        assert n in multiset(numbers);
      }
    }
    ghost var all := duplicates;
    vs := [];
    while duplicates != {}
      invariant duplicates <= all
      invariant forall v :: v in vs <==>
        v.code == DuplicateDayNumber && NumberReported(v, draft, days) && v.day.value !in duplicates
      decreases |duplicates|
    {
      var number :| number in duplicates;
      vs := vs + [Violation(DuplicateDayNumber, Fatal, None, Some(number))];
      duplicates := duplicates - {number};
    }
  }

  method CheckMissing(draft: Draft, days: nat) returns (vs: seq<Violation>)
    ensures forall v :: v in vs <==> v.code == MissingDayNumber && NumberReported(v, draft, days)
  {
    var numbers := Numbers(draft);
    vs := [];
    for expected := 1 to days + 1
      invariant forall v :: v in vs <==>
        v.code == MissingDayNumber && NumberReported(v, draft, days) && v.day.value < expected
    {
      if expected !in numbers {
        vs := vs + [Violation(MissingDayNumber, Fatal, None, Some(expected))];
      }
    }
  }

  method CheckBed(day: DraftDay, byRef: map<string, Candidate>) returns (vs: seq<Violation>)
    ensures forall v :: v in vs <==> BedReported(v, day, byRef)
  {
    vs := [];
    if day.HasBed() && day.stayRef.value in byRef {
      if byRef[day.stayRef.value].kind != Stay {
        vs := vs + [Violation(WrongKindForStay, Fatal, day.stayRef, Some(day.number))];
      }
    } else if !day.HasBed() {
      vs := vs + [Violation(NoStay, Advisory, None, Some(day.number))];
    }
    if day.items == [] {
      vs := vs + [Violation(EmptyDay, if day.HasBed() then Advisory else Fatal, None, Some(day.number))];
    }
  }

  /** The set carried across the days: what has been seen strictly before (j, l). */
  ghost predicate SeenIs(seen: set<string>, draft: Draft, byRef: map<string, Candidate>, j: int, l: int) {
    forall r :: r in seen <==> MustNotRepeat(byRef, r) && OccursBefore(draft, r, j, l)
  }

  lemma SeenGrows(seen: set<string>, draft: Draft, byRef: map<string, Candidate>, i: nat, k: nat)
    requires i < |draft.days| && k < |draft.days[i].items| && SeenIs(seen, draft, byRef, i, k)
    ensures var r := draft.days[i].items[k];
      SeenIs(if MustNotRepeat(byRef, r) then seen + {r} else seen, draft, byRef, i, k + 1)
  {
    var r := draft.days[i].items[k];
    assert ItemAt(draft, i, k, r) && Earlier(i, k, i, k + 1);
    forall x ensures OccursBefore(draft, x, i, k + 1) <==> x == r || OccursBefore(draft, x, i, k) {
      if OccursBefore(draft, x, i, k + 1) {
        var a, b :| ItemAt(draft, a, b, x) && Earlier(a, b, i, k + 1);
        assert (a, b) == (i, k) || Earlier(a, b, i, k);
      }
      if OccursBefore(draft, x, i, k) {
        var a, b :| ItemAt(draft, a, b, x) && Earlier(a, b, i, k);
        assert Earlier(a, b, i, k + 1);
      }
    }
  }

  lemma SeenNextDay(seen: set<string>, draft: Draft, byRef: map<string, Candidate>, i: nat)
    requires i < |draft.days| && SeenIs(seen, draft, byRef, i, |draft.days[i].items|)
    ensures SeenIs(seen, draft, byRef, i + 1, 0)
  {
    forall x ensures OccursBefore(draft, x, i + 1, 0) <==> OccursBefore(draft, x, i, |draft.days[i].items|) {
      if OccursBefore(draft, x, i + 1, 0) {
        var a, b :| ItemAt(draft, a, b, x) && Earlier(a, b, i + 1, 0);
        assert Earlier(a, b, i, |draft.days[i].items|);
      }
      if OccursBefore(draft, x, i, |draft.days[i].items|) {
        var a, b :| ItemAt(draft, a, b, x) && Earlier(a, b, i, |draft.days[i].items|);
        assert Earlier(a, b, i + 1, 0);
      }
    }
  }

  method CheckItems(draft: Draft, byRef: map<string, Candidate>, i: nat, seenBefore: set<string>)
    returns (vs: seq<Violation>, seen: set<string>, spent: nat)
    requires i < |draft.days| && SeenIs(seenBefore, draft, byRef, i, 0)
    ensures forall v :: v in vs <==>
      exists k :: 0 <= k < |draft.days[i].items| && ItemReported(v, draft, byRef, i, k)
    ensures SeenIs(seen, draft, byRef, i + 1, 0)
    ensures spent == ActivityMinutes(draft.days[i].items, byRef)
  {
    var day := draft.days[i];
    vs, seen, spent := [], seenBefore, 0;
    var k := 0;
    while k < |day.items|
      invariant 0 <= k <= |day.items|
      invariant SeenIs(seen, draft, byRef, i, k)
      invariant spent == ActivityMinutes(day.items[..k], byRef)
      invariant forall v :: v in vs <==> exists l :: 0 <= l < k && ItemReported(v, draft, byRef, i, l)
    {
      var ref := day.items[k];
      ghost var was := vs;
      assert day.items[..k + 1][..k] == day.items[..k];
      SeenGrows(seen, draft, byRef, i, k);
      if ref in byRef {
        var candidate := byRef[ref];
        if candidate.kind == Stay {
          vs := vs + [Violation(WrongKindForItem, Fatal, Some(ref), Some(day.number))];
        } else {
          if !candidate.repeatable {
            if ref in seen {
              vs := vs + [Violation(RepeatedPoi, Fatal, Some(ref), Some(day.number))];
            }
            seen := seen + {ref};
          }
          spent := spent + (if candidate.duration.Some? then candidate.duration.value else 0);
        }
      }
      assert forall v :: v in vs <==> v in was || ItemReported(v, draft, byRef, i, k);
      k := k + 1;
    }
    assert day.items[..k] == day.items;
    SeenNextDay(seen, draft, byRef, i);
  }

  method CheckDay(draft: Draft, byRef: map<string, Candidate>, dayMinutes: int, i: nat, seenBefore: set<string>)
    returns (vs: seq<Violation>, seen: set<string>)
    requires i < |draft.days| && SeenIs(seenBefore, draft, byRef, i, 0)
    ensures forall v :: v in vs <==> DayReported(v, draft, byRef, dayMinutes, i)
    ensures SeenIs(seen, draft, byRef, i + 1, 0)
  {
    var day := draft.days[i];
    var bed := CheckBed(day, byRef);
    var items, seenAfter, spent := CheckItems(draft, byRef, i, seenBefore);
    var over := if spent > dayMinutes then [Violation(OverTimeBudget, Advisory, None, Some(day.number))] else [];
    vs, seen := bed + items + over, seenAfter;
  }

  method Validate(draft: Draft, cs: CandidateSet, days: nat, dayMinutes: int) returns (vs: seq<Violation>)
    ensures forall v :: v in vs <==> Reported(v, draft, cs, days, dayMinutes)
    ensures IsOk(vs) <==> DraftValid(draft, cs, days)
  {
    var byRef := cs.ByRef();
    var refs := CheckRefs(draft, byRef);
    var count := if |draft.days| != days then [Violation(DayCountMismatch, Fatal, None, None)] else [];
    var duplicates := CheckDuplicates(draft, days);
    var missing := CheckMissing(draft, days);
    vs := refs + count + duplicates + missing;
    var seen: set<string> := {};
    for i := 0 to |draft.days|
      invariant SeenIs(seen, draft, byRef, i, 0)
      invariant forall v :: v in vs <==>
        (StructureReported(v, draft, byRef, days)
         || exists j :: 0 <= j < i && DayReported(v, draft, byRef, dayMinutes, j))
    {
      ghost var was := vs;
      var day, seenAfter := CheckDay(draft, byRef, dayMinutes, i, seen);
      vs, seen := vs + day, seenAfter;
      assert forall v :: v in vs <==> v in was || DayReported(v, draft, byRef, dayMinutes, i);
    }
    OkMeansValid(vs, draft, cs, days, dayMinutes);
  }

  // ------------------------------------- the loops agree with the rules

  /** Pigeonhole: n numbers that cover 1..n are exactly 1..n. */
  lemma {:induction false} CoverIsPermutation(numbers: seq<int>, n: nat)
    requires |numbers| == n && forall k :: 1 <= k <= n ==> k in numbers
    ensures multiset(numbers) == multiset(OneTo(n))
  {
    if n == 0 {
      assert numbers == OneTo(0);
    } else {
      assert n in numbers;
      var i :| 0 <= i < n && numbers[i] == n;
      var rest := numbers[..i] + numbers[i + 1..];
      assert numbers == numbers[..i] + [n] + numbers[i + 1..];
      forall k | 1 <= k <= n - 1 ensures k in rest {
        assert k in numbers;
        var j :| 0 <= j < n && numbers[j] == k;
        assert rest[if j < i then j else j - 1] == k;
      }
      CoverIsPermutation(rest, n - 1);
      assert OneTo(n) == OneTo(n - 1) + [n];
    }
  }

  lemma OneToCounts(n: nat, k: int)
    ensures multiset(OneTo(n))[k] == if 1 <= k <= n then 1 else 0
  {
    if n > 0 {
      OneToCounts(n - 1, k);
      assert OneTo(n) == OneTo(n - 1) + [n];
    }
  }

  /** No structural report about the day numbers, exactly when they are a permutation of 1..days. */
  lemma DayNumbersOk(draft: Draft, days: nat)
    ensures multiset(Numbers(draft)) == multiset(OneTo(days)) <==>
      && |draft.days| == days
      && (forall n :: multiset(Numbers(draft))[n] <= 1)
      && (forall n :: 1 <= n <= days ==> n in Numbers(draft))
  {
    var numbers := Numbers(draft);
    if multiset(numbers) == multiset(OneTo(days)) {
      PermutationFacts(numbers, OneTo(days));
      forall n ensures multiset(numbers)[n] <= 1 && (1 <= n <= days ==> n in numbers) {
        OneToCounts(days, n);
        if 1 <= n <= days {
          assert n in multiset(OneTo(days));
          assert n in multiset(numbers);
        }
      }
    } else if |draft.days| == days && forall n :: 1 <= n <= days ==> n in numbers {
      CoverIsPermutation(numbers, days);
    }
  }

  ghost predicate NothingFatal(draft: Draft, cs: CandidateSet, days: nat, dayMinutes: int) {
    forall v :: Reported(v, draft, cs, days, dayMinutes) ==> v.severity == Advisory
  }

  lemma StructureOk(draft: Draft, cs: CandidateSet, days: nat, dayMinutes: int)
    requires NothingFatal(draft, cs, days, dayMinutes)
    ensures forall r :: References(draft, r) ==> r in cs.ByRef()
    ensures multiset(Numbers(draft)) == multiset(OneTo(days))
  {
    forall r | References(draft, r) ensures r in cs.ByRef() {
      assert !Reported(Violation(UnknownRef, Fatal, Some(r), None), draft, cs, days, dayMinutes);
    }
    DayNumbersOk(draft, days);
    assert !Reported(Violation(DayCountMismatch, Fatal, None, None), draft, cs, days, dayMinutes);
    forall n ensures multiset(Numbers(draft))[n] <= 1 {
      assert !Reported(Violation(DuplicateDayNumber, Fatal, None, Some(n)), draft, cs, days, dayMinutes);
    }
    forall n | 1 <= n <= days ensures n in Numbers(draft) {
      assert !Reported(Violation(MissingDayNumber, Fatal, None, Some(n)), draft, cs, days, dayMinutes);
    }
  }

  lemma BedOk(draft: Draft, cs: CandidateSet, days: nat, dayMinutes: int, i: nat)
    requires NothingFatal(draft, cs, days, dayMinutes) && i < |draft.days|
    ensures var d := draft.days[i];
      && (d.HasBed() ==> d.stayRef.value in cs.ByRef() && cs.ByRef()[d.stayRef.value].kind == Stay)
      && (d.items != [] || d.HasBed())
  {
    var d := draft.days[i];
    StructureOk(draft, cs, days, dayMinutes);
    if d.HasBed() {
      assert References(draft, d.stayRef.value);
      assert !DayReported(Violation(WrongKindForStay, Fatal, d.stayRef, Some(d.number)), draft, cs.ByRef(),
        dayMinutes, i);
    } else {
      assert !DayReported(Violation(EmptyDay, Fatal, None, Some(d.number)), draft, cs.ByRef(), dayMinutes, i);
    }
  }

  lemma ItemOk(draft: Draft, cs: CandidateSet, days: nat, dayMinutes: int, j: nat, l: nat)
    requires NothingFatal(draft, cs, days, dayMinutes) && j < |draft.days| && l < |draft.days[j].items|
    ensures var r := draft.days[j].items[l];
      && r in cs.ByRef() && cs.ByRef()[r].kind != Stay
      && (MustNotRepeat(cs.ByRef(), r) ==> !OccursBefore(draft, r, j, l))
  {
    var d := draft.days[j];
    var r := d.items[l];
    StructureOk(draft, cs, days, dayMinutes);
    assert d in draft.days && r in d.items && References(draft, r);
    var code := if cs.ByRef()[r].kind == Stay then WrongKindForItem else RepeatedPoi;
    var v := Violation(code, Fatal, Some(r), Some(d.number));
    assert !DayReported(v, draft, cs.ByRef(), dayMinutes, j);
    assert !ItemReported(v, draft, cs.ByRef(), j, l);
  }

  /** An accepted draft is a valid one. */
  lemma OkImpliesValid(draft: Draft, cs: CandidateSet, days: nat, dayMinutes: int)
    requires NothingFatal(draft, cs, days, dayMinutes)
    ensures DraftValid(draft, cs, days)
  {
    var byRef := cs.ByRef();
    StructureOk(draft, cs, days, dayMinutes);
    forall d | d in draft.days
      ensures d.HasBed() ==> d.stayRef.value in byRef && byRef[d.stayRef.value].kind == Stay
      ensures d.items != [] || d.HasBed()
    {
      var i :| 0 <= i < |draft.days| && draft.days[i] == d;
      BedOk(draft, cs, days, dayMinutes, i);
    }
    forall d, r | d in draft.days && r in d.items ensures r in byRef && byRef[r].kind != Stay {
      var i :| 0 <= i < |draft.days| && draft.days[i] == d;
      var k :| 0 <= k < |d.items| && d.items[k] == r;
      ItemOk(draft, cs, days, dayMinutes, i, k);
    }
    forall i, k, j, l, r | ItemAt(draft, i, k, r) && ItemAt(draft, j, l, r) && Earlier(i, k, j, l)
      ensures !MustNotRepeat(byRef, r)
    {
      ItemOk(draft, cs, days, dayMinutes, j, l);
      assert OccursBefore(draft, r, j, l);
    }
  }

  lemma ValidItemDrawsNothing(v: Violation, draft: Draft, cs: CandidateSet, days: nat, i: nat, k: nat)
    requires DraftValid(draft, cs, days)
    requires i < |draft.days| && k < |draft.days[i].items|
    ensures !ItemReported(v, draft, cs.ByRef(), i, k)
  {
    var r := draft.days[i].items[k];
    assert draft.days[i] in draft.days && r in draft.days[i].items;
    ValidOccursOnce(draft, cs, days, i, k);
    hide OccursBefore, ItemAt, CandidateSet.ByRef;
  }

  lemma ValidOccursOnce(draft: Draft, cs: CandidateSet, days: nat, i: nat, k: nat)
    requires DraftValid(draft, cs, days)
    requires i < |draft.days| && k < |draft.days[i].items|
    ensures var r := draft.days[i].items[k]; MustNotRepeat(cs.ByRef(), r) ==> !OccursBefore(draft, r, i, k)
  {
    hide CandidateSet.ByRef, MustNotRepeat, Numbers;
    var r := draft.days[i].items[k];
    if OccursBefore(draft, r, i, k) {
      var a, b :| ItemAt(draft, a, b, r) && Earlier(a, b, i, k);
      assert ItemAt(draft, i, k, r);
    }
  }

  /** A valid draft draws no fatal report. */
  lemma ValidImpliesOk(v: Violation, draft: Draft, cs: CandidateSet, days: nat, dayMinutes: int)
    requires DraftValid(draft, cs, days) && Reported(v, draft, cs, days, dayMinutes)
    ensures v.severity == Advisory
  {
    var byRef := cs.ByRef();
    DayNumbersOk(draft, days);
    if i :| 0 <= i < |draft.days| && DayReported(v, draft, byRef, dayMinutes, i) {
      assert draft.days[i] in draft.days;
      forall k | 0 <= k < |draft.days[i].items| ensures !ItemReported(v, draft, byRef, i, k) {
        ValidItemDrawsNothing(v, draft, cs, days, i, k);
      }
    }
  }

  /** `ValidationResult.ok` holds exactly for the drafts that meet the rules. */
  lemma OkMeansValid(vs: seq<Violation>, draft: Draft, cs: CandidateSet, days: nat, dayMinutes: int)
    requires forall v :: v in vs <==> Reported(v, draft, cs, days, dayMinutes)
    ensures IsOk(vs) <==> DraftValid(draft, cs, days)
  {
    if IsOk(vs) {
      forall v | Reported(v, draft, cs, days, dayMinutes) ensures v.severity == Advisory {
        assert v in vs && v !in Fatals(vs);
      }
      OkImpliesValid(draft, cs, days, dayMinutes);
    }
    if DraftValid(draft, cs, days) && Fatals(vs) != [] {
      var v := Fatals(vs)[0];
      assert v in Fatals(vs);
      ValidImpliesOk(v, draft, cs, days, dayMinutes);
    }
  }

  lemma TwiceCounts(s: seq<int>, i: nat, j: nat)
    requires i < j < |s|
    ensures s[i] == s[j] ==> multiset(s)[s[i]] >= 2
  {
    assert s == s[..i] + [s[i]] + s[i + 1..j] + [s[j]] + s[j + 1..];
  }

  /** The days of a valid draft are told apart by their numbers. */
  lemma DraftNumbersDiffer(draft: Draft, cs: CandidateSet, days: nat)
    requires DraftValid(draft, cs, days)
    ensures NoDuplicates(draft.days)
    ensures forall a, b :: a in draft.days && b in draft.days && a.number == b.number ==> a == b
  {
    hide CandidateSet.ByRef;
    DayNumbersOk(draft, days);
    var numbers := Numbers(draft);
    forall i, j | 0 <= i < j < |draft.days| ensures draft.days[i].number != draft.days[j].number {
      TwiceCounts(numbers, i, j);
      assert numbers[i] == draft.days[i].number && numbers[j] == draft.days[j].number;
    }
  }
}
