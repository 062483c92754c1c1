/** What becomes of a validated draft's days in the plan: each keeps its stops and its bed, drives to that bed, and
    the day after sets out from it. */
module RoutedBeds {
  import opened Util
  import opened Domain
  import opened Routing
  import Tour
  import Validate

  /** Where day i of the days sets out. */
  ghost function StartOf(ctx: Context, days: seq<DraftDay>, from: Waypoint, i: nat): Waypoint
    requires i <= |days|
  {
    if i == 0 then from else StartOf(ctx, days[1..], Last(from, ctx.DayWalk(days[0], from)), i - 1)
  }

  lemma {:induction false} DayAt(ctx: Context, days: seq<DraftDay>, from: Waypoint, i: nat)
    requires i < |days|
    ensures ctx.Days(days, from)[i] == ctx.Day(days[i], StartOf(ctx, days, from, i))
    ensures StartOf(ctx, days, from, i + 1)
      == Last(StartOf(ctx, days, from, i), ctx.DayWalk(days[i], StartOf(ctx, days, from, i)))
    decreases i
  {
    hide Context.Day, Context.DayWalk;
    UnfoldTrip(ctx, days, from);
    if i > 0 {
      DayAt(ctx, days[1..], Last(from, ctx.DayWalk(days[0], from)), i - 1);
    }
  }

  lemma {:induction false} LastOfTrip(ctx: Context, days: seq<DraftDay>, from: Waypoint)
    ensures Last(from, ctx.TripWalk(days, from)) == StartOf(ctx, days, from, |days|)
    decreases |days|
  {
    hide Context.Day, Context.DayWalk;
    if days != [] {
      var walk := ctx.DayWalk(days[0], from);
      UnfoldTrip(ctx, days, from);
      LastOfTrip(ctx, days[1..], Last(from, walk));
    }
  }

  /** The bed the day names, or none: no stay, or the empty name. */
  ghost predicate HasItsBed(stay: Option<Candidate>, day: DraftDay, byRef: map<string, Candidate>) {
    if day.stayRef == None || day.stayRef == Some("") then stay == None
    else day.stayRef.value in byRef && stay == Some(byRef[day.stayRef.value])
  }

  /** The stops of the routed day are those the day names, each as often. */
  ghost predicate HasItsStops(r: RoutedDay, day: DraftDay, byRef: map<string, Candidate>) {
    && (forall i :: 0 <= i < |r.items| ==>
          r.items[i].candidate.ref in byRef && byRef[r.items[i].candidate.ref] == r.items[i].candidate)
    && multiset(seq(|r.items|, i requires 0 <= i < |r.items| => r.items[i].candidate.ref)) == multiset(day.items)
  }

  /** The legs to the stops, and the drive from the last of them to the bed. */
  ghost predicate DrivesToBed(r: RoutedDay, ctx: Context, from: Waypoint) {
    var legs := seq(|r.items|, i requires 0 <= i < |r.items| => r.items[i].leg);
    var last := if r.items == [] then from else At(r.items[|r.items| - 1].candidate);
    if r.stay.None? then r.travel.minutes == Minutes(legs) && r.travel.distance == Distance(legs)
    else
      var drive := Hop(ctx.loaded, ctx.provider, last, Waypoint(r.stay.value.point, Some(r.stay.value.poiId)));
      r.travel.minutes == Minutes(legs) + drive.minutes && r.travel.distance == Distance(legs) + drive.distance
  }

  lemma DayDrivesToBed(ctx: Context, day: DraftDay, from: Waypoint)
    ensures DrivesToBed(ctx.Day(day, from), ctx, from)
  {
    var ordered, stay, r := ctx.Ordered(day, from), StayOf(day, ctx.byRef), ctx.Day(day, from);
    var all := ctx.LegsOf(from, Walk(ordered, stay));
    var legs := seq(|r.items|, i requires 0 <= i < |r.items| => r.items[i].leg);
    hide Tour.From, Resolved, Hop, Weakest, Legs;
    if stay.Some? {
      LegsStep(ctx, from, ordered, stay.value);
      OneLeg(ctx.LegsOf(from, ordered), Hop(ctx.loaded, ctx.provider, Last(from, ordered), At(stay.value)));
    }
    assert legs == ctx.LegsOf(from, ordered);
  }

  lemma KnownRefs(draft: Draft, cs: CandidateSet, days: nat, day: DraftDay)
    requires Validate.DraftValid(draft, cs, days) && day in draft.days
    ensures forall r :: r in day.items ==> r in cs.ByRef()
    ensures day.stayRef.Some? && day.stayRef.value != "" ==> day.stayRef.value in cs.ByRef()
    ensures forall r :: r in cs.ByRef() ==> cs.ByRef()[r].ref == r
  {
    hide Validate.Numbers, Validate.ItemAt, Validate.MustNotRepeat;
  }

  lemma KnownBed(ctx: Context, day: DraftDay, from: Waypoint)
    requires day.stayRef.Some? && day.stayRef.value != "" ==> day.stayRef.value in ctx.byRef
    ensures HasItsBed(ctx.Day(day, from).stay, day, ctx.byRef)
  {
    hide Context.Ordered, Context.LegsOf, Weakest;
  }

  lemma KnownStops(ctx: Context, day: DraftDay, from: Waypoint)
    requires forall r :: r in day.items ==> r in ctx.byRef
    requires forall r :: r in ctx.byRef ==> ctx.byRef[r].ref == r
    ensures HasItsStops(ctx.Day(day, from), day, ctx.byRef)
  {
    hide *;
    var items, ordered := Resolved(day.items, ctx.byRef), ctx.Ordered(day, from);
    OrderedPermutes(ctx, day, from);
    RefsPermute(items, ordered);
    ResolvedRefs(day.items, ctx.byRef);
    PermutationFacts(items, ordered);
    RoutedRefs(ctx, day, from);
    StopsAre(ctx.Day(day, from), ordered, day, ctx.byRef);
  }

  lemma OrderedPermutes(ctx: Context, day: DraftDay, from: Waypoint)
    ensures multiset(Resolved(day.items, ctx.byRef)) == multiset(ctx.Ordered(day, from))
  {
    hide Resolved;
    Tour.FromPermutes(Resolved(day.items, ctx.byRef), from.point, PointOf, ctx.dist);
  }

  lemma ResolvedRefs(refs: seq<string>, byRef: map<string, Candidate>)
    requires forall r :: r in refs ==> r in byRef
    requires forall r :: r in byRef ==> byRef[r].ref == r
    ensures RefsOf(Resolved(refs, byRef)) == refs
    ensures forall c :: c in Resolved(refs, byRef) ==> c.ref in byRef && byRef[c.ref] == c
  {
    hide Resolved;
    KnownItemsAllResolve(refs, byRef);
    var items := Resolved(refs, byRef);
    forall c | c in items ensures c.ref in byRef && byRef[c.ref] == c {
      var k :| 0 <= k < |items| && items[k] == c;
      assert refs[k] in refs;
    }
    assert RefsOf(items) == refs;
  }

  lemma StopsAre(r: RoutedDay, ordered: seq<Candidate>, day: DraftDay, byRef: map<string, Candidate>)
    requires |r.items| == |ordered| && forall i :: 0 <= i < |ordered| ==> r.items[i].candidate == ordered[i]
    requires multiset(RefsOf(ordered)) == multiset(day.items)
    requires forall c :: c in ordered ==> c.ref in byRef && byRef[c.ref] == c
    ensures HasItsStops(r, day, byRef)
  {
    assert seq(|r.items|, i requires 0 <= i < |r.items| => r.items[i].candidate.ref) == RefsOf(ordered);
  }

  lemma RoutedRefs(ctx: Context, day: DraftDay, from: Waypoint)
    ensures var r, ordered := ctx.Day(day, from), ctx.Ordered(day, from);
      |r.items| == |ordered| && forall i :: 0 <= i < |ordered| ==> r.items[i].candidate == ordered[i]
  {
    hide Context.Ordered, Context.LegsOf, Weakest;
  }

  function RefsOf(cs: seq<Candidate>): seq<string> { seq(|cs|, i requires 0 <= i < |cs| => cs[i].ref) }

  lemma {:induction false} RefsPermute(a: seq<Candidate>, b: seq<Candidate>)
    requires multiset(a) == multiset(b)
    ensures multiset(RefsOf(a)) == multiset(RefsOf(b))
    decreases |a|
  {
    PermutationFacts(a, b);
    if a != [] {
      var i := HeadElsewhere(a, b);
      var rest := b[..i] + b[i + 1..];
      RefsPermute(a[1..], rest);
      assert RefsOf(a) == [a[0].ref] + RefsOf(a[1..]);
      assert RefsOf(b) == RefsOf(b[..i]) + [b[i].ref] + RefsOf(b[i + 1..]);
      assert RefsOf(rest) == RefsOf(b[..i]) + RefsOf(b[i + 1..]);
    }
  }

  /** The routed day is a day of the draft, measured from there. */
  ghost predicate SetsOut(ctx: Context, draft: Draft, r: RoutedDay, from: Waypoint) {
    exists day :: day in draft.days && r == ctx.Day(day, from)
  }

  /** The plan of a validated draft has just one day for each of the draft's, under its number: with the day's stops
      and the bed it names, the drive to that bed included in its travel. The next day sets out from that bed, and
      after the last day the way home does. */
  lemma DayKeepsItsBed(ctx: Context, draft: Draft, cs: CandidateSet, days: nat, origin: GeoPoint, day: DraftDay)
    returns (i: nat, from: Waypoint)
    requires Validate.DraftValid(draft, cs, days) && ctx.byRef == cs.ByRef() && day in draft.days
    ensures var plan := Planned(ctx, draft, origin);
      && i < |plan.days| && plan.days[i].number == day.number
      && (forall j :: 0 <= j < |plan.days| && plan.days[j].number == day.number ==> j == i)
      && HasItsBed(plan.days[i].stay, day, cs.ByRef()) && HasItsStops(plan.days[i], day, cs.ByRef())
      && plan.days[i] == ctx.Day(day, from) && DrivesToBed(plan.days[i], ctx, from)
      && (plan.days[i].stay.Some? ==>
            var bed := plan.days[i].stay.value;
            if i + 1 == |plan.days| then plan.returnFrom == Some(bed)
            else SetsOut(ctx, draft, plan.days[i + 1], Waypoint(bed.point, Some(bed.poiId))))
  {
    var start, sorted := Waypoint(origin, None), StableSort(draft.days, EarlierDay);
    var plan := Planned(ctx, draft, origin);
    hide StableSort, Validate.DraftValid, CandidateSet.ByRef, HasItsBed, HasItsStops, DrivesToBed, Context.Days,
         Context.TripWalk, Context.Day, Context.DayWalk;
    PermutationFacts(sorted, draft.days);
    i :| 0 <= i < |sorted| && sorted[i] == day;
    from := StartOf(ctx, sorted, start, i);
    DayAt(ctx, sorted, start, i);
    KnownRefs(draft, cs, days, day);
    KnownBed(ctx, day, from);
    KnownStops(ctx, day, from);
    DayDrivesToBed(ctx, day, from);
    OneDayPerNumber(ctx, draft, cs, days, sorted, start, i);
    if plan.days[i].stay.Some? {
      EndsAtBed(ctx, day, from);
      if i + 1 < |sorted| {
        DayAt(ctx, sorted, start, i + 1);
        assert sorted[i + 1] in draft.days;
      } else {
        LastOfTrip(ctx, sorted, start);
        WalkIsNotEmpty(ctx, sorted, start);
      }
    }
  }

  lemma EndsAtBed(ctx: Context, day: DraftDay, from: Waypoint)
    requires ctx.Day(day, from).stay.Some?
    ensures Last(from, ctx.DayWalk(day, from)) == At(ctx.Day(day, from).stay.value)
    ensures ctx.DayWalk(day, from) != []
    ensures ctx.DayWalk(day, from)[|ctx.DayWalk(day, from)| - 1] == ctx.Day(day, from).stay.value
  {
    hide Context.Ordered, Context.LegsOf;
  }

  lemma OneDayPerNumber(ctx: Context, draft: Draft, cs: CandidateSet, days: nat, sorted: seq<DraftDay>, start: Waypoint,
                        i: nat)
    requires Validate.DraftValid(draft, cs, days) && multiset(sorted) == multiset(draft.days) && i < |sorted|
    ensures var routed := ctx.Days(sorted, start);
      forall j :: 0 <= j < |sorted| ==> (routed[j].number == sorted[i].number <==> j == i)
  {
    hide Context.Days;
    Validate.DraftNumbersDiffer(draft, cs, days);
    hide Validate.DraftValid;
    NoDuplicatesPermutation(draft.days, sorted);
    PermutationFacts(sorted, draft.days);
    DayNumbers(ctx, sorted, start);
    assert forall j :: 0 <= j < |sorted| ==> sorted[j] in draft.days;
  }

  lemma {:induction false} WalkIsNotEmpty(ctx: Context, days: seq<DraftDay>, from: Waypoint)
    requires days != [] && var n := |days| - 1; ctx.Day(days[n], StartOf(ctx, days, from, n)).stay.Some?
    ensures var n, walk := |days| - 1, ctx.TripWalk(days, from);
      walk != [] && Some(walk[|walk| - 1]) == ctx.Day(days[n], StartOf(ctx, days, from, n)).stay
    decreases |days|
  {
    hide Context.Day, Context.DayWalk;
    var walk := ctx.DayWalk(days[0], from);
    UnfoldTrip(ctx, days, from);
    if |days| == 1 {
      EndsAtBed(ctx, days[0], from);
      assert days[1..] == [];
    } else {
      WalkIsNotEmpty(ctx, days[1..], Last(from, walk));
    }
  }
}
