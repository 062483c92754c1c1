/** The pre-flight diagnosis, api/src/tripplan/store/pois.py `feasibility`: written apart from
    retrieval, it must agree with it, and what it advises must work. */
module Feasibility {
  import opened Util
  import opened Domain
  import opened Retrieval

  datatype Reason = Ok | OutOfSeason | BudgetTooLow | NothingTagged | NothingInRadius | NotEnoughForDays | NoData

  datatype Verdict = Verdict(
    ok: bool, reason: Reason, candidates: nat, months: seq<nat>, interests: seq<InterestTag>,
    minBudgetBand: Option<nat>, radius: Option<nat>, maxDays: Option<nat>)

  // ---------------------------------------------------------------- the slices

  function Count(rows: seq<PoiRow>, p: PoiRow -> bool): nat {
    if rows == [] then 0 else (if p(rows[0]) then 1 else 0) + Count(rows[1..], p)
  }

  predicate Scoped(st: Store, b: Brief, path: string, r: PoiRow) {
    r.published && (r.kind == Place || r.kind == Activity) && InScope(st, b, path, r)
  }

  predicate MatchesInterest(b: Brief, r: PoiRow) { b.mode != Interest || HasTag(r, b.tags) }

  predicate IsTagged(st: Store, b: Brief, path: string, r: PoiRow) { Scoped(st, b, path, r) && MatchesInterest(b, r) }

  predicate IsInSeason(st: Store, b: Brief, path: string, r: PoiRow) {
    IsTagged(st, b, path, r) && InSeason(r, b.month)
  }

  predicate IsInBudget(st: Store, b: Brief, path: string, r: PoiRow) {
    IsTagged(st, b, path, r) && InBudget(r, b.budgetBand)
  }

  predicate IsExact(st: Store, b: Brief, path: string, r: PoiRow) {
    IsTagged(st, b, path, r) && InSeason(r, b.month) && InBudget(r, b.budgetBand)
  }

  /** The slices as filters, to count with. */
  function AllScoped(st: Store, b: Brief, path: string): PoiRow -> bool { (r: PoiRow) => Scoped(st, b, path, r) }

  function AllTagged(st: Store, b: Brief, path: string): PoiRow -> bool { (r: PoiRow) => IsTagged(st, b, path, r) }

  function AllInSeason(st: Store, b: Brief, path: string): PoiRow -> bool { (r: PoiRow) => IsInSeason(st, b, path, r) }

  function AllInBudget(st: Store, b: Brief, path: string): PoiRow -> bool { (r: PoiRow) => IsInBudget(st, b, path, r) }

  function AllExact(st: Store, b: Brief, path: string): PoiRow -> bool { (r: PoiRow) => IsExact(st, b, path, r) }

  function Exact(st: Store, b: Brief, path: string): nat { Count(st.rows, AllExact(st, b, path)) }

  /** min(cost_band) over the rows satisfying p that have one. */
  function Cheapest(rows: seq<PoiRow>, p: PoiRow -> bool): Option<nat> {
    if rows == [] then None
    else
      var rest := Cheapest(rows[1..], p);
      if p(rows[0]) && rows[0].costBand.Some? && (rest.None? || rows[0].costBand.value < rest.value)
      then rows[0].costBand else rest
  }

  // ----------------------------------------------------------------- the advice

  /** A row that would be on offer in month m: the tags are asked for only when there are any. */
  predicate OnOffer(st: Store, b: Brief, path: string, m: nat, r: PoiRow) {
    && Scoped(st, b, path, r) && InBudget(r, b.budgetBand) && InSeason(r, m)
    && (b.tags != [] ==> HasTag(r, b.tags))
  }

  function AllOnOffer(st: Store, b: Brief, path: string, m: nat): PoiRow -> bool {
    (r: PoiRow) => OnOffer(st, b, path, m, r)
  }

  /** The months of the year with something on offer, in order. */
  function Months(st: Store, b: Brief, path: string, upTo: nat): (ms: seq<nat>)
    ensures forall m :: m in ms <==> 1 <= m <= upTo && Count(st.rows, AllOnOffer(st, b, path, m)) > 0
  {
    if upTo == 0 then []
    else
      Months(st, b, path, upTo - 1)
      + (if Count(st.rows, AllOnOffer(st, b, path, upTo)) > 0 then [upTo] else [])
  }

  /** A row in scope, budget and season that carries the interest. */
  predicate Carries(st: Store, b: Brief, path: string, slug: string, r: PoiRow) {
    Scoped(st, b, path, r) && InBudget(r, b.budgetBand) && InSeason(r, b.month) && slug in r.tags
  }

  function AllCarrying(st: Store, b: Brief, path: string, slug: string): PoiRow -> bool {
    (r: PoiRow) => Carries(st, b, path, slug, r)
  }

  function Carrying(st: Store, b: Brief, path: string, slug: string): nat {
    Count(st.rows, AllCarrying(st, b, path, slug))
  }

  /** An active interest with enough on offer to fill a day. */
  predicate Suggestible(st: Store, b: Brief, path: string, t: InterestTag) {
    t in st.interests && t.isInterest && t.active && Carrying(st, b, path, t.slug) >= 3
  }

  function AllSuggestible(st: Store, b: Brief, path: string): InterestTag -> bool {
    (t: InterestTag) => Suggestible(st, b, path, t)
  }

  /** ORDER BY count(*) DESC, display_order. */
  predicate SuggestedBefore(st: Store, b: Brief, path: string, t: InterestTag, u: InterestTag) {
    var n, m := Carrying(st, b, path, t.slug), Carrying(st, b, path, u.slug);
    n > m || (n == m && t.displayOrder < u.displayOrder)
  }

  function SuggestionOrder(st: Store, b: Brief, path: string): (InterestTag, InterestTag) -> bool {
    (t: InterestTag, u: InterestTag) => SuggestedBefore(st, b, path, t, u)
  }

  const MAX_SUGGESTIONS: nat := 6

  /** `_interests_for_month`: at most six, the ones with most on offer first. */
  function Suggested(st: Store, b: Brief, path: string): seq<InterestTag> {
    var all := StableSort(Filter(st.interests, AllSuggestible(st, b, path)), SuggestionOrder(st, b, path));
    if |all| <= MAX_SUGGESTIONS then all else all[..MAX_SUGGESTIONS]
  }

  const OFFERED: seq<nat> := [25, 50, 75, 100, 150, 200]

  predicate WithinRadius(st: Store, b: Brief, anchor: GeoPoint, radius: nat, r: PoiRow) {
    && r.published && (r.kind == Place || r.kind == Activity)
    && InBudget(r, b.budgetBand) && InSeason(r, b.month)
    && st.dist(r.point, anchor) <= radius as real
  }

  function AllWithin(st: Store, b: Brief, anchor: GeoPoint, radius: nat): PoiRow -> bool {
    (r: PoiRow) => WithinRadius(st, b, anchor, radius, r)
  }

  function Nearby(st: Store, b: Brief, anchor: GeoPoint, radius: nat): nat {
    Count(st.rows, AllWithin(st, b, anchor, radius))
  }

  predicate Wider(b: Brief, radius: nat) { b.radius.None? || radius > b.radius.value }

  /** The first offered radius, wider than the one asked for, with three places inside. */
  ghost predicate RadiusAdvice(r: Option<nat>, st: Store, b: Brief) {
    && (r.Some? ==>
          b.anchor.Some? && r.value in OFFERED && Wider(b, r.value) && Nearby(st, b, b.anchor.value, r.value) >= 3)
    && (b.anchor.Some? ==> forall o :: o in OFFERED && Wider(b, o) && (r.None? || o < r.value) ==>
          Nearby(st, b, b.anchor.value, o) < 3)
  }

  method RadiusThatWouldWork(st: Store, b: Brief) returns (r: Option<nat>)
    ensures RadiusAdvice(r, st, b)
    ensures r.Some? ==> r.value in [25, 50, 75, 100, 150, 200] && (b.radius.Some? ==> r.value > b.radius.value)
    ensures b.anchor.Some? && r.None? ==> forall o: nat ::
      o in [25, 50, 75, 100, 150, 200] && (b.radius.Some? ==> o > b.radius.value) ==>
      Nearby(st, b, b.anchor.value, o) < 3
  {
    if b.anchor.None? {
      return None;
    }
    for i := 0 to |OFFERED|
      invariant forall k :: 0 <= k < i ==> Wider(b, OFFERED[k]) ==> Nearby(st, b, b.anchor.value, OFFERED[k]) < 3
    {
      var radius := OFFERED[i];
      if !Wider(b, radius) {
        continue;
      }
      if Nearby(st, b, b.anchor.value, radius) >= 3 {
        return Some(radius);
      }
    }
    return None;
  }

  /** The diagnosis: one cause, cheapest fix first. */
  method Diagnose(st: Store, b: Brief) returns (v: Verdict)
    ensures b.district !in st.paths ==> v == Verdict(false, NoData, 0, [], [], None, None, None)
    ensures b.district in st.paths ==> Explained(v, st, b, st.paths[b.district])
  {
    if b.district !in st.paths {
      return Verdict(false, NoData, 0, [], [], None, None, None);
    }
    var path := st.paths[b.district];
    var matched := Exact(st, b, path);
    v := Verdict(matched >= b.days, Reason.Ok, matched, [], [], None, None, None);
    if v.ok {
      return;
    }
    if matched > 0 {
      v := v.(reason := NotEnoughForDays, maxDays := Some(matched));
      return;
    }
    if Count(st.rows, AllScoped(st, b, path)) == 0 {
      if b.mode == Location {
        var wider := RadiusThatWouldWork(st, b);
        v := v.(reason := NothingInRadius, radius := wider);
      } else {
        v := v.(reason := NoData);
      }
      return;
    }
    if Count(st.rows, AllTagged(st, b, path)) == 0 {
      v := v.(reason := NothingTagged);
    } else if Count(st.rows, AllInSeason(st, b, path)) == 0 {
      v := v.(reason := OutOfSeason);
    } else if Count(st.rows, AllInBudget(st, b, path)) == 0 || Exact(st, b, path) == 0 {
      v := v.(reason := BudgetTooLow, minBudgetBand := Cheapest(st.rows, AllInSeason(st, b, path)));
    } else {
      assert false;
    }
    v := v.(months := Months(st, b, path, 12), interests := Suggested(st, b, path));
  }

  /** Enough to plan, too few days' worth, or nothing at all: then the first empty slice names the cause. */
  ghost predicate Explained(v: Verdict, st: Store, b: Brief, path: string) {
    var exact := Exact(st, b, path);
    var months, interests := Months(st, b, path, 12), Suggested(st, b, path);
    if exact >= b.days then v == Verdict(true, Reason.Ok, exact, [], [], None, None, None)
    else if exact > 0 then v == Verdict(false, NotEnoughForDays, exact, [], [], None, None, Some(exact))
    else if Count(st.rows, AllScoped(st, b, path)) == 0 then
      if b.mode == Location then
        v == Verdict(false, NothingInRadius, 0, [], [], None, v.radius, None) && RadiusAdvice(v.radius, st, b)
      else v == Verdict(false, NoData, 0, [], [], None, None, None)
    else if Count(st.rows, AllTagged(st, b, path)) == 0 then
      v == Verdict(false, NothingTagged, 0, months, interests, None, None, None)
    else if Count(st.rows, AllInSeason(st, b, path)) == 0 then
      v == Verdict(false, OutOfSeason, 0, months, interests, None, None, None)
    else
      var band := Cheapest(st.rows, AllInSeason(st, b, path));
      v == Verdict(false, BudgetTooLow, 0, months, interests, band, None, None)
  }

  // ----------------------------------------------------- agreement with retrieval

  lemma {:induction false} CountIsFilter(rows: seq<PoiRow>, p: PoiRow -> bool)
    ensures Count(rows, p) == |Filter(rows, p)|
  {
    if rows != [] {
      CountIsFilter(rows[1..], p);
    }
  }

  lemma {:induction false} CountSplits(rows: seq<PoiRow>, p: PoiRow -> bool, q: PoiRow -> bool, both: PoiRow -> bool)
    requires forall r :: r in rows ==> (both(r) <==> p(r) || q(r)) && !(p(r) && q(r))
    ensures Count(rows, both) == Count(rows, p) + Count(rows, q)
  {
    if rows != [] {
      assert rows[0] in rows && forall r :: r in rows[1..] ==> r in rows;
      CountSplits(rows[1..], p, q, both);
    }
  }

  lemma {:induction false} CountPositive(rows: seq<PoiRow>, p: PoiRow -> bool)
    ensures Count(rows, p) > 0 <==> exists r :: r in rows && p(r)
  {
    if rows != [] {
      CountPositive(rows[1..], p);
      assert forall r :: r in rows <==> r == rows[0] || r in rows[1..];
    }
  }

  /** In every mode, `exact` is the number of places and activities retrieval would hand over uncapped. */
  lemma ExactIsWhatIsRetrieved(st: Store, b: Brief, path: string)
    ensures Exact(st, b, path) == |Selected(st, b, path, Place)| + |Selected(st, b, path, Activity)|
  {
    var p := (r: PoiRow) => Retrieves(st, b, path, Place, r);
    var a := (r: PoiRow) => Retrieves(st, b, path, Activity, r);
    CountIsFilter(st.rows, p);
    CountIsFilter(st.rows, a);
    CountSplits(st.rows, p, a, AllExact(st, b, path));
  }

  // ---------------------------------------------------------- the advice works

  lemma {:induction false} CheapestIsLeast(rows: seq<PoiRow>, p: PoiRow -> bool)
    ensures var c := Cheapest(rows, p);
      && (c.Some? <==> exists r :: r in rows && p(r) && r.costBand.Some?)
      && (c.Some? ==> exists r :: r in rows && p(r) && r.costBand == c)
      && (forall r :: r in rows && p(r) && r.costBand.Some? ==> c.value <= r.costBand.value)
  {
    if rows != [] {
      CheapestIsLeast(rows[1..], p);
      assert forall r :: r in rows <==> r == rows[0] || r in rows[1..];
    }
  }

  /** When the budget is the blocker, the band named is above the one asked for, adopting it leaves
      a match, and no lower band would. */
  lemma BudgetAdviceWorks(v: Verdict, st: Store, b: Brief, path: string)
    requires Explained(v, st, b, path) && v.reason == BudgetTooLow
    ensures v.minBudgetBand.Some? && v.minBudgetBand.value > b.budgetBand
    ensures forall band: nat :: Exact(st, b.(budgetBand := band), path) > 0 <==> band >= v.minBudgetBand.value
  {
    var season := AllInSeason(st, b, path);
    CountPositive(st.rows, season);
    CountPositive(st.rows, AllExact(st, b, path));
    CheapestIsLeast(st.rows, season);
    forall band: nat ensures Exact(st, b.(budgetBand := band), path) > 0 <==> band >= v.minBudgetBand.value {
      CountPositive(st.rows, AllExact(st, b.(budgetBand := band), path));
      forall r | r in st.rows
        ensures IsExact(st, b.(budgetBand := band), path, r) <==>
          season(r) && r.costBand.Some? && r.costBand.value <= band
      {
        assert IsExact(st, b, path, r) <==> season(r) && InBudget(r, b.budgetBand);
      }
    }
  }

  /** Adopting a suggested month leaves a match, whenever the brief is one stage 0 accepts. */
  lemma MonthAdviceWorks(st: Store, b: Brief, path: string, m: nat)
    requires m in Months(st, b, path, 12) && (b.mode == Interest ==> b.tags != [])
    ensures Exact(st, b.(month := m), path) > 0
    ensures Exact(st, b, path) == 0 ==> m != b.month
  {
    CountPositive(st.rows, AllOnOffer(st, b, path, m));
    CountPositive(st.rows, AllExact(st, b.(month := m), path));
    var r :| r in st.rows && OnOffer(st, b, path, m, r);
    assert IsExact(st, b.(month := m), path, r);
    if m == b.month {
      assert b.(month := m) == b;
    }
  }

  /** In interest mode with interests, the suggestions are exactly the months that would work. */
  lemma MonthAdviceIsComplete(st: Store, b: Brief, path: string, m: nat)
    requires b.mode == Interest && b.tags != [] && 1 <= m <= 12
    ensures m in Months(st, b, path, 12) <==> Exact(st, b.(month := m), path) > 0
  {
    CountPositive(st.rows, AllOnOffer(st, b, path, m));
    CountPositive(st.rows, AllExact(st, b.(month := m), path));
    forall r | r in st.rows ensures OnOffer(st, b, path, m, r) <==> IsExact(st, b.(month := m), path, r) {
    }
  }

  /** An interest-mode brief without interests (refused by stage 0) could be helped by no month, yet is
      offered every month something is open. */
  lemma NoInterestsNoMonth(st: Store, b: Brief, path: string, m: nat)
    requires b.mode == Interest && b.tags == []
    ensures Exact(st, b.(month := m), path) == 0
  {
    CountPositive(st.rows, AllExact(st, b.(month := m), path));
  }

  /** `max_days` is a shorter trip that is feasible, and the longest one that is. */
  lemma MaxDaysIsLongestFeasible(v: Verdict, st: Store, b: Brief, path: string)
    requires Explained(v, st, b, path) && v.reason == NotEnoughForDays
    ensures v.maxDays.Some? && 1 <= v.maxDays.value < b.days
    ensures forall days: nat :: Exact(st, b.(days := days), path) >= days <==> days <= v.maxDays.value
  {
    forall days: nat ensures Exact(st, b.(days := days), path) == Exact(st, b, path) {
      CountSame(st.rows, AllExact(st, b, path), AllExact(st, b.(days := days), path));
    }
  }

  lemma {:induction false} CountSame(rows: seq<PoiRow>, p: PoiRow -> bool, q: PoiRow -> bool)
    requires forall r :: r in rows ==> (p(r) <==> q(r))
    ensures Count(rows, p) == Count(rows, q)
  {
    if rows != [] {
      assert rows[0] in rows && forall r :: r in rows[1..] ==> r in rows;
      CountSame(rows[1..], p, q);
    }
  }

  /** The radius advice counts what adopting it would count. So it makes the brief feasible exactly when
      there are as many places as days; three are promised, so trips of at most three days always are. */
  lemma RadiusAdviceFeasibility(r: nat, st: Store, b: Brief, path: string)
    requires b.mode == Location && RadiusAdvice(Some(r), st, b)
    ensures Exact(st, b.(radius := Some(r)), path) == Nearby(st, b, b.anchor.value, r) >= 3
    ensures b.days <= 3 ==> Exact(st, b.(radius := Some(r)), path) >= b.days
  {
    CountSame(st.rows, AllExact(st, b.(radius := Some(r)), path),
              AllWithin(st, b, b.anchor.value, r));
  }

  /** For any trip of four days or more there are data for which the advice is given and is not enough. */
  lemma RadiusAdviceCanFallShort(days: nat) returns (st: Store, b: Brief, r: nat)
    requires days >= 4
    ensures b.mode == Location && b.days == days && RadiusAdvice(Some(r), st, b)
    ensures forall x, y :: st.dist(x, y) == st.dist(y, x) >= 0.0 && (st.dist(x, y) == 0.0 <==> x == y)
    ensures forall path :: Exact(st, b, path) == 0 && Exact(st, b.(radius := Some(r)), path) < b.days
  {
    var here, there := GeoPoint(0.0, 0.0), GeoPoint(1.0, 0.0);
    var place := PoiRow(0, Place, true, "t", "/k/t/", "p", there, None, None, None, map[], false, 3);
    var apart: Metric := (x: GeoPoint, y: GeoPoint) => if x == y then 0.0 else 20.0;
    st := Store([place, place.(id := 1), place.(id := 2)], map["k" := "/k/"], apart, []);
    b := Brief(Location, [], "k", Some(here), Some(10), days, 3, 1);
    r := 25;
    ThreeRows(st, AllWithin(st, b, here, 25));
    forall path ensures Exact(st, b, path) == 0 && Exact(st, b.(radius := Some(r)), path) < b.days {
      CountPositive(st.rows, AllExact(st, b, path));
      CountAtMost(st.rows, AllExact(st, b.(radius := Some(r)), path));
    }
  }

  /** A suggested interest is an active one, and asking for it instead, by interest, leaves at least three matches. */
  lemma InterestAdviceWorks(st: Store, b: Brief, path: string, t: InterestTag)
    requires b.mode == Interest && t in Suggested(st, b, path)
    ensures t in st.interests && t.isInterest && t.active
    ensures Exact(st, b.(tags := [t.slug]), path) >= 3
  {
    SuggestedAre(st, b, path);
    CarryingIsExact(st, b, path, t.slug);
  }

  /** In interest mode an interest has on offer what asking for it, and nothing else, would match. */
  lemma CarryingIsExact(st: Store, b: Brief, path: string, slug: string)
    requires b.mode == Interest
    ensures Carrying(st, b, path, slug) == Exact(st, b.(tags := [slug]), path)
  {
    forall r | r in st.rows ensures IsExact(st, b.(tags := [slug]), path, r) <==> Carries(st, b, path, slug, r) {
      assert HasTag(r, [slug]) <==> slug in r.tags by {
        assert slug in [slug];
      }
    }
    CountSame(st.rows, AllExact(st, b.(tags := [slug]), path), AllCarrying(st, b, path, slug));
  }

  /** Suggestions come with most on offer first, then in their display order. */
  lemma SuggestedInOrder(st: Store, b: Brief, path: string, i: nat, j: nat)
    requires i < j < |Suggested(st, b, path)|
    ensures var t, u := Suggested(st, b, path)[i], Suggested(st, b, path)[j];
      var n, m := Carrying(st, b, path, t.slug), Carrying(st, b, path, u.slug);
      n > m || (n == m && t.displayOrder <= u.displayOrder)
  {
    var found, before := Filter(st.interests, AllSuggestible(st, b, path)), SuggestionOrder(st, b, path);
    StableSortSorted(found, before);
    hide StableSort, Carrying, AllSuggestible;
    assert !before(Suggested(st, b, path)[j], Suggested(st, b, path)[i]);
  }

  lemma SuggestedAre(st: Store, b: Brief, path: string)
    ensures |Suggested(st, b, path)| <= MAX_SUGGESTIONS
    ensures forall t :: t in Suggested(st, b, path) ==> Suggestible(st, b, path, t)
  {
    var found := Filter(st.interests, AllSuggestible(st, b, path));
    assert forall t :: t in found ==> Suggestible(st, b, path, t);
    hide StableSort, Suggestible, SuggestedBefore;
    PermutationFacts(StableSort(found, SuggestionOrder(st, b, path)), found);
  }

  /** Outside interest mode nothing is suggested to a brief that matches nothing: interests are not what it lacks. */
  lemma NoInterestHelpsElsewhere(st: Store, b: Brief, path: string)
    requires b.mode != Interest && Exact(st, b, path) == 0
    ensures Suggested(st, b, path) == []
  {
    SuggestedAre(st, b, path);
    hide Suggested, Carrying;
    if Suggested(st, b, path) != [] {
      var t := Suggested(st, b, path)[0];
      assert t in Suggested(st, b, path) && Suggestible(st, b, path, t);
      NothingCarries(st, b, path, t.slug);
    }
  }

  lemma NothingCarries(st: Store, b: Brief, path: string, slug: string)
    requires b.mode != Interest && Exact(st, b, path) == 0
    ensures Carrying(st, b, path, slug) == 0
  {
    CountPositive(st.rows, AllExact(st, b, path));
    CountPositive(st.rows, AllCarrying(st, b, path, slug));
    assert forall r :: Carries(st, b, path, slug, r) ==> IsExact(st, b, path, r);
  }

  /** An active interest with three on offer is left out only when six are named, each with at least as much. */
  lemma SuggestionsAreBest(st: Store, b: Brief, path: string, left: InterestTag)
    requires left in st.interests && left.isInterest && left.active && Carrying(st, b, path, left.slug) >= 3
    requires left !in Suggested(st, b, path)
    ensures |Suggested(st, b, path)| == 6
    ensures forall t :: t in Suggested(st, b, path) ==>
      Carrying(st, b, path, t.slug) >= Carrying(st, b, path, left.slug)
  {
    var found, before := Filter(st.interests, AllSuggestible(st, b, path)), SuggestionOrder(st, b, path);
    var all, top := StableSort(found, before), Suggested(st, b, path);
    PermutationFacts(all, found);
    StableSortSorted(found, before);
    hide StableSort, Carrying, Suggestible;
    assert left in all && top == all[..|top|];
    var j :| 0 <= j < |all| && all[j] == left;
    forall t | t in top ensures Carrying(st, b, path, t.slug) >= Carrying(st, b, path, left.slug) {
      var i :| 0 <= i < |top| && top[i] == t;
      assert !before(all[j], all[i]);
    }
  }

  lemma CountAtMost(rows: seq<PoiRow>, p: PoiRow -> bool)
    ensures Count(rows, p) <= |rows|
  {
    if rows != [] {
      CountAtMost(rows[1..], p);
    }
  }

  lemma ThreeRows(st: Store, p: PoiRow -> bool)
    requires |st.rows| == 3 && forall x :: x in st.rows ==> p(x)
    ensures Count(st.rows, p) == 3
  {
    var s := st.rows;
    assert s[0] in s && s[1] in s && s[2] in s;
    assert s[1..][1..] == s[2..] && s[1..][0] == s[1] && s[2..][0] == s[2] && s[2..][1..] == [];
    assert Count(s[2..], p) == 1;
    assert Count(s[1..], p) == 2;
  }
}
