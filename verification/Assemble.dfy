/** Stage 5, api/src/tripplan/engine/assemble.py: slots, clock times, the cost estimate and the warnings. */
module Assemble {
  import opened Util
  import opened Domain
  import opened Routing
  import opened Validate

  // ----------------------------------------------------------------------- money

  /** A price range in paise. */
  datatype Money = Money(low: nat, high: nat)

  /** The price columns of a POI row and, for a stay, of its detail row. */
  datatype Prices = Prices(
    costMin: Option<nat>, costMax: Option<nat>, nightMin: Option<nat>, nightMax: Option<nat>, occupancy: Option<nat>)

  /** The CHECK constraints of the two tables. */
  predicate Ordered(low: Option<nat>, high: Option<nat>) { low.Some? && high.Some? ==> low.value <= high.value }

  predicate RowOk(p: Prices) {
    Ordered(p.costMin, p.costMax) && Ordered(p.nightMin, p.nightMax) && (p.occupancy.Some? ==> p.occupancy.value > 0)
  }

  /** `_money`: a missing end takes the other end's value. */
  function Cost(p: Prices): Option<Money> {
    if p.costMin.None? && p.costMax.None? then None
    else Some(Money(if p.costMin.Some? then p.costMin.value else p.costMax.value,
                    if p.costMax.Some? then p.costMax.value else p.costMin.value))
  }

  /** Python's `a or b or 0`: zero counts as missing. */
  function Or(a: Option<nat>, b: Option<nat>): nat {
    if a.Some? && a.value != 0 then a.value else if b.Some? then b.value else 0
  }

  /** `_stay_card`'s price of a night. */
  function PerNight(p: Prices): Option<Money> {
    if p.nightMin.None? && p.nightMax.None? then None
    else Some(Money(Or(p.nightMin, p.nightMax), Or(p.nightMax, p.nightMin)))
  }

  /** A night's range is ordered and keeps its upper end; the lower end survives unless it is a zero
      below a positive price, which the `or` turns into that price. */
  lemma NightKeepsRange(p: Prices)
    requires RowOk(p) && p.nightMin.Some? && p.nightMax.Some?
    ensures PerNight(p).Some? && PerNight(p).value.high == p.nightMax.value && PerNight(p).value.low <= p.nightMax.value
    ensures PerNight(p).value.low == p.nightMin.value <==> !(p.nightMin.value == 0 && p.nightMax.value > 0)
  {
  }

  const DEFAULT_OCCUPANCY: nat := 2

  function Occupancy(p: Prices): (o: nat)
    ensures o >= 1
  {
    if p.occupancy.Some? && p.occupancy.value != 0 then p.occupancy.value else DEFAULT_OCCUPANCY
  }

  function Rooms(p: Prices, party: nat): nat {
    var whole := (party + Occupancy(p) - 1) / Occupancy(p);
    if whole < 1 then 1 else whole
  }

  lemma TimesMonotone(a: nat, b: nat, c: nat)
    requires a <= b
    ensures a * c <= b * c && c * a <= c * b
  {
  }

  /** Enough rooms, at least one, and no fewer would do. */
  lemma RoomsIsLeast(p: Prices, party: nat)
    ensures Rooms(p, party) >= 1 && Rooms(p, party) * Occupancy(p) >= party
    ensures forall r: nat :: r >= 1 && r * Occupancy(p) >= party ==> r >= Rooms(p, party)
  {
    var o := Occupancy(p);
    var whole := (party + o - 1) / o;
    assert whole * o <= party + o - 1 < whole * o + o;
    forall r: nat | 1 <= r < Rooms(p, party) ensures r * o < party {
      TimesMonotone(r + 1, whole, o);
      assert (r + 1) * o == r * o + o;
    }
  }

  type PriceList = PoiId -> Prices

  function ItemLow(c: Candidate, prices: PriceList, party: nat): int {
    var m := Cost(prices(c.poiId)); if m.Some? then m.value.low * party else 0
  }

  function ItemHigh(c: Candidate, prices: PriceList, party: nat): int {
    var m := Cost(prices(c.poiId)); if m.Some? then m.value.high * party else 0
  }

  function NightLow(stay: Option<Candidate>, prices: PriceList, party: nat): int {
    if stay.None? || PerNight(prices(stay.value.poiId)).None? then 0
    else PerNight(prices(stay.value.poiId)).value.low * Rooms(prices(stay.value.poiId), party)
  }

  function NightHigh(stay: Option<Candidate>, prices: PriceList, party: nat): int {
    if stay.None? || PerNight(prices(stay.value.poiId)).None? then 0
    else PerNight(prices(stay.value.poiId)).value.high * Rooms(prices(stay.value.poiId), party)
  }

  function ItemsLow(items: seq<RoutedItem>, prices: PriceList, party: nat): int {
    if items == [] then 0
    else ItemsLow(items[..|items| - 1], prices, party) + ItemLow(items[|items| - 1].candidate, prices, party)
  }

  function ItemsHigh(items: seq<RoutedItem>, prices: PriceList, party: nat): int {
    if items == [] then 0
    else ItemsHigh(items[..|items| - 1], prices, party) + ItemHigh(items[|items| - 1].candidate, prices, party)
  }

  /** The trip's estimate: what each stop costs per head and what each night's rooms cost. */
  function TripLow(days: seq<RoutedDay>, prices: PriceList, party: nat): int {
    if days == [] then 0
    else
      var d := days[|days| - 1];
      TripLow(days[..|days| - 1], prices, party) + (ItemsLow(d.items, prices, party) + NightLow(d.stay, prices, party))
  }

  function TripHigh(days: seq<RoutedDay>, prices: PriceList, party: nat): int {
    if days == [] then 0
    else
      var d := days[|days| - 1];
      TripHigh(days[..|days| - 1], prices, party)
        + (ItemsHigh(d.items, prices, party) + NightHigh(d.stay, prices, party))
  }

  lemma ItemOrdered(c: Candidate, prices: PriceList, party: nat)
    requires RowOk(prices(c.poiId))
    ensures 0 <= ItemLow(c, prices, party) <= ItemHigh(c, prices, party)
  {
    var m := Cost(prices(c.poiId));
    if m.Some? {
      TimesMonotone(m.value.low, m.value.high, party);
    }
  }

  lemma {:induction false} ItemsOrdered(items: seq<RoutedItem>, prices: PriceList, party: nat)
    requires forall id :: RowOk(prices(id))
    ensures 0 <= ItemsLow(items, prices, party) <= ItemsHigh(items, prices, party)
  {
    if items != [] {
      var init, last := items[..|items| - 1], items[|items| - 1].candidate;
      ItemsOrdered(init, prices, party);
      ItemOrdered(last, prices, party);
      hide ItemLow, ItemHigh;
      assert ItemsLow(items, prices, party) == ItemsLow(init, prices, party) + ItemLow(last, prices, party);
    }
  }

  /** Prices the tables accept never give an estimate whose lower end is above its upper one. */
  lemma {:induction false} EstimateIsOrdered(days: seq<RoutedDay>, prices: PriceList, party: nat)
    requires forall id :: RowOk(prices(id))
    ensures 0 <= TripLow(days, prices, party) <= TripHigh(days, prices, party)
  {
    if days != [] {
      var d := days[|days| - 1];
      EstimateIsOrdered(days[..|days| - 1], prices, party);
      ItemsOrdered(d.items, prices, party);
      if d.stay.Some? && PerNight(prices(d.stay.value.poiId)).Some? {
        var p := prices(d.stay.value.poiId);
        hide Rooms;
        TimesMonotone(PerNight(p).value.low, PerNight(p).value.high, Rooms(p, party));
      }
    }
  }

  method DayCost(day: RoutedDay, prices: PriceList, party: nat) returns (low: int, high: int)
    ensures low == ItemsLow(day.items, prices, party) + NightLow(day.stay, prices, party)
    ensures high == ItemsHigh(day.items, prices, party) + NightHigh(day.stay, prices, party)
  {
    hide Rooms, Cost, PerNight;
    low, high := 0, 0;
    for i := 0 to |day.items|
      invariant low == ItemsLow(day.items[..i], prices, party) && high == ItemsHigh(day.items[..i], prices, party)
    {
      assert day.items[..i + 1][..i] == day.items[..i];
      var cost := Cost(prices(day.items[i].candidate.poiId));
      if cost.Some? {
        low := low + cost.value.low * party;
        high := high + cost.value.high * party;
      }
    }
    assert day.items[..|day.items|] == day.items;
    if day.stay.Some? {
      var perNight := PerNight(prices(day.stay.value.poiId));
      if perNight.Some? {
        var rooms := Rooms(prices(day.stay.value.poiId), party);
        low := low + perNight.value.low * rooms;
        high := high + perNight.value.high * rooms;
      }
    }
  }

  // ------------------------------------------------------------------------ time

  const LAST_MINUTE: nat := 23 * 60 + 59

  /** The clock never shows a time past midnight. */
  function Clamp(minutes: nat): nat { if minutes < LAST_MINUTE then minutes else LAST_MINUTE }

  function Duration(c: Candidate): nat { if c.duration.Some? then c.duration.value else 0 }

  /** The time cursor when the first n stops of the day are behind us. */
  function After(items: seq<RoutedItem>, dayStart: nat, n: nat): nat
    requires n <= |items|
  {
    if n == 0 then dayStart
    else After(items, dayStart, n - 1) + items[n - 1].leg.minutes + Duration(items[n - 1].candidate)
  }

  /** When stop k is reached: the start, all legs up to it, and the time spent at the stops before it. */
  function Reached(items: seq<RoutedItem>, dayStart: nat, k: nat): nat
    requires k < |items|
  {
    After(items, dayStart, k) + items[k].leg.minutes
  }

  datatype Stop = Stop(slot: nat, poiId: PoiId, start: nat)

  datatype ItineraryDay = ItineraryDay(number: int, stay: Option<PoiId>, items: seq<Stop>, travel: TravelLeg)

  datatype Itinerary = Itinerary(
    days: seq<ItineraryDay>, costLow: int, costHigh: int, totalMinutes: nat, warnings: seq<Warning>)

  function StopAt(items: seq<RoutedItem>, dayStart: nat, k: nat): Stop
    requires k < |items|
  {
    Stop(k + 1, items[k].candidate.poiId, Clamp(Reached(items, dayStart, k)))
  }

  function DayPage(day: RoutedDay, dayStart: nat): ItineraryDay {
    ItineraryDay(day.number, if day.stay.Some? then Some(day.stay.value.poiId) else None,
                 seq(|day.items|, k requires 0 <= k < |day.items| => StopAt(day.items, dayStart, k)), day.travel)
  }

  function Pages(days: seq<RoutedDay>, dayStart: nat): seq<ItineraryDay> {
    seq(|days|, i requires 0 <= i < |days| => DayPage(days[i], dayStart))
  }

  /** The time cursor of one day, and the names it collects for the warnings. */
  method AssembleDay(day: RoutedDay, dayStart: nat, facts: FactList)
    returns (page: ItineraryDay, cursor: nat, unverified: set<string>, permits: set<string>)
    ensures page == DayPage(day, dayStart)
    ensures cursor == After(day.items, dayStart, |day.items|)
    ensures unverified == DayUnverified(day, facts) && permits == DayPermits(day.items, facts)
  {
    hide Unverified, DayPermits, Clamp;
    NamesOfNone(facts);
    cursor, unverified, permits := dayStart, {}, {};
    var items: seq<Stop> := [];
    for k := 0 to |day.items|
      invariant cursor == After(day.items, dayStart, k)
      invariant items == seq(k, i requires 0 <= i < k => StopAt(day.items, dayStart, i))
      invariant unverified == Unverified(day.items[..k], facts) && permits == DayPermits(day.items[..k], facts)
    {
      var candidate := day.items[k].candidate;
      cursor := cursor + day.items[k].leg.minutes;
      items := items + [Stop(k + 1, candidate.poiId, Clamp(cursor))];
      cursor := cursor + Duration(candidate);
      NamesAppend(day.items[..k], day.items[k], facts);
      assert day.items[..k + 1] == day.items[..k] + [day.items[k]];
      if !facts(candidate.poiId).verified {
        unverified := unverified + {candidate.name};
      }
      if facts(candidate.poiId).permit {
        permits := permits + {candidate.name};
      }
    }
    assert day.items[..|day.items|] == day.items;
    if day.stay.Some? && !facts(day.stay.value.poiId).verified {
      unverified := unverified + {day.stay.value.name};
    }
    page := ItineraryDay(day.number, if day.stay.Some? then Some(day.stay.value.poiId) else None, items, day.travel);
  }

  const LATE_FINISH_MINUTES: nat := 19 * 60 + 30

  predicate EndsLate(day: RoutedDay, dayStart: nat) {
    day.items != [] && After(day.items, dayStart, |day.items|) > LATE_FINISH_MINUTES
  }

  // -------------------------------------------------------------------- warnings

  datatype WarningCode =
    | LateFinish | LongTravelDay | NoStayAvailable | ArrivalDay | PackedDay | ThinDay
    | InterestUnmet | PermitRequired | UnverifiedData | FallbackComposer

  /** `about` holds the names a message lists. */
  datatype Warning = Warning(code: WarningCode, day: Option<int>, about: set<string>)

  /** What the row of a POI says about its data. */
  datatype Facts = Facts(verified: bool, permit: bool)

  type FactList = PoiId -> Facts

  function Unverified(items: seq<RoutedItem>, facts: FactList): set<string> {
    set i | i in items && !facts(i.candidate.poiId).verified :: i.candidate.name
  }

  function DayUnverified(day: RoutedDay, facts: FactList): set<string> {
    Unverified(day.items, facts)
    + (if day.stay.Some? && !facts(day.stay.value.poiId).verified then {day.stay.value.name} else {})
  }

  function DayPermits(items: seq<RoutedItem>, facts: FactList): set<string> {
    set i | i in items && facts(i.candidate.poiId).permit :: i.candidate.name
  }

  lemma NamesAppend(items: seq<RoutedItem>, item: RoutedItem, facts: FactList)
    ensures Unverified(items + [item], facts)
         == Unverified(items, facts) + (if facts(item.candidate.poiId).verified then {} else {item.candidate.name})
    ensures DayPermits(items + [item], facts)
         == DayPermits(items, facts) + (if facts(item.candidate.poiId).permit then {item.candidate.name} else {})
  {
    assert forall i :: i in items + [item] <==> i in items || i == item;
  }

  lemma NamesOfNone(facts: FactList)
    ensures Unverified([], facts) == {} && DayPermits([], facts) == {}
  {
  }

  function DayWarnings(day: RoutedDay, dayStart: nat, maxTravel: nat): seq<Warning> {
    (if EndsLate(day, dayStart) then [Warning(LateFinish, Some(day.number), {})] else [])
    + (if day.travel.minutes > maxTravel then [Warning(LongTravelDay, Some(day.number), {})] else [])
  }

  function AllDayWarnings(days: seq<RoutedDay>, dayStart: nat, maxTravel: nat): seq<Warning> {
    if days == [] then []
    else AllDayWarnings(days[..|days| - 1], dayStart, maxTravel) + DayWarnings(days[|days| - 1], dayStart, maxTravel)
  }

  /** The mapping of advisory violations; anything unforeseen is a thin day. */
  function AdvisoryWarning(v: Violation): Warning {
    Warning(match v.code
            case NoStay => NoStayAvailable
            case EmptyDay => ArrivalDay
            case OverTimeBudget => PackedDay
            case _ => ThinDay, v.day, {})
  }

  function Advisories(report: seq<Violation>): seq<Warning> {
    if report == [] then []
    else
      Advisories(report[..|report| - 1])
      + (if report[|report| - 1].severity == Advisory then [AdvisoryWarning(report[|report| - 1])] else [])
  }

  function TripUnverified(days: seq<RoutedDay>, facts: FactList): set<string> {
    if days == [] then {} else TripUnverified(days[..|days| - 1], facts) + DayUnverified(days[|days| - 1], facts)
  }

  /** The names needing a permit on days with this number. */
  function PermitNames(days: seq<RoutedDay>, number: int, facts: FactList): set<string> {
    if days == [] then {}
    else
      var last := days[|days| - 1];
      PermitNames(days[..|days| - 1], number, facts)
        + (if last.number == number then DayPermits(last.items, facts) else {})
  }

  ghost predicate Ascending(s: seq<int>) { forall i, j :: 0 <= i < j < |s| ==> s[i] < s[j] }

  function PermitWarnings(numbers: seq<int>, days: seq<RoutedDay>, facts: FactList): seq<Warning> {
    seq(|numbers|, i requires 0 <= i < |numbers| =>
      Warning(PermitRequired, Some(numbers[i]), PermitNames(days, numbers[i], facts)))
  }

  function TripWarnings(unmet: seq<string>): seq<Warning> {
    if unmet == [] then [] else [Warning(InterestUnmet, None, set u | u in unmet)]
  }

  function Closing(unverified: set<string>, deterministic: bool): seq<Warning> {
    (if unverified != {} then [Warning(UnverifiedData, None, unverified)] else [])
    + (if deterministic then [Warning(FallbackComposer, None, {})] else [])
  }

  /** All warnings in order: day by day, then what validation advised, unmet interests, permits by day number,
      unverified entries, and who composed. */
  ghost predicate IsWarnings(ws: seq<Warning>, plan: RoutedPlan, dayStart: nat, maxTravel: nat, facts: FactList,
                             report: seq<Violation>, unmet: seq<string>, deterministic: bool)
  {
    exists numbers ::
      && Ascending(numbers) && (forall n :: n in numbers <==> PermitNames(plan.days, n, facts) != {})
      && ws == AllDayWarnings(plan.days, dayStart, maxTravel) + Advisories(report) + TripWarnings(unmet)
               + PermitWarnings(numbers, plan.days, facts) + Closing(TripUnverified(plan.days, facts), deterministic)
  }

  function Smaller(a: int, b: int): bool { a < b }

  /** The keys of the dictionary in the order they came, each once. */
  ghost predicate KeysInOrder(order: seq<int>, permits: map<int, set<string>>) {
    NoDuplicates(order) && forall n :: n in order <==> n in permits
  }

  lemma SortedKeys(order: seq<int>, permits: map<int, set<string>>)
    requires KeysInOrder(order, permits)
    ensures var numbers := StableSort(order, Smaller); Ascending(numbers) && forall n :: n in numbers <==> n in permits
  {
    StableSortSorted(order, Smaller);
    PermutationFacts(StableSort(order, Smaller), order);
    NoDuplicatesPermutation(order, StableSort(order, Smaller));
    hide StableSort;
  }

  method AdvisoryWarnings(report: seq<Violation>) returns (ws: seq<Warning>)
    ensures ws == Advisories(report)
  {
    ws := [];
    for i := 0 to |report|
      invariant ws == Advisories(report[..i])
    {
      assert report[..i + 1][..i] == report[..i];
      if report[i].severity == Advisory {
        ws := ws + [AdvisoryWarning(report[i])];
      }
    }
    assert report[..|report|] == report;
  }

  /** What the loop over the days has collected for the warnings. */
  ghost predicate Collected(permits: map<int, set<string>>, days: seq<RoutedDay>, facts: FactList) {
    && (forall n :: n in permits <==> PermitNames(days, n, facts) != {})
    && (forall n :: n in permits ==> permits[n] == PermitNames(days, n, facts))
  }

  function Merged(permits: map<int, set<string>>, number: int, names: set<string>): map<int, set<string>> {
    if names == {} then permits
    else permits[number := names + (if number in permits then permits[number] else {})]
  }

  lemma Collect(permits: map<int, set<string>>, days: seq<RoutedDay>, day: RoutedDay, facts: FactList)
    requires Collected(permits, days, facts)
    ensures Collected(Merged(permits, day.number, DayPermits(day.items, facts)), days + [day], facts)
  {
    hide DayPermits;
    assert (days + [day])[..|days|] == days;
    forall n ensures PermitNames(days + [day], n, facts)
                  == PermitNames(days, n, facts) + (if day.number == n then DayPermits(day.items, facts) else {}) {
    }
  }

  method AssembleAll(plan: RoutedPlan, dayStart: nat, prices: PriceList, party: nat, maxTravel: nat, facts: FactList,
                     report: seq<Violation>, unmet: seq<string>, deterministic: bool) returns (it: Itinerary)
    ensures it.days == Pages(plan.days, dayStart) && it.totalMinutes == plan.totalMinutes
    ensures it.costLow == TripLow(plan.days, prices, party) && it.costHigh == TripHigh(plan.days, prices, party)
    ensures IsWarnings(it.warnings, plan, dayStart, maxTravel, facts, report, unmet, deterministic)
  {
    hide ItemsLow, ItemsHigh, NightLow, NightHigh, After, DayUnverified, DayPermits, Collected, Merged, KeysInOrder;
    hide StableSort;
    var days: seq<ItineraryDay>, low, high := [], 0, 0;
    var warnings: seq<Warning>, unverified: set<string> := [], {};
    var permits: map<int, set<string>>, order: seq<int> := map[], [];
    NothingCollected(facts);
    for i := 0 to |plan.days|
      invariant days == Pages(plan.days[..i], dayStart)
      invariant low == TripLow(plan.days[..i], prices, party) && high == TripHigh(plan.days[..i], prices, party)
      invariant warnings == AllDayWarnings(plan.days[..i], dayStart, maxTravel)
      invariant unverified == TripUnverified(plan.days[..i], facts)
      invariant Collected(permits, plan.days[..i], facts) && KeysInOrder(order, permits)
    {
      var day := plan.days[i];
      assert plan.days[..i + 1][..i] == plan.days[..i] && plan.days[..i + 1] == plan.days[..i] + [day];
      var page, cursor, dayUnverified, dayPermits := AssembleDay(day, dayStart, facts);
      Collect(permits, plan.days[..i], day, facts);
      KeyAdded(order, permits, day.number, dayPermits);
      if dayPermits != {} && day.number !in permits {
        order := order + [day.number];
      }
      permits, unverified := Merged(permits, day.number, dayPermits), unverified + dayUnverified;
      var dayWarnings: seq<Warning> := [];
      if day.items != [] && cursor > LATE_FINISH_MINUTES {
        dayWarnings := [Warning(LateFinish, Some(day.number), {})];
      }
      var dayLow, dayHigh := DayCost(day, prices, party);
      low, high := low + dayLow, high + dayHigh;
      days := days + [page];
      if day.travel.minutes > maxTravel {
        dayWarnings := dayWarnings + [Warning(LongTravelDay, Some(day.number), {})];
      }
      warnings := warnings + dayWarnings;
    }
    assert plan.days[..|plan.days|] == plan.days;
    var advised := AdvisoryWarnings(report);
    var numbers := StableSort(order, Smaller);
    SortedKeys(order, permits);
    var named := seq(|numbers|, i requires 0 <= i < |numbers| =>
      Warning(PermitRequired, Some(numbers[i]), if numbers[i] in permits then permits[numbers[i]] else {}));
    NamedPermits(numbers, permits, plan.days, facts, named);
    var all := warnings + advised + TripWarnings(unmet) + named + Closing(unverified, deterministic);
    it := Itinerary(days, low, high, plan.totalMinutes, all);
    assert IsWarnings(all, plan, dayStart, maxTravel, facts, report, unmet, deterministic) by {
      hide AllDayWarnings, Advisories, PermitWarnings, PermitNames, TripUnverified;
    }
  }

  lemma KeyAdded(order: seq<int>, permits: map<int, set<string>>, number: int, names: set<string>)
    requires KeysInOrder(order, permits)
    ensures var grown := if names != {} && number !in permits then order + [number] else order;
      KeysInOrder(grown, Merged(permits, number, names))
  {
    assert forall n :: n in order + [number] <==> n in order || n == number;
    assert forall i :: 0 <= i < |order| ==> order[i] in order;
  }

  lemma NothingCollected(facts: FactList)
    ensures Collected(map[], [], facts) && KeysInOrder([], map[])
  {
  }

  lemma NamedPermits(numbers: seq<int>, permits: map<int, set<string>>, days: seq<RoutedDay>, facts: FactList,
                     named: seq<Warning>)
    requires Collected(permits, days, facts) && forall n :: n in numbers <==> n in permits
    requires |named| == |numbers| && forall i :: 0 <= i < |numbers| ==>
      named[i] == Warning(PermitRequired, Some(numbers[i]), if numbers[i] in permits then permits[numbers[i]] else {})
    ensures named == PermitWarnings(numbers, days, facts)
    ensures forall n :: n in numbers <==> PermitNames(days, n, facts) != {}
  {
    hide PermitNames;
    assert forall i :: 0 <= i < |numbers| ==> numbers[i] in numbers;
  }

  /** The warnings of a validated draft never fall back on the unforeseen: its advisories are a missing stay,
      an arrival day or a packed day. */
  lemma {:induction false} AdvisoriesAreForeseen(report: seq<Violation>, draft: Draft, cs: CandidateSet, days: nat,
                                                 dayMinutes: int)
    requires forall v :: v in report ==> Reported(v, draft, cs, days, dayMinutes)
    ensures forall w :: w in Advisories(report) ==> w.code in {NoStayAvailable, ArrivalDay, PackedDay} && w.day.Some?
  {
    if report != [] {
      var init, last := report[..|report| - 1], report[|report| - 1];
      assert last in report && forall v :: v in init ==> v in report;
      AdvisoriesAreForeseen(init, draft, cs, days, dayMinutes);
      if last.severity == Advisory {
        AdvisoryCode(last, draft, cs, days, dayMinutes);
      }
    }
  }

  lemma AdvisoryCode(v: Violation, draft: Draft, cs: CandidateSet, days: nat, dayMinutes: int)
    requires Reported(v, draft, cs, days, dayMinutes) && v.severity == Advisory
    ensures v.code in {NoStay, EmptyDay, OverTimeBudget} && v.day.Some?
  {
    hide CandidateSet.ByRef, References, OccursBefore;
  }

  /** Slots are 1..n, and the times shown never run backwards, clamped or not. */
  lemma TimesAscend(day: RoutedDay, dayStart: nat, j: nat, k: nat)
    requires j <= k < |day.items|
    ensures var page := DayPage(day, dayStart);
      page.items[j].slot == j + 1 && page.items[j].start <= page.items[k].start <= LAST_MINUTE
    decreases k
  {
    if j < k {
      TimesAscend(day, dayStart, j, k - 1);
    }
  }

  function Two(n: nat): string
    requires n < 100
  {
    [Digit(n / 10), Digit(n % 10)]
  }

  /** `_fmt_hhmm`. */
  function Hhmm(minutes: nat): string { Two(Clamp(minutes) / 60) + ":" + Two(Clamp(minutes) % 60) }

  function ColonAt(value: string): (i: nat)
    ensures i <= |value| && forall k :: 0 <= k < i ==> value[k] != ':'
  {
    if value == "" || value[0] == ':' then 0 else 1 + ColonAt(value[1..])
  }

  /** `_parse_hhmm` on digits: no minutes after the colon, or no colon, means on the hour. */
  function ParseHhmm(value: string): int {
    var i := ColonAt(value);
    var rest := if i < |value| then value[i + 1..] else "";
    Number(value[..i], i) * 60 + Number(rest, |rest|)
  }

  /** A time written by the itinerary reads back as the clamped minute. */
  lemma HhmmReadsBack(minutes: nat)
    ensures ParseHhmm(Hhmm(minutes)) == Clamp(minutes) && |Hhmm(minutes)| == 5
  {
    var m, s := Clamp(minutes), Hhmm(minutes);
    var h, t := Two(m / 60), Two(m % 60);
    assert s[0] == h[0] && s[1] == h[1] && s[2] == ':' && s[3] == t[0] && s[4] == t[1];
    TwoReadsBack(m / 60);
    TwoReadsBack(m % 60);
    assert s[1..][1..] == s[2..];
    assert ColonAt(s[2..]) == 0 && ColonAt(s[1..]) == 1 && ColonAt(s) == 2;
    assert s[..2] == h && s[3..] == t;
  }

  lemma TwoReadsBack(n: nat)
    requires n < 100
    ensures Number(Two(n), 2) == n && Two(n)[0] != ':' && Two(n)[1] != ':'
  {
    var s := Two(n);
    assert Number(s, 0) == 0;
    assert Number(s, 1) == n / 10;
  }
}
