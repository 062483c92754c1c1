/** What the assembled itinerary says, in the terms of the legs, durations and prices it was made of. */
module ItineraryFacts {
  import opened Util
  import opened Domain
  import opened Routing
  import opened Validate
  import opened Assemble

  // ----------------------------------------------------------------------- time

  function Drive(i: RoutedItem): int { i.leg.minutes }

  /** The time spent at a stop, when it is known. */
  function Spent(i: RoutedItem): int { if i.candidate.duration.Some? then i.candidate.duration.value else 0 }

  lemma {:induction false} ClockAddsUp(items: seq<RoutedItem>, dayStart: nat, n: nat)
    requires n <= |items|
    ensures After(items, dayStart, n) == dayStart + SumOf(items[..n], Drive) + SumOf(items[..n], Spent)
  {
    if n > 0 {
      ClockAddsUp(items, dayStart, n - 1);
      assert items[..n] == items[..n - 1] + [items[n - 1]];
      SumOfAppend(items[..n - 1], [items[n - 1]], Drive);
      SumOfAppend(items[..n - 1], [items[n - 1]], Spent);
      assert [items[n - 1]][1..] == [];
    }
  }

  /** Page by page the itinerary is the plan: the day's number, bed and travel, and its stops in order. */
  lemma PagesShowThePlan(days: seq<RoutedDay>, dayStart: nat, i: nat)
    requires i < |days|
    ensures var pages := Pages(days, dayStart);
      && |pages| == |days| && pages[i].number == days[i].number && pages[i].travel == days[i].travel
      && (pages[i].stay.Some? <==> days[i].stay.Some?)
      && (days[i].stay.Some? ==> pages[i].stay == Some(days[i].stay.value.poiId))
      && |pages[i].items| == |days[i].items|
      && forall k :: 0 <= k < |days[i].items| ==> pages[i].items[k].poiId == days[i].items[k].candidate.poiId
  {
  }

  /** A stop is reached when the day has begun, all legs up to it are driven and the time at all stops before it is
      spent; the page shows that, but nothing past 23:59. */
  lemma StartsAddUp(day: RoutedDay, dayStart: nat, k: nat)
    requires k < |day.items|
    ensures var at := dayStart + SumOf(day.items[..k + 1], Drive) + SumOf(day.items[..k], Spent);
      DayPage(day, dayStart).items[k].start == if at <= 1439 then at else 1439
  {
    ClockAddsUp(day.items, dayStart, k);
    assert day.items[..k + 1] == day.items[..k] + [day.items[k]];
    SumOfAppend(day.items[..k], [day.items[k]], Drive);
    assert [day.items[k]][1..] == [];
  }

  /** A day with stops is late when it is not over by half past seven in the evening. */
  ghost predicate Late(day: RoutedDay, dayStart: nat) {
    day.items != [] && dayStart + SumOf(day.items, Drive) + SumOf(day.items, Spent) > 1170
  }

  lemma LateIs(day: RoutedDay, dayStart: nat)
    ensures EndsLate(day, dayStart) <==> Late(day, dayStart)
  {
    ClockAddsUp(day.items, dayStart, |day.items|);
    assert day.items[..|day.items|] == day.items;
  }

  ghost predicate SomeDay(days: seq<RoutedDay>, number: int, p: RoutedDay -> bool) {
    exists i :: 0 <= i < |days| && days[i].number == number && p(days[i])
  }

  lemma SomeDayAppend(days: seq<RoutedDay>, d: RoutedDay, number: int, p: RoutedDay -> bool)
    ensures SomeDay(days + [d], number, p) <==> SomeDay(days, number, p) || (d.number == number && p(d))
  {
    if i :| 0 <= i < |days| && days[i].number == number && p(days[i]) {
      assert (days + [d])[i] == days[i];
    }
    assert (days + [d])[|days|] == d;
  }

  /** A day is warned of as late exactly when it is, and as a long drive exactly when its travel passes the limit. */
  lemma {:induction false} DaysWarnedOf(days: seq<RoutedDay>, dayStart: nat, maxTravel: nat, number: int)
    ensures Warning(LateFinish, Some(number), {}) in AllDayWarnings(days, dayStart, maxTravel) <==>
      SomeDay(days, number, (d: RoutedDay) => Late(d, dayStart))
    ensures Warning(LongTravelDay, Some(number), {}) in AllDayWarnings(days, dayStart, maxTravel) <==>
      SomeDay(days, number, (d: RoutedDay) => d.travel.minutes > maxTravel)
    ensures forall w :: w in AllDayWarnings(days, dayStart, maxTravel) ==>
      w.code in {LateFinish, LongTravelDay} && w.day.Some? && w.about == {}
  {
    if days != [] {
      var init, d := days[..|days| - 1], days[|days| - 1];
      assert days == init + [d];
      DaysWarnedOf(init, dayStart, maxTravel, number);
      LateIs(d, dayStart);
      SomeDayAppend(init, d, number, (x: RoutedDay) => Late(x, dayStart));
      SomeDayAppend(init, d, number, (x: RoutedDay) => x.travel.minutes > maxTravel);
      hide SomeDay, Late, EndsLate;
    }
  }

  // -------------------------------------------------------------------- warnings

  /** The report holds an advisory of this code for this day. */
  ghost predicate Advised(report: seq<Violation>, code: Code, day: Option<int>) {
    exists v :: v in report && v.severity == Advisory && v.code == code && v.day == day
  }

  lemma AdvisedAppend(report: seq<Violation>, v: Violation, code: Code, day: Option<int>)
    ensures Advised(report + [v], code, day) <==>
      Advised(report, code, day) || (v.severity == Advisory && v.code == code && v.day == day)
  {
    assert forall x :: x in report + [v] <==> x in report || x == v;
  }

  /** A day without a bed, an empty day and a packed day are each warned of exactly when stage 3 advised of them. */
  lemma {:induction false} AdvisedOf(report: seq<Violation>, day: Option<int>)
    ensures Warning(NoStayAvailable, day, {}) in Advisories(report) <==> Advised(report, NoStay, day)
    ensures Warning(ArrivalDay, day, {}) in Advisories(report) <==> Advised(report, EmptyDay, day)
    ensures Warning(PackedDay, day, {}) in Advisories(report) <==> Advised(report, OverTimeBudget, day)
    ensures forall w :: w in Advisories(report) ==>
      w.code in {NoStayAvailable, ArrivalDay, PackedDay, ThinDay} && w.about == {}
  {
    if report != [] {
      var init, v := report[..|report| - 1], report[|report| - 1];
      assert report == init + [v];
      AdvisedOf(init, day);
      AdvisedAppend(init, v, NoStay, day);
      AdvisedAppend(init, v, EmptyDay, day);
      AdvisedAppend(init, v, OverTimeBudget, day);
      hide Advised;
    }
  }

  /** Stop k of day i has this name, is on a day with this number, and needs a permit. */
  ghost predicate PermitAt(days: seq<RoutedDay>, number: int, name: string, facts: FactList, i: int, k: int) {
    && 0 <= i < |days| && days[i].number == number && 0 <= k < |days[i].items|
    && days[i].items[k].candidate.name == name && facts(days[i].items[k].candidate.poiId).permit
  }

  ghost predicate NeedsPermit(days: seq<RoutedDay>, number: int, name: string, facts: FactList) {
    exists i, k :: PermitAt(days, number, name, facts, i, k)
  }

  lemma {:induction false} PermitsNamed(days: seq<RoutedDay>, number: int, name: string, facts: FactList)
    ensures name in PermitNames(days, number, facts) <==> NeedsPermit(days, number, name, facts)
  {
    if days != [] {
      var n := |days| - 1;
      var init, d := days[..n], days[n];
      PermitsNamed(init, number, name, facts);
      forall i, k | i < n
        ensures PermitAt(init, number, name, facts, i, k) <==> PermitAt(days, number, name, facts, i, k)
      {
      }
      if d.number == number && name in DayPermits(d.items, facts) {
        var item :| item in d.items && facts(item.candidate.poiId).permit && item.candidate.name == name;
        var k :| 0 <= k < |d.items| && d.items[k] == item;
        assert PermitAt(days, number, name, facts, n, k);
      }
      if k :| PermitAt(days, number, name, facts, n, k) {
        assert d.items[k] in d.items;
      }
      hide PermitAt, DayPermits;
      if i, k :| PermitAt(init, number, name, facts, i, k) {
        PermitInRange(init, number, name, facts, i, k);
      }
      if i, k :| PermitAt(days, number, name, facts, i, k) {
        PermitInRange(days, number, name, facts, i, k);
      }
    }
  }

  lemma PermitInRange(days: seq<RoutedDay>, number: int, name: string, facts: FactList, i: int, k: int)
    requires PermitAt(days, number, name, facts, i, k)
    ensures i < |days|
  {
  }

  /** A stop or a bed of this name whose data nobody has verified. */
  ghost predicate OnTrust(days: seq<RoutedDay>, name: string, facts: FactList) {
    exists i :: 0 <= i < |days| && DayOnTrust(days[i], name, facts)
  }

  ghost predicate DayOnTrust(d: RoutedDay, name: string, facts: FactList) {
    || (d.stay.Some? && d.stay.value.name == name && !facts(d.stay.value.poiId).verified)
    || exists k ::
         0 <= k < |d.items| && d.items[k].candidate.name == name && !facts(d.items[k].candidate.poiId).verified
  }

  lemma DayTrusts(d: RoutedDay, name: string, facts: FactList)
    ensures name in DayUnverified(d, facts) <==> DayOnTrust(d, name, facts)
  {
    if name in Unverified(d.items, facts) {
      var item :| item in d.items && !facts(item.candidate.poiId).verified && item.candidate.name == name;
      var k :| 0 <= k < |d.items| && d.items[k] == item;
    }
    if k :| 0 <= k < |d.items| && d.items[k].candidate.name == name && !facts(d.items[k].candidate.poiId).verified {
      assert d.items[k] in d.items;
    }
  }

  lemma {:induction false} UnverifiedNamed(days: seq<RoutedDay>, name: string, facts: FactList)
    ensures name in TripUnverified(days, facts) <==> OnTrust(days, name, facts)
  {
    hide DayUnverified, DayOnTrust;
    if days != [] {
      var n := |days| - 1;
      UnverifiedNamed(days[..n], name, facts);
      DayTrusts(days[n], name, facts);
      if i :| 0 <= i < n && DayOnTrust(days[..n][i], name, facts) {
        assert days[i] == days[..n][i];
      }
      if i :| 0 <= i < n && DayOnTrust(days[i], name, facts) {
        assert days[i] == days[..n][i];
      }
    }
  }

  /** The names a warning of this code lists for this day. */
  ghost predicate Lists(ws: seq<Warning>, code: WarningCode, day: Option<int>, name: string) {
    exists w :: w in ws && w.code == code && w.day == day && name in w.about
  }

  lemma PermitListed(ws: seq<Warning>, numbers: seq<int>, days: seq<RoutedDay>, facts: FactList, number: int,
                     name: string)
    requires ws == PermitWarnings(numbers, days, facts)
    requires forall n :: n in numbers <==> PermitNames(days, n, facts) != {}
    ensures Lists(ws, PermitRequired, Some(number), name) <==> name in PermitNames(days, number, facts)
    ensures forall w :: w in ws ==> w.code == PermitRequired
  {
    hide PermitNames;
    if name in PermitNames(days, number, facts) {
      var i :| 0 <= i < |numbers| && numbers[i] == number;
      assert ws[i] in ws && ws[i].about == PermitNames(days, number, facts);
    }
  }

  /** The whole list of warnings, code by code: each is there exactly when the plan, the report or the brief gives
      cause, and names just what does. */
  lemma WarningsHaveCause(ws: seq<Warning>, plan: RoutedPlan, dayStart: nat, maxTravel: nat, facts: FactList,
                          report: seq<Violation>, unmet: seq<string>, deterministic: bool, n: int, name: string)
    requires IsWarnings(ws, plan, dayStart, maxTravel, facts, report, unmet, deterministic)
    ensures Warning(LateFinish, Some(n), {}) in ws <==> SomeDay(plan.days, n, (d: RoutedDay) => Late(d, dayStart))
    ensures Warning(LongTravelDay, Some(n), {}) in ws <==>
      SomeDay(plan.days, n, (d: RoutedDay) => d.travel.minutes > maxTravel)
    ensures Warning(NoStayAvailable, Some(n), {}) in ws <==> Advised(report, NoStay, Some(n))
    ensures Warning(ArrivalDay, Some(n), {}) in ws <==> Advised(report, EmptyDay, Some(n))
    ensures Warning(PackedDay, Some(n), {}) in ws <==> Advised(report, OverTimeBudget, Some(n))
    ensures Lists(ws, InterestUnmet, None, name) <==> name in unmet
    ensures Lists(ws, PermitRequired, Some(n), name) <==> NeedsPermit(plan.days, n, name, facts)
    ensures Lists(ws, UnverifiedData, None, name) <==> OnTrust(plan.days, name, facts)
    ensures Warning(FallbackComposer, None, {}) in ws <==> deterministic
  {
    var numbers :| Ascending(numbers) && (forall n :: n in numbers <==> PermitNames(plan.days, n, facts) != {})
      && ws == AllDayWarnings(plan.days, dayStart, maxTravel) + Advisories(report) + TripWarnings(unmet)
               + PermitWarnings(numbers, plan.days, facts) + Closing(TripUnverified(plan.days, facts), deterministic);
    hide *;
    var d := PermitWarnings(numbers, plan.days, facts);
    DaysWarnedOf(plan.days, dayStart, maxTravel, n);
    AdvisedOf(report, Some(n));
    UnmetListed(unmet, name);
    PermitListed(d, numbers, plan.days, facts, n, name);
    PermitsNamed(plan.days, n, name, facts);
    ClosingLists(TripUnverified(plan.days, facts), deterministic, name);
    UnverifiedNamed(plan.days, name, facts);
    Sections(AllDayWarnings(plan.days, dayStart, maxTravel), Advisories(report), TripWarnings(unmet), d,
             Closing(TripUnverified(plan.days, facts), deterministic), n, name);
  }

  /** The codes tell the sections of the list apart. */
  lemma Sections(a: seq<Warning>, b: seq<Warning>, c: seq<Warning>, d: seq<Warning>, e: seq<Warning>, n: int,
                 name: string)
    requires forall w :: w in a ==> w.code in {LateFinish, LongTravelDay}
    requires forall w :: w in b ==> w.code in {NoStayAvailable, ArrivalDay, PackedDay, ThinDay}
    requires forall w :: w in c ==> w.code == InterestUnmet
    requires forall w :: w in d ==> w.code == PermitRequired
    requires forall w :: w in e ==> w.code in {UnverifiedData, FallbackComposer}
    ensures var ws := a + b + c + d + e;
      && (forall code :: code in {LateFinish, LongTravelDay} ==>
            (Warning(code, Some(n), {}) in ws <==> Warning(code, Some(n), {}) in a))
      && (forall code :: code in {NoStayAvailable, ArrivalDay, PackedDay} ==>
            (Warning(code, Some(n), {}) in ws <==> Warning(code, Some(n), {}) in b))
      && (Lists(ws, InterestUnmet, None, name) <==> Lists(c, InterestUnmet, None, name))
      && (Lists(ws, PermitRequired, Some(n), name) <==> Lists(d, PermitRequired, Some(n), name))
      && (Lists(ws, UnverifiedData, None, name) <==> Lists(e, UnverifiedData, None, name))
      && (Warning(FallbackComposer, None, {}) in ws <==> Warning(FallbackComposer, None, {}) in e)
  {
    var ws := a + b + c + d + e;
    assert forall w :: w in ws <==> w in a || w in b || w in c || w in d || w in e;
  }

  lemma UnmetListed(unmet: seq<string>, name: string)
    ensures Lists(TripWarnings(unmet), InterestUnmet, None, name) <==> name in unmet
    ensures forall w :: w in TripWarnings(unmet) ==> w.code == InterestUnmet
  {
    if name in unmet {
      assert TripWarnings(unmet)[0] in TripWarnings(unmet);
    }
  }

  lemma ClosingLists(unverified: set<string>, deterministic: bool, name: string)
    ensures var ws := Closing(unverified, deterministic);
      && (Lists(ws, UnverifiedData, None, name) <==> name in unverified)
      && (Warning(FallbackComposer, None, {}) in ws <==> deterministic)
      && (forall w :: w in ws ==> w.code in {UnverifiedData, FallbackComposer})
  {
    if name in unverified {
      assert Warning(UnverifiedData, None, unverified) in Closing(unverified, deterministic);
    }
  }

  // ----------------------------------------------------------------------- money

  /** A stop more costs what its row says, for each of the party; where the row gives one end of a range only, that
      end is both; where it gives none, nothing. */
  lemma StopCostsPerHead(items: seq<RoutedItem>, item: RoutedItem, prices: PriceList, party: nat)
    ensures var p := prices(item.candidate.poiId);
      var low := if p.costMin.Some? then p.costMin.value else if p.costMax.Some? then p.costMax.value else 0;
      var high := if p.costMax.Some? then p.costMax.value else if p.costMin.Some? then p.costMin.value else 0;
      && ItemsLow(items + [item], prices, party) == ItemsLow(items, prices, party) + low * party
      && ItemsHigh(items + [item], prices, party) == ItemsHigh(items, prices, party) + high * party
  {
    assert (items + [item])[..|items|] == items;
  }

  /** The rooms a party takes: no more than needed at so many to a room, two where the row does not say. */
  ghost predicate RoomsFor(rooms: nat, p: Prices, party: nat) {
    var each := if p.occupancy == None || p.occupancy == Some(0) then 2 else p.occupancy.value;
    && rooms >= 1 && rooms * each >= party
    && forall fewer: nat :: 1 <= fewer < rooms ==> fewer * each < party
  }

  /** A night in a stay costs its rate for each room; the rate's ends are as on the card. */
  lemma NightCostsPerRoom(stay: Candidate, prices: PriceList, party: nat) returns (rooms: nat)
    ensures RoomsFor(rooms, prices(stay.poiId), party)
    ensures var p := prices(stay.poiId);
      p.nightMin.Some? || p.nightMax.Some? ==>
        && PerNight(p).Some?
        && NightLow(Some(stay), prices, party) == PerNight(p).value.low * rooms
        && NightHigh(Some(stay), prices, party) == PerNight(p).value.high * rooms
    ensures var p := prices(stay.poiId);
      p.nightMin.None? && p.nightMax.None? ==>
        NightLow(Some(stay), prices, party) == 0 == NightHigh(Some(stay), prices, party)
    ensures NightLow(None, prices, party) == 0 == NightHigh(None, prices, party)
  {
    var p := prices(stay.poiId);
    rooms := Rooms(p, party);
    RoomsIsLeast(p, party);
  }

  /** A rate of which one end is missing is that of the other end. */
  lemma OneEndIsBoth(p: Prices)
    ensures p.nightMin.Some? && p.nightMax.None? ==> PerNight(p) == Some(Money(p.nightMin.value, p.nightMin.value))
    ensures p.nightMin.None? && p.nightMax.Some? ==> PerNight(p) == Some(Money(p.nightMax.value, p.nightMax.value))
  {
  }

  /** One day more costs its stops and its night. */
  lemma DayAddsItsCost(days: seq<RoutedDay>, d: RoutedDay, prices: PriceList, party: nat)
    ensures TripLow(days + [d], prices, party)
      == TripLow(days, prices, party) + ItemsLow(d.items, prices, party) + NightLow(d.stay, prices, party)
    ensures TripHigh(days + [d], prices, party)
      == TripHigh(days, prices, party) + ItemsHigh(d.items, prices, party) + NightHigh(d.stay, prices, party)
  {
    assert (days + [d])[..|days|] == days;
  }
}
