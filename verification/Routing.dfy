/** Stage 4, api/src/tripplan/engine/routing.py: the order of stops, the legs between them,
    and the memo table behind the legs. */
module Routing {
  import opened Util
  import opened Domain
  import opened TravelStore
  import Tour

  type Provider = (GeoPoint, GeoPoint) -> TravelLeg

  /** A computed POI-to-POI leg awaiting persistence. */
  datatype Computed = Computed(from: PoiId, to: PoiId, leg: TravelLeg)

  /** Somewhere the traveller is: the origin has no POI id. */
  datatype Waypoint = Waypoint(point: GeoPoint, poi: Option<PoiId>)

  /** The leg of a hop, as a function of the cache as loaded and of the provider. */
  function Hop(loaded: map<Pair, TravelLeg>, provider: Provider, a: Waypoint, b: Waypoint): TravelLeg {
    if a.poi.Some? && b.poi.Some? && (a.poi.value, b.poi.value) in loaded then loaded[(a.poi.value, b.poi.value)]
    else provider(a.point, b.point)
  }

  // ------------------------------------------------------------------ the resolver

  class LegResolver {
    const provider: Provider
    var cached: map<Pair, TravelLeg>
    var computed: seq<Computed>

    constructor (provider: Provider, loaded: map<Pair, TravelLeg>)
      ensures this.provider == provider && cached == loaded && computed == []
    {
      this.provider := provider;
      cached := loaded;
      computed := [];
    }

    /** The cache is what was loaded plus what was computed since; no pair is computed twice or
        when it was loaded, no self-pair at all, and each is what the provider says of the places. */
    ghost predicate Coherent(loaded: map<Pair, TravelLeg>, places: map<PoiId, GeoPoint>)
      reads this
    {
      && IsExtension(cached, loaded, computed)
      && (forall c :: c in computed ==>
           c.from in places && c.to in places && c.leg == provider(places[c.from], places[c.to]))
    }

    /** A cache hit or a fresh measurement: either way the leg depends on the hop alone. */
    method Between(a: Waypoint, b: Waypoint, ghost loaded: map<Pair, TravelLeg>, ghost places: map<PoiId, GeoPoint>)
      returns (leg: TravelLeg)
      requires Coherent(loaded, places)
      requires a.poi.Some? ==> a.poi.value in places && places[a.poi.value] == a.point
      requires b.poi.Some? ==> b.poi.value in places && places[b.poi.value] == b.point
      modifies this`cached, this`computed
      ensures Coherent(loaded, places)
      ensures leg == Hop(loaded, provider, a, b)
      ensures if a.poi.Some? && b.poi.Some? && a.poi != b.poi && (a.poi.value, b.poi.value) !in old(cached)
        then computed == old(computed) + [Computed(a.poi.value, b.poi.value, leg)]
        else computed == old(computed) && cached == old(cached)
    {
      if a.poi.Some? && b.poi.Some? && (a.poi.value, b.poi.value) in cached {
        leg := cached[(a.poi.value, b.poi.value)];
        ExtensionHit(cached, loaded, computed, (a.poi.value, b.poi.value));
        return;
      }
      leg := provider(a.point, b.point);
      if a.poi.Some? && b.poi.Some? && a.poi.value != b.poi.value {
        ExtensionGrows(cached, loaded, computed, Computed(a.poi.value, b.poi.value, leg));
        computed := computed + [Computed(a.poi.value, b.poi.value, leg)];
        cached := cached[(a.poi.value, b.poi.value) := leg];
      }
    }
  }

  ghost predicate IsExtension(cached: map<Pair, TravelLeg>, loaded: map<Pair, TravelLeg>, computed: seq<Computed>) {
    && (forall p :: p in loaded ==> p in cached && cached[p] == loaded[p])
    && (forall p :: p in cached && p !in loaded ==> Computed(p.0, p.1, cached[p]) in computed)
    && (forall i :: 0 <= i < |computed| ==>
          computed[i].from != computed[i].to && (computed[i].from, computed[i].to) !in loaded)
    && (forall i :: 0 <= i < |computed| ==>
          (computed[i].from, computed[i].to) in cached && cached[(computed[i].from, computed[i].to)] == computed[i].leg)
    && (forall i, j :: 0 <= i < j < |computed| ==>
          computed[i].from != computed[j].from || computed[i].to != computed[j].to)
  }

  lemma ExtensionHit(cached: map<Pair, TravelLeg>, loaded: map<Pair, TravelLeg>, computed: seq<Computed>, p: Pair)
    requires IsExtension(cached, loaded, computed) && p in cached
    ensures if p in loaded then cached[p] == loaded[p] else Computed(p.0, p.1, cached[p]) in computed
  {
  }

  lemma ExtensionGrows(cached: map<Pair, TravelLeg>, loaded: map<Pair, TravelLeg>, computed: seq<Computed>, c: Computed)
    requires IsExtension(cached, loaded, computed) && c.from != c.to && (c.from, c.to) !in cached
    ensures IsExtension(cached[(c.from, c.to) := c.leg], loaded, computed + [c])
  {
    assert forall x :: x in computed ==> x in computed + [c];
  }

  // ------------------------------------------------------------- what a route is

  datatype RoutedItem = RoutedItem(candidate: Candidate, leg: TravelLeg)

  datatype RoutedDay = RoutedDay(number: int, stay: Option<Candidate>, items: seq<RoutedItem>, travel: TravelLeg)

  datatype RoutedPlan = RoutedPlan(
    days: seq<RoutedDay>, returnLeg: Option<TravelLeg>, returnFrom: Option<Candidate>,
    totalDistance: nat, totalMinutes: nat)

  function PointOf(c: Candidate): GeoPoint { c.point }

  function At(c: Candidate): Waypoint { Waypoint(c.point, Some(c.poiId)) }

  function Ways(cs: seq<Candidate>): seq<Waypoint> { seq(|cs|, i requires 0 <= i < |cs| => At(cs[i])) }

  function EarlierDay(a: DraftDay, b: DraftDay): bool { a.number < b.number }

  function Resolved(refs: seq<string>, byRef: map<string, Candidate>): seq<Candidate> {
    if refs == [] then []
    else
      var n := |refs| - 1;
      Resolved(refs[..n], byRef) + (if refs[n] in byRef then [byRef[refs[n]]] else [])
  }

  function StayOf(day: DraftDay, byRef: map<string, Candidate>): Option<Candidate> {
    if day.HasBed() && day.stayRef.value in byRef then Some(byRef[day.stayRef.value]) else None
  }

  /** Where a day's walk goes: the stops in visiting order, then the bed. */
  function Walk(ordered: seq<Candidate>, stay: Option<Candidate>): seq<Candidate> {
    if stay.Some? then ordered + [stay.value] else ordered
  }

  function Last(from: Waypoint, walk: seq<Candidate>): Waypoint {
    if walk == [] then from else At(walk[|walk| - 1])
  }

  /** Consecutive legs of a walk. Each starts where the one before ended. */
  function Legs(loaded: map<Pair, TravelLeg>, provider: Provider, from: Waypoint,
                stops: seq<Waypoint>): (r: seq<TravelLeg>)
    ensures |r| == |stops|
    decreases |stops|
  {
    if stops == [] then []
    else [Hop(loaded, provider, from, stops[0])] + Legs(loaded, provider, stops[0], stops[1..])
  }

  function Minutes(legs: seq<TravelLeg>): nat { if legs == [] then 0 else legs[0].minutes + Minutes(legs[1..]) }

  function Distance(legs: seq<TravelLeg>): nat { if legs == [] then 0 else legs[0].distance + Distance(legs[1..]) }

  function Sources(legs: seq<TravelLeg>): set<TravelSource> { set l | l in legs :: l.source }

  /** The least trustworthy source present; the placeholder when there is none. */
  function Weakest(sources: set<TravelSource>): (w: TravelSource)
    ensures sources != {} ==> w in sources
    ensures forall s :: s in sources ==> Rank(s) <= Rank(w)
    ensures sources == {} ==> w == StaticHaversine
  {
    if sources == {} || StaticHaversine in sources then StaticHaversine
    else if Osrm in sources then Osrm
    else
      assert forall s :: s in sources ==> s == MapsApi;
      MapsApi
  }

  /** Everything a day's route depends on besides the day and where it starts. */
  datatype Context = Context(
    loaded: map<Pair, TravelLeg>, provider: Provider, dist: Metric, byRef: map<string, Candidate>) {
    function LegsOf(from: Waypoint, walk: seq<Candidate>): seq<TravelLeg> { Legs(loaded, provider, from, Ways(walk)) }

    /** The day's stops, nearest first from where the day starts. */
    function Ordered(day: DraftDay, from: Waypoint): seq<Candidate> {
      Tour.From(Resolved(day.items, byRef), from.point, PointOf, dist)
    }

    function DayWalk(day: DraftDay, from: Waypoint): seq<Candidate> { Walk(Ordered(day, from), StayOf(day, byRef)) }

    function Day(day: DraftDay, from: Waypoint): RoutedDay {
      var ordered, stay := Ordered(day, from), StayOf(day, byRef);
      var legs := LegsOf(from, Walk(ordered, stay));
      RoutedDay(day.number, stay, Items(ordered, legs),
        TravelLeg(Distance(legs), Minutes(legs), Weakest(Sources(legs))))
    }

    /** The days in order, each starting where the one before ended. */
    function Days(days: seq<DraftDay>, from: Waypoint): (r: seq<RoutedDay>)
      ensures |r| == |days|
      decreases |days|
    {
      if days == [] then []
      else [Day(days[0], from)] + Days(days[1..], Last(from, DayWalk(days[0], from)))
    }

    function TripWalk(days: seq<DraftDay>, from: Waypoint): seq<Candidate>
      decreases |days|
    {
      if days == [] then []
      else DayWalk(days[0], from) + TripWalk(days[1..], Last(from, DayWalk(days[0], from)))
    }
  }

  function Items(ordered: seq<Candidate>, legs: seq<TravelLeg>): (r: seq<RoutedItem>)
    requires |legs| >= |ordered|
    ensures |r| == |ordered|
  {
    seq(|ordered|, i requires 0 <= i < |ordered| => RoutedItem(ordered[i], legs[i]))
  }

  function SumMinutes(days: seq<RoutedDay>): nat {
    if days == [] then 0 else days[0].travel.minutes + SumMinutes(days[1..])
  }

  function SumDistance(days: seq<RoutedDay>): nat {
    if days == [] then 0 else days[0].travel.distance + SumDistance(days[1..])
  }

  function Planned(ctx: Context, draft: Draft, origin: GeoPoint): RoutedPlan {
    var start := Waypoint(origin, None);
    var days := StableSort(draft.days, EarlierDay);
    var routed, walk := ctx.Days(days, start), ctx.TripWalk(days, start);
    if walk == [] then RoutedPlan(routed, None, None, SumDistance(routed), SumMinutes(routed))
    else
      var home := ctx.provider(walk[|walk| - 1].point, origin);
      RoutedPlan(routed, Some(home), Some(walk[|walk| - 1]),
                 SumDistance(routed) + home.distance, SumMinutes(routed) + home.minutes)
  }

  // ------------------------------------------------------------------ the loops

  lemma LegsAppend(loaded: map<Pair, TravelLeg>, provider: Provider, from: Waypoint, a: seq<Waypoint>, b: seq<Waypoint>)
    ensures Legs(loaded, provider, from, a + b)
         == Legs(loaded, provider, from, a) + Legs(loaded, provider, if a == [] then from else a[|a| - 1], b)
    decreases |a|
  {
    if a == [] {
      assert a + b == b;
    } else {
      assert (a + b)[1..] == a[1..] + b;
      LegsAppend(loaded, provider, a[0], a[1..], b);
    }
  }

  lemma LegsStep(ctx: Context, from: Waypoint, walk: seq<Candidate>, c: Candidate)
    ensures ctx.LegsOf(from, walk + [c]) == ctx.LegsOf(from, walk)
      + [Hop(ctx.loaded, ctx.provider, Last(from, walk), At(c))]
  {
    assert Ways(walk + [c]) == Ways(walk) + [At(c)];
    LegsAppend(ctx.loaded, ctx.provider, from, Ways(walk), [At(c)]);
    assert Legs(ctx.loaded, ctx.provider, Last(from, walk), [At(c)]) ==
      [Hop(ctx.loaded, ctx.provider, Last(from, walk), At(c))];
  }

  lemma SumsAppend(legs: seq<TravelLeg>, more: seq<TravelLeg>)
    ensures Minutes(legs + more) == Minutes(legs) + Minutes(more)
    ensures Distance(legs + more) == Distance(legs) + Distance(more)
    ensures Sources(legs + more) == Sources(legs) + Sources(more)
  {
    if legs == [] {
      assert legs + more == more;
    } else {
      assert (legs + more)[1..] == legs[1..] + more;
      SumsAppend(legs[1..], more);
      assert forall l :: l in legs + more <==> l in legs || l in more;
    }
  }

  method ResolveItems(day: DraftDay, byRef: map<string, Candidate>) returns (items: seq<Candidate>)
    ensures items == Resolved(day.items, byRef)
  {
    items := [];
    for i := 0 to |day.items|
      invariant items == Resolved(day.items[..i], byRef)
    {
      var ref := day.items[i];
      assert day.items[..i + 1][..i] == day.items[..i];
      if ref in byRef {
        items := items + [byRef[ref]];
      }
    }
    assert day.items[..|day.items|] == day.items;
  }

  /** The map knows every candidate's place, and knows it under the candidate's id. */
  ghost predicate Places(byRef: map<string, Candidate>, places: map<PoiId, GeoPoint>) {
    forall r :: r in byRef ==> byRef[r].poiId in places && places[byRef[r].poiId] == byRef[r].point
  }

  ghost predicate Placed(w: Waypoint, places: map<PoiId, GeoPoint>) {
    w.poi.Some? ==> w.poi.value in places && places[w.poi.value] == w.point
  }

  /** The inner loop: the walk measured leg by leg, with the day's totals and sources. */
  method Measure(ghost ctx: Context, from: Waypoint, walk: seq<Candidate>, resolver: LegResolver,
                 ghost places: map<PoiId, GeoPoint>)
    returns (legs: seq<TravelLeg>, km: nat, minutes: nat, sources: set<TravelSource>)
    requires resolver.Coherent(ctx.loaded, places) && resolver.provider == ctx.provider && Placed(from, places)
    requires forall c :: c in walk ==> c.poiId in places && places[c.poiId] == c.point
    modifies resolver`cached, resolver`computed
    ensures resolver.Coherent(ctx.loaded, places)
    ensures legs == ctx.LegsOf(from, walk)
    ensures km == Distance(legs) && minutes == Minutes(legs) && sources == Sources(legs)
  {
    legs, km, minutes, sources := [], 0, 0, {};
    var cursor := from;
    for i := 0 to |walk|
      invariant resolver.Coherent(ctx.loaded, places)
      invariant Placed(cursor, places) && cursor == Last(from, walk[..i])
      invariant legs == ctx.LegsOf(from, walk[..i])
      invariant km == Distance(legs) && minutes == Minutes(legs) && sources == Sources(legs)
    {
      var leg := resolver.Between(cursor, At(walk[i]), ctx.loaded, places);
      LegsStep(ctx, from, walk[..i], walk[i]);
      assert walk[..i + 1] == walk[..i] + [walk[i]];
      OneLeg(legs, leg);
      legs := legs + [leg];
      km, minutes, sources := km + leg.distance, minutes + leg.minutes, sources + {leg.source};
      cursor := At(walk[i]);
    }
    assert walk[..|walk|] == walk;
  }

  lemma OneLeg(legs: seq<TravelLeg>, leg: TravelLeg)
    ensures Distance(legs + [leg]) == Distance(legs) + leg.distance
    ensures Minutes(legs + [leg]) == Minutes(legs) + leg.minutes
    ensures Sources(legs + [leg]) == Sources(legs) + {leg.source}
  {
    SumsAppend(legs, [leg]);
    assert [leg][1..] == [];
  }

  lemma WalkPlaced(ctx: Context, day: DraftDay, from: Waypoint, places: map<PoiId, GeoPoint>)
    requires Places(ctx.byRef, places)
    ensures forall c :: c in ctx.DayWalk(day, from) ==> c.poiId in places && places[c.poiId] == c.point
  {
    var items := Resolved(day.items, ctx.byRef);
    ResolvedKnown(day.items, ctx.byRef);
    Tour.FromPermutes(items, from.point, PointOf, ctx.dist);
    PermutationFacts(items, ctx.Ordered(day, from));
  }

  lemma ResolvedKnown(refs: seq<string>, byRef: map<string, Candidate>)
    ensures forall c :: c in Resolved(refs, byRef) ==> exists r :: r in byRef && byRef[r] == c
  {
    if refs != [] {
      ResolvedKnown(refs[..|refs| - 1], byRef);
    }
  }

  /** When every ref is known, as stage 3 guarantees, routing drops no item. */
  lemma {:induction false} KnownItemsAllResolve(refs: seq<string>, byRef: map<string, Candidate>)
    requires forall r :: r in refs ==> r in byRef
    ensures |Resolved(refs, byRef)| == |refs|
    ensures forall k :: 0 <= k < |refs| ==> Resolved(refs, byRef)[k] == byRef[refs[k]]
  {
    if refs != [] {
      var n := |refs| - 1;
      assert refs[n] in refs;
      KnownItemsAllResolve(refs[..n], byRef);
      assert forall k :: 0 <= k < n ==> refs[..n][k] == refs[k];
    }
  }

  method RouteDay(ghost ctx: Context, byRef: map<string, Candidate>, dist: Metric, day: DraftDay, from: Waypoint,
                  resolver: LegResolver, ghost places: map<PoiId, GeoPoint>)
    returns (routed: RoutedDay, walk: seq<Candidate>)
    requires ctx.byRef == byRef && ctx.dist == dist && ctx.provider == resolver.provider
    requires resolver.Coherent(ctx.loaded, places) && Places(byRef, places) && Placed(from, places)
    modifies resolver`cached, resolver`computed
    ensures resolver.Coherent(ctx.loaded, places)
    ensures routed == ctx.Day(day, from) && walk == ctx.DayWalk(day, from)
    ensures Placed(Last(from, walk), places)
  {
    hide Tour.From, Tour.IsGreedy, IsExtension;
    WalkPlaced(ctx, day, from, places);
    var items := ResolveItems(day, byRef);
    var stay := StayOf(day, byRef);
    var ordered := Tour.Greedy(items, from.point, PointOf, dist);
    walk := Walk(ordered, stay);
    var legs, km, minutes, sources := Measure(ctx, from, walk, resolver, places);
    routed := RoutedDay(day.number, stay, Items(ordered, legs), TravelLeg(km, minutes, Weakest(sources)));
  }

  lemma UnfoldTrip(ctx: Context, rest: seq<DraftDay>, from: Waypoint)
    requires rest != []
    ensures var walk := ctx.DayWalk(rest[0], from);
      && ctx.Days(rest, from) == [ctx.Day(rest[0], from)] + ctx.Days(rest[1..], Last(from, walk))
      && ctx.TripWalk(rest, from) == walk + ctx.TripWalk(rest[1..], Last(from, walk))
  {
    hide Context.Day, Context.DayWalk;
  }

  lemma Shift<T>(whole: seq<T>, a: seq<T>, b: seq<T>, c: seq<T>)
    requires whole == a + (b + c)
    ensures whole == (a + b) + c
  {
  }

  /** The outer loop: day after day from wherever the traveller wakes up. */
  method RouteDays(ghost ctx: Context, byRef: map<string, Candidate>, dist: Metric, days: seq<DraftDay>,
                   start: Waypoint, resolver: LegResolver, ghost places: map<PoiId, GeoPoint>)
    returns (routed: seq<RoutedDay>, last: Option<Candidate>, km: nat, minutes: nat)
    requires ctx.byRef == byRef && ctx.dist == dist && ctx.provider == resolver.provider
    requires resolver.Coherent(ctx.loaded, places) && Places(byRef, places) && Placed(start, places)
    modifies resolver`cached, resolver`computed
    ensures resolver.Coherent(ctx.loaded, places)
    ensures routed == ctx.Days(days, start) && km == SumDistance(routed) && minutes == SumMinutes(routed)
    ensures var walk := ctx.TripWalk(days, start); last == if walk == [] then None else Some(walk[|walk| - 1])
  {
    hide Context.Day, Context.DayWalk, Context.Days, Context.TripWalk, Places, Placed, LegResolver.Coherent;
    var rest, cursor := days, start;
    routed, last, km, minutes := [], None, 0, 0;
    ghost var walk: seq<Candidate> := [];
    while rest != []
      invariant resolver.Coherent(ctx.loaded, places) && Placed(cursor, places)
      invariant cursor == Last(start, walk)
      invariant last == if walk == [] then None else Some(walk[|walk| - 1])
      invariant ctx.Days(days, start) == routed + ctx.Days(rest, cursor)
      invariant ctx.TripWalk(days, start) == walk + ctx.TripWalk(rest, cursor)
      invariant km == SumDistance(routed) && minutes == SumMinutes(routed)
      decreases |rest|
    {
      UnfoldTrip(ctx, rest, cursor);
      var day, stops := RouteDay(ctx, byRef, dist, rest[0], cursor, resolver, places);
      Shift(ctx.Days(days, start), routed, [day], ctx.Days(rest[1..], Last(cursor, stops)));
      Shift(ctx.TripWalk(days, start), walk, stops, ctx.TripWalk(rest[1..], Last(cursor, stops)));
      OneDay(routed, day);
      rest := rest[1..];
      routed := routed + [day];
      walk := walk + stops;
      km, minutes := km + day.travel.distance, minutes + day.travel.minutes;
      if stops != [] {
        last := Some(stops[|stops| - 1]);
      }
      cursor := Last(cursor, stops);
    }
    NothingLeft(ctx, cursor);
  }

  lemma NothingLeft(ctx: Context, from: Waypoint)
    ensures ctx.Days([], from) == [] && ctx.TripWalk([], from) == []
  {
  }

  method Route(draft: Draft, cs: CandidateSet, origin: GeoPoint, dist: Metric, resolver: LegResolver,
               ghost ctx: Context, ghost places: map<PoiId, GeoPoint>)
    returns (plan: RoutedPlan)
    requires ctx.byRef == cs.ByRef() && ctx.dist == dist && ctx.provider == resolver.provider
    requires resolver.Coherent(ctx.loaded, places) && Places(cs.ByRef(), places)
    modifies resolver`cached, resolver`computed
    ensures resolver.Coherent(ctx.loaded, places)
    ensures plan == Planned(ctx, draft, origin)
  {
    hide LegResolver.Coherent, StableSort, Context.Days, Context.TripWalk, CandidateSet.ByRef, Places;
    var start := Waypoint(origin, None);
    var days := StableSort(draft.days, EarlierDay);
    var routed, last, km, minutes := RouteDays(ctx, cs.ByRef(), dist, days, start, resolver, places);
    if last.None? {
      return RoutedPlan(routed, None, None, km, minutes);
    }
    // the run home is measured from the point alone, so it is never cached
    var home := resolver.Between(Waypoint(last.value.point, None), start, ctx.loaded, places);
    return RoutedPlan(routed, Some(home), last, km + home.distance, minutes + home.minutes);
  }

  lemma OneDay(days: seq<RoutedDay>, day: RoutedDay)
    ensures SumDistance(days + [day]) == SumDistance(days) + day.travel.distance
    ensures SumMinutes(days + [day]) == SumMinutes(days) + day.travel.minutes
  {
    if days == [] {
      assert days + [day] == [day];
    } else {
      assert (days + [day])[1..] == days[1..] + [day];
      OneDay(days[1..], day);
    }
  }

  // ------------------------------------------------------------ what it guarantees

  /** A routed day holds exactly the draft day's resolvable items, each stop the nearest of those
      still to come, and is labelled with the worst source among all its legs. */
  lemma DayConservesAndOrders(ctx: Context, day: DraftDay, from: Waypoint)
    ensures var r := ctx.Day(day, from);
      var stops := seq(|r.items|, i requires 0 <= i < |r.items| => r.items[i].candidate);
      var legs := ctx.LegsOf(from, ctx.DayWalk(day, from));
      && multiset(stops) == multiset(Resolved(day.items, ctx.byRef))
      && Tour.IsGreedy(stops, from.point, PointOf, ctx.dist)
      && (forall i :: 0 <= i < |r.items| ==> r.items[i].leg == legs[i])
      && (forall l :: l in legs ==> Rank(l.source) <= Rank(r.travel.source))
      && (legs != [] ==> exists l :: l in legs && l.source == r.travel.source)
      && (legs == [] ==> r.travel == TravelLeg(0, 0, StaticHaversine))
  {
    hide Tour.From, Tour.IsGreedy, Resolved;
    var r := ctx.Day(day, from);
    var legs := ctx.LegsOf(from, ctx.DayWalk(day, from));
    Tour.FromPermutes(Resolved(day.items, ctx.byRef), from.point, PointOf, ctx.dist);
    Tour.FromIsGreedy(Resolved(day.items, ctx.byRef), from.point, PointOf, ctx.dist);
    assert seq(|r.items|, i requires 0 <= i < |r.items| => r.items[i].candidate) == ctx.Ordered(day, from);
    forall l | l in legs ensures Rank(l.source) <= Rank(r.travel.source) {
      assert l.source in Sources(legs);
    }
    if legs != [] {
      assert legs[0].source in Sources(legs);
    }
  }

  lemma {:induction false} DaysSumToWalk(ctx: Context, days: seq<DraftDay>, from: Waypoint)
    ensures SumMinutes(ctx.Days(days, from)) == Minutes(ctx.LegsOf(from, ctx.TripWalk(days, from)))
    ensures SumDistance(ctx.Days(days, from)) == Distance(ctx.LegsOf(from, ctx.TripWalk(days, from)))
    decreases |days|
  {
    if days == [] {
      assert Ways([]) == [];
    } else {
      var stops := ctx.DayWalk(days[0], from);
      var next := Last(from, stops);
      var more := ctx.TripWalk(days[1..], next);
      DaysSumToWalk(ctx, days[1..], next);
      UnfoldTrip(ctx, days, from);
      DaySums(ctx, days[0], from);
      hide Context.Day, Context.DayWalk, Context.Days, Context.TripWalk;
      WalkAppend(ctx, from, stops, more);
    }
  }

  lemma WaysAppend(a: seq<Candidate>, b: seq<Candidate>)
    ensures Ways(a + b) == Ways(a) + Ways(b)
    ensures |Ways(a)| == |a| && (a != [] ==> Ways(a)[|a| - 1] == At(a[|a| - 1]))
  {
  }

  lemma WalkAppend(ctx: Context, from: Waypoint, a: seq<Candidate>, b: seq<Candidate>)
    ensures Minutes(ctx.LegsOf(from, a + b)) == Minutes(ctx.LegsOf(from, a)) + Minutes(ctx.LegsOf(Last(from, a), b))
    ensures Distance(ctx.LegsOf(from, a + b)) == Distance(ctx.LegsOf(from, a)) + Distance(ctx.LegsOf(Last(from, a), b))
  {
    WaysAppend(a, b);
    hide Ways, Hop, Legs, Minutes, Distance, Sources;
    LegsAppend(ctx.loaded, ctx.provider, from, Ways(a), Ways(b));
    SumsAppend(ctx.LegsOf(from, a), ctx.LegsOf(Last(from, a), b));
  }

  lemma DaySums(ctx: Context, day: DraftDay, from: Waypoint)
    ensures ctx.Day(day, from).travel.minutes == Minutes(ctx.LegsOf(from, ctx.DayWalk(day, from)))
    ensures ctx.Day(day, from).travel.distance == Distance(ctx.LegsOf(from, ctx.DayWalk(day, from)))
  {
  }

  /** The plan is one closed walk: origin, every day's stops and beds in order, and home again.
      Its totals are those of that walk, and there is a way home exactly when there was a stop. */
  lemma PlanIsClosedWalk(ctx: Context, draft: Draft, origin: GeoPoint)
    ensures var plan, start := Planned(ctx, draft, origin), Waypoint(origin, None);
      var walk := ctx.TripWalk(StableSort(draft.days, EarlierDay), start);
      var round := if walk == [] then [] else Ways(walk) + [start];
      && plan.totalMinutes == Minutes(Legs(ctx.loaded, ctx.provider, start, round))
      && plan.totalDistance == Distance(Legs(ctx.loaded, ctx.provider, start, round))
      && (plan.returnLeg.None? <==> walk == [])
      && |plan.days| == |draft.days|
      && (forall i, j :: 0 <= i < j < |plan.days| ==> plan.days[i].number <= plan.days[j].number)
  {
    var start := Waypoint(origin, None);
    var days := StableSort(draft.days, EarlierDay);
    hide StableSort, Context.Days, Context.TripWalk, Hop;
    PermutationFacts(days, draft.days);
    DaysAscend(draft);
    DayNumbers(ctx, days, start);
    DaysSumToWalk(ctx, days, start);
    var walk := ctx.TripWalk(days, start);
    if walk == [] {
      assert Ways(walk) == [];
    } else {
      WayHome(ctx, walk, origin);
    }
  }

  lemma DaysAscend(draft: Draft)
    ensures var days := StableSort(draft.days, EarlierDay);
      forall i, j :: 0 <= i < j < |days| ==> days[i].number <= days[j].number
  {
    StableSortSorted(draft.days, EarlierDay);
  }

  lemma WayHome(ctx: Context, walk: seq<Candidate>, origin: GeoPoint)
    requires walk != []
    ensures var start, home := Waypoint(origin, None), ctx.provider(walk[|walk| - 1].point, origin);
      var round := Legs(ctx.loaded, ctx.provider, start, Ways(walk) + [start]);
      && Minutes(round) == Minutes(ctx.LegsOf(start, walk)) + home.minutes
      && Distance(round) == Distance(ctx.LegsOf(start, walk)) + home.distance
  {
    var start, home := Waypoint(origin, None), ctx.provider(walk[|walk| - 1].point, origin);
    LegsAppend(ctx.loaded, ctx.provider, start, Ways(walk), [start]);
    assert Legs(ctx.loaded, ctx.provider, At(walk[|walk| - 1]), [start]) == [home];
    OneLeg(ctx.LegsOf(start, walk), home);
  }

  lemma {:induction false} DayNumbers(ctx: Context, days: seq<DraftDay>, from: Waypoint)
    ensures forall i :: 0 <= i < |days| ==> ctx.Days(days, from)[i].number == days[i].number
    decreases |days|
  {
    hide Context.DayWalk;
    if days != [] {
      DayNumbers(ctx, days[1..], Last(from, ctx.DayWalk(days[0], from)));
    }
  }

  // ------------------------------------------------------------- the memo table

  function SaveAll(rows: Rows, computed: seq<Computed>): Rows {
    if computed == [] then rows
    else
      var n := |computed| - 1;
      Saved(SaveAll(rows, computed[..n]), computed[n].from, computed[n].to, computed[n].leg)
  }

  method PersistComputedLegs(table: TravelTable, computed: seq<Computed>) returns (count: nat)
    modifies table
    ensures table.rows == SaveAll(old(table.rows), computed)
    ensures count == |computed|
  {
    for i := 0 to |computed|
      invariant table.rows == SaveAll(old(table.rows), computed[..i])
    {
      table.SaveLeg(computed[i].from, computed[i].to, computed[i].leg);
      assert computed[..i + 1][..i] == computed[..i];
    }
    assert computed[..|computed|] == computed;
    return |computed|;
  }

  lemma {:induction false} SaveAllRows(rows: Rows, computed: seq<Computed>)
    requires forall i :: 0 <= i < |computed| ==> computed[i].from != computed[i].to
    requires forall i, j :: 0 <= i < j < |computed| ==>
      computed[i].from != computed[j].from || computed[i].to != computed[j].to
    ensures WrittenInto(SaveAll(rows, computed), rows, computed)
  {
    if computed != [] {
      var n := |computed| - 1;
      SaveAllRows(rows, computed[..n]);
      var init := computed[..n];
      assert computed == init + [computed[n]];
      forall x | x in init ensures KeyOf(x) != KeyOf(computed[n]) {
        var i :| 0 <= i < n && init[i] == x;
        assert computed[i] == x;
      }
      WriteOneMore(SaveAll(rows, init), rows, init, computed[n]);
    }
  }

  lemma WriteOneMore(before: Rows, rows: Rows, init: seq<Computed>, c: Computed)
    requires WrittenInto(before, rows, init) && c.from != c.to
    requires forall x :: x in init ==> KeyOf(x) != KeyOf(c)
    ensures WrittenInto(Saved(before, c.from, c.to, c.leg), rows, init + [c])
  {
    var computed := init + [c];
    assert forall x :: x in computed <==> x in init || x == c;
    forall k ensures Writes(computed, k) <==> Writes(init, k) || k == KeyOf(c) {
      WritesAppend(init, c, k);
    }
    hide Writes;
  }

  lemma WritesAppend(init: seq<Computed>, c: Computed, k: Key)
    ensures Writes(init + [c], k) <==> Writes(init, k) || k == KeyOf(c)
  {
    if Writes(init, k) {
      var x :| x in init && k == KeyOf(x);
      assert x in init + [c];
    }
    assert c in init + [c];
  }

  function KeyOf(c: Computed): Key { Key(c.from, c.to, c.leg.source) }

  /** Coherence with the database: after persisting, a load with the same floor returns exactly
      what the resolver held, minus the legs whose source is worse than the floor. An estimate
      saved while a better provider is in charge does not come back. */
  lemma ReloadAgrees(rows: Rows, ids: set<PoiId>, floor: nat, loaded: map<Pair, TravelLeg>,
                     cached: map<Pair, TravelLeg>, computed: seq<Computed>, again: map<Pair, TravelLeg>)
    requires IsLoaded(loaded, rows, ids, floor) && IsExtension(cached, loaded, computed)
    requires forall c :: c in computed ==> c.from in ids && c.to in ids
    requires IsLoaded(again, SaveAll(rows, computed), ids, floor)
    ensures again == map p | p in cached && Rank(cached[p].source) <= floor :: cached[p]
  {
    var kept := map p | p in cached && Rank(cached[p].source) <= floor :: cached[p];
    var now_ := SaveAll(rows, computed);
    SaveAllRows(rows, computed);
    hide SaveAll;
    forall p | p in kept
      ensures Usable(now_, ids, floor, Key(p.0, p.1, kept[p].source))
        && kept[p] == LegAt(now_, Key(p.0, p.1, kept[p].source))
    {
      KeptIsSaved(rows, now_, ids, floor, loaded, cached, computed, p);
    }
    forall k | Usable(now_, ids, floor, k)
      ensures (k.from, k.to) in kept && Rank(kept[(k.from, k.to)].source) <= Rank(k.source)
    {
      SavedIsKept(rows, now_, ids, floor, loaded, cached, computed, k);
    }
    LoadedIsUnique(again, kept, now_, ids, floor);
  }

  /** `after` is `rows` with the computed legs written into it. */
  ghost predicate WrittenInto(after: Rows, rows: Rows, computed: seq<Computed>) {
    && (forall k :: k in after <==> k in rows || Writes(computed, k))
    && (forall c :: c in computed ==> KeyOf(c) in after && LegAt(after, KeyOf(c)) == c.leg)
    && (forall k :: k in rows && !Writes(computed, k) ==> k in after && after[k] == rows[k])
  }

  ghost predicate Writes(computed: seq<Computed>, k: Key) {
    exists c :: c in computed && k == KeyOf(c)
  }

  lemma KeptIsSaved(rows: Rows, after: Rows, ids: set<PoiId>, floor: nat, loaded: map<Pair, TravelLeg>,
                    cached: map<Pair, TravelLeg>, computed: seq<Computed>, p: Pair)
    requires IsLoaded(loaded, rows, ids, floor) && IsExtension(cached, loaded, computed)
      && WrittenInto(after, rows, computed)
    requires forall c :: c in computed ==> c.from in ids && c.to in ids
    requires p in cached && Rank(cached[p].source) <= floor
    ensures var k := Key(p.0, p.1, cached[p].source); Usable(after, ids, floor, k) && cached[p] == LegAt(after, k)
  {
    ExtensionHit(cached, loaded, computed, p);
    if p in loaded {
      assert Usable(rows, ids, floor, Key(p.0, p.1, loaded[p].source));
    } else {
      assert KeyOf(Computed(p.0, p.1, cached[p])) == Key(p.0, p.1, cached[p].source);
    }
  }

  lemma SavedIsKept(rows: Rows, after: Rows, ids: set<PoiId>, floor: nat, loaded: map<Pair, TravelLeg>,
                    cached: map<Pair, TravelLeg>, computed: seq<Computed>, k: Key)
    requires IsLoaded(loaded, rows, ids, floor) && IsExtension(cached, loaded, computed)
      && WrittenInto(after, rows, computed)
    requires Usable(after, ids, floor, k)
    ensures (k.from, k.to) in cached && Rank(cached[(k.from, k.to)].source) <= floor
    ensures Rank(cached[(k.from, k.to)].source) <= Rank(k.source)
  {
    if c :| c in computed && k == KeyOf(c) {
      assert cached[(k.from, k.to)] == c.leg;
    } else {
      assert Usable(rows, ids, floor, k);
      assert (k.from, k.to) in loaded && cached[(k.from, k.to)] == loaded[(k.from, k.to)];
      assert Usable(rows, ids, floor, Key(k.from, k.to, loaded[(k.from, k.to)].source));
    }
  }
}
