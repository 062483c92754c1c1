/** The memo table is transparent: what one plan saves, the next one may load without being
    measured any differently. */
module Replay {
  import opened Util
  import opened Domain
  import opened TravelStore
  import opened Routing

  /** `again` is the cache reloaded after a plan that began with `loaded` and ended with `cached`. */
  ghost predicate Reloaded(loaded: map<Pair, TravelLeg>, cached: map<Pair, TravelLeg>, computed: seq<Computed>,
                           again: map<Pair, TravelLeg>, floor: nat)
  {
    && IsExtension(cached, loaded, computed)
    && (forall p :: p in loaded ==> Rank(loaded[p].source) <= floor)
    && again == map p | p in cached && Rank(cached[p].source) <= floor :: cached[p]
  }

  ghost predicate Measured(computed: seq<Computed>, provider: Provider, places: map<PoiId, GeoPoint>) {
    forall c :: c in computed ==> c.from in places && c.to in places && c.leg == provider(places[c.from], places[c.to])
  }

  lemma HopSame(ctx: Context, cached: map<Pair, TravelLeg>, computed: seq<Computed>, again: map<Pair, TravelLeg>,
                floor: nat, places: map<PoiId, GeoPoint>, a: Waypoint, b: Waypoint)
    requires Reloaded(ctx.loaded, cached, computed, again, floor) && Measured(computed, ctx.provider, places)
    requires Placed(a, places) && Placed(b, places)
    ensures Hop(again, ctx.provider, a, b) == Hop(ctx.loaded, ctx.provider, a, b)
  {
    if a.poi.Some? && b.poi.Some? && (a.poi.value, b.poi.value) in again {
      ExtensionHit(cached, ctx.loaded, computed, (a.poi.value, b.poi.value));
    }
  }

  lemma {:induction false} LegsSame(ctx: Context, cached: map<Pair, TravelLeg>, computed: seq<Computed>,
                                    again: map<Pair, TravelLeg>, floor: nat, places: map<PoiId, GeoPoint>,
                                    from: Waypoint, stops: seq<Waypoint>)
    requires Reloaded(ctx.loaded, cached, computed, again, floor) && Measured(computed, ctx.provider, places)
    requires Placed(from, places) && forall w :: w in stops ==> Placed(w, places)
    ensures Legs(again, ctx.provider, from, stops) == Legs(ctx.loaded, ctx.provider, from, stops)
    decreases |stops|
  {
    if stops != [] {
      hide Reloaded, Measured, Placed, Hop;
      HopSame(ctx, cached, computed, again, floor, places, from, stops[0]);
      LegsSame(ctx, cached, computed, again, floor, places, stops[0], stops[1..]);
    }
  }

  lemma {:induction false} DaysSame(ctx: Context, cached: map<Pair, TravelLeg>, computed: seq<Computed>,
                                    again: map<Pair, TravelLeg>, floor: nat, places: map<PoiId, GeoPoint>,
                                    days: seq<DraftDay>, from: Waypoint)
    requires Reloaded(ctx.loaded, cached, computed, again, floor) && Measured(computed, ctx.provider, places)
    requires Places(ctx.byRef, places) && Placed(from, places)
    ensures ctx.(loaded := again).Days(days, from) == ctx.Days(days, from)
    ensures ctx.(loaded := again).TripWalk(days, from) == ctx.TripWalk(days, from)
    decreases |days|
  {
    if days != [] {
      var walk := ctx.DayWalk(days[0], from);
      WalkPlaced(ctx, days[0], from, places);
      LegsSame(ctx, cached, computed, again, floor, places, from, Ways(walk));
      SameDay(ctx, again, days[0], from);
      hide Reloaded, Measured, Places, Context.Day, Context.DayWalk, Ways;
      UnfoldTrip(ctx, days, from);
      UnfoldTrip(ctx.(loaded := again), days, from);
      DaysSame(ctx, cached, computed, again, floor, places, days[1..], Last(from, walk));
    }
  }

  lemma SameDay(ctx: Context, again: map<Pair, TravelLeg>, day: DraftDay, from: Waypoint)
    requires ctx.(loaded := again).LegsOf(from, ctx.DayWalk(day, from)) == ctx.LegsOf(from, ctx.DayWalk(day, from))
    ensures ctx.(loaded := again).Day(day, from) == ctx.Day(day, from)
    ensures ctx.(loaded := again).DayWalk(day, from) == ctx.DayWalk(day, from)
  {
    hide Context.LegsOf, Resolved, Weakest;
  }

  /** Planning the same draft again, with the same provider, from the reloaded legs gives the same
      plan to the metre, although the estimates among them were not reloaded but made anew. */
  lemma ReplanIsStable(ctx: Context, cached: map<Pair, TravelLeg>, computed: seq<Computed>, again: map<Pair, TravelLeg>,
                       floor: nat, places: map<PoiId, GeoPoint>, draft: Draft, origin: GeoPoint)
    requires Reloaded(ctx.loaded, cached, computed, again, floor) && Measured(computed, ctx.provider, places)
    requires Places(ctx.byRef, places)
    ensures Planned(ctx.(loaded := again), draft, origin) == Planned(ctx, draft, origin)
  {
    hide Reloaded, Measured, Places, Context.Days, Context.TripWalk, StableSort;
    DaysSame(ctx, cached, computed, again, floor, places, StableSort(draft.days, EarlierDay), Waypoint(origin, None));
  }
}
