/** The whole pipeline up to routing, api/src/tripplan/engine/pipeline.py `generate`: retrieve,
    compose and validate, measure, remember. */
module Engine {
  import opened Util
  import opened Domain
  import opened Retrieval
  import opened ComposeGreedy
  import opened ComposeProofs
  import opened TravelStore
  import opened Routing
  import opened EndToEnd
  import Feasibility
  import Pipeline
  import Preferences
  import Tour
  import Replay
  import Validate

  /** What does not change between two runs. */
  datatype World = World(
    st: Store, caps: Caps, origin: GeoPoint, dayMinutes: int, maxRepairs: nat,
    provider: Provider, providerSource: TravelSource)
  {
    function Inputs(b: Brief): Inputs {
      InputsFor(st, b, caps, origin, dayMinutes, (a: GeoPoint, c: GeoPoint) => provider(a, c).minutes)
    }

    function Ids(b: Brief): set<PoiId> { set c | c in Retrieved(st, b, caps).All() :: c.poiId }

    /** Routing as a function of the legs it starts from. */
    function Measuring(b: Brief, loaded: map<Pair, TravelLeg>): Context {
      Context(loaded, provider, st.dist, Retrieved(st, b, caps).ByRef())
    }

    /** `id` is the primary key of `pois`. */
    ghost predicate KeyedById() {
      forall x, y :: x in st.rows && y in st.rows && x.id == y.id ==> x == y
    }
  }

  datatype Failure = NothingToPlan(why: Feasibility.Verdict) | Rejected(error: Pipeline.EngineError)

  datatype Generated = Generated(outcome: Pipeline.Outcome, plan: RoutedPlan)

  lemma RankedFromStore(st: Store, b: Brief, path: string, kind: PoiKind, limit: nat)
    ensures forall r :: r in Ranked(st, b, path, kind, limit) ==> r in st.rows
  {
    hide StableSort, Retrieves, RanksBefore;
    var all := Selected(st, b, path, kind);
    PermutationFacts(StableSort(all, (x: PoiRow, y: PoiRow) => RanksBefore(st, b, x, y)), all);
  }

  lemma FromRow(st: Store, b: Brief, kind: PoiKind, limit: nat, c: Candidate)
    requires c in Fetched(st, b, kind, limit)
    ensures exists r :: r in st.rows && r.id == c.poiId && r.point == c.point
  {
    var rows := Ranked(st, b, st.paths[b.district], kind, limit);
    RankedFromStore(st, b, st.paths[b.district], kind, limit);
    hide Ranked, MatchWeight, Decimal;
    var i :| 0 <= i < |rows| && Numbered(b, rows, kind)[i] == c;
    assert rows[i] in rows;
  }

  /** One place per id: no two candidates of a set disagree about where a POI is. */
  lemma CandidatesAgree(w: World, b: Brief, c: Candidate, d: Candidate)
    requires w.KeyedById() && c in Retrieved(w.st, b, w.caps).All() && d in Retrieved(w.st, b, w.caps).All()
    requires c.poiId == d.poiId
    ensures c.point == d.point
  {
    RetrievedFromRow(w, b, c);
    RetrievedFromRow(w, b, d);
  }

  lemma RetrievedFromRow(w: World, b: Brief, c: Candidate)
    requires c in Retrieved(w.st, b, w.caps).All()
    ensures exists r :: r in w.st.rows && r.id == c.poiId && r.point == c.point
  {
    hide Fetched;
    if c in Fetched(w.st, b, Place, w.caps.places) {
      FromRow(w.st, b, Place, w.caps.places, c);
    } else if c in Fetched(w.st, b, Stay, w.caps.stays) {
      FromRow(w.st, b, Stay, w.caps.stays, c);
    } else {
      FromRow(w.st, b, Activity, w.caps.activities, c);
    }
  }

  ghost function PointIn(cs: seq<Candidate>, id: PoiId): (p: GeoPoint)
    ensures (exists c :: c in cs && c.poiId == id) ==> exists c :: c in cs && c.poiId == id && c.point == p
  {
    if cs == [] || cs[0].poiId == id then (if cs == [] then GeoPoint(0.0, 0.0) else cs[0].point)
    else
      assert forall c :: c in cs <==> c == cs[0] || c in cs[1..];
      PointIn(cs[1..], id)
  }

  /** Where each candidate is, by id. */
  lemma PlacesOf(w: World, b: Brief) returns (places: map<PoiId, GeoPoint>)
    requires w.KeyedById()
    ensures Places(Retrieved(w.st, b, w.caps).ByRef(), places) && places.Keys == w.Ids(b)
  {
    hide Retrieved, World.KeyedById, PointIn;
    var cs := Retrieved(w.st, b, w.caps);
    var all := cs.All();
    places := map id | id in w.Ids(b) :: PointIn(all, id);
    assert places.Keys == w.Ids(b);
    forall c | c in all ensures c.poiId in places && places[c.poiId] == c.point {
      PointOfCandidate(w, b, c);
    }
    hide CandidateSet.All, World.Ids;
    ByRefInAll(cs);
  }

  lemma ByRefInAll(cs: CandidateSet)
    ensures forall r :: r in cs.ByRef() ==> cs.ByRef()[r] in cs.All()
  {
  }

  lemma PointOfCandidate(w: World, b: Brief, c: Candidate)
    requires w.KeyedById() && c in Retrieved(w.st, b, w.caps).All()
    ensures PointIn(Retrieved(w.st, b, w.caps).All(), c.poiId) == c.point
  {
    hide Retrieved, World.KeyedById, PointIn, CandidateSet.All;
    var all := Retrieved(w.st, b, w.caps).All();
    var d :| d in all && d.poiId == c.poiId && d.point == PointIn(all, c.poiId);
    CandidatesAgree(w, b, c, d);
  }

  method Retrieve(st: Store, b: Brief, caps: Caps) returns (cs: CandidateSet)
    ensures cs == Retrieved(st, b, caps)
  {
    hide Fetched;
    var places := FetchCandidates(st, b, Place, caps.places);
    var stays := FetchCandidates(st, b, Stay, caps.stays);
    var activities := FetchCandidates(st, b, Activity, caps.activities);
    cs := CandidateSet(places, stays, activities);
  }

  /** Stage 4 and its two visits to the memo table. */
  method MeasurePlan(w: World, b: Brief, draft: Draft, cs: CandidateSet, table: TravelTable)
    returns (plan: RoutedPlan, ghost loaded: map<Pair, TravelLeg>)
    requires w.KeyedById() && cs == Retrieved(w.st, b, w.caps)
    modifies table
    ensures plan == Planned(w.Measuring(b, loaded), draft, w.origin)
    ensures IsLoaded(loaded, old(table.rows), w.Ids(b), Floor(Some(w.providerSource)))
    ensures forall again :: IsLoaded(again, table.rows, w.Ids(b), Floor(Some(w.providerSource))) ==>
      Planned(w.Measuring(b, again), draft, w.origin) == plan
  {
    hide Retrieved, World.KeyedById, IsLoaded, IsExtension, Planned, Places, SaveAll, CandidateSet.ByRef;
    ghost var places := PlacesOf(w, b);
    var floor := Floor(Some(w.providerSource));
    var legs := table.LoadLegs(set c | c in cs.All() :: c.poiId, Some(w.providerSource));
    loaded := legs;
    var resolver := new LegResolver(w.provider, legs);
    NothingComputed(legs);
    ghost var ctx := w.Measuring(b, legs);
    plan := Route(draft, cs, w.origin, w.st.dist, resolver, ctx, places);
    ghost var rows := table.rows;
    var _ := PersistComputedLegs(table, resolver.computed);
    forall again | IsLoaded(again, table.rows, w.Ids(b), floor)
      ensures Planned(w.Measuring(b, again), draft, w.origin) == plan {
      assert forall c :: c in resolver.computed ==> c.from in places.Keys && c.to in places.Keys;
      ReloadAgrees(rows, w.Ids(b), floor, legs, resolver.cached, resolver.computed, again);
      LoadedAreUsable(legs, rows, w.Ids(b), floor);
      Replay.ReplanIsStable(ctx, resolver.cached, resolver.computed, again, floor, places, draft, w.origin);
    }
  }

  lemma NothingComputed(loaded: map<Pair, TravelLeg>)
    ensures IsExtension(loaded, loaded, [])
  {
  }

  lemma LoadedAreUsable(loaded: map<Pair, TravelLeg>, rows: Rows, ids: set<PoiId>, floor: nat)
    requires IsLoaded(loaded, rows, ids, floor)
    ensures forall p :: p in loaded ==> Rank(loaded[p].source) <= floor
  {
  }

  /** A plan comes out exactly when there is something to do and either the model said something
      valid or our own draft has no hole in it. It is a closed walk over a valid draft of the days
      asked for, and generating it again from the legs it leaves behind measures the same plan. */
  method Generate(w: World, b: Brief, llm: Pipeline.LlmComposer?, table: TravelTable)
    returns (r: Result<Generated, Failure>, ghost loaded: map<Pair, TravelLeg>)
    requires w.KeyedById() && b.days >= 1
    modifies table, if llm != null then {llm} else {}
    ensures r.Ok? ==>
      && Validate.DraftValid(r.value.outcome.draft, w.Inputs(b).cs, b.days)
      && r.value.plan == Planned(w.Measuring(b, loaded), r.value.outcome.draft, w.origin)
      && IsLoaded(loaded, old(table.rows), w.Ids(b), Floor(Some(w.providerSource)))
      && forall again :: IsLoaded(again, table.rows, w.Ids(b), Floor(Some(w.providerSource))) ==>
           Planned(w.Measuring(b, again), r.value.outcome.draft, w.origin) == r.value.plan
    ensures r.Ok? <==>
      w.Inputs(b).cs.Doable() != [] && (NoHoles(w.Inputs(b)) || (llm != null && old(Answers(w, b, llm))))
    ensures r.Err? ==> table.rows == old(table.rows)
    ensures r.Err? && r.error.NothingToPlan? <==> w.Inputs(b).cs.Doable() == []
  {
    hide Retrieved, World.KeyedById, IsLoaded, Planned, NoHoles, Validate.DraftValid, CandidateSet.ByRef,
         CandidateSet.WellFormed;
    loaded := map[];
    var cs := Retrieve(w.st, b, w.caps);
    var inp := w.Inputs(b);
    if cs.places == [] && cs.activities == [] {
      var verdict := Feasibility.Diagnose(w.st, b);
      return Err(NothingToPlan(verdict)), loaded;
    }
    RetrievedIsWellFormed(w.st, b, w.caps);
    var composed := Pipeline.ComposeAndValidate(inp, llm, w.maxRepairs);
    if composed.Err? {
      return Err(Rejected(composed.error)), loaded;
    }
    var plan;
    plan, loaded := MeasurePlan(w, b, composed.value.draft, cs, table);
    return Ok(Generated(composed.value, plan)), loaded;
  }

  /** The composer plans against the roads the router measures: what is left of a day is what the provider's own minutes
      for its opening drive leave of it. */
  lemma DaysAreMeasured(w: World, b: Brief, d: nat) returns (a: GeoPoint, z: GeoPoint)
    requires ClusterTour(w.Inputs(b)) != [] && 1 <= d <= b.days
    ensures Preferences.OpensDay(w.Inputs(b), d, a, z)
    ensures var left := w.dayMinutes - w.provider(a, z).minutes;
      Budget(w.Inputs(b), ClusterTour(w.Inputs(b)), d) == if left <= 0 then 0 else left
  {
    hide ClusterTour, Budget, Preferences.OpensDay, Retrieved;
    a, z := Preferences.DriveIsTakenOff(w.Inputs(b), d);
  }

  /** The stops of a measured day lie nearest first, by the store's own distance, from where the day sets out. */
  lemma DaysAreNearestFirst(w: World, b: Brief, loaded: map<Pair, TravelLeg>, day: DraftDay, from: Waypoint)
    ensures var r := w.Measuring(b, loaded).Day(day, from);
      var stops := seq(|r.items|, i requires 0 <= i < |r.items| => r.items[i].candidate);
      Tour.IsGreedy(stops, from.point, (c: Candidate) => c.point, w.st.dist)
  {
    hide Tour.IsGreedy, Context.Day, Retrieved;
    var r := w.Measuring(b, loaded).Day(day, from);
    var stops := seq(|r.items|, i requires 0 <= i < |r.items| => r.items[i].candidate);
    DayConservesAndOrders(w.Measuring(b, loaded), day, from);
    assert Tour.IsGreedy(stops, from.point, Routing.PointOf, w.st.dist);
    SamePoints(stops, from, w.st.dist);
  }

  lemma SamePoints(stops: seq<Candidate>, from: Waypoint, dist: Metric)
    requires Tour.IsGreedy(stops, from.point, Routing.PointOf, dist)
    ensures Tour.IsGreedy(stops, from.point, (c: Candidate) => c.point, dist)
  {
  }

  /** Some answer the model would give in this run is accepted. */
  ghost predicate Answers(w: World, b: Brief, llm: Pipeline.LlmComposer)
    reads llm
  {
    Pipeline.Accepted(w.Inputs(b), llm.answers, |llm.log|, |llm.log| + w.maxRepairs).Some?
  }
}
