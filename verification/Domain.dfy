/** Entities of api/src/tripplan/domain/models.py that the engine reads. Prose
    fields (titles, narratives, media, contacts) carry no behaviour and are absent. */
module Domain {
  import opened Util

  datatype GeoPoint = GeoPoint(lat: real, lon: real)

  /** `haversine_km`, kept abstract: only comparisons of its values matter. */
  type Metric = (GeoPoint, GeoPoint) -> real

  type PoiId = nat

  datatype PoiKind = Place | Stay | Activity

  datatype Candidate = Candidate(
    ref: string,
    poiId: PoiId,
    kind: PoiKind,
    name: string,
    region: string,
    point: GeoPoint,
    duration: Option<nat>,
    repeatable: bool,
    matchWeight: int,
    confidence: int)

  datatype CandidateSet = CandidateSet(places: seq<Candidate>, stays: seq<Candidate>, activities: seq<Candidate>) {
    function All(): seq<Candidate> { places + stays + activities }

    /** The things a day can be filled with, in the order the composer sees them. */
    function Doable(): seq<Candidate> { places + activities }

    /** `{c.ref: c for c in self.all()}`: a later candidate wins a repeated ref. */
    function ByRef(): map<string, Candidate> { Index(All()) }

    /** What stage 1 guarantees of the set it hands over. */
    ghost predicate WellFormed() {
      && (forall i, j :: 0 <= i < j < |All()| ==> All()[i].ref != All()[j].ref)
      && (forall c :: c in All() ==> c.ref != "")
      && (forall c :: c in stays ==> c.kind == Stay)
      && (forall c :: c in Doable() ==> c.kind != Stay)
    }
  }

  function Index(cs: seq<Candidate>): (m: map<string, Candidate>)
    ensures forall r :: r in m ==> m[r] in cs && m[r].ref == r
    ensures forall c :: c in cs ==> c.ref in m
  {
    if cs == [] then map[]
    else
      var n := |cs| - 1;
      assert forall c :: c in cs ==> c in cs[..n] || c == cs[n];
      Index(cs[..n])[cs[n].ref := cs[n]]
  }

  lemma ByRefFinds(cs: CandidateSet, c: Candidate)
    requires cs.WellFormed() && c in cs.All()
    ensures c.ref in cs.ByRef() && cs.ByRef()[c.ref] == c
  {
    var found := cs.ByRef()[c.ref];
    var i :| 0 <= i < |cs.All()| && cs.All()[i] == c;
    var j :| 0 <= j < |cs.All()| && cs.All()[j] == found;
    assert i == j;
  }

  /** A composer's day: references only. `stayRef` may be the empty string, which
      the source treats as no stay at all. */
  datatype DraftDay = DraftDay(number: int, stayRef: Option<string>, items: seq<string>) {
    predicate HasBed() { stayRef.Some? && stayRef.value != "" }
  }

  datatype Draft = Draft(days: seq<DraftDay>)

  datatype TravelSource = MapsApi | Osrm | StaticHaversine

  /** One hop. Distances are integer hundredths of a kilometre: every provider
      rounds to two decimals. */
  datatype TravelLeg = TravelLeg(distance: nat, minutes: nat, source: TravelSource)
}
