/** Briefs that the pre-flight accepts, without a bed, for which our own draft has a day with nothing in it. */
module Counterexamples {
  import opened Util
  import opened Domain
  import opened Retrieval
  import opened Feasibility
  import opened ComposeGreedy
  import opened ComposeProofs
  import opened EndToEnd
  import NoBeds
  import MisfitTrips
  import LikePrefix
  import Tour
  import Validate

  // ------------------------------------------------- a district of equals

  /** A published place of district /k/ that costs nothing, is always open, and is no better than another. */
  function Row(id: PoiId, region: string, minutes: Option<nat>): PoiRow {
    PoiRow(id, Place, true, region, "/k/" + region + "/", "p", GeoPoint(0.0, 0.0), minutes, None, None, map[], false, 3)
  }

  predicate IsRow(r: PoiRow) { r == Row(r.id, r.region, r.duration) }

  function Everything(days: nat): Brief { Brief(District, [], "k", None, None, days, 1, 1) }

  function Shelf(rows: seq<PoiRow>, dist: Metric): Store { Store(rows, map["k" := "/k/"], dist, []) }

  lemma {:induction false} FilterAll<T>(s: seq<T>, p: T -> bool)
    requires forall x :: x in s ==> p(x)
    ensures Filter(s, p) == s
  {
    if s != [] {
      assert s[0] in s && forall x :: x in s[1..] ==> x in s;
      FilterAll(s[1..], p);
    }
  }

  lemma {:induction false} FilterNone<T>(s: seq<T>, p: T -> bool)
    requires forall x :: x in s ==> !p(x)
    ensures Filter(s, p) == []
  {
    if s != [] {
      assert s[0] in s && forall x :: x in s[1..] ==> x in s;
      FilterNone(s[1..], p);
    }
  }

  lemma {:induction false} EqualsKeepOrder<T>(s: seq<T>, before: (T, T) -> bool)
    requires forall x, y :: x in s && y in s ==> !before(x, y)
    ensures StableSort(s, before) == s
  {
    if s != [] {
      var rest := s[1..];
      assert s[0] in s && forall x :: x in rest ==> x in s;
      EqualsKeepOrder(rest, before);
      assert s == [s[0]] + rest;
      assert Insert(s[0], rest, before) == [s[0]] + rest by {
        assert rest != [] ==> rest[0] in s;
      }
    }
  }

  lemma RowRetrieved(st: Store, days: nat, kind: PoiKind, r: PoiRow)
    requires IsRow(r)
    ensures Retrieves(st, Everything(days), "/k/", kind, r) <==> kind == Place
  {
    LikePrefix.PlainLikeIsPrefix(r.regionPath, "/k/");
    assert r.regionPath[..3] == "/k/";
  }

  lemma RowsEqual(st: Store, days: nat, x: PoiRow, y: PoiRow)
    requires IsRow(x) && IsRow(y)
    ensures !RanksBefore(st, Everything(days), x, y)
  {
    assert !StrLess("p", "p");
  }

  /** Everything on such a shelf is retrieved, in order, and nothing else. */
  lemma ShelfRetrieved(rows: seq<PoiRow>, dist: Metric, days: nat, caps: Caps)
    requires (forall r :: r in rows ==> IsRow(r)) && |rows| <= caps.places
    ensures var st, b := Shelf(rows, dist), Everything(days);
      && Retrieved(st, b, caps) == CandidateSet(Numbered(b, rows, Place), [], []) && Exact(st, b, "/k/") == |rows|
  {
    var st, b := Shelf(rows, dist), Everything(days);
    forall r, kind | r in rows ensures Retrieves(st, b, "/k/", kind, r) <==> kind == Place {
      RowRetrieved(st, days, kind, r);
    }
    forall x, y | x in rows && y in rows ensures !RanksBefore(st, b, x, y) {
      RowsEqual(st, days, x, y);
    }
    ExactIsWhatIsRetrieved(st, b, "/k/");
    hide Retrieves, RanksBefore, StableSort, Numbered, Exact;
    FilterAll(rows, (r: PoiRow) => Retrieves(st, b, "/k/", Place, r));
    FilterNone(rows, (r: PoiRow) => Retrieves(st, b, "/k/", Stay, r));
    FilterNone(rows, (r: PoiRow) => Retrieves(st, b, "/k/", Activity, r));
    EqualsKeepOrder(rows, (x: PoiRow, y: PoiRow) => RanksBefore(st, b, x, y));
    EqualsKeepOrder([], (x: PoiRow, y: PoiRow) => RanksBefore(st, b, x, y));
    assert Numbered(b, [], Stay) == [] && Numbered(b, [], Activity) == [] by {
      NothingNumbered(b, Stay);
      NothingNumbered(b, Activity);
    }
  }

  lemma NothingNumbered(b: Brief, kind: PoiKind)
    ensures Numbered(b, [], kind) == []
  {
  }

  /** The brief is accepted by the pre-flight, has no bed to offer, and our own draft for it is invalid. */
  ghost predicate AcceptedButInvalid(rows: seq<PoiRow>, days: nat, caps: Caps, v: Verdict, inp: Inputs) {
    var st, b := Shelf(rows, inp.dist), Everything(days);
    && Explained(v, st, b, "/k/") && v.ok && b.days <= caps.places && b.days <= caps.activities
    && inp == InputsFor(st, b, caps, inp.origin, inp.dayMinutes, inp.travel) && inp.cs.stays == []
    && !Validate.DraftValid(Composed(inp), inp.cs, inp.days)
  }

  lemma ShelfInputs(rows: seq<PoiRow>, days: nat, caps: Caps, origin: GeoPoint, dayMinutes: int,
                    travel: (GeoPoint, GeoPoint) -> nat, dist: Metric) returns (v: Verdict, inp: Inputs)
    requires (forall r :: r in rows ==> IsRow(r)) && 1 <= days <= |rows| <= caps.places && days <= caps.activities
    ensures var st, b := Shelf(rows, dist), Everything(days);
      && Explained(v, st, b, "/k/") && v.ok && inp == InputsFor(st, b, caps, origin, dayMinutes, travel)
    ensures inp.origin == origin && inp.dayMinutes == dayMinutes && inp.travel == travel && inp.dist == dist
      && inp.days == days
    ensures inp.cs == CandidateSet(Numbered(Everything(days), rows, Place), [], []) && inp.cs.WellFormed()
  {
    hide Retrieved, Exact, Numbered, CandidateSet.WellFormed;
    var st, b := Shelf(rows, dist), Everything(days);
    inp := InputsFor(st, b, caps, origin, dayMinutes, travel);
    ShelfRetrieved(rows, dist, days, caps);
    RetrievedIsWellFormed(st, b, caps);
    v := Verdict(true, Reason.Ok, |rows|, [], [], None, None, None);
  }

  // ------------------------------------------------------------- too few in one region

  lemma TourIsAll(inp: Inputs)
    requires |Clusters(inp.cs.Doable())| <= inp.days
    ensures multiset(ClusterTour(inp)) == multiset(Clusters(inp.cs.Doable()))
  {
    var all := Clusters(inp.cs.Doable());
    PermutationFacts(all, StableSort(all, Stronger));
    Tour.FromPermutes(Chosen(all, inp.days), inp.origin, Centroid, inp.dist);
  }

  /** A tour visited in two full rounds visits each of its regions twice. */
  lemma VisitedTwice(k: nat, i: nat, days: nat)
    requires i < k && i + 1 + k <= days
    ensures NoBeds.Visits(k, i, 1, days) >= 2
  {
    hide NoBeds.Visits;
    NoBeds.FirstVisitCounts(k, i, 1, days);
    NextRound(i, k);
    if NoBeds.Visits(k, i, i + 2, days) == 0 {
      NoBeds.NoLaterVisit(k, i, i + 2, i + 1 + k, days);
    }
  }

  lemma NextRound(i: nat, k: nat)
    requires i < k
    ensures (i + k) % k == i
  {
  }

  /** One place in region a, m in region b, m + 1 days. */
  function Lopsided(m: nat): seq<PoiRow> {
    [Row(0, "a", None)] + seq(m, i requires 0 <= i < m => Row(i + 1, "b", None))
  }

  lemma AtMostTwo(cs: seq<Cluster>)
    requires forall i :: 0 <= i < |cs| ==> cs[i].region in ["a", "b"]
    requires forall i, j :: 0 <= i < j < |cs| ==> cs[i].region != cs[j].region
    ensures |cs| <= 2
  {
    if |cs| >= 3 {
      TwoOfThree(cs[0].region, cs[1].region, cs[2].region);
    }
  }

  lemma TwoOfThree(x: string, y: string, z: string)
    requires x in ["a", "b"] && y in ["a", "b"] && z in ["a", "b"]
    ensures x == y || y == z || x == z
  {
  }

  lemma {:induction false} LopsidedClusters(doable: seq<Candidate>)
    requires doable != [] && doable[0].region == "a" && forall i :: 1 <= i < |doable| ==> doable[i].region == "b"
    ensures var cs := Clusters(doable); |cs| <= 2 && exists c :: c in cs && c.region == "a" && c.items == [doable[0]]
  {
    var cs := Clusters(doable);
    ClustersPartition(doable);
    hide Clusters;
    forall i | 0 <= i < |cs| ensures cs[i].region in ["a", "b"] {
      var x := cs[i].items[0];
      assert x in InRegion(doable, cs[i].region);
      var k :| 0 <= k < |doable| && doable[k] == x;
    }
    AtMostTwo(cs);
    assert doable[0] in doable;
    var a := FindRegion(cs, "a");
    assert cs[a] in cs;
    var rest := doable[1..];
    forall c | c in rest ensures c.region != "a" {
      var k :| 0 <= k < |rest| && rest[k] == c;
      assert doable[k + 1] == c;
    }
    InRegionEmpty(rest, "a");
  }

  lemma LopsidedCandidates(m: nat, doable: seq<Candidate>)
    requires doable == Numbered(Everything(m + 1), Lopsided(m), Place)
    ensures |doable| == m + 1 && doable[0].region == "a" && !doable[0].repeatable
    ensures forall i :: 1 <= i < |doable| ==> doable[i].region == "b"
  {
    hide Decimal, MatchWeight;
    var rows := Lopsided(m);
    assert |rows| == m + 1 && rows[0] == Row(0, "a", None) && forall i :: 1 <= i <= m ==> rows[i] == Row(i, "b", None);
  }

  /** Whatever the distances, travel times, origin and day length: with one place in one region and three or
      more in another, a trip of as many days as places is accepted and cannot be served. */
  lemma LonelyPlaceBreaksTrip(m: nat, caps: Caps, origin: GeoPoint, dayMinutes: int,
                              travel: (GeoPoint, GeoPoint) -> nat, dist: Metric) returns (v: Verdict, inp: Inputs)
    requires 3 <= m < caps.places && m < caps.activities
    ensures inp.origin == origin && inp.dayMinutes == dayMinutes && inp.travel == travel && inp.dist == dist
    ensures AcceptedButInvalid(Lopsided(m), m + 1, caps, v, inp)
  {
    var rows, days := Lopsided(m), m + 1;
    v, inp := ShelfInputs(rows, days, caps, origin, dayMinutes, travel, dist);
    assert inp.cs.Doable() == Numbered(Everything(days), rows, Place);
    LopsidedCandidates(m, inp.cs.Doable());
    hide *;
    LopsidedClusters(inp.cs.Doable());
    TourIsAll(inp);
    LopsidedInvalid(inp);
    InvalidFor(rows, days, caps, v, inp);
  }

  lemma InvalidFor(rows: seq<PoiRow>, days: nat, caps: Caps, v: Verdict, inp: Inputs)
    requires var st, b := Shelf(rows, inp.dist), Everything(days);
      && Explained(v, st, b, "/k/") && v.ok && days <= caps.places && days <= caps.activities
      && inp == InputsFor(st, b, caps, inp.origin, inp.dayMinutes, inp.travel) && inp.cs.stays == []
      && !Validate.DraftValid(Composed(inp), inp.cs, inp.days)
    ensures AcceptedButInvalid(rows, days, caps, v, inp)
  {
    hide Explained, Composed, Validate.DraftValid, InputsFor;
  }

  lemma LopsidedInvalid(inp: Inputs)
    requires inp.cs.WellFormed() && inp.cs.stays == [] && inp.days >= 4
    requires var cs := Clusters(inp.cs.Doable());
      && |cs| <= 2 && multiset(ClusterTour(inp)) == multiset(cs)
      && exists c :: c in cs && |c.items| == 1 && !c.items[0].repeatable
    ensures !Validate.DraftValid(Composed(inp), inp.cs, inp.days)
  {
    hide *;
    if Validate.DraftValid(Composed(inp), inp.cs, inp.days) {
      BedlessPlanNeeds(inp);
      LopsidedStarves(inp);
      assert false;
    }
  }

  lemma LopsidedStarves(inp: Inputs)
    requires inp.days >= 4 && ClusterTour(inp) != []
    requires var cs := Clusters(inp.cs.Doable());
      && |cs| <= 2 && multiset(ClusterTour(inp)) == multiset(cs)
      && exists c :: c in cs && |c.items| == 1 && !c.items[0].repeatable
    ensures exists i :: 0 <= i < |ClusterTour(inp)| && var c := ClusterTour(inp)[i];
      (forall x :: x in c.items ==> !x.repeatable) && |c.items| < NoBeds.VisitsOf(inp, i)
  {
    hide ClusterTour, Clusters;
    var tour, cs := ClusterTour(inp), Clusters(inp.cs.Doable());
    PermutationFacts(tour, cs);
    var c :| c in cs && |c.items| == 1 && !c.items[0].repeatable;
    var i :| 0 <= i < |tour| && tour[i] == c;
    VisitedTwice(|tour|, i, inp.days);
  }

  // --------------------------------------------------------- too many that fit no day

  /** f places of a minute each, and u that take longer than a day. */
  function Crowded(f: nat, u: nat, dayMinutes: nat): seq<PoiRow> {
    seq(f, i requires 0 <= i < f => Row(i, "a", Some(1)))
    + seq(u, i requires 0 <= i < u => Row(f + i, "a", Some(dayMinutes + 1)))
  }

  lemma CrowdedRows(f: nat, u: nat, dayMinutes: nat)
    ensures |Crowded(f, u, dayMinutes)| == f + u && forall r :: r in Crowded(f, u, dayMinutes) ==> IsRow(r)
  {
    var rows := Crowded(f, u, dayMinutes);
    forall r | r in rows ensures IsRow(r) {
      var i :| 0 <= i < |rows| && rows[i] == r;
      CrowdedAt(f, u, dayMinutes, i);
    }
  }

  lemma CrowdedAt(f: nat, u: nat, dayMinutes: nat, i: nat)
    requires i < f + u
    ensures |Crowded(f, u, dayMinutes)| == f + u
    ensures Crowded(f, u, dayMinutes)[i] == Row(i, "a", Some(if i < f then 1 else dayMinutes + 1))
  {
  }

  lemma {:induction false} SpendOfMinutes(s: seq<Candidate>)
    requires forall x :: x in s ==> Cost(x) == 1
    ensures Spend(s) == |s|
  {
    if s != [] {
      var init := s[..|s| - 1];
      assert s[|s| - 1] in s && forall x :: x in init ==> x in s;
      SpendOfMinutes(init);
    }
  }

  /** Two days, no driving, and up to one more place than misfits, all of which would fit one day: the share
      of the first day counts the misfits, takes every place that fits, and the second day is empty. */
  lemma MisfitsEatTheShare(f: nat, u: nat, caps: Caps, origin: GeoPoint, dayMinutes: nat, dist: Metric)
    returns (v: Verdict, inp: Inputs)
    requires 1 <= f <= u + 1 && u >= 1 && f <= dayMinutes && f + u <= caps.places && 2 <= caps.activities
    ensures inp.origin == origin && inp.dayMinutes == dayMinutes && inp.dist == dist
    ensures AcceptedButInvalid(Crowded(f, u, dayMinutes), 2, caps, v, inp)
  {
    var rows := Crowded(f, u, dayMinutes);
    CrowdedRows(f, u, dayMinutes);
    v, inp := ShelfInputs(rows, 2, caps, origin, dayMinutes, (x: GeoPoint, y: GeoPoint) => 0, dist);
    assert inp.cs.Doable() == Numbered(Everything(2), rows, Place);
    assert forall x, y :: inp.travel(x, y) == 0;
    CrowdedNumbered(inp, f, u);
    hide *;
    CrowdedStarves(inp, f, u);
    InvalidFor(rows, 2, caps, v, inp);
  }

  /** The candidates: f of a minute, then u longer than a day. */
  ghost predicate IsCrowd(inp: Inputs, f: nat, u: nat) {
    var doable := inp.cs.Doable();
    && |doable| == f + u && (forall x :: x in doable ==> x.region == "a" && !x.repeatable)
    && (forall i :: 0 <= i < f ==> Cost(doable[i]) == 1)
    && (forall i :: f <= i < f + u ==> Cost(doable[i]) > inp.dayMinutes)
  }

  lemma CrowdedNumbered(inp: Inputs, f: nat, u: nat)
    requires inp.dayMinutes >= 0 && inp.cs.Doable() == Numbered(Everything(2), Crowded(f, u, inp.dayMinutes), Place)
    ensures IsCrowd(inp, f, u)
  {
    hide CandidateSet.Doable, Decimal, MatchWeight;
    var rows, doable := Crowded(f, u, inp.dayMinutes), inp.cs.Doable();
    forall i | 0 <= i < f + u
      ensures doable[i].region == "a" && !doable[i].repeatable
        && doable[i].duration == Some(if i < f then 1 else inp.dayMinutes + 1)
    {
      CrowdedAt(f, u, inp.dayMinutes, i);
      assert doable[i] == CandidateOf(Everything(2), rows[i], Place, i + 1);
    }
  }

  lemma CrowdedStarves(inp: Inputs, f: nat, u: nat)
    requires inp.cs.WellFormed() && inp.cs.stays == [] && inp.days == 2 && 1 <= f <= u + 1 && f <= inp.dayMinutes
    requires (forall x, y :: inp.travel(x, y) == 0) && IsCrowd(inp, f, u)
    ensures !Validate.DraftValid(Composed(inp), inp.cs, inp.days)
  {
    assert OneRegion(inp.cs.Doable()) && inp.cs.Doable() != [] && |inp.cs.Doable()| == f + u;
    hide *;
    OneRegionTour(inp);
    CrowdedBudget(inp, 1);
    CrowdedBudget(inp, 2);
    CrowdMisfits(inp, f, u);
    CrowdIsRoomy(inp, f, u);
    MisfitTrips.RoomyTripIff(inp);
    EmptyDayInvalid(inp);
  }

  lemma EmptyDayInvalid(inp: Inputs)
    requires inp.cs.WellFormed() && inp.days >= 1 && inp.cs.stays == [] && ClusterTour(inp) != []
    requires exists d :: 1 <= d <= inp.days && Stops(inp, ClusterTour(inp), d) == []
    ensures !Validate.DraftValid(Composed(inp), inp.cs, inp.days)
  {
    ComposedValidIff(inp);
    hide Stops, ClusterTour, Composed, Validate.DraftValid, CandidateSet.WellFormed;
  }

  /** All but the first f fit no day. */
  lemma CrowdMisfits(inp: Inputs, f: nat, u: nat)
    requires inp.cs.WellFormed() && inp.days == 2 && |ClusterTour(inp)| == 1
      && ClusterTour(inp)[0].items == inp.cs.Doable()
    requires IsCrowd(inp, f, u) && Budget(inp, ClusterTour(inp), 1) == inp.dayMinutes
    ensures |NoBeds.Misfits(inp, 0)| >= u
  {
    DoableFacts(inp.cs);
    hide ClusterTour, CandidateSet.WellFormed, CandidateSet.Doable, Budget, Cost;
    var doable := inp.cs.Doable();
    var misfits := doable[f..];
    forall x | x in misfits ensures x in NoBeds.Misfits(inp, 0) {
      assert NoBeds.VisitedOn(inp, 0, 1);
    }
    forall i, j | 0 <= i < j < |misfits| ensures misfits[i] != misfits[j] {
      assert misfits[i] == doable[f + i] && misfits[j] == doable[f + j];
    }
    NoBeds.DistinctInSet(misfits, NoBeds.Misfits(inp, 0));
  }

  lemma CrowdedBudget(inp: Inputs, d: nat)
    requires ClusterTour(inp) != [] && 1 <= d && inp.dayMinutes >= 0
    requires forall x, y :: inp.travel(x, y) == 0
    ensures Budget(inp, ClusterTour(inp), d) == inp.dayMinutes
  {
    hide ClusterTour, AnchorPoint, Visit;
  }

  lemma CrowdIsRoomy(inp: Inputs, f: nat, u: nat)
    requires inp.cs.WellFormed() && inp.days == 2 && |ClusterTour(inp)| == 1
      && ClusterTour(inp)[0].items == inp.cs.Doable()
    requires f <= inp.dayMinutes && IsCrowd(inp, f, u)
    requires Budget(inp, ClusterTour(inp), 1) == Budget(inp, ClusterTour(inp), 2) == inp.dayMinutes
    ensures MisfitTrips.Roomy(inp)
  {
    assert forall x :: x in inp.cs.Doable() ==> !x.repeatable;
    CrowdFits(inp, f, u);
    CrowdSpend(inp, f, u);
    hide ClusterTour, CandidateSet.WellFormed, CandidateSet.Doable, Budget, Cost, Spend, MisfitTrips.Fitting,
         NoBeds.Misfits, IsCrowd;
    forall x, d | x in NoBeds.Misfits(inp, 0) && 1 <= d <= inp.days ensures Cost(x) > Budget(inp, ClusterTour(inp), d) {
      assert d == 1 || d == 2;
    }
  }

  lemma CrowdSpend(inp: Inputs, f: nat, u: nat)
    requires ClusterTour(inp) != [] && f <= |inp.cs.Doable()|
    requires var doable, fits := inp.cs.Doable(), MisfitTrips.Fitting(inp);
      && NoDuplicates(fits) && (forall x :: x in fits ==> x in doable[..f])
      && (forall x :: x in doable[..f] ==> Cost(x) == 1)
    ensures Spend(MisfitTrips.Fitting(inp)) <= f
  {
    hide *;
    var doable := inp.cs.Doable();
    MisfitTrips.SpendWithin(MisfitTrips.Fitting(inp), doable[..f]);
    SpendOfMinutes(doable[..f]);
  }

  /** Which of them fit: the first f, and each of the others is longer than any day. */
  lemma CrowdFits(inp: Inputs, f: nat, u: nat)
    requires inp.cs.WellFormed() && inp.days == 2 && |ClusterTour(inp)| == 1
      && ClusterTour(inp)[0].items == inp.cs.Doable()
    requires f <= inp.dayMinutes && IsCrowd(inp, f, u)
    requires Budget(inp, ClusterTour(inp), 1) == Budget(inp, ClusterTour(inp), 2) == inp.dayMinutes
    ensures var doable, fits := inp.cs.Doable(), MisfitTrips.Fitting(inp);
      && NoDuplicates(fits) && (forall x :: x in fits ==> x in doable[..f])
      && (forall x :: x in doable[..f] ==> Cost(x) == 1)
      && (forall x :: x in NoBeds.Misfits(inp, 0) ==> Cost(x) > inp.dayMinutes)
  {
    DoableFacts(inp.cs);
    hide ClusterTour, CandidateSet.WellFormed, CandidateSet.Doable, Budget, Cost;
    var doable := inp.cs.Doable();
    forall x | x in doable[..f] ensures Cost(x) == 1 && x !in NoBeds.Misfits(inp, 0) {
      assert NoBeds.AlwaysFits(inp, 0, x);
    }
    assert NoBeds.VisitedOn(inp, 0, 1);
    forall x | x in doable ensures x in doable[..f] || (Cost(x) > inp.dayMinutes && x in NoBeds.Misfits(inp, 0)) {
      var i :| 0 <= i < |doable| && doable[i] == x;
      assert if i < f then doable[..f][i] == x else Cost(x) > inp.dayMinutes;
    }
    FilterKeepsNoDuplicates(doable, (x: Candidate) => x !in NoBeds.Misfits(inp, 0));
  }
}
