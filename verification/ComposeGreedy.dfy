/** The deterministic composer, api/src/tripplan/engine/compose_greedy.py. */
module ComposeGreedy {
  import opened Util
  import opened Domain
  import Tour

  const DEFAULT_ITEM_MINUTES: nat := 90

  /** Everything `compose` reads: the brief's days and origin, the candidates, the day
      budget, the travel estimate and the distance. */
  datatype Inputs = Inputs(
    days: nat, origin: GeoPoint, cs: CandidateSet, dayMinutes: int,
    travel: (GeoPoint, GeoPoint) -> nat, dist: Metric)

  datatype Cluster = Cluster(region: string, items: seq<Candidate>)

  function PointOf(c: Candidate): GeoPoint { c.point }

  // ----------------------------------------------------------------- clusters

  function InRegion(cs: seq<Candidate>, region: string): seq<Candidate> {
    Filter(cs, (c: Candidate) => c.region == region)
  }

  function FindRegion(clusters: seq<Cluster>, region: string): (i: nat)
    ensures i <= |clusters|
    ensures i < |clusters| ==> clusters[i].region == region
    ensures forall k :: 0 <= k < i ==> clusters[k].region != region
  {
    if clusters == [] || clusters[0].region == region then 0 else 1 + FindRegion(clusters[1..], region)
  }

  /** `grouped.setdefault(region, ...).items.append(c)` on an insertion-ordered dictionary. */
  function AddTo(clusters: seq<Cluster>, c: Candidate): seq<Cluster> {
    var i := FindRegion(clusters, c.region);
    if i < |clusters| then clusters[i := Cluster(c.region, clusters[i].items + [c])]
    else clusters + [Cluster(c.region, [c])]
  }

  function Clusters(cs: seq<Candidate>): (r: seq<Cluster>) {
    if cs == [] then [] else AddTo(Clusters(cs[..|cs| - 1]), cs[|cs| - 1])
  }

  method BuildClusters(candidates: seq<Candidate>) returns (clusters: seq<Cluster>)
    ensures clusters == Clusters(candidates)
  {
    clusters := [];
    for i := 0 to |candidates|
      invariant clusters == Clusters(candidates[..i])
    {
      assert candidates[..i + 1][..i] == candidates[..i];
      clusters := AddTo(clusters, candidates[i]);
    }
    assert candidates[..|candidates|] == candidates;
  }

  /** The clusters split the candidates by region: no region twice, none empty, nothing lost. */
  ghost predicate Partition(clusters: seq<Cluster>, cs: seq<Candidate>) {
    && (forall i :: 0 <= i < |clusters| ==>
         clusters[i].items != [] && clusters[i].items == InRegion(cs, clusters[i].region))
    && (forall i, j :: 0 <= i < j < |clusters| ==> clusters[i].region != clusters[j].region)
    && (forall c :: c in cs ==> FindRegion(clusters, c.region) < |clusters|)
  }

  lemma InRegionAppend(cs: seq<Candidate>, c: Candidate, region: string)
    ensures InRegion(cs + [c], region) == InRegion(cs, region) + (if c.region == region then [c] else [])
  {
    if cs == [] {
      assert cs + [c] == [c];
    } else {
      assert (cs + [c])[1..] == cs[1..] + [c];
      InRegionAppend(cs[1..], c, region);
    }
  }

  lemma InRegionEmpty(cs: seq<Candidate>, region: string)
    requires forall c :: c in cs ==> c.region != region
    ensures InRegion(cs, region) == []
  {
    if cs != [] {
      InRegionEmpty(cs[1..], region);
    }
  }

  lemma AddToPartition(clusters: seq<Cluster>, cs: seq<Candidate>, c: Candidate)
    requires Partition(clusters, cs)
    ensures Partition(AddTo(clusters, c), cs + [c])
  {
    var after := AddTo(clusters, c);
    hide InRegion;
    forall i | 0 <= i < |after| ensures after[i].items != [] && after[i].items == InRegion(cs + [c], after[i].region) {
      InRegionAppend(cs, c, after[i].region);
      if i == |clusters| {
        InRegionEmpty(cs, c.region);
      }
    }
    forall x | x in cs + [c] ensures FindRegion(after, x.region) < |after| {
      var k := FindRegion(clusters, x.region);
      assert x in cs || x == c;
      assert after[k].region == x.region;
    }
  }

  lemma {:induction false} ClustersPartition(cs: seq<Candidate>)
    ensures Partition(Clusters(cs), cs)
  {
    hide AddTo;
    if cs != [] {
      hide Partition;
      ClustersPartition(cs[..|cs| - 1]);
      AddToPartition(Clusters(cs[..|cs| - 1]), cs[..|cs| - 1], cs[|cs| - 1]);
      assert cs == cs[..|cs| - 1] + [cs[|cs| - 1]];
    }
  }

  // ---------------------------------------------------------- scores and points

  function LatSum(cs: seq<Candidate>): real { if cs == [] then 0.0 else cs[0].point.lat + LatSum(cs[1..]) }

  function LonSum(cs: seq<Candidate>): real { if cs == [] then 0.0 else cs[0].point.lon + LonSum(cs[1..]) }

  /** The mean of the points. Callers never pass an empty list. */
  function Mean(cs: seq<Candidate>): GeoPoint {
    if cs == [] then GeoPoint(0.0, 0.0)
    else GeoPoint(LatSum(cs) / |cs| as real, LonSum(cs) / |cs| as real)
  }

  function Centroid(c: Cluster): GeoPoint { Mean(c.items) }

  function Weights(cs: seq<Candidate>): seq<int> { seq(|cs|, i requires 0 <= i < |cs| => cs[i].matchWeight) }

  /** The sum of the three best match weights. */
  function Score(c: Cluster): int {
    var top := StableSort(Weights(c.items), (a: int, b: int) => a > b);
    Sum(if |top| <= 3 then top else top[..3])
  }

  function Stronger(a: Cluster, b: Cluster): bool { Score(a) > Score(b) }

  /** The strongest `days` clusters, the strongest first. */
  function Chosen(clusters: seq<Cluster>, days: nat): seq<Cluster> {
    var ranked := StableSort(clusters, Stronger);
    if |ranked| <= days then ranked else ranked[..days]
  }

  /** The order the clusters are visited in. */
  function ClusterTour(inp: Inputs): seq<Cluster> {
    Tour.From(Chosen(Clusters(inp.cs.Doable()), inp.days), inp.origin, Centroid, inp.dist)
  }

  /** A real place standing in for the cluster: the member nearest its centroid. */
  function AnchorPoint(c: Cluster, dist: Metric): GeoPoint {
    if c.items == [] then Centroid(c) else c.items[Tour.NearestIndex(c.items, Centroid(c), PointOf, dist)].point
  }

  // ---------------------------------------------------------------- one day

  /** Day `d` of the trip visits this cluster of the tour: the tour is cycled. */
  function Visit(tour: seq<Cluster>, d: nat): Cluster
    requires tour != [] && d >= 1
  {
    tour[(d - 1) % |tour|]
  }

  function Approach(inp: Inputs, tour: seq<Cluster>, d: nat): nat
    requires tour != [] && d >= 1
  {
    inp.travel(if d == 1 then inp.origin else AnchorPoint(Visit(tour, d - 1), inp.dist),
               AnchorPoint(Visit(tour, d), inp.dist))
  }

  function Max(a: int, b: int): int { if a >= b then a else b }

  function Budget(inp: Inputs, tour: seq<Cluster>, d: nat): nat
    requires tour != [] && d >= 1
  {
    Max(0, inp.dayMinutes - Approach(inp, tour, d))
  }

  /** Sort key (-match_weight, -data_confidence, name). */
  predicate Better(a: Candidate, b: Candidate) {
    || a.matchWeight > b.matchWeight
    || (a.matchWeight == b.matchWeight
        && (a.confidence > b.confidence || (a.confidence == b.confidence && StrLess(a.name, b.name))))
  }

  function Available(items: seq<Candidate>, used: set<string>): seq<Candidate> {
    Filter(items, (c: Candidate) => c.ref !in used || c.repeatable)
  }

  function Pool(c: Cluster, used: set<string>): seq<Candidate> { StableSort(Available(c.items, used), Better) }

  /** `max(1, ceil(pool / remaining_days))`, the ceiling on today's intake. */
  function Share(pool: nat, remaining: nat): (s: nat)
    requires remaining >= 1
    ensures s >= 1
  {
    if pool == 0 then 1 else Max(1, (pool + remaining - 1) / remaining)
  }

  /** `duration_minutes or DEFAULT_ITEM_MINUTES`: zero counts as unknown. */
  function Cost(c: Candidate): (m: nat)
    ensures m > 0
  {
    if c.duration.Some? && c.duration.value != 0 then c.duration.value else DEFAULT_ITEM_MINUTES
  }

  function Spend(cs: seq<Candidate>): nat {
    if cs == [] then 0 else Spend(cs[..|cs| - 1]) + Cost(cs[|cs| - 1])
  }

  /** The day's final picks, given what is left of the pool and what is picked so far. */
  function Fill(pool: seq<Candidate>, share: nat, budget: nat, picked: seq<Candidate>): seq<Candidate> {
    if pool == [] || |picked| >= share then picked
    else if Spend(picked) + Cost(pool[0]) > budget then Fill(pool[1..], share, budget, picked)
    else if Spend(picked) + Cost(pool[0]) >= budget then picked + [pool[0]]
    else Fill(pool[1..], share, budget, picked + [pool[0]])
  }

  function OneOff(cs: seq<Candidate>): set<string> { set c | c in cs && !c.repeatable :: c.ref }

  /** Day `d`'s picks, best first, given the refs already used up. */
  function Picks(inp: Inputs, tour: seq<Cluster>, d: nat, used: set<string>): seq<Candidate>
    requires tour != [] && 1 <= d <= inp.days
  {
    var pool := Pool(Visit(tour, d), used);
    Fill(pool, Share(|pool|, inp.days - d + 1), Budget(inp, tour, d), [])
  }

  /** The `used` set when day `d` begins. */
  function UsedBefore(inp: Inputs, tour: seq<Cluster>, d: nat): set<string>
    requires tour != [] && 1 <= d <= inp.days + 1
  {
    if d == 1 then {}
    else
      var used := UsedBefore(inp, tour, d - 1);
      used + OneOff(Picks(inp, tour, d - 1, used))
  }

  function Stops(inp: Inputs, tour: seq<Cluster>, d: nat): seq<Candidate>
    requires tour != [] && 1 <= d <= inp.days
  {
    Picks(inp, tour, d, UsedBefore(inp, tour, d))
  }

  /** `_nearest_neighbour`: two stops or fewer keep their order. */
  function InOrder(inp: Inputs, tour: seq<Cluster>, d: nat, picked: seq<Candidate>): seq<Candidate>
    requires tour != [] && d >= 1
  {
    if |picked| < 3 then picked
    else Tour.From(picked, if d == 1 then inp.origin else Centroid(Visit(tour, d)), PointOf, inp.dist)
  }

  function NearestStay(stays: seq<Candidate>, at: GeoPoint, dist: Metric): (s: Option<Candidate>)
    ensures s.None? <==> stays == []
    ensures s.Some? ==> s.value in stays && forall t :: t in stays ==> dist(at, s.value.point) <= dist(at, t.point)
  {
    if stays == [] then None
    else
      Tour.NearestIsFirstLeast(stays, at, PointOf, dist);
      Some(stays[Tour.NearestIndex(stays, at, PointOf, dist)])
  }

  function Refs(cs: seq<Candidate>): seq<string> { seq(|cs|, i requires 0 <= i < |cs| => cs[i].ref) }

  function DayOf(inp: Inputs, tour: seq<Cluster>, d: nat): DraftDay
    requires tour != [] && 1 <= d <= inp.days
  {
    var ordered := InOrder(inp, tour, d, Stops(inp, tour, d));
    var centre := if ordered == [] then Centroid(Visit(tour, d)) else Mean(ordered);
    var stay := NearestStay(inp.cs.stays, centre, inp.dist);
    DraftDay(d, if stay.Some? then Some(stay.value.ref) else None, Refs(ordered))
  }

  function FirstDays(inp: Inputs, tour: seq<Cluster>, n: nat): seq<DraftDay>
    requires tour != [] && n <= inp.days
  {
    seq(n, i requires 0 <= i < n => DayOf(inp, tour, i + 1))
  }

  /** The draft `compose` returns. No place or activity at all gives a draft without days. */
  function Composed(inp: Inputs): Draft {
    var tour := ClusterTour(inp);
    if tour == [] then Draft([])
    else Draft(FirstDays(inp, tour, inp.days))
  }

  // ------------------------------------------------------------------ the loops

  lemma OneOffAppend(cs: seq<Candidate>, c: Candidate)
    ensures OneOff(cs + [c]) == OneOff(cs) + (if c.repeatable then {} else {c.ref})
  {
    assert forall x :: x in cs + [c] <==> x in cs || x == c;
  }

  /** The day-fill loop with its two exits, updating the picks, the minutes and `used`. */
  method FillDay(pool: seq<Candidate>, share: nat, budget: nat, usedBefore: set<string>)
    returns (picked: seq<Candidate>, spent: nat, used: set<string>)
    ensures picked == Fill(pool, share, budget, [])
    ensures spent == Spend(picked)
    ensures used == usedBefore + OneOff(picked)
  {
    picked, spent, used := [], 0, usedBefore;
    var rest := pool;
    while rest != [] && |picked| < share
      invariant Fill(pool, share, budget, []) == Fill(rest, share, budget, picked)
      invariant spent == Spend(picked)
      invariant used == usedBefore + OneOff(picked)
      decreases |rest|
    {
      var candidate := rest[0];
      rest := rest[1..];
      if spent + Cost(candidate) > budget {
        continue;
      }
      OneOffAppend(picked, candidate);
      assert (picked + [candidate])[..|picked|] == picked;
      picked := picked + [candidate];
      spent := spent + Cost(candidate);
      if !candidate.repeatable {
        used := used + {candidate.ref};
      }
      if spent >= budget {
        break;
      }
    }
  }

  method NearestNeighbour(items: seq<Candidate>, start: GeoPoint, dist: Metric) returns (ordered: seq<Candidate>)
    ensures ordered == if |items| < 3 then items else Tour.From(items, start, PointOf, dist)
  {
    if |items| < 3 {
      return items;
    }
    ordered := Tour.Greedy(items, start, PointOf, dist);
  }

  /** `ordered` holds `days` of the clusters, or all of them: none left out is stronger than one taken. */
  ghost predicate Strongest(ordered: seq<Cluster>, clusters: seq<Cluster>, days: nat) {
    && |ordered| == (if |clusters| <= days then |clusters| else days)
    && multiset(ordered) <= multiset(clusters)
    && forall a, b :: a in ordered && b in multiset(clusters) - multiset(ordered) ==> Score(a) >= Score(b)
  }

  lemma LeftOutIsWeaker(ranked: seq<Cluster>, n: nat, a: Cluster, b: Cluster)
    requires n <= |ranked| && Sorted(ranked, Stronger) && a in ranked[..n] && b in ranked[n..]
    ensures Score(a) >= Score(b)
  {
    hide Score;
    var i :| 0 <= i < n && ranked[i] == a;
    var j :| n <= j < |ranked| && ranked[j] == b;
  }

  lemma SplitPermutation<T>(all: seq<T>, n: nat, taken: seq<T>, s: seq<T>)
    requires n <= |all| && multiset(all) == multiset(s) && multiset(taken) == multiset(all[..n])
    ensures |all| == |s| && |taken| == n && multiset(taken) <= multiset(s)
    ensures multiset(s) - multiset(taken) == multiset(all[n..])
    ensures (forall x :: x in taken ==> x in all[..n]) && forall x :: x in multiset(all[n..]) ==> x in all[n..]
  {
    PermutationFacts(all, s);
    PermutationFacts(taken, all[..n]);
    assert all == all[..n] + all[n..];
  }

  lemma ChosenAreStrongest(clusters: seq<Cluster>, days: nat, ordered: seq<Cluster>)
    requires multiset(ordered) == multiset(Chosen(clusters, days))
    ensures Strongest(ordered, clusters, days)
  {
    hide Score, StableSort, Sorted;
    var ranked := StableSort(clusters, Stronger);
    PermutationFacts(clusters, ranked);
    var n := if |clusters| <= days then |clusters| else days;
    assert Chosen(clusters, days) == ranked[..n];
    SplitPermutation(ranked, n, ordered, clusters);
    StableSortSorted(clusters, Stronger);
    forall a, b | a in ordered && b in multiset(clusters) - multiset(ordered) ensures Score(a) >= Score(b) {
      LeftOutIsWeaker(ranked, n, a, b);
    }
  }

  /** The strongest clusters, each as often as it is there, always moving to the nearest centroid left. */
  method OrderClusters(clusters: seq<Cluster>, origin: GeoPoint, days: nat, dist: Metric)
    returns (ordered: seq<Cluster>)
    ensures Strongest(ordered, clusters, days)
    ensures Tour.IsGreedy(ordered, origin, Centroid, dist)
    ensures ordered == Tour.From(Chosen(clusters, days), origin, Centroid, dist)
  {
    ordered := Tour.Greedy(Chosen(clusters, days), origin, Centroid, dist);
    ChosenAreStrongest(clusters, days, ordered);
  }

  method ComposeDay(inp: Inputs, tour: seq<Cluster>, d: nat, used: set<string>)
    returns (day: DraftDay, usedAfter: set<string>)
    requires tour != [] && 1 <= d <= inp.days && used == UsedBefore(inp, tour, d)
    ensures day == DayOf(inp, tour, d)
    ensures usedAfter == UsedBefore(inp, tour, d + 1)
  {
    hide Fill, Pool, Share, Budget, Visit, Mean, Tour.NearestIndex;
    var cluster := Visit(tour, d);
    var budget := Budget(inp, tour, d);
    var pool := Pool(cluster, used);
    var share := Share(|pool|, inp.days - d + 1);
    var picked, spent;
    picked, spent, usedAfter := FillDay(pool, share, budget, used);
    picked := NearestNeighbour(picked, if d == 1 then inp.origin else Centroid(cluster), inp.dist);
    var centre := if picked == [] then Centroid(cluster) else Mean(picked);
    var stay := NearestStay(inp.cs.stays, centre, inp.dist);
    day := DraftDay(d, if stay.Some? then Some(stay.value.ref) else None, Refs(picked));
  }

  method ComposeDays(inp: Inputs, tour: seq<Cluster>) returns (days: seq<DraftDay>)
    requires tour != []
    ensures days == FirstDays(inp, tour, inp.days)
  {
    hide Picks, DayOf;
    var used: set<string> := {};
    days := [];
    for d := 1 to inp.days + 1
      invariant used == UsedBefore(inp, tour, d)
      invariant days == FirstDays(inp, tour, d - 1)
    {
      var day;
      day, used := ComposeDay(inp, tour, d, used);
      assert FirstDays(inp, tour, d) == FirstDays(inp, tour, d - 1) + [DayOf(inp, tour, d)];
      days := days + [day];
    }
  }

  method Compose(inp: Inputs) returns (draft: Draft)
    ensures draft == Composed(inp)
  {
    TourSize(inp);
    var clusters := BuildClusters(inp.cs.Doable());
    if clusters == [] || inp.days == 0 {
      return Draft([]);
    }
    var tour := OrderClusters(clusters, inp.origin, inp.days, inp.dist);
    var days := ComposeDays(inp, tour);
    return Draft(days);
  }

  /** The tour visits min(days, number of clusters) clusters. */
  lemma TourSize(inp: Inputs)
    ensures var n := |Clusters(inp.cs.Doable())|; |ClusterTour(inp)| == if n <= inp.days then n else inp.days
  {
    var cs := Clusters(inp.cs.Doable());
    PermutationFacts(cs, StableSort(cs, Stronger));
    Tour.FromPermutes(Chosen(cs, inp.days), inp.origin, Centroid, inp.dist);
  }
}
