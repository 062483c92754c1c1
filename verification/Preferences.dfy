/** Which candidates our own composer prefers, and how much of a day it may fill: said of the candidates'
    columns and of the clock, not of the functions that compute them. */
module Preferences {
  import opened Util
  import opened Domain
  import opened ComposeGreedy
  import opened ComposeProofs
  import Tour

  // ----------------------------------------------------------------- who comes first

  /** An item ranked above a pick, and yet left out, did not fit beside the picks taken before it. */
  lemma {:induction false} SkippedDidNotFit(pool: seq<Candidate>, share: nat, budget: nat, picked: seq<Candidate>,
                                            x: Candidate, k: nat)
    requires Sorted(pool, Better) && Spend(picked) <= budget && |picked| <= share
    requires var f := Fill(pool, share, budget, picked);
      x in pool && x !in f && |picked| <= k < |f| && Better(x, f[k])
    ensures Spend(Fill(pool, share, budget, picked)[..k]) + Cost(x) > budget
    decreases pool
  {
    var f, c, rest := Fill(pool, share, budget, picked), pool[0], pool[1..];
    assert pool == [c] + rest && Sorted(rest, Better);
    FirstIsBest(pool);
    FillFacts(pool, share, budget, picked);
    hide Better, Sorted, Cost;
    if Spend(picked) + Cost(c) > budget {
      if x == c {
        assert picked <= f[..k];
        SpendMonotone(picked, f[..k]);
      } else {
        SkippedDidNotFit(rest, share, budget, picked, x, k);
      }
    } else {
      var more := picked + [c];
      assert more[..|picked|] == picked;
      FillFacts(rest, share, budget, more);
      assert f[|picked|] == c by {
        assert more[|picked|] == c;
      }
      SkippedDidNotFit(rest, share, budget, more, x, k);
    }
  }

  /** For each day of a composed trip. The first stop: of the open items that fit the day none has a greater match
      weight, none of its weight a greater confidence, none of its weight and confidence an earlier name. Any
      stop: an open item left out with a greater weight, or of the same weight and with a greater confidence, did
      not fit beside the stops picked before it. */
  lemma BestComeFirst(inp: Inputs, tour: seq<Cluster>, d: nat, x: Candidate)
    requires tour != [] && 1 <= d <= inp.days && Open(Visit(tour, d), UsedBefore(inp, tour, d), x)
    ensures var s, b := Stops(inp, tour, d), Budget(inp, tour, d);
      && (Cost(x) <= b ==>
            && s != [] && x.matchWeight <= s[0].matchWeight
            && (x.matchWeight == s[0].matchWeight ==> x.confidence <= s[0].confidence)
            && (x.matchWeight == s[0].matchWeight && x.confidence == s[0].confidence ==> !StrLess(x.name, s[0].name)))
      && (x !in s ==> forall k :: 0 <= k < |s| && x.matchWeight > s[k].matchWeight ==>
            Spend(s[..k]) + Cost(x) > b)
      && (x !in s ==> forall k ::
            0 <= k < |s| && x.matchWeight == s[k].matchWeight && x.confidence > s[k].confidence ==>
            Spend(s[..k]) + Cost(x) > b)
  {
    var used, c, s, b := UsedBefore(inp, tour, d), Visit(tour, d), Stops(inp, tour, d), Budget(inp, tour, d);
    var pool := Pool(c, used);
    var share := Share(|pool|, inp.days - d + 1);
    hide UsedBefore, Visit, Stops, Budget, Pool, Share, Fill, Sorted, Cost, Open;
    DayFill(inp, tour, d);
    PoolIsOpen(c, used);
    PoolIsRanked(c, used);
    StopsFillPool(inp, tour, d);
    assert Spend([]) == 0;
    forall k | 0 <= k < |s| && x !in s && Better(x, s[k]) ensures Spend(s[..k]) + Cost(x) > b {
      SkippedDidNotFit(pool, share, b, [], x, k);
    }
  }

  // -------------------------------------------------------- the middle, and the drive there

  /** What the points of the candidates lie off the point, added up. */
  function LatsOff(cs: seq<Candidate>, p: GeoPoint): real {
    if cs == [] then 0.0 else (cs[0].point.lat - p.lat) + LatsOff(cs[1..], p)
  }

  function LonsOff(cs: seq<Candidate>, p: GeoPoint): real {
    if cs == [] then 0.0 else (cs[0].point.lon - p.lon) + LonsOff(cs[1..], p)
  }

  lemma {:induction false} OffBySums(cs: seq<Candidate>, p: GeoPoint)
    ensures LatsOff(cs, p) == LatSum(cs) - |cs| as real * p.lat
    ensures LonsOff(cs, p) == LonSum(cs) - |cs| as real * p.lon
  {
    if cs != [] {
      OffBySums(cs[1..], p);
      assert |cs| as real == |cs[1..]| as real + 1.0;
    }
  }

  /** The middle is the point around which the candidates balance, and no other point is. */
  lemma MeanBalances(cs: seq<Candidate>, p: GeoPoint)
    requires cs != []
    ensures LatsOff(cs, p) == 0.0 && LonsOff(cs, p) == 0.0 <==> p == Mean(cs)
  {
    OffBySums(cs, p);
    hide LatsOff, LonsOff, LatSum, LonSum;
    IsQuotient(|cs| as real, p.lat, LatSum(cs));
    IsQuotient(|cs| as real, p.lon, LonSum(cs));
  }

  lemma IsQuotient(n: real, a: real, sum: real)
    requires n > 0.0
    ensures sum - n * a == 0.0 <==> a == sum / n
  {
    if sum == n * a {
      assert sum / n == a;
    }
  }

  /** The cluster is reached where one of its members is: the nearest to its middle. */
  ghost predicate StandsFor(p: GeoPoint, c: Cluster, dist: Metric) {
    exists x :: x in c.items && x.point == p && forall y :: y in c.items ==>
      dist(Mean(c.items), x.point) <= dist(Mean(c.items), y.point)
  }

  lemma AnchorStandsFor(c: Cluster, dist: Metric)
    requires c.items != []
    ensures StandsFor(AnchorPoint(c, dist), c, dist)
  {
    hide Mean;
    Tour.NearestIsFirstLeast(c.items, Centroid(c), PointOf, dist);
    var x := c.items[Tour.NearestIndex(c.items, Centroid(c), PointOf, dist)];
    assert x in c.items && x.point == AnchorPoint(c, dist);
  }

  /** The drive that opens day d: from the origin on day 1, later from the cluster of the day before. */
  ghost predicate OpensDay(inp: Inputs, d: nat, a: GeoPoint, z: GeoPoint)
    requires ClusterTour(inp) != [] && d >= 1
  {
    var tour := ClusterTour(inp);
    && (if d == 1 then a == inp.origin else StandsFor(a, tour[(d - 2) % |tour|], inp.dist))
    && StandsFor(z, tour[(d - 1) % |tour|], inp.dist)
  }

  /** What is left of a day is what that drive leaves of it, and never less than nothing. */
  lemma DriveIsTakenOff(inp: Inputs, d: nat) returns (a: GeoPoint, z: GeoPoint)
    requires ClusterTour(inp) != [] && 1 <= d <= inp.days
    ensures OpensDay(inp, d, a, z)
    ensures Budget(inp, ClusterTour(inp), d)
      == if inp.travel(a, z) >= inp.dayMinutes then 0 else inp.dayMinutes - inp.travel(a, z)
  {
    hide ClusterTour, AnchorPoint, StandsFor;
    var tour := ClusterTour(inp);
    forall c | c in tour ensures StandsFor(AnchorPoint(c, inp.dist), c, inp.dist) {
      TourMembers(inp, c);
      AnchorStandsFor(c, inp.dist);
    }
    z := AnchorPoint(tour[(d - 1) % |tour|], inp.dist);
    a := if d == 1 then inp.origin else AnchorPoint(tour[(d - 2) % |tour|], inp.dist);
  }

  /** The day's intake: at least one, and otherwise the least number that, taken on each of the days left, would
      empty the pool. */
  lemma ShareIsLeast(pool: nat, remaining: nat, n: nat)
    requires remaining >= 1
    ensures n >= 1 && n * remaining >= pool <==> n >= Share(pool, remaining)
  {
    var s := Share(pool, remaining);
    var q := (pool + remaining - 1) / remaining;
    assert q * remaining <= pool + remaining - 1 < q * remaining + remaining;
    if n >= s {
      Times(s, n, remaining);
      Times(q, s, remaining);
    } else if n >= 1 {
      Times(n + 1, q, remaining);
      assert (n + 1) * remaining == n * remaining + remaining;
    }
  }

  lemma Times(a: nat, b: nat, c: nat)
    requires a <= b
    ensures a * c <= b * c
  {
  }
}
