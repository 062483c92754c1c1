/** The trip without a single stay: exactly when the composer leaves no day empty. */
module NoBeds {
  import opened Util
  import opened Domain
  import opened ComposeGreedy
  import opened ComposeProofs

  /** How many of the days d..days visit index i of a tour of k clusters. */
  ghost function Visits(k: nat, i: nat, d: nat, days: nat): (v: nat)
    requires k >= 1 && d >= 1
    ensures d <= days + 1 ==> v <= days - d + 1
    decreases days + 1 - d
  {
    if d > days then 0 else (if (d - 1) % k == i then 1 else 0) + Visits(k, i, d + 1, days)
  }

  lemma {:induction false} EveryVisit(d: nat, days: nat)
    requires 1 <= d <= days + 1
    ensures Visits(1, 0, d, days) == days - d + 1
    decreases days + 1 - d
  {
    if d <= days {
      EveryVisit(d + 1, days);
    }
  }

  /** Day d visits index i of the tour. */
  ghost predicate VisitedOn(inp: Inputs, i: nat, d: nat)
    requires ClusterTour(inp) != []
  {
    1 <= d <= inp.days && (d - 1) % |ClusterTour(inp)| == i
  }

  /** The item alone fits what the approach drive leaves of every day that visits its cluster. */
  ghost predicate AlwaysFits(inp: Inputs, i: nat, x: Candidate)
    requires ClusterTour(inp) != []
  {
    forall d :: VisitedOn(inp, i, d) ==> Cost(x) <= Budget(inp, ClusterTour(inp), d)
  }

  ghost function Misfits(inp: Inputs, i: nat): set<Candidate>
    requires i < |ClusterTour(inp)|
  {
    set x | x in ClusterTour(inp)[i].items && !AlwaysFits(inp, i, x)
  }

  ghost function VisitsOf(inp: Inputs, i: nat): nat
    requires ClusterTour(inp) != []
  {
    Visits(|ClusterTour(inp)|, i, 1, inp.days)
  }

  /** Only a cluster that is visited again needs every item to fit. */
  ghost predicate FitsWhereRevisited(inp: Inputs) {
    forall i :: 0 <= i < |ClusterTour(inp)| && VisitsOf(inp, i) >= 2 ==> Misfits(inp, i) == {}
  }

  /** One visit needs one item that fits it; more need something repeatable or one item each. */
  ghost predicate CanServe(inp: Inputs, i: nat)
    requires i < |ClusterTour(inp)|
  {
    var c := ClusterTour(inp)[i];
    if VisitsOf(inp, i) <= 1 then exists x :: x in c.items && AlwaysFits(inp, i, x)
    else (exists x :: x in c.items && x.repeatable) || |c.items| >= VisitsOf(inp, i)
  }

  /** Something repeatable that always fits, or, for each visit, one item more than there are misfits. */
  ghost predicate ServesAnyway(inp: Inputs, i: nat)
    requires i < |ClusterTour(inp)|
  {
    var c := ClusterTour(inp)[i];
    || (exists x :: x in c.items && x.repeatable && AlwaysFits(inp, i, x))
    || |c.items| >= VisitsOf(inp, i) * (|Misfits(inp, i)| + 1)
  }

  /** The share never takes so much that the days still to come go short of m items each. */
  lemma ShareLeavesEnough(pool: nat, remaining: nat, visits: nat, m: nat)
    requires m >= 1 && 1 <= visits <= remaining && visits * m <= pool
    ensures pool - Share(pool, remaining) >= (visits - 1) * m
  {
    MulLe(1, visits, m);
    var s := (pool + remaining - 1) / remaining;
    assert s * remaining <= pool + remaining - 1;
    var q := pool - (visits - 1) * m;
    assert visits * m == (visits - 1) * m + m;
    if s >= q + 1 {
      MulLe(q + 1, s, remaining);
      assert (q + 1) * remaining == q * (remaining - 1) + q + remaining;
      MulLe(visits - 1, remaining - 1, q);
      MulLe(m, q, visits - 1);
      assert false;
    }
  }

  lemma MulLe(a: nat, b: nat, c: nat)
    requires a <= b
    ensures a * c <= b * c && c * a <= c * b
  {
  }

  // ------------------------------------------------- how the pool shrinks

  /** Using up a set of refs costs the pool at most as many items. */
  lemma {:induction false} PoolShrinksByAtMost(items: seq<Candidate>, used: set<string>, more: set<string>)
    requires NoDuplicates(items) && RefsIdentify(items)
    ensures |Available(items, used + more)| >= |Available(items, used)| - |more|
    decreases |items|
  {
    if items != [] {
      var x, rest := items[0], items[1..];
      assert forall y :: y in rest ==> y.ref != x.ref;
      if x.ref in more {
        PoolShrinksByAtMost(rest, used, more - {x.ref});
        SameAvailable(rest, used + (more - {x.ref}), used + more);
      } else {
        PoolShrinksByAtMost(rest, used, more);
      }
    }
  }

  /** Only the refs of the items themselves matter. */
  lemma {:induction false} SameAvailable(items: seq<Candidate>, a: set<string>, b: set<string>)
    requires forall y :: y in items ==> (y.ref in a <==> y.ref in b)
    ensures Available(items, a) == Available(items, b)
  {
    if items != [] {
      SameAvailable(items[1..], a, b);
    }
  }

  /** More used refs leave no more items, and strictly fewer if one of them was available and one-off. */
  lemma {:induction false} PoolShrinks(items: seq<Candidate>, used: set<string>, more: set<string>)
    ensures |Available(items, used + more)| <= |Available(items, used)|
    ensures (exists x :: x in items && !x.repeatable && x.ref !in used && x.ref in more) ==>
      |Available(items, used + more)| < |Available(items, used)|
  {
    if items != [] {
      PoolShrinks(items[1..], used, more);
      assert forall x :: x in items <==> x == items[0] || x in items[1..];
    }
  }

  lemma OneOffSize(s: seq<Candidate>)
    ensures |OneOff(s)| <= |s|
  {
    if s != [] {
      var init, last := s[..|s| - 1], s[|s| - 1];
      OneOffSize(init);
      OneOffAppend(init, last);
      assert s == init + [last];
    }
  }

  ghost function Left(inp: Inputs, tour: seq<Cluster>, i: nat, d: nat): nat
    requires tour != [] && i < |tour| && 1 <= d <= inp.days + 1
  {
    |Available(tour[i].items, UsedBefore(inp, tour, d))|
  }

  lemma ClusterFacts(inp: Inputs, i: nat)
    requires inp.cs.WellFormed() && i < |ClusterTour(inp)|
    ensures NoDuplicates(ClusterTour(inp)[i].items) && RefsIdentify(ClusterTour(inp)[i].items)
  {
    hide ClusterTour;
    TourMembers(inp, ClusterTour(inp)[i]);
    DoableFacts(inp.cs);
  }

  /** A day spent in one cluster takes nothing from another. */
  lemma OtherDayLeavesPool(inp: Inputs, i: nat, d: nat)
    requires inp.cs.WellFormed() && i < |ClusterTour(inp)| && 1 <= d <= inp.days
    requires (d - 1) % |ClusterTour(inp)| != i
    ensures var tour := ClusterTour(inp);
      Available(tour[i].items, UsedBefore(inp, tour, d + 1)) == Available(tour[i].items, UsedBefore(inp, tour, d))
  {
    hide ClusterTour, Stops, Budget, Share, Pool, Picks;
    var tour := ClusterTour(inp);
    var used, s := UsedBefore(inp, tour, d), Stops(inp, tour, d);
    UsedStep(inp, tour, d);
    StopsFacts(inp, tour, d);
    var here := Visit(tour, d);
    TourIsStrongestAndGreedy(inp);
    forall x, y | x in s && y in tour[i].items ensures x.ref != y.ref {
      ClustersShareNothing(inp, here, tour[i], x, y);
    }
    SameAvailable(tour[i].items, used + OneOff(s), used);
  }

  lemma ClustersShareNothing(inp: Inputs, a: Cluster, b: Cluster, x: Candidate, y: Candidate)
    requires inp.cs.WellFormed() && a in ClusterTour(inp) && b in ClusterTour(inp) && a != b
    requires x in a.items && y in b.items
    ensures x.ref != y.ref
  {
    hide ClusterTour;
    TourMembers(inp, a);
    TourMembers(inp, b);
    DoableFacts(inp.cs);
    assert a.region != b.region;
  }

  lemma UsedStep(inp: Inputs, tour: seq<Cluster>, d: nat)
    requires tour != [] && 1 <= d <= inp.days
    ensures UsedBefore(inp, tour, d + 1) == UsedBefore(inp, tour, d) + OneOff(Stops(inp, tour, d))
  {
    hide Picks;
  }

  /** The heart of it: with m items per visit to begin with, what is left always covers the visits
      still to come, m items each. */
  lemma {:induction false} LeftCoversVisits(inp: Inputs, i: nat, d: nat, m: nat)
    requires inp.cs.WellFormed() && i < |ClusterTour(inp)| && 1 <= d <= inp.days + 1 && m >= 1
    requires |ClusterTour(inp)[i].items| >= VisitsOf(inp, i) * m
    ensures Left(inp, ClusterTour(inp), i, d) >= Visits(|ClusterTour(inp)|, i, d, inp.days) * m
    decreases d
  {
    hide ClusterTour, Share, UsedBefore, Left, CandidateSet.WellFormed;
    var tour := ClusterTour(inp);
    if d == 1 {
      FreshPool(inp, tour, i);
    } else {
      LeftCoversVisits(inp, i, d - 1, m);
      if (d - 2) % |tour| == i {
        OwnDayTakesItsShare(inp, i, d - 1);
        ShareLeavesEnough(Left(inp, tour, i, d - 1), inp.days - d + 2, Visits(|tour|, i, d - 1, inp.days), m);
      } else {
        OtherDayLeavesLeft(inp, i, d - 1);
      }
    }
  }

  lemma OwnDayTakesItsShare(inp: Inputs, i: nat, d: nat)
    requires inp.cs.WellFormed() && i < |ClusterTour(inp)| && VisitedOn(inp, i, d)
    ensures var left := Left(inp, ClusterTour(inp), i, d);
      Left(inp, ClusterTour(inp), i, d + 1) >= left - Share(left, inp.days - d + 1)
  {
    hide ClusterTour, Stops, Budget, Share, Pool, Picks, UsedBefore, Available;
    var tour := ClusterTour(inp);
    var used, s := UsedBefore(inp, tour, d), Stops(inp, tour, d);
    UsedStep(inp, tour, d);
    ClusterFacts(inp, i);
    PoolShrinksByAtMost(tour[i].items, used, OneOff(s));
    OneOffSize(s);
    StopsFacts(inp, tour, d);
    PoolFacts(tour[i], used);
  }

  lemma OtherDayLeavesLeft(inp: Inputs, i: nat, d: nat)
    requires inp.cs.WellFormed() && i < |ClusterTour(inp)| && 1 <= d <= inp.days
    requires (d - 1) % |ClusterTour(inp)| != i
    ensures Left(inp, ClusterTour(inp), i, d + 1) == Left(inp, ClusterTour(inp), i, d)
  {
    hide ClusterTour, Available, UsedBefore;
    OtherDayLeavesPool(inp, i, d);
  }

  lemma FreshPool(inp: Inputs, tour: seq<Cluster>, i: nat)
    requires i < |tour|
    ensures Left(inp, tour, i, 1) == |tour[i].items|
  {
    EverythingAvailable(tour[i].items);
  }

  lemma EverythingAvailable(items: seq<Candidate>)
    ensures Available(items, {}) == items
  {
    if items != [] {
      EverythingAvailable(items[1..]);
    }
  }

  /** If no day is empty, a cluster without repeatable items has paid one for each visit so far. */
  lemma {:induction false} VisitsArePaidFor(inp: Inputs, i: nat, d: nat)
    requires inp.cs.WellFormed() && i < |ClusterTour(inp)| && 1 <= d <= inp.days + 1
    requires forall e :: 1 <= e <= inp.days ==> Stops(inp, ClusterTour(inp), e) != []
    requires forall x :: x in ClusterTour(inp)[i].items ==> !x.repeatable
    ensures Left(inp, ClusterTour(inp), i, d) + VisitsOf(inp, i)
         <= |ClusterTour(inp)[i].items| + Visits(|ClusterTour(inp)|, i, d, inp.days)
    decreases d
  {
    hide ClusterTour, Stops, Budget, Share, Pool, Picks, UsedBefore, Available;
    var tour := ClusterTour(inp);
    if d == 1 {
      FreshPool(inp, tour, i);
    } else {
      VisitsArePaidFor(inp, i, d - 1);
      var used, s := UsedBefore(inp, tour, d - 1), Stops(inp, tour, d - 1);
      UsedStep(inp, tour, d - 1);
      PoolShrinks(tour[i].items, used, OneOff(s));
      StopsFacts(inp, tour, d - 1);
      if (d - 2) % |tour| == i {
        assert s[0] in s && s[0] in tour[i].items && s[0].ref in OneOff(s);
      }
    }
  }

  /** Distinct items from a set are at most as many as the set has. */
  lemma {:induction false} DistinctInSet(s: seq<Candidate>, all: set<Candidate>)
    requires NoDuplicates(s) && forall x :: x in s ==> x in all
    ensures |s| <= |all|
  {
    if s != [] {
      var init, x := s[..|s| - 1], s[|s| - 1];
      assert forall y :: y in init ==> y in s && y != x;
      DistinctInSet(init, all - {x});
      assert x in s;
    }
  }

  /** More open items than misfits: one of them fits. */
  lemma OpenItemFits(inp: Inputs, i: nat, d: nat)
    requires inp.cs.WellFormed() && i < |ClusterTour(inp)| && 1 <= d <= inp.days + 1
    requires Left(inp, ClusterTour(inp), i, d) > |Misfits(inp, i)|
    ensures exists x :: Open(ClusterTour(inp)[i], UsedBefore(inp, ClusterTour(inp), d), x) && AlwaysFits(inp, i, x)
  {
    hide ClusterTour, AlwaysFits, UsedBefore;
    var c, used := ClusterTour(inp)[i], UsedBefore(inp, ClusterTour(inp), d);
    var open := Available(c.items, used);
    ClusterFacts(inp, i);
    FilterKeepsNoDuplicates(c.items, (x: Candidate) => x.ref !in used || x.repeatable);
    if forall x :: x in open ==> x in Misfits(inp, i) {
      DistinctInSet(open, Misfits(inp, i));
    }
    var x :| x in open && x !in Misfits(inp, i);
    assert Open(c, used, x);
  }

  lemma OpenItemServes(inp: Inputs, i: nat, d: nat, x: Candidate)
    requires ClusterTour(inp) != [] && VisitedOn(inp, i, d)
    requires Open(ClusterTour(inp)[i], UsedBefore(inp, ClusterTour(inp), d), x) && AlwaysFits(inp, i, x)
    ensures Stops(inp, ClusterTour(inp), d) != []
  {
    hide ClusterTour, Stops, Budget, Share, Pool, UsedBefore, Open, Cost;
    DayFill(inp, ClusterTour(inp), d);
    assert VisitedOn(inp, i, d);
  }

  /** Enough items, misfits and all: a toured cluster that can spare them leaves none of its days empty,
      whatever fits and whatever does not. */
  lemma EnoughToSpare(inp: Inputs, i: nat, d: nat)
    requires inp.cs.WellFormed() && i < |ClusterTour(inp)| && VisitedOn(inp, i, d) && ServesAnyway(inp, i)
    ensures Stops(inp, ClusterTour(inp), d) != []
  {
    hide ClusterTour, Stops, Budget, UsedBefore, AlwaysFits;
    var c, used := ClusterTour(inp)[i], UsedBefore(inp, ClusterTour(inp), d);
    if x :| x in c.items && x.repeatable && AlwaysFits(inp, i, x) {
      OpenItemServes(inp, i, d, x);
    } else {
      var m := |Misfits(inp, i)| + 1;
      LeftCoversVisits(inp, i, d, m);
      MulLe(1, Visits(|ClusterTour(inp)|, i, d, inp.days), m);
      OpenItemFits(inp, i, d);
      var x :| Open(c, used, x) && AlwaysFits(inp, i, x);
      OpenItemServes(inp, i, d, x);
    }
  }

  /** The day's cluster holds an item that alone fits the day. */
  ghost predicate SomethingFits(inp: Inputs, d: nat)
    requires ClusterTour(inp) != [] && d >= 1
  {
    exists x :: x in Visit(ClusterTour(inp), d).items && Cost(x) <= Budget(inp, ClusterTour(inp), d)
  }

  /** Until its first visit a cluster is untouched. */
  lemma {:induction false} UntouchedBefore(inp: Inputs, i: nat, d: nat)
    requires inp.cs.WellFormed() && i < |ClusterTour(inp)| && 1 <= d <= i + 1 <= inp.days
    ensures var c := ClusterTour(inp)[i]; Available(c.items, UsedBefore(inp, ClusterTour(inp), d)) == c.items
  {
    hide ClusterTour, Picks, Available;
    if d == 1 {
      EverythingAvailable(ClusterTour(inp)[i].items);
    } else {
      UntouchedBefore(inp, i, d - 1);
      assert (d - 2) % |ClusterTour(inp)| == d - 2;
      OtherDayLeavesPool(inp, i, d - 1);
    }
  }

  /** The first day in each cluster is empty exactly when nothing in the cluster fits it. */
  lemma FirstVisitEmptyIff(inp: Inputs, d: nat)
    requires inp.cs.WellFormed() && 1 <= d <= |ClusterTour(inp)| && d <= inp.days
    ensures Stops(inp, ClusterTour(inp), d) == [] <==> !SomethingFits(inp, d)
  {
    hide ClusterTour, Stops, Budget, Share, Pool, UsedBefore, Cost;
    var tour := ClusterTour(inp);
    var c, used := tour[d - 1], UsedBefore(inp, tour, d);
    assert (d - 1) % |tour| == d - 1;
    UntouchedBefore(inp, d - 1, d);
    DayFill(inp, tour, d);
    forall x ensures Open(c, used, x) <==> x in c.items {
      assert x in Available(c.items, used) ==> Open(c, used, x);
    }
  }

  /** On every input: if no day is empty, each toured cluster holds something repeatable or an item for
      each of its visits, and each day has in its cluster an item that fits it. */
  lemma NoEmptyDayNeeds(inp: Inputs)
    requires inp.cs.WellFormed() && ClusterTour(inp) != []
    requires forall d :: 1 <= d <= inp.days ==> Stops(inp, ClusterTour(inp), d) != []
    ensures forall i :: 0 <= i < |ClusterTour(inp)| ==>
      var c := ClusterTour(inp)[i]; (exists x :: x in c.items && x.repeatable) || |c.items| >= VisitsOf(inp, i)
    ensures forall d :: 1 <= d <= inp.days ==> SomethingFits(inp, d)
  {
    hide ClusterTour, Stops, Budget, UsedBefore, Cost, Share, Pool;
    var tour := ClusterTour(inp);
    forall i | 0 <= i < |tour|
      ensures (exists x :: x in tour[i].items && x.repeatable) || |tour[i].items| >= VisitsOf(inp, i)
    {
      if forall x :: x in tour[i].items ==> !x.repeatable {
        VisitsArePaidFor(inp, i, inp.days + 1);
      }
    }
    forall d | 1 <= d <= inp.days ensures SomethingFits(inp, d) {
      DayFill(inp, tour, d);
      var x :| Open(Visit(tour, d), UsedBefore(inp, tour, d), x) && Cost(x) <= Budget(inp, tour, d);
    }
  }

  // ------------------------------------------------------------ the exact condition

  lemma {:induction false} FirstVisitCounts(k: nat, i: nat, d: nat, days: nat)
    requires i < k && 1 <= d <= i + 1 <= days
    ensures Visits(k, i, d, days) == 1 + Visits(k, i, i + 2, days)
    decreases i + 1 - d
  {
    assert (d - 1) % k == d - 1;
    if d <= i {
      FirstVisitCounts(k, i, d + 1, days);
    }
  }

  lemma {:induction false} NoLaterVisit(k: nat, i: nat, from: nat, d: nat, days: nat)
    requires k >= 1 && 1 <= from <= d <= days && Visits(k, i, from, days) == 0
    ensures (d - 1) % k != i
    decreases d - from
  {
    if from < d {
      NoLaterVisit(k, i, from + 1, d, days);
    }
  }

  lemma SmallMod(a: nat, k: nat)
    requires k >= 1
    ensures a < k ==> a % k == a
  {
  }

  lemma OnlyVisitIs(k: nat, i: nat, d: nat, days: nat)
    requires i < k && 1 <= d <= days && (d - 1) % k == i && Visits(k, i, 1, days) <= 1
    ensures d == i + 1
  {
    hide Visits;
    SmallMod(d - 1, k);
    if d > i + 1 {
      FirstVisitCounts(k, i, 1, days);
      NoLaterVisit(k, i, i + 2, d, days);
    }
  }

  /** A cluster visited once is visited on its day in the first round. */
  lemma OnlyVisit(inp: Inputs, i: nat, d: nat)
    requires i < |ClusterTour(inp)| && VisitedOn(inp, i, d) && VisitsOf(inp, i) <= 1
    ensures d == i + 1
  {
    hide ClusterTour, Visits;
    OnlyVisitIs(|ClusterTour(inp)|, i, d, inp.days);
  }

  lemma DayServed(inp: Inputs, i: nat, d: nat)
    requires inp.cs.WellFormed() && i < |ClusterTour(inp)| && FitsWhereRevisited(inp) && VisitedOn(inp, i, d)
    requires CanServe(inp, i)
    ensures Stops(inp, ClusterTour(inp), d) != []
  {
    hide ClusterTour, Stops, Budget;
    if VisitsOf(inp, i) <= 1 {
      OnlyVisit(inp, i, d);
      FirstVisitEmptyIff(inp, d);
      var x :| x in ClusterTour(inp)[i].items && AlwaysFits(inp, i, x);
      assert VisitedOn(inp, i, d) && x in Visit(ClusterTour(inp), d).items;
    } else {
      assert Misfits(inp, i) == {};
      assert forall x :: x in ClusterTour(inp)[i].items ==> x in Misfits(inp, i) || AlwaysFits(inp, i, x);
      EnoughToSpare(inp, i, d);
    }
  }

  /** Provided every item fits where a cluster is visited again, a bedless trip has no empty day exactly when
      every cluster can serve its visits. */
  lemma NoEmptyDayIff(inp: Inputs)
    requires inp.cs.WellFormed() && ClusterTour(inp) != [] && FitsWhereRevisited(inp)
    ensures (forall d :: 1 <= d <= inp.days ==> Stops(inp, ClusterTour(inp), d) != []) <==>
            (forall i :: 0 <= i < |ClusterTour(inp)| ==> CanServe(inp, i))
  {
    hide ClusterTour, Stops, Budget, UsedBefore;
    var tour := ClusterTour(inp);
    if forall i :: 0 <= i < |tour| ==> CanServe(inp, i) {
      forall d | 1 <= d <= inp.days ensures Stops(inp, tour, d) != [] {
        DayServed(inp, (d - 1) % |tour|, d);
      }
    }
    if forall d :: 1 <= d <= inp.days ==> Stops(inp, tour, d) != [] {
      NoEmptyDayNeeds(inp);
      TourSize(inp);
      forall i | 0 <= i < |tour| ensures CanServe(inp, i) {
        ServedOnce(inp, i);
      }
    }
  }

  lemma ServedOnce(inp: Inputs, i: nat)
    requires i < |ClusterTour(inp)| <= inp.days
    requires var c := ClusterTour(inp)[i]; (exists x :: x in c.items && x.repeatable) || |c.items| >= VisitsOf(inp, i)
    requires SomethingFits(inp, i + 1)
    ensures CanServe(inp, i)
  {
    hide ClusterTour, Budget, Cost;
    if VisitsOf(inp, i) <= 1 {
      assert i % |ClusterTour(inp)| == i;
      var x :| x in ClusterTour(inp)[i].items && Cost(x) <= Budget(inp, ClusterTour(inp), i + 1);
      forall d | VisitedOn(inp, i, d) ensures d == i + 1 {
        OnlyVisit(inp, i, d);
      }
      assert AlwaysFits(inp, i, x);
    }
  }
}
