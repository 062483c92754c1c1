/** What the deterministic composer guarantees, for every brief, candidate set,
    travel estimate and distance. */
module ComposeProofs {
  import opened Util
  import opened Domain
  import opened Validate
  import opened ComposeGreedy
  import Tour

  // ------------------------------------------------------ refs and identities

  ghost predicate RefsIdentify(cs: seq<Candidate>) {
    forall a, b :: a in cs && b in cs && a.ref == b.ref ==> a == b
  }

  lemma DoableRefsDiffer(cs: CandidateSet, i: nat, j: nat)
    requires cs.WellFormed() && i < j < |cs.Doable()|
    ensures cs.Doable()[i].ref != cs.Doable()[j].ref
  {
    var all, n, s := cs.All(), |cs.places|, |cs.stays|;
    assert cs.Doable()[i] == if i < n then all[i] else all[i + s];
    assert cs.Doable()[j] == if j < n then all[j] else all[j + s];
  }

  lemma DoableFacts(cs: CandidateSet)
    requires cs.WellFormed()
    ensures NoDuplicates(cs.Doable()) && RefsIdentify(cs.Doable())
    ensures forall c :: c in cs.Doable() ==> c in cs.All()
  {
    var doable := cs.Doable();
    forall i, j | 0 <= i < j < |doable| ensures doable[i].ref != doable[j].ref {
      DoableRefsDiffer(cs, i, j);
    }
    hide CandidateSet.WellFormed, CandidateSet.Doable;
    forall a, b | a in doable && b in doable && a.ref == b.ref ensures a == b {
      var i :| 0 <= i < |doable| && doable[i] == a;
      var j :| 0 <= j < |doable| && doable[j] == b;
      assert i == j;
    }
  }

  lemma FilterKeepsNoDuplicates<T>(s: seq<T>, p: T -> bool)
    requires NoDuplicates(s)
    ensures NoDuplicates(Filter(s, p))
  {
    if s != [] {
      var rest := Filter(s[1..], p);
      FilterKeepsNoDuplicates(s[1..], p);
      assert s[0] !in s[1..];
      assert s[0] !in rest;
    }
  }

  lemma PoolFacts(c: Cluster, used: set<string>)
    ensures |Pool(c, used)| == |Available(c.items, used)|
    ensures forall x :: x in Pool(c, used) <==> x in c.items && (x.ref !in used || x.repeatable)
    ensures NoDuplicates(c.items) ==> NoDuplicates(Pool(c, used))
  {
    PermutationFacts(Pool(c, used), Available(c.items, used));
    if NoDuplicates(c.items) {
      FilterKeepsNoDuplicates(c.items, (x: Candidate) => x.ref !in used || x.repeatable);
      NoDuplicatesPermutation(Available(c.items, used), Pool(c, used));
    }
  }

  // ------------------------------------------------------------ filling a day

  /** The loop never exceeds the share or the budget, never drops a pick, and stops
      short of its share only when nothing that is left still fits. */
  lemma {:induction false} FillFacts(pool: seq<Candidate>, share: nat, budget: nat, picked: seq<Candidate>)
    requires |picked| <= share && Spend(picked) <= budget
    ensures var f := Fill(pool, share, budget, picked);
      && picked <= f && |f| <= share && Spend(f) <= budget
      && (forall x :: x in f ==> x in picked || x in pool)
      && (|f| < share ==> forall x :: x in pool ==> x in f || Spend(f) + Cost(x) > budget)
    decreases pool
  {
    if pool != [] && |picked| < share {
      var c := pool[0];
      var more := picked + [c];
      assert more[..|picked|] == picked;
      if Spend(picked) + Cost(c) > budget {
        FillFacts(pool[1..], share, budget, picked);
        SpendMonotone(picked, Fill(pool, share, budget, picked));
      } else if Spend(picked) + Cost(c) < budget {
        FillFacts(pool[1..], share, budget, more);
        var f := Fill(pool, share, budget, picked);
        assert c == more[|picked|] == f[|picked|];
        assert picked <= more <= f;
      }
    }
  }

  /** A pool without repetition is picked from without repetition. */
  lemma {:induction false} FillPicksOnce(pool: seq<Candidate>, share: nat, budget: nat, picked: seq<Candidate>)
    requires NoDuplicates(picked + pool)
    ensures NoDuplicates(Fill(pool, share, budget, picked))
    decreases pool
  {
    hide Spend;
    PrefixKeepsNoDuplicates(picked, pool);
    if pool != [] && |picked| < share {
      var more := picked + [pool[0]];
      assert picked + pool == more + pool[1..];
      PrefixKeepsNoDuplicates(more, pool[1..]);
      SkipKeepsNoDuplicates(picked, pool);
      if Spend(picked) + Cost(pool[0]) > budget {
        FillPicksOnce(pool[1..], share, budget, picked);
      } else if Spend(picked) + Cost(pool[0]) < budget {
        FillPicksOnce(pool[1..], share, budget, more);
      }
    }
  }

  lemma PrefixKeepsNoDuplicates(a: seq<Candidate>, b: seq<Candidate>)
    requires NoDuplicates(a + b)
    ensures NoDuplicates(a)
  {
    assert forall i :: 0 <= i < |a| ==> a[i] == (a + b)[i];
  }

  lemma SkipKeepsNoDuplicates(picked: seq<Candidate>, pool: seq<Candidate>)
    requires pool != []
    ensures NoDuplicates(picked + pool) ==> NoDuplicates(picked + pool[1..])
  {
    var a, b := picked + pool, picked + pool[1..];
    assert forall i :: 0 <= i < |b| ==> b[i] == a[if i < |picked| then i else i + 1];
  }

  lemma SpendMonotone(a: seq<Candidate>, b: seq<Candidate>)
    requires a <= b
    ensures Spend(a) <= Spend(b)
  {
    if |a| < |b| {
      SpendMonotone(a, b[..|b| - 1]);
    } else {
      assert a == b;
    }
  }

  /** A day stays empty exactly when nothing in its pool fits its budget; otherwise the
      first pick is one no fitting item is ranked above. */
  lemma {:induction false} FillStart(pool: seq<Candidate>, share: nat, budget: nat)
    requires share >= 1 && Sorted(pool, Better)
    ensures Fill(pool, share, budget, []) == [] <==> forall x :: x in pool ==> Cost(x) > budget
    ensures Fill(pool, share, budget, []) != [] ==>
      forall x :: x in pool && Cost(x) <= budget ==> !Better(x, Fill(pool, share, budget, [])[0])
    decreases pool
  {
    if pool != [] {
      var c := pool[0];
      FirstIsBest(pool);
      assert Sorted(pool[1..], Better);
      hide Better, Sorted;
      if Cost(c) > budget {
        FillStart(pool[1..], share, budget);
        assert Fill(pool, share, budget, []) == Fill(pool[1..], share, budget, []);
        assert forall x :: x in pool <==> x == c || x in pool[1..];
      } else {
        assert [] + [c] == [c] && [c][..0] == [] && Spend([c]) == Cost(c);
        if Cost(c) < budget {
          FillFacts(pool[1..], share, budget, [c]);
        }
        assert Fill(pool, share, budget, [])[0] == c;
      }
    }
  }

  lemma FirstIsBest(pool: seq<Candidate>)
    requires pool != [] && Sorted(pool, Better)
    ensures forall x :: x in pool ==> !Better(x, pool[0])
  {
    BetterIsWeakOrder();
    hide Better;
    forall x | x in pool ensures !Better(x, pool[0]) {
      var i :| 0 <= i < |pool| && pool[i] == x;
    }
  }

  lemma BetterIsWeakOrder()
    ensures WeakOrder(Better)
  {
    forall x, y | Better(x, y) ensures !Better(y, x) {
      if StrLess(x.name, y.name) {
        StrLessAsymmetric(x.name, y.name);
      }
    }
    forall x, y, z | !Better(x, y) && !Better(y, z) ensures !Better(x, z) {
      if !StrLess(x.name, y.name) && !StrLess(y.name, z.name) {
        StrLessNegTransitive(x.name, y.name, z.name);
      }
    }
  }

  lemma PoolIsRanked(c: Cluster, used: set<string>)
    ensures Sorted(Pool(c, used), Better)
  {
    BetterIsWeakOrder();
    StableSortSorted(Available(c.items, used), Better);
  }

  // ------------------------------------------------------------ the day's picks

  lemma StopsFacts(inp: Inputs, tour: seq<Cluster>, d: nat)
    requires tour != [] && 1 <= d <= inp.days
    ensures var used, c, s := UsedBefore(inp, tour, d), Visit(tour, d), Stops(inp, tour, d);
      && (forall x :: x in s ==> x in c.items && (x.ref !in used || x.repeatable))
      && (NoDuplicates(c.items) ==> NoDuplicates(s))
      && Spend(s) <= Budget(inp, tour, d)
      && |s| <= Share(|Pool(c, used)|, inp.days - d + 1)
  {
    hide UsedBefore, Visit, Pool, Share, Budget, Fill;
    var used, c := UsedBefore(inp, tour, d), Visit(tour, d);
    PoolFacts(c, used);
    var share := Share(|Pool(c, used)|, inp.days - d + 1);
    FillFacts(Pool(c, used), share, Budget(inp, tour, d), []);
    assert [] + Pool(c, used) == Pool(c, used);
    if NoDuplicates(c.items) {
      FillPicksOnce(Pool(c, used), share, Budget(inp, tour, d), []);
    }
  }

  /** An item of the cluster that is still to be had: not used up, or repeatable. */
  ghost predicate Open(c: Cluster, used: set<string>, x: Candidate) { x in c.items && (x.ref !in used || x.repeatable) }

  /** The picks are empty exactly when no open item fits the budget; otherwise the first is one no fitting
      item is ranked above; and fewer picks than the share means nothing left over still fits. */
  ghost predicate WellFilled(c: Cluster, used: set<string>, picks: seq<Candidate>, share: nat, budget: nat) {
    && (picks == [] <==> forall x :: Open(c, used, x) ==> Cost(x) > budget)
    && (picks != [] ==> forall x :: Open(c, used, x) && Cost(x) <= budget ==> !Better(x, picks[0]))
    && (|picks| < share ==> forall x :: Open(c, used, x) ==> x in picks || Spend(picks) + Cost(x) > budget)
  }

  lemma PoolIsOpen(c: Cluster, used: set<string>)
    ensures forall x :: x in Pool(c, used) <==> Open(c, used, x)
  {
    PoolFacts(c, used);
    hide Pool;
  }

  lemma FillsWell(c: Cluster, used: set<string>, pool: seq<Candidate>, share: nat, budget: nat)
    requires share >= 1 && Sorted(pool, Better) && forall x :: x in pool <==> Open(c, used, x)
    ensures WellFilled(c, used, Fill(pool, share, budget, []), share, budget)
  {
    assert Spend([]) == 0;
    hide Open, Fill, Sorted, Better, Spend, Cost;
    FillFacts(pool, share, budget, []);
    FillStart(pool, share, budget);
  }

  /** Every day of a composed trip is filled that way, within what the approach drive leaves of it. */
  lemma DayFill(inp: Inputs, tour: seq<Cluster>, d: nat)
    requires tour != [] && 1 <= d <= inp.days
    ensures var used, c, b := UsedBefore(inp, tour, d), Visit(tour, d), Budget(inp, tour, d);
      WellFilled(c, used, Stops(inp, tour, d), Share(|Pool(c, used)|, inp.days - d + 1), b)
  {
    hide *;
    var used, c := UsedBefore(inp, tour, d), Visit(tour, d);
    PoolIsOpen(c, used);
    PoolIsRanked(c, used);
    FillsWell(c, used, Pool(c, used), Share(|Pool(c, used)|, inp.days - d + 1), Budget(inp, tour, d));
    StopsFillPool(inp, tour, d);
  }

  lemma StopsFillPool(inp: Inputs, tour: seq<Cluster>, d: nat)
    requires tour != [] && 1 <= d <= inp.days
    ensures var pool := Pool(Visit(tour, d), UsedBefore(inp, tour, d));
      Stops(inp, tour, d) == Fill(pool, Share(|pool|, inp.days - d + 1), Budget(inp, tour, d), [])
  {
    hide Pool, Share, Budget, Visit, UsedBefore, Fill;
  }

  lemma UsedGrows(inp: Inputs, tour: seq<Cluster>, d: nat, e: nat)
    requires tour != [] && 1 <= d <= e <= inp.days + 1
    ensures UsedBefore(inp, tour, d) <= UsedBefore(inp, tour, e)
    decreases e
  {
    hide Picks;
    if d < e {
      UsedGrows(inp, tour, d, e - 1);
    }
  }

  lemma OneOffUsed(inp: Inputs, tour: seq<Cluster>, d: nat, x: Candidate)
    requires tour != [] && 1 <= d <= inp.days && x in Stops(inp, tour, d)
    ensures !x.repeatable ==> x.ref in UsedBefore(inp, tour, d + 1)
  {
    hide Picks, Visit, Budget, Share, Pool;
  }

  /** A stop that may not repeat is picked on at most one day. */
  lemma PickedOnce(inp: Inputs, tour: seq<Cluster>, d: nat, e: nat, x: Candidate)
    requires tour != [] && 1 <= d < e <= inp.days && x in Stops(inp, tour, d) && x in Stops(inp, tour, e)
    ensures x.repeatable
  {
    hide Picks, Visit, Budget, Share, Pool;
    StopsFacts(inp, tour, e);
    UsedGrows(inp, tour, d + 1, e);
    OneOffUsed(inp, tour, d, x);
  }

  // ------------------------------------------------------------------- the tour

  lemma {:induction false} TourMembers(inp: Inputs, c: Cluster)
    requires c in ClusterTour(inp)
    ensures c in Clusters(inp.cs.Doable())
    ensures c.items != [] && c.items == InRegion(inp.cs.Doable(), c.region)
    ensures inp.cs.WellFormed() ==> NoDuplicates(c.items)
  {
    var cs := Clusters(inp.cs.Doable());
    var chosen := Chosen(cs, inp.days);
    Tour.FromPermutes(chosen, inp.origin, Centroid, inp.dist);
    PermutationFacts(chosen, ClusterTour(inp));
    PermutationFacts(cs, StableSort(cs, Stronger));
    assert c in StableSort(cs, Stronger);
    ClustersPartition(inp.cs.Doable());
    if inp.cs.WellFormed() {
      DoableFacts(inp.cs);
      FilterKeepsNoDuplicates(inp.cs.Doable(), (x: Candidate) => x.region == c.region);
    }
  }

  /** The tour: the min(days, n) strongest clusters and no other, each visited once, always
      moving to the nearest centroid still to be seen. */
  lemma TourIsStrongestAndGreedy(inp: Inputs)
    ensures var tour, all := ClusterTour(inp), Clusters(inp.cs.Doable());
      && |tour| == (if |all| <= inp.days then |all| else inp.days)
      && NoDuplicates(tour)
      && (forall c :: c in tour ==> c in all)
      && (forall a, b :: a in tour && b in all && b !in tour ==> Score(a) >= Score(b))
      && Tour.IsGreedy(tour, inp.origin, Centroid, inp.dist)
  {
    hide Score, Clusters, Centroid, Tour.From;
    var tour, all := ClusterTour(inp), Clusters(inp.cs.Doable());
    var ranked := StableSort(all, Stronger);
    var chosen := Chosen(all, inp.days);
    Tour.FromIsGreedy(chosen, inp.origin, Centroid, inp.dist);
    Tour.FromPermutes(chosen, inp.origin, Centroid, inp.dist);
    ChosenAreStrongest(all, inp.days, tour);
    ClustersPartition(inp.cs.Doable());
    NoDuplicatesPermutation(all, ranked);
    assert NoDuplicates(chosen);
    NoDuplicatesPermutation(chosen, tour);
    assert forall c :: c in tour ==> c in multiset(all);
    assert forall b :: b in all && b !in tour ==> b in multiset(all) - multiset(tour);
  }

  lemma TourEmptyIff(inp: Inputs)
    requires inp.days >= 1
    ensures ClusterTour(inp) == [] <==> inp.cs.Doable() == []
  {
    TourSize(inp);
    ClustersPartition(inp.cs.Doable());
  }

  // ----------------------------------------------------------- validity

  /** The items of composed day `d` are the day's stops in some order. */
  lemma DayItems(inp: Inputs, tour: seq<Cluster>, d: nat) returns (ordered: seq<Candidate>)
    requires tour != [] && 1 <= d <= inp.days
    ensures multiset(ordered) == multiset(Stops(inp, tour, d))
    ensures DayOf(inp, tour, d).items == Refs(ordered)
    ensures DayOf(inp, tour, d).items == [] <==> Stops(inp, tour, d) == []
  {
    var s := Stops(inp, tour, d);
    ordered := InOrder(inp, tour, d, s);
    Tour.FromPermutes(s, if d == 1 then inp.origin else Centroid(Visit(tour, d)), PointOf, inp.dist);
    PermutationFacts(ordered, s);
  }

  lemma StopResolves(inp: Inputs, tour: seq<Cluster>, d: nat, c: Candidate)
    requires inp.cs.WellFormed() && tour == ClusterTour(inp) != [] && 1 <= d <= inp.days && c in Stops(inp, tour, d)
    ensures c in inp.cs.Doable() && c.ref in inp.cs.ByRef() && inp.cs.ByRef()[c.ref] == c && c.kind != Stay
  {
    hide Stops, ClusterTour, UsedBefore, Budget, Share, Pool;
    StopsFacts(inp, tour, d);
    TourMembers(inp, Visit(tour, d));
    DoableFacts(inp.cs);
    ByRefFinds(inp.cs, c);
  }

  /** Item `k` of composed day `i + 1` resolves to a stop of that day. */
  lemma ItemResolves(inp: Inputs, tour: seq<Cluster>, i: nat, k: nat) returns (c: Candidate)
    requires inp.cs.WellFormed() && tour == ClusterTour(inp) != [] && i < inp.days
    requires k < |DayOf(inp, tour, i + 1).items|
    ensures c.ref == DayOf(inp, tour, i + 1).items[k] && c in Stops(inp, tour, i + 1)
    ensures c in inp.cs.Doable() && c.ref in inp.cs.ByRef() && inp.cs.ByRef()[c.ref] == c && c.kind != Stay
  {
    hide Stops, ClusterTour, DayOf, CandidateSet.ByRef, CandidateSet.WellFormed;
    var ordered := DayItems(inp, tour, i + 1);
    c := ordered[k];
    PermutationFacts(ordered, Stops(inp, tour, i + 1));
    StopResolves(inp, tour, i + 1, c);
  }

  lemma SameDayItemsDiffer(inp: Inputs, tour: seq<Cluster>, d: nat, k: nat, l: nat)
    requires inp.cs.WellFormed() && tour == ClusterTour(inp) != [] && 1 <= d <= inp.days
    requires k < l < |DayOf(inp, tour, d).items|
    ensures DayOf(inp, tour, d).items[k] != DayOf(inp, tour, d).items[l]
  {
    hide Stops, ClusterTour, DayOf, CandidateSet.WellFormed, UsedBefore, Budget, Share, Pool;
    var ordered := DayItems(inp, tour, d);
    StopsFacts(inp, tour, d);
    TourMembers(inp, Visit(tour, d));
    NoDuplicatesPermutation(Stops(inp, tour, d), ordered);
    PermutationFacts(ordered, Stops(inp, tour, d));
    StopResolves(inp, tour, d, ordered[k]);
    StopResolves(inp, tour, d, ordered[l]);
    DoableFacts(inp.cs);
    assert ordered[k] != ordered[l];
  }

  lemma ItemsDiffer(inp: Inputs, tour: seq<Cluster>, i: nat, k: nat, j: nat, l: nat)
    requires inp.cs.WellFormed() && tour == ClusterTour(inp) != [] && i < inp.days && j < inp.days
    requires k < |DayOf(inp, tour, i + 1).items| && l < |DayOf(inp, tour, j + 1).items| && Earlier(i, k, j, l)
    requires DayOf(inp, tour, i + 1).items[k] == DayOf(inp, tour, j + 1).items[l]
    ensures !MustNotRepeat(inp.cs.ByRef(), DayOf(inp, tour, i + 1).items[k])
  {
    hide Stops, ClusterTour, Visit, DayOf, CandidateSet.ByRef, CandidateSet.WellFormed;
    var a := ItemResolves(inp, tour, i, k);
    var b := ItemResolves(inp, tour, j, l);
    assert a == b;
    if i < j {
      PickedOnce(inp, tour, i + 1, j + 1, a);
    } else {
      SameDayItemsDiffer(inp, tour, i + 1, k, l);
    }
  }

  /** Every day has a stop or a bed to show for it. */
  ghost predicate NoHoles(inp: Inputs) {
    inp.cs.stays != [] ||
    (ClusterTour(inp) != [] && forall d :: 1 <= d <= inp.days ==> Stops(inp, ClusterTour(inp), d) != [])
  }

  lemma DayNumber(inp: Inputs, tour: seq<Cluster>, d: nat)
    requires tour != [] && 1 <= d <= inp.days
    ensures DayOf(inp, tour, d).number == d
  {
  }

  /** A composed day sleeps in a real stay, the nearest to the middle of its stops, if there is any stay. */
  lemma BedsResolve(inp: Inputs, tour: seq<Cluster>, d: nat)
    requires inp.cs.WellFormed() && tour != [] && 1 <= d <= inp.days
    ensures var day := DayOf(inp, tour, d);
      && (day.HasBed() <==> inp.cs.stays != [])
      && (day.HasBed() ==> day.stayRef.value in inp.cs.ByRef() && inp.cs.ByRef()[day.stayRef.value].kind == Stay)
      && (day.HasBed() ==> forall t :: t in inp.cs.stays ==>
            inp.dist(Centre(inp, tour, d), inp.cs.ByRef()[day.stayRef.value].point)
              <= inp.dist(Centre(inp, tour, d), t.point))
  {
    hide InOrder, Visit, Mean;
    var stay := NearestStay(inp.cs.stays, Centre(inp, tour, d), inp.dist);
    if stay.Some? {
      assert stay.value in inp.cs.All();
      ByRefFinds(inp.cs, stay.value);
    }
  }

  /** The middle of the day's stops; of its cluster when it has none. */
  ghost function Centre(inp: Inputs, tour: seq<Cluster>, d: nat): GeoPoint
    requires tour != [] && 1 <= d <= inp.days
  {
    var ordered := InOrder(inp, tour, d, Stops(inp, tour, d));
    if ordered == [] then Centroid(Visit(tour, d)) else Mean(ordered)
  }

  /** Three stops or more are visited nearest first, from the origin on day 1 and from the cluster's
      middle later; one or two as they were picked. */
  lemma DayVisitsNearestFirst(inp: Inputs, tour: seq<Cluster>, d: nat)
    requires tour != [] && 1 <= d <= inp.days
    ensures var ordered := InOrder(inp, tour, d, Stops(inp, tour, d));
      && DayOf(inp, tour, d).items == Refs(ordered) && multiset(ordered) == multiset(Stops(inp, tour, d))
      && (|ordered| <= 2 ==> ordered == Stops(inp, tour, d))
      && (|ordered| >= 3 ==>
            Tour.IsGreedy(ordered, if d == 1 then inp.origin else Mean(Visit(tour, d).items), PointOf, inp.dist))
  {
    hide Stops, Visit, Mean, Tour.From, Tour.IsGreedy;
    var start := if d == 1 then inp.origin else Centroid(Visit(tour, d));
    Tour.FromPermutes(Stops(inp, tour, d), start, PointOf, inp.dist);
    Tour.FromIsGreedy(Stops(inp, tour, d), start, PointOf, inp.dist);
  }

  /** A cluster's score is the sum of its three greatest match weights, or of all it has. */
  lemma ScoreIsTopThree(c: Cluster) returns (top: seq<int>)
    ensures multiset(top) == multiset(seq(|c.items|, i requires 0 <= i < |c.items| => c.items[i].matchWeight))
    ensures forall i, j :: 0 <= i < j < |top| ==> top[i] >= top[j]
    ensures Score(c) == if |top| <= 3 then Sum(top) else top[0] + top[1] + top[2]
  {
    var descending := (a: int, b: int) => a > b;
    top := StableSort(Weights(c.items), descending);
    StableSortSorted(Weights(c.items), descending);
    assert Weights(c.items) == seq(|c.items|, i requires 0 <= i < |c.items| => c.items[i].matchWeight);
    hide StableSort, Sum, Weights;
    assert forall i, j :: 0 <= i < j < |top| ==> !descending(top[j], top[i]);
    if |top| > 3 {
      ThreeSum(top[0], top[1], top[2]);
      assert top[..3] == [top[0], top[1], top[2]];
    }
  }

  lemma ThreeSum(a: int, b: int, c: int)
    ensures Sum([a, b, c]) == a + b + c
  {
    assert [a, b, c][1..] == [b, c] && [b, c][1..] == [c] && [c][1..] == [];
    assert Sum([c]) == c && Sum([b, c]) == b + c;
  }

  /** Exactly when our own composer satisfies stage 3: there is something to do, and there
      is a stay or no day comes out empty. */
  lemma ComposedValidIff(inp: Inputs)
    requires inp.cs.WellFormed() && inp.days >= 1
    ensures DraftValid(Composed(inp), inp.cs, inp.days) <==> inp.cs.Doable() != [] && NoHoles(inp)
  {
    hide Stops, ClusterTour, DayOf;
    var tour, draft := ClusterTour(inp), Composed(inp);
    TourEmptyIff(inp);
    if tour == [] {
      DayNumbersOk(draft, inp.days);
      assert draft.days == [];
    } else {
      forall d | 1 <= d <= inp.days
        ensures draft.days[d - 1].items == [] <==> Stops(inp, tour, d) == []
        ensures draft.days[d - 1].HasBed() <==> inp.cs.stays != []
      {
        var _ := DayItems(inp, tour, d);
        BedsResolve(inp, tour, d);
      }
      if NoHoles(inp) {
        ComposedIsValid(inp);
      } else {
        var d :| 1 <= d <= inp.days && Stops(inp, tour, d) == [];
        assert draft.days[d - 1] in draft.days;
      }
    }
  }

  lemma ComposedIsValid(inp: Inputs)
    requires inp.cs.WellFormed() && inp.days >= 1 && inp.cs.Doable() != [] && NoHoles(inp)
    ensures DraftValid(Composed(inp), inp.cs, inp.days)
  {
    hide Stops, ClusterTour, DayOf, NoHoles, CandidateSet.ByRef, CandidateSet.WellFormed, Numbers;
    var tour, draft, byRef := ClusterTour(inp), Composed(inp), inp.cs.ByRef();
    TourEmptyIff(inp);
    ComposedNumbers(inp);
    forall d | d in draft.days
      ensures d.HasBed() ==> d.stayRef.value in byRef && byRef[d.stayRef.value].kind == Stay
      ensures d.items != [] || d.HasBed()
    {
      var i :| 0 <= i < inp.days && draft.days[i] == d;
      DayIsWhole(inp, tour, i + 1);
    }
    forall d, r | d in draft.days && r in d.items ensures r in byRef && byRef[r].kind != Stay {
      var i :| 0 <= i < inp.days && draft.days[i] == d;
      var k :| 0 <= k < |d.items| && d.items[k] == r;
      var c := ItemResolves(inp, tour, i, k);
    }
    forall r | References(draft, r) ensures r in byRef {
      var d :| d in draft.days && ((d.HasBed() && d.stayRef.value == r) || r in d.items);
    }
    forall i, k, j, l, r | ItemAt(draft, i, k, r) && ItemAt(draft, j, l, r) && Earlier(i, k, j, l)
      ensures !MustNotRepeat(byRef, r)
    {
      ItemsDiffer(inp, tour, i, k, j, l);
    }
  }

  lemma ComposedNumbers(inp: Inputs)
    requires ClusterTour(inp) != []
    ensures Numbers(Composed(inp)) == OneTo(inp.days)
  {
    hide ClusterTour, DayOf;
    forall i | 0 <= i < inp.days ensures Composed(inp).days[i].number == i + 1 {
      DayNumber(inp, ClusterTour(inp), i + 1);
    }
  }

  lemma DayIsWhole(inp: Inputs, tour: seq<Cluster>, d: nat)
    requires inp.cs.WellFormed() && tour == ClusterTour(inp) != [] && 1 <= d <= inp.days && NoHoles(inp)
    ensures var day := DayOf(inp, tour, d);
      && (day.HasBed() ==> day.stayRef.value in inp.cs.ByRef() && inp.cs.ByRef()[day.stayRef.value].kind == Stay)
      && (day.items != [] || day.HasBed())
  {
    hide Stops, ClusterTour, DayOf, CandidateSet.ByRef, CandidateSet.WellFormed;
    var _ := DayItems(inp, tour, d);
    BedsResolve(inp, tour, d);
  }

  // ------------------------------------------------- no composed day is overfull

  /** The validator counts an unknown duration as 0, the composer as 90: its sum is never larger. */
  lemma {:induction false} MinutesAtMostSpend(cs: seq<Candidate>, byRef: map<string, Candidate>)
    requires forall c :: c in cs ==> c.ref in byRef && byRef[c.ref] == c
    ensures ActivityMinutes(Refs(cs), byRef) <= Spend(cs)
  {
    if cs != [] {
      var init, last := cs[..|cs| - 1], cs[|cs| - 1];
      MinutesAtMostSpend(init, byRef);
      assert Refs(cs)[..|cs| - 1] == Refs(init);
      assert Refs(cs)[|cs| - 1] == last.ref;
      assert last in cs;
    }
  }

  function CostOf(c: Candidate): int { Cost(c) }

  lemma SpendIsSum(cs: seq<Candidate>)
    ensures Spend(cs) == SumOf(cs, CostOf)
  {
    if cs != [] {
      var init, last := cs[..|cs| - 1], cs[|cs| - 1];
      SpendIsSum(init);
      assert cs == init + [last];
      SumOfAppend(init, [last], CostOf);
    }
  }

  lemma SpendPermutation(a: seq<Candidate>, b: seq<Candidate>)
    requires multiset(a) == multiset(b)
    ensures Spend(a) == Spend(b)
  {
    SpendIsSum(a);
    SpendIsSum(b);
    SumOfPermutation(a, b, CostOf);
  }

  /** The greedy draft never triggers `over_time_budget`. */
  lemma ComposedNeverOverfull(inp: Inputs, v: Violation)
    requires inp.cs.WellFormed() && inp.dayMinutes >= 0
    requires Reported(v, Composed(inp), inp.cs, inp.days, inp.dayMinutes)
    ensures v.code != OverTimeBudget
  {
    hide Stops, ClusterTour, DayOf, Budget, CandidateSet.ByRef, CandidateSet.WellFormed, StructureReported,
         OccursBefore;
    var tour, draft := ClusterTour(inp), Composed(inp);
    forall i | 0 <= i < |draft.days|
      ensures v.code == OverTimeBudget ==> !DayReported(v, draft, inp.cs.ByRef(), inp.dayMinutes, i) {
      DayMinutesFit(inp, tour, i + 1);
    }
    NotStructural(v, draft, inp.cs.ByRef(), inp.days);
  }

  lemma NotStructural(v: Violation, draft: Draft, byRef: map<string, Candidate>, days: nat)
    ensures v.code == OverTimeBudget ==> !StructureReported(v, draft, byRef, days)
  {
  }

  lemma DayMinutesFit(inp: Inputs, tour: seq<Cluster>, d: nat)
    requires inp.cs.WellFormed() && inp.dayMinutes >= 0 && tour == ClusterTour(inp) != [] && 1 <= d <= inp.days
    ensures ActivityMinutes(DayOf(inp, tour, d).items, inp.cs.ByRef()) <= inp.dayMinutes
  {
    hide Stops, ClusterTour, DayOf, UsedBefore, Share, Pool, Visit, Approach, CandidateSet.WellFormed,
         CandidateSet.ByRef;
    var ordered := DayItems(inp, tour, d);
    StopsFacts(inp, tour, d);
    SpendPermutation(ordered, Stops(inp, tour, d));
    PermutationFacts(ordered, Stops(inp, tour, d));
    forall c | c in ordered ensures c.ref in inp.cs.ByRef() && inp.cs.ByRef()[c.ref] == c {
      StopResolves(inp, tour, d, c);
    }
    MinutesAtMostSpend(ordered, inp.cs.ByRef());
  }
}
