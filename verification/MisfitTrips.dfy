/** How items that fit no day starve a bedless trip: they count towards the day's share, so the items
    that do fit are taken too early. */
module MisfitTrips {
  import opened Util
  import opened Domain
  import opened ComposeGreedy
  import opened ComposeProofs
  import opened NoBeds

  /** One region, nothing repeatable; every item either fits no day at all, or belongs to those which
      all together fit into any day. Then only the share limits a day. */
  ghost predicate Roomy(inp: Inputs) {
    |ClusterTour(inp)| == 1 && inp.days >= 1 &&
    var items := ClusterTour(inp)[0].items;
    && (forall x :: x in items ==> !x.repeatable)
    && (forall x, d :: x in Misfits(inp, 0) && 1 <= d <= inp.days ==> Cost(x) > Budget(inp, ClusterTour(inp), d))
    && (forall d :: 1 <= d <= inp.days ==> Spend(Fitting(inp)) <= Budget(inp, ClusterTour(inp), d))
  }

  ghost function Fitting(inp: Inputs): seq<Candidate>
    requires ClusterTour(inp) != []
  {
    Filter(ClusterTour(inp)[0].items, (x: Candidate) => x !in Misfits(inp, 0))
  }

  lemma {:induction false} CostWithin(s: seq<Candidate>, x: Candidate)
    requires x in s
    ensures Cost(x) <= Spend(s)
  {
    if x in s[..|s| - 1] {
      CostWithin(s[..|s| - 1], x);
    }
  }

  /** Distinct items of a list cost at most what the whole list costs. */
  lemma {:induction false} SpendWithin(s: seq<Candidate>, all: seq<Candidate>)
    requires NoDuplicates(s) && forall x :: x in s ==> x in all
    ensures Spend(s) <= Spend(all)
  {
    if s != [] {
      var init, x := s[..|s| - 1], s[|s| - 1];
      assert x in s;
      var i :| 0 <= i < |all| && all[i] == x;
      var rest := all[..i] + all[i + 1..];
      forall y | y in init ensures y in rest {
        var k :| 0 <= k < |init| && init[k] == y;
        assert s[k] == y && s[k] in s && y != x;
      }
      SpendWithin(init, rest);
      SpendIsSum(all);
      SpendIsSum(rest);
      SumOfTakeOut(all, i, CostOf);
    }
  }

  lemma {:induction false} SetWithin(all: set<Candidate>, s: seq<Candidate>)
    requires forall x :: x in all ==> x in s
    ensures |all| <= |s|
    decreases |s|
  {
    if s == [] {
      assert all == {};
    } else {
      SetWithin(all - {s[0]}, s[1..]);
    }
  }

  /** What a day picks in such a trip: only items that fit; and short of its share, all that are left of them. */
  lemma RoomyDay(inp: Inputs, d: nat)
    requires inp.cs.WellFormed() && Roomy(inp) && 1 <= d <= inp.days
    ensures var tour := ClusterTour(inp);
      var used, s := UsedBefore(inp, tour, d), Stops(inp, tour, d);
      && NoDuplicates(s) && (forall x :: x in s ==> Open(tour[0], used, x) && x !in Misfits(inp, 0))
      && (|s| < Share(Left(inp, tour, 0, d), inp.days - d + 1) ==>
            forall x :: Open(tour[0], used, x) ==> x in s || x in Misfits(inp, 0))
  {
    hide ClusterTour, Stops, Budget, Share, Pool, UsedBefore, Spend, Cost, Better, NoDuplicates;
    var tour := ClusterTour(inp);
    var used, s, b := UsedBefore(inp, tour, d), Stops(inp, tour, d), Budget(inp, tour, d);
    DayFill(inp, tour, d);
    StopsFacts(inp, tour, d);
    ClusterFacts(inp, 0);
    PoolFacts(tour[0], used);
    forall x | x in s ensures x !in Misfits(inp, 0) {
      CostWithin(s, x);
    }
    forall x | Open(tour[0], used, x) && x !in s && x !in Misfits(inp, 0) ensures Spend(s) + Cost(x) <= b {
      OneMore(s, x);
      SpendWithin(s + [x], Fitting(inp));
    }
  }

  lemma OneMore(s: seq<Candidate>, x: Candidate)
    requires NoDuplicates(s) && x !in s
    ensures NoDuplicates(s + [x]) && Spend(s + [x]) == Spend(s) + Cost(x)
  {
    assert (s + [x])[..|s|] == s;
  }

  /** Nothing that fits no day is ever used up. */
  lemma {:induction false} MisfitsStay(inp: Inputs, d: nat, x: Candidate)
    requires inp.cs.WellFormed() && Roomy(inp) && 1 <= d <= inp.days + 1 && x in Misfits(inp, 0)
    ensures x.ref !in UsedBefore(inp, ClusterTour(inp), d)
    decreases d
  {
    hide *;
    RoomyTour(inp);
    if d == 1 {
      NothingUsed(inp, ClusterTour(inp));
    } else {
      MisfitsStay(inp, d - 1, x);
      MisfitNotPicked(inp, d - 1, x);
      UsedStep(inp, ClusterTour(inp), d - 1);
    }
  }

  lemma RoomyTour(inp: Inputs)
    requires Roomy(inp)
    ensures |ClusterTour(inp)| == 1
  {
    hide ClusterTour;
  }

  lemma NothingUsed(inp: Inputs, tour: seq<Cluster>)
    requires tour != []
    ensures UsedBefore(inp, tour, 1) == {}
  {
  }

  lemma MisfitNotPicked(inp: Inputs, d: nat, x: Candidate)
    requires inp.cs.WellFormed() && Roomy(inp) && 1 <= d <= inp.days && x in Misfits(inp, 0)
    ensures x.ref !in OneOff(Stops(inp, ClusterTour(inp), d))
  {
    RoomyDay(inp, d);
    ClusterFacts(inp, 0);
    MisfitIsItem(inp, x);
    hide ClusterTour, Stops, Roomy, CandidateSet.WellFormed, Misfits, UsedBefore;
  }

  lemma MisfitIsItem(inp: Inputs, x: Candidate)
    requires ClusterTour(inp) != [] && x in Misfits(inp, 0)
    ensures x in ClusterTour(inp)[0].items
  {
  }

  /** Using up distinct one-off items costs the pool exactly them. */
  lemma {:induction false} PoolShrinksBy(items: seq<Candidate>, used: set<string>, s: seq<Candidate>)
    requires NoDuplicates(s) && RefsIdentify(items)
    requires forall x :: x in s ==> x in items && !x.repeatable && x.ref !in used
    ensures |Available(items, used + OneOff(s))| + |s| <= |Available(items, used)|
    decreases |s|
  {
    if s == [] {
      assert used + OneOff(s) == used;
    } else {
      var init, x := s[..|s| - 1], s[|s| - 1];
      assert s == init + [x];
      forall y | y in init ensures y in s && y.ref != x.ref {
        var k :| 0 <= k < |init| && init[k] == y;
        assert s[k] == y;
      }
      PoolShrinksBy(items, used, init);
      OneOffAppend(init, x);
      PoolShrinks(items, used + OneOff(init), {x.ref});
      assert x in s;
      assert used + OneOff(s) == used + OneOff(init) + {x.ref};
    }
  }

  /** After a day that takes its full share there is that much less; after any other day only misfits are left. */
  lemma RoomyDayLeaves(inp: Inputs, d: nat)
    requires inp.cs.WellFormed() && Roomy(inp) && 1 <= d <= inp.days
    ensures var tour := ClusterTour(inp);
      var left, after := Left(inp, tour, 0, d), Left(inp, tour, 0, d + 1);
      after <= |Misfits(inp, 0)| || after + Share(left, inp.days - d + 1) <= left
  {
    hide ClusterTour, Stops, Share, UsedBefore, Misfits, CandidateSet.WellFormed;
    var tour := ClusterTour(inp);
    var items, used, s := tour[0].items, UsedBefore(inp, tour, d), Stops(inp, tour, d);
    RoomyDay(inp, d);
    UsedStep(inp, tour, d);
    ClusterFacts(inp, 0);
    assert forall x :: x in items ==> !x.repeatable;
    hide Roomy;
    if |s| < Share(Left(inp, tour, 0, d), inp.days - d + 1) {
      var next := used + OneOff(s);
      var open := Available(items, next);
      FilterKeepsNoDuplicates(items, (x: Candidate) => x.ref !in next || x.repeatable);
      forall y | y in open ensures y in Misfits(inp, 0) {
        assert Open(tour[0], used, y);
        assert y in s ==> y.ref in OneOff(s);
      }
      DistinctInSet(open, Misfits(inp, 0));
    } else {
      PoolShrinksBy(items, used, s);
    }
  }

  /** The last day's pick is one more item than all the misfits, which are still there. */
  lemma LastDayHasSpare(inp: Inputs, d: nat)
    requires inp.cs.WellFormed() && Roomy(inp) && 1 <= d <= inp.days && Stops(inp, ClusterTour(inp), d) != []
    ensures Left(inp, ClusterTour(inp), 0, d) >= |Misfits(inp, 0)| + 1
  {
    hide ClusterTour, Stops, UsedBefore, Misfits, CandidateSet.WellFormed;
    var tour := ClusterTour(inp);
    var items, used, x := tour[0].items, UsedBefore(inp, tour, d), Stops(inp, tour, d)[0];
    RoomyDay(inp, d);
    assert x in Stops(inp, tour, d);
    hide Roomy;
    forall y | y in Misfits(inp, 0) ensures y in Available(items, used) {
      MisfitsStay(inp, d, y);
      MisfitIsItem(inp, y);
    }
    assert Open(tour[0], used, x);
    SetWithin(Misfits(inp, 0) + {x}, Available(items, used));
  }

  lemma {:induction false} SpareNeeded(inp: Inputs, d: nat)
    requires inp.cs.WellFormed() && Roomy(inp) && 1 <= d <= inp.days
    requires forall e :: d <= e <= inp.days ==> Stops(inp, ClusterTour(inp), e) != []
    ensures Left(inp, ClusterTour(inp), 0, d) >= (inp.days - d + 1) * (|Misfits(inp, 0)| + 1)
    decreases inp.days - d
  {
    hide *;
    RoomyTour(inp);
    if d == inp.days {
      LastDayHasSpare(inp, d);
    } else {
      SpareNeeded(inp, d + 1);
      RoomyDayLeaves(inp, d);
      var left, after := Left(inp, ClusterTour(inp), 0, d), Left(inp, ClusterTour(inp), 0, d + 1);
      ShareNeedsSpare(left, after, inp.days - d + 1, |Misfits(inp, 0)| + 1);
    }
  }

  lemma ShareNeedsSpare(left: nat, after: nat, remaining: nat, m: nat)
    requires remaining >= 2 && m >= 1 && after >= (remaining - 1) * m
    requires after <= m - 1 || after + Share(left, remaining) <= left
    ensures left >= remaining * m
  {
    MulLe(1, remaining - 1, m);
    var share := (left + remaining - 1) / remaining;
    assert share * remaining >= left;
    assert Share(left, remaining) >= share;
    hide *;
    TakenTooMuch(left, share, remaining, m);
  }

  lemma TakenTooMuch(left: nat, share: nat, w: nat, m: nat)
    requires w >= 2 && share * w >= left && share <= left && left - share >= (w - 1) * m
    ensures left >= w * m
  {
    var rest := left - share;
    MulLe((w - 1) * m, rest, w);
    assert rest * w == left * w - share * w;
    assert left * (w - 1) == left * w - left;
    assert (w * m) * (w - 1) == (w - 1) * m * w;
    Cancel(w * m, left, w - 1);
  }

  lemma Cancel(a: nat, b: nat, c: nat)
    requires c >= 1 && a * c <= b * c
    ensures a <= b
  {
    if a >= b + 1 {
      MulLe(b + 1, a, c);
      assert false;
    }
  }

  /** Exactly how many items such a trip needs: one more than the misfits for each of its days. */
  lemma RoomyTripIff(inp: Inputs)
    requires inp.cs.WellFormed() && Roomy(inp)
    ensures (forall d :: 1 <= d <= inp.days ==> Stops(inp, ClusterTour(inp), d) != []) <==>
      |ClusterTour(inp)[0].items| >= inp.days * (|Misfits(inp, 0)| + 1)
  {
    hide ClusterTour, Stops, Misfits, CandidateSet.WellFormed;
    EveryVisit(1, inp.days);
    if forall d :: 1 <= d <= inp.days ==> Stops(inp, ClusterTour(inp), d) != [] {
      SpareNeeded(inp, 1);
      FreshPool(inp, ClusterTour(inp), 0);
    }
    if |ClusterTour(inp)[0].items| >= inp.days * (|Misfits(inp, 0)| + 1) {
      forall d | 1 <= d <= inp.days ensures Stops(inp, ClusterTour(inp), d) != [] {
        EnoughToSpare(inp, 0, d);
      }
    }
  }
}
