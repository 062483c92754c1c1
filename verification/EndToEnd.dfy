/** The stages joined up: what a feasible verdict promises about the plan that follows it. */
module EndToEnd {
  import opened Util
  import opened Domain
  import opened Retrieval
  import opened Feasibility
  import opened ComposeGreedy
  import opened ComposeProofs
  import NoBeds
  import Validate

  /** What the composer is handed for a brief, api/src/tripplan/engine/pipeline.py `generate`. */
  function InputsFor(st: Store, b: Brief, caps: Caps, origin: GeoPoint, dayMinutes: int,
                     travel: (GeoPoint, GeoPoint) -> nat): Inputs
  {
    Inputs(b.days, origin, Retrieved(st, b, caps), dayMinutes, travel, st.dist)
  }

  lemma FetchedSize(st: Store, b: Brief, kind: PoiKind, limit: nat)
    requires b.district in st.paths
    ensures var all := |Selected(st, b, st.paths[b.district], kind)|;
      |Fetched(st, b, kind, limit)| == if all <= limit then all else limit
  {
    hide StableSort, Retrieves, RanksBefore, MatchWeight, Decimal;
    var before := (x: PoiRow, y: PoiRow) => RanksBefore(st, b, x, y);
    var all := Selected(st, b, st.paths[b.district], kind);
    PermutationFacts(StableSort(all, before), all);
  }

  /** The count behind the verdict is uncapped, the retrieval is capped: both lists together still
      hold one entry per day when neither cap is below the number of days. */
  lemma EnoughRetrieved(v: Verdict, st: Store, b: Brief, caps: Caps)
    requires b.district in st.paths && Explained(v, st, b, st.paths[b.district]) && v.ok
    requires b.days <= caps.places && b.days <= caps.activities
    ensures |Retrieved(st, b, caps).Doable()| >= b.days
  {
    hide Selected, Fetched, Exact;
    ExactIsWhatIsRetrieved(st, b, st.paths[b.district]);
    FetchedSize(st, b, Place, caps.places);
    FetchedSize(st, b, Activity, caps.activities);
  }

  ghost predicate OneRegion(cs: seq<Candidate>) {
    forall x, y :: x in cs && y in cs ==> x.region == y.region
  }

  lemma {:induction false} WholeRegion(cs: seq<Candidate>, region: string)
    requires forall c :: c in cs ==> c.region == region
    ensures InRegion(cs, region) == cs
  {
    if cs != [] {
      WholeRegion(cs[1..], region);
    }
  }

  /** With a single region the tour is that region, whole. */
  lemma OneRegionTour(inp: Inputs)
    requires inp.cs.WellFormed() && OneRegion(inp.cs.Doable()) && inp.days >= 1 && inp.cs.Doable() != []
    ensures |ClusterTour(inp)| == 1 && ClusterTour(inp)[0].items == inp.cs.Doable()
  {
    TourEmptyIff(inp);
    hide ClusterTour;
    var tour, doable := ClusterTour(inp), inp.cs.Doable();
    TourIsStrongestAndGreedy(inp);
    forall k | 0 <= k < |tour| ensures tour[k] == Cluster(doable[0].region, doable) {
      TourMembers(inp, tour[k]);
      assert tour[k].items[0] in InRegion(doable, tour[k].region);
      WholeRegion(doable, tour[k].region);
    }
    var first, last := tour[0], tour[|tour| - 1];
    assert first == last;
  }

  /** So it has an item, and one for every misfit, on each day. */
  lemma OneRegionServes(inp: Inputs, i: nat)
    requires inp.cs.WellFormed() && OneRegion(inp.cs.Doable()) && inp.days >= 1 && i < |ClusterTour(inp)|
    requires |inp.cs.Doable()| >= inp.days * (|NoBeds.Misfits(inp, i)| + 1)
    ensures NoBeds.ServesAnyway(inp, i)
  {
    hide ClusterTour, NoBeds.Misfits, NoBeds.Visits, OneRegion, CandidateSet.Doable, CandidateSet.WellFormed;
    TourEmptyIff(inp);
    OneRegionTour(inp);
    EveryDayVisits(inp, i);
    hide *;
    ManyServe(inp, i);
  }

  lemma EveryDayVisits(inp: Inputs, i: nat)
    requires inp.days >= 1 && |ClusterTour(inp)| == 1 && i == 0
    ensures NoBeds.VisitsOf(inp, i) == inp.days
  {
    hide ClusterTour;
    NoBeds.EveryVisit(1, inp.days);
  }

  lemma ManyServe(inp: Inputs, i: nat)
    requires i < |ClusterTour(inp)|
    requires |ClusterTour(inp)[i].items| >= NoBeds.VisitsOf(inp, i) * (|NoBeds.Misfits(inp, i)| + 1)
    ensures NoBeds.ServesAnyway(inp, i)
  {
    hide ClusterTour, NoBeds.Misfits, NoBeds.VisitsOf, NoBeds.AlwaysFits;
  }

  /** One region with enough in it: everything fits, or there is one item more than there are misfits for
      each day. */
  ghost predicate RegionSuffices(inp: Inputs) {
    OneRegion(inp.cs.Doable()) &&
    forall i :: 0 <= i < |ClusterTour(inp)| ==>
      NoBeds.Misfits(inp, i) == {} || |inp.cs.Doable()| >= inp.days * (|NoBeds.Misfits(inp, i)| + 1)
  }

  /** Unchanged data, a feasible verdict, caps of at least `days`: our own draft is valid whenever
      something is there to sleep in, or there is one region with enough in it. */
  lemma FeasibleBriefIsPlannable(v: Verdict, st: Store, b: Brief, caps: Caps, inp: Inputs)
    requires b.district in st.paths && Explained(v, st, b, st.paths[b.district]) && v.ok
    requires 1 <= b.days <= caps.places && b.days <= caps.activities
    requires inp == InputsFor(st, b, caps, inp.origin, inp.dayMinutes, inp.travel)
    requires inp.cs.stays != [] || RegionSuffices(inp)
    ensures Validate.DraftValid(Composed(inp), inp.cs, inp.days)
    ensures inp.cs.Doable() != [] && NoHoles(inp)
  {
    hide Retrieved, Explained, ClusterTour, Composed, Validate.DraftValid, CandidateSet.WellFormed;
    hide NoBeds.Misfits, NoBeds.ServesAnyway;
    EnoughRetrieved(v, st, b, caps);
    RetrievedIsWellFormed(st, b, caps);
    ComposedValidIff(inp);
    TourEmptyIff(inp);
    if inp.cs.stays == [] {
      forall i | 0 <= i < |ClusterTour(inp)| ensures NoBeds.ServesAnyway(inp, i) {
        OneRegionServes(inp, i);
      }
      BedlessPlanSuffices(inp);
    }
  }

  /** On every input without beds: enough to spare in every toured region makes our own draft valid. */
  lemma BedlessPlanSuffices(inp: Inputs)
    requires inp.cs.WellFormed() && inp.days >= 1 && inp.cs.stays == [] && inp.cs.Doable() != []
    requires forall i :: 0 <= i < |ClusterTour(inp)| ==> NoBeds.ServesAnyway(inp, i)
    ensures Validate.DraftValid(Composed(inp), inp.cs, inp.days) && NoHoles(inp)
  {
    hide ClusterTour, Stops, Composed, Validate.DraftValid, CandidateSet.WellFormed, NoBeds.ServesAnyway;
    TourEmptyIff(inp);
    ComposedValidIff(inp);
    forall d | 1 <= d <= inp.days ensures Stops(inp, ClusterTour(inp), d) != [] {
      NoBeds.EnoughToSpare(inp, (d - 1) % |ClusterTour(inp)|, d);
    }
  }

  /** On every input without beds: a toured region with nothing repeatable and fewer items than visits, or a
      day whose region holds nothing that fits it, makes our own draft invalid. */
  lemma BedlessPlanNeeds(inp: Inputs)
    requires inp.cs.WellFormed() && inp.days >= 1 && inp.cs.stays == []
    requires Validate.DraftValid(Composed(inp), inp.cs, inp.days)
    ensures inp.cs.Doable() != [] && ClusterTour(inp) != []
    ensures forall i :: 0 <= i < |ClusterTour(inp)| ==>
      var c := ClusterTour(inp)[i];
      (exists x :: x in c.items && x.repeatable) || |c.items| >= NoBeds.VisitsOf(inp, i)
    ensures forall d :: 1 <= d <= inp.days ==> NoBeds.SomethingFits(inp, d)
  {
    hide ClusterTour, Stops, Composed, Validate.DraftValid, CandidateSet.WellFormed;
    TourEmptyIff(inp);
    ComposedValidIff(inp);
    NoBeds.NoEmptyDayNeeds(inp);
  }

  /** Without a bed the promise is conditional: given that everything fits where a region is visited again,
      our own draft is valid exactly when every toured region can serve its visits. */
  lemma BedlessPlanIff(st: Store, b: Brief, caps: Caps, inp: Inputs)
    requires b.days >= 1 && inp == InputsFor(st, b, caps, inp.origin, inp.dayMinutes, inp.travel)
    requires inp.cs.stays == [] && NoBeds.FitsWhereRevisited(inp)
    ensures Validate.DraftValid(Composed(inp), inp.cs, inp.days) <==>
      inp.cs.Doable() != [] && forall i :: 0 <= i < |ClusterTour(inp)| ==> NoBeds.CanServe(inp, i)
  {
    hide Retrieved, ClusterTour, Composed, Validate.DraftValid, CandidateSet.WellFormed;
    hide NoBeds.FitsWhereRevisited, NoBeds.CanServe;
    RetrievedIsWellFormed(st, b, caps);
    ComposedValidIff(inp);
    TourEmptyIff(inp);
    if inp.cs.Doable() != [] {
      NoBeds.NoEmptyDayIff(inp);
    }
  }
}
