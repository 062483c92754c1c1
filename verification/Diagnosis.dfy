/** What each verdict says about the rows: the filter it names is the one that leaves nothing. */
module Diagnosis {
  import opened Util
  import opened Domain
  import opened Retrieval
  import opened Feasibility

  /** Published, something to do, and in scope: on the shelf, whatever the brief asks of it. */
  ghost predicate Shelved(st: Store, b: Brief, path: string, r: PoiRow) {
    r in st.rows && r.published && r.kind != Stay && InScope(st, b, path, r)
  }

  /** The brief is not by interest, or the row carries one of its tags. */
  ghost predicate Interesting(b: Brief, r: PoiRow) {
    b.mode == Interest ==> exists i :: 0 <= i < |b.tags| && b.tags[i] in r.tags
  }

  ghost predicate OpenThen(r: PoiRow, month: nat) { r.bestMonths.Some? ==> month in r.bestMonths.value }

  lemma InterestingIff(b: Brief, r: PoiRow)
    ensures MatchesInterest(b, r) <==> Interesting(b, r)
  {
    CarriesOneIff(r, b.tags);
  }

  lemma SlicesAre(st: Store, b: Brief, path: string, r: PoiRow)
    requires r in st.rows
    ensures Scoped(st, b, path, r) <==> Shelved(st, b, path, r)
    ensures IsTagged(st, b, path, r) <==> Shelved(st, b, path, r) && Interesting(b, r)
    ensures IsInSeason(st, b, path, r) <==> Shelved(st, b, path, r) && Interesting(b, r) && OpenThen(r, b.month)
    ensures IsExact(st, b, path, r) <==>
      && Shelved(st, b, path, r) && Interesting(b, r) && OpenThen(r, b.month)
      && (r.costBand.Some? ==> r.costBand.value <= b.budgetBand)
  {
    InterestingIff(b, r);
    hide InScope, HasTag;
  }

  lemma NoneCounted(st: Store, b: Brief, path: string)
    ensures Count(st.rows, AllScoped(st, b, path)) == 0 <==> forall r :: !Shelved(st, b, path, r)
    ensures Count(st.rows, AllTagged(st, b, path)) == 0 <==>
      forall r :: Shelved(st, b, path, r) ==> !Interesting(b, r)
    ensures Count(st.rows, AllInSeason(st, b, path)) == 0 <==>
      forall r :: Shelved(st, b, path, r) && Interesting(b, r) ==> !OpenThen(r, b.month)
    ensures Exact(st, b, path) == 0 <==>
      forall r :: Shelved(st, b, path, r) && Interesting(b, r) && OpenThen(r, b.month) ==>
        r.costBand.Some? && r.costBand.value > b.budgetBand
  {
    CountPositive(st.rows, AllScoped(st, b, path));
    CountPositive(st.rows, AllTagged(st, b, path));
    CountPositive(st.rows, AllInSeason(st, b, path));
    CountPositive(st.rows, AllExact(st, b, path));
    forall r | r in st.rows
      ensures AllScoped(st, b, path)(r) <==> Shelved(st, b, path, r)
      ensures AllTagged(st, b, path)(r) <==> Shelved(st, b, path, r) && Interesting(b, r)
      ensures AllInSeason(st, b, path)(r) <==> Shelved(st, b, path, r) && Interesting(b, r) && OpenThen(r, b.month)
      ensures AllExact(st, b, path)(r) <==>
        && Shelved(st, b, path, r) && Interesting(b, r) && OpenThen(r, b.month)
        && (r.costBand.Some? ==> r.costBand.value <= b.budgetBand)
    {
      SlicesAre(st, b, path, r);
      hide Scoped, IsTagged, IsInSeason, IsExact, Shelved, Interesting, OpenThen;
    }
    hide Scoped, IsTagged, IsInSeason, IsExact, Interesting, OpenThen, InScope, Count;
  }

  /** Nothing on the shelf at all. */
  ghost predicate EmptyShelf(st: Store, b: Brief, path: string) { forall r :: !Shelved(st, b, path, r) }

  /** Something on the shelf, and nothing of interest. */
  ghost predicate OfNoInterest(st: Store, b: Brief, path: string) {
    (exists r :: Shelved(st, b, path, r)) && forall r :: Shelved(st, b, path, r) ==> !Interesting(b, r)
  }

  /** Something of interest, and all of it closed in the month. */
  ghost predicate AllClosed(st: Store, b: Brief, path: string) {
    && (exists r :: Shelved(st, b, path, r) && Interesting(b, r))
    && (forall r :: Shelved(st, b, path, r) && Interesting(b, r) ==> !OpenThen(r, b.month))
  }

  /** Something of interest that is open, and all of it too dear. */
  ghost predicate AllTooDear(st: Store, b: Brief, path: string) {
    && (exists r :: Shelved(st, b, path, r) && Interesting(b, r) && OpenThen(r, b.month))
    && (forall r :: Shelved(st, b, path, r) && Interesting(b, r) && OpenThen(r, b.month) ==>
          r.costBand.Some? && r.costBand.value > b.budgetBand)
  }

  /** For a brief that nothing matches, each reason is given exactly when it is the case; a lack of interest only to a
      brief by interest. */
  lemma ReasonIsTheBlocker(v: Verdict, st: Store, b: Brief, path: string)
    requires Explained(v, st, b, path) && !v.ok && v.candidates == 0
    ensures v.reason == NothingInRadius <==> EmptyShelf(st, b, path) && b.mode == Location
    ensures v.reason == NoData <==> EmptyShelf(st, b, path) && b.mode != Location
    ensures v.reason == NothingTagged <==> OfNoInterest(st, b, path)
    ensures v.reason == NothingTagged ==> b.mode == Interest
    ensures v.reason == OutOfSeason <==> AllClosed(st, b, path)
    ensures v.reason == BudgetTooLow <==> AllTooDear(st, b, path)
  {
    NoneCounted(st, b, path);
    hide Shelved, OpenThen, Count, AllScoped, AllTagged, AllInSeason, AllExact, Months, Suggested, Cheapest,
         RadiusAdvice;
  }

  /** Something on the shelf, within the budget, open in that month, and, if any tags are asked for, carrying one. */
  ghost predicate Offers(st: Store, b: Brief, path: string, month: nat) {
    exists r :: Shelved(st, b, path, r) && OpenThen(r, month) && (r.costBand.Some? ==> r.costBand.value <= b.budgetBand)
      && (b.tags != [] ==> exists i :: 0 <= i < |b.tags| && b.tags[i] in r.tags)
  }

  lemma OffersIff(st: Store, b: Brief, path: string, month: nat)
    ensures Count(st.rows, AllOnOffer(st, b, path, month)) > 0 <==> Offers(st, b, path, month)
  {
    CountPositive(st.rows, AllOnOffer(st, b, path, month));
    forall r | r in st.rows ensures OnOffer(st, b, path, month, r) <==>
      && Shelved(st, b, path, r) && OpenThen(r, month) && (r.costBand.Some? ==> r.costBand.value <= b.budgetBand)
      && (b.tags != [] ==> exists i :: 0 <= i < |b.tags| && b.tags[i] in r.tags)
    {
      CarriesOneIff(r, b.tags);
      hide InScope, HasTag;
    }
    hide OnOffer, InScope;
  }

  lemma CarriesOneIff(r: PoiRow, tags: seq<string>)
    ensures HasTag(r, tags) <==> exists i :: 0 <= i < |tags| && tags[i] in r.tags
  {
    if HasTag(r, tags) {
      var t :| t in tags && t in r.tags;
      var i :| 0 <= i < |tags| && tags[i] == t;
    }
    if i :| 0 <= i < |tags| && tags[i] in r.tags {
      assert tags[i] in tags;
    }
  }

  /** A brief that its interests, the season or the budget defeat is told all the months of the year that
      have something to offer, and no others. */
  lemma MonthsAreThoseOnOffer(v: Verdict, st: Store, b: Brief, path: string, month: nat)
    requires Explained(v, st, b, path) && v.reason in {NothingTagged, OutOfSeason, BudgetTooLow}
    ensures month in v.months <==> 1 <= month <= 12 && Offers(st, b, path, month)
  {
    OffersIff(st, b, path, month);
    hide Offers, Count, AllScoped, AllTagged, AllInSeason, AllExact, AllOnOffer, Suggested, Cheapest, RadiusAdvice;
  }
}
