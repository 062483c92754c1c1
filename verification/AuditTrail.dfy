/** The audit trail, api/src/tripplan/store/itineraries.py: the rows that prove every stop is a real one. */
module AuditTrail {
  import opened Util
  import opened Domain
  import opened Routing
  import opened Assemble
  import Validate

  // ------------------------------------------------------------------- the audit trail

  /** `referenced_poi_ids`: slot 0 is the night's stay. */
  datatype Reference = Reference(day: int, slot: nat, poiId: PoiId)

  function DayReferences(page: ItineraryDay): seq<Reference> {
    (if page.stay.Some? then [Reference(page.number, 0, page.stay.value)] else [])
    + seq(|page.items|, k requires 0 <= k < |page.items| =>
            Reference(page.number, page.items[k].slot, page.items[k].poiId))
  }

  function ReferencesOf(days: seq<ItineraryDay>): seq<Reference> {
    if days == [] then [] else ReferencesOf(days[..|days| - 1]) + DayReferences(days[|days| - 1])
  }

  type ItineraryId = nat

  /** Primary key of `itinerary_pois`. */
  datatype AuditKey = AuditKey(itinerary: ItineraryId, day: int, slot: nat)

  type Audit = map<AuditKey, PoiId>

  /** INSERT ... ON CONFLICT DO NOTHING. */
  function Inserted(audit: Audit, id: ItineraryId, r: Reference): Audit {
    var key := AuditKey(id, r.day, r.slot);
    if key in audit then audit else audit[key := r.poiId]
  }

  function AllInserted(audit: Audit, id: ItineraryId, refs: seq<Reference>): Audit {
    if refs == [] then audit else Inserted(AllInserted(audit, id, refs[..|refs| - 1]), id, refs[|refs| - 1])
  }

  datatype Version = Version(id: ItineraryId, request: nat, version: nat)

  function Latest(rows: seq<Version>, request: nat): nat {
    if rows == [] then 0
    else
      var last, rest := rows[|rows| - 1], Latest(rows[..|rows| - 1], request);
      if last.request == request && last.version > rest then last.version else rest
  }

  lemma {:induction false} LatestIsMax(rows: seq<Version>, request: nat)
    ensures forall v :: v in rows && v.request == request ==> v.version <= Latest(rows, request)
    ensures Latest(rows, request) == 0
      || exists v :: v in rows && v.request == request && v.version == Latest(rows, request)
  {
    if rows != [] {
      var init := rows[..|rows| - 1];
      LatestIsMax(init, request);
      assert forall v :: v in rows <==> v in init || v == rows[|rows| - 1];
    }
  }

  /** The versions of a request are 1, 2, ..., n with none repeated. */
  ghost predicate Contiguous(rows: seq<Version>) {
    forall request: nat, n: nat :: HasVersion(rows, request, n) <==> 1 <= n <= Latest(rows, request)
  }

  ghost predicate HasVersion(rows: seq<Version>, request: nat, n: nat) {
    exists v :: v in rows && v.request == request && v.version == n
  }

  class ItineraryStore {
    var versions: seq<Version>
    var audit: Audit

    constructor ()
      ensures versions == [] && audit == map[]
    {
      versions, audit := [], map[];
    }

    /** One transaction: the next version of the request, and a row for every referenced POI. */
    method Save(id: ItineraryId, request: nat, it: Itinerary) returns (version: nat)
      modifies this
      ensures versions == old(versions) + [Version(id, request, version)]
      ensures version == Latest(old(versions), request) + 1
      ensures audit == AllInserted(old(audit), id, ReferencesOf(it.days))
    {
      version := Latest(versions, request) + 1;
      versions := versions + [Version(id, request, version)];
      var refs := ReferencesOf(it.days);
      for i := 0 to |refs|
        invariant audit == AllInserted(old(audit), id, refs[..i])
        invariant versions == old(versions) + [Version(id, request, version)]
      {
        assert refs[..i + 1][..i] == refs[..i];
        var key := AuditKey(id, refs[i].day, refs[i].slot);
        if key !in audit {
          audit := audit[key := refs[i].poiId];
        }
      }
      assert refs[..|refs|] == refs;
    }
  }

  /** Saving keeps every request's versions 1..n, whatever other requests were saved in between. */
  lemma SaveKeepsContiguous(rows: seq<Version>, id: ItineraryId, request: nat)
    requires Contiguous(rows)
    ensures Contiguous(rows + [Version(id, request, Latest(rows, request) + 1)])
  {
    var added := Version(id, request, Latest(rows, request) + 1);
    forall q: nat, n: nat ensures HasVersion(rows + [added], q, n) <==> 1 <= n <= Latest(rows + [added], q) {
      HasVersionAppend(rows, added, q, n);
      LatestAppend(rows, added, q);
      hide HasVersion, Latest;
    }
  }

  lemma LatestAppend(rows: seq<Version>, v: Version, q: nat)
    ensures Latest(rows + [v], q)
      == if v.request == q && v.version > Latest(rows, q) then v.version else Latest(rows, q)
  {
    assert (rows + [v])[..|rows|] == rows;
  }

  lemma HasVersionAppend(rows: seq<Version>, v: Version, q: nat, n: nat)
    ensures HasVersion(rows + [v], q, n) <==> HasVersion(rows, q, n) || (v.request == q && v.version == n)
  {
    assert forall x :: x in rows + [v] <==> x in rows || x == v;
  }

  /** ON CONFLICT DO NOTHING: a row that is there stays as it is, and a row is inserted only under a key of its own. */
  lemma {:induction false} ConflictsAreIgnored(audit: Audit, id: ItineraryId, refs: seq<Reference>, key: AuditKey)
    ensures var after := AllInserted(audit, id, refs);
      && (key in audit ==> key in after && after[key] == audit[key])
      && (key in after && key !in audit ==>
            exists r :: r in refs && key == AuditKey(id, r.day, r.slot) && after[key] == r.poiId)
  {
    if refs != [] {
      var init, last := refs[..|refs| - 1], refs[|refs| - 1];
      ConflictsAreIgnored(audit, id, init, key);
      assert forall r :: r in refs <==> r in init || r == last;
    }
  }

  ghost predicate DistinctSlots(refs: seq<Reference>) {
    forall i, j :: 0 <= i < j < |refs| ==> refs[i].day != refs[j].day || refs[i].slot != refs[j].slot
  }

  /** The trail of the itinerary is exactly its references, and no other itinerary's rows have changed. */
  ghost predicate IsTrail(after: Audit, audit: Audit, id: ItineraryId, refs: seq<Reference>) {
    && (forall r :: r in refs ==> Holds(after, AuditKey(id, r.day, r.slot), r.poiId))
    && (forall k :: k in after && k.itinerary == id ==> exists r :: r in refs && k == AuditKey(id, r.day, r.slot))
    && (forall k: AuditKey :: k.itinerary != id ==>
         (k in after <==> k in audit) && (k in audit ==> after[k] == audit[k]))
  }

  predicate Holds(trail: Audit, key: AuditKey, poi: PoiId) { key in trail && trail[key] == poi }

  /** With distinct keys nothing is dropped. */
  lemma {:induction false} NothingDropped(audit: Audit, id: ItineraryId, refs: seq<Reference>)
    requires DistinctSlots(refs) && forall k :: k in audit ==> k.itinerary != id
    ensures IsTrail(AllInserted(audit, id, refs), audit, id, refs)
  {
    if refs != [] {
      var init, last := refs[..|refs| - 1], refs[|refs| - 1];
      NothingDropped(audit, id, init);
      assert AllInserted(audit, id, refs) == Inserted(AllInserted(audit, id, init), id, last);
      assert refs == init + [last];
      hide IsTrail, AllInserted, Inserted;
      forall r | r in init ensures AuditKey(id, r.day, r.slot) != AuditKey(id, last.day, last.slot) {
        var i :| 0 <= i < |init| && init[i] == r;
        assert refs[i] == r;
      }
      TrailGrows(AllInserted(audit, id, init), audit, id, init, last);
    }
  }

  lemma TrailGrows(before: Audit, audit: Audit, id: ItineraryId, init: seq<Reference>, last: Reference)
    requires IsTrail(before, audit, id, init)
    requires forall r :: r in init ==> AuditKey(id, r.day, r.slot) != AuditKey(id, last.day, last.slot)
    ensures IsTrail(Inserted(before, id, last), audit, id, init + [last])
  {
    assert forall r :: r in init + [last] <==> r in init || r == last;
    assert AuditKey(id, last.day, last.slot) !in before;
  }

  // --------------------------------------------------- a validated draft is fully audited

  ghost predicate DistinctDays(days: seq<ItineraryDay>) {
    forall i, j :: 0 <= i < j < |days| ==> days[i].number != days[j].number
  }

  lemma {:induction false} DistinctDaysDistinctSlots(days: seq<RoutedDay>, dayStart: nat)
    requires DistinctDays(Pages(days, dayStart))
    ensures DistinctSlots(ReferencesOf(Pages(days, dayStart)))
    ensures forall r :: r in ReferencesOf(Pages(days, dayStart)) ==>
      exists i :: 0 <= i < |days| && r.day == days[i].number
  {
    var pages := Pages(days, dayStart);
    if days != [] {
      var n := |days| - 1;
      assert pages[..n] == Pages(days[..n], dayStart);
      DistinctDaysDistinctSlots(days[..n], dayStart);
      hide StopAt;
      var init, last := ReferencesOf(pages[..n]), DayReferences(pages[n]);
      assert ReferencesOf(pages) == init + last;
      DaySlots(days[n], dayStart);
      forall r | r in init ensures r.day != days[n].number && exists i :: 0 <= i < |days| && r.day == days[i].number {
        var i :| 0 <= i < n && r.day == days[..n][i].number;
        assert pages[i].number == days[i].number && pages[n].number == days[n].number;
      }
      Concatenate(init, last, days[n].number);
    }
  }

  lemma DaySlots(day: RoutedDay, dayStart: nat)
    ensures DistinctSlots(DayReferences(DayPage(day, dayStart)))
    ensures forall r :: r in DayReferences(DayPage(day, dayStart)) ==> r.day == day.number
  {
    hide Clamp, Reached;
  }

  lemma Concatenate(a: seq<Reference>, b: seq<Reference>, day: int)
    requires DistinctSlots(a) && DistinctSlots(b)
    requires (forall r :: r in a ==> r.day != day) && (forall r :: r in b ==> r.day == day)
    ensures DistinctSlots(a + b)
  {
    forall i, j | 0 <= i < j < |a + b| ensures (a + b)[i].day != (a + b)[j].day || (a + b)[i].slot != (a + b)[j].slot {
      if i < |a| <= j {
        assert a[i] in a && b[j - |a|] in b;
      }
    }
  }

  /** The trail lists every page's references and nothing else. */
  lemma {:induction false} TrailIsPages(days: seq<ItineraryDay>, r: Reference)
    ensures r in ReferencesOf(days) <==> exists i :: 0 <= i < |days| && r in DayReferences(days[i])
  {
    if days != [] {
      var n := |days| - 1;
      var init := days[..n];
      TrailIsPages(init, r);
      hide DayReferences;
      assert ReferencesOf(days) == ReferencesOf(init) + DayReferences(days[n]);
      hide ReferencesOf;
      assert forall i :: 0 <= i < n ==> init[i] == days[i];
      assert (exists i :: 0 <= i < |days| && r in DayReferences(days[i])) <==>
             (exists i :: 0 <= i < n && r in DayReferences(init[i])) || r in DayReferences(days[n]);
    }
  }

  /** A validated draft is routed to one day per number. */
  lemma RoutedNumbersDiffer(ctx: Context, draft: Draft, cs: CandidateSet, days: nat, origin: GeoPoint, dayStart: nat)
    requires Validate.DraftValid(draft, cs, days)
    ensures DistinctDays(Pages(Planned(ctx, draft, origin).days, dayStart))
  {
    hide CandidateSet.ByRef, Context.Days, Context.TripWalk, StableSort, DayPage;
    var sorted, start := StableSort(draft.days, EarlierDay), Waypoint(origin, None);
    Validate.DraftNumbersDiffer(draft, cs, days);
    hide Validate.DraftValid;
    NoDuplicatesPermutation(draft.days, sorted);
    PermutationFacts(draft.days, sorted);
    DayNumbers(ctx, sorted, start);
    PageNumbers(Planned(ctx, draft, origin).days, dayStart);
    forall i, j | 0 <= i < j < |sorted| ensures sorted[i].number != sorted[j].number {
      assert sorted[i] in draft.days && sorted[j] in draft.days && sorted[i] != sorted[j];
    }
  }

  lemma PageNumbers(days: seq<RoutedDay>, dayStart: nat)
    ensures forall i :: 0 <= i < |days| ==> Pages(days, dayStart)[i].number == days[i].number
  {
  }

  /** The trail of itinerary `id` after it was saved into `audit`. */
  function Trail(audit: Audit, id: ItineraryId, plan: RoutedPlan, dayStart: nat): Audit {
    AllInserted(audit, id, ReferencesOf(Pages(plan.days, dayStart)))
  }

  /** The trail holds every stop of the day under its slot, and under slot 0 its bed, if it has one. */
  ghost predicate DayAudited(trail: Audit, id: ItineraryId, day: RoutedDay) {
    && (forall k: nat :: k < |day.items| ==>
         Holds(trail, AuditKey(id, day.number, k + 1), day.items[k].candidate.poiId))
    && (if day.stay.Some? then Holds(trail, AuditKey(id, day.number, 0), day.stay.value.poiId)
        else AuditKey(id, day.number, 0) !in trail)
  }

  /** From stage 3 to the database: the itinerary of a validated draft has one page per day number,
      so its audit trail loses no row: every stop and every bed of every day is found in it. */
  lemma ValidatedIsAudited(ctx: Context, draft: Draft, cs: CandidateSet, days: nat, origin: GeoPoint, dayStart: nat,
                           audit: Audit, id: ItineraryId)
    requires Validate.DraftValid(draft, cs, days)
    requires forall key :: key in audit ==> key.itinerary != id
    ensures var plan := Planned(ctx, draft, origin);
      forall day :: day in plan.days ==> DayAudited(Trail(audit, id, plan, dayStart), id, day)
  {
    var plan := Planned(ctx, draft, origin);
    var pages := Pages(plan.days, dayStart);
    RoutedNumbersDiffer(ctx, draft, cs, days, origin, dayStart);
    hide Planned, Pages, Validate.DraftValid, DayReferences, DayAudited, IsTrail;
    DistinctDaysDistinctSlots(plan.days, dayStart);
    NothingDropped(audit, id, ReferencesOf(pages));
    forall day | day in plan.days ensures DayAudited(Trail(audit, id, plan, dayStart), id, day) {
      var i :| 0 <= i < |plan.days| && plan.days[i] == day;
      DayIsAudited(plan, i, dayStart, Trail(audit, id, plan, dayStart), audit, id);
    }
  }

  lemma DayIsAudited(plan: RoutedPlan, i: nat, dayStart: nat, trail: Audit, audit: Audit, id: ItineraryId)
    requires i < |plan.days| && DistinctDays(Pages(plan.days, dayStart))
    requires IsTrail(trail, audit, id, ReferencesOf(Pages(plan.days, dayStart)))
    ensures DayAudited(trail, id, plan.days[i])
  {
    hide ReferencesOf, Clamp, Reached;
    var pages, day := Pages(plan.days, dayStart), plan.days[i];
    var here := DayReferences(pages[i]);
    forall r | r in here ensures r in ReferencesOf(pages) {
      TrailIsPages(pages, r);
    }
    var beds := if day.stay.Some? then 1 else 0;
    forall k: nat | k < |day.items|
      ensures Holds(trail, AuditKey(id, day.number, k + 1), day.items[k].candidate.poiId)
    {
      assert here[beds + k] == Reference(day.number, k + 1, day.items[k].candidate.poiId);
      assert here[beds + k] in here;
    }
    var bed := AuditKey(id, day.number, 0);
    if day.stay.Some? {
      assert here[0] == Reference(day.number, 0, day.stay.value.poiId);
      assert here[0] in here;
    } else {
      PageNumbers(plan.days, dayStart);
      assert forall x :: x in here ==> x.slot >= 1;
      forall r | r in ReferencesOf(pages) ensures bed != AuditKey(id, r.day, r.slot) {
        TrailIsPages(pages, r);
        var j :| 0 <= j < |pages| && r in DayReferences(pages[j]);
        DaySlots(plan.days[j], dayStart);
        assert j == i || pages[j].number != pages[i].number;
      }
      assert bed !in trail;
    }
  }
}
