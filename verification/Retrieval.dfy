/** Stage 1, api/src/tripplan/store/pois.py: which rows a brief retrieves, in which order,
    and under which refs. */
module Retrieval {
  import opened Util
  import opened Domain
  import LikePrefix

  datatype Mode = Interest | Location | District

  datatype Brief = Brief(
    mode: Mode, tags: seq<string>, district: string, anchor: Option<GeoPoint>, radius: Option<nat>,
    days: nat, budgetBand: nat, month: nat)

  /** A row of `pois` joined with its region; `tags` maps a tag slug to its weight. */
  datatype PoiRow = PoiRow(
    id: PoiId, kind: PoiKind, published: bool, region: string, regionPath: string, name: string, point: GeoPoint,
    duration: Option<nat>, costBand: Option<nat>, bestMonths: Option<set<nat>>, tags: map<string, nat>,
    repeatable: bool, confidence: int)

  /** A row of `interest_tags`. */
  datatype InterestTag = InterestTag(slug: string, caption: string, isInterest: bool, active: bool, displayOrder: int)

  /** The database as a planner sees it: the POI rows, the region paths by slug, the distance, the interests. */
  datatype Store = Store(rows: seq<PoiRow>, paths: map<string, string>, dist: Metric, interests: seq<InterestTag>)

  // ------------------------------------------------------------------ the filters

  predicate ByRadius(b: Brief) { b.mode == Location && b.anchor.Some? && b.radius.Some? }

  /** The one clause in which the planning modes differ. */
  predicate InScope(st: Store, b: Brief, path: string, r: PoiRow) {
    if ByRadius(b) then st.dist(r.point, b.anchor.value) <= b.radius.value as real
    else LikePrefix.Like(r.regionPath, path + "%")
  }

  predicate InSeason(r: PoiRow, month: nat) { r.bestMonths.None? || month in r.bestMonths.value }

  predicate InBudget(r: PoiRow, band: nat) { r.costBand.None? || r.costBand.value <= band }

  predicate HasTag(r: PoiRow, tags: seq<string>) { exists t :: t in tags && t in r.tags }

  /** Stays are logistics, and outside interest mode nothing needs a tag. */
  predicate NeedsTag(b: Brief, kind: PoiKind) { kind != Stay && b.mode == Interest }

  predicate Retrieves(st: Store, b: Brief, path: string, kind: PoiKind, r: PoiRow) {
    && r.published && r.kind == kind
    && InBudget(r, b.budgetBand) && InSeason(r, b.month)
    && InScope(st, b, path, r)
    && (NeedsTag(b, kind) ==> HasTag(r, b.tags))
  }

  // ----------------------------------------------------------------- the ranking

  /** max(weight) over the requested tags the row carries, else 0. */
  function MatchWeight(r: PoiRow, tags: seq<string>): nat {
    if tags == [] then 0
    else
      var rest := MatchWeight(r, tags[1..]);
      if tags[0] in r.tags && r.tags[tags[0]] > rest then r.tags[tags[0]] else rest
  }

  /** ORDER BY of the mode. */
  predicate RanksBefore(st: Store, b: Brief, x: PoiRow, y: PoiRow) {
    var wx, wy := MatchWeight(x, b.tags), MatchWeight(y, b.tags);
    if ByRadius(b) then
      var dx, dy := st.dist(x.point, b.anchor.value), st.dist(y.point, b.anchor.value);
      wx > wy || (wx == wy && (dx < dy || (dx == dy &&
        (x.confidence > y.confidence || (x.confidence == y.confidence && StrLess(x.name, y.name))))))
    else if b.mode == District then
      x.confidence > y.confidence
      || (x.confidence == y.confidence && (wx > wy || (wx == wy && StrLess(x.name, y.name))))
    else
      wx > wy
      || (wx == wy && (x.confidence > y.confidence || (x.confidence == y.confidence && StrLess(x.name, y.name))))
  }

  function Selected(st: Store, b: Brief, path: string, kind: PoiKind): seq<PoiRow> {
    Filter(st.rows, (r: PoiRow) => Retrieves(st, b, path, kind, r))
  }

  /** The capped, ranked rows of one kind. */
  function Ranked(st: Store, b: Brief, path: string, kind: PoiKind, limit: nat): seq<PoiRow> {
    var all := StableSort(Selected(st, b, path, kind), (x: PoiRow, y: PoiRow) => RanksBefore(st, b, x, y));
    if |all| <= limit then all else all[..limit]
  }

  // ---------------------------------------------------------------------- refs

  function Decimal(n: nat): (s: string)
    ensures s != ""
  {
    if n < 10 then [Digit(n)] else Decimal(n / 10) + [Digit(n % 10)]
  }

  lemma {:induction false} DecimalInjective(m: nat, n: nat)
    requires Decimal(m) == Decimal(n)
    ensures m == n
    decreases m
  {
    var s, t := Decimal(m), Decimal(n);
    assert s[|s| - 1] == Digit(m % 10) && t[|t| - 1] == Digit(n % 10);
    assert (|s| == 1 <==> m < 10) && (|t| == 1 <==> n < 10);
    if m >= 10 {
      assert s[..|s| - 1] == Decimal(m / 10) && t[..|t| - 1] == Decimal(n / 10);
      DecimalInjective(m / 10, n / 10);
    }
  }

  function Prefix(kind: PoiKind): char {
    match kind
    case Place => 'P'
    case Stay => 'S'
    case Activity => 'A'
  }

  function Ref(kind: PoiKind, index: nat): string { [Prefix(kind)] + Decimal(index) }

  lemma RefInjective(k: PoiKind, i: nat, l: PoiKind, j: nat)
    requires Ref(k, i) == Ref(l, j)
    ensures k == l && i == j
  {
    assert Ref(k, i)[0] == Prefix(k) && Ref(l, j)[0] == Prefix(l);
    assert Ref(k, i)[1..] == Decimal(i) && Ref(l, j)[1..] == Decimal(j);
    DecimalInjective(i, j);
  }

  // ------------------------------------------------------------------ candidates

  function CandidateOf(b: Brief, r: PoiRow, kind: PoiKind, index: nat): Candidate {
    Candidate(Ref(kind, index), r.id, kind, r.name, r.region, r.point, r.duration, r.repeatable,
              MatchWeight(r, b.tags), r.confidence)
  }

  function Numbered(b: Brief, rows: seq<PoiRow>, kind: PoiKind): seq<Candidate> {
    seq(|rows|, i requires 0 <= i < |rows| => CandidateOf(b, rows[i], kind, i + 1))
  }

  function Fetched(st: Store, b: Brief, kind: PoiKind, limit: nat): seq<Candidate> {
    if b.district !in st.paths then [] else Numbered(b, Ranked(st, b, st.paths[b.district], kind, limit), kind)
  }

  method FetchCandidates(st: Store, b: Brief, kind: PoiKind, limit: nat) returns (out: seq<Candidate>)
    ensures out == Fetched(st, b, kind, limit)
  {
    if b.district !in st.paths {
      return [];
    }
    var rows := Ranked(st, b, st.paths[b.district], kind, limit);
    out := [];
    for index := 1 to |rows| + 1
      invariant out == Numbered(b, rows[..index - 1], kind)
    {
      assert rows[..index][..index - 1] == rows[..index - 1];
      out := out + [CandidateOf(b, rows[index - 1], kind, index)];
    }
    assert rows[..|rows|] == rows;
  }

  datatype Caps = Caps(places: nat, stays: nat, activities: nat)

  function Retrieved(st: Store, b: Brief, caps: Caps): CandidateSet {
    CandidateSet(Fetched(st, b, Place, caps.places), Fetched(st, b, Stay, caps.stays),
      Fetched(st, b, Activity, caps.activities))
  }

  lemma FetchedRefs(st: Store, b: Brief, kind: PoiKind, limit: nat)
    ensures |Fetched(st, b, kind, limit)| <= limit
    ensures forall i :: 0 <= i < |Fetched(st, b, kind, limit)| ==>
      Fetched(st, b, kind, limit)[i].ref == Ref(kind, i + 1) && Fetched(st, b, kind, limit)[i].kind == kind
  {
    hide StableSort, Retrieves, RanksBefore, MatchWeight, Decimal;
  }

  /** What the later stages rely on: every ref distinct, and each list of its own kind. */
  lemma RetrievedIsWellFormed(st: Store, b: Brief, caps: Caps)
    ensures Retrieved(st, b, caps).WellFormed()
  {
    hide Fetched;
    FetchedRefs(st, b, Place, caps.places);
    FetchedRefs(st, b, Stay, caps.stays);
    FetchedRefs(st, b, Activity, caps.activities);
    var cs := Retrieved(st, b, caps);
    var all, p, s := cs.All(), |cs.places|, |cs.stays|;
    assert forall i :: 0 <= i < |all| ==> all[i].ref == Ref(KindAt(p, s, i), PlaceAt(p, s, i));
    forall i, j | 0 <= i < j < |all| ensures all[i].ref != all[j].ref {
      if all[i].ref == all[j].ref {
        RefInjective(KindAt(p, s, i), PlaceAt(p, s, i), KindAt(p, s, j), PlaceAt(p, s, j));
      }
    }
    forall c | c in cs.Doable() ensures c.kind != Stay {
      var i :| 0 <= i < |cs.Doable()| && cs.Doable()[i] == c;
      assert c == if i < p then cs.places[i] else cs.activities[i - p];
    }
  }

  /** Position i of places + stays + activities: its kind, and its 1-based number in its list. */
  ghost function KindAt(p: nat, s: nat, i: nat): PoiKind {
    if i < p then Place else if i < p + s then Stay else Activity
  }

  ghost function PlaceAt(p: nat, s: nat, i: nat): nat {
    if i < p then i + 1 else if i < p + s then i - p + 1 else i - p - s + 1
  }

  /** A row is retrieved, uncapped, exactly when it passes the filters; the cap keeps the best. */
  lemma RankedKeepsBest(st: Store, b: Brief, path: string, kind: PoiKind, limit: nat, kept: PoiRow, dropped: PoiRow)
    requires kept in Ranked(st, b, path, kind, limit)
    requires dropped in Selected(st, b, path, kind) && dropped !in Ranked(st, b, path, kind, limit)
    ensures Retrieves(st, b, path, kind, kept) && !RanksBefore(st, b, dropped, kept)
  {
    var before := (x: PoiRow, y: PoiRow) => RanksBefore(st, b, x, y);
    var all := StableSort(Selected(st, b, path, kind), before);
    RankIsWeakOrder(st, b);
    StableSortSorted(Selected(st, b, path, kind), before);
    PermutationFacts(all, Selected(st, b, path, kind));
    assert forall r :: r in all ==> Retrieves(st, b, path, kind, r);
    hide StableSort, RanksBefore, Retrieves;
    var top := Ranked(st, b, path, kind, limit);
    var i :| 0 <= i < |top| && top[i] == kept;
    var j :| 0 <= j < |all| && all[j] == dropped;
    assert top == all[..|top|] && kept in all;
    assert j >= |top|;
    assert !before(all[j], all[i]);
  }

  lemma RankIsWeakOrder(st: Store, b: Brief)
    ensures WeakOrder((x: PoiRow, y: PoiRow) => RanksBefore(st, b, x, y))
  {
    forall x, y | RanksBefore(st, b, x, y) ensures !RanksBefore(st, b, y, x) {
      if StrLess(x.name, y.name) {
        StrLessAsymmetric(x.name, y.name);
      }
    }
    forall x, y, z | !RanksBefore(st, b, x, y) && !RanksBefore(st, b, y, z) ensures !RanksBefore(st, b, x, z) {
      if !StrLess(x.name, y.name) && !StrLess(y.name, z.name) {
        StrLessNegTransitive(x.name, y.name, z.name);
      }
    }
  }
}
