/** What retrieval hands over, said of the columns of the rows: what a row must satisfy, in which order the rows
    come, and what becomes of their columns. */
module RetrievedRows {
  import opened Util
  import opened Domain
  import opened Retrieval
  import LikePrefix

  // -------------------------------------------------------------- which rows

  /** Every row selected is published, of the kind, open in the month, within the budget, in scope, and, where tags
      are needed, carries one of them. */
  lemma SelectedRowIsWanted(st: Store, b: Brief, path: string, kind: PoiKind, r: PoiRow)
    requires r in Selected(st, b, path, kind)
    ensures r in st.rows && r.published && r.kind == kind
    ensures r.bestMonths.None? || b.month in r.bestMonths.value
    ensures r.costBand.None? || r.costBand.value <= b.budgetBand
    ensures if b.mode == Location && b.anchor.Some? && b.radius.Some?
      then st.dist(r.point, b.anchor.value) <= b.radius.value as real
      else LikePrefix.Like(r.regionPath, path + "%")
    ensures kind != Stay && b.mode == Interest ==> exists i :: 0 <= i < |b.tags| && b.tags[i] in r.tags
  {
    if kind != Stay && b.mode == Interest {
      var t :| t in b.tags && t in r.tags;
      var i :| 0 <= i < |b.tags| && b.tags[i] == t;
    }
  }

  /** Of a row selected for one brief: for another month it is selected exactly when it is open then, for another budget
      exactly when it is not dearer, for another radius exactly when it lies within it. */
  lemma FiltersAreExact(st: Store, b: Brief, path: string, kind: PoiKind, r: PoiRow, month: nat, band: nat, radius: nat)
    requires r in Selected(st, b, path, kind)
    ensures r in Selected(st, b.(month := month), path, kind) <==>
      (r.bestMonths.Some? ==> month in r.bestMonths.value)
    ensures r in Selected(st, b.(budgetBand := band), path, kind) <==>
      (r.costBand.Some? ==> r.costBand.value <= band)
    ensures b.mode == Location && b.anchor.Some? && b.radius.Some? ==>
      (r in Selected(st, b.(radius := Some(radius)), path, kind) <==>
       st.dist(r.point, b.anchor.value) <= radius as real)
  {
    hide LikePrefix.Like;
  }

  /** With other tags: in interest mode a place or activity is selected exactly when it carries one of them; a stay, or
      anything in another mode, whatever they are. */
  lemma TagsAreExact(st: Store, b: Brief, path: string, kind: PoiKind, r: PoiRow, tags: seq<string>)
    requires r in Selected(st, b, path, kind)
    ensures r in Selected(st, b.(tags := tags), path, kind) <==>
      (kind != Stay && b.mode == Interest ==> exists i :: 0 <= i < |tags| && tags[i] in r.tags)
  {
    hide LikePrefix.Like;
    if i :| 0 <= i < |tags| && tags[i] in r.tags {
      assert tags[i] in tags && HasTag(r, tags);
    }
    if HasTag(r, tags) {
      var t :| t in tags && t in r.tags;
      var i :| 0 <= i < |tags| && tags[i] == t;
    }
  }

  /** A row of the kind, published and in scope, with nothing said of months or cost, is selected, unless tags are
      needed and it carries none of them. */
  lemma NothingElseIsAsked(st: Store, b: Brief, path: string, r: PoiRow)
    requires r in st.rows && r.published && InScope(st, b, path, r) && r.bestMonths.None? && r.costBand.None?
    requires r.kind != Stay && b.mode == Interest ==> HasTag(r, b.tags)
    ensures r in Selected(st, b, path, r.kind)
  {
  }

  // -------------------------------------------------------------- in which order

  /** The match weight is the greatest weight of a tag that is asked for and carried, zero when there is none. */
  lemma {:induction false} MatchWeightIsGreatest(r: PoiRow, tags: seq<string>)
    ensures forall i :: 0 <= i < |tags| && tags[i] in r.tags ==> r.tags[tags[i]] <= MatchWeight(r, tags)
    ensures MatchWeight(r, tags) == 0
      || exists i :: 0 <= i < |tags| && tags[i] in r.tags && r.tags[tags[i]] == MatchWeight(r, tags)
  {
    if tags != [] {
      var rest := tags[1..];
      MatchWeightIsGreatest(r, rest);
      assert forall i :: 1 <= i < |tags| ==> tags[i] == rest[i - 1];
      if MatchWeight(r, tags) == MatchWeight(r, rest) && MatchWeight(r, rest) != 0 {
        var i :| 0 <= i < |rest| && rest[i] in r.tags && r.tags[rest[i]] == MatchWeight(r, rest);
        assert tags[i + 1] == rest[i];
      }
    }
  }

  /** By descending match weight, by confidence, by name. */
  ghost predicate InRank(x: Candidate, y: Candidate) {
    && x.matchWeight >= y.matchWeight
    && (x.matchWeight == y.matchWeight ==>
          x.confidence >= y.confidence && (x.confidence == y.confidence ==> !StrLess(y.name, x.name)))
  }

  /** The candidate x may stand before y: near an anchor by weight, then distance; for a whole district by
      confidence, then weight; otherwise by weight, then confidence. What is left is settled by name. */
  ghost predicate MayPrecede(b: Brief, dist: Metric, x: Candidate, y: Candidate) {
    if b.mode == Location && b.anchor.Some? && b.radius.Some? then
      var dx, dy := dist(x.point, b.anchor.value), dist(y.point, b.anchor.value);
      && x.matchWeight >= y.matchWeight
      && (x.matchWeight == y.matchWeight ==> dx <= dy && (dx == dy ==> InRank(x, y)))
    else if b.mode == District then
      x.confidence >= y.confidence && (x.confidence == y.confidence ==> InRank(x, y))
    else InRank(x, y)
  }

  lemma NotBeforeMayPrecede(st: Store, b: Brief, kind: PoiKind, x: PoiRow, y: PoiRow, i: nat, j: nat)
    requires !RanksBefore(st, b, y, x)
    ensures MayPrecede(b, st.dist, CandidateOf(b, x, kind, i), CandidateOf(b, y, kind, j))
  {
    hide MatchWeight, StrLess, Decimal;
  }

  lemma RankedOrder(st: Store, b: Brief, path: string, kind: PoiKind, limit: nat)
    ensures var rows := Ranked(st, b, path, kind, limit);
      && |rows| == (if |Selected(st, b, path, kind)| <= limit then |Selected(st, b, path, kind)| else limit)
      && (forall r :: r in rows ==> r in Selected(st, b, path, kind))
      && (forall i, j :: 0 <= i < j < |rows| ==> !RanksBefore(st, b, rows[j], rows[i]))
  {
    var all := Selected(st, b, path, kind);
    var sorted := StableSort(all, (x: PoiRow, y: PoiRow) => RanksBefore(st, b, x, y));
    RankIsWeakOrder(st, b);
    StableSortSorted(all, (x: PoiRow, y: PoiRow) => RanksBefore(st, b, x, y));
    PermutationFacts(sorted, all);
    hide StableSort, RanksBefore, Selected;
  }

  lemma FetchedAre(st: Store, b: Brief, kind: PoiKind, limit: nat)
    requires b.district in st.paths
    ensures var rows, out := Ranked(st, b, st.paths[b.district], kind, limit), Fetched(st, b, kind, limit);
      |out| == |rows| && forall i :: 0 <= i < |out| ==>
        out[i] == CandidateOf(b, rows[i], kind, i + 1) && IsRow(out[i], rows[i], b, kind, i + 1)
  {
    var rows, out := Ranked(st, b, st.paths[b.district], kind, limit), Fetched(st, b, kind, limit);
    hide Ranked, IsRow;
    forall i | 0 <= i < |out|
      ensures out[i] == CandidateOf(b, rows[i], kind, i + 1) && IsRow(out[i], rows[i], b, kind, i + 1)
    {
      CandidateIsRow(b, rows[i], kind, i + 1);
    }
  }

  /** What is handed over: as many candidates as the cap allows of the rows selected, each its row: the i-th under the
      kind's letter and the number i, with the row's columns. */
  lemma FetchedAreRows(st: Store, b: Brief, kind: PoiKind, limit: nat)
    requires b.district in st.paths
    ensures var out, all := Fetched(st, b, kind, limit), Selected(st, b, st.paths[b.district], kind);
      && |out| == (if |all| <= limit then |all| else limit)
      && (forall i :: 0 <= i < |out| ==> IsOneOf(out[i], all, b, kind, i + 1))
  {
    hide *;
    FetchedAre(st, b, kind, limit);
    RankedOrder(st, b, st.paths[b.district], kind, limit);
    var rows := Ranked(st, b, st.paths[b.district], kind, limit);
    var out, all := Fetched(st, b, kind, limit), Selected(st, b, st.paths[b.district], kind);
    forall i | 0 <= i < |out| ensures IsOneOf(out[i], all, b, kind, i + 1) {
      assert rows[i] in all;
      OneOf(out[i], all, b, kind, i + 1, rows[i]);
    }
  }

  /** In the order of the mode. */
  lemma FetchedInOrder(st: Store, b: Brief, kind: PoiKind, limit: nat, i: nat, j: nat)
    requires b.district in st.paths && i < j < |Fetched(st, b, kind, limit)|
    ensures var out := Fetched(st, b, kind, limit); MayPrecede(b, st.dist, out[i], out[j])
  {
    hide *;
    var rows := Ranked(st, b, st.paths[b.district], kind, limit);
    FetchedAre(st, b, kind, limit);
    RankedOrder(st, b, st.paths[b.district], kind, limit);
    NotBeforeMayPrecede(st, b, kind, rows[i], rows[j], i + 1, j + 1);
  }

  /** A selected row that is not handed over was cut off by the cap, and could have come no earlier than any that is. */
  lemma LeftOutComesLater(st: Store, b: Brief, kind: PoiKind, limit: nat, r: PoiRow, i: nat)
    requires b.district in st.paths && r in Selected(st, b, st.paths[b.district], kind)
    requires !Listed(Fetched(st, b, kind, limit), r, b, kind)
    ensures var out := Fetched(st, b, kind, limit);
      |out| == limit && (i < limit ==> MayPrecede(b, st.dist, out[i], CandidateOf(b, r, kind, limit)))
  {
    var path := st.paths[b.district];
    var rows := Ranked(st, b, path, kind, limit);
    hide *;
    FetchedAre(st, b, kind, limit);
    if r in rows {
      RankedIsListed(st, b, kind, limit, r);
    }
    AllRankedUnlessCapped(st, b, path, kind, limit, r);
    if i < limit {
      RankedKeepsBest(st, b, path, kind, limit, rows[i], r);
      NotBeforeMayPrecede(st, b, kind, rows[i], r, i + 1, limit);
    }
  }

  lemma RankedIsListed(st: Store, b: Brief, kind: PoiKind, limit: nat, r: PoiRow)
    requires b.district in st.paths && r in Ranked(st, b, st.paths[b.district], kind, limit)
    ensures Listed(Fetched(st, b, kind, limit), r, b, kind)
  {
    var rows := Ranked(st, b, st.paths[b.district], kind, limit);
    FetchedAre(st, b, kind, limit);
    hide Ranked, Fetched, IsRow;
    var i :| 0 <= i < |rows| && rows[i] == r;
  }

  lemma AllRankedUnlessCapped(st: Store, b: Brief, path: string, kind: PoiKind, limit: nat, r: PoiRow)
    requires r in Selected(st, b, path, kind) && r !in Ranked(st, b, path, kind, limit)
    ensures |Ranked(st, b, path, kind, limit)| == limit
  {
    var all := Selected(st, b, path, kind);
    PermutationFacts(StableSort(all, (x: PoiRow, y: PoiRow) => RanksBefore(st, b, x, y)), all);
    hide StableSort, RanksBefore, Selected;
  }

  // -------------------------------------------------------------- under which ref

  /** The candidate with this number is the row. */
  ghost predicate IsRow(c: Candidate, r: PoiRow, b: Brief, kind: PoiKind, n: nat) {
    && c.poiId == r.id && c.kind == kind && c.name == r.name && c.region == r.region && c.point == r.point
    && c.duration == r.duration && c.repeatable == r.repeatable && c.confidence == r.confidence
    && c.matchWeight == MatchWeight(r, b.tags)
    && c.ref != "" && c.ref[0] == (if kind == Place then 'P' else if kind == Stay then 'S' else 'A')
    && Number(c.ref[1..], |c.ref| - 1) == n
  }

  ghost predicate IsOneOf(c: Candidate, rows: seq<PoiRow>, b: Brief, kind: PoiKind, n: nat) {
    exists r :: r in rows && IsRow(c, r, b, kind, n)
  }

  lemma OneOf(c: Candidate, rows: seq<PoiRow>, b: Brief, kind: PoiKind, n: nat, r: PoiRow)
    requires r in rows && IsRow(c, r, b, kind, n)
    ensures IsOneOf(c, rows, b, kind, n)
  {
  }

  ghost predicate Listed(out: seq<Candidate>, r: PoiRow, b: Brief, kind: PoiKind) {
    exists i :: 0 <= i < |out| && IsRow(out[i], r, b, kind, i + 1)
  }

  lemma {:induction false} NumberOfPrefix(s: string, t: string, n: nat)
    requires n <= |s|
    ensures Number(s + t, n) == Number(s, n)
  {
    if n > 0 {
      NumberOfPrefix(s, t, n - 1);
    }
  }

  lemma {:induction false} DecimalReadsBack(n: nat)
    ensures Number(Decimal(n), |Decimal(n)|) == n
  {
    DigitReadsBack(n % 10);
    if n < 10 {
      assert Number(Decimal(n), 0) == 0;
    } else {
      DecimalReadsBack(n / 10);
      NumberOfPrefix(Decimal(n / 10), [Digit(n % 10)], |Decimal(n / 10)|);
    }
  }

  lemma DigitReadsBack(d: nat)
    requires d < 10
    ensures Digit(d) as int - '0' as int == d
  {
  }

  lemma CandidateIsRow(b: Brief, r: PoiRow, kind: PoiKind, n: nat)
    ensures IsRow(CandidateOf(b, r, kind, n), r, b, kind, n)
  {
    hide MatchWeight, Decimal;
    DecimalReadsBack(n);
    assert Ref(kind, n)[1..] == Decimal(n);
  }
}
