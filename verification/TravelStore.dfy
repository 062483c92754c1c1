/** The memo table of legs, api/src/tripplan/store/travel.py. */
module TravelStore {
  import opened Util
  import opened Domain

  type Pair = (PoiId, PoiId)

  /** Primary key (from, to, source). */
  datatype Key = Key(from: PoiId, to: PoiId, source: TravelSource)

  datatype Measure = Measure(distance: nat, minutes: nat)

  type Rows = map<Key, Measure>

  /** Position in TRAVEL_SOURCE_PREFERENCE, best first. */
  function Rank(s: TravelSource): nat {
    match s
    case MapsApi => 0
    case Osrm => 1
    case StaticHaversine => 2
  }

  const UNKNOWN_RANK: nat := 3

  /** The worst rank worth reading, given who is measuring now. */
  function Floor(noWorseThan: Option<TravelSource>): nat {
    if noWorseThan.Some? then Rank(noWorseThan.value) else UNKNOWN_RANK
  }

  function LegAt(rows: Rows, k: Key): TravelLeg
    requires k in rows
  {
    TravelLeg(rows[k].distance, rows[k].minutes, k.source)
  }

  /** The row is a usable measurement of a pair of the given places. */
  predicate Usable(rows: Rows, ids: set<PoiId>, floor: nat, k: Key) {
    k in rows && k.from in ids && k.to in ids && Rank(k.source) <= floor
  }

  /** What a load must return: for each pair with a usable row, the usable row of the best source. */
  ghost predicate IsLoaded(legs: map<Pair, TravelLeg>, rows: Rows, ids: set<PoiId>, floor: nat) {
    && (forall p :: p in legs ==>
          var k := Key(p.0, p.1, legs[p].source);
          Usable(rows, ids, floor, k) && legs[p] == LegAt(rows, k))
    && (forall k :: Usable(rows, ids, floor, k) ==>
          (k.from, k.to) in legs && Rank(legs[(k.from, k.to)].source) <= Rank(k.source))
  }

  lemma LoadedIsUnique(a: map<Pair, TravelLeg>, b: map<Pair, TravelLeg>, rows: Rows, ids: set<PoiId>, floor: nat)
    requires IsLoaded(a, rows, ids, floor) && IsLoaded(b, rows, ids, floor)
    ensures a == b
  {
    forall p | p in a ensures p in b && a[p] == b[p] {
      var k := Key(p.0, p.1, a[p].source);
      assert Usable(rows, ids, floor, k) && p == (k.from, k.to);
      var l := Key(p.0, p.1, b[p].source);
      assert Usable(rows, ids, floor, l);
      assert Rank(k.source) == Rank(l.source);
    }
    forall p | p in b ensures p in a {
      var l := Key(p.0, p.1, b[p].source);
      assert Usable(rows, ids, floor, l) && p == (l.from, l.to);
    }
  }

  function Saved(rows: Rows, from: PoiId, to: PoiId, leg: TravelLeg): Rows {
    if from == to then rows else rows[Key(from, to, leg.source) := Measure(leg.distance, leg.minutes)]
  }

  class TravelTable {
    var rows: Rows

    constructor ()
      ensures rows == map[]
    {
      rows := map[];
    }

    /** Upsert; a self-pair is skipped. */
    method SaveLeg(from: PoiId, to: PoiId, leg: TravelLeg)
      modifies this
      ensures rows == Saved(old(rows), from, to, leg)
    {
      if from == to {
        return;
      }
      rows := rows[Key(from, to, leg.source) := Measure(leg.distance, leg.minutes)];
    }

    /** Rows come back in no particular order; the fold keeps the best-ranked one per pair. */
    method LoadLegs(ids: set<PoiId>, noWorseThan: Option<TravelSource>) returns (legs: map<Pair, TravelLeg>)
      ensures IsLoaded(legs, rows, ids, Floor(noWorseThan))
    {
      legs := map[];
      if ids == {} {
        return;
      }
      NothingLoaded(rows, ids, Floor(noWorseThan));
      hide IsLoaded, Usable, Halfway, Best, RanksMatch;
      var fetched := set k | k in rows && k.from in ids && k.to in ids;
      var floor := Floor(noWorseThan);
      var ranked: Ranking := map[];
      ghost var done: Rows := map[];
      while fetched != {}
        invariant Halfway(fetched, done, rows, ids)
        invariant RanksMatch(ranked) && IsLoaded(Best(ranked), done, ids, floor)
        decreases |fetched|
      {
        var row :| row in fetched;
        TakeRow(fetched, done, rows, ids, row);
        RankStep(ranked, done, rows, ids, floor, row);
        fetched := fetched - {row};
        var rank := Rank(row.source);
        var key := (row.from, row.to);
        if rank <= floor && (key !in ranked || rank < ranked[key].0) {
          ranked := ranked[key := (rank, LegAt(rows, row))];
        }
        done := done[row := rows[row]];
      }
      legs := Best(ranked);
      AllTaken(done, rows, ids);
      SameUsable(legs, done, rows, ids, floor);
    }
  }

  /** The fold's accumulator: the best rank seen for a pair, with its leg. */
  type Ranking = map<Pair, (nat, TravelLeg)>

  function Best(ranked: Ranking): map<Pair, TravelLeg> { map p | p in ranked :: ranked[p].1 }

  ghost predicate RanksMatch(ranked: Ranking) { forall p :: p in ranked ==> ranked[p].0 == Rank(ranked[p].1.source) }

  lemma RankStep(ranked: Ranking, done: Rows, rows: Rows, ids: set<PoiId>, floor: nat, row: Key)
    requires RanksMatch(ranked) && IsLoaded(Best(ranked), done, ids, floor)
    requires row in rows && row.from in ids && row.to in ids
    requires forall k :: k in done ==> k in rows && done[k] == rows[k]
    ensures var rank, key := Rank(row.source), (row.from, row.to);
      var better := rank <= floor && (key !in ranked || rank < ranked[key].0);
      var after := if better then ranked[key := (rank, LegAt(rows, row))] else ranked;
      RanksMatch(after) && IsLoaded(Best(after), done[row := rows[row]], ids, floor)
  {
    hide IsLoaded;
    var rank, key := Rank(row.source), (row.from, row.to);
    var better := rank <= floor && (key !in ranked || rank < ranked[key].0);
    var after := if better then ranked[key := (rank, LegAt(rows, row))] else ranked;
    FoldStep(Best(ranked), Best(after), done, rows, ids, floor, row);
  }

  /** Every relevant row is either still to be folded or done. */
  ghost predicate Halfway(fetched: set<Key>, done: Rows, rows: Rows, ids: set<PoiId>) {
    && (forall k :: k in fetched ==> k in rows && k.from in ids && k.to in ids)
    && (forall k :: k in done ==> k in rows && done[k] == rows[k])
    && (forall k :: k in rows && k.from in ids && k.to in ids ==> k in fetched || k in done)
  }

  lemma TakeRow(fetched: set<Key>, done: Rows, rows: Rows, ids: set<PoiId>, row: Key)
    requires Halfway(fetched, done, rows, ids) && row in fetched
    ensures row in rows && row.from in ids && row.to in ids
    ensures forall k :: k in done ==> k in rows && done[k] == rows[k]
    ensures Halfway(fetched - {row}, done[row := rows[row]], rows, ids)
  {
  }

  lemma AllTaken(done: Rows, rows: Rows, ids: set<PoiId>)
    requires Halfway({}, done, rows, ids)
    ensures forall k :: k in done ==> k in rows && done[k] == rows[k]
    ensures forall k :: k in rows && k.from in ids && k.to in ids ==> k in done
  {
  }

  lemma NothingLoaded(rows: Rows, ids: set<PoiId>, floor: nat)
    ensures RanksMatch(map[]) && IsLoaded(Best(map[]), map[], ids, floor)
    ensures Halfway(set k | k in rows && k.from in ids && k.to in ids, map[], rows, ids)
  {
  }

  lemma FoldStep(before: map<Pair, TravelLeg>, after: map<Pair, TravelLeg>, done: Rows, rows: Rows,
                 ids: set<PoiId>, floor: nat, row: Key)
    requires IsLoaded(before, done, ids, floor) && row in rows && row.from in ids && row.to in ids
    requires forall k :: k in done ==> k in rows && done[k] == rows[k]
    requires var key := (row.from, row.to);
      after == if Rank(row.source) <= floor && (key !in before || Rank(row.source) < Rank(before[key].source))
        then before[key := LegAt(rows, row)] else before
    ensures IsLoaded(after, done[row := rows[row]], ids, floor)
  {
    var now_ := done[row := rows[row]];
    forall p | p in after
      ensures Usable(now_, ids, floor, Key(p.0, p.1, after[p].source))
        && after[p] == LegAt(now_, Key(p.0, p.1, after[p].source))
    {
      if p in before && after[p] == before[p] {
        assert Usable(done, ids, floor, Key(p.0, p.1, before[p].source));
      }
    }
    forall k | Usable(now_, ids, floor, k)
      ensures (k.from, k.to) in after && Rank(after[(k.from, k.to)].source) <= Rank(k.source)
    {
      if k != row {
        assert Usable(done, ids, floor, k);
      }
    }
  }

  lemma SameUsable(legs: map<Pair, TravelLeg>, done: Rows, rows: Rows, ids: set<PoiId>, floor: nat)
    requires IsLoaded(legs, done, ids, floor)
    requires forall k :: k in done ==> k in rows && done[k] == rows[k]
    requires forall k :: k in rows && k.from in ids && k.to in ids ==> k in done
    ensures IsLoaded(legs, rows, ids, floor)
  {
    forall k | Usable(rows, ids, floor, k)
      ensures (k.from, k.to) in legs && Rank(legs[(k.from, k.to)].source) <= Rank(k.source)
    {
      assert Usable(done, ids, floor, k);
    }
    forall p | p in legs
      ensures Usable(rows, ids, floor, Key(p.0, p.1, legs[p].source))
        && legs[p] == LegAt(rows, Key(p.0, p.1, legs[p].source))
    {
      assert Usable(done, ids, floor, Key(p.0, p.1, legs[p].source));
    }
  }

  /** What a load says of two of its places: the row of the maps service, else that of the road matrix, else the
      estimate, as far down as the measuring provider is still worse or as good; nothing when there is no such row. */
  lemma LoadedIsBest(legs: map<Pair, TravelLeg>, rows: Rows, ids: set<PoiId>, noWorseThan: Option<TravelSource>,
                     a: PoiId, b: PoiId)
    requires IsLoaded(legs, rows, ids, Floor(noWorseThan)) && a in ids && b in ids
    ensures var maps, matrix, estimate := Key(a, b, MapsApi), Key(a, b, Osrm), Key(a, b, StaticHaversine);
      if maps in rows then
        (a, b) in legs && legs[(a, b)] == TravelLeg(rows[maps].distance, rows[maps].minutes, MapsApi)
      else if matrix in rows && noWorseThan != Some(MapsApi) then
        (a, b) in legs && legs[(a, b)] == TravelLeg(rows[matrix].distance, rows[matrix].minutes, Osrm)
      else if estimate in rows && noWorseThan != Some(MapsApi) && noWorseThan != Some(Osrm) then
        (a, b) in legs && legs[(a, b)] == TravelLeg(rows[estimate].distance, rows[estimate].minutes, StaticHaversine)
      else (a, b) !in legs
  {
    var floor := Floor(noWorseThan);
    forall s ensures Usable(rows, ids, floor, Key(a, b, s)) <==> Key(a, b, s) in rows && Rank(s) <= floor {
    }
    if (a, b) in legs {
      assert Usable(rows, ids, floor, Key(a, b, legs[(a, b)].source));
    }
  }

  /** And of a place that is not among them, nothing. */
  lemma OthersAreNotLoaded(legs: map<Pair, TravelLeg>, rows: Rows, ids: set<PoiId>, floor: nat, p: Pair)
    requires IsLoaded(legs, rows, ids, floor) && p in legs
    ensures p.0 in ids && p.1 in ids
  {
    assert Usable(rows, ids, floor, Key(p.0, p.1, legs[p].source));
  }
}
