/** The road matrix, api/src/tripplan/routing/osrm.py: what one table response teaches the
    provider, and which legs it will then call measured. */
module Osrm {
  import opened Util
  import opened Domain

  /** A coordinate rounded to five places: two points with one key are one place. */
  type PlaceKey = (int, int)

  type Keying = GeoPoint -> PlaceKey

  type Cells = seq<seq<Option<real>>>

  /** The answer of the table service. A failed request, an error code or an unreadable body is no answer. */
  datatype Response = Response(durations: Cells, distances: Cells)

  /** How seconds become minutes and metres hundredths of a kilometre. */
  datatype Rounding = Rounding(minutes: real -> nat, hundredths: real -> nat)

  const MAX_TABLE_COORDS: nat := 90

  /** One matrix cell, tolerating a short or ragged response. */
  function Cell(rows: Cells, i: nat, j: nat): Option<real> {
    if i < |rows| && j < |rows[i]| then rows[i][j] else None
  }

  // -------------------------------------------------- the points that are sent

  function KeysOf(points: seq<GeoPoint>, key: Keying): set<PlaceKey> { set p | p in points :: key(p) }

  function Unique(points: seq<GeoPoint>, key: Keying): seq<GeoPoint> {
    if points == [] then []
    else
      var init, p := points[..|points| - 1], points[|points| - 1];
      Unique(init, key) + (if key(p) in KeysOf(init, key) then [] else [p])
  }

  method Deduplicate(points: seq<GeoPoint>, key: Keying) returns (unique: seq<GeoPoint>)
    ensures unique == Unique(points, key)
  {
    var seen: set<PlaceKey> := {};
    unique := [];
    for n := 0 to |points|
      invariant unique == Unique(points[..n], key) && seen == KeysOf(points[..n], key)
    {
      assert points[..n + 1][..n] == points[..n] && points[..n + 1] == points[..n] + [points[n]];
      KeysAppend(points[..n], points[n], key);
      if key(points[n]) !in seen {
        seen := seen + {key(points[n])};
        unique := unique + [points[n]];
      }
    }
    assert points[..|points|] == points;
  }

  /** The coordinates of the request: first occurrences, at most ninety of them. */
  function Sent(points: seq<GeoPoint>, key: Keying): seq<GeoPoint> {
    var u := Unique(points, key);
    if |u| > MAX_TABLE_COORDS then u[..MAX_TABLE_COORDS] else u
  }

  ghost predicate DistinctKeys(points: seq<GeoPoint>, key: Keying) {
    forall i, j :: 0 <= i < j < |points| ==> key(points[i]) != key(points[j])
  }

  ghost predicate FirstOf(points: seq<GeoPoint>, p: GeoPoint, key: Keying) {
    exists i :: 0 <= i < |points| && points[i] == p && key(p) !in KeysOf(points[..i], key)
  }

  /** One point per key, namely the first, and no key lost. */
  lemma {:induction false} UniqueKeepsFirsts(points: seq<GeoPoint>, key: Keying)
    ensures var u := Unique(points, key);
      && DistinctKeys(u, key) && KeysOf(u, key) == KeysOf(points, key)
      && (forall p :: p in u ==> FirstOf(points, p, key))
  {
    if points != [] {
      var n := |points| - 1;
      var init, last := points[..n], points[n];
      UniqueKeepsFirsts(init, key);
      assert points == init + [last];
      KeysAppend(init, last, key);
      KeysAppend(Unique(init, key), last, key);
      forall p | p in Unique(init, key) ensures FirstOf(points, p, key) {
        var i :| 0 <= i < n && init[i] == p && key(p) !in KeysOf(init[..i], key);
        assert points[..i] == init[..i];
      }
      assert key(last) !in KeysOf(init, key) ==> FirstOf(points, last, key) by {
        assert points[..n] == init;
      }
      hide FirstOf, KeysOf;
      DistinctAppend(Unique(init, key), last, key);
    }
  }

  lemma DistinctAppend(s: seq<GeoPoint>, p: GeoPoint, key: Keying)
    requires DistinctKeys(s, key)
    ensures key(p) !in KeysOf(s, key) ==> DistinctKeys(s + [p], key)
  {
    assert forall i :: 0 <= i < |s| ==> s[i] in s;
  }

  lemma KeysAppend(s: seq<GeoPoint>, p: GeoPoint, key: Keying)
    ensures KeysOf(s + [p], key) == KeysOf(s, key) + {key(p)}
  {
    assert forall x :: x in s + [p] <==> x in s || x == p;
  }

  // ------------------------------------------------------- what is learned

  predicate Known(r: Response, i: nat, j: nat) {
    i != j && Cell(r.durations, i, j).Some? && Cell(r.distances, i, j).Some?
  }

  function LegOf(r: Response, rounding: Rounding, i: nat, j: nat): TravelLeg
    requires Known(r, i, j)
  {
    TravelLeg(rounding.hundredths(Cell(r.distances, i, j).value), rounding.minutes(Cell(r.durations, i, j).value),
      TravelSource.Osrm)
  }

  type Matrix = map<(PlaceKey, PlaceKey), TravelLeg>

  /** The pairs known in the rows before `i` and, in row `i`, the columns before `j`. */
  function LearnedUpTo(sent: seq<GeoPoint>, r: Response, key: Keying, i: nat, j: nat): set<(PlaceKey, PlaceKey)> {
    set a: nat, b: nat | a < |sent| && b < |sent| && (a < i || (a == i && b < j)) && Known(r, a, b) ::
      (key(sent[a]), key(sent[b]))
  }

  /** All pairs of sent places with both cells present. */
  function Learned(sent: seq<GeoPoint>, r: Response, key: Keying): set<(PlaceKey, PlaceKey)> {
    LearnedUpTo(sent, r, key, |sent|, 0)
  }

  /** The matrix after those cells: the learned pairs and nothing else was written, each with its leg. */
  ghost predicate Taught(m: Matrix, before: Matrix, sent: seq<GeoPoint>, r: Response, key: Keying,
                         rounding: Rounding, i: nat, j: nat) {
    OnlyWrites(m, before, LearnedUpTo(sent, r, key, i, j)) && AllTaught(m, sent, r, key, rounding, i, j)
  }

  ghost predicate OnlyWrites(m: Matrix, before: Matrix, written: set<(PlaceKey, PlaceKey)>) {
    m.Keys == before.Keys + written && forall p :: p in before && p !in written ==> m[p] == before[p]
  }

  ghost predicate AllTaught(m: Matrix, sent: seq<GeoPoint>, r: Response, key: Keying, rounding: Rounding, i: nat,
                            j: nat) {
    forall a: nat, b: nat :: a < |sent| && b < |sent| && (a < i || (a == i && b < j)) && Known(r, a, b) ==>
      HasLeg(m, sent, r, key, rounding, a, b)
  }

  ghost predicate HasLeg(m: Matrix, sent: seq<GeoPoint>, r: Response, key: Keying, rounding: Rounding, a: nat, b: nat)
    requires a < |sent| && b < |sent| && Known(r, a, b)
  {
    var pair := (key(sent[a]), key(sent[b])); pair in m && m[pair] == LegOf(r, rounding, a, b)
  }

  lemma LearnOne(sent: seq<GeoPoint>, r: Response, key: Keying, i: nat, j: nat)
    requires i < |sent| && j < |sent| && DistinctKeys(sent, key)
    ensures LearnedUpTo(sent, r, key, i, j + 1)
         == LearnedUpTo(sent, r, key, i, j) + (if Known(r, i, j) then {(key(sent[i]), key(sent[j]))} else {})
    ensures (key(sent[i]), key(sent[j])) !in LearnedUpTo(sent, r, key, i, j)
  {
    hide Known;
  }

  lemma LearnRow(sent: seq<GeoPoint>, r: Response, key: Keying, i: nat)
    requires i < |sent|
    ensures LearnedUpTo(sent, r, key, i, |sent|) == LearnedUpTo(sent, r, key, i + 1, 0)
  {
    hide Known;
  }

  lemma TeachOne(m: Matrix, before: Matrix, sent: seq<GeoPoint>, r: Response, key: Keying, rounding: Rounding,
                 i: nat, j: nat)
    requires i < |sent| && j < |sent| && DistinctKeys(sent, key)
    requires Taught(m, before, sent, r, key, rounding, i, j)
    ensures var after := if Known(r, i, j) then m[(key(sent[i]), key(sent[j])) := LegOf(r, rounding, i, j)] else m;
      Taught(after, before, sent, r, key, rounding, i, j + 1)
  {
    LearnOne(sent, r, key, i, j);
    hide Known, LearnedUpTo, DistinctKeys, AllTaught, HasLeg;
    KeepsLegs(m, sent, r, key, rounding, i, j);
  }

  lemma KeepsLegs(m: Matrix, sent: seq<GeoPoint>, r: Response, key: Keying, rounding: Rounding, i: nat, j: nat)
    requires i < |sent| && j < |sent| && DistinctKeys(sent, key)
    requires AllTaught(m, sent, r, key, rounding, i, j)
    ensures AllTaught(if Known(r, i, j) then m[(key(sent[i]), key(sent[j])) := LegOf(r, rounding, i, j)] else m,
                      sent, r, key, rounding, i, j + 1)
  {
    hide Known, DistinctKeys;
    var after := if Known(r, i, j) then m[(key(sent[i]), key(sent[j])) := LegOf(r, rounding, i, j)] else m;
    forall a: nat, b: nat | a < |sent| && b < |sent| && (a < i || (a == i && b < j + 1)) && Known(r, a, b)
      ensures HasLeg(after, sent, r, key, rounding, a, b)
    {
      if a != i || b != j {
        assert HasLeg(m, sent, r, key, rounding, a, b);
        PairsDiffer(sent, key, a, b, i, j);
      }
    }
  }

  lemma PairsDiffer(sent: seq<GeoPoint>, key: Keying, a: nat, b: nat, i: nat, j: nat)
    requires DistinctKeys(sent, key) && a < |sent| && b < |sent| && i < |sent| && j < |sent|
    requires a != i || b != j
    ensures (key(sent[a]), key(sent[b])) != (key(sent[i]), key(sent[j]))
  {
  }

  class OsrmProvider {
    const key: Keying
    const rounding: Rounding
    /** The static estimator: distance and minutes, never labelled as a measurement. */
    const fallback: (GeoPoint, GeoPoint) -> (nat, nat)
    var matrix: Matrix
    var misses: nat

    constructor (key: Keying, rounding: Rounding, fallback: (GeoPoint, GeoPoint) -> (nat, nat))
      ensures this.key == key && this.rounding == rounding && this.fallback == fallback && matrix == map[]
        && misses == 0
    {
      this.key, this.rounding, this.fallback, matrix, misses := key, rounding, fallback, map[], 0;
    }

    ghost predicate Valid()
      reads this
    {
      forall p :: p in matrix ==> matrix[p].source == TravelSource.Osrm
    }

    /** Whatever comes back, ragged, null or nothing at all: the pairs learned are exactly the
        ordered pairs of sent places with both cells present, each counted once. */
    method Warm(points: seq<GeoPoint>, response: Option<Response>) returns (learned: nat)
      requires Valid()
      modifies this`matrix
      ensures Valid()
      ensures var sent := Sent(points, key);
        if |sent| < 2 || response.None? then matrix == old(matrix) && learned == 0
        else
          && learned == |Learned(sent, response.value, key)|
          && Taught(matrix, old(matrix), sent, response.value, key, rounding, |sent|, 0)
    {
      var unique := Deduplicate(points, key);
      UniqueKeepsFirsts(points, key);
      if |unique| < 2 {
        return 0;
      }
      if |unique| > MAX_TABLE_COORDS {
        unique := unique[..MAX_TABLE_COORDS];
      }
      if response.None? {
        return 0;
      }
      learned := Learn(unique, response.value);
    }

    method Learn(sent: seq<GeoPoint>, r: Response) returns (learned: nat)
      requires Valid() && DistinctKeys(sent, key)
      modifies this`matrix
      ensures Valid()
      ensures learned == |Learned(sent, r, key)|
      ensures Taught(matrix, old(matrix), sent, r, key, rounding, |sent|, 0)
    {
      hide Known, LearnedUpTo, Taught, DistinctKeys;
      learned := 0;
      NothingTaught(matrix, sent, r, key, rounding);
      for i := 0 to |sent|
        invariant Valid() && Taught(matrix, old(matrix), sent, r, key, rounding, i, 0)
        invariant learned == |LearnedUpTo(sent, r, key, i, 0)|
      {
        for j := 0 to |sent|
          invariant Valid() && Taught(matrix, old(matrix), sent, r, key, rounding, i, j)
          invariant learned == |LearnedUpTo(sent, r, key, i, j)|
        {
          TeachOne(matrix, old(matrix), sent, r, key, rounding, i, j);
          LearnOne(sent, r, key, i, j);
          if Known(r, i, j) {
            matrix := matrix[(key(sent[i]), key(sent[j])) := LegOf(r, rounding, i, j)];
            learned := learned + 1;
          }
        }
        LearnRow(sent, r, key, i);
        RowTaught(matrix, old(matrix), sent, r, key, rounding, i);
      }
    }

    /** A leg is called measured exactly when both ends are one place or the pair was learned;
        otherwise it is the estimate, labelled as one, and counted. */
    method Leg(a: GeoPoint, b: GeoPoint) returns (leg: TravelLeg)
      requires Valid()
      modifies this`misses
      ensures leg.source == TravelSource.Osrm <==> key(a) == key(b) || (key(a), key(b)) in matrix
      ensures leg.source == TravelSource.Osrm ==>
        leg == if key(a) == key(b) then TravelLeg(0, 0, TravelSource.Osrm) else matrix[(key(a), key(b))]
      ensures leg.source != TravelSource.Osrm ==> leg == TravelLeg(fallback(a, b).0, fallback(a, b).1, StaticHaversine)
      ensures misses == old(misses) + (if leg.source == TravelSource.Osrm then 0 else 1)
    {
      if key(a) == key(b) {
        return TravelLeg(0, 0, TravelSource.Osrm);
      }
      if (key(a), key(b)) in matrix {
        return matrix[(key(a), key(b))];
      }
      misses := misses + 1;
      return TravelLeg(fallback(a, b).0, fallback(a, b).1, StaticHaversine);
    }
  }

  lemma NothingTaught(m: Matrix, sent: seq<GeoPoint>, r: Response, key: Keying, rounding: Rounding)
    ensures Taught(m, m, sent, r, key, rounding, 0, 0) && LearnedUpTo(sent, r, key, 0, 0) == {}
  {
    hide Known;
  }

  lemma RowTaught(m: Matrix, before: Matrix, sent: seq<GeoPoint>, r: Response, key: Keying, rounding: Rounding, i: nat)
    requires i < |sent| && Taught(m, before, sent, r, key, rounding, i, |sent|)
    ensures Taught(m, before, sent, r, key, rounding, i + 1, 0)
  {
    LearnRow(sent, r, key, i);
    hide Known, LearnedUpTo;
  }

  /** On a fresh matrix, two different places have a measured leg exactly when both were sent and
      both their cells came back; a place beyond the first ninety never has one. */
  lemma MeasuredIff(m: Matrix, points: seq<GeoPoint>, r: Response, key: Keying, rounding: Rounding, a: GeoPoint,
                    b: GeoPoint)
    requires var sent := Sent(points, key); Taught(m, map[], sent, r, key, rounding, |sent|, 0)
    ensures (key(a), key(b)) in m <==>
      exists i: nat, j: nat :: i < |Sent(points, key)| && j < |Sent(points, key)| && Known(r, i, j)
        && key(Sent(points, key)[i]) == key(a) && key(Sent(points, key)[j]) == key(b)
    ensures key(a) !in KeysOf(points, key) || key(b) !in KeysOf(points, key) ==> (key(a), key(b)) !in m
  {
    UniqueKeepsFirsts(points, key);
    hide Known, Unique;
    var sent := Sent(points, key);
    assert forall p :: p in sent ==> p in Unique(points, key);
    assert forall i :: 0 <= i < |sent| ==> sent[i] in sent;
  }

  /** Row i, column j of a table that may be short, ragged or null there. */
  ghost predicate Present(rows: Cells, i: nat, j: nat) { i < |rows| && j < |rows[i]| && rows[i][j].Some? }

  /** What warming the matrix wrote for two of the places sent: with both cells there, the distance of the one in
      hundredths and the duration of the other in minutes; without, the pair is as it was. */
  lemma CellsAreLearned(m: Matrix, before: Matrix, sent: seq<GeoPoint>, r: Response, key: Keying, rounding: Rounding,
                        i: nat, j: nat)
    requires i < |sent| && j < |sent| && DistinctKeys(sent, key)
    requires Taught(m, before, sent, r, key, rounding, |sent|, 0)
    ensures var pair := (key(sent[i]), key(sent[j]));
      if i != j && Present(r.durations, i, j) && Present(r.distances, i, j) then
        pair in m && m[pair] == TravelLeg(rounding.hundredths(r.distances[i][j].value),
                                          rounding.minutes(r.durations[i][j].value), TravelSource.Osrm)
      else pair in m <==> pair in before
    ensures var pair := (key(sent[i]), key(sent[j]));
      pair in before && !(i != j && Present(r.durations, i, j) && Present(r.distances, i, j)) ==>
        m[pair] == before[pair]
  {
    KnownIffPresent(r, i, j);
    hide Known, Present, DistinctKeys;
    if Known(r, i, j) {
      assert HasLeg(m, sent, r, key, rounding, i, j);
      LegOfCells(r, rounding, i, j);
    } else {
      NotLearned(sent, r, key, i, j);
    }
  }

  lemma KnownIffPresent(r: Response, i: nat, j: nat)
    ensures Known(r, i, j) <==> i != j && Present(r.durations, i, j) && Present(r.distances, i, j)
  {
  }

  lemma LegOfCells(r: Response, rounding: Rounding, i: nat, j: nat)
    requires Known(r, i, j)
    ensures Present(r.durations, i, j) && Present(r.distances, i, j)
    ensures LegOf(r, rounding, i, j) == TravelLeg(rounding.hundredths(r.distances[i][j].value),
                                                  rounding.minutes(r.durations[i][j].value), TravelSource.Osrm)
  {
  }

  lemma NotLearned(sent: seq<GeoPoint>, r: Response, key: Keying, i: nat, j: nat)
    requires i < |sent| && j < |sent| && DistinctKeys(sent, key) && !Known(r, i, j)
    ensures (key(sent[i]), key(sent[j])) !in LearnedUpTo(sent, r, key, |sent|, 0)
  {
    hide Known, DistinctKeys;
    if (key(sent[i]), key(sent[j])) in LearnedUpTo(sent, r, key, |sent|, 0) {
      var a: nat, b: nat :| a < |sent| && b < |sent| && Known(r, a, b)
        && (key(sent[a]), key(sent[b])) == (key(sent[i]), key(sent[j]));
      if a != i || b != j {
        PairsDiffer(sent, key, a, b, i, j);
      }
    }
  }

  /** At most ninety places are sent, and all of them when there are no more: the first of each key, in order. */
  lemma SentIsCapped(points: seq<GeoPoint>, key: Keying)
    ensures var u, sent := Unique(points, key), Sent(points, key);
      sent <= u && |sent| == if |u| <= 90 then |u| else 90
    ensures DistinctKeys(Sent(points, key), key)
  {
    UniqueKeepsFirsts(points, key);
    hide Unique, FirstOf;
  }
}
