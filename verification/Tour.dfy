/** Nearest-neighbour ordering, used by the composer over clusters and over a
    day's stops, and again by the routing stage. */
module Tour {
  import opened Util
  import opened Domain

  /** `min(remaining, key=distance from cursor)`: the first element at the least distance. */
  function NearestIndex<T>(s: seq<T>, cursor: GeoPoint, at: T -> GeoPoint, dist: Metric): (i: nat)
    requires s != []
    ensures i < |s|
  {
    if |s| == 1 then 0
    else
      var best := NearestIndex(s[..|s| - 1], cursor, at, dist);
      if dist(cursor, at(s[|s| - 1])) < dist(cursor, at(s[best])) then |s| - 1 else best
  }

  lemma {:induction false} NearestIsFirstLeast<T>(s: seq<T>, cursor: GeoPoint, at: T -> GeoPoint, dist: Metric)
    requires s != []
    ensures var i := NearestIndex(s, cursor, at, dist);
      && (forall k :: 0 <= k < |s| ==> dist(cursor, at(s[i])) <= dist(cursor, at(s[k])))
      && (forall k :: 0 <= k < i ==> dist(cursor, at(s[i])) < dist(cursor, at(s[k])))
  {
    if |s| > 1 {
      var init := s[..|s| - 1];
      NearestIsFirstLeast(init, cursor, at, dist);
      assert forall k :: 0 <= k < |init| ==> init[k] == s[k];
    }
  }

  function Without<T>(s: seq<T>, i: nat): (r: seq<T>)
    requires i < |s|
    ensures |r| == |s| - 1
  {
    s[..i] + s[i + 1..]
  }

  /** The repeated-nearest order, as a function of what is left and where we stand. */
  function From<T>(s: seq<T>, cursor: GeoPoint, at: T -> GeoPoint, dist: Metric): (r: seq<T>)
    decreases |s|
  {
    if s == [] then []
    else
      var i := NearestIndex(s, cursor, at, dist);
      [s[i]] + From(Without(s, i), at(s[i]), at, dist)
  }

  lemma {:induction false} FromPermutes<T>(s: seq<T>, cursor: GeoPoint, at: T -> GeoPoint, dist: Metric)
    ensures multiset(From(s, cursor, at, dist)) == multiset(s)
    ensures |From(s, cursor, at, dist)| == |s|
    decreases |s|
  {
    hide NearestIndex;
    if s != [] {
      var i := NearestIndex(s, cursor, at, dist);
      FromPermutes(Without(s, i), at(s[i]), at, dist);
      assert s == s[..i] + [s[i]] + s[i + 1..];
    }
  }

  /** Where one stands before step `i` of a tour. */
  ghost function Standing<T>(tour: seq<T>, start: GeoPoint, at: T -> GeoPoint, i: nat): GeoPoint
    requires i <= |tour|
  {
    if i == 0 then start else at(tour[i - 1])
  }

  /** Each stop is at least as near as every stop visited later. */
  ghost predicate IsGreedy<T>(tour: seq<T>, start: GeoPoint, at: T -> GeoPoint, dist: Metric) {
    forall i, j :: 0 <= i < j < |tour| ==>
      dist(Standing(tour, start, at, i), at(tour[i])) <= dist(Standing(tour, start, at, i), at(tour[j]))
  }

  /** Putting the nearest element in front of a greedy tour of the rest is greedy. */
  lemma ConsIsGreedy<T>(x: T, tail: seq<T>, start: GeoPoint, at: T -> GeoPoint, dist: Metric)
    requires IsGreedy(tail, at(x), at, dist)
    requires forall y :: y in tail ==> dist(start, at(x)) <= dist(start, at(y))
    ensures IsGreedy([x] + tail, start, at, dist)
  {
    var tour := [x] + tail;
    forall p, q | 0 <= p < q < |tour|
      ensures dist(Standing(tour, start, at, p), at(tour[p])) <= dist(Standing(tour, start, at, p), at(tour[q]))
    {
      ConsAt(x, tail, start, at, p, q);
      if p > 0 {
        GreedyAt(tail, at(x), at, dist, p - 1, q - 1);
      } else {
        assert tail[q - 1] in tail;
      }
      hide IsGreedy, Standing;
    }
  }

  lemma ConsAt<T>(x: T, tail: seq<T>, start: GeoPoint, at: T -> GeoPoint, p: nat, q: nat)
    requires p < q <= |tail|
    ensures var tour := [x] + tail;
      && tour[p] == (if p == 0 then x else tail[p - 1]) && tour[q] == tail[q - 1]
      && Standing(tour, start, at, p) == (if p == 0 then start else Standing(tail, at(x), at, p - 1))
  {
  }

  lemma GreedyAt<T>(tour: seq<T>, start: GeoPoint, at: T -> GeoPoint, dist: Metric, i: nat, j: nat)
    requires IsGreedy(tour, start, at, dist) && i < j < |tour|
    ensures dist(Standing(tour, start, at, i), at(tour[i])) <= dist(Standing(tour, start, at, i), at(tour[j]))
  {
  }

  lemma RestIsFarther<T>(s: seq<T>, i: nat, tail: seq<T>, start: GeoPoint, at: T -> GeoPoint, dist: Metric)
    requires i < |s| && forall k :: 0 <= k < |s| ==> dist(start, at(s[i])) <= dist(start, at(s[k]))
    requires multiset(tail) == multiset(Without(s, i))
    ensures forall y :: y in tail ==> dist(start, at(s[i])) <= dist(start, at(y))
  {
    PermutationFacts(Without(s, i), tail);
    forall y | y in tail ensures dist(start, at(s[i])) <= dist(start, at(y)) {
      var k :| 0 <= k < |Without(s, i)| && Without(s, i)[k] == y;
      assert y == s[if k < i then k else k + 1];
    }
  }

  lemma {:induction false} FromIsGreedy<T>(s: seq<T>, start: GeoPoint, at: T -> GeoPoint, dist: Metric)
    ensures IsGreedy(From(s, start, at, dist), start, at, dist)
    decreases |s|
  {
    hide NearestIndex;
    if s != [] {
      var i := NearestIndex(s, start, at, dist);
      FromIsGreedy(Without(s, i), at(s[i]), at, dist);
      FromPermutes(Without(s, i), at(s[i]), at, dist);
      NearestIsFirstLeast(s, start, at, dist);
      RestIsFarther(s, i, From(Without(s, i), at(s[i]), at, dist), start, at, dist);
      ConsIsGreedy(s[i], From(Without(s, i), at(s[i]), at, dist), start, at, dist);
      assert From(s, start, at, dist) == [s[i]] + From(Without(s, i), at(s[i]), at, dist);
    }
  }

  /** The loop itself. `remaining.remove(nearest)` removes by equality; because
      `min` returns the first least element, that is exactly the chosen one. */
  method Greedy<T(==)>(items: seq<T>, start: GeoPoint, at: T -> GeoPoint, dist: Metric) returns (ordered: seq<T>)
    ensures ordered == From(items, start, at, dist)
    ensures multiset(ordered) == multiset(items)
    ensures IsGreedy(ordered, start, at, dist)
  {
    FromPermutes(items, start, at, dist);
    FromIsGreedy(items, start, at, dist);
    hide NearestIndex, IsGreedy;
    ordered := [];
    var remaining := items;
    var cursor := start;
    while remaining != []
      invariant From(items, start, at, dist) == ordered + From(remaining, cursor, at, dist)
      decreases |remaining|
    {
      var i := NearestIndex(remaining, cursor, at, dist);
      var nearest := remaining[i];
      NearestIsFirstLeast(remaining, cursor, at, dist);
      RemoveFirstAt(remaining, i);
      ghost var tail := From(Without(remaining, i), at(nearest), at, dist);
      assert From(remaining, cursor, at, dist) == [nearest] + tail;
      assert ordered + ([nearest] + tail) == (ordered + [nearest]) + tail;
      ordered := ordered + [nearest];
      remaining := RemoveFirst(remaining, nearest);
      cursor := at(nearest);
    }
  }
}
