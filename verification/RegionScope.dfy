/** The scope of retrieval over a region tree as the loader stored it. */
module RegionScope {
  import opened Util
  import opened RegionPaths
  import opened LikePrefix
  import Retrieval

  /** The row lies in the region with this ancestry, whose path the loader wrote. */
  ghost predicate LiesIn(row: Retrieval.PoiRow, node: seq<string>, roots: seq<Region>, table: map<string, string>) {
    && Fresh(Entries(roots, "/"), {}) && node in Ancestries(roots, []) && node != []
    && var t := Upserted(table, Entries(roots, "/")); Leaf(node) in t && row.regionPath == t[Leaf(node)]
  }

  /** Over any forest the loader accepts, slash-free slugs, a plain district path: by district or by interest,
      a row is in scope exactly when its region is the district or below it. */
  lemma ScopeIsSubtree(roots: seq<Region>, table: map<string, string>, st: Retrieval.Store, b: Retrieval.Brief,
                       district: seq<string>, node: seq<string>, row: Retrieval.PoiRow)
    requires LiesIn(row, node, roots, table) && district in Ancestries(roots, []) && !Retrieval.ByRadius(b)
    requires SlashFree(district) && SlashFree(node) && Plain(PathOf(district))
    ensures var t := Upserted(table, Entries(roots, "/"));
      && district != [] && Leaf(district) in t
      && (Retrieval.InScope(st, b, t[Leaf(district)], row) <==> Leaf(district) in node)
  {
    hide Fresh, Entries, Ancestries, Upserted, PathOf, Like, Plain, SlashFree;
    StoredUnderSlug(roots, table, district);
    StoredUnderSlug(roots, table, node);
    SlugMarksAncestor(roots, district, node);
    LikeIsAncestry(district, node);
  }

  /** Two districts of one state that differ in a character, an underscore in the first: both load, and a
      brief for the first retrieves from the second. */
  lemma ScopeTakesSibling(r: string, u: string, c: char, v: string, table: map<string, string>,
                          st: Retrieval.Store, b: Retrieval.Brief, row: Retrieval.PoiRow)
    requires Plain(r) && Plain(u) && Plain(v) && c != '_' && r != u + "_" + v && r != u + [c] + v
    requires var roots := [Region(r, [Region(u + "_" + v, []), Region(u + [c] + v, [])])];
      LiesIn(row, [r, u + [c] + v], roots, table)
    requires !Retrieval.ByRadius(b)
    ensures var d, e := u + "_" + v, u + [c] + v;
      var t := Upserted(table, Entries([Region(r, [Region(d, []), Region(e, [])])], "/"));
      d in t && d !in [r, e] && Retrieval.InScope(st, b, t[d], row)
  {
    var d, e := u + "_" + v, u + [c] + v;
    var roots := [Region(r, [Region(d, []), Region(e, [])])];
    assert d[|u|] == '_' && e[|u|] == c;
    hide Fresh, Entries, Ancestries, Upserted, PathOf, Like, Plain;
    UnderscoreClaimsSibling(r, u, c, v);
    StoredUnderSlug(roots, table, [r, d]);
    StoredUnderSlug(roots, table, [r, e]);
  }
}
