/** Materialised ancestry: `load_regions` (api/src/tripplan/store/seed.py) writes it, retrieval
    matches it with LIKE, and `resolve_anchor` (api/src/tripplan/store/pois.py) splits it. */
module RegionPaths {
  import opened Util

  datatype Region = Region(slug: string, children: seq<Region>)

  /** A slug that a path can carry: not empty, no slash. */
  predicate Clean(slug: string) { slug != "" && '/' !in slug }

  ghost predicate AllClean(slugs: seq<string>) { forall s :: s in slugs ==> Clean(s) }

  /** The path of the node with this ancestry, outermost region first. */
  function PathOf(ancestry: seq<string>): string {
    if ancestry == [] then "/" else PathOf(ancestry[..|ancestry| - 1]) + ancestry[|ancestry| - 1] + "/"
  }

  // -------------------------------------------------------------- splitting a path

  /** Python's `s.split("/")`. */
  function Split(s: string): (r: seq<string>)
    ensures r != []
  {
    if s == "" then [""]
    else
      var rest := Split(s[1..]);
      if s[0] == '/' then [""] + rest else [[s[0]] + rest[0]] + rest[1..]
  }

  function NonEmpty(parts: seq<string>): seq<string> {
    if parts == [] then [] else (if parts[0] != "" then [parts[0]] else []) + NonEmpty(parts[1..])
  }

  /** `[s for s in path.split("/") if s]`. */
  function Segments(path: string): seq<string> { NonEmpty(Split(path)) }

  /** The district slug of an anchor: the second segment, or the only one; None is the source's IndexError. */
  function DistrictSlug(path: string): Option<string> {
    var segments := Segments(path);
    if |segments| > 1 then Some(segments[1]) else if |segments| == 1 then Some(segments[0]) else None
  }

  lemma {:induction false} SplitAtSlash(a: string, b: string)
    ensures Split(a + "/" + b) == Split(a) + Split(b)
  {
    if a == "" {
      assert a + "/" + b == "/" + b;
      assert ("/" + b)[1..] == b;
    } else {
      SplitAtSlash(a[1..], b);
      SplitCons(a[0], a[1..], a[1..] + "/" + b, Split(b));
      hide Split;
      assert a == [a[0]] + a[1..];
      assert a + "/" + b == [a[0]] + (a[1..] + "/" + b);
    }
  }

  lemma SplitCons(c: char, s: string, t: string, more: seq<string>)
    requires Split(t) == Split(s) + more
    ensures Split([c] + t) == Split([c] + s) + more
  {
    SplitStep(c, t);
    SplitStep(c, s);
    hide Split;
    ConsPart(c, Split(s), more);
  }

  /** A split with one more character in front. */
  function Grown(c: char, parts: seq<string>): seq<string>
    requires parts != []
  {
    if c == '/' then [""] + parts else [[c] + parts[0]] + parts[1..]
  }

  lemma ConsPart(c: char, parts: seq<string>, more: seq<string>)
    requires parts != []
    ensures Grown(c, parts + more) == Grown(c, parts) + more
  {
    assert (parts + more)[1..] == parts[1..] + more;
  }

  lemma SplitStep(c: char, s: string)
    ensures Split([c] + s) == Grown(c, Split(s))
  {
    assert ([c] + s)[1..] == s;
  }

  lemma {:induction false} SplitWord(s: string)
    requires '/' !in s
    ensures Split(s) == [s]
  {
    if s != "" {
      SplitWord(s[1..]);
      assert [s[0]] + s[1..] == s;
    }
  }

  lemma {:induction false} NonEmptyAppend(a: seq<string>, b: seq<string>)
    ensures NonEmpty(a + b) == NonEmpty(a) + NonEmpty(b)
  {
    if a == [] {
      assert a + b == b;
    } else {
      assert (a + b)[1..] == a[1..] + b;
      NonEmptyAppend(a[1..], b);
    }
  }

  ghost predicate SlashFree(slugs: seq<string>) { forall s :: s in slugs ==> '/' !in s }

  /** What splitting makes of an ancestry: a slug with a slash in it counts as several parts. */
  function Parts(ancestry: seq<string>): seq<string> {
    if ancestry == [] then [] else Parts(ancestry[..|ancestry| - 1]) + Split(ancestry[|ancestry| - 1])
  }

  lemma EndsInSlash(ancestry: seq<string>) returns (q: string)
    ensures PathOf(ancestry) == q + "/"
  {
    q := if ancestry == [] then "" else PathOf(ancestry[..|ancestry| - 1]) + ancestry[|ancestry| - 1];
  }

  /** Splitting a path gives the parts between an empty first and an empty last field. */
  lemma {:induction false} SplitPath(ancestry: seq<string>)
    ensures Split(PathOf(ancestry)) == [""] + Parts(ancestry) + [""]
  {
    if ancestry == [] {
      assert Split("/") == ["", ""];
    } else {
      var init, slug := ancestry[..|ancestry| - 1], ancestry[|ancestry| - 1];
      SplitPath(init);
      var q := EndsInSlash(init);
      assert PathOf(ancestry) == q + "/" + (slug + "/");
      assert Parts(ancestry) == Parts(init) + Split(slug);
      hide PathOf, Split, Parts;
      SplitFurther(q, slug, Parts(init));
    }
  }

  lemma SplitFurther(q: string, slug: string, parts: seq<string>)
    requires Split(q + "/") == [""] + parts + [""]
    ensures Split(q + "/" + (slug + "/")) == [""] + (parts + Split(slug)) + [""]
  {
    EmptySplit();
    hide Split;
    SplitAtSlash(q, slug + "/");
    SplitAtSlash(q, "");
    SplitAtSlash(slug, "");
    assert q + "/" + "" == q + "/" && slug + "/" + "" == slug + "/";
    SameInit(Split(q), [""] + parts, "");
  }

  lemma EmptySplit()
    ensures Split("") == [""]
  {
  }

  lemma SameInit(a: seq<string>, b: seq<string>, x: string)
    requires a + [x] == b + [x]
    ensures a == b
  {
    assert a == (a + [x])[..|a + [x]| - 1] == (b + [x])[..|b + [x]| - 1] == b;
  }

  /** A path says no more than its parts do. */
  lemma {:induction false} PathOfParts(before: seq<string>, s: string)
    ensures PathOf(before + Split(s)) == PathOf(before) + s + "/"
    decreases |s|
  {
    if s == "" {
      assert before + [""] == before + Split(s) && (before + [""])[..|before|] == before;
    } else if '/' !in s {
      SplitWord(s);
      assert (before + [s])[..|before|] == before;
    } else {
      var i :| 0 <= i < |s| && s[i] == '/';
      FirstSlash(before, s);
    }
  }

  function SlashAt(s: string): (i: nat)
    requires '/' in s
    ensures i < |s| && s[i] == '/' && '/' !in s[..i]
  {
    if s[0] == '/' then 0
    else
      assert '/' in s[1..] && s == [s[0]] + s[1..];
      var i := 1 + SlashAt(s[1..]);
      assert s[..i] == [s[0]] + s[1..][..i - 1];
      i
  }

  lemma PathSnoc(before: seq<string>, slug: string)
    ensures PathOf(before + [slug]) == PathOf(before) + slug + "/"
  {
    assert (before + [slug])[..|before|] == before;
  }

  lemma {:induction false} FirstSlash(before: seq<string>, s: string)
    requires '/' in s
    ensures PathOf(before + Split(s)) == PathOf(before) + s + "/"
    decreases |s|, 0
  {
    var i := SlashAt(s);
    var word, rest := s[..i], s[i + 1..];
    assert s == word + "/" + rest;
    hide PathOf, Split;
    SplitAtSlash(word, rest);
    SplitWord(word);
    assert before + ([word] + Split(rest)) == (before + [word]) + Split(rest);
    PathOfParts(before + [word], rest);
    PathSnoc(before, word);
    Regroup(PathOf(before), word, rest);
  }

  lemma Regroup(p: string, word: string, rest: string)
    ensures p + word + "/" + rest + "/" == p + (word + "/" + rest) + "/"
  {
  }

  lemma {:induction false} PathIsPathOfParts(ancestry: seq<string>)
    ensures PathOf(Parts(ancestry)) == PathOf(ancestry)
  {
    if ancestry != [] {
      PathIsPathOfParts(ancestry[..|ancestry| - 1]);
      PathOfParts(Parts(ancestry[..|ancestry| - 1]), ancestry[|ancestry| - 1]);
    }
  }

  lemma {:induction false} LongerAncestryLongerPath(a: seq<string>, b: seq<string>)
    requires a <= b
    ensures PathOf(a) <= PathOf(b)
    decreases |b|
  {
    if |a| == |b| {
      assert a == b;
    } else {
      LongerAncestryLongerPath(a, b[..|b| - 1]);
    }
  }

  /** For any slugs at all: a path is a prefix of another exactly when its parts are a prefix of the other's. */
  lemma PathPrefixIffParts(a: seq<string>, b: seq<string>)
    ensures PathOf(a) <= PathOf(b) <==> Parts(a) <= Parts(b)
  {
    if Parts(a) <= Parts(b) {
      PathIsPathOfParts(a);
      PathIsPathOfParts(b);
      LongerAncestryLongerPath(Parts(a), Parts(b));
    }
    if PathOf(a) <= PathOf(b) {
      PrefixPartsBegin(a, b);
    }
  }

  lemma PrefixPartsBegin(a: seq<string>, b: seq<string>)
    requires PathOf(a) <= PathOf(b)
    ensures Parts(a) <= Parts(b)
  {
    hide PathOf, Split, Parts;
    var q := EndsInSlash(a);
    var t := PathOf(b)[|PathOf(a)|..];
    assert PathOf(b) == q + "/" + t;
    SplitAtSlash(q, t);
    SplitPath(b);
    SplitLast(a, q);
    hide *;
    PartsBegin(Parts(a), Split(t), Parts(b));
  }

  lemma SplitLast(a: seq<string>, q: string)
    requires PathOf(a) == q + "/"
    ensures Split(q) == [""] + Parts(a)
  {
    hide PathOf, Parts;
    SplitAtSlash(q, "");
    assert q + "/" + "" == q + "/" && Split("") == [""];
    SplitPath(a);
    SameInit(Split(q), [""] + Parts(a), "");
  }

  lemma PartsBegin(a: seq<string>, t: seq<string>, b: seq<string>)
    requires t != [] && [""] + a + t == [""] + b + [""]
    ensures a <= b
  {
    var whole := [""] + b + [""];
    assert |a| <= |b|;
    assert a == whole[1..1 + |a|] && b == whole[1..1 + |b|];
    assert whole[1..1 + |a|] == whole[1..1 + |b|][..|a|];
  }

  lemma {:induction false} SlashFreeParts(ancestry: seq<string>)
    requires SlashFree(ancestry)
    ensures Parts(ancestry) == ancestry
  {
    if ancestry != [] {
      var init, slug := ancestry[..|ancestry| - 1], ancestry[|ancestry| - 1];
      assert slug in ancestry;
      SlashFreeParts(init);
      SplitWord(slug);
      assert ancestry == init + [slug];
    }
  }

  lemma {:induction false} SplitIsSlashFree(s: string)
    ensures SlashFree(Split(s))
  {
    if s != "" {
      SplitIsSlashFree(s[1..]);
      var rest := Split(s[1..]);
      assert rest[0] in rest;
    }
  }

  lemma {:induction false} PartsAreSlashFree(ancestry: seq<string>)
    ensures SlashFree(Parts(ancestry))
  {
    if ancestry != [] {
      PartsAreSlashFree(ancestry[..|ancestry| - 1]);
      SplitIsSlashFree(ancestry[|ancestry| - 1]);
    }
  }

  /** With slash-free slugs, a prefix of paths is a prefix of ancestries: it cannot straddle a name boundary. */
  lemma PrefixIffAncestry(a: seq<string>, b: seq<string>)
    requires SlashFree(a) && SlashFree(b)
    ensures PathOf(a) <= PathOf(b) <==> a <= b
  {
    SlashFreeParts(a);
    SlashFreeParts(b);
    PathPrefixIffParts(a, b);
  }

  /** And exactly then: a slug with a slash in it makes the path of its node a prefix of strangers' paths. */
  lemma PrefixMeansAncestryIff(a: seq<string>)
    ensures SlashFree(a) <==> forall b :: SlashFree(b) ==> (PathOf(a) <= PathOf(b) <==> a <= b)
  {
    if SlashFree(a) {
      forall b | SlashFree(b) ensures PathOf(a) <= PathOf(b) <==> a <= b {
        PrefixIffAncestry(a, b);
      }
    } else {
      var b := Parts(a);
      PartsAreSlashFree(a);
      PathIsPathOfParts(a);
      assert PathOf(a) <= PathOf(b);
      if a <= b {
        PrefixOfSlashFree(a, b);
      }
    }
  }

  lemma PrefixOfSlashFree(a: seq<string>, b: seq<string>)
    requires SlashFree(b) && a <= b
    ensures SlashFree(a)
  {
    forall s | s in a ensures '/' !in s {
      var i :| 0 <= i < |a| && a[i] == s;
      assert b[i] == s;
    }
  }

  lemma {:induction false} NonEmptyKeeps(parts: seq<string>, x: string)
    ensures x in NonEmpty(parts) <==> x in parts && x != ""
  {
    if parts != [] {
      NonEmptyKeeps(parts[1..], x);
      assert x in parts <==> x == parts[0] || x in parts[1..];
    }
  }

  lemma {:induction false} NonEmptyOfClean(parts: seq<string>)
    requires AllClean(parts)
    ensures NonEmpty(parts) == parts
  {
    if parts != [] {
      assert parts[0] in parts && forall s :: s in parts[1..] ==> s in parts;
      NonEmptyOfClean(parts[1..]);
    }
  }

  /** What splitting any path and dropping empties gives. */
  lemma SegmentsOfPath(ancestry: seq<string>)
    ensures Segments(PathOf(ancestry)) == NonEmpty(Parts(ancestry))
  {
    SplitPath(ancestry);
    NonEmptyAppend([""] + Parts(ancestry), [""]);
    NonEmptyAppend([""], Parts(ancestry));
    assert [""][1..] == [] && NonEmpty([""]) == [];
  }

  /** Splitting recovers the exact ancestry exactly when every slug is one that a path can carry. */
  lemma SegmentsRecoverAncestryIff(ancestry: seq<string>)
    ensures Segments(PathOf(ancestry)) == ancestry <==> AllClean(ancestry)
  {
    SegmentsOfPath(ancestry);
    if AllClean(ancestry) {
      SlashFreeParts(ancestry);
      NonEmptyOfClean(ancestry);
    }
    if Segments(PathOf(ancestry)) == ancestry {
      PartsAreSlashFree(ancestry);
      forall s | s in ancestry ensures Clean(s) {
        NonEmptyKeeps(Parts(ancestry), s);
      }
    }
  }

  lemma {:induction false} PartsAppend(a: seq<string>, b: seq<string>)
    ensures Parts(a + b) == Parts(a) + Parts(b)
    decreases |b|
  {
    hide Split;
    if b == [] {
      assert a + b == a;
    } else {
      assert (a + b)[..|a + b| - 1] == a + b[..|b| - 1];
      PartsAppend(a, b[..|b| - 1]);
    }
  }

  /** A slug's own segments. */
  function Own(slug: string): seq<string> { NonEmpty(Split(slug)) }

  lemma CleanOwn(slug: string)
    ensures Clean(slug) ==> Own(slug) == [slug]
    ensures forall s :: s in Own(slug) ==> Clean(s)
  {
    if Clean(slug) {
      SplitWord(slug);
      NonEmptyOfClean([slug]);
    }
    SplitIsSlashFree(slug);
    forall s | s in Own(slug) ensures Clean(s) {
      NonEmptyKeeps(Split(slug), s);
    }
  }

  lemma PartsOfOne(slug: string)
    ensures Parts([slug]) == Split(slug)
  {
    assert [slug][..0] == [];
  }

  lemma SegmentsFrom(r: string, d: string, rest: seq<string>)
    ensures Segments(PathOf([r, d] + rest)) == Own(r) + Own(d) + NonEmpty(Parts(rest))
  {
    hide Split, NonEmpty, Parts, PathOf, Segments;
    SegmentsOfPath([r, d] + rest);
    PartsAppend([r, d], rest);
    PartsAppend([r], [d]);
    assert [r] + [d] == [r, d];
    PartsOfOne(r);
    PartsOfOne(d);
    NonEmptyAppend(Split(r) + Split(d), Parts(rest));
    NonEmptyAppend(Split(r), Split(d));
  }

  lemma SegmentsOfOne(slug: string)
    ensures Segments(PathOf([slug])) == Own(slug)
  {
    SegmentsOfPath([slug]);
    PartsOfOne(slug);
  }

  /** Location mode's district is the depth-1 ancestor of where the anchor sits, the root itself at depth 0;
      only the first two slugs have to be clean. */
  lemma DistrictIsSecondAncestor(ancestry: seq<string>)
    requires ancestry != [] && Clean(ancestry[0]) && (|ancestry| > 1 ==> Clean(ancestry[1]))
    ensures DistrictSlug(PathOf(ancestry)) == Some(if |ancestry| > 1 then ancestry[1] else ancestry[0])
  {
    hide Split, NonEmpty, Parts, PathOf, Segments, DistrictSlug, Own;
    CleanOwn(ancestry[0]);
    DistrictOf(PathOf(ancestry));
    if |ancestry| > 1 {
      CleanOwn(ancestry[1]);
      SegmentsFrom(ancestry[0], ancestry[1], ancestry[2..]);
      assert ancestry == [ancestry[0], ancestry[1]] + ancestry[2..];
    } else {
      assert ancestry == [ancestry[0]];
      SegmentsOfOne(ancestry[0]);
    }
  }

  /** For every anchor below r and d, the district found is d exactly under this condition on the two slugs:
      r is one segment and d is clean, or r itself already holds d as its second segment. */
  lemma DistrictIsSecondAncestorIff(r: string, d: string)
    ensures (forall rest :: DistrictSlug(PathOf([r, d] + rest)) == Some(d)) <==>
      (|Own(r)| == 1 && Clean(d)) || (|Own(r)| >= 2 && Own(r)[1] == d)
  {
    CleanOwn(d);
    CleanOwn(r);
    hide Split, NonEmpty, PathOf, DistrictSlug, Own, Segments;
    if (|Own(r)| == 1 && Clean(d)) || (|Own(r)| >= 2 && Own(r)[1] == d) {
      forall rest ensures DistrictSlug(PathOf([r, d] + rest)) == Some(d) {
        SegmentsFrom(r, d, rest);
        DistrictOf(PathOf([r, d] + rest));
      }
    }
    if forall rest :: DistrictSlug(PathOf([r, d] + rest)) == Some(d) {
      Probe(r, d, []);
      Probe(r, d, [d + "x"]);
      if Clean(d) {
        CleanOwn(d + "x");
      }
    }
  }

  lemma DistrictOf(path: string)
    ensures DistrictSlug(path) ==
      var s := Segments(path); if |s| > 1 then Some(s[1]) else if |s| == 1 then Some(s[0]) else None
  {
  }

  lemma Probe(r: string, d: string, rest: seq<string>)
    requires (forall below :: DistrictSlug(PathOf([r, d] + below)) == Some(d)) && |rest| <= 1
    ensures var s := Own(r) + Own(d) + (if rest == [] then [] else Own(rest[0]));
      (if |s| > 1 then Some(s[1]) else if |s| == 1 then Some(s[0]) else None) == Some(d)
  {
    assert DistrictSlug(PathOf([r, d] + rest)) == Some(d);
    SegmentsFrom(r, d, rest);
    DistrictOf(PathOf([r, d] + rest));
    if rest != [] {
      assert rest == [rest[0]];
      PartsOfOne(rest[0]);
    }
  }

  // ------------------------------------------------------------------ loading the tree

  /** Every node's ancestry, parents before children. */
  function Ancestries(forest: seq<Region>, parent: seq<string>): seq<seq<string>>
    decreases forest
  {
    if forest == [] then []
    else
      var here := parent + [forest[0].slug];
      [here] + Ancestries(forest[0].children, here) + Ancestries(forest[1..], parent)
  }

  /** What the loader writes, in order: (slug, path). */
  function Entries(forest: seq<Region>, parentPath: string): seq<(string, string)>
    decreases forest
  {
    if forest == [] then []
    else
      var path := parentPath + forest[0].slug + "/";
      [(forest[0].slug, path)] + Entries(forest[0].children, path) + Entries(forest[1..], parentPath)
  }

  function SlugsOf(entries: seq<(string, string)>): set<string> { set e | e in entries :: e.0 }

  /** No entry's slug is already in `seen` or repeats an earlier one. */
  predicate Fresh(entries: seq<(string, string)>, seen: set<string>) {
    entries == [] ||
    (Fresh(entries[..|entries| - 1], seen) && entries[|entries| - 1].0 !in seen + SlugsOf(entries[..|entries| - 1]))
  }

  function Upserted(table: map<string, string>, entries: seq<(string, string)>): map<string, string> {
    if entries == [] then table
    else Upserted(table, entries[..|entries| - 1])[entries[|entries| - 1].0 := entries[|entries| - 1].1]
  }

  lemma EntriesAppend(a: seq<Region>, b: seq<Region>, parentPath: string)
    ensures Entries(a + b, parentPath) == Entries(a, parentPath) + Entries(b, parentPath)
    decreases |a|
  {
    if a == [] {
      assert a + b == b;
    } else {
      assert (a + b)[1..] == a[1..] + b && (a + b)[0] == a[0];
      EntriesAppend(a[1..], b, parentPath);
      FirstEntries(a, parentPath);
      FirstEntries(a + b, parentPath);
      hide Entries;
    }
  }

  /** The entries of the first tree of a forest, then those of the others. */
  lemma FirstEntries(forest: seq<Region>, parentPath: string)
    requires forest != []
    ensures Entries(forest, parentPath) == Entries([forest[0]], parentPath) + Entries(forest[1..], parentPath)
  {
    assert [forest[0]][1..] == [];
  }

  lemma {:induction false} UpsertAppend(table: map<string, string>, a: seq<(string, string)>,
                                        b: seq<(string, string)>, seen: set<string>)
    ensures Upserted(table, a + b) == Upserted(Upserted(table, a), b)
    ensures Fresh(a + b, seen) <==> Fresh(a, seen) && Fresh(b, seen + SlugsOf(a))
    ensures SlugsOf(a + b) == SlugsOf(a) + SlugsOf(b)
    decreases |b|
  {
    assert forall e :: e in a + b <==> e in a || e in b;
    if b == [] {
      assert a + b == a;
    } else {
      assert (a + b)[..|a + b| - 1] == a + b[..|b| - 1];
      UpsertAppend(table, a, b[..|b| - 1], seen);
    }
  }

  class Loader {
    var seen: set<string>
    var written: nat
    var table: map<string, string>

    constructor (table: map<string, string>)
      ensures this.table == table && seen == {} && written == 0
    {
      this.table := table;
      seen, written := {}, 0;
    }

    /** The recursive upsert. It returns false where the source raises. */
    method Upsert(node: Region, parentPath: string) returns (ok: bool)
      modifies this
      ensures var es := Entries([node], parentPath);
        && (ok <==> Fresh(es, old(seen)))
        && (ok ==>
              seen == old(seen) + SlugsOf(es) && table == Upserted(old(table), es) && written == old(written) + |es|)
      decreases node
    {
      hide Upserted, Fresh, SlugsOf;
      var path := parentPath + node.slug + "/";
      var head := [(node.slug, path)];
      assert Entries([node], parentPath) == head + Entries(node.children, path) by {
        assert [node][1..] == [];
      }
      OneEntry(old(table), node.slug, path, old(seen));
      UpsertAppend(old(table), head, Entries(node.children, path), old(seen));
      if node.slug in seen {
        return false;
      }
      seen := seen + {node.slug};
      table := table[node.slug := path];
      written := written + 1;
      assert head + Entries(node.children[..0], path) == head;
      for i := 0 to |node.children|
        invariant var es := head + Entries(node.children[..i], path);
          && Fresh(es, old(seen))
          && seen == old(seen) + SlugsOf(es) && table == Upserted(old(table), es) && written == old(written) + |es|
      {
        ghost var es := head + Entries(node.children[..i], path);
        ghost var more := Entries([node.children[i]], path);
        Child(node.children, i, path);
        UpsertAppend(old(table), es, more, old(seen));
        assert es + more == head + Entries(node.children[..i + 1], path);
        var done := Upsert(node.children[i], path);
        if !done {
          Prefix(head, node.children, i + 1, path, old(table), old(seen));
          return false;
        }
      }
      assert node.children[..|node.children|] == node.children;
      return true;
    }

    /** One transaction: on a repeated slug nothing is kept. The table afterwards holds every node's
        path under its slug, and every row the tree does not mention as it was. */
    method LoadRegions(roots: seq<Region>) returns (count: Result<nat, string>)
      requires seen == {} && written == 0
      modifies this
      ensures count.Ok? <==> Fresh(Entries(roots, "/"), {})
      ensures count.Ok? ==> table == Upserted(old(table), Entries(roots, "/")) && count.value == |Entries(roots, "/")|
      ensures count.Err? ==> table == old(table)
    {
      hide Upserted, Fresh, SlugsOf;
      var savepoint := table;
      NoEntries(table);
      for i := 0 to |roots|
        invariant var es := Entries(roots[..i], "/");
          Fresh(es, {}) && seen == SlugsOf(es) && table == Upserted(old(table), es) && written == |es|
      {
        ghost var es := Entries(roots[..i], "/");
        Child(roots, i, "/");
        UpsertAppend(old(table), es, Entries([roots[i]], "/"), {});
        assert {} + SlugsOf(es) == SlugsOf(es);
        assert [] + Entries(roots[..i + 1], "/") == Entries(roots[..i + 1], "/");
        assert [] + Entries(roots, "/") == Entries(roots, "/");
        var done := Upsert(roots[i], "/");
        if !done {
          Prefix([], roots, i + 1, "/", old(table), {});
          table := savepoint;
          return Err("duplicate slug");
        }
      }
      assert roots[..|roots|] == roots;
      return Ok(written);
    }
  }

  lemma NoEntries(table: map<string, string>)
    ensures Fresh([], {}) && SlugsOf([]) == {} && Upserted(table, []) == table
  {
  }

  lemma OneEntry(table: map<string, string>, slug: string, path: string, seen: set<string>)
    ensures Upserted(table, [(slug, path)]) == table[slug := path]
    ensures SlugsOf([(slug, path)]) == {slug}
    ensures Fresh([(slug, path)], seen) <==> slug !in seen
  {
    assert [(slug, path)][..0] == [];
  }

  lemma Child(children: seq<Region>, i: nat, path: string)
    requires i < |children|
    ensures Entries(children[..i + 1], path) == Entries(children[..i], path) + Entries([children[i]], path)
  {
    assert children[..i + 1] == children[..i] + [children[i]];
    EntriesAppend(children[..i], [children[i]], path);
  }

  /** Once a stretch of entries is not fresh, the whole list is not. */
  lemma Prefix(head: seq<(string, string)>, children: seq<Region>, i: nat, path: string, table: map<string, string>,
               seen: set<string>)
    requires i <= |children| && !Fresh(head + Entries(children[..i], path), seen)
    ensures !Fresh(head + Entries(children, path), seen)
  {
    hide Fresh, Upserted, Entries, SlugsOf;
    assert children == children[..i] + children[i..];
    EntriesAppend(children[..i], children[i..], path);
    assert head + Entries(children, path) == (head + Entries(children[..i], path)) + Entries(children[i..], path);
    UpsertAppend(table, head + Entries(children[..i], path), Entries(children[i..], path), seen);
  }

  // ------------------------------------------------------- what the loaded paths mean

  function Leaf(ancestry: seq<string>): string
    requires ancestry != []
  {
    ancestry[|ancestry| - 1]
  }

  /** Entry by entry: a node is filed under its slug, with the path of its ancestry. */
  ghost predicate Matches(entries: seq<(string, string)>, ancestries: seq<seq<string>>) {
    && |entries| == |ancestries|
    && forall i :: 0 <= i < |entries| ==>
         ancestries[i] != [] && entries[i] == (Leaf(ancestries[i]), PathOf(ancestries[i]))
  }

  lemma MatchesAppend(e: seq<(string, string)>, a: seq<seq<string>>, f: seq<(string, string)>, b: seq<seq<string>>)
    requires Matches(e, a) && Matches(f, b)
    ensures Matches(e + f, a + b)
  {
  }

  lemma {:induction false} EntriesMatchTree(forest: seq<Region>, parent: seq<string>)
    ensures Matches(Entries(forest, PathOf(parent)), Ancestries(forest, parent))
    decreases forest
  {
    if forest != [] {
      var here := parent + [forest[0].slug];
      assert here[..|here| - 1] == parent;
      EntriesMatchTree(forest[0].children, here);
      EntriesMatchTree(forest[1..], parent);
      MatchesAppend([(Leaf(here), PathOf(here))], [here],
                    Entries(forest[0].children, PathOf(here)), Ancestries(forest[0].children, here));
      MatchesAppend([(Leaf(here), PathOf(here))] + Entries(forest[0].children, PathOf(here)),
                    [here] + Ancestries(forest[0].children, here),
                    Entries(forest[1..], PathOf(parent)), Ancestries(forest[1..], parent));
    }
  }

  lemma SlugsAt(entries: seq<(string, string)>, slug: string)
    ensures slug in SlugsOf(entries) <==> exists i :: 0 <= i < |entries| && entries[i].0 == slug
  {
    if i :| 0 <= i < |entries| && entries[i].0 == slug {
      assert entries[i] in entries;
    }
  }

  /** The loader accepts exactly the forests without a repeated slug. */
  lemma {:induction false} FreshIffDistinct(entries: seq<(string, string)>)
    ensures Fresh(entries, {}) <==> forall i, j :: 0 <= i < j < |entries| ==> entries[i].0 != entries[j].0
  {
    if entries != [] {
      var init, last := entries[..|entries| - 1], entries[|entries| - 1];
      FreshIffDistinct(init);
      assert forall i :: 0 <= i < |init| ==> init[i] == entries[i];
      SlugsAt(init, last.0);
      hide SlugsOf;
    }
  }

  lemma {:induction false} UpsertedRows(table: map<string, string>, entries: seq<(string, string)>)
    requires Fresh(entries, {})
    ensures forall e :: e in entries ==> e.0 in Upserted(table, entries) && Upserted(table, entries)[e.0] == e.1
    ensures forall k :: k in Upserted(table, entries) <==> k in table || k in SlugsOf(entries)
    ensures forall k :: k in table && k !in SlugsOf(entries) ==> Upserted(table, entries)[k] == table[k]
  {
    if entries != [] {
      var init, last := entries[..|entries| - 1], entries[|entries| - 1];
      UpsertedRows(table, init);
      assert forall e :: e in entries <==> e in init || e == last;
      assert SlugsOf(entries) == SlugsOf(init) + {last.0};
      assert forall e :: e in init ==> e.0 in SlugsOf(init);
    }
  }

  /** A node's ancestors are nodes of the tree. */
  lemma {:induction false} AncestorsAreNodes(forest: seq<Region>, parent: seq<string>, b: seq<string>, n: nat)
    requires b in Ancestries(forest, parent) && |parent| < n <= |b|
    ensures parent <= b && b[..n] in Ancestries(forest, parent)
    decreases forest
  {
    AncestryExtends(forest, parent, b);
    var here := parent + [forest[0].slug];
    if b == here {
      assert b[..n] == b;
    } else if b in Ancestries(forest[0].children, here) {
      AncestryExtends(forest[0].children, here, b);
      if n > |here| {
        AncestorsAreNodes(forest[0].children, here, b, n);
      } else {
        assert b[..n] == here;
      }
    } else {
      AncestorsAreNodes(forest[1..], parent, b, n);
    }
  }

  lemma {:induction false} AncestryExtends(forest: seq<Region>, parent: seq<string>, b: seq<string>)
    requires b in Ancestries(forest, parent)
    ensures parent < b
    decreases forest
  {
    var here := parent + [forest[0].slug];
    if b in Ancestries(forest[0].children, here) {
      AncestryExtends(forest[0].children, here, b);
    } else if b != here {
      AncestryExtends(forest[1..], parent, b);
    }
  }

  lemma MatchAt(entries: seq<(string, string)>, ancestries: seq<seq<string>>, i: nat)
    requires Matches(entries, ancestries) && i < |ancestries|
    ensures i < |entries| && ancestries[i] != [] && entries[i].0 == Leaf(ancestries[i])
  {
  }

  lemma SameSlugSameNode(roots: seq<Region>, a: seq<string>, b: seq<string>)
    requires Fresh(Entries(roots, "/"), {}) && a in Ancestries(roots, []) && b in Ancestries(roots, [])
    ensures a != [] && b != [] && (Leaf(a) == Leaf(b) ==> a == b)
  {
    var es, nodes := Entries(roots, "/"), Ancestries(roots, []);
    assert PathOf([]) == "/";
    EntriesMatchTree(roots, []);
    FreshIffDistinct(es);
    hide Fresh, Entries, Ancestries, PathOf, Matches;
    var i :| 0 <= i < |nodes| && nodes[i] == a;
    var j :| 0 <= j < |nodes| && nodes[j] == b;
    MatchAt(es, nodes, i);
    MatchAt(es, nodes, j);
  }

  /** Distinct slugs: a node's slug occurs in another's ancestry exactly when its own ancestry begins it. */
  lemma SlugMarksAncestor(roots: seq<Region>, a: seq<string>, b: seq<string>)
    requires Fresh(Entries(roots, "/"), {}) && a in Ancestries(roots, []) && b in Ancestries(roots, [])
    ensures a != [] && (Leaf(a) in b <==> a <= b)
  {
    hide Fresh, Entries, Ancestries;
    SameSlugSameNode(roots, a, b);
    if a <= b {
      assert b[|a| - 1] == Leaf(a);
    }
    if m :| 0 <= m < |b| && b[m] == Leaf(a) {
      AncestorsAreNodes(roots, [], b, m + 1);
      SameSlugSameNode(roots, a, b[..m + 1]);
    }
  }

  lemma StoredUnderSlug(roots: seq<Region>, table: map<string, string>, a: seq<string>)
    requires Fresh(Entries(roots, "/"), {}) && a in Ancestries(roots, [])
    ensures a != [] && Leaf(a) in Upserted(table, Entries(roots, "/"))
    ensures Upserted(table, Entries(roots, "/"))[Leaf(a)] == PathOf(a)
  {
    var es, nodes := Entries(roots, "/"), Ancestries(roots, []);
    EntriesMatchTree(roots, []);
    UpsertedRows(table, es);
    hide Fresh, Upserted, Entries, Ancestries, PathOf;
    var i :| 0 <= i < |nodes| && nodes[i] == a;
    assert es[i] in es;
  }

  /** For every forest the loader accepts: the stored path of one node is a prefix of another's exactly when
      its parts are; with slash-free slugs, exactly when the first is the second or one of its ancestors; and
      splitting a stored path gives back the node's exact ancestry exactly when its slugs are clean. */
  lemma LoadedPathsMeanAncestry(roots: seq<Region>, table: map<string, string>, a: seq<string>, b: seq<string>)
    requires Fresh(Entries(roots, "/"), {}) && a in Ancestries(roots, []) && b in Ancestries(roots, [])
    ensures a != [] && b != []
    ensures var t := Upserted(table, Entries(roots, "/"));
      && Leaf(a) in t && Leaf(b) in t && t[Leaf(a)] == PathOf(a) && t[Leaf(b)] == PathOf(b)
      && (t[Leaf(a)] <= t[Leaf(b)] <==> Parts(a) <= Parts(b))
      && (SlashFree(a) && SlashFree(b) ==> (t[Leaf(a)] <= t[Leaf(b)] <==> Leaf(a) in b))
      && (Segments(t[Leaf(b)]) == b <==> AllClean(b))
  {
    hide Fresh, Upserted, Entries, Ancestries, Segments, PathOf, SlashFree, Parts, AllClean;
    StoredUnderSlug(roots, table, a);
    StoredUnderSlug(roots, table, b);
    SlugMarksAncestor(roots, a, b);
    PathPrefixIffParts(a, b);
    if SlashFree(a) && SlashFree(b) {
      PrefixIffAncestry(a, b);
    }
    SegmentsRecoverAncestryIff(b);
  }

  lemma TwoLeaves(x: string, y: string)
    requires x != y
    ensures var roots := [Region(x, []), Region(y, [])];
      && Fresh(Entries(roots, "/"), {}) && Ancestries(roots, []) == [[x], [y]]
  {
    var roots := [Region(x, []), Region(y, [])];
    assert roots[1..] == [Region(y, [])];
    OneLeaf(y);
    var es := [(x, "/" + x + "/"), (y, "/" + y + "/")];
    assert [] + [x] == [x];
    assert Entries(roots, "/") == es && Ancestries(roots, []) == [[x], [y]];
    hide Entries, Fresh, Ancestries;
    FreshIffDistinct(es);
  }

  lemma OneLeaf(y: string)
    ensures Entries([Region(y, [])], "/") == [(y, "/" + y + "/")] && Ancestries([Region(y, [])], []) == [[y]]
  {
    var roots := [Region(y, [])];
    assert roots[1..] == [] && [] + [y] == [y];
    assert Entries(roots[1..], "/") == [] && Ancestries(roots[1..], []) == [];
  }

  lemma PathOfRoot(x: string)
    ensures PathOf([x]) == "/" + x + "/"
  {
    assert [x][..0] == [];
  }

  /** The loader accepts slugs with a slash, and takes the node of one for a descendant of an unrelated one. */
  lemma SlashForgesAncestry(x: string, y: string)
    ensures var roots := [Region(x, []), Region(x + "/" + y, [])];
      && Fresh(Entries(roots, "/"), {}) && Ancestries(roots, []) == [[x], [x + "/" + y]]
      && PathOf([x]) <= PathOf([x + "/" + y]) && !([x] <= [x + "/" + y])
  {
    hide *;
    assert |x + "/" + y| > |x|;
    assert [x][0] != [x + "/" + y][0];
    TwoLeaves(x, x + "/" + y);
    PathOfRoot(x);
    PathOfRoot(x + "/" + y);
    assert "/" + (x + "/" + y) + "/" == ("/" + x + "/") + (y + "/");
  }
}
