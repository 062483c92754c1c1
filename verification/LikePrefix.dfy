/** `r.path LIKE <district path> || '%'`, the scope of retrieval (api/src/tripplan/store/pois.py): when it
    means ancestry. */
module LikePrefix {
  import opened Util
  import opened RegionPaths

  /** SQL LIKE with the default escape character. */
  predicate Like(s: string, pattern: string)
    decreases |s| + |pattern|
  {
    if pattern == "" then s == ""
    else if pattern[0] == '%' then Like(s, pattern[1..]) || (s != "" && Like(s[1..], pattern))
    else if pattern[0] == '\\' && |pattern| > 1 then s != "" && s[0] == pattern[1] && Like(s[1..], pattern[2..])
    else s != "" && (pattern[0] == '_' || s[0] == pattern[0]) && Like(s[1..], pattern[1..])
  }

  /** No character that LIKE treats specially. */
  predicate Plain(s: string) { '%' !in s && '_' !in s && '\\' !in s }

  lemma {:induction false} LikeAnything(s: string)
    ensures Like(s, "%")
  {
    if s == "" {
      assert "%"[1..] == "";
    } else {
      LikeAnything(s[1..]);
    }
  }

  lemma {:induction false} PlainLikeIsPrefix(s: string, path: string)
    requires Plain(path)
    ensures Like(s, path + "%") <==> path <= s
  {
    if path == "" {
      LikeAnything(s);
      assert path + "%" == "%";
    } else {
      assert (path + "%")[1..] == path[1..] + "%" && (path + "%")[0] == path[0];
      if s != "" {
        PlainLikeIsPrefix(s[1..], path[1..]);
        assert path <= s <==> path[0] == s[0] && path[1..] <= s[1..] by {
          assert path == [path[0]] + path[1..] && s == [s[0]] + s[1..];
        }
      }
    }
  }

  /** With slash-free slugs and a plain path, LIKE means ancestry. */
  lemma LikeIsAncestry(a: seq<string>, b: seq<string>)
    requires SlashFree(a) && SlashFree(b) && Plain(PathOf(a))
    ensures Like(PathOf(b), PathOf(a) + "%") <==> a <= b
  {
    PlainLikeIsPrefix(PathOf(b), PathOf(a));
    PrefixIffAncestry(a, b);
  }

  // ------------------------------------------------------- what else a pattern matches

  /** The slugs, each closed by a slash: a path without its first character. */
  function Tail(slugs: seq<string>): string {
    if slugs == [] then "" else slugs[0] + "/" + Tail(slugs[1..])
  }

  lemma {:induction false} TailAppend(slugs: seq<string>, last: string)
    ensures Tail(slugs + [last]) == Tail(slugs) + last + "/"
  {
    if slugs == [] {
      assert slugs + [last] == [last] && [last][1..] == [];
    } else {
      assert (slugs + [last])[1..] == slugs[1..] + [last];
      TailAppend(slugs[1..], last);
    }
  }

  lemma {:induction false} PathIsTail(ancestry: seq<string>)
    ensures PathOf(ancestry) == "/" + Tail(ancestry)
  {
    if ancestry != [] {
      var init, last := ancestry[..|ancestry| - 1], ancestry[|ancestry| - 1];
      PathIsTail(init);
      TailAppend(init, last);
      assert ancestry == init + [last];
    }
  }

  lemma PlainConcat(x: string, y: string)
    ensures Plain(x + y) <==> Plain(x) && Plain(y)
  {
    assert forall c :: c in x + y <==> c in x || c in y;
  }

  lemma {:induction false} PlainTail(slugs: seq<string>)
    ensures Plain(Tail(slugs)) <==> forall s :: s in slugs ==> Plain(s)
  {
    if slugs != [] {
      PlainTail(slugs[1..]);
      PlainConcat(slugs[0] + "/", Tail(slugs[1..]));
      PlainConcat(slugs[0], "/");
      assert forall s :: s in slugs <==> s == slugs[0] || s in slugs[1..];
    }
  }

  lemma PlainPath(ancestry: seq<string>)
    ensures Plain(PathOf(ancestry)) <==> forall s :: s in ancestry ==> Plain(s)
  {
    PathIsTail(ancestry);
    PlainTail(ancestry);
  }

  /** Another slug that the pattern of this one matches: an x for each wildcard, and no escape characters. */
  function Filled(slug: string): (f: string)
    ensures |f| <= |slug|
  {
    if slug == "" then ""
    else if slug[0] == '\\' then (if |slug| == 1 then "" else [slug[1]] + Filled(slug[2..]))
    else [if slug[0] in ['%', '_'] then 'x' else slug[0]] + Filled(slug[1..])
  }

  lemma {:induction false} FilledFacts(slug: string)
    requires '/' !in slug
    ensures '/' !in Filled(slug) && (Filled(slug) == "" <==> slug in ["", "\\"])
      && (Filled(slug) == slug ==> Plain(slug))
  {
    if slug != "" {
      if slug[0] == '\\' {
        if |slug| > 1 {
          assert '/' !in slug[2..];
          FilledFacts(slug[2..]);
        } else {
          assert slug == "\\";
        }
      } else {
        assert slug == [slug[0]] + slug[1..];
        FilledFacts(slug[1..]);
        assert Filled(slug)[1..] == Filled(slug[1..]);
      }
    }
  }

  lemma {:induction false} FilledMatches(slug: string, t: string, p: string)
    requires '/' !in slug && Like(t, p)
    ensures Like(Filled(slug) + "/" + t, slug + "/" + p)
  {
    var s, pattern := Filled(slug) + "/" + t, slug + "/" + p;
    if slug == "" {
      assert s[1..] == t && pattern[1..] == p;
    } else if slug[0] == '\\' {
      if |slug| == 1 {
        assert pattern == "\\/" + p && pattern[2..] == p && s[1..] == t;
      } else {
        FilledMatches(slug[2..], t, p);
        assert pattern[2..] == slug[2..] + "/" + p && s[1..] == Filled(slug[2..]) + "/" + t;
      }
    } else {
      assert slug == [slug[0]] + slug[1..];
      FilledMatches(slug[1..], t, p);
      assert pattern[1..] == slug[1..] + "/" + p && s[1..] == Filled(slug[1..]) + "/" + t;
    }
  }

  function FilledAll(slugs: seq<string>): seq<string> { seq(|slugs|, i requires 0 <= i < |slugs| => Filled(slugs[i])) }

  lemma {:induction false} TailMatches(slugs: seq<string>)
    requires SlashFree(slugs)
    ensures Like(Tail(FilledAll(slugs)), Tail(slugs) + "%")
  {
    if slugs == [] {
      LikeAnything("");
      assert Tail(slugs) + "%" == "%";
    } else {
      assert slugs[0] in slugs && forall s :: s in slugs[1..] ==> s in slugs;
      TailMatches(slugs[1..]);
      FilledMatches(slugs[0], Tail(FilledAll(slugs[1..])), Tail(slugs[1..]) + "%");
      assert FilledAll(slugs)[1..] == FilledAll(slugs[1..]);
      assert Tail(slugs) + "%" == slugs[0] + "/" + (Tail(slugs[1..]) + "%");
    }
  }

  lemma PathMatches(ancestry: seq<string>)
    requires SlashFree(ancestry)
    ensures Like(PathOf(FilledAll(ancestry)), PathOf(ancestry) + "%")
  {
    PathIsTail(ancestry);
    PathIsTail(FilledAll(ancestry));
    TailMatches(ancestry);
    var s, p := "/" + Tail(FilledAll(ancestry)), "/" + Tail(ancestry) + "%";
    assert s[1..] == Tail(FilledAll(ancestry)) && p[1..] == Tail(ancestry) + "%";
  }

  // ----------------------------------------- a slug that is one backslash matches nothing

  predicate StartsSlash(p: string) { p != "" && (p[0] == '/' || (p[0] == '\\' && |p| > 1 && p[1] == '/')) }

  /** Somewhere the pattern asks for two slashes in a row. */
  predicate AsksTwo(p: string) {
    if p == "" then false
    else if p[0] == '\\' && |p| > 1 then (p[1] == '/' && StartsSlash(p[2..])) || AsksTwo(p[2..])
    else (p[0] == '/' && StartsSlash(p[1..])) || AsksTwo(p[1..])
  }

  predicate HasTwo(s: string) { |s| >= 2 && ((s[0] == '/' && s[1] == '/') || HasTwo(s[1..])) }

  lemma {:induction false} TwoAskedTwoFound(s: string, p: string)
    requires Like(s, p) && AsksTwo(p)
    ensures HasTwo(s)
    decreases |s| + |p|
  {
    if p[0] == '%' {
      if Like(s, p[1..]) {
        TwoAskedTwoFound(s, p[1..]);
      } else {
        TwoAskedTwoFound(s[1..], p);
      }
    } else if p[0] == '\\' && |p| > 1 {
      if p[1] == '/' && StartsSlash(p[2..]) {
        assert s[1..] != "" && s[1..][0] == '/';
      } else {
        TwoAskedTwoFound(s[1..], p[2..]);
      }
    } else if p[0] == '/' && StartsSlash(p[1..]) {
      assert s[1..] != "" && s[1..][0] == '/';
    } else {
      TwoAskedTwoFound(s[1..], p[1..]);
    }
  }

  lemma {:induction false} BackslashAsksTwo(u: string, v: string)
    requires u != "" && u[|u| - 1] == '/'
    ensures AsksTwo(u + "\\/" + v)
  {
    var p := u + "\\/" + v;
    if u[0] == '\\' {
      assert p[2..] == u[2..] + "\\/" + v;
      if |u| > 2 {
        BackslashAsksTwo(u[2..], v);
      } else {
        assert u == "\\/" && p[2..] == "\\/" + v;
      }
    } else {
      assert p[1..] == u[1..] + "\\/" + v;
      if |u| > 1 {
        BackslashAsksTwo(u[1..], v);
      } else {
        assert p[1..] == "\\/" + v;
      }
    }
  }

  lemma {:induction false} TwoSlashes(s: string) returns (x: string, y: string)
    requires HasTwo(s)
    ensures s == x + "//" + y
  {
    if s[0] == '/' && s[1] == '/' {
      x, y := "", s[2..];
    } else {
      x, y := TwoSlashes(s[1..]);
      x := [s[0]] + x;
    }
  }

  lemma TwoSlashesEmptyPart(b: seq<string>, x: string, y: string)
    requires PathOf(b) == x + "//" + y
    ensures "" in Parts(b)
  {
    SplitPath(b);
    assert PathOf(b) == x + "/" + ("/" + y) && "/" + y == "" + "/" + y;
    SplitAtSlash(x, "/" + y);
    SplitAtSlash("", y);
    EmptySplit();
    hide Split, PathOf, Parts;
    var k := |Split(x)|;
    assert [""] + Parts(b) + [""] == Split(x) + ([""] + Split(y));
    assert ([""] + Parts(b) + [""])[k] == "" && 1 <= k <= |Parts(b)|;
    assert Parts(b)[k - 1] == "";
  }

  /** No path with clean slugs has two slashes in a row. */
  lemma CleanPathHasNoTwo(b: seq<string>)
    requires AllClean(b)
    ensures !HasTwo(PathOf(b))
  {
    if HasTwo(PathOf(b)) {
      var x, y := TwoSlashes(PathOf(b));
      TwoSlashesEmptyPart(b, x, y);
      SlashFreeParts(b);
    }
  }

  lemma {:induction false} PathAround(a: seq<string>, i: nat) returns (rest: string)
    requires i < |a|
    ensures PathOf(a) == PathOf(a[..i]) + a[i] + "/" + rest
    decreases |a|
  {
    var init, last := a[..|a| - 1], a[|a| - 1];
    if i == |a| - 1 {
      rest := "";
    } else {
      rest := PathAround(init, i);
      assert init[..i] == a[..i];
      rest := rest + last + "/";
    }
  }

  /** Not even its own region. */
  lemma LoneBackslashMatchesNothing(a: seq<string>, b: seq<string>)
    requires "\\" in a && AllClean(b)
    ensures !Like(PathOf(b), PathOf(a) + "%")
  {
    var i :| 0 <= i < |a| && a[i] == "\\";
    var rest := PathAround(a, i);
    var q := EndsInSlash(a[..i]);
    var u := PathOf(a[..i]);
    assert PathOf(a) + "%" == u + "\\/" + (rest + "%");
    BackslashAsksTwo(u, rest + "%");
    CleanPathHasNoTwo(b);
    if Like(PathOf(b), PathOf(a) + "%") {
      TwoAskedTwoFound(PathOf(b), PathOf(a) + "%");
    }
  }

  // ------------------------------------------------------------- the exact condition

  /** For a region with clean slugs: LIKE picks out its subtree among all clean paths exactly when its path is
      free of LIKE's special characters. */
  lemma LikeMeansAncestryIff(a: seq<string>)
    requires AllClean(a)
    ensures Plain(PathOf(a)) <==> forall b :: AllClean(b) ==> (Like(PathOf(b), PathOf(a) + "%") <==> a <= b)
  {
    if Plain(PathOf(a)) {
      forall b | AllClean(b) ensures Like(PathOf(b), PathOf(a) + "%") <==> a <= b {
        LikeIsAncestry(a, b);
      }
    } else {
      var b := Misjudged(a);
    }
  }

  /** A clean ancestry about which the pattern of a is wrong: another one that it matches, or, when a slug is
      a single backslash, its own. */
  lemma Misjudged(a: seq<string>) returns (b: seq<string>)
    requires AllClean(a) && !Plain(PathOf(a))
    ensures AllClean(b) && (Like(PathOf(b), PathOf(a) + "%") <==> !(a <= b))
  {
    PathMatches(a);
    PlainPath(a);
    hide Like, PathOf, Plain;
    if "\\" in a {
      b := a;
      LoneBackslashMatchesNothing(a, a);
    } else {
      b := FilledAll(a);
      forall s | s in b ensures Clean(s) {
        var i :| 0 <= i < |b| && b[i] == s;
        assert a[i] in a;
        FilledFacts(a[i]);
      }
      var i :| 0 <= i < |a| && !Plain(a[i]);
      assert a[i] in a;
      FilledFacts(a[i]);
      assert b[i] != a[i] && |b| == |a|;
    }
  }

  // ----------------------------------------------------------- inside a loaded forest

  lemma {:induction false} PlainConsumed(u: string, s: string, p: string)
    requires Plain(u)
    ensures Like(u + s, u + p) <==> Like(s, p)
  {
    if u == "" {
      assert u + s == s && u + p == p;
    } else {
      assert (u + s)[1..] == u[1..] + s && (u + p)[1..] == u[1..] + p;
      PlainConsumed(u[1..], s, p);
    }
  }

  /** Any state r, any two districts of it that differ in one character, an underscore in the first of them:
      the loader accepts them, and the pattern of the first claims the second. */
  lemma UnderscoreClaimsSibling(r: string, u: string, c: char, v: string)
    requires Plain(r) && Plain(u) && Plain(v) && c != '_' && r != u + "_" + v && r != u + [c] + v
    ensures var d, e := u + "_" + v, u + [c] + v;
      var roots := [Region(r, [Region(d, []), Region(e, [])])];
      && Fresh(Entries(roots, "/"), {}) && [r, d] in Ancestries(roots, []) && [r, e] in Ancestries(roots, [])
      && Like(PathOf([r, e]), PathOf([r, d]) + "%") && !([r, d] <= [r, e])
  {
    var d, e := u + "_" + v, u + [c] + v;
    assert d[|u|] == '_' && e[|u|] == c;
    hide *;
    Siblings(r, d, e);
    SiblingMatches(r, u, c, v);
  }

  lemma SiblingMatches(r: string, u: string, c: char, v: string)
    requires Plain(r) && Plain(u) && Plain(v)
    ensures Like(PathOf([r, u + [c] + v]), PathOf([r, u + "_" + v]) + "%")
  {
    PathOfPair(r, u + "_" + v);
    PathOfPair(r, u + [c] + v);
    hide Like, PathOf;
    var head, tail := "/" + r + "/" + u, v + "/";
    assert PathOf([r, u + [c] + v]) == head + ([c] + tail);
    assert PathOf([r, u + "_" + v]) + "%" == head + ("_" + tail + "%");
    AnyCharacter(c, tail);
    PlainConsumed(head, [c] + tail, "_" + tail + "%");
  }

  lemma AnyCharacter(c: char, s: string)
    requires Plain(s)
    ensures Like([c] + s, "_" + s + "%")
  {
    PlainLikeIsPrefix(s, s);
    assert ([c] + s)[1..] == s && ("_" + s + "%")[1..] == s + "%";
  }

  lemma PathOfPair(a: string, b: string)
    ensures PathOf([a, b]) == "/" + a + "/" + b + "/"
  {
    assert [a, b][..1] == [a] && [a][..0] == [];
    assert PathOf([a]) == "/" + a + "/";
  }

  lemma Siblings(r: string, d: string, e: string)
    requires r != d && r != e && d != e
    ensures var roots := [Region(r, [Region(d, []), Region(e, [])])];
      Fresh(Entries(roots, "/"), {}) && [r, d] in Ancestries(roots, []) && [r, e] in Ancestries(roots, [])
  {
    var first, second := Region(d, []), Region(e, []);
    var children := [first, second];
    var roots := [Region(r, children)];
    var path := "/" + r + "/";
    var es := [(r, path), (d, path + d + "/"), (e, path + e + "/")];
    assert [first] + [second] == children;
    EntriesAppend([first], [second], path);
    LeafEntries(d, path);
    LeafEntries(e, path);
    assert roots[1..] == [] && Entries(roots, "/") == es;
    FreshIffDistinct(es);
    assert [] + [r] == [r] && [r] + [d] == [r, d] && [r] + [e] == [r, e];
    assert children[1..] == [second] && [second][1..] == [];
    assert Ancestries([second], [r]) == [[r, e]];
    assert [r, d] in Ancestries(children, [r]) && [r, e] in Ancestries(children, [r]);
  }

  lemma LeafEntries(slug: string, path: string)
    ensures Entries([Region(slug, [])], path) == [(slug, path + slug + "/")]
  {
    assert [Region(slug, [])][1..] == [];
  }
}
