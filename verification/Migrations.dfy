/** The migration log, api/src/tripplan/db.py: applied in order, each in a transaction of its own,
    frozen once applied. */
module Migrations {
  import opened Util

  /** A checksum stands for the text it was taken of, so the text itself is recorded. */
  datatype File = File(name: string, sql: string)

  /** `schema_migrations` and everything the migrations have built so far. */
  datatype Db<S> = Db(log: map<string, string>, schema: S)

  /** How a run ends. `Killed` is the process dying between two commits. */
  datatype End = Done | Changed(name: string) | SqlFailed(name: string) | Killed

  datatype Outcome<S> = Outcome(db: Db<S>, applied: seq<string>, end: End)

  predicate ByName(a: File, b: File) { StrLess(a.name, b.name) }

  function Discover(listing: seq<File>): seq<File> { StableSort(listing, ByName) }

  predicate Frozen(f: File, log: map<string, string>) { f.name in log ==> log[f.name] == f.sql }

  /** One run over the files, allowed `budget` commits before it is killed (None: never killed). */
  function Apply<S>(files: seq<File>, db: Db<S>, exec: (S, string) -> Option<S>, budget: Option<nat>): Outcome<S>
    decreases |files|
  {
    if files == [] then Outcome(db, [], Done)
    else
      var f := files[0];
      if f.name in db.log then
        if db.log[f.name] != f.sql then Outcome(db, [], Changed(f.name)) else Apply(files[1..], db, exec, budget)
      else if budget == Some(0) then Outcome(db, [], Killed)
      else
        match exec(db.schema, f.sql)
        case None => Outcome(db, [], SqlFailed(f.name))
        case Some(schema) => First(f.name, Apply(files[1..], Db(db.log[f.name := f.sql], schema), exec, Fewer(budget)))
  }

  function First<S>(name: string, r: Outcome<S>): Outcome<S> { r.(applied := [name] + r.applied) }

  function Fewer(budget: Option<nat>): Option<nat> {
    if budget.None? || budget.value == 0 then budget else Some(budget.value - 1)
  }

  class Database<S(0)> {
    var log: map<string, string>
    var schema: S

    constructor (log: map<string, string>, schema: S)
      ensures this.log == log && this.schema == schema
    {
      this.log, this.schema := log, schema;
    }

    ghost function Contents(): Db<S>
      reads this
    {
      Db(log, schema)
    }

    method ApplyMigrations(listing: seq<File>, exec: (S, string) -> Option<S>, budget: Option<nat>)
      returns (newlyApplied: seq<string>, end: End)
      modifies this
      ensures Apply(Discover(listing), old(Contents()), exec, budget) == Outcome(Contents(), newlyApplied, end)
    {
      var files, left := Discover(listing), budget;
      newlyApplied := [];
      ghost var whole := Apply(files, Contents(), exec, budget);
      while files != []
        invariant var r := Apply(files, Contents(), exec, left); whole == r.(applied := newlyApplied + r.applied)
        decreases |files|
      {
        var f := files[0];
        if f.name in log {
          if log[f.name] != f.sql {
            return newlyApplied, Changed(f.name);
          }
          files := files[1..];
          continue;
        }
        if left == Some(0) {
          return newlyApplied, Killed;
        }
        var after := exec(schema, f.sql);
        if after.None? {
          return newlyApplied, SqlFailed(f.name);
        }
        ghost var rest := Apply(files[1..], Db(log[f.name := f.sql], after.value), exec, Fewer(left));
        assert newlyApplied + ([f.name] + rest.applied) == (newlyApplied + [f.name]) + rest.applied;
        log, schema := log[f.name := f.sql], after.value;
        newlyApplied := newlyApplied + [f.name];
        files, left := files[1..], Fewer(left);
      }
      return newlyApplied, Done;
    }
  }

  // ----------------------------------------------------------- cut off and repeated

  lemma Skip<S>(files: seq<File>, db: Db<S>, exec: (S, string) -> Option<S>, budget: Option<nat>)
    requires files != [] && files[0].name in db.log && db.log[files[0].name] == files[0].sql
    ensures Apply(files, db, exec, budget) == Apply(files[1..], db, exec, budget)
  {
  }

  lemma Commit<S>(files: seq<File>, db: Db<S>, exec: (S, string) -> Option<S>, budget: Option<nat>)
    requires files != [] && files[0].name !in db.log && exec(db.schema, files[0].sql).Some? && budget != Some(0)
    ensures Apply(files, db, exec, budget) == First(files[0].name, Apply(files[1..],
      Db(db.log[files[0].name := files[0].sql], exec(db.schema, files[0].sql).value), exec, Fewer(budget)))
  {
  }

  lemma {:induction false} LogOnlyGrows<S>(files: seq<File>, db: Db<S>, exec: (S, string) -> Option<S>,
                                           budget: Option<nat>, name: string)
    requires name in db.log
    ensures var r := Apply(files, db, exec, budget); name in r.db.log && r.db.log[name] == db.log[name]
    decreases |files|
  {
    if files != [] {
      var f := files[0];
      if f.name in db.log {
        LogOnlyGrows(files[1..], db, exec, budget, name);
      } else if exec(db.schema, f.sql).Some? {
        LogOnlyGrows(files[1..], Db(db.log[f.name := f.sql], exec(db.schema, f.sql).value), exec, Fewer(budget), name);
      }
    }
  }

  function Plus(n: nat, budget: Option<nat>): Option<nat> { if budget.None? then None else Some(n + budget.value) }

  /** The run killed after n commits and the one after it, `again`, add up to one run. */
  ghost predicate AddUp<S>(files: seq<File>, db: Db<S>, exec: (S, string) -> Option<S>, n: nat, again: Option<nat>) {
    var first := Apply(files, db, exec, Some(n));
    var second := Apply(files, first.db, exec, again);
    Apply(files, db, exec, Plus(n, again)) == second.(applied := first.applied + second.applied)
  }

  lemma SkipAddsUp<S>(files: seq<File>, db: Db<S>, exec: (S, string) -> Option<S>, n: nat, again: Option<nat>)
    requires files != [] && files[0].name in db.log && db.log[files[0].name] == files[0].sql
    requires AddUp(files[1..], db, exec, n, again)
    ensures AddUp(files, db, exec, n, again)
  {
    hide Apply;
    Skip(files, db, exec, Some(n));
    Skip(files, db, exec, Plus(n, again));
    LogOnlyGrows(files[1..], db, exec, Some(n), files[0].name);
    Skip(files, Apply(files, db, exec, Some(n)).db, exec, again);
  }

  lemma CommitAddsUp<S>(files: seq<File>, db: Db<S>, exec: (S, string) -> Option<S>, n: nat, again: Option<nat>)
    requires files != [] && files[0].name !in db.log && exec(db.schema, files[0].sql).Some? && n > 0
    requires AddUp(files[1..], Db(db.log[files[0].name := files[0].sql], exec(db.schema, files[0].sql).value), exec,
      n - 1, again)
    ensures AddUp(files, db, exec, n, again)
  {
    hide Apply;
    var f := files[0];
    var next := Db(db.log[f.name := f.sql], exec(db.schema, f.sql).value);
    Commit(files, db, exec, Some(n));
    Commit(files, db, exec, Plus(n, again));
    var rest := Apply(files[1..], next, exec, Some(n - 1));
    LogOnlyGrows(files[1..], next, exec, Some(n - 1), f.name);
    Skip(files, rest.db, exec, again);
    var second := Apply(files[1..], rest.db, exec, again);
    assert [f.name] + (rest.applied + second.applied) == ([f.name] + rest.applied) + second.applied;
  }

  /** Killed after n commits and started again: together the two runs are one run. */
  lemma {:induction false} ResumeContinues<S>(files: seq<File>, db: Db<S>, exec: (S, string) -> Option<S>, n: nat,
                                              again: Option<nat>)
    requires Apply(files, db, exec, Some(n)).end == Killed
    ensures AddUp(files, db, exec, n, again)
    decreases |files|
  {
    var f := files[0];
    if f.name in db.log {
      hide AddUp;
      ResumeContinues(files[1..], db, exec, n, again);
      SkipAddsUp(files, db, exec, n, again);
    } else if n > 0 {
      hide AddUp;
      ResumeContinues(files[1..], Db(db.log[f.name := f.sql], exec(db.schema, f.sql).value), exec, n - 1, again);
      CommitAddsUp(files, db, exec, n, again);
    }
  }

  /** A run that came to its own end, good or bad, leaves nothing for a further run to do. */
  lemma {:induction false} SettledIsFixed<S>(files: seq<File>, db: Db<S>, exec: (S, string) -> Option<S>,
                                             budget: Option<nat>)
    requires Apply(files, db, exec, budget).end != Killed
    ensures var r := Apply(files, db, exec, budget); Apply(files, r.db, exec, None) == Outcome(r.db, [], r.end)
    decreases |files|
  {
    if files != [] {
      var f := files[0];
      if f.name in db.log {
        LogOnlyGrows(files[1..], db, exec, budget, f.name);
        if db.log[f.name] == f.sql {
          SettledIsFixed(files[1..], db, exec, budget);
        }
      } else if exec(db.schema, f.sql).Some? {
        var next := Db(db.log[f.name := f.sql], exec(db.schema, f.sql).value);
        LogOnlyGrows(files[1..], next, exec, Fewer(budget), f.name);
        SettledIsFixed(files[1..], next, exec, Fewer(budget));
      }
    }
  }

  /** With budget to spare a run is the uninterrupted run. */
  lemma {:induction false} SettledIsWhole<S>(files: seq<File>, db: Db<S>, exec: (S, string) -> Option<S>, n: nat)
    requires Apply(files, db, exec, Some(n)).end != Killed
    ensures Apply(files, db, exec, Some(n)) == Apply(files, db, exec, None)
    decreases |files|
  {
    if files != [] {
      var f := files[0];
      if f.name in db.log {
        if db.log[f.name] == f.sql {
          SettledIsWhole(files[1..], db, exec, n);
        }
      } else if exec(db.schema, f.sql).Some? {
        SettledIsWhole(files[1..], Db(db.log[f.name := f.sql], exec(db.schema, f.sql).value), exec, n - 1);
      }
    }
  }

  /** The database after runs that were killed after so many commits each. */
  function AfterCrashes<S>(files: seq<File>, db: Db<S>, exec: (S, string) -> Option<S>, cuts: seq<nat>): Db<S>
    decreases |cuts|
  {
    if cuts == [] then db else AfterCrashes(files, Apply(files, db, exec, Some(cuts[0])).db, exec, cuts[1..])
  }

  /** However often and wherever the runs are cut off, one run that is not ends with the same log,
      the same schema and the same verdict as if nothing had happened. */
  lemma {:induction false} CrashesDoNotMatter<S>(files: seq<File>, db: Db<S>, exec: (S, string) -> Option<S>,
                                                 cuts: seq<nat>)
    ensures var r, whole := Apply(files, AfterCrashes(files, db, exec, cuts), exec, None), Apply(files, db, exec, None);
      r.db == whole.db && r.end == whole.end
    decreases |cuts|
  {
    if cuts != [] {
      hide Apply;
      var first := Apply(files, db, exec, Some(cuts[0]));
      CrashesDoNotMatter(files, first.db, exec, cuts[1..]);
      if first.end == Killed {
        ResumeContinues(files, db, exec, cuts[0], None);
      } else {
        SettledIsWhole(files, db, exec, cuts[0]);
        SettledIsFixed(files, db, exec, Some(cuts[0]));
      }
    }
  }

  /** A further run over unchanged files is a no-op. */
  lemma RerunIsNoOp<S>(files: seq<File>, db: Db<S>, exec: (S, string) -> Option<S>)
    ensures var r := Apply(files, db, exec, None); Apply(files, r.db, exec, None) == Outcome(r.db, [], r.end)
  {
    NeverKilled(files, db, exec);
    SettledIsFixed(files, db, exec, None);
  }

  lemma {:induction false} NeverKilled<S>(files: seq<File>, db: Db<S>, exec: (S, string) -> Option<S>)
    ensures Apply(files, db, exec, None).end != Killed
    decreases |files|
  {
    if files != [] {
      var f := files[0];
      if f.name in db.log {
        NeverKilled(files[1..], db, exec);
      } else if exec(db.schema, f.sql).Some? {
        NeverKilled(files[1..], Db(db.log[f.name := f.sql], exec(db.schema, f.sql).value), exec);
      }
    }
  }

  // -------------------------------------------------------- what is applied, what is refused

  ghost predicate DistinctNames(files: seq<File>) {
    forall i, j :: 0 <= i < j < |files| ==> files[i].name != files[j].name
  }

  function Pending(files: seq<File>, log: map<string, string>): seq<string> {
    if files == [] then [] else (if files[0].name in log then [] else [files[0].name]) + Pending(files[1..], log)
  }

  lemma {:induction false} PendingElsewhere(files: seq<File>, log: map<string, string>, name: string, sql: string)
    requires forall f :: f in files ==> f.name != name
    ensures Pending(files, log[name := sql]) == Pending(files, log)
  {
    if files != [] {
      assert files[0] in files;
      PendingElsewhere(files[1..], log, name, sql);
    }
  }

  /** Pending files are applied in filename order and none is skipped: all of them when the run
      completes, those before the stop otherwise. */
  lemma {:induction false} AppliesPendingInOrder<S>(files: seq<File>, db: Db<S>, exec: (S, string) -> Option<S>,
                                                    budget: Option<nat>)
    requires DistinctNames(files)
    ensures var r := Apply(files, db, exec, budget);
      r.applied <= Pending(files, db.log) && (r.end == Done ==> r.applied == Pending(files, db.log))
    decreases |files|
  {
    if files != [] {
      var f, rest := files[0], files[1..];
      assert forall g :: g in rest ==> g.name != f.name;
      if f.name in db.log {
        AppliesPendingInOrder(rest, db, exec, budget);
      } else if exec(db.schema, f.sql).Some? {
        PendingElsewhere(rest, db.log, f.name, f.sql);
        AppliesPendingInOrder(rest, Db(db.log[f.name := f.sql], exec(db.schema, f.sql).value), exec, Fewer(budget));
      }
    }
  }

  /** The log gains the applied files, as they are on disk, and nothing else. */
  lemma {:induction false} LogGainsApplied<S>(files: seq<File>, db: Db<S>, exec: (S, string) -> Option<S>,
                                              budget: Option<nat>, name: string)
    ensures var r := Apply(files, db, exec, budget);
      && (name in r.db.log <==> name in db.log || name in r.applied)
      && (name in r.applied ==> exists f :: f in files && f.name == name && r.db.log[name] == f.sql)
    decreases |files|
  {
    if files != [] {
      var f, rest := files[0], files[1..];
      assert forall g :: g in files <==> g == f || g in rest;
      if f.name in db.log {
        LogGainsApplied(rest, db, exec, budget, name);
      } else if exec(db.schema, f.sql).Some? && budget != Some(0) {
        var next := Db(db.log[f.name := f.sql], exec(db.schema, f.sql).value);
        Commit(files, db, exec, budget);
        hide Apply;
        LogGainsApplied(rest, next, exec, Fewer(budget), name);
        LogOnlyGrows(rest, next, exec, Fewer(budget), f.name);
      }
    }
  }

  /** The named file has changed since it was applied, and just the pending files before it were applied. */
  ghost predicate RefusedAt(files: seq<File>, log: map<string, string>, name: string, applied: seq<string>) {
    exists k :: 0 <= k < |files| && files[k].name == name && !Frozen(files[k], log)
      && applied == Pending(files[..k], log)
  }

  /** Unless a migration itself fails, the run is refused exactly when some applied file that is still
      on disk has changed; pending files before that one have been applied by then. */
  lemma {:induction false} RefusedIffChanged<S>(files: seq<File>, db: Db<S>, exec: (S, string) -> Option<S>)
    requires DistinctNames(files)
    ensures var r := Apply(files, db, exec, None);
      && (!r.end.SqlFailed? ==> (r.end.Changed? <==> exists f :: f in files && !Frozen(f, db.log)))
      && (r.end.Changed? ==> RefusedAt(files, db.log, r.end.name, r.applied))
    decreases |files|
  {
    if files != [] {
      var f, rest := files[0], files[1..];
      assert forall g :: g in rest ==> g.name != f.name;
      assert forall g :: g in files <==> g == f || g in rest;
      if f.name in db.log {
        if db.log[f.name] == f.sql {
          RefusedIffChanged(rest, db, exec);
          Further(files, db, db, Apply(rest, db, exec, None), []);
        } else {
          assert files[..0] == [];
        }
      } else if exec(db.schema, f.sql).Some? {
        var next := Db(db.log[f.name := f.sql], exec(db.schema, f.sql).value);
        RefusedIffChanged(rest, next, exec);
        assert forall g :: g in rest ==> (Frozen(g, next.log) <==> Frozen(g, db.log));
        Further(files, db, next, Apply(rest, next, exec, None), [f.name]);
      }
    }
  }

  /** The refused file among the rest, seen from the whole. */
  lemma Further<S>(files: seq<File>, db: Db<S>, next: Db<S>, r: Outcome<S>, head: seq<string>)
    requires DistinctNames(files) && files != [] && Frozen(files[0], db.log)
    requires next.log == if files[0].name in db.log then db.log else db.log[files[0].name := files[0].sql]
    requires head == if files[0].name in db.log then [] else [files[0].name]
    requires r.end.Changed? ==> RefusedAt(files[1..], next.log, r.end.name, r.applied)
    ensures r.end.Changed? ==> RefusedAt(files, db.log, r.end.name, head + r.applied)
  {
    if r.end.Changed? {
      var k :| 0 <= k < |files[1..]| && files[1..][k].name == r.end.name
        && !Frozen(files[1..][k], next.log) && r.applied == Pending(files[1..][..k], next.log);
      assert files[..k + 1][1..] == files[1..][..k];
      PendingElsewhere(files[1..][..k], db.log, files[0].name, files[0].sql);
      assert files[k + 1] == files[1..][k];
    }
  }

  // --------------------------------------------------------------------- the order

  lemma {:induction false} StrTotal(a: string, b: string)
    ensures a == b || StrLess(a, b) || StrLess(b, a)
  {
    if a != "" && b != "" && a[0] == b[0] {
      StrTotal(a[1..], b[1..]);
      assert a == [a[0]] + a[1..] && b == [b[0]] + b[1..];
    }
  }

  lemma NameOrder()
    ensures WeakOrder(ByName)
  {
    forall x: File, y: File | ByName(x, y) ensures !ByName(y, x) {
      StrLessAsymmetric(x.name, y.name);
    }
    forall x: File, y: File, z: File | !ByName(x, y) && !ByName(y, z) ensures !ByName(x, z) {
      StrLessNegTransitive(x.name, y.name, z.name);
    }
  }

  /** Names being distinct, the order of a directory listing does not matter: there is one order to apply in. */
  lemma DiscoverIsCanonical(a: seq<File>, b: seq<File>)
    requires multiset(a) == multiset(b) && DistinctNames(a)
    ensures Discover(a) == Discover(b) && Sorted(Discover(a), ByName)
  {
    NameOrder();
    StableSortSorted(a, ByName);
    StableSortSorted(b, ByName);
    forall x, y | x in a && y in a && x.name == y.name ensures x == y {
      var i :| 0 <= i < |a| && a[i] == x;
      var j :| 0 <= j < |a| && a[j] == y;
    }
    PermutationFacts(a, Discover(a));
    SortedSame(Discover(a), Discover(b));
  }

  lemma {:induction false} SortedSame(a: seq<File>, b: seq<File>)
    requires multiset(a) == multiset(b) && Sorted(a, ByName) && Sorted(b, ByName)
    requires forall x, y :: x in a && y in a && x.name == y.name ==> x == y
    ensures a == b
    decreases |a|
  {
    PermutationFacts(a, b);
    if a != [] {
      SameHead(a, b);
      Tail(a);
      Tail(b);
      hide ByName, Sorted;
      SortedSame(a[1..], b[1..]);
      assert a == [a[0]] + a[1..] && b == [b[0]] + b[1..];
    }
  }

  lemma Tail(a: seq<File>)
    requires a != [] && Sorted(a, ByName)
    ensures multiset(a[1..]) == multiset(a) - multiset{a[0]} && Sorted(a[1..], ByName)
    ensures forall x :: x in a[1..] ==> x in a
  {
    hide ByName;
    assert a == [a[0]] + a[1..];
  }

  lemma SameHead(a: seq<File>, b: seq<File>)
    requires a != [] && b != [] && Sorted(a, ByName) && Sorted(b, ByName)
    requires forall x :: x in a <==> x in b
    requires forall x, y :: x in a && y in a && x.name == y.name ==> x == y
    ensures a[0] == b[0]
  {
    hide StrLess;
    assert a[0] in b && b[0] in a;
    StrTotal(a[0].name, b[0].name);
    StrIrreflexive(a[0].name);
    var i :| 0 <= i < |b| && b[i] == a[0];
    var j :| 0 <= j < |a| && a[j] == b[0];
    assert i == 0 || !ByName(b[i], b[0]);
    assert j == 0 || !ByName(a[j], a[0]);
  }

  lemma StrIrreflexive(a: string)
    ensures !StrLess(a, a)
  {
    if a != "" {
      StrIrreflexive(a[1..]);
    }
  }

  /** The files come in the order of their names: where two names first differ, the earlier file's has ended or has
      the smaller character. */
  lemma DiscoveredByName(listing: seq<File>, i: nat, j: nat)
    requires DistinctNames(listing) && i < j < |listing|
    ensures var files := Discover(listing);
      |files| == |listing| && multiset(files) == multiset(listing)
      && exists k: nat :: DiffersAt(files[i].name, files[j].name, k)
  {
    var files := Discover(listing);
    NameOrder();
    StableSortSorted(listing, ByName);
    PermutationFacts(listing, files);
    NamesDiffer(listing, files, i, j);
    hide StrLess, Discover;
    StrTotal(files[i].name, files[j].name);
    StrLessIff(files[i].name, files[j].name);
  }

  lemma NamesDiffer(a: seq<File>, b: seq<File>, i: nat, j: nat)
    requires multiset(a) == multiset(b) && DistinctNames(a) && i < j < |b|
    ensures b[i].name != b[j].name
  {
    PermutationFacts(a, b);
    NoDuplicatesPermutation(a, b);
    assert b[i] in a && b[j] in a;
  }
}
