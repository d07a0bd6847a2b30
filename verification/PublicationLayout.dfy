/**
 Moving freshly exported shards out of their generation directories (internal/share/publication_layout.go).

 `fails(n)` says whether the n-th file-system call fails.  Either nothing is moved, or the moves stop
 half way and say which files have moved, or every file and its alias are at their new path.
 */
module PublicationLayout {
  import opened Options
  import opened PublicationPaths

  type Files = map<Path, Content>

  datatype Outcome = Rejected | Interrupted | Normalized

  predicate IsGenerationPath(name: Path) {
    |name| >= 3 && name[0] == "tables" && name[1] == ".generations"
  }

  /** Where a table's file goes. */
  function Target(table: string, name: Path): Path {
    if IsGenerationPath(name) then ["tables", table, name[|name| - 1]] else name
  }

  /** The same for a path a table owns, from the path alone. */
  function Home(name: Path): Path {
    if |name| == 5 && IsGenerationPath(name) then ["tables", name[3], name[4]] else name
  }

  function Homes(names: seq<Path>): seq<Path> {
    seq(|names|, i requires 0 <= i < |names| => Home(names[i]))
  }

  function HomeTable(t: Table): Table {
    Table(t.name, if t.file.Some? then Some(Home(t.file.value)) else None, Homes(t.files), Homes(t.fileManifests))
  }

  lemma HomeOwned(table: string, name: Path)
    requires table in SNAPSHOT_TABLES && OwnedByTable(table, name)
    ensures Target(table, name) == Home(name)
    ensures OwnedByTable(table, Home(name)) && !IsGenerationPath(Home(name)) && |Home(name)| >= 2
    ensures Home(Home(name)) == Home(name)
  {
    SnapshotNameIsSafe(table);
    if InGeneration(table, name) {
      assert SafePart("tables");
      var home := ["tables", table, name[4]];
      assert home[..2] == ["tables", table];
      assert Under(home, ["tables", table], true);
    } else if Under(name, ["tables", table], true) {
      assert name[1] == name[..2][1] == table;
    }
  }

  // ---------------------------------------------------------------- when the layout can be normalized

  ghost predicate IsName(m: Manifest, name: Path) {
    exists t :: t in m.tables && name in TableNames(t)
  }

  predicate DistinctTables(m: Manifest) {
    forall i, j :: 0 <= i < j < |m.tables| ==> m.tables[i].name != m.tables[j].name
  }

  ghost predicate Injective(m: Manifest) {
    forall a, b :: IsName(m, a) && IsName(m, b) && Home(a) == Home(b) ==> a == b
  }

  /** The source is there and, if it moves, its target is free in the stage and among the aliases. */
  predicate Free(m: Manifest, files: Files, name: Path) {
    name in files && (Home(name) != name ==> Home(name) !in files && Home(name) !in m.aliases)
  }

  ghost predicate Normalizable(m: Manifest, files: Files) {
    Owned(m) && DistinctTables(m) && Injective(m) && forall name :: IsName(m, name) ==> Free(m, files, name)
  }

  /** `done` are the names dealt with so far; those whose home differs have left their place. */
  predicate Leaves(renames: map<Path, Path>, done: set<Path>, p: Path) {
    p in done && p in renames && renames[p] != p
  }

  ghost predicate Touched(renames: map<Path, Path>, done: set<Path>, p: Path) {
    Leaves(renames, done, p) || exists n :: Leaves(renames, done, n) && renames[n] == p
  }

  /** The entries of `done` have moved to their new names and nothing else has changed. */
  ghost predicate Moved<V>(before: map<Path, V>, after: map<Path, V>, renames: map<Path, Path>, done: set<Path>) {
    && (forall n :: Leaves(renames, done, n) ==> n !in after && At(after, renames[n]) == At(before, n))
    && (forall p :: !Touched(renames, done, p) ==> At(after, p) == At(before, p))
  }

  /** No two names move to the same place, and none moves to where another name is. */
  ghost predicate Separate(renames: map<Path, Path>) {
    && (forall a, b :: a in renames && b in renames && renames[a] == renames[b] ==> a == b)
    && (forall a, b :: a in renames && b in renames && renames[a] != a ==> renames[a] != b)
  }

  /** One entry moved. */
  function Shifted<V>(m: map<Path, V>, n: Path, target: Path): map<Path, V> {
    if n in m && target != n then (m - {n})[target := m[n]] else m
  }

  lemma OneMoved<V>(before: map<Path, V>, now: map<Path, V>, renames: map<Path, Path>, done: set<Path>, n: Path)
    requires Separate(renames) && done <= renames.Keys && n in renames && n !in done
    requires renames[n] != n ==> renames[n] !in before
    requires Moved(before, now, renames, done)
    ensures Moved(before, Shifted(now, n, renames[n]), renames, done + {n})
    ensures At(now, n) == At(before, n)
  {
    var target, after, more := renames[n], Shifted(now, n, renames[n]), done + {n};
    assert !Touched(renames, done, n);
    assert target != n ==> !Touched(renames, done, target);
    forall p | !Touched(renames, more, p) ensures At(after, p) == At(before, p) {
      assert Leaves(renames, more, n) ==> p != target && p != n;
      StillTouched(renames, done, n, p);
    }
    forall a | Leaves(renames, more, a) ensures a !in after && At(after, renames[a]) == At(before, a) {
      if a != n {
        assert Leaves(renames, done, a);
      }
    }
  }

  lemma StillTouched(renames: map<Path, Path>, done: set<Path>, n: Path, p: Path)
    ensures Touched(renames, done, p) ==> Touched(renames, done + {n}, p)
  {
    if Touched(renames, done, p) && !Leaves(renames, done, p) {
      var a :| Leaves(renames, done, a) && renames[a] == p;
      assert Leaves(renames, done + {n}, a);
    }
  }

  /** Moves lose nothing: every entry is at its old or its new path. */
  lemma MovedKeepsAll<V>(before: map<Path, V>, after: map<Path, V>, renames: map<Path, Path>, done: set<Path>, p: Path)
    requires Moved(before, after, renames, done) && p in before
    requires forall n :: n in renames && renames[n] != n ==> renames[n] !in before
    ensures At(after, if Leaves(renames, done, p) then renames[p] else p) == Some(before[p])
  {
    if !Leaves(renames, done, p) {
      assert !Touched(renames, done, p);
    }
  }

  class Staging {
    const fails: nat -> bool
    var calls: nat
    var files: Files
    var manifest: Manifest

    constructor (fails: nat -> bool, files: Files, manifest: Manifest)
      ensures this.fails == fails && this.files == files && this.manifest == manifest
    {
      this.fails, this.files, this.manifest := fails, files, manifest;
      calls := 0;
    }

    method Try() returns (ok: bool)
      modifies this`calls
      ensures ok || exists n :: fails(n)
    {
      ok := !fails(calls);
      calls := calls + 1;
    }

    /** The renames of one more table's names, stopping where two names would share a target. */
    method CollectNames(table: string, names: seq<Path>, known: map<Path, Path>, sources: map<Path, Path>)
      returns (ok: bool, renames: map<Path, Path>, targets: map<Path, Path>)
      requires Inverse(known, sources)
      requires forall name :: name in names && name in known ==> known[name] == Target(table, name)
      ensures Inverse(renames, targets)
      ensures forall n :: n in renames ==>
        if n in known then renames[n] == known[n] else n in names && renames[n] == Target(table, n)
      ensures ok ==> forall n :: n in known || n in names ==> n in renames
      ensures !ok ==> exists a, b :: a in renames && b in names && a != b && renames[a] == Target(table, b)
    {
      renames, targets := known, sources;
      for i := 0 to |names|
        invariant Inverse(renames, targets)
        invariant forall n :: n in renames ==>
          if n in known then renames[n] == known[n] else n in names && renames[n] == Target(table, n)
        invariant forall n :: n in known ==> n in renames
        invariant forall k :: 0 <= k < i ==> names[k] in renames
      {
        var name := names[i];
        assert name in names;
        var target := Target(table, name);
        if target in targets && targets[target] != name {
          assert targets[target] in renames;
          return false, renames, targets;
        }
        targets := targets[target := name];
        renames := renames[name := target];
      }
      ok := true;
    }

    method Collect(m: Manifest) returns (ok: bool, renames: map<Path, Path>)
      requires Owned(m)
      ensures ok <==> DistinctTables(m) && Injective(m)
      ensures ok ==> forall n :: n in renames <==> IsName(m, n)
      ensures ok ==> forall n :: n in renames ==> renames[n] == Home(n)
    {
      renames := map[];
      var targets: map<Path, Path> := map[];
      var tables: set<string> := {};
      for i := 0 to |m.tables|
        invariant Inverse(renames, targets) && AllHome(renames)
        invariant forall n :: n in renames <==> NameBefore(m, i, n)
        invariant forall j, k :: 0 <= j < k < i ==> m.tables[j].name != m.tables[k].name
        invariant forall name :: name in tables <==> exists k :: 0 <= k < i && m.tables[k].name == name
      {
        var t := m.tables[i];
        if t.name in tables {
          return false, renames;
        }
        tables := tables + {t.name};
        TargetIsHome(t);
        var names := TableNames(t);
        ghost var known := renames;
        ok, renames, targets := CollectNames(t.name, names, renames, targets);
        forall n | n in renames ensures renames[n] == Home(n) {
          assert n in known ==> renames[n] == known[n];
        }
        if !ok {
          var a, b :| a in renames && b in names && a != b && renames[a] == Target(t.name, b);
          Ambiguous(m, i, a, b);
          return;
        }
        NamesNext(m, i);
      }
      NamesAll(m);
      InverseInjective(m, renames, targets);
      ok := true;
    }

    /** Every source and every target, before anything moves. */
    method Validate(renames: map<Path, Path>) returns (ok: bool)
      requires forall n :: n in renames ==> renames[n] == Home(n)
      modifies this`calls
      ensures ok ==> forall n :: n in renames ==> Free(manifest, files, n)
      ensures ok || (exists n :: fails(n)) || exists n :: n in renames && !Free(manifest, files, n)
    {
      var left := renames.Keys;
      while left != {}
        invariant left <= renames.Keys
        invariant forall n :: n in renames && n !in left ==> Free(manifest, files, n)
        decreases left
      {
        var name :| name in left;
        var regular := Try();
        if !regular || name !in files {
          return false;
        }
        var target := renames[name];
        if name != target {
          if target in manifest.aliases {
            return false;
          }
          var absent := Try();
          if !absent || target in files {
            return false;
          }
        }
        left := left - {name};
      }
      ok := true;
    }

    /** Moves one file and its alias. */
    method MoveOne(name: Path, target: Path) returns (ok: bool)
      requires name in files
      modifies this`calls, this`files, this`manifest
      ensures !ok ==> (exists n :: fails(n)) && files == old(files) && manifest == old(manifest)
      ensures ok ==> files == Shifted(old(files), name, target)
      ensures ok ==> manifest == old(manifest).(aliases := Shifted(old(manifest.aliases), name, target))
    {
      ok := true;
      if name == target {
        return;
      }
      ok := Try();  // the target's directory
      if !ok {
        return;
      }
      ok := Try();
      if !ok {
        return;
      }
      files := (files - {name})[target := files[name]];
      var aliases := manifest.aliases;
      if name in aliases {
        aliases := aliases[target := aliases[name]] - {name};
      }
      manifest := manifest.(aliases := aliases);
    }

    /** Moves the files and their aliases; a failing call leaves the rest where it is. */
    method MoveAll(renames: map<Path, Path>) returns (ok: bool, ghost done: set<Path>)
      requires Separate(renames)
      requires forall n :: n in renames ==>
        n in files && (renames[n] != n ==> renames[n] !in files && renames[n] !in manifest.aliases)
      modifies this`calls, this`files, this`manifest
      ensures done <= renames.Keys && (ok ==> done == renames.Keys)
      ensures !ok ==> exists n :: fails(n)
      ensures Moved(old(files), files, renames, done)
      ensures Moved(old(manifest.aliases), manifest.aliases, renames, done)
      ensures manifest == old(manifest).(aliases := manifest.aliases)
    {
      done := {};
      var left := renames.Keys;
      while left != {}
        invariant left <= renames.Keys && done == renames.Keys - left
        invariant Moved(old(files), files, renames, done)
        invariant Moved(old(manifest.aliases), manifest.aliases, renames, done)
        invariant manifest == old(manifest).(aliases := manifest.aliases)
        decreases left
      {
        var name :| name in left;
        OneMoved(old(files), files, renames, done, name);
        OneMoved(old(manifest.aliases), manifest.aliases, renames, done, name);
        ok := MoveOne(name, renames[name]);
        if !ok {
          return;
        }
        left := left - {name};
        done := done + {name};
      }
      ok := true;
    }

    method RewriteNames(names: seq<Path>, renames: map<Path, Path>) returns (r: seq<Path>)
      requires AllHome(renames) && forall k :: 0 <= k < |names| ==> names[k] in renames
      ensures r == Homes(names)
    {
      r := names;
      for i := 0 to |names|
        invariant |r| == |names|
        invariant forall k :: 0 <= k < i ==> r[k] == Home(names[k])
        invariant forall k :: i <= k < |names| ==> r[k] == names[k]
      {
        r := r[i := renames[r[i]]];
      }
    }

    method RewriteTables(renames: map<Path, Path>)
      requires AllHome(renames) && forall n :: IsName(manifest, n) ==> n in renames
      modifies this`manifest
      ensures manifest == HomeManifest(old(manifest))
    {
      var tables := manifest.tables;
      for i := 0 to |tables|
        invariant manifest == old(manifest)
        invariant |tables| == |old(manifest).tables|
        invariant forall k :: 0 <= k < i ==> tables[k] == HomeTable(old(manifest).tables[k])
        invariant forall k :: i <= k < |tables| ==> tables[k] == old(manifest).tables[k]
      {
        var t := tables[i];
        forall n | n in TableNames(t) ensures n in renames {
          assert t in manifest.tables && IsName(manifest, n);
        }
        var file := t.file;
        if file.Some? {
          assert file.value in TableNames(t);
          file := Some(renames[file.value]);
        }
        var files := RewriteNames(t.files, renames);
        var fileManifests := RewriteNames(t.fileManifests, renames);
        tables := tables[i := Table(t.name, file, files, fileManifests)];
      }
      manifest := manifest.(tables := tables);
    }

    /** The whole normalization. */
    method Normalize() returns (r: Outcome, ghost renames: map<Path, Path>, ghost done: set<Path>)
      modifies this
      ensures r == Rejected ==> files == old(files) && manifest == old(manifest)
      ensures r == Rejected ==> !Normalizable(old(manifest), old(files)) || exists n :: fails(n)
      ensures r != Rejected ==> Normalizable(old(manifest), old(files))
      ensures r != Rejected ==> AllHome(renames) && forall n :: n in renames <==> IsName(old(manifest), n)
      ensures r != Rejected ==> Moved(old(files), files, renames, done)
      ensures r != Rejected ==> Moved(old(manifest.aliases), manifest.aliases, renames, done)
      ensures r == Interrupted ==> exists n :: fails(n)
      ensures r == Interrupted ==> done <= renames.Keys && manifest == old(manifest).(aliases := manifest.aliases)
      ensures r == Normalized ==>
        done == renames.Keys && manifest == HomeManifest(old(manifest)).(aliases := manifest.aliases)
    {
      r, renames, done := Rejected, map[], {};
      var paths := PathsOf(manifest);
      if paths.None? {
        return;
      }
      var ok, moves := Collect(manifest);
      if !ok {
        return;
      }
      ok := Validate(moves);
      if !ok {
        return;
      }
      renames := moves;
      InjectiveSeparate(manifest, files, moves);
      ok, done := MoveAll(moves);
      if !ok {
        r := Interrupted;
        return;
      }
      RewriteTables(moves);
      r := Normalized;
    }
  }

  lemma InjectiveSeparate(m: Manifest, files: Files, renames: map<Path, Path>)
    requires AllHome(renames) && Injective(m) && forall n :: n in renames <==> IsName(m, n)
    requires forall n :: n in renames ==> Free(m, files, n)
    ensures Separate(renames)
    ensures forall n :: n in renames && renames[n] != n ==> renames[n] !in files && renames[n] !in m.aliases
  {
    forall a, b | a in renames && b in renames && renames[a] != a ensures renames[a] != b {
      assert Free(m, files, a) && Free(m, files, b);
    }
    forall n | n in renames && renames[n] != n ensures renames[n] !in files && renames[n] !in m.aliases {
      assert Free(m, files, n);
    }
  }

  function HomeManifest(m: Manifest): Manifest {
    m.(tables := seq(|m.tables|, i requires 0 <= i < |m.tables| => HomeTable(m.tables[i])))
  }

  /** A name of one of the first i tables. */
  ghost predicate NameBefore(m: Manifest, i: nat, n: Path)
    requires i <= |m.tables|
  {
    exists k :: 0 <= k < i && n in TableNames(m.tables[k])
  }

  ghost predicate Inverse(renames: map<Path, Path>, targets: map<Path, Path>) {
    && (forall n :: n in renames ==> renames[n] in targets && targets[renames[n]] == n)
    && (forall p :: p in targets ==> targets[p] in renames && renames[targets[p]] == p)
  }

  ghost predicate AllHome(renames: map<Path, Path>) {
    forall n :: n in renames ==> renames[n] == Home(n)
  }

  lemma NamesNext(m: Manifest, i: nat)
    requires i < |m.tables|
    ensures forall n :: NameBefore(m, i + 1, n) <==> NameBefore(m, i, n) || n in TableNames(m.tables[i])
  {
  }

  lemma NamesAll(m: Manifest)
    ensures forall n :: NameBefore(m, |m.tables|, n) <==> IsName(m, n)
  {
  }

  lemma Ambiguous(m: Manifest, i: nat, a: Path, b: Path)
    requires i < |m.tables| && (NameBefore(m, i, a) || a in TableNames(m.tables[i])) && b in TableNames(m.tables[i])
    requires a != b && Home(a) == Home(b)
    ensures !Injective(m)
  {
    assert m.tables[i] in m.tables;
    assert IsName(m, a) && IsName(m, b);
  }

  lemma InverseInjective(m: Manifest, renames: map<Path, Path>, targets: map<Path, Path>)
    requires Inverse(renames, targets) && AllHome(renames) && forall n :: IsName(m, n) ==> n in renames
    ensures Injective(m)
  {
    forall a, b | IsName(m, a) && IsName(m, b) && Home(a) == Home(b) ensures a == b {
      assert targets[renames[a]] == a && targets[renames[b]] == b;
    }
  }

  lemma TargetIsHome(t: Table)
    requires TableOwned(t)
    ensures forall name :: name in TableNames(t) ==> Target(t.name, name) == Home(name)
  {
    forall name | name in TableNames(t) ensures Target(t.name, name) == Home(name) {
      HomeOwned(t.name, name);
    }
  }

  // ---------------------------------------------------------------- what a normalized stage looks like

  lemma HomesContain(names: seq<Path>)
    ensures forall n :: n in names ==> Home(n) in Homes(names)
    ensures forall p :: p in Homes(names) ==> exists n :: n in names && Home(n) == p
  {
    forall n | n in names ensures Home(n) in Homes(names) {
      var i :| 0 <= i < |names| && names[i] == n;
      assert Homes(names)[i] == Home(n);
    }
    forall p | p in Homes(names) ensures exists n :: n in names && Home(n) == p {
      var i :| 0 <= i < |names| && Homes(names)[i] == p;
      assert names[i] in names && Home(names[i]) == p;
    }
  }

  lemma HomeTableNames(t: Table)
    ensures forall n :: n in TableNames(t) ==> Home(n) in TableNames(HomeTable(t))
    ensures forall p :: p in TableNames(HomeTable(t)) ==> exists n :: n in TableNames(t) && Home(n) == p
  {
    HomesContain(t.files);
    HomesContain(t.fileManifests);
    forall p | p in TableNames(HomeTable(t)) ensures exists n :: n in TableNames(t) && Home(n) == p {
      if t.file.Some? && p == Home(t.file.value) {
        assert t.file.value in TableNames(t);
      } else if p in Homes(t.files) {
        var n :| n in t.files && Home(n) == p;
        assert n in TableNames(t);
      } else {
        var n :| n in t.fileManifests && Home(n) == p;
        assert n in TableNames(t);
      }
    }
  }

  lemma HomeManifestNames(m: Manifest)
    ensures forall n :: IsName(m, n) ==> IsName(HomeManifest(m), Home(n))
    ensures forall p :: IsName(HomeManifest(m), p) ==> exists n :: IsName(m, n) && Home(n) == p
  {
    var h := HomeManifest(m);
    forall n | IsName(m, n) ensures IsName(h, Home(n)) {
      var i :| 0 <= i < |m.tables| && n in TableNames(m.tables[i]);
      HomeTableNames(m.tables[i]);
      assert h.tables[i] in h.tables;
    }
    forall p | IsName(h, p) ensures exists n :: IsName(m, n) && Home(n) == p {
      var i :| 0 <= i < |h.tables| && p in TableNames(h.tables[i]);
      HomeTableNames(m.tables[i]);
      var n :| n in TableNames(m.tables[i]) && Home(n) == p;
      assert m.tables[i] in m.tables && IsName(m, n);
    }
  }

  lemma HomeOfName(m: Manifest, n: Path)
    requires Owned(m) && IsName(m, n)
    ensures !IsGenerationPath(Home(n)) && |Home(n)| >= 2 && |n| >= 2 && Home(Home(n)) == Home(n)
  {
    var t :| t in m.tables && n in TableNames(t);
    assert OwnedByTable(t.name, n);
    HomeOwned(t.name, n);
  }

  /** Names of the new manifest are homes: none is in a generation directory and none moves again. */
  lemma NewNamesAreHomes(m: Manifest, p: Path)
    requires Owned(m) && IsName(HomeManifest(m), p)
    ensures !IsGenerationPath(p) && Home(p) == p
  {
    HomeManifestNames(m);
    var n :| IsName(m, n) && Home(n) == p;
    HomeOfName(m, n);
  }

  lemma HomeTableOwned(t: Table)
    requires TableOwned(t)
    ensures TableOwned(HomeTable(t))
  {
    HomeTableNames(t);
    forall p | p in TableNames(HomeTable(t)) ensures OwnedByTable(t.name, p) {
      var n :| n in TableNames(t) && Home(n) == p;
      HomeOwned(t.name, n);
    }
  }

  /** The ownership check passes again on the normalized manifest. */
  lemma NormalizedIsOwned(m: Manifest, aliases: map<Path, string>, renames: map<Path, Path>)
    requires Owned(m) && AllHome(renames) && forall n :: n in renames <==> IsName(m, n)
    requires Moved(m.aliases, aliases, renames, renames.Keys)
    ensures Owned(HomeManifest(m).(aliases := aliases))
  {
    forall n | n in renames ensures |n| >= 2 && |renames[n]| >= 2 {
      HomeOfName(m, n);
    }
    assert !Touched(renames, renames.Keys, PRODUCER_KEY);
    assert At(aliases, PRODUCER_KEY) == At(m.aliases, PRODUCER_KEY);
    var h := HomeManifest(m);
    forall t | t in h.tables ensures TableOwned(t) {
      var i :| 0 <= i < |h.tables| && h.tables[i] == t;
      HomeTableOwned(m.tables[i]);
    }
  }

  /** Every named file and its alias are at the name's home, unchanged. */
  lemma BytesFollow<V>(before: map<Path, V>, after: map<Path, V>, renames: map<Path, Path>, n: Path)
    requires Moved(before, after, renames, renames.Keys) && Separate(renames) && n in renames
    ensures At(after, renames[n]) == At(before, n)
  {
    if renames[n] == n {
      assert !Touched(renames, renames.Keys, n);
    } else {
      assert Leaves(renames, renames.Keys, n);
    }
  }

  /**
   After a complete normalization every file and alias has followed its name, no table names a
   generation path, the ownership check passes, and normalizing again moves nothing.
   */
  lemma NormalizedLayout(m: Manifest, files: Files, after: Manifest, moved: Files, renames: map<Path, Path>)
    requires Normalizable(m, files) && AllHome(renames) && forall n :: n in renames <==> IsName(m, n)
    requires Moved(files, moved, renames, renames.Keys) && Moved(m.aliases, after.aliases, renames, renames.Keys)
    requires after == HomeManifest(m).(aliases := after.aliases)
    ensures forall n :: IsName(m, n) ==>
      && IsName(after, Home(n)) && At(moved, Home(n)) == Some(files[n])
      && At(after.aliases, Home(n)) == At(m.aliases, n)
    ensures forall p :: IsName(after, p) ==> !IsGenerationPath(p) && Home(p) == p
    ensures Normalizable(after, moved)
  {
    InjectiveSeparate(m, files, renames);
    HomeManifestNames(m);
    NormalizedIsOwned(m, after.aliases, renames);
    assert forall p :: IsName(after, p) <==> IsName(HomeManifest(m), p);
    forall n | IsName(m, n) ensures At(moved, Home(n)) == At(files, n) && At(after.aliases, Home(n)) == At(m.aliases, n) {
      BytesFollow(files, moved, renames, n);
      BytesFollow(m.aliases, after.aliases, renames, n);
    }
    forall n | IsName(m, n) ensures n in files {
      assert Free(m, files, n);
    }
    forall p | IsName(after, p) ensures !IsGenerationPath(p) && Home(p) == p && p in moved {
      NewNamesAreHomes(m, p);
      var n :| IsName(m, n) && Home(n) == p;
      assert At(moved, p) == At(files, n);
    }
  }
}
