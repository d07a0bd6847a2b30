/**
 Installing a staged publication into the archive (internal/share/publication_files.go).

 The archive's files are replaced one by one, the manifest last.  `fails(n)` says whether the n-th
 step (a hook, the cancelled context, or a file-system call, which either happens or not) fails, so a
 statement about every `fails` covers a failure at every step.  `history` records every state the
 archive goes through: a crash leaves one of them.
 */
module PublicationInstall {
  import opened Options
  import opened PublicationPaths

  type Files = map<Path, Content>

  datatype Outcome =
    | Rejected         // validation or preparation failed
    | RolledBack       // an install step failed and every changed file was restored
    | PartlyInstalled  // a restore failed too: backups are retained
    | StaleLeft        // the manifest is installed, a stale file could not be removed: backups are retained
    | Untidy           // only private preparation files are left behind
    | Installed

  predicate ManifestInstalled(r: Outcome) {
    r.StaleLeft? || r.Untidy? || r.Installed?
  }

  /** A file whose private directory holds a backup of the target, its replacement, or both. */
  datatype Prepared = Prepared(name: Path, backedUp: bool, staged: bool, changed: bool)

  // ---------------------------------------------------------------- what the archive may look like

  /** One installation: what was there, what is staged, what it owns and what the new manifest names. */
  datatype Job = Job(initial: Files, stage: Files, owned: set<Path>, current: set<Path>) {
    ghost predicate Valid() {
      MANIFEST in current && current <= owned && current <= stage.Keys
    }

    /** The old manifest is in place: every path holds its original bytes or, if current, its staged ones. */
    ghost predicate BeforeCommit(t: Files)
      requires Valid()
    {
      forall p :: At(t, p) == At(initial, p) || (p in current && p != MANIFEST && At(t, p) == Some(stage[p]))
    }

    /** Every current file but the manifest has its staged bytes. */
    ghost predicate AllStaged(t: Files)
      requires Valid()
    {
      forall p :: p in current && p != MANIFEST ==> At(t, p) == Some(stage[p])
    }

    /** The new manifest is in place: current paths are staged, stale ones may be gone, others unchanged. */
    ghost predicate AfterCommit(t: Files)
      requires Valid()
    {
      forall p :: if p in current then At(t, p) == Some(stage[p])
                  else At(t, p) == At(initial, p) || (p in owned && At(t, p) == None)
    }

    /** The archive after a complete installation. */
    ghost predicate Complete(t: Files)
      requires Valid()
    {
      forall p :: At(t, p) == if p in current then Some(stage[p]) else if p in owned then None else At(initial, p)
    }

    /** Every state before index `commit` has the old manifest, every later one the new. */
    ghost predicate CommitsAt(history: seq<Files>, commit: nat)
      requires Valid()
    {
      forall j :: 0 <= j < |history| ==>
        if j < commit then BeforeCommit(history[j]) else AfterCommit(history[j])
    }
  }

  /**
   Whatever step fails and wherever a crash happens, a file that the manifest on disk names is there:
   under the old manifest every such file that existed still exists, under the new one all do.
   */
  lemma NamedFilesStay(job: Job, history: seq<Files>, commit: nat, named: Content -> set<Path>, j: nat)
    requires job.Valid() && job.CommitsAt(history, commit) && j < |history|
    requires named(job.stage[MANIFEST]) == job.current
    ensures MANIFEST in history[j] ==> named(history[j][MANIFEST]) * job.initial.Keys <= history[j].Keys
    ensures MANIFEST in history[j] && commit <= j ==> named(history[j][MANIFEST]) <= history[j].Keys
    ensures MANIFEST in job.initial && named(job.initial[MANIFEST]) <= job.initial.Keys
      ==> MANIFEST in history[j] && named(history[j][MANIFEST]) <= history[j].Keys
  {
    var t := history[j];
    if j < commit {
      assert At(t, MANIFEST) == At(job.initial, MANIFEST);
      forall p | p in job.initial ensures p in t {
        assert At(t, p).Some?;
      }
    } else {
      assert At(t, MANIFEST) == Some(job.stage[MANIFEST]);
      forall p | p in job.current ensures p in t {
        assert At(t, p).Some?;
      }
    }
  }

  /** The staged bytes of a file that both manifests name are not its original ones. */
  ghost predicate Rewrites(job: Job, named: set<Path>)
    requires job.Valid()
  {
    exists p :: p in named && p in job.current && p != MANIFEST && At(job.initial, p) != Some(job.stage[p])
  }

  /** Before the commit some file the manifest on disk names has other bytes than those it was written for. */
  ghost predicate Mixed(job: Job, history: seq<Files>, commit: nat, named: set<Path>) {
    exists j, p :: MixedAt(job, history, commit, named, j, p)
  }

  ghost predicate MixedAt(job: Job, history: seq<Files>, commit: nat, named: set<Path>, j: int, p: Path) {
    0 <= j < commit && j < |history| && p in named && At(history[j], p) != At(job.initial, p)
  }

  /**
   An installation that reaches its commit goes through a state in which the old manifest names new bytes
   exactly when the stage rewrites a file the old manifest names.
   */
  lemma MixedExactlyWhenRewriting(job: Job, history: seq<Files>, commit: nat, named: set<Path>)
    requires job.Valid() && job.CommitsAt(history, commit)
    requires 1 <= commit <= |history| && job.AllStaged(history[commit - 1])
    ensures Mixed(job, history, commit, named) <==> Rewrites(job, named)
  {
    if j, p :| MixedAt(job, history, commit, named, j, p) {
      assert job.BeforeCommit(history[j]);
    }
    if p :| p in named && p in job.current && p != MANIFEST && At(job.initial, p) != Some(job.stage[p]) {
      assert MixedAt(job, history, commit, named, commit - 1, p);
    }
  }

  // ---------------------------------------------------------------- prepared files

  ghost predicate Distinct(ps: seq<Prepared>) {
    forall j, k :: 0 <= j < k < |ps| ==> ps[j].name != ps[k].name
  }

  ghost predicate PreparedFor(job: Job, p: Prepared, backups: Files, replacements: Files) {
    && p.name in job.owned
    && p.staged == (p.name in job.current)
    && p.backedUp == (p.name in job.initial)
    && (p.backedUp ==> p.name in backups && backups[p.name] == job.initial[p.name])
    && (p.staged && !p.changed ==> p.name in job.stage && At(replacements, p.name) == Some(job.stage[p.name]))
  }

  ghost predicate AllPrepared(job: Job, ps: seq<Prepared>, backups: Files, replacements: Files) {
    Distinct(ps) && forall k :: 0 <= k < |ps| ==> PreparedFor(job, ps[k], backups, replacements)
  }

  ghost predicate HasName(ps: seq<Prepared>, p: Path) {
    exists k :: 0 <= k < |ps| && ps[k].name == p
  }

  ghost predicate Covers(job: Job, ps: seq<Prepared>, names: set<Path>) {
    forall p :: p in names && (p in job.current || p in job.initial) ==> HasName(ps, p)
  }

  ghost predicate SameNames(prepared: seq<Prepared>, ps: seq<Prepared>) {
    |ps| == |prepared| && forall k :: 0 <= k < |ps| ==> ps[k].name == prepared[k].name
  }

  lemma NameAdded(ps: seq<Prepared>, p: Prepared)
    ensures HasName(ps + [p], p.name)
    ensures forall q :: HasName(ps, q) ==> HasName(ps + [p], q)
  {
    assert (ps + [p])[|ps|] == p;
    forall q | HasName(ps, q) ensures HasName(ps + [p], q) {
      var k :| 0 <= k < |ps| && ps[k].name == q;
      assert (ps + [p])[k].name == q;
    }
  }

  /** `done` are the names whose replacement has been moved into place. */
  ghost predicate Flagged(ps: seq<Prepared>, done: set<Path>) {
    && (forall k :: 0 <= k < |ps| ==> (ps[k].changed <==> ps[k].name in done))
    && (forall p :: p in done ==> HasName(ps, p))
  }

  /** The original files with the staged bytes at `done`. */
  ghost predicate Overlay(job: Job, t: Files, done: set<Path>) {
    && done <= job.stage.Keys && done <= job.current - {MANIFEST}
    && forall p :: At(t, p) == if p in done then Some(job.stage[p]) else At(job.initial, p)
  }

  /** The staged files with the stale names in `gone` removed. */
  ghost predicate Underlay(job: Job, t: Files, gone: set<Path>)
    requires job.Valid()
  {
    && gone <= job.owned - job.current
    && forall p :: At(t, p) == if p in job.current then Some(job.stage[p])
                               else if p in gone then None else At(job.initial, p)
  }

  ghost predicate AllBefore(job: Job, history: seq<Files>)
    requires job.Valid()
  {
    forall j :: 0 <= j < |history| ==> job.BeforeCommit(history[j])
  }

  /** Moving one replacement in. */
  lemma OneInstalled(job: Job, ps: seq<Prepared>, i: nat, done: set<Path>, backups: Files, replacements: Files, t: Files)
    requires job.Valid() && i < |ps| && AllPrepared(job, ps, backups, replacements) && Flagged(ps, done)
    requires Overlay(job, t, done) && !ps[i].changed && ps[i].staged && ps[i].name != MANIFEST
    ensures ps[i].name in replacements
    ensures var p := ps[i]; var after := t[p.name := replacements[p.name]];
      && AllPrepared(job, ps[i := p.(changed := true)], backups, replacements - {p.name})
      && Flagged(ps[i := p.(changed := true)], done + {p.name})
      && Overlay(job, after, done + {p.name}) && job.BeforeCommit(after)
  {
    var p := ps[i];
    assert PreparedFor(job, p, backups, replacements);
    var qs := ps[i := p.(changed := true)];
    forall k | 0 <= k < |qs| ensures PreparedFor(job, qs[k], backups, replacements - {p.name}) {
      assert PreparedFor(job, ps[k], backups, replacements);
    }
    forall q | q in done + {p.name} ensures HasName(qs, q) {
      if q == p.name {
        assert qs[i].name == q;
      } else {
        var k :| 0 <= k < |ps| && ps[k].name == q;
        assert qs[k].name == q;
      }
    }
    forall k | 0 <= k < |qs| ensures qs[k].changed <==> qs[k].name in done + {p.name} {
      assert ps[k].changed <==> ps[k].name in done;
    }
  }

  /** The file with its original content back. */
  function Undone(p: Prepared, t: Files, backups: Files): Files
    requires p.backedUp ==> p.name in backups
  {
    if p.backedUp then t[p.name := backups[p.name]] else t - {p.name}
  }

  /** Undoing one replacement. */
  lemma OneRestored(job: Job, ps: seq<Prepared>, k: nat, left: set<Path>, backups: Files, t: Files)
    requires job.Valid() && k < |ps| && Distinct(ps) && Overlay(job, t, left) && ps[k].name in left
    requires ps[k].backedUp == (ps[k].name in job.initial)
    requires ps[k].backedUp ==> At(backups, ps[k].name) == Some(job.initial[ps[k].name])
    ensures var after := Undone(ps[k], t, backups);
      Overlay(job, after, left - {ps[k].name}) && job.BeforeCommit(after)
  {
  }

  lemma SameFiles(s: Files, t: Files)
    requires forall p :: At(s, p) == At(t, p)
    ensures s == t
  {
    forall p ensures p in s <==> p in t {
      assert At(s, p) == At(t, p);
    }
    forall p | p in s ensures s[p] == t[p] {
      assert At(s, p) == At(t, p);
    }
  }

  class Archive {
    const fails: nat -> bool
    var calls: nat
    var files: Files
    var backups: Files       // "previous" in each private directory
    var replacements: Files  // "replacement" in each private directory
    ghost var history: seq<Files>

    constructor (fails: nat -> bool, files: Files)
      ensures this.fails == fails && this.files == files && calls == 0 && history == [files]
    {
      this.fails := fails;
      this.files := files;
      calls, backups, replacements, history := 0, map[], map[], [files];
    }

    /** The last recorded state is the present one. */
    ghost predicate Recorded()
      reads this`files, this`history
    {
      history != [] && history[|history| - 1] == files
    }

    /** One step that may fail. */
    method Try() returns (ok: bool)
      modifies this`calls
      ensures ok || exists n :: fails(n)
    {
      ok := !fails(calls);
      calls := calls + 1;
    }

    /** Removes the private directories. */
    method Tidy() returns (ok: bool)
      modifies this`calls, this`backups, this`replacements
      ensures if ok then backups == map[] && replacements == map[] else exists n :: fails(n)
    {
      ok := Try();
      if ok {
        backups, replacements := map[], map[];
      }
    }

    method Record(ghost t: Files)
      modifies this`history
      ensures history == old(history) + [t]
    {
      history := history + [t];
    }

    /** Validates every owned path before anything is written. */
    method Validate(stage: Files, owned: set<Path>, current: set<Path>) returns (ok: bool)
      modifies this`calls
      ensures ok ==> (forall p :: p in owned ==> Safe(p)) && current * owned <= stage.Keys
      ensures !ok ==> (exists n :: fails(n)) || (exists p :: p in owned && !Safe(p)) || !(current * owned <= stage.Keys)
    {
      var left := owned;
      while left != {}
        invariant left <= owned
        invariant forall p :: p in owned - left ==> Safe(p) && (p in current ==> p in stage)
        decreases left
      {
        var p :| p in left;
        if !Safe(p) {
          return false;
        }
        var regular := Try();
        if !regular || (p in current && p !in stage) {
          return false;
        }
        left := left - {p};
      }
      ok := true;
    }

    /** Backs up one target and copies its replacement next to it. */
    method Prepare(stage: Files, current: set<Path>, p: Path) returns (ok: bool, r: Option<Prepared>)
      requires p in current ==> p in stage
      modifies this`calls, this`backups, this`replacements
      ensures !ok ==> exists n :: fails(n)
      ensures forall q :: q != p ==> At(backups, q) == old(At(backups, q))
      ensures forall q :: q != p ==> At(replacements, q) == old(At(replacements, q))
      ensures ok ==> (r.None? <==> p !in current && p !in files)
      ensures ok && r.Some? ==>
        && r.value == Prepared(p, p in files, p in current, false)
        && (p in files ==> At(backups, p) == Some(files[p]))
        && (p in current ==> At(replacements, p) == Some(stage[p]))
    {
      r := None;
      ok := Try();  // the hook, the context, Lstat
      if !ok || (p !in current && p !in files) {
        return;
      }
      ok := Try();  // the private directory
      if !ok {
        return;
      }
      var present := p in files;
      if present {
        ok := Try();
        if !ok {
          return;
        }
        backups := backups[p := files[p]];
      }
      if p in current {
        ok := Try();
        if !ok {
          return;
        }
        replacements := replacements[p := stage[p]];
      }
      r := Some(Prepared(p, present, p in current, false));
    }

    /** Renames a replacement over its target. */
    method MoveIn(p: Path) returns (ok: bool)
      requires p in replacements
      modifies this`calls, this`files, this`replacements, this`history
      ensures !ok ==> (exists n :: fails(n)) && files == old(files) && replacements == old(replacements) && history == old(history)
      ensures ok ==>
        && files == old(files)[p := old(replacements)[p]]
        && replacements == old(replacements) - {p}
        && history == old(history) + [files]
    {
      ok := Try();
      if ok {
        files := files[p := replacements[p]];
        replacements := replacements - {p};
        Record(files);
      }
    }

    /** Renames a backup over its target, or removes a target that did not exist. */
    method Restore(p: Prepared) returns (ok: bool)
      requires p.backedUp ==> p.name in backups
      modifies this`calls, this`files, this`backups, this`history
      ensures !ok ==> (exists n :: fails(n)) && files == old(files) && backups == old(backups) && history == old(history)
      ensures ok ==>
        && files == Undone(p, old(files), old(backups))
        && backups == (if p.backedUp then old(backups) - {p.name} else old(backups))
        && history == old(history) + [files]
    {
      ok := Try();  // the hook
      if !ok {
        return;
      }
      ok := Try();
      if !ok {
        return;
      }
      if p.backedUp {
        files := files[p.name := backups[p.name]];
        backups := backups - {p.name};
      } else {
        files := files - {p.name};
      }
      Record(files);
    }

    method Remove(p: Path) returns (ok: bool)
      modifies this`calls, this`files, this`history
      ensures !ok ==> (exists n :: fails(n)) && files == old(files) && history == old(history)
      ensures ok ==> files == old(files) - {p} && history == old(history) + [files]
    {
      ok := Try();
      if ok {
        files := files - {p};
        Record(files);
      }
    }

    /** Prepares every owned file, the manifest first. */
    method PrepareAll(job: Job) returns (ok: bool, ps: seq<Prepared>)
      requires job.Valid() && files == job.initial
      modifies this`calls, this`backups, this`replacements
      ensures !ok ==> exists n :: fails(n)
      ensures ok ==>
        && AllPrepared(job, ps, backups, replacements) && Flagged(ps, {})
        && Covers(job, ps, job.owned) && ps != [] && ps[0].name == MANIFEST
    {
      ps := [];
      var left := job.owned;
      while left != {}
        invariant left <= job.owned
        invariant AllPrepared(job, ps, backups, replacements) && Flagged(ps, {})
        invariant forall k :: 0 <= k < |ps| ==> ps[k].name !in left
        invariant if MANIFEST in left then ps == [] && left == job.owned else |ps| > 0 && ps[0].name == MANIFEST
        invariant Covers(job, ps, job.owned - left)
        decreases left
      {
        var p := MANIFEST;
        if MANIFEST !in left {
          p :| p in left;
        }
        ghost var before := ps;
        label L:
        var r;
        ok, r := Prepare(job.stage, job.current, p);
        if !ok {
          return;
        }
        left := left - {p};
        if r.Some? {
          NameAdded(ps, r.value);
          ps := ps + [r.value];
        }
        forall k | 0 <= k < |before| ensures PreparedFor(job, before[k], backups, replacements) {
          assert PreparedFor(job, before[k], old@L(backups), old@L(replacements));
          assert At(backups, before[k].name) == old@L(At(backups, before[k].name));
          assert At(replacements, before[k].name) == old@L(At(replacements, before[k].name));
        }
      }
      ok := true;
    }

    /** Exactly the replacements at `done` have been moved in. */
    ghost predicate Installing(job: Job, ps: seq<Prepared>, done: set<Path>)
      requires job.Valid()
      reads this
    {
      && AllPrepared(job, ps, backups, replacements) && Flagged(ps, done)
      && Overlay(job, files, done) && AllBefore(job, history) && Recorded()
    }

    /** Moves one replacement into place. */
    method InstallOne(job: Job, prepared: seq<Prepared>, i: nat, ghost was: set<Path>)
      returns (ok: bool, ps: seq<Prepared>, ghost done: set<Path>)
      requires job.Valid() && i < |prepared| && Installing(job, prepared, was)
      requires !prepared[i].changed && prepared[i].staged && prepared[i].name != MANIFEST
      modifies this`calls, this`files, this`replacements, this`history
      ensures !ok ==> (exists n :: fails(n)) && ps == prepared && done == was
      ensures ok ==> ps == prepared[i := prepared[i].(changed := true)] && done == was + {prepared[i].name}
      ensures Installing(job, ps, done) && |history| >= old(|history|)
    {
      ps, done := prepared, was;
      ok := Try();
      if !ok {
        return;
      }
      OneInstalled(job, prepared, i, was, backups, replacements, files);
      ok := MoveIn(prepared[i].name);
      if ok {
        ps := ps[i := ps[i].(changed := true)];
        done := done + {prepared[i].name};
      }
    }

    /** Moves every replacement but the manifest's into place. */
    method InstallAll(job: Job, prepared: seq<Prepared>) returns (ok: bool, ps: seq<Prepared>, ghost done: set<Path>)
      requires job.Valid() && Installing(job, prepared, {})
      modifies this`calls, this`files, this`replacements, this`history
      ensures !ok ==> exists n :: fails(n)
      ensures Installing(job, ps, done) && |history| >= old(|history|) && SameNames(prepared, ps)
      ensures ok ==> forall k :: 0 <= k < |ps| ==> ps[k].name in job.current - {MANIFEST} ==> ps[k].name in done
    {
      ps, done := prepared, {};
      for i := 0 to |ps|
        invariant SameNames(prepared, ps) && Installing(job, ps, done) && |history| >= old(|history|)
        invariant forall k :: i <= k < |ps| ==> !ps[k].changed
        invariant forall k :: 0 <= k < i ==> ps[k].name in job.current - {MANIFEST} ==> ps[k].name in done
      {
        assert PreparedFor(job, ps[i], backups, replacements);
        if ps[i].name == MANIFEST || !ps[i].staged {
          continue;
        }
        ok, ps, done := InstallOne(job, ps, i, done);
        if !ok {
          return;
        }
      }
      ok := true;
    }

    /** Moves every replacement into place, the manifest's last. */
    method ReplaceAll(job: Job, prepared: seq<Prepared>) returns (ok: bool, ps: seq<Prepared>, ghost done: set<Path>)
      requires job.Valid() && Installing(job, prepared, {})
      requires Covers(job, prepared, job.owned) && prepared != [] && prepared[0].name == MANIFEST
      modifies this`calls, this`files, this`replacements, this`history
      ensures !ok ==> (exists n :: fails(n)) && Installing(job, ps, done) && |history| >= old(|history|)
      ensures ok ==>
        && |history| >= 2 && job.CommitsAt(history, |history| - 1) && job.AllStaged(history[|history| - 2])
        && Underlay(job, files, {})
        && forall p :: p in job.owned && p in job.initial ==> At(backups, p) == Some(job.initial[p])
    {
      ok, ps, done := InstallAll(job, prepared);
      if !ok {
        return;
      }
      Renamed(prepared, ps);
      Replaced(job, ps, done, files);
      OriginalsAreBackedUp(job, ps, backups, replacements);
      ok := InstallManifest(job, ps, done);
    }

    /** The last rename. */
    method InstallManifest(job: Job, ps: seq<Prepared>, ghost done: set<Path>) returns (ok: bool)
      requires job.Valid() && Installing(job, ps, done) && ps != [] && ps[0].name == MANIFEST
      requires Overlay(job, files, done) && done == job.current - {MANIFEST}
      modifies this`calls, this`files, this`replacements, this`history
      ensures !ok ==> (exists n :: fails(n)) && Installing(job, ps, done) && history == old(history)
      ensures ok ==> history == old(history) + [files] && Underlay(job, files, {}) && job.AfterCommit(files)
    {
      ok := Try();
      if ok {
        assert PreparedFor(job, ps[0], backups, replacements);
        ok := MoveIn(MANIFEST);
      }
    }

    /** Restores every changed file, last first, and goes on after a failure. */
    method RollBack(job: Job, ps: seq<Prepared>, ghost done: set<Path>) returns (ok: bool)
      requires job.Valid() && Installing(job, ps, done)
      modifies this`calls, this`files, this`backups, this`history
      ensures !ok ==> exists n :: fails(n)
      ensures ok ==> files == job.initial
      ensures |history| >= old(|history|) && job.BeforeCommit(files) && AllBefore(job, history)
      ensures forall p :: At(files, p) != At(job.initial, p) && p in job.initial ==> At(backups, p) == Some(job.initial[p])
    {
      ok := true;
      ghost var left := done;
      var k := |ps|;
      while k > 0
        invariant 0 <= k <= |ps|
        invariant left <= done && Overlay(job, files, left)
        invariant AllBefore(job, history) && |history| >= old(|history|)
        invariant forall j :: 0 <= j < k ==> (ps[j].changed <==> ps[j].name in left)
        invariant ok ==> forall j :: k <= j < |ps| ==> ps[j].name !in left
        invariant forall p :: p in left && p in job.initial ==> At(backups, p) == Some(job.initial[p])
        invariant !ok ==> exists n :: fails(n)
      {
        k := k - 1;
        if ps[k].changed {
          OneRestored(job, ps, k, left, backups, files);
          var restored := Restore(ps[k]);
          if restored {
            left := left - {ps[k].name};
          } else {
            ok := false;
          }
        }
      }
      if ok {
        SameFiles(files, job.initial);
      }
    }

    /** Removes the files only the old manifest owned. */
    method RemoveStale(job: Job, ps: seq<Prepared>, ghost commit: nat) returns (ok: bool)
      requires job.Valid() && Covers(job, ps, job.owned) && forall k :: 0 <= k < |ps| ==> ps[k].name in job.owned
      requires Underlay(job, files, {}) && commit <= |history| && job.CommitsAt(history, commit)
      modifies this`calls, this`files, this`history
      ensures !ok ==> exists n :: fails(n)
      ensures job.AfterCommit(files) && old(history) <= history && job.CommitsAt(history, commit)
      ensures ok ==> job.Complete(files)
    {
      ghost var gone: set<Path> := {};
      for i := 0 to |ps|
        invariant Underlay(job, files, gone)
        invariant old(history) <= history && job.CommitsAt(history, commit)
        invariant forall k :: 0 <= k < i && ps[k].name !in job.current ==> ps[k].name in gone
      {
        var p := ps[i];
        if p.name in job.current {
          continue;
        }
        ok := Try();
        if !ok {
          return;
        }
        ok := Remove(p.name);
        if !ok {
          return;
        }
        gone := gone + {p.name};
        assert job.AfterCommit(files);
      }
      ok := true;
    }

    /** The steps up to the manifest's rename, undone when one of them fails. */
    method Commit(job: Job, prepared: seq<Prepared>) returns (ok: bool, restored: bool)
      requires job.Valid() && AllPrepared(job, prepared, backups, replacements) && Flagged(prepared, {})
      requires Covers(job, prepared, job.owned) && prepared != [] && prepared[0].name == MANIFEST
      requires files == job.initial && history == [files]
      modifies this`calls, this`files, this`backups, this`replacements, this`history
      ensures |history| >= 1 && job.CommitsAt(history, if ok then |history| - 1 else |history|)
      ensures !ok ==> exists n :: fails(n)
      ensures ok ==> Underlay(job, files, {}) && |history| >= 2 && job.AllStaged(history[|history| - 2])
      ensures ok ==> forall p :: p in job.owned && p in job.initial ==> At(backups, p) == Some(job.initial[p])
      ensures !ok && restored ==> files == job.initial
      ensures !ok ==> job.BeforeCommit(files)
      ensures !ok ==>
        forall p :: At(files, p) != At(job.initial, p) && p in job.initial ==> At(backups, p) == Some(job.initial[p])
    {
      assert job.BeforeCommit(files);
      ghost var done: set<Path>;
      var ps: seq<Prepared>;
      restored := false;
      ok, ps, done := ReplaceAll(job, prepared);
      if !ok {
        restored := RollBack(job, ps, done);
      }
    }

    /** Every file that has not its original bytes any more has them in its backup. */
    ghost predicate BackedUp(job: Job)
      reads this
    {
      forall p :: At(files, p) != At(job.initial, p) && p in job.initial ==> At(backups, p) == Some(job.initial[p])
    }

    /** How each outcome leaves the archive, and where in its history the new manifest appeared. */
    ghost predicate Leaves(job: Job, r: Outcome, commit: nat)
      requires r != Rejected ==> job.Valid()
      reads this
    {
      && (r != Rejected ==> job.CommitsAt(history, commit) && (ManifestInstalled(r) <==> commit < |history|))
      && (ManifestInstalled(r) ==> 1 <= commit && job.AllStaged(history[commit - 1]))
      && match r
         case Rejected => files == job.initial && history == [job.initial]
         case RolledBack => files == job.initial
         case PartlyInstalled => job.BeforeCommit(files) && BackedUp(job)
         case StaleLeft => job.AfterCommit(files) && BackedUp(job)
         case Untidy => job.Complete(files)
         case Installed => job.Complete(files) && backups == map[] && replacements == map[]
    }

    /** Prepares, installs, commits and cleans up. */
    method InstallJob(job: Job) returns (r: Outcome, ghost commit: nat)
      requires job.Valid() && files == job.initial && history == [files]
      modifies this
      ensures Leaves(job, r, commit)
      ensures r == Installed || exists n :: fails(n)
    {
      r, commit := Rejected, 1;
      var ok, ps := PrepareAll(job);
      if !ok {
        ok := Tidy();
        return;
      }
      var restored: bool;
      ok, restored := Commit(job, ps);
      if !ok {
        commit := |history|;
        if restored {
          ok := Tidy();
          r := RolledBack;
        } else {
          r := PartlyInstalled;
        }
        return;
      }
      commit := |history| - 1;
      r := CleanUp(job, ps, commit);
    }

    /** Once the manifest is installed: stale files and private preparation files are removed. */
    method CleanUp(job: Job, ps: seq<Prepared>, ghost commit: nat) returns (r: Outcome)
      requires job.Valid() && Covers(job, ps, job.owned) && forall k :: 0 <= k < |ps| ==> ps[k].name in job.owned
      requires Underlay(job, files, {}) && 1 <= commit < |history| && job.CommitsAt(history, commit)
      requires job.AllStaged(history[commit - 1])
      requires forall p :: p in job.owned && p in job.initial ==> At(backups, p) == Some(job.initial[p])
      modifies this
      ensures Leaves(job, r, commit) && ManifestInstalled(r)
      ensures r == Installed || exists n :: fails(n)
    {
      var ok := RemoveStale(job, ps, commit);
      if !ok {
        return StaleLeft;
      }
      ok := Tidy();
      r := if ok then Installed else Untidy;
    }

    /**
     The installation.  `previous` are the paths the archive already owns.  It can stop short only on a
     failing step, a path that may not be owned or that leaves the archive, or an unstaged file.
     */
    method Install(stage: Files, previous: set<Path>, m: Manifest) returns (r: Outcome, ghost job: Job, ghost commit: nat)
      requires history == [files]
      modifies this
      ensures job.initial == old(files) && job.stage == stage && job.owned == previous + job.current
      ensures forall p :: p in job.current ==> Named(m, p)
      ensures Owned(m) ==> forall p :: Named(m, p) ==> p in job.current
      ensures r != Rejected ==> Owned(m) && job.Valid()
      ensures Leaves(job, r, commit)
      ensures r == Installed || (exists n :: fails(n)) || !Owned(m) || (exists p :: p in previous && !Safe(p))
              || !(job.current <= stage.Keys)
    {
      r, commit := Rejected, 1;
      var paths := PathsOf(m);
      if paths.None? {
        job := Job(files, stage, previous, {});
        return;
      }
      var current := paths.value;
      var work := Job(files, stage, previous + current, current);
      job := work;
      forall p | p in current ensures Safe(p) {
        OwnedPathsAreSafe(m, p);
      }
      var ok := Validate(stage, work.owned, current);
      if !ok {
        return;
      }
      assert current * work.owned == current;
      r, commit := InstallJob(work);
    }
  }

  lemma Renamed(prepared: seq<Prepared>, ps: seq<Prepared>)
    requires SameNames(prepared, ps)
    ensures forall p :: HasName(prepared, p) ==> HasName(ps, p)
  {
    forall p | HasName(prepared, p) ensures HasName(ps, p) {
      var k :| 0 <= k < |prepared| && prepared[k].name == p;
      assert ps[k].name == p;
    }
  }

  lemma OriginalsAreBackedUp(job: Job, ps: seq<Prepared>, backups: Files, replacements: Files)
    requires AllPrepared(job, ps, backups, replacements) && Covers(job, ps, job.owned)
    ensures forall p :: p in job.owned && p in job.initial ==> At(backups, p) == Some(job.initial[p])
  {
    forall p | p in job.owned && p in job.initial ensures At(backups, p) == Some(job.initial[p]) {
      assert HasName(ps, p);
      var k :| 0 <= k < |ps| && ps[k].name == p;
      assert PreparedFor(job, ps[k], backups, replacements);
    }
  }

  /** Once every replacement is in place, exactly the current paths but the manifest are staged. */
  lemma Replaced(job: Job, ps: seq<Prepared>, done: set<Path>, t: Files)
    requires job.Valid() && Covers(job, ps, job.owned) && Overlay(job, t, done)
    requires forall k :: 0 <= k < |ps| ==> ps[k].name in job.current - {MANIFEST} ==> ps[k].name in done
    requires done <= job.current - {MANIFEST}
    ensures job.AllStaged(t) && done == job.current - {MANIFEST}
  {
    forall p | p in job.current && p != MANIFEST ensures p in done {
      assert HasName(ps, p);
      var k :| 0 <= k < |ps| && ps[k].name == p;
      assert ps[k].name in done;
    }
  }

  // ---------------------------------------------------------------- an installation that mixes

  const SHARD: Path := ["tables", "guilds", "000000.jsonl.gz"]

  /** One shard is published again with other rows. */
  function Republished(before: Content, after: Content, oldManifest: Content, newManifest: Content): Job {
    var names := {MANIFEST, SHARD};
    Job(map[MANIFEST := oldManifest, SHARD := before], map[MANIFEST := newManifest, SHARD := after], names, names)
  }

  lemma MixedState(job: Job, t: Files, before: Content, after: Content, oldManifest: Content, newManifest: Content)
    requires job == Republished(before, after, oldManifest, newManifest)
    requires job.Valid() && job.BeforeCommit(t) && job.AllStaged(t)
    ensures t == map[MANIFEST := oldManifest, SHARD := after]
  {
    var expected := map[MANIFEST := oldManifest, SHARD := after];
    assert MANIFEST != SHARD;
    forall p ensures At(t, p) == At(expected, p) {
      assert At(t, p) == At(job.initial, p) || (p in job.current && p != MANIFEST && At(t, p) == Some(job.stage[p]));
    }
    SameFiles(t, expected);
  }

  /** Without any failure the old manifest is on disk beside the new shard just before the commit. */
  method MixedStateHappens(before: Content, after: Content, oldManifest: Content, newManifest: Content)
    returns (archive: Archive, ghost commit: nat)
    requires before != after
    ensures 1 <= commit < |archive.history|
    ensures archive.history[commit - 1] == map[MANIFEST := oldManifest, SHARD := after]
    ensures archive.files == map[MANIFEST := newManifest, SHARD := after]
  {
    var job := Republished(before, after, oldManifest, newManifest);
    archive := new Archive(n => false, job.initial);
    var r;
    r, commit := archive.InstallJob(job);
    MixedState(job, archive.history[commit - 1], before, after, oldManifest, newManifest);
    assert archive.files == map[MANIFEST := newManifest, SHARD := after] by {
      SameFiles(archive.files, map[MANIFEST := newManifest, SHARD := after]);
    }
  }
}
