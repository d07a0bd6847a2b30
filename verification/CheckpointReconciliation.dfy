/**
 Finishing an interrupted publication before new work starts
 (scripts/verify_discord_checkpoint_migration.py).
 */
module CheckpointReconciliation {
  import opened Options
  import opened CheckpointLifecycle

  datatype Verdict = Stopped | Ready | Recovered

  /** A checkpoint and its parent as they were found. */
  datatype Evidence = Evidence(current: Receipt, parent: Receipt)

  ghost predicate Trouble(g: GitHub) {
    exists n :: g.reply(n) != Answered
  }

  /** No draft is pending, and the archive stands where the latest checkpoint leaves it. */
  predicate Settled(rs: Releases, latest: Option<nat>, head: Commit, commits: seq<CommitInfo>)
    requires LatestSound(rs, latest) && head < |commits|
  {
    && NoDraft(rs) && latest.Some? && rs[latest.value].target == LatestManifest(rs, latest).archive
    && var m := LatestManifest(rs, latest);
       if m.outcome == Success then
         head != m.archive && commits[head] == CommitInfo(Some(m.archive), Some(Ref(latest.value, m)))
       else head == m.archive
  }

  /** The archive either stands still or has gained one child, bound to a checkpoint. */
  twostate predicate ArchiveStepped(g: GitHub, archive: Commit, ref: Ref)
    reads g
  {
    if g.head == old(g.head) then g.commits == old(g.commits)
    else
      && old(g.head) == archive && g.head == |old(g.commits)|
      && g.commits == old(g.commits) + [CommitInfo(Some(archive), Some(ref))]
  }

  /** One look at a checkpoint: alone of its run, the only draft if any, with its parent and archive unmoved. */
  method InspectCheckpoint(g: GitHub, run: nat, expected: Receipt, draft: bool, outcome: Outcome)
    returns (r: Option<Evidence>)
    requires g.Valid()
    modifies g`calls
    ensures g.Valid()
    ensures r.Some? ==>
      var id, m := expected.ref.id, expected.ref.manifest;
      && r.value.current == expected && Holds(g.releases, id, m, draft) && g.releases[id].assets.data == expected.data
      && g.releases[id].target == m.archive && m.outcome == outcome
      && (forall other :: other in g.releases && other != id ==> g.releases[other].run != run && !g.releases[other].draft)
      && m.parent == Some(r.value.parent.ref) && m.parent.value.id != id
      && Holds(g.releases, m.parent.value.id, m.parent.value.manifest, false)
      && g.latest == Some(if draft then m.parent.value.id else id)
      && g.head == m.archive && |g.releases| < LISTING
  {
    r := None;
    var id, m := expected.ref.id, expected.ref.manifest;
    var ok := g.Try();
    if !ok || |g.releases| >= LISTING || !(forall other :: other in g.releases && other != id ==> g.releases[other].run != run && !g.releases[other].draft) {
      return;
    }
    var current := g.ReleaseManifest(id, draft);
    if current != Some(expected) || m.run != run || m.parent.None? || m.outcome != outcome
       || g.releases[id].target != m.archive {
      return;
    }
    ok := g.Try();
    if !ok || g.latest != Some(if draft then m.parent.value.id else id) || g.head != m.archive {
      return;
    }
    var parent := g.ReleaseManifest(m.parent.value.id, false);
    if parent.None? || parent.value.ref != m.parent.value || m.parent.value.id == id {
      return;
    }
    r := Some(Evidence(expected, parent.value));
  }

  /** The checkpoint is the latest release, alone, with its archive where it was. */
  ghost predicate Promoted(g: GitHub, expected: Receipt, outcome: Outcome)
    reads g
  {
    var id, m := expected.ref.id, expected.ref.manifest;
    && g.latest == Some(id) && Holds(g.releases, id, m, false) && g.releases[id].target == m.archive
    && m.outcome == outcome && NoDraft(g.releases) && g.head == m.archive
  }

  /** Admission, evidence and two complete restores; nothing is written. */
  method VerifyTwice(g: GitHub, run: nat, expected: Receipt, draft: bool, outcome: Outcome) returns (r: Option<Evidence>)
    requires g.Valid()
    modifies g`calls, g`restored
    ensures g.Valid() && (r.Some? ==> g.restored == old(g.restored) + [expected, expected])
  {
    r := None;
    var ok := g.Try();
    if !ok {
      return;
    }
    var before := InspectCheckpoint(g, run, expected, draft, outcome);
    if before.None? {
      return;
    }
    ok := RestoreTwice(g, expected, draft);
    if !ok {
      return;
    }
    ok := g.Try();  // the local export, and admission again
    if ok {
      r := before;
    }
  }

  method RestoreTwice(g: GitHub, expected: Receipt, draft: bool) returns (ok: bool)
    requires g.Valid()
    modifies g`calls, g`restored
    ensures g.Valid() && (ok ==> g.restored == old(g.restored) + [expected, expected])
  {
    var first := g.DownloadDatabase(expected.ref.id, draft, Some(expected));
    if first.None? {
      return false;
    }
    var second := g.DownloadDatabase(expected.ref.id, draft, Some(expected));
    ok := second.Some?;
  }

  /** Looks again, publishes a draft, and looks once more; a lost response is a failure whatever it did. */
  method PromoteRetained(g: GitHub, run: nat, expected: Receipt, draft: bool, outcome: Outcome, before: Evidence)
    returns (ok: bool)
    requires g.Valid() && expected in g.restored
    modifies g`calls, g`releases, g`latest, g`history
    ensures g.Valid() && old(g.history) <= g.history
    ensures ok ==> Promoted(g, expected, outcome)
  {
    var recheck := InspectCheckpoint(g, run, expected, draft, outcome);
    if recheck != Some(before) {
      return false;
    }
    ok := true;
    if draft {
      ok := g.Publish(expected);
    }
    var after := InspectCheckpoint(g, run, expected, false, outcome);
    ok := ok && after == Some(before);
    if ok {
      assert forall id :: id in g.releases && g.releases[id].draft ==> id == expected.ref.id;
    }
  }

  /** Pushes the prepared child of the recorded archive commit and reads it back. */
  method PublishArchive(g: GitHub, ref: Ref) returns (ok: bool)
    requires g.Valid()
    modifies g`calls, g`head, g`commits
    ensures g.Valid() && ArchiveStepped(g, ref.manifest.archive, ref)
    ensures ok ==> g.head != old(g.head)
  {
    ok := g.Try();
    if !ok || g.head != ref.manifest.archive {
      return false;
    }
    ok := g.Push(ref.manifest.archive, ref);
    if ok {
      ok := g.Try();
    }
  }

  /**
   Restores a retained checkpoint twice, publishes it if it is still a draft, and publishes the archive
   of a successful one.  Any lost response stops it, with the remote state kept for the next run.
   */
  method ReconcilePublisher(g: GitHub, run: nat, expected: Receipt, draft: bool, outcome: Outcome) returns (ok: bool)
    requires g.Valid() && outcome != Migration
    modifies g
    ensures g.Valid() && old(g.history) <= g.history
    ensures ArchiveStepped(g, expected.ref.manifest.archive, expected.ref)
    ensures outcome != Success ==> g.head == old(g.head)
    ensures ok ==> Settled(g.releases, g.latest, g.head, g.commits) && (outcome == Success ==> g.head != old(g.head))
    ensures ok ==> g.restored == old(g.restored) + [expected, expected]
    ensures ok ==> g.latest == Some(expected.ref.id) && LatestManifest(g.releases, g.latest).outcome == outcome
  {
    var before := VerifyTwice(g, run, expected, draft, outcome);
    if before.None? {
      return false;
    }
    ok := PromoteRetained(g, run, expected, draft, outcome, before.value);
    if ok && outcome == Success {
      ok := PublishArchive(g, expected.ref);
    }
  }

  datatype Plan = Hold | Proceed | Reconcile(expected: Receipt, draft: bool)

  /** The number of calls it takes to find a settled state. */
  function DiscoveryCalls(outcome: Outcome): nat {
    if outcome == Migration then 5 else 6
  }

  /** Reads the remote state and decides; nothing is written. */
  method Discover(g: GitHub, thisRun: nat, legacy: bool) returns (plan: Plan)
    requires g.Valid()
    modifies g`calls
    ensures g.Valid()
    ensures plan == Proceed ==> NoDraft(g.releases)
    ensures plan.Reconcile? ==> plan.expected.ref.manifest.outcome != Migration
    ensures plan.Reconcile? ==> g.head == plan.expected.ref.manifest.archive
    ensures Settled(g.releases, g.latest, g.head, g.commits) ==> !plan.Reconcile?
    ensures |g.releases| >= LISTING ==> plan == Hold
    ensures Settled(g.releases, g.latest, g.head, g.commits) && LatestManifest(g.releases, g.latest).run != thisRun
            && |g.releases| < LISTING && old(g.Calm(DiscoveryCalls(LatestManifest(g.releases, g.latest).outcome))) ==>
      plan == Proceed && g.calls == old(g.calls) + DiscoveryCalls(LatestManifest(g.releases, g.latest).outcome)
  {
    plan := Hold;
    var ok := g.Try();
    if !ok || |g.releases| >= LISTING {
      return;
    }
    var drafts := set id | id in g.releases && g.releases[id].draft;
    assert drafts == {} ==> NoDraft(g.releases) by {
      assert forall id :: id in g.releases && g.releases[id].draft ==> id in drafts;
    }
    ok := g.Try();
    if !ok || g.latest.None? {
      return;
    }
    var selected, draft := g.latest.value, false;
    if drafts != {} {
      selected :| selected in drafts;
      draft := true;
    }
    var found := g.ReleaseManifest(selected, draft);
    if found.None? || g.releases[selected].target != found.value.ref.manifest.archive {
      return;
    }
    ok := g.Try();
    if ok {
      plan := Decide(g, found.value, draft, thisRun, legacy);
    }
  }

  /** What the selected checkpoint and the archive's head call for. */
  method Decide(g: GitHub, found: Receipt, draft: bool, thisRun: nat, legacy: bool) returns (plan: Plan)
    requires g.Valid()
    modifies g`calls
    ensures g.Valid()
    ensures plan == Proceed ==> !draft
    ensures plan.Reconcile? ==>
      && plan == Reconcile(found, draft) && found.ref.manifest.outcome != Migration && g.head == found.ref.manifest.archive
      && (draft || found.ref.manifest.outcome == Success)
    ensures var m := found.ref.manifest;
      !draft && m.run != thisRun && old(g.Calm(DiscoveryCalls(m.outcome) - 4))
      && (if m.outcome == Success then g.head != m.archive && g.commits[g.head] == CommitInfo(Some(m.archive), Some(found.ref))
          else g.head == m.archive)
      ==> plan == Proceed && g.calls == old(g.calls) + DiscoveryCalls(m.outcome) - 4
  {
    plan := Hold;
    var m := found.ref.manifest;
    if !draft && m.outcome == Migration {
      var ok := g.Try();
      plan := if ok && g.head == m.archive then Proceed else Hold;
      return;
    }
    var ok := g.Try();  // the original run
    if !ok || m.outcome == Migration || m.run == thisRun {
      return;
    }
    if !draft && m.outcome == Success && g.head != m.archive {
      var c := g.commits[g.head];
      ok := g.Try();
      if ok && c.parent == Some(m.archive) && (c.bound == Some(found.ref) || (legacy && c.bound == None)) {
        plan := Proceed;
      }
      return;
    }
    if g.head != m.archive || (draft && g.latest != ParentId(m)) {
      return;
    }
    if !draft && m.outcome != Success {
      ok := g.Try();
      plan := if ok then Proceed else Hold;
      return;
    }
    plan := Reconcile(found, draft);
  }

  /**
   What the next run does first.  `legacy` says that the original run succeeded before commits carried
   the checkpoint's hashes.  Once it reports a recovery the state is settled, and on a settled state it
   writes nothing and, unless a read fails, lets the run go on.
   */
  method AutomaticReconciliation(g: GitHub, thisRun: nat, legacy: bool) returns (r: Verdict)
    requires g.Valid()
    modifies g
    ensures g.Valid() && old(g.history) <= g.history && old(g.commits) <= g.commits
    ensures r == Recovered ==> Settled(g.releases, g.latest, g.head, g.commits)
    ensures r == Recovered ==>
      if LatestManifest(g.releases, g.latest).outcome == Success
      then g.head == |old(g.commits)| && g.commits[g.head].parent == Some(old(g.head))
      else g.head == old(g.head)
    ensures Gains(g) && (r == Ready ==> g.head == old(g.head))
    ensures r == Ready ==> g.releases == old(g.releases) && g.latest == old(g.latest) && g.head == old(g.head) && NoDraft(g.releases)
    ensures old(Settled(g.releases, g.latest, g.head, g.commits)) ==>
      r != Recovered && g.releases == old(g.releases) && g.latest == old(g.latest) && g.head == old(g.head)
    ensures old(|g.releases|) >= LISTING ==>
      r == Stopped && g.releases == old(g.releases) && g.latest == old(g.latest) && g.head == old(g.head)
    ensures (old(Settled(g.releases, g.latest, g.head, g.commits)) && !Trouble(g) && |g.releases| < LISTING
             && LatestManifest(g.releases, g.latest).run != thisRun) ==> r == Ready
    ensures old(Settled(g.releases, g.latest, g.head, g.commits)) && LatestManifest(old(g.releases), old(g.latest)).run != thisRun
            && old(|g.releases|) < LISTING && old(g.Calm(DiscoveryCalls(LatestManifest(g.releases, g.latest).outcome))) ==>
      r == Ready && g.calls == old(g.calls) + DiscoveryCalls(LatestManifest(old(g.releases), old(g.latest)).outcome)
  {
    var plan := Discover(g, thisRun, legacy);
    match plan {
      case Hold => r := Stopped;
      case Proceed => r := Ready;
      case Reconcile(expected, draft) =>
        var m := expected.ref.manifest;
        var ok := ReconcilePublisher(g, m.run, expected, draft, m.outcome);
        r := if ok then Recovered else Stopped;
    }
  }

  // ---------------------------------------------------------------- finalizing a migration

  /** One look at the first checkpoint: alone in the repository, with its archive unmoved. */
  method InspectMigration(g: GitHub, run: nat, expected: Receipt, draft: bool) returns (ok: bool)
    requires g.Valid()
    modifies g`calls
    ensures g.Valid()
    ensures ok ==>
      var id, m := expected.ref.id, expected.ref.manifest;
      && g.releases.Keys == {id} && Holds(g.releases, id, m, draft) && g.releases[id].assets.data == expected.data
      && g.releases[id].target == m.archive && m.run == run && m.outcome == Migration
      && g.latest == (if draft then None else Some(id)) && g.head == m.archive
  {
    var id, m := expected.ref.id, expected.ref.manifest;
    ok := g.Try();
    if !ok || g.releases.Keys != {id} {
      return false;
    }
    var current := g.ReleaseManifest(id, draft);
    if current != Some(expected) || m.run != run || m.outcome != Migration || g.releases[id].target != m.archive {
      return false;
    }
    ok := g.Try();
    ok := ok && g.latest == (if draft then None else Some(id)) && g.head == m.archive;
  }

  /** Two complete restores of the first checkpoint's draft between two looks at it. */
  method RestoreMigrationTwice(g: GitHub, run: nat, expected: Receipt) returns (ok: bool)
    requires g.Valid()
    modifies g`calls, g`restored
    ensures g.Valid() && (ok ==> g.restored == old(g.restored) + [expected, expected])
    ensures ok ==>
      && Holds(g.releases, expected.ref.id, expected.ref.manifest, true)
      && g.releases[expected.ref.id].assets.data == expected.data && g.latest == None && expected.ref.manifest.outcome == Migration
  {
    ok := g.Try();
    if !ok {
      return;
    }
    ok := InspectMigration(g, run, expected, true);
    if !ok {
      return;
    }
    ok := RestoreTwice(g, expected, true);
    if !ok {
      return;
    }
    ok := g.Try();
    if ok {
      ok := InspectMigration(g, run, expected, true);
    }
  }

  /**
   Publishes the draft a migration has left behind.  The response of the publication must arrive and a
   last look must find it published; anything else holds, whatever has been done.
   */
  method Finalize(g: GitHub, run: nat, expected: Receipt) returns (ok: bool)
    requires g.Valid()
    modifies g
    ensures g.Valid() && old(g.history) <= g.history && g.head == old(g.head) && g.commits == old(g.commits)
    ensures ok ==> Settled(g.releases, g.latest, g.head, g.commits) && g.latest == Some(expected.ref.id)
    ensures ok ==> g.restored == old(g.restored) + [expected, expected]
    ensures (g.releases == old(g.releases) && g.latest == old(g.latest))
      || (old(g.latest) == None && g.latest == Some(expected.ref.id) && g.releases.Keys == old(g.releases.Keys))
  {
    ok := RestoreMigrationTwice(g, run, expected);
    if !ok {
      return;
    }
    ok := g.Publish(expected);
    var after := InspectMigration(g, run, expected, false);
    ok := ok && after;
  }

  // ---------------------------------------------------------------- whole runs

  /** A scheduled run, or the one that creates the first checkpoint. */
  datatype Job = Job(first: bool, run: nat, outcome: Outcome, data: Data, legacy: bool)

  /** What a job starts from: nothing, or the latest checkpoint once the state is reconciled. */
  method BeginJob(g: GitHub, job: Job) returns (ok: bool, receipt: Option<Receipt>)
    requires g.Valid()
    modifies g
    ensures g.Valid() && old(g.history) <= g.history && old(g.commits) <= g.commits
    ensures Gains(g) && (ok ==> g.head == old(g.head))
    ensures ok && receipt.Some? ==> g.Current(receipt.value) && (g.prunes ==> Pruned(g.releases, g.latest))
    ensures !job.first && !g.prunes && old(Settled(g.releases, g.latest, g.head, g.commits))
            && LatestManifest(old(g.releases), old(g.latest)).run != job.run
            && old(|g.releases|) < LISTING && old(g.Calm(DiscoveryCalls(LatestManifest(g.releases, g.latest).outcome) + 3)) ==>
      && ok && receipt.Some? && g.calls == old(g.calls) + DiscoveryCalls(LatestManifest(old(g.releases), old(g.latest)).outcome) + 3
      && g.releases == old(g.releases) && g.latest == old(g.latest) && g.head == old(g.head)
    ensures !job.first && old(|g.releases|) >= LISTING ==>
      !ok && g.releases == old(g.releases) && g.latest == old(g.latest) && g.head == old(g.head)
    ensures job.first ==> ok && receipt.None? && g.calls == old(g.calls) && g.releases == old(g.releases)
                          && g.latest == old(g.latest) && g.head == old(g.head)
  {
    ok, receipt := true, None;
    if job.first {
      return;
    }
    var verdict := AutomaticReconciliation(g, job.run, job.legacy);
    if verdict != Ready {
      return false, None;
    }
    receipt := g.Restore();
    ok := receipt.Some?;
  }

  lemma PublishedGrow(before: Releases, after: Releases, id: nat)
    requires NoDraft(before) && NoDraft(after) && after.Keys == before.Keys + {id}
    ensures PublishedIds(after) == PublishedIds(before) + {id}
  {
  }

  /** Every call up to the publication is answered, the one after it is not. */
  ghost predicate StopsAfterPublication(g: GitHub, receipt: Option<Receipt>, job: Job)
    reads g
  {
    && g.Calm(UnretiredCalls(receipt)) && g.reply(g.calls + UnretiredCalls(receipt)) != Answered && g.Honest()
    && g.Savable(receipt) && (receipt.None? <==> job.outcome == Migration) && (receipt.None? ==> g.latest.None?)
  }

  /** Saves, verifies and promotes a checkpoint over the one that was restored. */
  method SaveAndPromote(g: GitHub, receipt: Option<Receipt>, job: Job) returns (ok: bool)
    requires g.Valid() && (g.prunes && receipt.Some? ==> Pruned(g.releases, g.latest))
    modifies g`calls, g`releases, g`nextId, g`restored, g`latest, g`history
    ensures g.Valid() && old(g.history) <= g.history
    ensures ok ==> IsLatest(g, job) && NoDraft(g.releases)
    ensures old(|g.releases|) >= LISTING ==> !ok && g.releases == old(g.releases) && g.latest == old(g.latest)
    ensures old(StopsAfterPublication(g, receipt, job)) ==>
      && g.calls == old(g.calls) + UnretiredCalls(receipt) + 1 && IsLatest(g, job) && NoDraft(g.releases)
      && g.latest.value !in old(g.releases) && g.releases.Keys == old(g.releases.Keys) + {g.latest.value}
  {
    var saved := SaveDraft(g, receipt, job);
    ok := saved.Some?;
    if ok {
      ok := PromoteFor(g, receipt, job, saved.value);
    }
  }

  /** Every call of a promotion up to the publication is answered, the one after it is not. */
  ghost predicate StopsPromotion(g: GitHub, saved: Saved)
    reads g
  {
    && g.Calm(2 + g.PromoteCalls(saved)) && g.reply(g.calls + 2 + g.PromoteCalls(saved)) != Answered
    && saved.current.data == saved.current.ref.manifest.database
  }

  method PromoteFor(g: GitHub, receipt: Option<Receipt>, job: Job, saved: Saved) returns (ok: bool)
    requires g.Valid() && SavedFor(g, receipt, job, saved)
    modifies g`calls, g`releases, g`restored, g`latest, g`history
    ensures g.Valid() && old(g.history) <= g.history
    ensures ok ==> IsLatest(g, job) && NoDraft(g.releases)
    ensures old(StopsPromotion(g, saved)) ==>
      && g.calls == old(g.calls) + 3 + g.PromoteCalls(saved) && IsLatest(g, job) && NoDraft(g.releases)
      && g.latest == Some(saved.current.ref.id) && g.releases.Keys == old(g.releases.Keys)
  {
    ok := VerifyAndPromote(g, saved);
  }

  /** The draft is that of the job over the restored checkpoint, and may be promoted. */
  predicate SavedFor(g: GitHub, receipt: Option<Receipt>, job: Job, saved: Saved)
    reads g
  {
    var c := saved.current;
    && g.Promotable(saved) && saved.parent == receipt && g.releases[c.ref.id].target == c.ref.manifest.archive
    && c.ref.manifest.archive == g.head && c.ref.manifest.run == job.run && c.ref.manifest.outcome == job.outcome
  }

  lemma DraftAdded(before: Releases, id: nat, r: Release)
    ensures before[id := r][id] == r && before[id := r].Keys == before.Keys + {id}
  {
  }

  method SaveDraft(g: GitHub, receipt: Option<Receipt>, job: Job) returns (r: Option<Saved>)
    requires g.Valid() && (g.prunes && receipt.Some? ==> Pruned(g.releases, g.latest))
    modifies g`calls, g`releases, g`nextId
    ensures g.Valid()
    ensures r.Some? ==>
      var c := r.value.current;
      && SavedFor(g, receipt, job, r.value)
      && c.ref.id !in old(g.releases) && g.releases.Keys == old(g.releases.Keys) + {c.ref.id}
      && g.calls == old(g.calls) + g.SaveCalls(receipt)
    ensures old(|g.releases|) >= LISTING ==> r.None? && g.releases == old(g.releases)
    ensures old(StopsAfterPublication(g, receipt, job)) ==> r.Some? && StopsPromotion(g, r.value)
  {
    assert StopsAfterPublication(g, receipt, job) ==> g.SaveIsAnswered(receipt, job.outcome);
    ghost var before := g.releases;
    r := g.Save(receipt, job.run, job.outcome, job.data);
    if r.Some? {
      var c := r.value.current;
      assert receipt.None? ==> before == map[];
      DraftAdded(before, c.ref.id, Release(job.run, true, g.head, Stored(c.ref.manifest, c.data)));
    }
  }

  /** A saved checkpoint has become the latest release. */
  predicate PromotedAs(g: GitHub, saved: Saved)
    requires LatestSound(g.releases, g.latest)
    reads g
  {
    var c := saved.current;
    && g.latest == Some(c.ref.id) && NoDraft(g.releases) && LatestManifest(g.releases, g.latest) == c.ref.manifest
    && g.releases[c.ref.id].target == c.ref.manifest.archive
  }

  method VerifyAndPromote(g: GitHub, saved: Saved) returns (ok: bool)
    requires g.Valid() && g.Promotable(saved)
    requires g.releases[saved.current.ref.id].target == saved.current.ref.manifest.archive
    modifies g`calls, g`releases, g`restored, g`latest, g`history
    ensures g.Valid() && old(g.history) <= g.history
    ensures ok ==> PromotedAs(g, saved)
    ensures old(StopsPromotion(g, saved)) ==>
      && g.calls == old(g.calls) + 3 + g.PromoteCalls(saved) && PromotedAs(g, saved)
      && g.releases.Keys == old(g.releases.Keys)
  {
    ok := g.VerifySave(saved);
    if ok {
      ok := g.PromoteSave(saved);
    }
  }

  /** The number of calls of a save, its verification and its promotion up to the publication. */
  function UnretiredCalls(receipt: Option<Receipt>): nat {
    if receipt.Some? then 13 else 10
  }

  /** The latest release is the job's checkpoint, taken of the archive as it is. */
  predicate IsLatest(g: GitHub, job: Job)
    requires LatestSound(g.releases, g.latest)
    reads g
  {
    && g.latest.Some? && g.releases[g.latest.value].target == g.head
    && var m := LatestManifest(g.releases, g.latest);
       m.run == job.run && m.outcome == job.outcome && m.archive == g.head
  }

  /** Exports a successful job's checkpoint to the archive, in a commit bound to it. */
  method PublishDiscordArchive(g: GitHub, job: Job) returns (ok: bool)
    requires g.Valid() && job.outcome == Success && NoDraft(g.releases)
    modifies g`calls, g`head, g`commits
    ensures g.Valid() && old(g.commits) <= g.commits
    ensures Gains(g)
    ensures g.head != old(g.head) ==>
      && g.latest.Some? && LatestManifest(g.releases, g.latest).run == job.run
      && g.commits[g.head].bound == Some(Ref(g.latest.value, LatestManifest(g.releases, g.latest)))
    ensures ok && old(IsLatest(g, job)) ==> Settled(g.releases, g.latest, g.head, g.commits)
  {
    ok := g.Try();
    if !ok || g.latest.None? {
      return false;
    }
    var found := g.ReleaseManifest(g.latest.value, false);
    if found.None? {
      return false;
    }
    var m := found.value.ref.manifest;
    ok := g.Try();
    if !ok || m.run != job.run || m.outcome != Success || m.archive != g.head {
      return false;
    }
    ok := g.Push(m.archive, found.value.ref);
  }

  /** The archive stands still or gains one child, bound to a successful checkpoint. */
  twostate predicate Gains(g: GitHub)
    reads g
  {
    if g.head == old(g.head) then g.commits == old(g.commits)
    else
      && g.head == |old(g.commits)| && |g.commits| == |old(g.commits)| + 1 && old(g.commits) <= g.commits
      && g.commits[g.head].parent == Some(old(g.head))
      && g.commits[g.head].bound.Some? && g.commits[g.head].bound.value.manifest.outcome == Success
  }

  /** The number of calls of a job up to its publication. */
  function JobCalls(g: GitHub, job: Job): nat
    requires LatestSound(g.releases, g.latest)
    reads g
  {
    if job.first || g.latest.None? then 10
    else DiscoveryCalls(LatestManifest(g.releases, g.latest).outcome) + 16
  }

  /** Without pruning: every call of a failed collection's job is answered but the first after its publication. */
  ghost predicate StopsUnretired(g: GitHub, job: Job)
    requires g.Valid()
    reads g
  {
    && !g.prunes && |g.releases| < LISTING && g.Honest() && g.Calm(JobCalls(g, job)) && g.reply(g.calls + JobCalls(g, job)) != Answered
    && if job.first then job.outcome == Migration && g.releases == map[] && g.latest.None?
       else
         && (job.outcome == Failure || job.outcome == Cancelled)
         && Settled(g.releases, g.latest, g.head, g.commits) && LatestManifest(g.releases, g.latest).run != job.run
  }

  /**
   Reconcile, restore, collect, save, verify, promote and, after a successful collection, publish the
   archive; every step may be the last.  A job that gets through leaves a settled state, so the next one
   has nothing to reconcile.
   */
  method RunJob(g: GitHub, job: Job) returns (done: bool)
    requires g.Valid()
    modifies g
    ensures g.Valid() && old(g.history) <= g.history && old(g.commits) <= g.commits
    ensures Gains(g)
    ensures old(|g.releases|) >= LISTING ==>
      !done && g.releases == old(g.releases) && g.latest == old(g.latest) && g.head == old(g.head)
    ensures done ==> Settled(g.releases, g.latest, g.head, g.commits) && LatestManifest(g.releases, g.latest).run == job.run
    ensures old(StopsUnretired(g, job)) ==>
      && g.calls == old(g.calls) + old(JobCalls(g, job)) + 1
      && IsLatest(g, job) && Settled(g.releases, g.latest, g.head, g.commits) && g.latest.value !in PublishedIds(old(g.releases))
      && PublishedIds(g.releases) == PublishedIds(old(g.releases)) + {g.latest.value}
  {
    ghost var stops := StopsUnretired(g, job);
    var receipt;
    done, receipt := BeginJob(g, job);
    assert stops ==> done && StopsAfterPublication(g, receipt, job);
    if done {
      done := CompleteJob(g, receipt, job);
    }
  }

  /** From the restored checkpoint on. */
  method CompleteJob(g: GitHub, receipt: Option<Receipt>, job: Job) returns (done: bool)
    requires g.Valid() && (g.prunes && receipt.Some? ==> Pruned(g.releases, g.latest))
    modifies g
    ensures g.Valid() && old(g.history) <= g.history && old(g.commits) <= g.commits
    ensures Gains(g)
    ensures old(|g.releases|) >= LISTING ==>
      !done && g.releases == old(g.releases) && g.latest == old(g.latest) && g.head == old(g.head)
    ensures done ==> Settled(g.releases, g.latest, g.head, g.commits) && LatestManifest(g.releases, g.latest).run == job.run
    ensures old(StopsAfterPublication(g, receipt, job)) && job.outcome != Success ==>
      && g.calls == old(g.calls) + UnretiredCalls(receipt) + 1 && IsLatest(g, job)
      && Settled(g.releases, g.latest, g.head, g.commits) && g.latest.value !in old(g.releases)
      && PublishedIds(g.releases) == PublishedIds(old(g.releases)) + {g.latest.value}
  {
    ghost var before := g.releases;
    done := SaveAndPromote(g, receipt, job);
    if NoDraft(before) && NoDraft(g.releases) && g.latest.Some? && g.releases.Keys == before.Keys + {g.latest.value} {
      PublishedGrow(before, g.releases, g.latest.value);
    }
    if done && job.outcome == Success {
      done := PublishDiscordArchive(g, job);
    }
  }

  /** What can be run: a job, or the completion of a migration whose draft was left behind. */
  datatype Work = Scheduled(job: Job) | Finalization(run: nat, expected: Receipt)

  /**
   In every run of jobs and finalizations, wherever calls fail or lose their response: each published
   release had been restored in full and its parent was the latest just before, nothing that was deleted
   was the latest or its parent, at most one draft exists, at most a page of releases is listed, and with
   pruning at most three are published.
   */
  method RunJobs(g: GitHub, work: seq<Work>)
    requires g.Valid()
    modifies g
    ensures g.Valid() && old(g.history) <= g.history
    ensures forall i :: 0 <= i < |g.history| ==> Good(g.history[i])
    ensures OneDraft(g.releases) && LatestSound(g.releases, g.latest)
    ensures |g.releases| <= LISTING
    ensures g.prunes ==> |PublishedIds(g.releases)| <= 3
  {
    for i := 0 to |work|
      invariant g.Valid() && old(g.history) <= g.history
    {
      match work[i] {
        case Scheduled(job) =>
          var done := RunJob(g, job);
        case Finalization(run, expected) =>
          var done := Finalize(g, run, expected);
      }
    }
    if g.prunes {
      AtMostThree(g.releases, g.latest);
    }
  }

  function PublishedIds(rs: Releases): set<nat> {
    set id | id in rs && !rs[id].draft
  }

  lemma AtMostThree(rs: Releases, latest: Option<nat>)
    requires LatestSound(rs, latest) && Retained(rs, latest)
    ensures |PublishedIds(rs)| <= 3
  {
    if latest.None? {
      assert PublishedIds(rs) == {};
    } else {
      var m := LatestManifest(rs, latest);
      var a := latest.value;
      var b := if m.parent.Some? then m.parent.value.id else a;
      var c := if m.parent.Some? && m.parent.value.manifest.parent.Some? then m.parent.value.manifest.parent.value.id else a;
      SubsetSize(PublishedIds(rs), {a, b, c});
    }
  }

  lemma {:induction false} SubsetSize(x: set<nat>, y: set<nat>)
    requires x <= y
    ensures |x| <= |y|
    decreases y
  {
    if e :| e in y {
      SubsetSize(x - {e}, y - {e});
    }
  }

  // ---------------------------------------------------------------- without pruning

  /** A job stopped before it retires anything: the two kinds of positions, and those of later jobs. */
  predicate Stops(k: nat) {
    k == 10 || k == 32 || (k > 32 && (k - 33) % 23 == 22)
  }

  /** The calls made before the i-th job. */
  function CallsBefore(i: nat): nat {
    if i == 0 then 0 else if i == 1 then 11 else 33 + 23 * (i - 2)
  }

  lemma StopsOnlyAtTheEnd(i: nat, k: nat)
    requires CallsBefore(i) <= k < CallsBefore(i + 1)
    ensures Stops(k) <==> k == CallsBefore(i + 1) - 1
  {
    if i >= 2 {
      Remainder(i - 2, k - 33 - 23 * (i - 2));
    }
  }

  lemma Remainder(q: nat, r: nat)
    requires r < 23
    ensures (23 * q + r) % 23 == r
  {
  }

  /**
   Without pruning every number of published releases up to a full page is reached, by a run of jobs each
   of which is stopped right after its publication.  No run leaves more (`RunJobs`), and a full page lets no
   job through (`RunJob`).
   */
  method AnyNumberWithoutPruning(n: nat) returns (g: GitHub)
    requires 1 <= n <= LISTING
    ensures g.Valid() && !g.prunes && |PublishedIds(g.releases)| == n == |g.releases|
    ensures Settled(g.releases, g.latest, g.head, g.commits)
  {
    g := new GitHub(Fate, (k: nat, d: Data) => d, false);
    assert PublishedIds(g.releases) == {};
    forall k: nat | k < 10 ensures !Stops(k) {
    }
    var done := RunJob(g, Job(true, 0, Migration, 0, false));
    var i := 1;
    while i < n
      invariant 1 <= i <= n && Accumulated(g, i)
    {
      AllPublished(g.releases);
      AddUnretired(g, i);
      i := i + 1;
    }
    AllPublished(g.releases);
  }

  function Fate(k: nat): Reply {
    if Stops(k) then Refused else Answered
  }

  /** After i jobs that were stopped before they retired anything. */
  ghost predicate Accumulated(g: GitHub, i: nat)
    reads g
  {
    && i >= 1 && g.Valid() && !g.prunes && g.Honest() && g.reply == Fate && g.calls == CallsBefore(i)
    && Settled(g.releases, g.latest, g.head, g.commits) && LatestManifest(g.releases, g.latest).run == i - 1
    && LatestManifest(g.releases, g.latest).outcome == (if i == 1 then Migration else Failure)
    && |PublishedIds(g.releases)| == i
  }

  lemma AllPublished(rs: Releases)
    requires NoDraft(rs)
    ensures |PublishedIds(rs)| == |rs|
  {
    assert PublishedIds(rs) == rs.Keys;
  }

  method AddUnretired(g: GitHub, i: nat)
    requires Accumulated(g, i) && |g.releases| < LISTING
    modifies g
    ensures Accumulated(g, i + 1)
  {
    var job := Job(false, i, Failure, 0, false);
    forall k | CallsBefore(i) <= k < CallsBefore(i + 1) ensures Stops(k) <==> k == CallsBefore(i + 1) - 1 {
      StopsOnlyAtTheEnd(i, k);
    }
    assert JobCalls(g, job) == CallsBefore(i + 1) - 1 - CallsBefore(i);
    var done := RunJob(g, job);
  }
}
