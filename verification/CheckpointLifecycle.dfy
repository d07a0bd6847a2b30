/**
 The life of a private checkpoint: saved as a draft release, verified, promoted to latest, retired
 (scripts/private_discord_checkpoint.py) and reconciled after an interruption
 (scripts/verify_discord_checkpoint_migration.py).

 One writer runs at a time.  `reply(n)` is the fate of the n-th remote call: it may be refused, or take
 effect and lose its response, and in both cases the procedure stops with an error; a crash at a call is
 the same as that.  A digest determines what it was taken of, so a reference holds the manifest itself.
 */
module CheckpointLifecycle {
  import opened Options

  type Commit = nat
  type Data = nat  // the bytes of a database

  datatype Outcome = Success | Failure | Cancelled | Migration

  datatype Manifest = Manifest(run: nat, outcome: Outcome, archive: Commit, parent: Option<Ref>, database: Data)
  datatype Ref = Ref(id: nat, manifest: Manifest)

  /** An upload that did not finish leaves an incomplete set of assets. */
  datatype Assets = Incomplete | Stored(manifest: Manifest, data: Data)
  datatype Release = Release(run: nat, draft: bool, target: Commit, assets: Assets)

  /** What was in custody: the release, its manifest and the identity of its data. */
  datatype Receipt = Receipt(ref: Ref, data: Data)
  datatype Saved = Saved(parent: Option<Receipt>, current: Receipt)

  type Releases = map<nat, Release>

  /** One page of releases is listed; a full page is refused, since there may be more. */
  const LISTING: nat := 100

  datatype Reply = Answered | Refused | Lost

  /** What happened to the remote state, as seen at that moment. */
  datatype Event =
    | Published(id: nat, lineage: Option<nat>, latestBefore: Option<nat>, restored: bool)
    | Deleted(id: nat, latest: nat, parent: nat)

  // ---------------------------------------------------------------- what the remote may look like

  function ParentId(m: Manifest): Option<nat> {
    if m.parent.Some? then Some(m.parent.value.id) else None
  }

  function GrandparentId(m: Manifest): Option<nat> {
    if m.parent.Some? then ParentId(m.parent.value.manifest) else None
  }

  predicate WellFormed(m: Manifest) {
    m.parent.None? <==> m.outcome == Migration
  }

  /** A release whose assets are those of a manifest. */
  predicate Holds(rs: Releases, id: nat, m: Manifest, draft: bool) {
    id in rs && rs[id].draft == draft && rs[id].assets.Stored? && rs[id].assets.manifest == m
    && rs[id].run == m.run && WellFormed(m)
  }

  predicate OneDraft(rs: Releases) {
    forall a, b :: a in rs && b in rs && rs[a].draft && rs[b].draft ==> a == b
  }

  predicate NoDraft(rs: Releases) {
    forall id :: id in rs ==> !rs[id].draft
  }

  /** The latest release is published and holds what its manifest says; so is its parent. */
  predicate LatestSound(rs: Releases, latest: Option<nat>) {
    latest.Some? ==>
      var id := latest.value;
      && id in rs && rs[id].assets.Stored?
      && var m := rs[id].assets.manifest;
         && Holds(rs, id, m, false) && rs[id].assets.data == m.database
         && (m.parent.Some? ==> m.parent.value.id != id && Holds(rs, m.parent.value.id, m.parent.value.manifest, false))
  }

  function LatestManifest(rs: Releases, latest: Option<nat>): Manifest
    requires latest.Some? && LatestSound(rs, latest)
  {
    rs[latest.value].assets.manifest
  }

  /** Nothing is published but the latest release and its parent. */
  predicate Pruned(rs: Releases, latest: Option<nat>)
    requires LatestSound(rs, latest)
  {
    forall id :: id in rs && !rs[id].draft ==>
      latest.Some? && (id == latest.value || Some(id) == ParentId(LatestManifest(rs, latest)))
  }

  /** Nothing is published but the latest release, its parent and its grandparent. */
  predicate Retained(rs: Releases, latest: Option<nat>)
    requires LatestSound(rs, latest)
  {
    forall id :: id in rs && !rs[id].draft ==>
      latest.Some? &&
      var m := LatestManifest(rs, latest);
      id == latest.value || Some(id) == ParentId(m) || Some(id) == GrandparentId(m)
  }

  /** A published release was restored in full, and its parent was the latest just before. */
  predicate Good(e: Event) {
    match e
    case Published(_, lineage, latestBefore, restored) => restored && lineage == latestBefore
    case Deleted(id, latest, parent) => id != latest && id != parent
  }

  class GitHub {
    const reply: nat -> Reply
    const garble: (nat, Data) -> Data  // what the n-th upload stores for the data it is given
    const prunes: bool                 // every restore prunes
    var calls: nat
    var releases: Releases
    var latest: Option<nat>
    var nextId: nat
    var head: Commit
    var commits: seq<CommitInfo>
    ghost var restored: seq<Receipt>   // each full restore that was found equal to its manifest
    ghost var history: seq<Event>

    /** An archive with its first commit and no checkpoint yet. */
    constructor (reply: nat -> Reply, garble: (nat, Data) -> Data, prunes: bool)
      ensures Valid() && releases == map[] && latest == None && history == [] && calls == 0
      ensures this.reply == reply && this.garble == garble && this.prunes == prunes
    {
      this.reply, this.garble, this.prunes := reply, garble, prunes;
      calls, releases, latest, nextId := 0, map[], None, 1;
      head, commits := 0, [CommitInfo(None, None)];
      restored, history := [], [];
    }

    ghost predicate Valid()
      reads this
    {
      && (forall id :: id in releases ==> id < nextId)
      && |releases| <= LISTING
      && OneDraft(releases)
      && LatestSound(releases, latest)
      && (prunes ==> Retained(releases, latest))
      && (prunes && !NoDraft(releases) ==> Pruned(releases, latest))
      && (forall r :: r in restored ==> r.data == r.ref.manifest.database)
      && (forall i :: 0 <= i < |history| ==> Good(history[i]))
      && head < |commits|
    }

    /** The next calls are answered. */
    ghost predicate Calm(n: nat)
      reads this`calls
    {
      forall k :: calls <= k < calls + n ==> reply(k) == Answered
    }

    /** Uploads store what they are given. */
    ghost predicate Honest() {
      forall n, d :: garble(n, d) == d
    }

    /** A read, or any other step that may fail without an effect. */
    method Try() returns (ok: bool)
      modifies this`calls
      ensures ok == (reply(old(calls)) == Answered) && calls == old(calls) + 1
    {
      ok := reply(calls) == Answered;
      calls := calls + 1;
    }

    /** A write takes effect unless it is refused, and reports success only when its response arrives. */
    method Write() returns (done: bool, ok: bool)
      modifies this`calls
      ensures done == (reply(old(calls)) != Refused) && ok == (reply(old(calls)) == Answered) && calls == old(calls) + 1
    {
      done, ok := reply(calls) != Refused, reply(calls) == Answered;
      calls := calls + 1;
    }

    // -------------------------------------------------------------- reads

    /** The receipt is that of the latest release. */
    predicate Current(r: Receipt)
      reads this`releases, this`latest
    {
      latest == Some(r.ref.id) && Holds(releases, r.ref.id, r.ref.manifest, false) && releases[r.ref.id].assets.data == r.data
    }

    /** A release with all its assets. */
    predicate Complete(id: nat, draft: bool)
      reads this`releases
    {
      id in releases && releases[id].assets.Stored? && Holds(releases, id, releases[id].assets.manifest, draft)
    }

    /** One whose data is what its manifest says. */
    predicate Restorable(id: nat, draft: bool)
      reads this`releases
    {
      Complete(id, draft) && releases[id].assets.data == releases[id].assets.manifest.database
    }

    function ReceiptOf(id: nat): Receipt
      requires id in releases && releases[id].assets.Stored?
      reads this`releases
    {
      Receipt(Ref(id, releases[id].assets.manifest), releases[id].assets.data)
    }

    /** The manifest of a release with all its assets, in the expected draft state. */
    method ReleaseManifest(id: nat, draft: bool) returns (r: Option<Receipt>)
      modifies this`calls
      ensures r.Some? ==> r.value.ref.id == id && Holds(releases, id, r.value.ref.manifest, draft)
      ensures r.Some? ==> releases[id].assets.data == r.value.data
      ensures calls == old(calls) + 1
      ensures r.Some? <==> reply(old(calls)) == Answered && Complete(id, draft)
    {
      r := None;
      var ok := Try();
      if ok && id in releases && releases[id].draft == draft && releases[id].assets.Stored?
         && releases[id].run == releases[id].assets.manifest.run && WellFormed(releases[id].assets.manifest) {
        r := Some(Receipt(Ref(id, releases[id].assets.manifest), releases[id].assets.data));
      }
    }

    /** Downloads and restores a release; only a restored database that matches its manifest passes. */
    method DownloadDatabase(id: nat, draft: bool, expected: Option<Receipt>) returns (r: Option<Receipt>)
      requires Valid()
      modifies this`calls, this`restored
      ensures Valid() && restored == old(restored) + if r.Some? then [r.value] else []
      ensures r.Some? ==> r.value.ref.id == id && Holds(releases, id, r.value.ref.manifest, draft)
      ensures r.Some? ==> releases[id].assets.data == r.value.data && (expected.Some? ==> r == expected)
      ensures old(Calm(2)) && Restorable(id, draft) && (expected.None? || expected.value == ReceiptOf(id)) ==>
        r.Some? && calls == old(calls) + 2
    {
      r := ReleaseManifest(id, draft);
      if r.None? || (expected.Some? && r != expected) {
        return None;
      }
      var ok := Try();
      if !ok || r.value.data != r.value.ref.manifest.database {
        return None;
      }
      restored := restored + [r.value];
    }

    /** The parent in a receipt is still the latest release and still what was restored. */
    method CheckParent(parent: Receipt) returns (ok: bool)
      modifies this`calls
      ensures ok ==> Current(parent)
      ensures ok ==> calls == old(calls) + 2
      ensures old(Calm(2)) && Current(parent) ==> ok
    {
      ok := Try();
      if !ok || latest != Some(parent.ref.id) {
        return false;
      }
      var r := ReleaseManifest(parent.ref.id, false);
      ok := r == Some(parent);
    }

    method RequireNoDrafts() returns (ok: bool)
      modifies this`calls
      ensures ok <==> reply(old(calls)) == Answered && |releases| < LISTING && NoDraft(releases)
      ensures calls == old(calls) + 1
    {
      ok := Try();
      ok := ok && |releases| < LISTING && NoDraft(releases);
    }

    // -------------------------------------------------------------- writes

    method CreateDraft(run: nat, target: Commit) returns (id: Option<nat>)
      requires Valid() && NoDraft(releases) && |releases| < LISTING && (prunes ==> Pruned(releases, latest))
      modifies this`calls, this`releases, this`nextId
      ensures Valid()
      ensures id.Some? ==> id.value in releases && releases[id.value].draft && releases[id.value].run == run
      ensures id.Some? ==> forall other :: other in releases && releases[other].draft ==> other == id.value
      ensures forall other :: other in old(releases) ==> other in releases && releases[other] == old(releases)[other]
      ensures id.Some? ==> id.value !in old(releases)
      ensures id.Some? ==> releases == old(releases)[id.value := Release(run, true, target, Incomplete)]
      ensures reply(old(calls)) == Answered ==> id.Some?
      ensures calls == old(calls) + 1
    {
      var done, ok := Write();
      id := None;
      if done {
        DraftKeeps(releases, latest, nextId, Release(run, true, target, Incomplete));
        releases := releases[nextId := Release(run, true, target, Incomplete)];
        id := if ok then Some(nextId) else None;
        nextId := nextId + 1;
      }
    }

    /** Uploads the assets of a draft; what is stored may be incomplete or not what was sent. */
    method Upload(id: nat, m: Manifest) returns (ok: bool)
      requires Valid() && id in releases && releases[id].draft
      modifies this`calls, this`releases
      ensures Valid()
      ensures releases.Keys == old(releases.Keys) && releases[id].draft
      ensures forall other :: other in releases && other != id ==> releases[other] == old(releases)[other]
      ensures ok == (reply(old(calls)) == Answered) && calls == old(calls) + 1
      ensures ok ==> releases == old(releases)[id := old(releases)[id].(assets := Stored(m, garble(calls, m.database)))]
    {
      var done;
      done, ok := Write();
      var assets := if done then Stored(m, garble(calls, m.database)) else Incomplete;
      var r := releases[id].(assets := assets);
      DraftKeeps(releases, latest, id, r);
      releases := releases[id := r];
    }

    /** Makes a draft the latest release. */
    method Publish(current: Receipt) returns (ok: bool)
      requires Valid() && current in restored
      requires Holds(releases, current.ref.id, current.ref.manifest, true) && releases[current.ref.id].assets.data == current.data
      requires latest == ParentId(current.ref.manifest)
      requires latest.Some? ==> Holds(releases, latest.value, current.ref.manifest.parent.value.manifest, false)
      modifies this`calls, this`releases, this`latest, this`history
      ensures Valid()
      ensures releases.Keys == old(releases.Keys) && old(history) <= history
      ensures ok ==> latest == Some(current.ref.id) && Holds(releases, current.ref.id, current.ref.manifest, false)
      ensures ok ==> NoDraft(releases) && releases[current.ref.id].assets.data == current.data
      ensures (releases == old(releases) && latest == old(latest))
        || (releases == Undrafted(old(releases), current.ref.id) && latest == Some(current.ref.id))
      ensures ok == (reply(old(calls)) == Answered) && calls == old(calls) + 1
      ensures ok ==> releases == Undrafted(old(releases), current.ref.id)
    {
      var done;
      done, ok := Write();
      if done {
        PublishKeeps(releases, latest, current, prunes);
        history := history + [Event.Published(current.ref.id, ParentId(current.ref.manifest), latest, current in restored)];
        releases := releases[current.ref.id := releases[current.ref.id].(draft := false)];
        latest := Some(current.ref.id);
      }
    }

    /** Deletes a published release that is neither the latest nor its parent. */
    method Delete(id: nat) returns (ok: bool)
      requires Valid() && latest.Some? && id in releases && !releases[id].draft && id != latest.value
      requires LatestManifest(releases, latest).parent.Some? && id != LatestManifest(releases, latest).parent.value.id
      modifies this`calls, this`releases, this`history
      ensures Valid() && old(history) <= history && (ok ==> releases == old(releases) - {id})
      ensures releases == old(releases) || releases == old(releases) - {id}
    {
      var done;
      done, ok := Write();
      if done {
        DeleteKeeps(releases, latest, id);
        Fewer(releases, id);
        history := history + [Deleted(id, latest.value, LatestManifest(releases, latest).parent.value.id)];
        releases := releases - {id};
      }
    }

    /** Pushes a child of the expected head; the lease refuses any other head. */
    method Push(baseline: Commit, bound: Ref) returns (ok: bool)
      requires Valid()
      modifies this`calls, this`head, this`commits
      ensures Valid()
      ensures if head == old(head) then commits == old(commits)
              else old(head) == baseline && head == |old(commits)| && commits == old(commits) + [CommitInfo(Some(baseline), Some(bound))]
      ensures ok ==> head != old(head)
    {
      var done;
      done, ok := Write();
      if head != baseline {
        return false;
      }
      if done {
        commits := commits + [CommitInfo(Some(baseline), Some(bound))];
        head := |commits| - 1;
      }
    }

    // -------------------------------------------------------------- restore, save, verify, promote

    /** Deletes exactly the grandparent that the parent's own manifest names, or stops. */
    method RetireGrandparent(current: Receipt) returns (ok: bool)
      requires Valid() && latest == Some(current.ref.id) && LatestManifest(releases, latest) == current.ref.manifest
      modifies this`calls, this`releases, this`history
      ensures Valid() && old(history) <= history
      ensures LatestManifest(releases, latest) == current.ref.manifest
      ensures ok && old(Retained(releases, latest)) ==> Pruned(releases, latest)
      ensures forall id :: id in old(releases) && id !in releases ==> Some(id) == GrandparentId(current.ref.manifest)
      ensures forall id :: id in releases ==> id in old(releases) && releases[id] == old(releases)[id]
      ensures old(NoDraft(releases)) ==> NoDraft(releases)
    {
      var grandparent;
      ok, grandparent := FindGrandparent(current);
      if !ok || grandparent.None? || grandparent.value.id !in releases {
        return;
      }
      var candidate := ReleaseManifest(grandparent.value.id, false);
      if candidate.None? || candidate.value.ref != grandparent.value {
        return false;
      }
      ok := Try();
      if !ok || latest != Some(current.ref.id) {
        return false;
      }
      ok := Delete(grandparent.value.id);
      if ok {
        ok := Try();
      }
    }

    /** The grandparent that the parent's own manifest names, None when there is none. */
    method FindGrandparent(current: Receipt) returns (ok: bool, r: Option<Ref>)
      requires Valid() && latest == Some(current.ref.id) && LatestManifest(releases, latest) == current.ref.manifest
      modifies this`calls
      ensures ok && r.Some? ==>
        && GrandparentId(current.ref.manifest) == Some(r.value.id)
        && r.value.id != current.ref.id && Some(r.value.id) != ParentId(current.ref.manifest)
      ensures ok && r.None? ==> GrandparentId(current.ref.manifest) == None
    {
      var parent := current.ref.manifest.parent;
      if parent.None? {
        return true, None;
      }
      var found := ReleaseManifest(parent.value.id, false);
      if found.None? || found.value.ref != parent.value || parent.value.id == current.ref.id {
        return false, None;
      }
      r := found.value.ref.manifest.parent;
      if r.None? {
        return true, None;
      }
      if r.value.id == parent.value.id || r.value.id == current.ref.id {
        return false, None;
      }
      ok := Try();
    }

    /** Restores the latest release; a pruning restore holds while a draft is pending. */
    method Restore() returns (r: Option<Receipt>)
      requires Valid()
      modifies this`calls, this`releases, this`restored, this`history
      ensures Valid() && old(history) <= history
      ensures r.Some? ==> r.value in restored && latest == Some(r.value.ref.id)
      ensures r.Some? ==> LatestManifest(releases, latest) == r.value.ref.manifest && Current(r.value)
      ensures r.Some? && prunes ==> NoDraft(releases) && Pruned(releases, latest)
      ensures !prunes ==> releases == old(releases)
      ensures old(Calm(3)) && !prunes && latest.Some? ==> r.Some? && calls == old(calls) + 3
    {
      r := None;
      if prunes {
        var clear := RequireNoDrafts();
        if !clear {
          return;
        }
      }
      var ok := Try();
      if !ok || latest.None? {
        return;
      }
      r := DownloadDatabase(latest.value, false, None);
      if r.Some? && prunes {
        ok := RetireGrandparent(r.value);
        if !ok {
          return None;
        }
      }
    }

    /** The listing is complete, no draft is pending, and the receipt is current; without one nothing is listed. */
    predicate Savable(receipt: Option<Receipt>)
      reads this`releases, this`latest
    {
      |releases| < LISTING && NoDraft(releases) && if receipt.Some? then Current(receipt.value) else releases == map[]
    }

    method AdmitSave(receipt: Option<Receipt>) returns (ok: bool)
      modifies this`calls
      ensures ok ==> Savable(receipt) && calls == old(calls) + SaveCalls(receipt) - 4
      ensures old(Calm(SaveCalls(receipt) - 4)) && Savable(receipt) ==> ok
    {
      ok := RequireNoDrafts();
      if ok && receipt.Some? {
        ok := CheckParent(receipt.value);
      } else {
        ok := ok && releases == map[];
      }
    }

    /** Creates a draft, uploads its assets and looks at what has been stored. */
    method StoreDraft(run: nat, m: Manifest) returns (r: Option<Receipt>)
      requires Valid() && NoDraft(releases) && |releases| < LISTING && (prunes ==> Pruned(releases, latest))
      requires WellFormed(m) && m.run == run
      modifies this`calls, this`releases, this`nextId
      ensures Valid()
      ensures forall id :: id in old(releases) ==> id in releases && releases[id] == old(releases)[id]
      ensures r.Some? ==>
        && r.value.ref.manifest == m && r.value.ref.id !in old(releases)
        && releases == old(releases)[r.value.ref.id := Release(run, true, m.archive, Stored(m, r.value.data))]
        && calls == old(calls) + 3 && (Honest() ==> r.value.data == m.database)
      ensures old(Calm(3)) ==> r.Some?
    {
      r := None;
      var id := CreateDraft(run, m.archive);
      if id.None? {
        return;
      }
      var ok := Upload(id.value, m);
      if !ok {
        return;
      }
      DraftFilled(old(releases), id.value, Release(run, true, m.archive, Incomplete), releases[id.value]);
      r := ReleaseManifest(id.value, true);
      if r.Some? && r.value.ref.manifest != m {
        r := None;
      }
    }

    /** The number of calls of a save that succeeds. */
    function SaveCalls(receipt: Option<Receipt>): nat {
      if receipt.Some? then 7 else 5
    }

    /** A save for which every call is answered and every check passes. */
    ghost predicate SaveIsAnswered(receipt: Option<Receipt>, outcome: Outcome)
      reads this`calls, this`releases, this`latest
    {
      Calm(SaveCalls(receipt)) && Savable(receipt) && (receipt.None? <==> outcome == Migration)
    }

    /** The manifest of a checkpoint over the parent in a receipt. */
    function ManifestFor(receipt: Option<Receipt>, run: nat, outcome: Outcome, data: Data): Manifest
      reads this`head
    {
      Manifest(run, outcome, head, if receipt.Some? then Some(receipt.value.ref) else None, data)
    }

    /**
     Uploads a new checkpoint as a draft.  `receipt` is the parent restored before, None for the first
     checkpoint, which only an empty repository may receive.
     */
    method Save(receipt: Option<Receipt>, run: nat, outcome: Outcome, data: Data) returns (r: Option<Saved>)
      requires Valid() && (prunes && receipt.Some? ==> Pruned(releases, latest))
      modifies this`calls, this`releases, this`nextId
      ensures Valid() && (old(releases) != releases ==> NoDraft(old(releases)) && |old(releases)| < LISTING)
      ensures forall id :: id in old(releases) ==> id in releases && releases[id] == old(releases)[id]
      ensures r.Some? ==>
        var m, c := ManifestFor(receipt, run, outcome, data), r.value.current;
        && r.value.parent == receipt && c.ref.manifest == m && WellFormed(m) && c.ref.id !in old(releases)
        && releases == old(releases)[c.ref.id := Release(run, true, head, Stored(m, c.data))]
        && (Honest() ==> c.data == data)
      ensures r.Some? && (receipt.None? ==> latest.None?) ==> Promotable(r.value)
      ensures r.Some? ==> old(Savable(receipt)) && calls == old(calls) + SaveCalls(receipt)
      ensures old(SaveIsAnswered(receipt, outcome)) ==> r.Some?
    {
      r := None;
      var ok := AdmitSave(receipt);
      if !ok {
        return;
      }
      ok := Try();
      var m := ManifestFor(receipt, run, outcome, data);
      if !ok || !WellFormed(m) {
        return;
      }
      assert prunes && receipt.None? ==> Pruned(releases, latest);
      var current := StoreDraft(run, m);
      if current.Some? {
        r := Some(Saved(receipt, current.value));
      }
    }

    /** Only a complete restore of the draft lets it pass. */
    method VerifySave(saved: Saved) returns (ok: bool)
      requires Valid()
      modifies this`calls, this`restored
      ensures Valid() && restored == old(restored) + if ok then [saved.current] else []
      ensures ok ==> Holds(releases, saved.current.ref.id, saved.current.ref.manifest, true)
      ensures ok ==> saved.current.data == saved.current.ref.manifest.database
      ensures old(Calm(2)) && Restorable(saved.current.ref.id, true) && saved.current == ReceiptOf(saved.current.ref.id) ==>
        ok && calls == old(calls) + 2
    {
      var r := DownloadDatabase(saved.current.ref.id, true, Some(saved.current));
      ok := r.Some?;
    }

    /** The number of calls of a promotion up to the publication. */
    function PromoteCalls(saved: Saved): nat {
      if saved.parent.Some? then 4 else 3
    }

    /** The draft is the one that was saved and its parent is still the latest release. */
    predicate Promotable(saved: Saved)
      reads this`releases, this`latest
    {
      var c := saved.current;
      && c.ref.manifest.parent == (if saved.parent.Some? then Some(saved.parent.value.ref) else None)
      && Holds(releases, c.ref.id, c.ref.manifest, true) && releases[c.ref.id].assets.data == c.data
      && if saved.parent.Some? then Current(saved.parent.value) else latest.None?
    }

    method AdmitPromotion(saved: Saved) returns (ok: bool)
      modifies this`calls
      ensures ok ==> Promotable(saved) && calls == old(calls) + PromoteCalls(saved) - 1
      ensures old(Calm(PromoteCalls(saved) - 1)) && Promotable(saved) ==> ok
    {
      var current := saved.current;
      if (if saved.parent.Some? then Some(saved.parent.value.ref) else None) != current.ref.manifest.parent {
        return false;
      }
      var draft := ReleaseManifest(current.ref.id, true);
      if draft != Some(current) {
        return false;
      }
      if saved.parent.Some? {
        ok := CheckParent(saved.parent.value);
      } else {
        ok := Try();
        ok := ok && latest.None?;
      }
    }

    /** The releases after a draft was published. */
    function Undrafted(rs: Releases, id: nat): Releases
      requires id in rs
    {
      rs[id := rs[id].(draft := false)]
    }

    /** Publishes a verified draft whose parent is still the latest release, and looks again. */
    method PublishSave(saved: Saved) returns (ok: bool)
      requires Valid() && saved.current in restored
      modifies this`calls, this`releases, this`latest, this`history
      ensures Valid() && old(history) <= history && (prunes && ok ==> Retained(releases, latest))
      ensures latest == old(latest) || (latest == Some(saved.current.ref.id) && old(latest) == ParentId(saved.current.ref.manifest))
      ensures ok ==> old(Promotable(saved)) && Published(saved, old(releases))
      ensures old(Calm(PromoteCalls(saved))) && old(Promotable(saved)) && reply(old(calls) + PromoteCalls(saved)) != Answered ==>
        !ok && calls == old(calls) + PromoteCalls(saved) + 1 && Published(saved, old(releases))
    {
      ok := AdmitPromotion(saved);
      if !ok {
        return;
      }
      ok := Publish(saved.current);
      if ok {
        ok := Try();
      }
    }

    /** The draft has become the latest release, and nothing else has changed. */
    predicate Published(saved: Saved, before: Releases)
      reads this`releases, this`latest
    {
      var c := saved.current;
      && latest == Some(c.ref.id) && c.ref.id in before && releases == Undrafted(before, c.ref.id)
      && NoDraft(releases) && LatestSound(releases, latest) && LatestManifest(releases, latest) == c.ref.manifest
    }

    /**
     Publishes a verified draft whose parent is still the latest release, then retires the grandparent.
     When every call up to the publication is answered and the next one is not, the release is published
     and nothing is retired.
     */
    method PromoteSave(saved: Saved) returns (ok: bool)
      requires Valid() && saved.current in restored
      modifies this`calls, this`releases, this`latest, this`history
      ensures Valid() && old(history) <= history
      ensures ok ==> latest == Some(saved.current.ref.id) && NoDraft(releases)
      ensures latest == old(latest) || (latest == Some(saved.current.ref.id) && old(latest) == ParentId(saved.current.ref.manifest))
      ensures ok && prunes ==> Pruned(releases, latest)
      ensures ok ==>
        && saved.current.ref.id in old(releases) && saved.current.ref.id in releases
        && releases[saved.current.ref.id] == Undrafted(old(releases), saved.current.ref.id)[saved.current.ref.id]
        && LatestManifest(releases, latest) == saved.current.ref.manifest
      ensures old(Calm(PromoteCalls(saved))) && old(Promotable(saved)) && reply(old(calls) + PromoteCalls(saved)) != Answered ==>
        !ok && calls == old(calls) + PromoteCalls(saved) + 1 && Published(saved, old(releases))
    {
      ok := PublishSave(saved);
      if ok {
        ok := RetireGrandparent(saved.current);
      }
    }
  }

  // ---------------------------------------------------------------- each write keeps the remote sound

  /** A new draft, or other assets of the only one, do not touch what is published. */
  lemma DraftKeeps(rs: Releases, latest: Option<nat>, id: nat, r: Release)
    requires OneDraft(rs) && LatestSound(rs, latest) && r.draft
    requires if id in rs then rs[id].draft else NoDraft(rs)
    ensures OneDraft(rs[id := r]) && LatestSound(rs[id := r], latest)
    ensures latest.Some? ==> LatestManifest(rs[id := r], latest) == LatestManifest(rs, latest)
    ensures Retained(rs, latest) ==> Retained(rs[id := r], latest)
    ensures Pruned(rs, latest) ==> Pruned(rs[id := r], latest)
  {
  }

  lemma Fewer(rs: Releases, id: nat)
    ensures |rs - {id}| <= |rs|
  {
    assert (rs - {id}).Keys == rs.Keys - {id};
    assert |rs.Keys - {id}| <= |rs.Keys|;
  }

  lemma DraftFilled(rs: Releases, id: nat, empty: Release, full: Release)
    ensures rs[id := empty][id := full] == rs[id := full]
  {
  }

  lemma PublishKeeps(rs: Releases, latest: Option<nat>, current: Receipt, prunes: bool)
    requires OneDraft(rs) && LatestSound(rs, latest) && (prunes ==> Pruned(rs, latest))
    requires Holds(rs, current.ref.id, current.ref.manifest, true)
    requires current.data == current.ref.manifest.database && rs[current.ref.id].assets.data == current.data
    requires latest == ParentId(current.ref.manifest)
    requires latest.Some? ==> Holds(rs, latest.value, current.ref.manifest.parent.value.manifest, false)
    ensures var after := rs[current.ref.id := rs[current.ref.id].(draft := false)];
      && NoDraft(after) && LatestSound(after, Some(current.ref.id))
      && (prunes ==> Retained(after, Some(current.ref.id)))
  {
  }

  lemma DeleteKeeps(rs: Releases, latest: Option<nat>, id: nat)
    requires OneDraft(rs) && LatestSound(rs, latest) && latest.Some? && id != latest.value
    requires Some(id) != ParentId(LatestManifest(rs, latest))
    ensures OneDraft(rs - {id}) && LatestSound(rs - {id}, latest)
    ensures LatestManifest(rs - {id}, latest) == LatestManifest(rs, latest)
    ensures Retained(rs, latest) ==> Retained(rs - {id}, latest)
    ensures Pruned(rs, latest) ==> Pruned(rs - {id}, latest)
  {
  }

  /** A commit of the archive, and the checkpoint it was exported from. */
  datatype CommitInfo = CommitInfo(parent: Option<Commit>, bound: Option<Ref>)
}
