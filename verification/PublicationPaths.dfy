/**
 The paths a manifest owns in the archive (internal/share/publication_files.go).  A path is the list
 of its slash-separated components, so `path.Clean(name) == name` for a relative name says that no
 component is empty or a dot.
 */
module PublicationPaths {
  import opened Options
  import opened Texts

  type Path = seq<string>
  type Content = string

  const MANIFEST: Path := ["manifest.json"]
  const PRODUCER: Path := ["producer.json"]
  const PRODUCER_KEY: Path := ["producer"]
  const PRODUCER_NAME: string := "producer.json"

  const SNAPSHOT_TABLES: seq<string> :=
    ["guilds", "channels", "members", "messages", "message_events", "message_attachments", "mention_events",
     "sync_state"]

  datatype Table = Table(name: string, file: Option<Path>, files: seq<Path>, fileManifests: seq<Path>)
  /** The three strings are the sanitised path segments of the provider, model and input version. */
  datatype Embedding = Embedding(provider: string, model: string, inputVersion: string, files: seq<Path>)
  /** `aliases` is the manifest's free-form file map. */
  datatype Manifest =
    Manifest(tables: seq<Table>, embeddings: seq<Embedding>, media: seq<Path>, aliases: map<Path, string>)

  // ---------------------------------------------------------------- names

  predicate BadChar(c: char) {
    c == '/' || c == '\\' || c == 0 as char || c == '\r' || c == '\n' || c == ':'
  }

  predicate IsDotGit(part: string) {
    |part| == 4 && part[0] == '.' && (part[1] == 'g' || part[1] == 'G')
    && (part[2] == 'i' || part[2] == 'I') && (part[3] == 't' || part[3] == 'T')
  }

  predicate SafePart(part: string) {
    part != "" && part != "." && part != ".." && !IsDotGit(part)
    && forall i :: 0 <= i < |part| ==> !BadChar(part[i])
  }

  predicate Safe(name: Path) {
    name != [] && forall i :: 0 <= i < |name| ==> SafePart(name[i])
  }

  /** At least six digits, then ".jsonl.gz". */
  predicate IsShard(part: string) {
    |part| >= 15 && AllDigits(part[..|part| - 9]) && part[|part| - 9..] == ".jsonl.gz"
  }

  predicate IsGeneration(part: string) {
    |part| == 32 && forall i :: 0 <= i < 32 ==> '0' <= part[i] <= '9' || 'a' <= part[i] <= 'f'
  }

  /** The name lies under the prefix; a shard lies directly in it. */
  predicate Under(name: Path, prefix: Path, shard: bool) {
    && Safe(name) && |name| > |prefix| && name[..|prefix|] == prefix
    && (shard ==> |name| == |prefix| + 1 && IsShard(name[|prefix|]))
  }

  predicate IsLegacy(table: string, name: Path) {
    name == ["tables", table + ".jsonl"] || name == ["tables", table + ".jsonl.gz"]
  }

  predicate InGeneration(table: string, name: Path) {
    |name| == 5 && name[0] == "tables" && name[1] == ".generations" && IsGeneration(name[2]) && name[3] == table
  }

  /** What a table may own: a legacy file, or a shard in its directory or in a generation's. */
  predicate OwnedByTable(table: string, name: Path) {
    || IsLegacy(table, name)
    || Under(name, ["tables", table], true)
    || (InGeneration(table, name) && Under(name, name[..4], true))
  }

  function TableNames(t: Table): seq<Path> {
    t.files + (if t.file.Some? then [t.file.value] else []) + t.fileManifests
  }

  function EmbeddingPrefix(e: Embedding): Path {
    ["embeddings", e.provider, e.model, e.inputVersion]
  }

  predicate TableOwned(t: Table) {
    t.name in SNAPSHOT_TABLES && forall name :: name in TableNames(t) ==> OwnedByTable(t.name, name)
  }

  predicate EmbeddingOwned(e: Embedding) {
    forall name :: name in e.files ==> Under(name, EmbeddingPrefix(e), true)
  }

  /** Every path the manifest names belongs to it. */
  predicate Owned(m: Manifest) {
    && (PRODUCER_KEY in m.aliases ==> m.aliases[PRODUCER_KEY] == PRODUCER_NAME)
    && (forall t :: t in m.tables ==> TableOwned(t))
    && (forall e :: e in m.embeddings ==> EmbeddingOwned(e))
    && (forall name :: name in m.media ==> Under(name, ["media"], false))
  }

  ghost predicate Named(m: Manifest, name: Path) {
    || name == MANIFEST
    || (name == PRODUCER && PRODUCER_KEY in m.aliases)
    || (exists t :: t in m.tables && name in TableNames(t))
    || (exists e :: e in m.embeddings && name in e.files)
    || name in m.media
  }

  // ---------------------------------------------------------------- computing the owned paths

  method AddTable(t: Table, files: set<Path>) returns (ok: bool, r: set<Path>)
    ensures ok <==> TableOwned(t)
    ensures ok ==> r == files + set name | name in TableNames(t)
  {
    r := files;
    if t.name !in SNAPSHOT_TABLES {
      return false, r;
    }
    var names := TableNames(t);
    for i := 0 to |names|
      invariant forall k :: 0 <= k < i ==> OwnedByTable(t.name, names[k])
      invariant r == files + set k | 0 <= k < i :: names[k]
    {
      var name := names[i];
      if !IsLegacy(t.name, name) {
        var prefix := ["tables", t.name];
        if InGeneration(t.name, name) {
          prefix := name[..4];
        }
        if !Under(name, prefix, true) {
          assert name in TableNames(t) && !OwnedByTable(t.name, name);
          return false, r;
        }
      }
      r := r + {name};
    }
    ok := true;
  }

  method AddAll(names: seq<Path>, prefix: Path, shard: bool, files: set<Path>) returns (ok: bool, r: set<Path>)
    ensures ok <==> forall name :: name in names ==> Under(name, prefix, shard)
    ensures ok ==> r == files + set name | name in names
  {
    r := files;
    for i := 0 to |names|
      invariant forall k :: 0 <= k < i ==> Under(names[k], prefix, shard)
      invariant r == files + set k | 0 <= k < i :: names[k]
    {
      if !Under(names[i], prefix, shard) {
        return false, r;
      }
      r := r + {names[i]};
    }
    ok := true;
  }

  /** The owned paths, None when the manifest names a path it may not own. */
  method PathsOf(m: Manifest) returns (r: Option<set<Path>>)
    ensures r.Some? <==> Owned(m)
    ensures r.Some? ==> forall name :: name in r.value <==> Named(m, name)
  {
    var files := {MANIFEST};
    if PRODUCER_KEY in m.aliases {
      if m.aliases[PRODUCER_KEY] != PRODUCER_NAME {
        return None;
      }
      files := files + {PRODUCER};
    }
    ghost var fixed := files;
    for i := 0 to |m.tables|
      invariant forall k :: 0 <= k < i ==> TableOwned(m.tables[k])
      invariant forall name :: name in files <==>
        name in fixed || exists k :: 0 <= k < i && name in TableNames(m.tables[k])
    {
      var ok, more := AddTable(m.tables[i], files);
      if !ok {
        return None;
      }
      files := more;
    }
    ghost var afterTables := files;
    for i := 0 to |m.embeddings|
      invariant forall k :: 0 <= k < i ==> EmbeddingOwned(m.embeddings[k])
      invariant forall name :: name in files <==>
        name in afterTables || exists k :: 0 <= k < i && name in m.embeddings[k].files
    {
      var e := m.embeddings[i];
      var ok, more := AddAll(e.files, EmbeddingPrefix(e), true, files);
      if !ok {
        assert e in m.embeddings && !EmbeddingOwned(e);
        return None;
      }
      files := more;
    }
    var ok, more := AddAll(m.media, ["media"], false, files);
    if !ok {
      return None;
    }
    r := Some(more);
  }

  // ---------------------------------------------------------------- what ownership guarantees

  lemma SnapshotNameIsSafe(table: string)
    requires table in SNAPSHOT_TABLES
    ensures SafePart(table) && SafePart(table + ".jsonl") && SafePart(table + ".jsonl.gz")
    ensures table != ".generations"
  {
    PlainIsSafe(table, ".jsonl");
    PlainIsSafe(table, ".jsonl.gz");
  }

  lemma PlainIsSafe(table: string, suffix: string)
    requires table in SNAPSHOT_TABLES && (suffix == ".jsonl" || suffix == ".jsonl.gz")
    ensures SafePart(table + suffix)
  {
    forall i | 0 <= i < |table + suffix| ensures !BadChar((table + suffix)[i]) {
      if i >= |table| {
        assert (table + suffix)[i] == suffix[i - |table|];
      }
    }
  }

  /** No owned path leaves the archive or touches Git's directory. */
  lemma OwnedPathsAreSafe(m: Manifest, name: Path)
    requires Owned(m) && Named(m, name)
    ensures Safe(name)
  {
    if t :| t in m.tables && name in TableNames(t) {
      SnapshotNameIsSafe(t.name);
      assert SafePart("tables");
      assert OwnedByTable(t.name, name);
    } else if e :| e in m.embeddings && name in e.files {
      assert EmbeddingOwned(e);
    } else if name !in m.media {
      assert SafePart("manifest.json") && SafePart("producer.json");
    }
  }
}
