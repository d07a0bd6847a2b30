/**
 The source change feed (internal/store/change_feed.go).

 Triggers append one log entry per changed row, compaction removes a prefix of the log, and a
 generation marks history that readers must not replay.  A `Db` value is the feed's whole
 committed state; each function below is the effect of one committed transaction on it.  The
 mutable store whose methods are proved to have these effects is in ChangeFeedStore.dfy, the
 theorems about whole runs are in ChangeFeedRuns.dfy.
 */
module ChangeFeed {
  import opened Options

  type Table = string
  type Key = seq<string>
  type Row = seq<string>
  type Content = map<Key, Row>

  datatype Op = Inserted | Updated | Deleted

  /** A change_log row without its sequence number; it is also what an entry's digest identifies. */
  datatype Entry = Entry(table: Table, op: Op, key: Key, at: int)

  datatype LogRow = LogRow(no: nat, entry: Entry)

  /** A change_feed_tables row: generation, generation_id and generation_seq. */
  datatype Generation = Generation(count: nat, id: nat, start: nat)

  /** One row change made by any writer. */
  datatype Change =
    | Insert(table: Table, key: Key, row: Row)
    | Replace(table: Table, key: Key, row: Row)
    | Update(table: Table, key: Key, newKey: Key, row: Row)
    | Delete(table: Table, key: Key)

  /**
   `armed` are the tables whose installed triggers are the expected ones, `matching` those whose
   stored schema hash and contract are the expected ones.  `hasLog`, `hasState` and `metaTable` say
   which of change_log, change_feed_tables and change_feed_meta exist, `hasMeta` that the last has its
   row; `served` says that the baseline contract version and the change_feed_contracts rows are the
   ones this binary serves.
   */
  datatype Db = Db(
    tracked: set<Table>,
    rows: map<Table, Content>,
    log: seq<LogRow>,
    counter: nat,
    floor: nat,
    floorEntry: Option<Entry>,
    generations: map<Table, Generation>,
    armed: set<Table>,
    matching: set<Table>,
    served: bool,
    hasLog: bool,
    hasState: bool,
    metaTable: bool,
    hasMeta: bool)

  const COMPACTION_BATCH: nat := 5000

  predicate Intact(db: Db) {
    db.hasLog && db.hasState && db.hasMeta
  }

  function Max(a: nat, b: nat): nat {
    if a < b then b else a
  }

  /** `max(seq)` over the log; the log is kept in increasing order. */
  function LastNo(log: seq<LogRow>): nat {
    if log == [] then 0 else log[|log| - 1].no
  }

  /** The highest sequence ever allocated, as `changeFeedHead` computes it. */
  function Head(db: Db): nat {
    Max(Max(db.counter, LastNo(db.log)), db.floor)
  }

  // ---------------------------------------------------------------- row changes and triggers

  function RowsOf(db: Db, t: Table): Content {
    if t in db.rows then db.rows[t] else map[]
  }

  /** The table after the change, or None when SQLite rejects the statement on the primary key. */
  function Changed(rows: Content, c: Change): Option<Content> {
    match c
    case Insert(_, key, row) => if key in rows then None else Some(rows[key := row])
    case Replace(_, key, row) => Some(rows[key := row])
    case Update(_, key, newKey, row) =>
      if key !in rows then Some(rows)
      else if newKey != key && newKey in rows then None
      else Some((rows - {key})[newKey := row])
    case Delete(_, key) => Some(rows - {key})
  }

  /** The entries the three triggers emit for a change, given the row state before it. */
  function Emitted(rows: Content, c: Change, at: int): seq<Entry> {
    match c
    case Insert(t, key, _) => [Entry(t, Inserted, key, at)]
    case Replace(t, key, _) => [Entry(t, Inserted, key, at)]
    case Update(t, key, newKey, row) =>
      if key !in rows || (newKey == key && row == rows[key]) then []
      else if newKey == key then [Entry(t, Updated, newKey, at)]
      else [Entry(t, Deleted, key, at), Entry(t, Updated, newKey, at)]
    case Delete(t, key) => if key in rows then [Entry(t, Deleted, key, at)] else []
  }

  function Numbered(entries: seq<Entry>, after: nat): (r: seq<LogRow>)
    ensures |r| == |entries|
    ensures forall i :: 0 <= i < |r| ==> r[i] == LogRow(after + 1 + i, entries[i])
  {
    seq(|entries|, i requires 0 <= i < |entries| => LogRow(after + 1 + i, entries[i]))
  }

  /**
   One row change.  `fires` says whether the table's triggers run: always when they are the
   expected ones, possibly when they are not.  A firing trigger without a change_log table fails
   the writer's statement.
   */
  function Write(db: Db, c: Change, at: int, fires: bool): Db {
    match Changed(RowsOf(db, c.table), c)
    case None => db
    case Some(rows) =>
      var entries := if fires then Emitted(RowsOf(db, c.table), c, at) else [];
      if entries != [] && !db.hasLog then db
      else Appended(db, db.rows[c.table := rows], entries)
  }

  /** New rows, with entries logged for them. */
  function Appended(db: Db, rows: map<Table, Content>, entries: seq<Entry>): Db {
    db.(rows := rows, log := db.log + Numbered(entries, db.counter), counter := db.counter + |entries|)
  }

  /** Row changes one after the other; `firing` are the tables whose triggers run. */
  function WriteAll(db: Db, changes: seq<Change>, at: int, firing: set<Table>): Db
    decreases |changes|
  {
    if changes == [] then db
    else WriteAll(Write(db, changes[0], at, changes[0].table in firing), changes[1..], at, firing)
  }

  // ---------------------------------------------------------------- compaction

  /** The number of leading entries recorded before the cutoff. */
  function OldPrefix(log: seq<LogRow>, cutoff: int): (n: nat)
    ensures n <= |log|
    ensures forall i :: 0 <= i < n ==> log[i].entry.at < cutoff
    ensures n < |log| ==> log[n].entry.at >= cutoff
  {
    if log == [] || log[0].entry.at >= cutoff then 0 else 1 + OldPrefix(log[1..], cutoff)
  }

  /** The state after the first `n` entries were compacted. */
  function Compacted(db: Db, n: nat): Db
    requires n <= |db.log|
  {
    if n == 0 then db
    else db.(log := db.log[n..], floor := db.log[n - 1].no, floorEntry := Some(db.log[n - 1].entry))
  }

  /** One bounded compaction transaction. */
  function CompactBatch(db: Db, cutoff: int): Db {
    if !db.hasMeta || !db.hasLog then db
    else Compacted(db, Batch(db.log, cutoff))
  }

  /** How many entries one transaction removes. */
  function Batch(log: seq<LogRow>, cutoff: int): (n: nat)
    ensures n <= |log|
  {
    var expired := OldPrefix(log, cutoff);
    if expired < COMPACTION_BATCH then expired else COMPACTION_BATCH
  }

  // ---------------------------------------------------------------- generations

  function NextGeneration(generations: map<Table, Generation>, t: Table, id: nat, head: nat): Generation {
    Generation(if t in generations then generations[t].count + 1 else 1, id, head)
  }

  function Restarted(generations: map<Table, Generation>, ts: set<Table>, ids: map<Table, nat>, head: nat)
      : map<Table, Generation>
    requires ts <= ids.Keys
  {
    map t | t in generations.Keys + ts ::
      if t in ts then NextGeneration(generations, t, ids[t], head) else generations[t]
  }

  /** Reinstalls the triggers of `ts` and starts a new generation for each of them. */
  function Bumped(db: Db, ts: set<Table>, ids: map<Table, nat>): Db
    requires ts <= ids.Keys
  {
    db.(generations := Restarted(db.generations, ts, ids, Head(db)),
        armed := db.armed + ts,
        matching := db.matching + ts)
  }

  /**
   A snapshot replacement: the tables get the snapshot's rows, nothing is logged for them, and each
   starts a new generation.  Without change_log or change_feed_meta reading the head fails and the
   transaction rolls back; a missing row of change_feed_meta reads as zero.  Without change_feed_tables
   nothing is suspended or started, and the replacement is so many row changes.
   */
  function ImportSnapshot(db: Db, contents: map<Table, Content>, ids: map<Table, nat>): Db
    requires contents.Keys <= ids.Keys
    requires db.hasState
  {
    if !db.hasLog || !db.metaTable then db
    else Bumped(db.(rows := db.rows + contents), contents.Keys, ids)
  }

  // ---------------------------------------------------------------- loss, tampering and repair

  function LoseLog(db: Db): Db {
    db.(log := [], counter := 0, hasLog := false)
  }

  function LoseState(db: Db): Db {
    db.(generations := map[], hasState := false)
  }

  /** The row of change_feed_meta is deleted, or the whole table dropped. */
  function LoseMeta(db: Db, dropped: bool): Db {
    db.(floor := 0, floorEntry := None, hasMeta := false, metaTable := db.metaTable && !dropped)
  }

  /**
   Drops any subset of the feed's own tables, or deletes the row of change_feed_meta; dropping change_log
   drops its sequence counter.
   */
  function Lose(db: Db, log: bool, state: bool, meta: bool, row: bool): Db {
    var a := if log then LoseLog(db) else db;
    var b := if state then LoseState(a) else a;
    if meta || row then LoseMeta(b, meta) else b
  }

  /** A migration or manual change: triggers or schema of a table differ and its rows may change. */
  function Tamper(db: Db, t: Table, rows: Content, dropsTriggers: bool): Db {
    db.(rows := db.rows[t := rows],
        armed := if dropsTriggers then db.armed - {t} else db.armed,
        matching := if dropsTriggers then db.matching else db.matching - {t})
  }

  /** `max(generation_seq)`, zero without generations. */
  ghost function MaxStart(generations: map<Table, Generation>): (m: nat)
    ensures forall t :: t in generations ==> generations[t].start <= m
    ensures m == 0 || exists t :: t in generations && generations[t].start == m
  {
    if generations == map[] then 0
    else
      var t :| t in generations;
      var rest := MaxStart(generations - {t});
      assert forall u :: u in generations && u != t ==> u in generations - {t};
      Max(generations[t].start, rest)
  }

  /** The smallest value `restoreChangeLogAllocator` lets the sequence counter have. */
  ghost function AllocatorFloor(db: Db): nat {
    Max(Max(db.floor, MaxStart(db.generations)), LastNo(db.log))
  }

  predicate TableCurrent(db: Db, t: Table) {
    t in db.generations && t in db.armed && t in db.matching
  }

  /** The check a writable open makes before it repairs anything. */
  predicate Current(db: Db) {
    Intact(db) && db.served && forall t :: t in db.tracked ==> TableCurrent(db, t)
  }

  /** The feed after its tables were created again and the counter was restored. */
  ghost function Recreated(db: Db): Db {
    var grown := db.(hasLog := true, hasState := true, metaTable := true, hasMeta := true, served := true,
                       counter := Max(db.counter, AllocatorFloor(db)));
    if Intact(db) then grown
    else grown.(log := [], floor := Head(grown), floorEntry := None)
  }

  /** The tables a repair starts a new generation for. */
  function Stale(db: Db): set<Table> {
    if Intact(db) then set t | t in db.tracked && !TableCurrent(db, t) else db.tracked
  }

  /** The effect of opening the archive for writing. */
  ghost function Repair(db: Db, ids: map<Table, nat>): Db
    requires db.tracked <= ids.Keys
  {
    if Current(db) then db else Bumped(Recreated(db), Stale(db), ids)
  }

  // ---------------------------------------------------------------- readers

  /** A reader's copy of one table with its cursor (generation_id, seq, digest). */
  datatype Reader = Reader(table: Table, copy: Content, id: nat, at: nat, mark: Option<Entry>)

  /** The newest operation logged after `after` for one key of a table. */
  function Newest(log: seq<LogRow>, t: Table, k: Key, after: nat): Option<Op> {
    if log == [] then None
    else
      var last := log[|log| - 1];
      if last.no > after && last.entry.table == t && last.entry.key == k then Some(last.entry.op)
      else Newest(log[..|log| - 1], t, k, after)
  }

  function EntryAt(log: seq<LogRow>, no: nat): Option<Entry> {
    if log == [] then None
    else if log[|log| - 1].no == no then Some(log[|log| - 1].entry)
    else EntryAt(log[..|log| - 1], no)
  }

  /** The digest a reader stores for a cursor at `no`. */
  function Mark(db: Db, no: nat): Option<Entry> {
    match EntryAt(db.log, no)
    case Some(e) => Some(e)
    case None => if no == db.floor then db.floorEntry else None
  }

  /** The reader's full capture of a tracked table. */
  function Capture(db: Db, t: Table): Reader
    requires t in db.generations
  {
    Reader(t, RowsOf(db, t), db.generations[t].id, Head(db), Mark(db, Head(db)))
  }

  /** The reader's check that it may replay instead of reading the whole table. */
  predicate CursorValid(db: Db, r: Reader) {
    && r.table in db.generations
    && r.id == db.generations[r.table].id
    && db.floor <= r.at <= Head(db)
    && match EntryAt(db.log, r.at)
       case Some(e) => r.mark == Some(e)
       case None => r.at == db.floor && r.mark == db.floorEntry
  }

  predicate ReplayedKey(db: Db, r: Reader, k: Key) {
    Newest(db.log, r.table, k, r.at).Some?
  }

  /** Rereads exactly the keys logged after the cursor; every other row is the reader's own copy. */
  function Replayed(db: Db, r: Reader): Content {
    var now := RowsOf(db, r.table);
    (map k | k in r.copy && !ReplayedKey(db, r, k) :: r.copy[k])
    + (map k | k in now && ReplayedKey(db, r, k) :: now[k])
  }

  /** No replayed key's newest operation contradicts whether its row exists. */
  ghost predicate Consistent(db: Db, r: Reader) {
    forall k: Key :: ReplayedKey(db, r, k) ==>
      (Newest(db.log, r.table, k, r.at) == Some(Deleted) <==> k !in RowsOf(db, r.table))
  }
}
