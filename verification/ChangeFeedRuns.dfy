/**
 Whole runs of the change feed: every interleaving of row writes, compaction batches, snapshot
 imports, loss of the feed's own tables, tampering with tracked tables and repair.

 `AlwaysServed` is the reader contract: a reader's cursor is accepted exactly while its generation
 is unchanged and the cursor is at or above the compaction floor, and replaying an accepted cursor
 gives exactly the current table.  `NeverReissued` says no sequence number is allocated twice
 within one generation of a table, whatever was lost and repaired in between.
 */
module ChangeFeedRuns {
  import opened Options
  import opened ChangeFeed

  /** A number given to an entry of a table, and the table's generation then, if it had one. */
  datatype Issue = Issue(table: Table, id: Option<nat>, no: nat)

  /** The feed with two history variables: generation ids drawn so far, and the numbers issued. */
  datatype World = World(db: Db, used: set<nat>, issued: set<Issue>)

  datatype Step =
    | Writes(c: Change, at: int, fires: bool)
    | Compacts(cutoff: int)
    | Imports(contents: map<Table, Content>, ids: map<Table, nat>)
    | Loses(log: bool, state: bool, meta: bool, row: bool)
    | Tampers(t: Table, rows: Content, dropsTriggers: bool)
    | Repairs(ids: map<Table, nat>)

  /** Random ids: never drawn before, never equal to each other. */
  ghost predicate FreshIds(ids: map<Table, nat>, used: set<nat>) {
    && (forall t :: t in ids ==> ids[t] !in used)
    && (forall t, u :: t in ids && u in ids && t != u ==> ids[t] != ids[u])
  }

  /** An import without change_feed_tables is not a step of its own but so many writes (`UnfedImport`). */
  ghost predicate Enabled(w: World, s: Step) {
    match s
    case Writes(c, _, fires) => c.table in w.db.tracked && (c.table in w.db.armed ==> fires)
    case Compacts(_) => true
    case Imports(contents, ids) =>
      contents.Keys <= w.db.tracked && contents.Keys == ids.Keys && FreshIds(ids, w.used) && w.db.hasState
    case Loses(_, _, _, _) => true
    case Tampers(t, _, _) => t in w.db.tracked
    case Repairs(ids) => ids.Keys == w.db.tracked && FreshIds(ids, w.used)
  }

  ghost function Effect(db: Db, s: Step): Db
    requires s.Imports? ==> s.contents.Keys <= s.ids.Keys && db.hasState
    requires s.Repairs? ==> db.tracked <= s.ids.Keys
  {
    match s
    case Writes(c, at, fires) => Write(db, c, at, fires)
    case Compacts(cutoff) => CompactBatch(db, cutoff)
    case Imports(contents, ids) => ImportSnapshot(db, contents, ids)
    case Loses(log, state, meta, row) => Lose(db, log, state, meta, row)
    case Tampers(t, rows, drops) => Tamper(db, t, rows, drops)
    case Repairs(ids) => Repair(db, ids)
  }

  function Drawn(s: Step): set<nat> {
    match s
    case Imports(_, ids) => ids.Values
    case Repairs(ids) => ids.Values
    case _ => {}
  }

  function GenerationId(db: Db, t: Table): Option<nat> {
    if t in db.generations then Some(db.generations[t].id) else None
  }

  /** The numbers a step appends to the log; the triggers do not look at change_feed_tables. */
  function Allocated(db: Db, s: Step): set<Issue> {
    match s
    case Writes(c, at, fires) =>
      set n | db.counter < n <= Write(db, c, at, fires).counter :: Issue(c.table, GenerationId(db, c.table), n)
    case _ => {}
  }

  ghost function Next(w: World, s: Step): World
    requires Enabled(w, s)
  {
    World(Effect(w.db, s), w.used + Drawn(s), w.issued + Allocated(w.db, s))
  }

  ghost predicate Runnable(w: World, steps: seq<Step>)
    decreases |steps|
  {
    steps == [] || (Enabled(w, steps[0]) && Runnable(Next(w, steps[0]), steps[1..]))
  }

  ghost function Run(w: World, steps: seq<Step>): World
    requires Runnable(w, steps)
    decreases |steps|
  {
    if steps == [] then w else Run(Next(w, steps[0]), steps[1..])
  }

  /** A replacement without change_feed_tables is a run of writes, which the theorems below cover. */
  lemma {:induction false} UnfedImport(w: World, changes: seq<Change>, at: int, firing: set<Table>)
    requires w.db.armed <= firing && forall k :: 0 <= k < |changes| ==> changes[k].table in w.db.tracked
    ensures var steps := WritesOf(changes, at, firing);
      Runnable(w, steps) && Run(w, steps).db == WriteAll(w.db, changes, at, firing)
    decreases |changes|
  {
    if changes != [] {
      var steps := WritesOf(changes, at, firing);
      assert steps[1..] == WritesOf(changes[1..], at, firing);
      UnfedImport(Next(w, steps[0]), changes[1..], at, firing);
    }
  }

  function WritesOf(changes: seq<Change>, at: int, firing: set<Table>): seq<Step> {
    seq(|changes|, k requires 0 <= k < |changes| => Writes(changes[k], at, changes[k].table in firing))
  }

  // ---------------------------------------------------------------- the state invariant

  ghost predicate Ordered(db: Db) {
    && (db.hasLog ==> db.floor <= db.counter)
    && (forall i, j :: 0 <= i < j < |db.log| ==> db.log[i].no < db.log[j].no)
    && (forall i :: 0 <= i < |db.log| ==> db.floor < db.log[i].no <= db.counter)
  }

  /** The number was issued under the generation its table has now. */
  predicate UnderCurrent(db: Db, p: Issue) {
    p.id.Some? && GenerationId(db, p.table) == p.id
  }

  ghost predicate Bookkept(w: World) {
    && w.db.generations.Keys <= w.db.tracked
    && (forall t :: t in w.db.generations ==> w.db.generations[t].id in w.used)
    && (forall p :: p in w.issued && p.id.Some? ==> p.id.value in w.used)
    && (w.db.hasLog ==> forall p :: p in w.issued ==> (UnderCurrent(w.db, p) ==> p.no <= w.db.counter))
  }

  /** What loss takes away reads as empty; what is intact is numbered up to the head. */
  ghost predicate Numbering(db: Db) {
    && (!db.hasLog ==> db.log == [] && db.counter == 0)
    && (!db.hasState ==> db.generations == map[])
    && (!db.hasMeta ==> db.floor == 0 && db.floorEntry == None)
    && (db.hasMeta ==> db.metaTable)
    && (Intact(db) ==>
          && db.counter == (if db.log == [] then db.floor else LastNo(db.log))
          && forall t :: t in db.generations ==> db.generations[t].start <= db.counter)
  }

  ghost predicate Inv(w: World) {
    Ordered(w.db) && Bookkept(w) && Numbering(w.db)
  }

  lemma HeadIsCounter(db: Db)
    requires Ordered(db) && Numbering(db) && Intact(db)
    ensures Head(db) == db.counter >= db.floor
  {
  }

  lemma AppendKeepsOrder(db: Db, rows: map<Table, Content>, entries: seq<Entry>)
    requires Ordered(db) && Numbering(db) && (entries == [] || db.hasLog)
    ensures Ordered(Appended(db, rows, entries)) && Numbering(Appended(db, rows, entries))
  {
  }

  lemma WriteKeepsOrder(db: Db, c: Change, at: int, fires: bool)
    requires Ordered(db) && Numbering(db)
    ensures var next := Write(db, c, at, fires);
      && Ordered(next) && Numbering(next) && next.generations == db.generations && next.tracked == db.tracked
      && next.counter >= db.counter && next.hasLog == db.hasLog
  {
    var rows := Changed(RowsOf(db, c.table), c);
    var entries := if fires then Emitted(RowsOf(db, c.table), c, at) else [];
    if rows.Some? && (entries == [] || db.hasLog) {
      AppendKeepsOrder(db, db.rows[c.table := rows.value], entries);
    }
  }

  lemma WriteKeepsInv(w: World, s: Step)
    requires Inv(w) && Enabled(w, s) && s.Writes?
    ensures Inv(Next(w, s))
  {
    WriteKeepsOrder(w.db, s.c, s.at, s.fires);
    forall p | p in Next(w, s).issued && UnderCurrent(w.db, p)
      ensures p.id.value in w.used && (w.db.hasLog ==> p.no <= Next(w, s).db.counter)
    {
    }
  }

  lemma CompactedKeepsInv(db: Db, n: nat)
    requires Ordered(db) && Numbering(db) && db.hasLog && db.hasMeta && n <= |db.log|
    ensures Ordered(Compacted(db, n)) && Numbering(Compacted(db, n))
  {
    if n > 0 {
      var next := Compacted(db, n);
      forall i | 0 <= i < |next.log| ensures next.log[i] == db.log[n + i] {}
    }
  }

  lemma CompactKeepsInv(w: World, s: Step)
    requires Inv(w) && Enabled(w, s) && s.Compacts?
    ensures Inv(Next(w, s))
  {
    if w.db.hasMeta && w.db.hasLog {
      CompactedKeepsInv(w.db, Batch(w.db.log, s.cutoff));
    }
    forall p | p in Next(w, s).issued && UnderCurrent(w.db, p)
      ensures p.id.value in w.used && (w.db.hasLog ==> p.no <= Next(w, s).db.counter)
    {
    }
  }

  lemma LogLossKeepsInv(w: World)
    requires Inv(w)
    ensures Inv(w.(db := LoseLog(w.db)))
  {
  }

  lemma StateLossKeepsInv(w: World)
    requires Inv(w)
    ensures Inv(w.(db := LoseState(w.db)))
  {
  }

  lemma MetaLossKeepsInv(w: World, dropped: bool)
    requires Inv(w)
    ensures Inv(w.(db := LoseMeta(w.db, dropped)))
  {
  }

  lemma LoseKeepsInv(w: World, s: Step)
    requires Inv(w) && Enabled(w, s) && s.Loses?
    ensures Inv(Next(w, s))
  {
    LossesKeepInv(w, s.log, s.state, s.meta, s.row);
    assert w.used + {} == w.used && w.issued + {} == w.issued;
    assert Next(w, s) == w.(db := Lose(w.db, s.log, s.state, s.meta, s.row));
  }

  lemma LossesKeepInv(w: World, log: bool, state: bool, meta: bool, row: bool)
    requires Inv(w)
    ensures Inv(w.(db := Lose(w.db, log, state, meta, row)))
  {
    var a := w.(db := if log then LoseLog(w.db) else w.db);
    var b := a.(db := if state then LoseState(a.db) else a.db);
    LogLossKeepsInv(w);
    StateLossKeepsInv(a);
    MetaLossKeepsInv(b, meta);
  }

  lemma TamperKeepsInv(w: World, s: Step)
    requires Inv(w) && Enabled(w, s) && s.Tampers?
    ensures Inv(Next(w, s))
  {
  }

  /** Starting generations with fresh ids keeps the books, whatever was lost before. */
  lemma BumpKeepsInv(db: Db, ts: set<Table>, ids: map<Table, nat>, w: World)
    requires ts <= ids.Keys && ts <= db.tracked && FreshIds(ids, w.used) && db.hasLog && db.hasState
    requires Ordered(db) && Numbering(db) && Bookkept(w.(db := db))
    ensures Inv(World(Bumped(db, ts, ids), w.used + ids.Values, w.issued))
  {
    if Intact(db) {
      HeadIsCounter(db);
    }
    var next := World(Bumped(db, ts, ids), w.used + ids.Values, w.issued);
    forall t | t in next.db.generations
      ensures next.db.generations[t].id in next.used
      ensures Intact(db) ==> next.db.generations[t].start <= next.db.counter
    {
      if t in ts {
        assert ids[t] in ids.Values;
      }
    }
    forall p | p in w.issued && UnderCurrent(next.db, p) ensures p.no <= next.db.counter {
      if p.table !in ts {
        assert UnderCurrent(db, p);
      }
    }
  }

  lemma ImportKeepsInv(w: World, s: Step)
    requires Inv(w) && Enabled(w, s) && s.Imports?
    ensures Inv(Next(w, s))
  {
    if w.db.hasLog && w.db.metaTable {
      BumpKeepsInv(w.db.(rows := w.db.rows + s.contents), s.contents.Keys, s.ids, w);
    }
  }

  lemma RecreatedNumbering(db: Db)
    requires Ordered(db) && Numbering(db)
    ensures Ordered(Recreated(db))
    ensures Recreated(db).counter >= db.counter
    ensures Recreated(db).counter == Head(Recreated(db))
    ensures !Intact(db) ==> Recreated(db).log == [] && Recreated(db).floor == Recreated(db).counter
    ensures Intact(db) ==> Recreated(db) == db.(served := true)
    ensures forall t :: t in db.generations ==> db.generations[t].start <= Recreated(db).counter
  {
  }

  /**
   After a loss every generation restarts, so the numbers that may be issued again belong to
   generations no table has any more.
   */
  lemma RepairKeepsInv(w: World, s: Step)
    requires Inv(w) && Enabled(w, s) && s.Repairs?
    ensures Inv(Next(w, s))
  {
    if Current(w.db) {
      return;
    }
    RecreatedNumbering(w.db);
    var db := Recreated(w.db);
    if Intact(w.db) {
      assert Numbering(db);
      assert Bookkept(w.(db := db));
      BumpKeepsInv(db, Stale(w.db), s.ids, w);
    } else {
      LossRepairKeepsInv(w, s);
    }
  }

  lemma LossRepairKeepsInv(w: World, s: Step)
    requires Inv(w) && Enabled(w, s) && s.Repairs? && !Intact(w.db)
    ensures Inv(Next(w, s))
  {
    RecreatedNumbering(w.db);
    var next := Next(w, s);
    var db := Recreated(w.db);
    assert next.db == Bumped(db, w.db.tracked, s.ids);
    forall t | t in next.db.generations
      ensures next.db.generations[t].id == s.ids[t] && next.db.generations[t].id in s.ids.Values
      ensures next.db.generations[t].start == next.db.counter
    {
    }
    forall p | p in next.issued ensures !UnderCurrent(next.db, p) {
      assert p.id.Some? ==> p.id.value in w.used;
    }
  }

  lemma StepKeepsInv(w: World, s: Step)
    requires Inv(w) && Enabled(w, s)
    ensures Inv(Next(w, s))
  {
    match s
    case Writes(_, _, _) => WriteKeepsInv(w, s);
    case Compacts(_) => CompactKeepsInv(w, s);
    case Imports(_, _) => ImportKeepsInv(w, s);
    case Loses(_, _, _, _) => LoseKeepsInv(w, s);
    case Tampers(_, _, _) => TamperKeepsInv(w, s);
    case Repairs(_) => RepairKeepsInv(w, s);
  }

  // ---------------------------------------------------------------- what a reader is owed

  /** The reader's generation is the table's own and nothing above the floor is missing. */
  predicate Continuous(db: Db, r: Reader) {
    && Intact(db)
    && TableCurrent(db, r.table)
    && db.generations[r.table].id == r.id
    && db.floor <= r.at
  }

  ghost predicate KeyFaithful(db: Db, r: Reader, k: Key) {
    var now := RowsOf(db, r.table);
    match Newest(db.log, r.table, k, r.at)
    case Some(op) => op == Deleted <==> k !in now
    case None => (k in now <==> k in r.copy) && (k in now ==> now[k] == r.copy[k])
  }

  /** While continuous, every key is either untouched since the cursor or logged with its fate. */
  ghost predicate Faithful(db: Db, r: Reader) {
    Continuous(db, r) ==>
      && r.at <= db.counter
      && Mark(db, r.at) == r.mark
      && (EntryAt(db.log, r.at).None? ==> r.at == db.floor)
      && (forall k: Key :: KeyFaithful(db, r, k))
  }

  /** The reader's generation id was drawn before. */
  ghost predicate Tracks(w: World, r: Reader) {
    r.id in w.used && Faithful(w.db, r)
  }

  lemma NewestAfterAppend(log: seq<LogRow>, more: seq<LogRow>, t: Table, k: Key, after: nat)
    requires |more| == 1
    ensures Newest(log + more, t, k, after) ==
      (if more[0].no > after && more[0].entry.table == t && more[0].entry.key == k
       then Some(more[0].entry.op) else Newest(log, t, k, after))
    ensures forall no ::
      EntryAt(log + more, no) == (if more[0].no == no then Some(more[0].entry) else EntryAt(log, no))
  {
    assert (log + more)[..|log + more| - 1] == log;
  }

  lemma {:induction false} NothingAfterLast(log: seq<LogRow>, t: Table, k: Key, after: nat)
    requires forall i :: 0 <= i < |log| ==> log[i].no <= after
    ensures Newest(log, t, k, after) == None
    decreases |log|
  {
    if log != [] {
      NothingAfterLast(log[..|log| - 1], t, k, after);
    }
  }

  lemma {:induction false} NoEntryAbove(log: seq<LogRow>, no: nat)
    requires forall i :: 0 <= i < |log| ==> log[i].no != no
    ensures EntryAt(log, no) == None
    decreases |log|
  {
    if log != [] {
      NoEntryAbove(log[..|log| - 1], no);
    }
  }

  /** A prefix at or below the cursor is invisible to the reader. */
  lemma {:induction false} PrefixInvisible(log: seq<LogRow>, n: nat, t: Table, k: Key, after: nat)
    requires n <= |log|
    requires forall i :: 0 <= i < n ==> log[i].no <= after
    ensures Newest(log[n..], t, k, after) == Newest(log, t, k, after)
    decreases |log|
  {
    if n == |log| {
      NothingAfterLast(log, t, k, after);
    } else {
      PrefixInvisible(log[..|log| - 1], n, t, k, after);
      assert log[n..][..|log| - n - 1] == log[..|log| - 1][n..];
    }
  }

  lemma {:induction false} PrefixEntries(log: seq<LogRow>, n: nat, no: nat)
    requires n <= |log|
    requires forall i :: 0 <= i < n ==> log[i].no != no
    ensures EntryAt(log[n..], no) == EntryAt(log, no)
    decreases |log|
  {
    if n == |log| {
      NoEntryAbove(log, no);
    } else {
      PrefixEntries(log[..|log| - 1], n, no);
      assert log[n..][..|log| - n - 1] == log[..|log| - 1][n..];
    }
  }

  lemma {:induction false} EntryFound(log: seq<LogRow>, i: nat)
    requires i < |log| && forall a, b :: 0 <= a < b < |log| ==> log[a].no < log[b].no
    ensures EntryAt(log, log[i].no) == Some(log[i].entry)
    decreases |log|
  {
    if i < |log| - 1 {
      EntryFound(log[..|log| - 1], i);
    }
  }

  /** A capture is faithful at the moment it is taken. */
  lemma CaptureTracks(w: World, t: Table)
    requires Inv(w) && Intact(w.db) && TableCurrent(w.db, t)
    ensures Tracks(w, Capture(w.db, t))
  {
    var r := Capture(w.db, t);
    HeadIsCounter(w.db);
    forall k: Key ensures KeyFaithful(w.db, r, k) {
      NothingAfterLast(w.db.log, t, k, r.at);
    }
    if w.db.log != [] {
      EntryFound(w.db.log, |w.db.log| - 1);
    }
  }

  /** Appending the entries of one write, one or two of them, seen from a cursor below them. */
  lemma NewestAfterWrite(log: seq<LogRow>, entries: seq<Entry>, counter: nat, t: Table, k: Key, after: nat)
    requires |entries| <= 2 && after <= counter
    ensures Newest(log + Numbered(entries, counter), t, k, after) ==
      if |entries| == 2 && entries[1].table == t && entries[1].key == k then Some(entries[1].op)
      else if |entries| >= 1 && entries[0].table == t && entries[0].key == k then Some(entries[0].op)
      else Newest(log, t, k, after)
    ensures EntryAt(log + Numbered(entries, counter), after) == EntryAt(log, after)
  {
    var added := Numbered(entries, counter);
    if |entries| == 0 {
      assert log + added == log;
    } else if |entries| == 1 {
      NewestAfterAppend(log, added, t, k, after);
    } else {
      assert log + added == (log + added[..1]) + added[1..];
      NewestAfterAppend(log, added[..1], t, k, after);
      NewestAfterAppend(log + added[..1], added[1..], t, k, after);
    }
  }

  /** The entries a write emits tell the fate of exactly the keys whose rows it changes. */
  lemma EmittedTellsFate(rows: Content, c: Change, at: int, k: Key)
    requires Changed(rows, c).Some?
    ensures var next := Changed(rows, c).value; var es := Emitted(rows, c, at);
      && |es| <= 2
      && (|es| >= 1 ==> es[0].table == c.table) && (|es| == 2 ==> es[1].table == c.table)
      && (if |es| == 2 && es[1].key == k then es[1].op == Deleted <==> k !in next
          else if |es| >= 1 && es[0].key == k then es[0].op == Deleted <==> k !in next
          else (k in next <==> k in rows) && (k in next ==> next[k] == rows[k]))
  {
  }

  lemma WriteKeepsKey(db: Db, c: Change, at: int, fires: bool, r: Reader, k: Key)
    requires KeyFaithful(db, r, k) && r.at <= db.counter && db.hasLog
    requires c.table == r.table ==> fires
    ensures KeyFaithful(Write(db, c, at, fires), r, k)
  {
    var rows := RowsOf(db, c.table);
    if Changed(rows, c).Some? {
      EmittedTellsFate(rows, c, at, k);
      var es := if fires then Emitted(rows, c, at) else [];
      AppendKeepsKey(db, c.table, Changed(rows, c).value, es, r, k);
    }
  }

  /** Entries that tell the fate of a key keep its reader faithful. */
  lemma AppendKeepsKey(db: Db, t: Table, rows: Content, es: seq<Entry>, r: Reader, k: Key)
    requires KeyFaithful(db, r, k) && r.at <= db.counter
    requires |es| <= 2 && (|es| >= 1 ==> es[0].table == t) && (|es| == 2 ==> es[1].table == t)
    requires t == r.table ==>
      if |es| == 2 && es[1].key == k then es[1].op == Deleted <==> k !in rows
      else if |es| >= 1 && es[0].key == k then es[0].op == Deleted <==> k !in rows
      else (k in rows <==> k in RowsOf(db, t)) && (k in rows ==> rows[k] == RowsOf(db, t)[k])
    ensures KeyFaithful(Appended(db, db.rows[t := rows], es), r, k)
  {
    NewestAfterWrite(db.log, es, db.counter, r.table, k, r.at);
    var next := Appended(db, db.rows[t := rows], es);
    if t == r.table {
      assert RowsOf(next, t) == rows;
    } else {
      assert RowsOf(next, r.table) == RowsOf(db, r.table);
    }
  }

  /** A logged write leaves every key of every reader faithful, key changes included. */
  lemma WriteKeepsTracking(w: World, s: Step, r: Reader)
    requires Inv(w) && Tracks(w, r) && Enabled(w, s) && s.Writes?
    ensures Tracks(Next(w, s), r)
  {
    var db, next := w.db, Next(w, s).db;
    if next == db || !Continuous(next, r) {
      return;
    }
    assert Continuous(db, r);
    var rows := RowsOf(db, s.c.table);
    EmittedTellsFate(rows, s.c, s.at, []);
    NewestAfterWrite(db.log, if s.fires then Emitted(rows, s.c, s.at) else [], db.counter, r.table, [], r.at);
    forall k ensures KeyFaithful(next, r, k) {
      assert KeyFaithful(db, r, k);
      WriteKeepsKey(db, s.c, s.at, s.fires, r, k);
    }
  }

  lemma CompactedKeepsTracking(db: Db, n: nat, r: Reader)
    requires Ordered(db) && 0 < n <= |db.log| && Continuous(db, r) && Faithful(db, r)
    requires db.log[n - 1].no <= r.at
    ensures Faithful(Compacted(db, n), r)
  {
    var next := Compacted(db, n);
    forall k ensures KeyFaithful(next, r, k) {
      PrefixInvisible(db.log, n, r.table, k, r.at);
      assert KeyFaithful(db, r, k);
    }
    if r.at == next.floor {
      EntryFound(db.log, n - 1);
      NoEntryAbove(next.log, r.at);
    } else {
      PrefixEntries(db.log, n, r.at);
    }
  }

  lemma CompactKeepsTracking(w: World, s: Step, r: Reader)
    requires Inv(w) && Tracks(w, r) && Enabled(w, s) && s.Compacts?
    ensures Tracks(Next(w, s), r)
  {
    if Next(w, s).db != w.db && Continuous(Next(w, s).db, r) {
      CompactedKeepsTracking(w.db, Batch(w.db.log, s.cutoff), r);
    }
  }

  /** The tables an import or a repair starts a new generation for. */
  function Renewed(db: Db, s: Step): set<Table> {
    match s
    case Imports(contents, _) => if db.hasLog && db.metaTable then contents.Keys else {}
    case Repairs(_) => if Current(db) then {} else Stale(db)
    case _ => {}
  }

  lemma RenewedHaveNewIds(w: World, s: Step, t: Table)
    requires Enabled(w, s) && t in Renewed(w.db, s)
    ensures t in Next(w, s).db.generations && Next(w, s).db.generations[t].id !in w.used
  {
    assert Next(w, s).db.generations[t].id == s.ids[t];
  }

  /** Nothing about a table has changed for its readers. */
  ghost predicate SameFor(db: Db, next: Db, t: Table) {
    && (t in next.generations <==> t in db.generations)
    && (t in db.generations ==> next.generations[t] == db.generations[t])
    && (TableCurrent(next, t) <==> TableCurrent(db, t))
    && Intact(next) && next.log == db.log && next.floor == db.floor && next.floorEntry == db.floorEntry
    && next.counter == db.counter && RowsOf(next, t) == RowsOf(db, t)
  }

  lemma BumpedSameFor(db: Db, ts: set<Table>, ids: map<Table, nat>, t: Table)
    requires ts <= ids.Keys && t !in ts && Intact(db)
    ensures SameFor(db, Bumped(db, ts, ids), t)
  {
  }

  lemma OthersKeepTheirGeneration(w: World, s: Step, t: Table)
    requires Inv(w) && Enabled(w, s) && (s.Imports? || s.Repairs?) && Intact(w.db) && t !in Renewed(w.db, s)
    ensures SameFor(w.db, Next(w, s).db, t)
  {
    if s.Imports? {
      BumpedSameFor(w.db.(rows := w.db.rows + s.contents), s.contents.Keys, s.ids, t);
    } else if !Current(w.db) {
      RecreatedNumbering(w.db);
      BumpedSameFor(Recreated(w.db), Stale(w.db), s.ids, t);
    }
  }

  /**
   Exactly the readers of rewritten tables are cut off: new generations carry ids no reader holds, and
   every other reader goes on as before.
   */
  lemma RewriteCutsOff(w: World, s: Step, r: Reader)
    requires Inv(w) && r.id in w.used && Enabled(w, s) && (s.Imports? || s.Repairs?)
    ensures Continuous(Next(w, s).db, r) <==> Continuous(w.db, r) && r.table !in Renewed(w.db, s)
  {
    if r.table in Renewed(w.db, s) {
      RenewedHaveNewIds(w, s, r.table);
    } else if Intact(w.db) {
      OthersKeepTheirGeneration(w, s, r.table);
    }
  }

  lemma RewriteKeepsTracking(w: World, s: Step, r: Reader)
    requires Inv(w) && Tracks(w, r) && Enabled(w, s) && (s.Imports? || s.Repairs?)
    ensures Tracks(Next(w, s), r)
  {
    RewriteCutsOff(w, s, r);
    if Continuous(Next(w, s).db, r) {
      OthersKeepTheirGeneration(w, s, r.table);
      forall k ensures KeyFaithful(Next(w, s).db, r, k) {
        assert KeyFaithful(w.db, r, k);
      }
    }
  }

  lemma DamageKeepsTracking(w: World, s: Step, r: Reader)
    requires Inv(w) && Tracks(w, r) && Enabled(w, s) && (s.Loses? || s.Tampers?)
    ensures Tracks(Next(w, s), r)
  {
    var db, next := w.db, Next(w, s).db;
    if Continuous(next, r) {
      forall k ensures KeyFaithful(next, r, k) {
        assert KeyFaithful(db, r, k);
      }
    }
  }

  lemma {:induction false} RunTracks(w: World, steps: seq<Step>, r: Reader)
    requires Inv(w) && Tracks(w, r) && Runnable(w, steps)
    ensures Inv(Run(w, steps)) && Tracks(Run(w, steps), r)
    decreases |steps|
  {
    if steps != [] {
      var s := steps[0];
      StepKeepsInv(w, s);
      match s {
        case Writes(_, _, _) => WriteKeepsTracking(w, s, r);
        case Compacts(_) => CompactKeepsTracking(w, s, r);
        case Imports(_, _) => RewriteKeepsTracking(w, s, r);
        case Repairs(_) => RewriteKeepsTracking(w, s, r);
        case Loses(_, _, _, _) => DamageKeepsTracking(w, s, r);
        case Tampers(_, _, _) => DamageKeepsTracking(w, s, r);
      }
      RunTracks(Next(w, s), steps[1..], r);
    }
  }

  // ---------------------------------------------------------------- the theorems

  /** A faithful reader's cursor is accepted and its replay is exact. */
  lemma FaithfulIsServed(db: Db, r: Reader)
    requires Ordered(db) && Numbering(db) && Intact(db) && TableCurrent(db, r.table) && Faithful(db, r)
    ensures CursorValid(db, r) <==> db.generations[r.table].id == r.id && db.floor <= r.at
    ensures CursorValid(db, r) ==> Replayed(db, r) == RowsOf(db, r.table) && Consistent(db, r)
  {
    if Continuous(db, r) {
      HeadIsCounter(db);
      assert CursorValid(db, r);
      forall k: Key ensures KeyFaithful(db, r, k) {
      }
      ReplayIsExact(db, r);
    }
  }

  lemma ReplayIsExact(db: Db, r: Reader)
    requires forall k: Key :: KeyFaithful(db, r, k)
    ensures Replayed(db, r) == RowsOf(db, r.table) && Consistent(db, r)
  {
    var now := RowsOf(db, r.table);
    forall k ensures k in Replayed(db, r) <==> k in now
      ensures k in now ==> Replayed(db, r)[k] == now[k]
      ensures ReplayedKey(db, r, k) ==> (Newest(db.log, r.table, k, r.at) == Some(Deleted) <==> k !in now)
    {
      assert KeyFaithful(db, r, k);
    }
    assert Replayed(db, r) == now;
  }

  /**
   The reader contract over any run.  A reader captured `t` before the run; after it, if the feed
   is intact and the table's triggers are in place, then the cursor is accepted exactly when the
   generation id is unchanged and the cursor is at or above the compaction floor, and a replay of
   an accepted cursor is exactly the current table and never meets a contradiction.
   */
  lemma AlwaysServed(w: World, t: Table, steps: seq<Step>)
    requires Inv(w) && Intact(w.db) && TableCurrent(w.db, t)
    requires Runnable(w, steps)
    ensures var r := Capture(w.db, t); var db := Run(w, steps).db;
      Intact(db) && TableCurrent(db, t) ==>
        && (CursorValid(db, r) <==> db.generations[t].id == r.id && db.floor <= r.at)
        && (CursorValid(db, r) ==> Replayed(db, r) == RowsOf(db, t) && Consistent(db, r))
  {
    CaptureTracks(w, t);
    RunTracks(w, steps, Capture(w.db, t));
    if Intact(Run(w, steps).db) && TableCurrent(Run(w, steps).db, t) {
      FaithfulIsServed(Run(w, steps).db, Capture(w.db, t));
    }
  }

  /** Nothing is issued twice within a generation, across any losses and repairs before the step. */
  lemma {:induction false} NeverReissued(w: World, steps: seq<Step>, s: Step)
    requires Inv(w) && Runnable(w, steps) && Enabled(Run(w, steps), s)
    ensures forall p :: p in Allocated(Run(w, steps).db, s) && p.id.Some? ==> p !in Run(w, steps).issued
    decreases |steps|
  {
    if steps == [] {
      forall p | p in Allocated(w.db, s) && p.id.Some? ensures p !in w.issued {
        assert UnderCurrent(w.db, p) && w.db.hasLog;
      }
    } else {
      StepKeepsInv(w, steps[0]);
      NeverReissued(Next(w, steps[0]), steps[1..], s);
    }
  }

  /** A repair makes the feed current and repeating it does nothing. */
  lemma RepairSettles(w: World, s: Step, again: map<Table, nat>)
    requires Inv(w) && Enabled(w, s) && s.Repairs? && again.Keys == w.db.tracked
    ensures Current(Next(w, s).db) && Repair(Next(w, s).db, again) == Next(w, s).db
  {
    var db := Next(w, s).db;
    if !Current(w.db) {
      assert db == Bumped(Recreated(w.db), Stale(w.db), s.ids);
      forall t | t in db.tracked ensures TableCurrent(db, t) {}
    }
  }

  /** After a repair the head is at or above the floor and every generation start, old and new. */
  lemma RepairKeepsHead(w: World, s: Step)
    requires Inv(w) && Enabled(w, s) && s.Repairs?
    ensures var db := Next(w, s).db;
      && db.floor <= Head(db) && w.db.floor <= Head(db) && w.db.counter <= Head(db)
      && (forall t :: t in db.generations ==> db.generations[t].start <= Head(db))
      && (forall t :: t in w.db.generations ==> w.db.generations[t].start <= Head(db))
  {
    StepKeepsInv(w, s);
    RepairSettles(w, s, s.ids);
    HeadIsCounter(Next(w, s).db);
    RecreatedNumbering(w.db);
  }

  /** A repair keeps a table's generation exactly when nothing was lost and the table was current. */
  lemma RepairKeepsCurrentTables(w: World, s: Step, t: Table)
    requires Inv(w) && Enabled(w, s) && s.Repairs? && t in w.db.generations
    ensures var db := Next(w, s).db;
      && t in db.generations
      && (db.generations[t] == w.db.generations[t] <==> Intact(w.db) && TableCurrent(w.db, t))
      && (Intact(w.db) ==> db.log == w.db.log && db.floor == w.db.floor && db.floorEntry == w.db.floorEntry)
  {
    RecreatedNumbering(w.db);
    if !Current(w.db) && t in Stale(w.db) {
      assert Next(w, s).db.generations[t].id == s.ids[t];
    }
  }

  /** The freshly created feed. */
  function Installed(tracked: set<Table>, rows: map<Table, Content>): World {
    World(Db(tracked, rows, [], 0, 0, None, map[], {}, {}, false, false, false, false, false), {}, {})
  }

  /** Everything reachable from the first opening satisfies the invariant the theorems start from. */
  lemma {:induction false} ReachableInv(tracked: set<Table>, rows: map<Table, Content>, steps: seq<Step>)
    requires Runnable(Installed(tracked, rows), steps)
    ensures Inv(Run(Installed(tracked, rows), steps))
  {
    RunInv(Installed(tracked, rows), steps);
  }

  lemma {:induction false} RunInv(w: World, steps: seq<Step>)
    requires Inv(w) && Runnable(w, steps)
    ensures Inv(Run(w, steps))
    decreases |steps|
  {
    if steps != [] {
      StepKeepsInv(w, steps[0]);
      RunInv(Next(w, steps[0]), steps[1..]);
    }
  }
}
