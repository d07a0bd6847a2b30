/**
 The store side of the change feed (internal/store/change_feed.go): the fields SQLite keeps, updated
 in place.  Every method is proved to have the effect of the transaction of the same name in
 ChangeFeed.dfy, so the theorems about runs apply to it.
 */
module ChangeFeedStore {
  import opened Options
  import opened ChangeFeed

  lemma {:induction false} OldPrefixSplit(log: seq<LogRow>, cutoff: int, n: nat)
    requires n <= OldPrefix(log, cutoff)
    ensures OldPrefix(log[n..], cutoff) == OldPrefix(log, cutoff) - n
    decreases n
  {
    if n > 0 {
      OldPrefixSplit(log[1..], cutoff, n - 1);
      assert log[1..][n - 1..] == log[n..];
    }
  }

  /** The generation rows after each of `ts` but not yet `todo` was restarted once. */
  ghost predicate RestartedBut(was: map<Table, Generation>, now: map<Table, Generation>, ts: set<Table>,
                               todo: set<Table>, ids: map<Table, nat>, head: nat)
  {
    forall t ::
      if t in ts && t !in todo then t in ids && t in now && now[t] == NextGeneration(was, t, ids[t], head)
      else (t in now <==> t in was) && (t in now ==> now[t] == was[t])
  }

  lemma RestartedOneMore(was: map<Table, Generation>, now: map<Table, Generation>, ts: set<Table>,
                         todo: set<Table>, t: Table, ids: map<Table, nat>, head: nat)
    requires t in ts && t in todo && t in ids && RestartedBut(was, now, ts, todo, ids, head)
    ensures RestartedBut(was, now[t := NextGeneration(now, t, ids[t], head)], ts, todo - {t}, ids, head)
  {
  }

  lemma RestartedAll(was: map<Table, Generation>, now: map<Table, Generation>, ts: set<Table>,
                     ids: map<Table, nat>, head: nat)
    requires ts <= ids.Keys && RestartedBut(was, now, ts, {}, ids, head)
    ensures now == Restarted(was, ts, ids, head)
  {
    assert forall t :: t in ts || t in was ==> t in now;
  }

  /** Each of `ts` but not yet `todo` was added to a set of tables. */
  ghost predicate RearmedBut(was: set<Table>, now: set<Table>, ts: set<Table>, todo: set<Table>) {
    was <= now && ts - todo <= now && now <= was + ts
  }

  lemma RearmedOneMore(was: set<Table>, now: set<Table>, ts: set<Table>, todo: set<Table>, t: Table)
    requires t in ts && RearmedBut(was, now, ts, todo)
    ensures RearmedBut(was, now + {t}, ts, todo - {t})
  {
  }

  lemma RearmedAll(was: set<Table>, now: set<Table>, ts: set<Table>)
    requires RearmedBut(was, now, ts, {})
    ensures now == was + ts
  {
    assert ts - {} == ts;
  }

  lemma SuspendedAndRearmed(was: set<Table>, now: set<Table>, ts: set<Table>)
    requires RearmedBut(was - ts, now, ts, {})
    ensures now == was + ts
  {
    RearmedAll(was - ts, now, ts);
  }

  /** Each of the tables in `contents` but not yet `todo` was refilled. */
  ghost predicate RefilledBut(was: map<Table, Content>, now: map<Table, Content>, contents: map<Table, Content>,
                              todo: set<Table>)
  {
    forall t ::
      if t in contents && t !in todo then t in now && now[t] == contents[t]
      else (t in now <==> t in was) && (t in now ==> now[t] == was[t])
  }

  lemma RefilledAll(was: map<Table, Content>, now: map<Table, Content>, contents: map<Table, Content>)
    requires RefilledBut(was, now, contents, {})
    ensures now == was + contents
  {
    assert forall t :: t in was || t in contents ==> t in now;
  }

  /** Inserting one more row of a snapshot into a table being refilled. */
  lemma RefilledOneMore(content: Content, todo: set<Key>, k: Key)
    requires k in content && k !in todo
    ensures Without(content, todo) == Without(content, todo + {k})[k := content[k]]
  {
  }

  /** The rows that are not waiting to be inserted. */
  function Without(content: Content, todo: set<Key>): Content {
    map k | k in content && k !in todo :: content[k]
  }

  lemma InsertedNext(was: map<Table, Content>, mid: map<Table, Content>, now: map<Table, Content>, t: Table,
                     content: Content, todo: set<Key>, k: Key)
    requires k in content && k in todo && OnlyAt(was, mid, t, Without(content, todo))
    requires now == mid[t := Held(mid, t)[k := content[k]]]
    ensures OnlyAt(was, now, t, Without(content, todo - {k}))
  {
    assert todo - {k} + {k} == todo;
    RefilledOneMore(content, todo - {k}, k);
  }

  lemma DeletedNext(was: map<Table, Content>, mid: map<Table, Content>, now: map<Table, Content>, t: Table,
                    content: Content, done: set<Key>, k: Key)
    requires OnlyAt(was, mid, t, Without(content, done)) && now == mid[t := Held(mid, t) - {k}]
    ensures OnlyAt(was, now, t, Without(content, done + {k}))
  {
    assert Without(content, done) - {k} == Without(content, done + {k});
  }

  lemma AllOrNothing(content: Content)
    ensures Without(content, content.Keys) == map[] && Without(content, {}) == content
  {
  }

  function Held(rows: map<Table, Content>, t: Table): Content {
    if t in rows then rows[t] else map[]
  }

  /** One table's rows are replaced. */
  ghost predicate OnlyAt(was: map<Table, Content>, now: map<Table, Content>, t: Table, content: Content) {
    Held(now, t) == content && forall u :: u != t ==> Held(now, u) == Held(was, u)
  }

  lemma OnlyAtTwice(was: map<Table, Content>, mid: map<Table, Content>, now: map<Table, Content>, t: Table, content: Content)
    requires OnlyAt(was, mid, t, map[])
    ensures OnlyAt(mid, now, t, content) ==> OnlyAt(was, now, t, content)
  {
  }

  /** The rows of the tables `ts` are replaced by `contents`. */
  ghost predicate Refilled(was: map<Table, Content>, now: map<Table, Content>, contents: map<Table, Content>, ts: set<Table>)
    requires ts <= contents.Keys
  {
    forall t :: Held(now, t) == if t in ts then contents[t] else Held(was, t)
  }

  lemma RefilledNext(was: map<Table, Content>, mid: map<Table, Content>, now: map<Table, Content>,
                     contents: map<Table, Content>, ts: set<Table>, t: Table)
    requires ts <= contents.Keys && t in contents && Refilled(was, mid, contents, ts) && OnlyAt(mid, now, t, contents[t])
    ensures Refilled(was, now, contents, ts + {t})
  {
  }

  ghost predicate OfTables(changes: seq<Change>, tables: set<Table>) {
    forall k :: 0 <= k < |changes| ==> changes[k].table in tables
  }

  lemma {:induction false} WriteAllNext(db: Db, changes: seq<Change>, c: Change, at: int, firing: set<Table>)
    ensures WriteAll(db, changes + [c], at, firing)
         == Write(WriteAll(db, changes, at, firing), c, at, c.table in firing)
    decreases |changes|
  {
    if changes == [] {
      assert [] + [c] == [c] && [c][1..] == [];
    } else {
      assert (changes + [c])[1..] == changes[1..] + [c];
      WriteAllNext(Write(db, changes[0], at, changes[0].table in firing), changes[1..], c, at, firing);
    }
  }

  class Store {
    const tracked: set<Table>
    var rows: map<Table, Content>
    var log: seq<LogRow>
    var counter: nat
    var floor: nat
    var floorEntry: Option<Entry>
    var generations: map<Table, Generation>
    var armed: set<Table>
    var matching: set<Table>
    var served: bool
    var hasLog: bool
    var hasState: bool
    var metaTable: bool
    var hasMeta: bool

    ghost function View(): Db
      reads this
    {
      Db(tracked, rows, log, counter, floor, floorEntry, generations, armed, matching, served,
         hasLog, hasState, metaTable, hasMeta)
    }

    constructor (tracked: set<Table>)
      ensures View() == Db(tracked, map[], [], 0, 0, None, map[], {}, {}, false, false, false, false, false)
    {
      this.tracked := tracked;
      rows, log, counter, floor, floorEntry := map[], [], 0, 0, None;
      generations, armed, matching, served := map[], {}, {}, false;
      hasLog, hasState, metaTable, hasMeta := false, false, false, false;
    }

    /** A writer's statement with the triggers of its table, `legacy` being triggers of another form. */
    method WriteRow(c: Change, at: int, legacy: bool) returns (ok: bool)
      modifies this`rows, this`log, this`counter
      ensures View() == Write(old(View()), c, at, c.table in old(armed) || legacy)
      ensures ok ==>
        var after := Changed(Held(old(rows), c.table), c);
        after.Some? && rows == old(rows)[c.table := after.value]
    {
      var before := Held(rows, c.table);
      var after := Changed(before, c);
      if after.None? {
        return false;
      }
      var entries := Emitted(before, c, at);
      var fires := c.table in armed || legacy;
      if fires && entries != [] && !hasLog {
        return false;
      }
      ok := true;
      rows := rows[c.table := after.value];
      if !fires {
        entries := [];
      }
      AppendEntries(entries);
    }

    method AppendEntries(entries: seq<Entry>)
      modifies this`log, this`counter
      ensures counter == old(counter) + |entries|
      ensures log == old(log) + Numbered(entries, old(counter))
    {
      var i := 0;
      while i < |entries|
        invariant 0 <= i <= |entries|
        invariant counter == old(counter) + i
        invariant log == old(log) + Numbered(entries, old(counter))[..i]
      {
        counter := counter + 1;
        log := log + [LogRow(counter, entries[i])];
        i := i + 1;
      }
      assert Numbered(entries, old(counter))[..i] == Numbered(entries, old(counter));
    }

    // -------------------------------------------------------------- compaction

    /** The compactable prefix of one batch: its length, the rows seen and whether a young row stopped it. */
    method CompactablePrefix(cutoff: int) returns (n: nat, seen: nat, stopped: bool)
      ensures n == if OldPrefix(log, cutoff) < COMPACTION_BATCH then OldPrefix(log, cutoff) else COMPACTION_BATCH
      ensures stopped || seen < COMPACTION_BATCH <==> n == OldPrefix(log, cutoff) && !(n == COMPACTION_BATCH)
    {
      n, seen, stopped := 0, 0, false;
      while seen < |log| && seen < COMPACTION_BATCH
        invariant n == seen <= |log| && seen <= COMPACTION_BATCH && !stopped
        invariant forall i :: 0 <= i < n ==> log[i].entry.at < cutoff
      {
        seen := seen + 1;
        if log[seen - 1].entry.at >= cutoff {
          stopped := true;
          return;
        }
        n := seen;
      }
    }

    method CompactBatch(cutoff: int) returns (deleted: nat, done: bool)
      requires hasLog && hasMeta
      modifies this`log, this`floor, this`floorEntry
      ensures deleted <= OldPrefix(old(log), cutoff)
      ensures log == old(log)[deleted..]
      ensures deleted > 0 ==> floor == old(log)[deleted - 1].no && floorEntry == Some(old(log)[deleted - 1].entry)
      ensures deleted == 0 ==> floor == old(floor) && floorEntry == old(floorEntry)
      ensures View() == ChangeFeed.CompactBatch(old(View()), cutoff)
      ensures done ==> deleted == OldPrefix(old(log), cutoff)
      ensures !done ==> deleted > 0
    {
      var n, seen, stopped := CompactablePrefix(cutoff);
      if n == 0 {
        return 0, true;
      }
      floorEntry := Some(log[n - 1].entry);
      floor := log[n - 1].no;
      log := log[n..];
      deleted, done := n, stopped || seen < COMPACTION_BATCH;
    }

    /**
     Compaction in bounded transactions; the context may be cancelled between any two of them.  A
     finished compaction has removed exactly the longest prefix that predates the cutoff, so an old
     entry behind a young one survives, and a cancelled one a shorter prefix; the returned total is
     the number of removed entries and the floor and its entry are those of the last one removed.
     */
    method CompactChangeFeed(now: int, retention: int) returns (total: nat, failed: bool)
      modifies this`log, this`floor, this`floorEntry
      ensures retention <= 0 ==> failed && total == 0
      ensures total <= OldPrefix(old(log), now - retention)
      ensures View() == Compacted(old(View()), total)
      ensures !metaTable || (hasMeta && !hasLog) ==> failed
      ensures !failed && hasMeta ==> total == OldPrefix(old(log), now - retention)
      ensures !failed && hasMeta && total < |old(log)| ==> old(log)[total].entry.at >= now - retention
    {
      total, failed := 0, false;
      if retention <= 0 {
        return 0, true;
      }
      if !metaTable || (hasMeta && !hasLog) {
        return 0, true;
      }
      if !hasMeta {
        var cancelled: bool := *;
        return 0, cancelled;
      }
      total, failed := CompactUntil(now - retention);
    }

    /** One more batch of a compaction that has removed `total` entries of `was` so far. */
    method CompactMore(cutoff: int, ghost was: seq<LogRow>, ghost total: nat) returns (deleted: nat, done: bool)
      requires hasLog && hasMeta && total <= OldPrefix(was, cutoff) && log == was[total..]
      modifies this`log, this`floor, this`floorEntry
      ensures total + deleted <= OldPrefix(was, cutoff) && log == was[total + deleted..]
      ensures deleted > 0 ==> floor == was[total + deleted - 1].no && floorEntry == Some(was[total + deleted - 1].entry)
      ensures deleted == 0 ==> floor == old(floor) && floorEntry == old(floorEntry)
      ensures done ==> total + deleted == OldPrefix(was, cutoff)
      ensures !done ==> deleted > 0
    {
      OldPrefixSplit(was, cutoff, total);
      deleted, done := CompactBatch(cutoff);
      assert was[total..][deleted..] == was[total + deleted..];
    }

    method CompactRows(cutoff: int) returns (total: nat, failed: bool)
      requires hasLog && hasMeta
      modifies this`log, this`floor, this`floorEntry
      ensures total <= OldPrefix(old(log), cutoff) && log == old(log)[total..]
      ensures floor == if total == 0 then old(floor) else old(log)[total - 1].no
      ensures floorEntry == if total == 0 then old(floorEntry) else Some(old(log)[total - 1].entry)
      ensures !failed ==> total == OldPrefix(old(log), cutoff)
    {
      total, failed := 0, false;
      var done := false;
      while !done
        invariant total <= OldPrefix(old(log), cutoff) && log == old(log)[total..]
        invariant floor == if total == 0 then old(floor) else old(log)[total - 1].no
        invariant floorEntry == if total == 0 then old(floorEntry) else Some(old(log)[total - 1].entry)
        invariant done ==> total == OldPrefix(old(log), cutoff)
        decreases !done, |log|
      {
        var cancelled: bool := *;
        if cancelled {
          return total, true;
        }
        var deleted: nat;
        deleted, done := CompactMore(cutoff, old(log), total);
        total := total + deleted;
      }
    }

    method CompactUntil(cutoff: int) returns (total: nat, failed: bool)
      requires hasLog && hasMeta
      modifies this`log, this`floor, this`floorEntry
      ensures total <= OldPrefix(old(log), cutoff)
      ensures View() == Compacted(old(View()), total)
      ensures !failed ==> total == OldPrefix(old(log), cutoff)
    {
      total, failed := CompactRows(cutoff);
    }

    // -------------------------------------------------------------- generations

    ghost function HeadNow(): (head: nat)
      reads this`counter, this`log, this`floor
    {
      Max(Max(counter, LastNo(log)), floor)
    }

    method CurrentHead() returns (head: nat)
      ensures head == HeadNow()
    {
      head := counter;
      if log != [] && log[|log| - 1].no > head {
        head := log[|log| - 1].no;
      }
      if floor > head {
        head := floor;
      }
    }

    method SuspendTriggers(tables: set<Table>)
      requires hasState
      modifies this`armed
      ensures armed == old(armed) - tables
    {
      armed := armed - tables;
    }

    /** Restarts one more of the tables `ts` that started as `was`. */
    method BumpGeneration(t: Table, id: nat, ghost was: map<Table, Generation>, ghost ts: set<Table>,
                          ghost todo: set<Table>, ghost ids: map<Table, nat>)
      requires t in ts && t in todo && t in ids && ids[t] == id
      requires RestartedBut(was, generations, ts, todo, ids, HeadNow())
      modifies this`armed, this`matching, this`generations
      ensures RestartedBut(was, generations, ts, todo - {t}, ids, HeadNow())
      ensures armed == old(armed) + {t} && matching == old(matching) + {t}
    {
      RestartedOneMore(was, generations, ts, todo, t, ids, HeadNow());
      var head := CurrentHead();
      var count := if t in generations then generations[t].count + 1 else 1;
      generations := generations[t := Generation(count, id, head)];
      armed, matching := armed + {t}, matching + {t};
    }

    method BumpGenerations(tables: set<Table>, ids: map<Table, nat>)
      requires tables <= ids.Keys
      modifies this`armed, this`matching, this`generations
      ensures RestartedBut(old(generations), generations, tables, {}, ids, HeadNow())
      ensures RearmedBut(old(armed), armed, tables, {}) && RearmedBut(old(matching), matching, tables, {})
    {
      var todo := tables;
      while todo != {}
        invariant todo <= tables
        invariant RestartedBut(old(generations), generations, tables, todo, ids, HeadNow())
        invariant RearmedBut(old(armed), armed, tables, todo) && RearmedBut(old(matching), matching, tables, todo)
        decreases |todo|
      {
        var t :| t in todo;
        RearmedOneMore(old(armed), armed, tables, todo, t);
        RearmedOneMore(old(matching), matching, tables, todo, t);
        BumpGeneration(t, ids[t], old(generations), tables, todo, ids);
        todo := todo - {t};
      }
    }

    method InsertRows(t: Table, content: Content, at: int)
      requires t !in armed && t in rows && rows[t] == map[]
      modifies this`rows, this`log, this`counter
      ensures rows == old(rows)[t := content] && log == old(log) && counter == old(counter)
    {
      var todo := content.Keys;
      AllOrNothing(content);
      while todo != {}
        invariant todo <= content.Keys && t in rows
        invariant rows == old(rows)[t := Without(content, todo)]
        invariant log == old(log) && counter == old(counter)
        decreases |todo|
      {
        var k :| k in todo;
        InsertUnlogged(t, k, content[k], at);
        RefilledOneMore(content, todo - {k}, k);
        assert todo - {k} + {k} == todo;
        todo := todo - {k};
      }
      AllOrNothing(content);
    }

    method InsertUnlogged(t: Table, k: Key, row: Row, at: int)
      requires t !in armed && t in rows && k !in rows[t]
      modifies this`rows, this`log, this`counter
      ensures rows == old(rows)[t := old(rows)[t][k := row]] && log == old(log) && counter == old(counter)
    {
      ghost var before := View();
      var ok := WriteRow(Insert(t, k, row), at, false);
      assert log == View().log == Write(before, Insert(t, k, row), at, false).log;
      assert Numbered([], before.counter) == [];
    }

    method RefillTable(t: Table, content: Content, at: int)
      requires t !in armed
      modifies this`rows, this`log, this`counter
      ensures rows == old(rows)[t := content] && log == old(log) && counter == old(counter)
    {
      rows := rows[t := map[]];
      InsertRows(t, content, at);
    }

    /**
     A full snapshot replacement in one transaction.  Without change_feed_tables suspending and bumping do
     nothing: every row is then deleted and inserted as by any other writer, or the transaction rolls back
     because a trigger fails.
     */
    method ReplaceTables(contents: map<Table, Content>, ids: map<Table, nat>, at: int, legacy: set<Table>)
      returns (ok: bool, ghost changes: seq<Change>)
      requires contents.Keys <= ids.Keys
      modifies this`rows, this`log, this`counter, this`armed, this`matching, this`generations
      ensures old(hasState) ==> View() == ImportSnapshot(old(View()), contents, ids)
      ensures !old(hasState) && !ok ==> View() == old(View())
      ensures !old(hasState) && ok ==> Refilled(old(rows), rows, contents, contents.Keys)
      ensures !old(hasState) && ok ==>
        Written(old(View()), changes, at, old(armed) + legacy, contents.Keys)
    {
      ok, changes := hasLog && metaTable, [];
      if hasState {
        ReplaceFedTables(contents, ids, at);
      } else {
        var savedRows, savedLog, savedCounter := rows, log, counter;
        ok, changes := ReplaceUnfedTables(contents, at, armed + legacy);
        if !ok {
          rows, log, counter := savedRows, savedLog, savedCounter;
        }
      }
    }

    /** Since `was` exactly these changes have been made, all of them to the given tables. */
    ghost predicate Written(was: Db, changes: seq<Change>, at: int, firing: set<Table>, tables: set<Table>)
      reads this
    {
      OfTables(changes, tables) && View() == WriteAll(was, changes, at, firing)
    }

    method ReplaceUnfedTables(contents: map<Table, Content>, at: int, firing: set<Table>)
      returns (ok: bool, ghost changes: seq<Change>)
      requires armed <= firing
      modifies this`rows, this`log, this`counter
      ensures ok ==> Refilled(old(rows), rows, contents, contents.Keys)
      ensures Written(old(View()), changes, at, firing, contents.Keys)
    {
      ghost var was := View();
      ok, changes := true, [];
      var done: set<Table> := {};
      while contents.Keys - done != {}
        invariant done <= contents.Keys && armed <= firing
        invariant Refilled(old(rows), rows, contents, done)
        invariant Written(was, changes, at, firing, contents.Keys)
        decreases contents.Keys - done
      {
        var t :| t in contents.Keys - done;
        ghost var before := rows;
        ok, changes := RefillLogged(t, contents[t], at, firing, contents.Keys, was, changes);
        if !ok {
          return;
        }
        RefilledNext(old(rows), before, rows, contents, done, t);
        done := done + {t};
      }
      assert done == contents.Keys;
      ok := true;
    }

    /** Deletes every row of a table and inserts the new ones, with its triggers in place. */
    method RefillLogged(t: Table, content: Content, at: int, firing: set<Table>, ghost tables: set<Table>, ghost was: Db,
                        ghost before: seq<Change>)
      returns (ok: bool, ghost changes: seq<Change>)
      requires t in tables && armed <= firing && Written(was, before, at, firing, tables)
      modifies this`rows, this`log, this`counter
      ensures ok ==> OnlyAt(old(rows), rows, t, content)
      ensures Written(was, changes, at, firing, tables)
    {
      ghost var start := rows;
      ok, changes := DeleteLogged(t, at, firing, tables, was, before);
      if ok {
        ghost var cleared := rows;
        ok, changes := InsertLogged(t, content, at, firing, tables, was, changes);
        OnlyAtTwice(start, cleared, rows, t, content);
      }
    }

    method InsertLogged(t: Table, content: Content, at: int, firing: set<Table>, ghost tables: set<Table>, ghost was: Db,
                        ghost before: seq<Change>)
      returns (ok: bool, ghost changes: seq<Change>)
      requires t in tables && armed <= firing && Written(was, before, at, firing, tables)
      requires Held(rows, t) == map[]
      modifies this`rows, this`log, this`counter
      ensures ok ==> OnlyAt(old(rows), rows, t, content)
      ensures Written(was, changes, at, firing, tables)
    {
      ok, changes := true, before;
      var todo := content.Keys;
      AllOrNothing(content);
      while todo != {}
        invariant todo <= content.Keys && armed <= firing
        invariant OnlyAt(old(rows), rows, t, Without(content, todo))
        invariant Written(was, changes, at, firing, tables)
        decreases |todo|
      {
        var k :| k in todo;
        ghost var mid := rows;
        ok, changes := WriteLogged(Insert(t, k, content[k]), at, firing, tables, was, changes);
        if !ok {
          return;
        }
        InsertedNext(old(rows), mid, rows, t, content, todo, k);
        todo := todo - {k};
      }
      ok := true;
    }

    method DeleteLogged(t: Table, at: int, firing: set<Table>, ghost tables: set<Table>, ghost was: Db,
                        ghost before: seq<Change>)
      returns (ok: bool, ghost changes: seq<Change>)
      requires t in tables && armed <= firing && Written(was, before, at, firing, tables)
      modifies this`rows, this`log, this`counter
      ensures ok ==> OnlyAt(old(rows), rows, t, map[])
      ensures Written(was, changes, at, firing, tables)
    {
      ok, changes := true, before;
      var content := Held(rows, t);
      var done: set<Key> := {};
      AllOrNothing(content);
      while content.Keys - done != {}
        invariant done <= content.Keys && armed <= firing
        invariant OnlyAt(old(rows), rows, t, Without(content, done))
        invariant Written(was, changes, at, firing, tables)
        decreases content.Keys - done
      {
        var k :| k in content.Keys - done;
        ghost var mid := rows;
        ok, changes := WriteLogged(Delete(t, k), at, firing, tables, was, changes);
        if !ok {
          return;
        }
        DeletedNext(old(rows), mid, rows, t, content, done, k);
        done := done + {k};
      }
      assert done == content.Keys;
      ok := true;
    }

    /** One more row change of a transaction that has made `before` since `was`. */
    method WriteLogged(c: Change, at: int, firing: set<Table>, ghost tables: set<Table>, ghost was: Db,
                       ghost before: seq<Change>)
      returns (ok: bool, ghost changes: seq<Change>)
      requires c.table in tables && armed <= firing && Written(was, before, at, firing, tables)
      modifies this`rows, this`log, this`counter
      ensures ok ==>
        var after := Changed(Held(old(rows), c.table), c);
        after.Some? && rows == old(rows)[c.table := after.value]
      ensures Written(was, changes, at, firing, tables)
    {
      WriteAllNext(was, before, c, at, firing);
      changes := before + [c];
      ok := WriteRow(c, at, c.table in firing);
    }

    /**
     A full snapshot replacement in one transaction: the triggers are dropped, every row is deleted
     and inserted again, and each table then starts a new generation with its triggers back.
     Nothing is logged, and a feed that cannot report its head rolls the transaction back.
     */
    method ReplaceFedTables(contents: map<Table, Content>, ids: map<Table, nat>, at: int)
      requires hasState && contents.Keys <= ids.Keys
      modifies this`rows, this`log, this`counter, this`armed, this`matching, this`generations
      ensures View() == ImportSnapshot(old(View()), contents, ids)
    {
      var savedRows, savedArmed := rows, armed;
      SuspendTriggers(contents.Keys);
      RefillTables(contents, at);
      if !hasLog || !metaTable {
        rows, armed := savedRows, savedArmed;
        return;
      }
      BumpGenerations(contents.Keys, ids);
      RestartedAll(old(generations), generations, contents.Keys, ids, HeadNow());
      SuspendedAndRearmed(savedArmed, armed, contents.Keys);
      RearmedAll(old(matching), matching, contents.Keys);
    }

    method RefillTables(contents: map<Table, Content>, at: int)
      requires contents.Keys !! armed
      modifies this`rows, this`log, this`counter
      ensures rows == old(rows) + contents && log == old(log) && counter == old(counter)
    {
      var todo := contents.Keys;
      while todo != {}
        invariant todo <= contents.Keys
        invariant RefilledBut(old(rows), rows, contents, todo)
        invariant log == old(log) && counter == old(counter)
        decreases |todo|
      {
        var t :| t in todo;
        RefillTable(t, contents[t], at);
        todo := todo - {t};
      }
      RefilledAll(old(rows), rows, contents);
    }

    // -------------------------------------------------------------- repair

    method IsCurrent() returns (ok: bool)
      ensures ok <==> Current(View())
    {
      if !hasLog || !hasState || !hasMeta || !served {
        return false;
      }
      var todo := tracked;
      while todo != {}
        invariant todo <= tracked
        invariant forall t :: t in tracked && t !in todo ==> TableCurrent(View(), t)
        decreases |todo|
      {
        var t :| t in todo;
        if !(t in generations && t in armed && t in matching) {
          return false;
        }
        todo := todo - {t};
      }
      return true;
    }

    /** Never allocate a sequence at or below one a reader may already hold. */
    method RestoreAllocator()
      modifies this`counter
      ensures counter == Max(old(counter), AllocatorFloor(old(View())))
    {
      var least := floor;
      var todo := generations.Keys;
      while todo != {}
        invariant todo <= generations.Keys && floor <= least
        invariant forall t :: t in generations && t !in todo ==> generations[t].start <= least
        invariant least == floor || exists t :: t in generations && generations[t].start == least
        decreases |todo|
      {
        var t :| t in todo;
        if generations[t].start > least {
          least := generations[t].start;
        }
        todo := todo - {t};
      }
      assert least == Max(floor, MaxStart(generations));
      if log != [] && log[|log| - 1].no > least {
        least := log[|log| - 1].no;
      }
      if least > counter {
        counter := least;
      }
    }

    /** Installs or repairs the feed when a writable open finds it out of date. */
    method EnsureChangeFeed(ids: map<Table, nat>)
      requires tracked <= ids.Keys
      modifies this
      ensures View() == Repair(old(View()), ids)
    {
      var ok := IsCurrent();
      if ok {
        return;
      }
      var partial := !(hasLog && hasState && hasMeta);
      var stale := if partial then tracked
                   else set t | t in tracked && !(t in generations && t in armed && t in matching);
      assert stale == Stale(View());
      RecreateTables();
      ghost var was := generations;
      BumpGenerations(stale, ids);
      RestartedAll(was, generations, stale, ids, HeadNow());
      RearmedAll(old(armed), armed, stale);
      RearmedAll(old(matching), matching, stale);
    }

    method RecreateTables()
      modifies this`hasLog, this`hasState, this`metaTable, this`hasMeta, this`served, this`counter, this`log, this`floor, this`floorEntry
      ensures hasLog && hasState && metaTable && hasMeta && served
      ensures counter == Recreated(old(View())).counter && log == Recreated(old(View())).log
      ensures floor == Recreated(old(View())).floor && floorEntry == Recreated(old(View())).floorEntry
    {
      ghost var was := View();
      ghost var counted := was.(counter := Max(was.counter, AllocatorFloor(was)));
      var partial := !(hasLog && hasState && hasMeta);
      assert partial == !Intact(was);
      RestoreAllocator();
      assert HeadNow() == Head(counted);
      hasLog, hasState, metaTable, hasMeta, served := true, true, true, true, true;
      if partial {
        var head := CurrentHead();
        log, floor, floorEntry := [], head, None;
      }
    }
  }
}
