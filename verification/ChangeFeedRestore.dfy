/**
 A store that is replaced by an older state of its own and then written again.

 The restored store gives out the numbers after its head a second time, under unchanged generations.
 The digest a reader keeps with its cursor is there to notice that: an accepted cursor still replays
 exactly, unless both histories logged an entry with the same digest at the cursor.
 */
module ChangeFeedRestore {
  import opened Options
  import opened ChangeFeed
  import opened ChangeFeedRuns

  /** The rows a step appends to the log. */
  ghost function LoggedBy(db: Db, s: Step): set<LogRow> {
    match s
    case Writes(c, at, fires) => set x | x in Write(db, c, at, fires).log && x.no > db.counter
    case _ => {}
  }

  /** Every row a run appends, whether or not it is still in the log at the end. */
  ghost function Logged(w: World, steps: seq<Step>): set<LogRow>
    requires Runnable(w, steps)
    decreases |steps|
  {
    if steps == [] then {} else LoggedBy(w.db, steps[0]) + Logged(Next(w, steps[0]), steps[1..])
  }

  // ---------------------------------------------------------------- a generation that is kept

  ghost predicate Holds(db: Db, t: Table, id: nat) {
    Intact(db) && TableCurrent(db, t) && db.generations[t].id == id
  }

  /** A generation that was there before a step and is in force after it was in force before it. */
  lemma StepKeepsBack(w: World, s: Step, t: Table, id: nat)
    requires Inv(w) && Enabled(w, s) && id in w.used && Holds(Next(w, s).db, t, id)
    ensures Holds(w.db, t, id) && Next(w, s).db.counter >= w.db.counter
  {
    StepKeepsInv(w, s);
    if s.Imports? || s.Repairs? {
      if t in Renewed(w.db, s) {
        RenewedHaveNewIds(w, s, t);
        assert false;
      }
      if Intact(w.db) {
        OthersKeepTheirGeneration(w, s, t);
      }
    }
  }

  lemma {:induction false} UsedGrows(w: World, steps: seq<Step>)
    requires Runnable(w, steps)
    ensures w.used <= Run(w, steps).used
    decreases |steps|
  {
    if steps != [] {
      UsedGrows(Next(w, steps[0]), steps[1..]);
    }
  }

  lemma {:induction false} RunKeepsBack(w: World, steps: seq<Step>, t: Table, id: nat)
    requires Inv(w) && Runnable(w, steps) && id in w.used && Holds(Run(w, steps).db, t, id)
    ensures Holds(w.db, t, id) && Inv(Run(w, steps)) && Run(w, steps).db.counter >= w.db.counter
    decreases |steps|
  {
    if steps != [] {
      StepKeepsInv(w, steps[0]);
      RunKeepsBack(Next(w, steps[0]), steps[1..], t, id);
      StepKeepsBack(w, steps[0], t, id);
    }
  }

  // ---------------------------------------------------------------- what the cursor's digest is taken of

  ghost predicate MarkedAt(db: Db, history: set<LogRow>, no: nat) {
    Mark(db, no).Some? && LogRow(no, Mark(db, no).value) in history
  }

  /** Every number above `start` that is not below the floor has the digest of the row appended with it. */
  ghost predicate Marked(db: Db, start: nat, history: set<LogRow>) {
    forall no: nat :: start < no && db.floor <= no <= db.counter ==> MarkedAt(db, history, no)
  }

  lemma AppendKeepsMarks(db: Db, rows: map<Table, Content>, es: seq<Entry>, start: nat, history: set<LogRow>)
    requires Ordered(db) && Numbering(db) && db.hasLog && |es| <= 2 && Marked(db, start, history)
    ensures var next := Appended(db, rows, es);
      Marked(next, start, history + set x | x in next.log && x.no > db.counter)
  {
    var next := Appended(db, rows, es);
    var all := history + set x | x in next.log && x.no > db.counter;
    AppendKeepsOrder(db, rows, es);
    forall no: nat | start < no && next.floor <= no <= next.counter ensures MarkedAt(next, all, no) {
      if no <= db.counter {
        NewestAfterWrite(db.log, es, db.counter, "", [], no);
        assert MarkedAt(db, history, no);
      } else {
        NewNumberIsMarked(db, rows, es, no);
      }
    }
  }

  lemma NewNumberIsMarked(db: Db, rows: map<Table, Content>, es: seq<Entry>, no: nat)
    requires Ordered(Appended(db, rows, es)) && db.counter < no <= db.counter + |es|
    ensures var next := Appended(db, rows, es); MarkedAt(next, (set x | x in next.log && x.no > db.counter), no)
  {
    var next := Appended(db, rows, es);
    var i := |db.log| + (no - db.counter - 1);
    assert next.log[i].no == no;
    EntryFound(next.log, i);
    assert next.log[i] in next.log;
  }

  lemma CompactKeepsMarks(db: Db, n: nat, start: nat, history: set<LogRow>)
    requires Ordered(db) && n <= |db.log| && Marked(db, start, history)
    ensures Marked(Compacted(db, n), start, history)
  {
    if n > 0 {
      var next := Compacted(db, n);
      forall no: nat | start < no && next.floor <= no <= next.counter ensures MarkedAt(next, history, no) {
        assert MarkedAt(db, history, no);
        if no == next.floor {
          EntryFound(db.log, n - 1);
          NoEntryAbove(next.log, no);
        } else {
          PrefixEntries(db.log, n, no);
        }
      }
    }
  }

  lemma WriteKeepsMarks(db: Db, s: Step, start: nat, history: set<LogRow>)
    requires Ordered(db) && Numbering(db) && Intact(db) && s.Writes? && Marked(db, start, history)
    ensures Marked(Write(db, s.c, s.at, s.fires), start, history + LoggedBy(db, s))
  {
    var rows := RowsOf(db, s.c.table);
    if Changed(rows, s.c).Some? {
      EmittedTellsFate(rows, s.c, s.at, []);
      AppendKeepsMarks(db, db.rows[s.c.table := Changed(rows, s.c).value],
                       if s.fires then Emitted(rows, s.c, s.at) else [], start, history);
    } else {
      MoreHistory(db, start, history, LoggedBy(db, s));
    }
  }

  lemma MoreHistory(db: Db, start: nat, history: set<LogRow>, more: set<LogRow>)
    requires Marked(db, start, history)
    ensures Marked(db, start, history + more)
  {
    forall no: nat | start < no && db.floor <= no <= db.counter ensures MarkedAt(db, history + more, no) {
      assert MarkedAt(db, history, no);
    }
  }

  /** A step that leaves log, floor and counter alone leaves the marks alone. */
  lemma SameMarks(db: Db, next: Db, start: nat, history: set<LogRow>)
    requires Marked(db, start, history)
    requires next.log == db.log && next.floor == db.floor && next.floorEntry == db.floorEntry && next.counter == db.counter
    ensures Marked(next, start, history)
  {
    forall no: nat | start < no && next.floor <= no <= next.counter ensures MarkedAt(next, history, no) {
      assert MarkedAt(db, history, no);
    }
  }

  lemma StepKeepsMarks(w: World, s: Step, start: nat, history: set<LogRow>, t: Table, id: nat)
    requires Inv(w) && Enabled(w, s) && id in w.used && Holds(Next(w, s).db, t, id)
    requires Marked(w.db, start, history)
    ensures Marked(Next(w, s).db, start, history + LoggedBy(w.db, s))
  {
    StepKeepsBack(w, s, t, id);
    match s
    case Writes(_, _, _) => WriteKeepsMarks(w.db, s, start, history);
    case Compacts(cutoff) =>
      CompactKeepsMarks(w.db, Batch(w.db.log, cutoff), start, history);
      assert history + {} == history;
    case _ =>
      if s.Imports? || s.Repairs? {
        if t in Renewed(w.db, s) {
          RenewedHaveNewIds(w, s, t);
          assert false;
        } else {
          OthersKeepTheirGeneration(w, s, t);
        }
      }
      SameMarks(w.db, Next(w, s).db, start, history);
      assert history + {} == history;
  }

  lemma {:induction false} RunKeepsMarks(w: World, steps: seq<Step>, start: nat, history: set<LogRow>, t: Table, id: nat)
    requires Inv(w) && Runnable(w, steps) && id in w.used && Holds(Run(w, steps).db, t, id)
    requires Marked(w.db, start, history)
    ensures Marked(Run(w, steps).db, start, history + Logged(w, steps))
    decreases |steps|
  {
    if steps == [] {
      assert history + {} == history;
    } else {
      var next := Next(w, steps[0]);
      StepKeepsInv(w, steps[0]);
      RunKeepsBack(next, steps[1..], t, id);
      StepKeepsMarks(w, steps[0], start, history, t, id);
      RunKeepsMarks(next, steps[1..], start, history + LoggedBy(w.db, steps[0]), t, id);
      assert history + LoggedBy(w.db, steps[0]) + Logged(next, steps[1..]) == history + Logged(w, steps);
    }
  }

  // ---------------------------------------------------------------- the theorem

  /** The state `w` put back after a run: random ids are still never drawn twice. */
  ghost function PutBack(w: World, used: set<nat>): World {
    World(w.db, used, w.issued)
  }

  /** A capture after a run that logged nothing is the capture before it. */
  lemma QuietCapture(w: World, steps: seq<Step>, t: Table)
    requires Inv(w) && Runnable(w, steps) && Intact(w.db) && TableCurrent(w.db, t)
    requires Holds(Run(w, steps).db, t, w.db.generations[t].id) && Run(w, steps).db.counter == w.db.counter
    ensures Capture(Run(w, steps).db, t) == Capture(w.db, t)
  {
    var before, db := Capture(w.db, t), Run(w, steps).db;
    CaptureTracks(w, t);
    RunTracks(w, steps, before);
    HeadIsCounter(w.db);
    HeadIsCounter(db);
    assert Continuous(db, before);
    forall k: Key ensures k in RowsOf(db, t) <==> k in before.copy
      ensures k in before.copy ==> RowsOf(db, t)[k] == before.copy[k]
    {
      assert KeyFaithful(db, before, k);
      NothingAfterLast(db.log, t, k, before.at);
    }
    assert RowsOf(db, t) == before.copy;
  }

  /** Both histories gave the number an entry with the same digest. */
  ghost predicate Collides(w: World, first: seq<Step>, back: World, second: seq<Step>, no: nat)
    requires Runnable(w, first) && Runnable(back, second)
  {
    exists e: Entry :: LogRow(no, e) in Logged(w, first) && LogRow(no, e) in Logged(back, second)
  }

  /**
   A reader captured `t` after the run `first`.  Then the store was put back to the state before that run
   and went on with `second`.  A cursor that is accepted there replays exactly, unless both runs logged an
   entry with the same digest under the cursor's number.
   */
  lemma RestoredInPlace(w: World, first: seq<Step>, second: seq<Step>, t: Table)
    requires Inv(w) && Runnable(w, first)
    requires Intact(Run(w, first).db) && TableCurrent(Run(w, first).db, t)
    requires Runnable(PutBack(w, Run(w, first).used), second)
    ensures var back := PutBack(w, Run(w, first).used);
      var r, db := Capture(Run(w, first).db, t), Run(back, second).db;
      Intact(db) && TableCurrent(db, t) && CursorValid(db, r) ==>
        (Replayed(db, r) == RowsOf(db, t) && Consistent(db, r)) || Collides(w, first, back, second, r.at)
  {
    var a := Run(w, first);
    var back := PutBack(w, a.used);
    var b := Run(back, second);
    var r := Capture(a.db, t);
    if Intact(b.db) && TableCurrent(b.db, t) && CursorValid(b.db, r) {
      UsedGrows(w, first);
      RunInv(w, first);
      RunKeepsBack(back, second, t, r.id);
      assert r.id in w.used;
      RunKeepsBack(w, first, t, r.id);
      HeadIsCounter(a.db);
      if r.at == w.db.counter {
        QuietCapture(w, first, t);
        CaptureTracks(back, t);
        RunTracks(back, second, r);
        FaithfulIsServed(b.db, r);
      } else {
        NumberWasLogged(w, first, t, r.id, r.at);
        HeadIsCounter(b.db);
        NumberWasLogged(back, second, t, r.id, r.at);
        assert Mark(b.db, r.at) == r.mark;
      }
    }
  }

  /** The digest at a number above the start is that of the entry the run logged under it. */
  lemma NumberWasLogged(w: World, steps: seq<Step>, t: Table, id: nat, no: nat)
    requires Inv(w) && Runnable(w, steps) && id in w.used && Holds(Run(w, steps).db, t, id)
    requires w.db.counter < no && Run(w, steps).db.floor <= no <= Run(w, steps).db.counter
    ensures MarkedAt(Run(w, steps).db, Logged(w, steps), no)
  {
    RunKeepsMarks(w, steps, w.db.counter, {}, t, id);
    assert {} + Logged(w, steps) == Logged(w, steps);
  }

  /** One insert seen by a reader that captures right after it. */
  lemma CaptureAfterInsert(w: World, t: Table, k: Key, row: Row, at: int)
    requires Inv(w) && Intact(w.db) && TableCurrent(w.db, t) && k !in RowsOf(w.db, t)
    ensures var s := Writes(Insert(t, k, row), at, true); var db := Next(w, s).db;
      && Enabled(w, s) && Inv(Next(w, s)) && Intact(db) && TableCurrent(db, t) && RowsOf(db, t) == RowsOf(w.db, t)[k := row]
      && EntryAt(db.log, w.db.counter + 1) == Some(Entry(t, Inserted, k, at)) && Head(db) == w.db.counter + 1
      && Capture(db, t) == Reader(t, RowsOf(db, t), w.db.generations[t].id, w.db.counter + 1, Some(Entry(t, Inserted, k, at)))
      && db.floor <= w.db.counter && Newest(db.log, t, k, w.db.counter + 1) == None
  {
    var s := Writes(Insert(t, k, row), at, true);
    StepKeepsInv(w, s);
    var db := Next(w, s).db;
    assert db == Appended(w.db, w.db.rows[t := RowsOf(w.db, t)[k := row]], [Entry(t, Inserted, k, at)]);
    EntryFound(db.log, |w.db.log|);
    HeadIsCounter(db);
    NothingAfterLast(db.log, t, k, w.db.counter + 1);
  }

  /**
   The exception is real: when both histories insert the same key in the same millisecond with different
   rows, the cursor is accepted and the replay keeps the row that is gone.
   */
  lemma EqualDigestsDeceive(w: World, t: Table, k: Key, lost: Row, kept: Row, at: int)
    requires Inv(w) && Intact(w.db) && TableCurrent(w.db, t) && k !in RowsOf(w.db, t) && lost != kept
    ensures var s, s2 := Writes(Insert(t, k, lost), at, true), Writes(Insert(t, k, kept), at, true);
      && Enabled(w, s) && Enabled(w, s2)
      && var r, db := Capture(Next(w, s).db, t), Next(w, s2).db;
         CursorValid(db, r) && Replayed(db, r) != RowsOf(db, t)
  {
    CaptureAfterInsert(w, t, k, lost, at);
    CaptureAfterInsert(w, t, k, kept, at);
    var r := Capture(Next(w, Writes(Insert(t, k, lost), at, true)).db, t);
    var db := Next(w, Writes(Insert(t, k, kept), at, true)).db;
    OldRowIsKept(db, r, k);
  }

  /** A key that is not logged after the cursor keeps the row of the reader's copy. */
  lemma OldRowIsKept(db: Db, r: Reader, k: Key)
    requires Newest(db.log, r.table, k, r.at) == None && k in r.copy
    ensures k in Replayed(db, r) && Replayed(db, r)[k] == r.copy[k]
  {
    assert !ReplayedKey(db, r, k);
  }
}
