/**
 Merging guild and member rows of a snapshot into the local archive (internal/share/rows.go).

 Time stamps are strings; `Clock` stands for RFC 3339 parsing and formatting and for trimming, and
 maps a time stamp to its instant.
 */
module MergeAdmission {
  import opened Options
  import opened Texts

  datatype Clock = Clock(parse: string -> Option<int>, format: int -> string, trim: string -> string) {
    ghost predicate Valid() {
      && trim("") == ""
      && (forall t :: parse(format(t)) == Some(t) && trim(format(t)) == format(t) && format(t) != "")
      && (forall s :: trim(trim(s)) == trim(s))
    }

    /** The instant a stored revision names. */
    function Instant(s: string): Option<int> {
      parse(trim(s))
    }
  }

  // ---------------------------------------------------------------- comparing revisions

  /** Chronological when both are time stamps, textual otherwise. */
  function Compare(clock: Clock, left: string, right: string): int {
    match (clock.Instant(left), clock.Instant(right))
    case (Some(l), Some(r)) => if l < r then -1 else if l > r then 1 else 0
    case _ => CompareText(clock.trim(left), clock.trim(right))
  }

  // ---------------------------------------------------------------- validating a row

  datatype Cell = Null | Text(s: string) | Other

  type Cells = map<string, Cell>

  const SOURCE := "deletion_source"
  const REASON := "deletion_reason"

  function Get(cells: Cells, column: string): Cell {
    if column in cells then cells[column] else Null
  }

  predicate Blank(clock: Clock, c: Cell) {
    c == Null || (c.Text? && clock.trim(c.s) == "")
  }

  predicate Filled(clock: Clock, c: Cell) {
    c.Text? && clock.trim(c.s) != ""
  }

  function Stamp(clock: Clock, c: Cell): Option<int> {
    if Filled(clock, c) then clock.Instant(c.s) else None
  }

  predicate IsTombstone(clock: Clock, cells: Cells) {
    !Blank(clock, Get(cells, "deleted_at"))
  }

  /** A row with a time stamp as revision, and deletion metadata exactly when it is a tombstone. */
  predicate Acceptable(clock: Clock, cells: Cells) {
    && Stamp(clock, Get(cells, "updated_at")).Some?
    && if IsTombstone(clock, cells) then
         Stamp(clock, Get(cells, "deleted_at")).Some?
         && Filled(clock, Get(cells, SOURCE)) && Filled(clock, Get(cells, REASON))
       else Blank(clock, Get(cells, SOURCE)) && Blank(clock, Get(cells, REASON))
  }

  /** The stored form of each column of an acceptable row. */
  function Stored(clock: Clock, cells: Cells, column: string): Cell
    requires Acceptable(clock, cells)
  {
    if column == "updated_at" then Text(clock.format(Stamp(clock, Get(cells, column)).value))
    else if column == "deleted_at" then
      if IsTombstone(clock, cells) then Text(clock.format(Stamp(clock, Get(cells, column)).value)) else Null
    else if column == SOURCE || column == REASON then
      if IsTombstone(clock, cells) then Text(clock.trim(Get(cells, column).s)) else Null
    else Get(cells, column)
  }

  class Record {
    var cells: Cells

    method ValidateRevision(clock: Clock) returns (ok: bool)
      modifies this
      ensures ok <==> Stamp(clock, old(Get(cells, "updated_at"))).Some?
      ensures ok ==> cells == old(cells)["updated_at" := Text(clock.format(Stamp(clock, old(Get(cells, "updated_at"))).value))]
    {
      var raw := Get(cells, "updated_at");
      if !raw.Text? || clock.trim(raw.s) == "" {
        return false;
      }
      var parsed := clock.parse(clock.trim(raw.s));
      if parsed.None? {
        return false;
      }
      cells := cells["updated_at" := Text(clock.format(parsed.value))];
      ok := true;
    }

    /** A live row has no deletion metadata; blank text becomes null. */
    method ValidateLive(clock: Clock) returns (ok: bool)
      modifies this
      ensures ok <==> Blank(clock, old(Get(cells, SOURCE))) && Blank(clock, old(Get(cells, REASON)))
      ensures ok ==> Get(cells, SOURCE) == Null && Get(cells, REASON) == Null
      ensures forall c :: c != SOURCE && c != REASON ==> Get(cells, c) == old(Get(cells, c))
    {
      var columns := [SOURCE, REASON];
      for i := 0 to 2
        invariant forall k :: 0 <= k < i ==> Blank(clock, old(Get(cells, columns[k]))) && Get(cells, columns[k]) == Null
        invariant forall k :: i <= k < 2 ==> Get(cells, columns[k]) == old(Get(cells, columns[k]))
        invariant forall c :: c != SOURCE && c != REASON ==> Get(cells, c) == old(Get(cells, c))
      {
        var raw := Get(cells, columns[i]);
        if raw == Null {
          continue;
        }
        if !raw.Text? || clock.trim(raw.s) != "" {
          return false;
        }
        cells := cells[columns[i] := Null];
      }
      assert columns[0] == SOURCE && columns[1] == REASON;
      ok := true;
    }

    /** A tombstone names the source and the reason of the deletion. */
    method ValidateTombstone(clock: Clock) returns (ok: bool)
      modifies this
      ensures ok <==> Filled(clock, old(Get(cells, SOURCE))) && Filled(clock, old(Get(cells, REASON)))
      ensures ok ==> Get(cells, SOURCE) == Text(clock.trim(old(Get(cells, SOURCE)).s))
      ensures ok ==> Get(cells, REASON) == Text(clock.trim(old(Get(cells, REASON)).s))
      ensures forall c :: c != SOURCE && c != REASON ==> Get(cells, c) == old(Get(cells, c))
    {
      var columns := [SOURCE, REASON];
      for i := 0 to 2
        invariant forall k :: 0 <= k < i ==> Filled(clock, old(Get(cells, columns[k])))
        invariant forall k :: 0 <= k < i ==> Get(cells, columns[k]) == Text(clock.trim(old(Get(cells, columns[k])).s))
        invariant forall k :: i <= k < 2 ==> Get(cells, columns[k]) == old(Get(cells, columns[k]))
        invariant forall c :: c != SOURCE && c != REASON ==> Get(cells, c) == old(Get(cells, c))
      {
        var raw := Get(cells, columns[i]);
        if !raw.Text? || clock.trim(raw.s) == "" {
          return false;
        }
        cells := cells[columns[i] := Text(clock.trim(raw.s))];
      }
      assert columns[0] == SOURCE && columns[1] == REASON;
      ok := true;
    }

    /** Validates a guild or member row and puts it into its stored form. */
    method Validate(clock: Clock) returns (ok: bool)
      modifies this
      ensures ok <==> Acceptable(clock, old(cells))
      ensures ok ==> forall c :: Get(cells, c) == Stored(clock, old(cells), c)
    {
      ok := ValidateRevision(clock);
      if !ok {
        return;
      }
      var raw := Get(cells, "deleted_at");
      if raw == Null {
        ok := ValidateLive(clock);
        return;
      }
      if !raw.Text? {
        return false;
      }
      if clock.trim(raw.s) == "" {
        cells := cells["deleted_at" := Null];
        ok := ValidateLive(clock);
        return;
      }
      var parsed := clock.parse(clock.trim(raw.s));
      if parsed.None? {
        return false;
      }
      cells := cells["deleted_at" := Text(clock.format(parsed.value))];
      ok := ValidateTombstone(clock);
    }
  }

  /** A row in its stored form is accepted and already in that form; revision and deletion are kept. */
  lemma StoredFormIsFixed(clock: Clock, cells: Cells, stored: Cells)
    requires clock.Valid() && Acceptable(clock, cells)
    requires forall c :: Get(stored, c) == Stored(clock, cells, c)
    ensures Acceptable(clock, stored) && forall c :: Stored(clock, stored, c) == Get(stored, c)
    ensures IsTombstone(clock, stored) == IsTombstone(clock, cells)
    ensures Stamp(clock, Get(stored, "updated_at")) == Stamp(clock, Get(cells, "updated_at"))
  {
    assert Get(stored, "updated_at") == Stored(clock, cells, "updated_at");
    assert Get(stored, "deleted_at") == Stored(clock, cells, "deleted_at");
    assert Get(stored, SOURCE) == Stored(clock, cells, SOURCE);
    assert Get(stored, REASON) == Stored(clock, cells, REASON);
    FormattedStamp(clock, Stamp(clock, Get(cells, "updated_at")).value);
    if IsTombstone(clock, cells) {
      FormattedStamp(clock, Stamp(clock, Get(cells, "deleted_at")).value);
      assert Filled(clock, Get(stored, SOURCE)) && Filled(clock, Get(stored, REASON));
    }
  }

  lemma FormattedStamp(clock: Clock, t: int)
    requires clock.Valid()
    ensures Stamp(clock, Text(clock.format(t))) == Some(t)
  {
    assert clock.parse(clock.format(t)) == Some(t);
    assert clock.trim(clock.format(t)) == clock.format(t);
  }

  // ---------------------------------------------------------------- admitting a row

  /** What admission looks at: the revision, whether the row is a tombstone, and the rest. */
  datatype Row = Row(updated: string, tombstone: bool, rest: int)

  /** Whether an incoming row may replace the local one; `fence` is when the entity was last observed. */
  function Admits(clock: Clock, local: Option<Row>, fence: Option<string>, row: Row): bool {
    if local.None? then true
    else
      var l := local.value;
      var revision := if fence.Some? && Compare(clock, fence.value, l.updated) > 0 then fence.value else l.updated;
      var comparison := Compare(clock, row.updated, revision);
      if comparison != 0 then comparison > 0 else !l.tombstone || row.tombstone
  }

  function Applied(clock: Clock, local: Option<Row>, fence: Option<string>, row: Row): Option<Row> {
    if Admits(clock, local, fence, row) then Some(row) else local
  }

  /** The row after a run of incoming rows. */
  function Merged(clock: Clock, local: Option<Row>, fence: Option<string>, rows: seq<Row>): Option<Row> {
    if rows == [] then local
    else Applied(clock, Merged(clock, local, fence, rows[..|rows| - 1]), fence, rows[|rows| - 1])
  }

  function RowsFor<K(==)>(batch: seq<(K, Row)>, key: K): seq<Row> {
    if batch == [] then []
    else
      var before := RowsFor(batch[..|batch| - 1], key);
      if batch[|batch| - 1].0 == key then before + [batch[|batch| - 1].1] else before
  }

  lemma RowsForNext<K>(batch: seq<(K, Row)>, i: nat, key: K)
    requires i < |batch|
    ensures RowsFor(batch[..i + 1], key) ==
      if batch[i].0 == key then RowsFor(batch[..i], key) + [batch[i].1] else RowsFor(batch[..i], key)
  {
    assert batch[..i + 1][..i] == batch[..i];
  }

  lemma MergedNext(clock: Clock, local: Option<Row>, fence: Option<string>, rows: seq<Row>, row: Row)
    ensures Merged(clock, local, fence, rows + [row]) == Applied(clock, Merged(clock, local, fence, rows), fence, row)
  {
    assert (rows + [row])[..|rows|] == rows;
  }

  class EntityTable<K(==,!new)> {
    var rows: map<K, Row>
    var checks: map<K, string>

    method Upsert(clock: Clock, key: K, row: Row) returns (applied: bool)
      modifies this`rows
      ensures applied == Admits(clock, old(At(rows, key)), At(checks, key), row)
      ensures rows == if applied then old(rows)[key := row] else old(rows)
    {
      applied := true;
      if key in rows {
        var updated, tombstone := rows[key].updated, rows[key].tombstone;
        if key in checks && Compare(clock, checks[key], updated) > 0 {
          updated := checks[key];
        }
        var comparison := Compare(clock, row.updated, updated);
        if comparison != 0 {
          applied := comparison > 0;
        } else {
          applied := !tombstone || row.tombstone;
        }
      }
      if applied {
        rows := rows[key := row];
      }
    }

    /** Each key ends with the merge of its own rows, whatever the other keys receive. */
    method Merge(clock: Clock, batch: seq<(K, Row)>)
      modifies this`rows
      ensures forall k :: At(rows, k) == Merged(clock, old(At(rows, k)), At(checks, k), RowsFor(batch, k))
    {
      for i := 0 to |batch|
        invariant forall k :: At(rows, k) == Merged(clock, old(At(rows, k)), At(checks, k), RowsFor(batch[..i], k))
      {
        var key, row := batch[i].0, batch[i].1;
        label L:
        var applied := Upsert(clock, key, row);
        forall k
          ensures At(rows, k) == Merged(clock, old(At(rows, k)), At(checks, k), RowsFor(batch[..i + 1], k))
        {
          RowsForNext(batch, i, k);
          if k == key {
            MergedNext(clock, old(At(rows, k)), At(checks, k), RowsFor(batch[..i], k), row);
          } else {
            assert At(rows, k) == old@L(At(rows, k));
          }
        }
      }
      assert batch[..|batch|] == batch;
    }
  }

  // ---------------------------------------------------------------- the merge is a join

  /** The revision is a time stamp, as validation makes sure. */
  predicate Dated(clock: Clock, row: Row) {
    clock.Instant(row.updated).Some?
  }

  predicate AllDated(clock: Clock, rows: seq<Row>) {
    forall k :: 0 <= k < |rows| ==> Dated(clock, rows[k])
  }

  function Time(clock: Clock, row: Row): int
    requires Dated(clock, row)
  {
    clock.Instant(row.updated).value
  }

  /** Later first, and a tombstone before a live row of the same revision. */
  predicate AtLeast(clock: Clock, a: Row, b: Row)
    requires Dated(clock, a) && Dated(clock, b)
  {
    Time(clock, a) > Time(clock, b) || (Time(clock, a) == Time(clock, b) && (a.tombstone || !b.tombstone))
  }

  predicate FenceDated(clock: Clock, fence: Option<string>) {
    fence.Some? ==> clock.Instant(fence.value).Some?
  }

  /** Where a row replaces the local one: not behind it, nor behind the fence. */
  predicate Passes(clock: Clock, local: Row, fence: Option<string>, row: Row)
    requires Dated(clock, local) && Dated(clock, row) && FenceDated(clock, fence)
  {
    && AtLeast(clock, row, local)
    && (fence.Some? ==>
          var f := clock.Instant(fence.value).value;
          Time(clock, row) >= f && (Time(clock, row) == f ==> row.tombstone || !local.tombstone))
  }

  /** The stored revision never decreases, and a tombstone yields only to a row that is later than it and the fence. */
  lemma NothingIsUndone(clock: Clock, local: Row, fence: Option<string>, row: Row)
    requires Dated(clock, local) && Dated(clock, row) && FenceDated(clock, fence)
    ensures Admits(clock, Some(local), fence, row) <==> Passes(clock, local, fence, row)
    ensures var after := Applied(clock, Some(local), fence, row).value;
      && AtLeast(clock, after, local)
      && (local.tombstone && !after.tombstone ==>
            Time(clock, after) > Time(clock, local)
            && (fence.Some? ==> Time(clock, after) > clock.Instant(fence.value).value))
  {
  }

  /**
   With a local row: unless some row passes, it stays; otherwise the greatest row wins.  This does not
   mention the order of the rows.
   */
  lemma {:induction false} MergedIsGreatest(clock: Clock, local: Row, fence: Option<string>, rows: seq<Row>)
    requires Dated(clock, local) && AllDated(clock, rows) && FenceDated(clock, fence)
    ensures var r := Merged(clock, Some(local), fence, rows);
      && r.Some? && Dated(clock, r.value) && AtLeast(clock, r.value, local)
      && if exists k :: 0 <= k < |rows| && Passes(clock, local, fence, rows[k])
         then r.value in rows && Passes(clock, local, fence, r.value)
              && forall k :: 0 <= k < |rows| ==> AtLeast(clock, r.value, rows[k])
         else r.value == local
    decreases |rows|
  {
    if rows != [] {
      var n := |rows| - 1;
      MergedIsGreatest(clock, local, fence, rows[..n]);
      var before := Merged(clock, Some(local), fence, rows[..n]).value;
      NothingIsUndone(clock, before, fence, rows[n]);
      assert forall k :: 0 <= k < n ==> rows[..n][k] == rows[k];
    }
  }

  /** The same revision and the same deletion state. */
  predicate SameState(clock: Clock, a: Option<Row>, b: Option<Row>) {
    match (a, b)
    case (None, None) => true
    case (Some(x), Some(y)) => clock.Instant(x.updated) == clock.Instant(y.updated) && x.tombstone == y.tombstone
    case _ => false
  }

  /** Every order of the same rows ends in the same state. */
  ghost predicate OrderIndependent(clock: Clock, local: Option<Row>, fence: Option<string>) {
    forall a, b :: AllDated(clock, a) && multiset(a) == multiset(b) ==>
      SameState(clock, Merged(clock, local, fence, a), Merged(clock, local, fence, b))
  }

  lemma SameRows(a: seq<Row>, b: seq<Row>)
    requires multiset(a) == multiset(b)
    ensures forall r :: r in a <==> r in b
  {
    forall r ensures r in a <==> r in b {
      assert r in a <==> r in multiset(a);
      assert r in b <==> r in multiset(b);
    }
  }

  lemma OrderWithLocal(clock: Clock, local: Row, fence: Option<string>, a: seq<Row>, b: seq<Row>)
    requires Dated(clock, local) && FenceDated(clock, fence) && AllDated(clock, a) && multiset(a) == multiset(b)
    ensures SameState(clock, Merged(clock, Some(local), fence, a), Merged(clock, Some(local), fence, b))
  {
    SameRows(a, b);
    forall k | 0 <= k < |b| ensures Dated(clock, b[k]) {
      assert b[k] in a;
    }
    MergedIsGreatest(clock, local, fence, a);
    MergedIsGreatest(clock, local, fence, b);
    forall k | 0 <= k < |a| && Passes(clock, local, fence, a[k])
      ensures exists j :: 0 <= j < |b| && Passes(clock, local, fence, b[j])
    {
      assert a[k] in b;
    }
    forall k | 0 <= k < |b| && Passes(clock, local, fence, b[k])
      ensures exists j :: 0 <= j < |a| && Passes(clock, local, fence, a[j])
    {
      assert b[k] in a;
    }
  }

  lemma {:induction false} FreshIsGreatest(clock: Clock, rows: seq<Row>)
    requires AllDated(clock, rows) && rows != []
    ensures var r := Merged(clock, None, None, rows);
      r.Some? && r.value in rows && forall k :: 0 <= k < |rows| ==> AtLeast(clock, r.value, rows[k])
    decreases |rows|
  {
    var n := |rows| - 1;
    if n == 0 {
      assert Merged(clock, None, None, rows[..0]) == None;
    } else {
      FreshIsGreatest(clock, rows[..n]);
      assert forall k :: 0 <= k < n ==> rows[..n][k] == rows[k];
      NothingIsUndone(clock, Merged(clock, None, None, rows[..n]).value, None, rows[n]);
    }
  }

  lemma OrderWithoutFence(clock: Clock, a: seq<Row>, b: seq<Row>)
    requires AllDated(clock, a) && multiset(a) == multiset(b)
    ensures SameState(clock, Merged(clock, None, None, a), Merged(clock, None, None, b))
  {
    SameRows(a, b);
    assert |a| == |multiset(a)| && |b| == |multiset(b)|;
    forall k | 0 <= k < |b| ensures Dated(clock, b[k]) {
      assert b[k] in a;
    }
    if a != [] {
      FreshIsGreatest(clock, a);
      FreshIsGreatest(clock, b);
    }
  }

  /** Of two live rows behind the fence the first one stays. */
  lemma FirstStays(clock: Clock, fence: string, first: Row, second: Row)
    requires clock.Instant(fence).Some? && Dated(clock, first) && Dated(clock, second)
    requires Time(clock, first) < clock.Instant(fence).value && Time(clock, second) < clock.Instant(fence).value
    ensures Merged(clock, None, Some(fence), [first, second]) == Some(first)
  {
    MergedNext(clock, None, Some(fence), [], first);
    assert [] + [first] == [first];
    MergedNext(clock, None, Some(fence), [first], second);
    assert [first] + [second] == [first, second];
    NothingIsUndone(clock, first, Some(fence), second);
  }

  /** Without a local row the first row is taken even behind the fence, and the next one is not. */
  lemma FirstRowDecides(clock: Clock, fence: string)
    requires clock.Valid() && clock.Instant(fence).Some?
    ensures var t := clock.Instant(fence).value;
      var early, late := Row(clock.format(t - 2), false, 0), Row(clock.format(t - 1), false, 0);
      && Merged(clock, None, Some(fence), [early, late]) == Some(early)
      && Merged(clock, None, Some(fence), [late, early]) == Some(late)
      && !SameState(clock, Some(early), Some(late))
  {
    var t := clock.Instant(fence).value;
    var early, late := Row(clock.format(t - 2), false, 0), Row(clock.format(t - 1), false, 0);
    FormattedStamp(clock, t - 2);
    FormattedStamp(clock, t - 1);
    FirstStays(clock, fence, early, late);
    FirstStays(clock, fence, late, early);
  }

  /**
   Merging is independent of the order of the rows exactly when a local row exists or the entity was
   never observed: a fence without a row lets the first arrival decide.
   */
  lemma OrderIndependence(clock: Clock, local: Option<Row>, fence: Option<string>)
    requires clock.Valid() && FenceDated(clock, fence) && (local.Some? ==> Dated(clock, local.value))
    ensures OrderIndependent(clock, local, fence) <==> local.Some? || fence.None?
  {
    if local.None? && fence.Some? {
      FirstRowDecides(clock, fence.value);
      var t := clock.Instant(fence.value).value;
      var early, late := Row(clock.format(t - 2), false, 0), Row(clock.format(t - 1), false, 0);
      FormattedStamp(clock, t - 2);
      FormattedStamp(clock, t - 1);
      var a, b := [early, late], [late, early];
      assert multiset(a) == multiset(b) && AllDated(clock, a);
      assert !SameState(clock, Merged(clock, local, fence, a), Merged(clock, local, fence, b));
    } else {
      forall a, b | AllDated(clock, a) && multiset(a) == multiset(b)
        ensures SameState(clock, Merged(clock, local, fence, a), Merged(clock, local, fence, b))
      {
        if local.Some? {
          OrderWithLocal(clock, local.value, fence, a, b);
        } else {
          OrderWithoutFence(clock, a, b);
        }
      }
    }
  }
}
