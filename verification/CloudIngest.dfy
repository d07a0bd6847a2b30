/**
 Publishing query rows to the cloud archive (internal/cli/cloud_commands.go).

 The server is a finite script of replies chosen in advance; when it is used up every call fails.
 A statement about every script is a statement about every server.
 */
module CloudIngest {
  import opened Sequences

  const BATCH_SIZE: nat := 250

  datatype Row = Row(values: seq<string>)

  datatype Request = Data(rows: seq<Row>, cursor: nat, final: bool) | Reset

  datatype Reply =
    | Accepted(rowsAccepted: int)
    | ResetIncomplete  // answered without an error, but the reset is still running
    | ResetNeeded      // an error with the code reset_incomplete
    | OutOfMemory      // an error that asks for a smaller batch
    | Failed

  /** How many replies from one on say that the reset is still running. */
  function ResetRun(replies: seq<Reply>, from: nat): (n: nat)
    ensures from <= |replies| ==> from + n <= |replies|
    ensures forall k :: from <= k < from + n ==> k < |replies| && replies[k].ResetIncomplete?
    ensures from + n < |replies| ==> !replies[from + n].ResetIncomplete?
    decreases |replies| - from
  {
    if from < |replies| && replies[from].ResetIncomplete? then 1 + ResetRun(replies, from + 1) else 0
  }

  /** Where a batch that is sent at `from` is no longer sent again because of a reset. */
  function Resume(replies: seq<Reply>, from: nat): (r: nat)
    ensures r >= from
    decreases |replies| - from
  {
    if from < |replies| && (replies[from].ResetIncomplete? || replies[from].ResetNeeded?) then
      var end := from + 1 + ResetRun(replies, from + 1);
      if end < |replies| && replies[end].Accepted? then Resume(replies, end + 1) else end + 1
    else from
  }

  /** The first replies of a server that never stops answering. */
  function Script(server: nat -> Reply, n: nat): seq<Reply> {
    seq(n, k requires 0 <= k < n => server(k))
  }

  lemma {:induction false} RunOfScript(server: nat -> Reply, n: nat, from: nat, k: nat)
    requires from <= k <= n && forall j :: from <= j < k ==> server(j).ResetIncomplete?
    requires k < n ==> !server(k).ResetIncomplete?
    ensures ResetRun(Script(server, n), from) == k - from
    decreases k - from
  {
    if from < k {
      RunOfScript(server, n, from + 1, k);
    }
  }

  /**
   Draining a reset ends exactly when the server's run of incomplete answers does: otherwise every finite
   part of the server's replies is used up, however long it is.
   */
  lemma DrainingEndsExactlyWithTheRun(server: nat -> Reply)
    ensures (exists k: nat :: !server(k).ResetIncomplete?) <==> exists most: nat :: DrainsWithin(server, most)
  {
    if k: nat :| !server(k).ResetIncomplete? {
      forall n: nat ensures ResetRun(Script(server, n), 0) <= k {
        assert k < n ==> Script(server, n)[k] == server(k);
      }
      assert DrainsWithin(server, k);
    } else {
      forall most: nat ensures !DrainsWithin(server, most) {
        RunOfScript(server, most + 1, 0, most + 1);
      }
    }
  }

  /** However many replies are given, the run of incomplete ones at their start is no longer. */
  ghost predicate DrainsWithin(server: nat -> Reply, most: nat) {
    forall n: nat :: ResetRun(Script(server, n), 0) <= most
  }

  // ---------------------------------------------------------------- what requests carry

  function Carried(requests: seq<Request>): seq<Row> {
    if requests == [] then []
    else Carried(requests[..|requests| - 1]) + (var q := requests[|requests| - 1]; if q.Data? then q.rows else [])
  }

  /** Data requests that follow each other from an offset. */
  predicate Consecutive(requests: seq<Request>, cursor: nat) {
    requests == [] ||
    (var n := |requests| - 1;
     requests[n].Data? && requests[n].cursor == cursor + |Carried(requests[..n])| && Consecutive(requests[..n], cursor))
  }

  /** Only the last request may be final. */
  predicate FinalLast(requests: seq<Request>) {
    forall k :: 0 <= k < |requests| && requests[k].Data? && requests[k].final ==> k == |requests| - 1
  }

  predicate NoFinal(requests: seq<Request>) {
    forall k :: 0 <= k < |requests| && requests[k].Data? ==> !requests[k].final
  }

  /** What the server accepted of some rows: a prefix in order, everything on success, final at most at the end. */
  predicate AcceptedOf(requests: seq<Request>, rows: seq<Row>, cursor: nat, final: bool, ok: bool) {
    && Consecutive(requests, cursor) && Carried(requests) <= rows
    && (ok ==> Carried(requests) == rows && requests != [] && requests[|requests| - 1].final == final)
    && (if ok then FinalLast(requests) else NoFinal(requests))
  }

  /** A request that carries rows of the source at its cursor, and not too many. */
  predicate SliceOf(q: Request, rows: seq<Row>, cursor: nat) {
    q.Data? ==>
      && cursor <= q.cursor && q.cursor - cursor + |q.rows| <= |rows| && |q.rows| <= BATCH_SIZE
      && forall j :: 0 <= j < |q.rows| ==> q.rows[j] == rows[q.cursor - cursor + j]
  }

  /** Only requests that carry rows of the source have been added. */
  predicate Extends(before: seq<Request>, sent: seq<Request>, rows: seq<Row>, cursor: nat) {
    before <= sent && forall k :: |before| <= k < |sent| ==> SliceOf(sent[k], rows, cursor)
  }

  lemma {:induction false} ConsecutiveJoin(a: seq<Request>, b: seq<Request>, cursor: nat)
    requires Consecutive(a, cursor) && Consecutive(b, cursor + |Carried(a)|)
    ensures Carried(a + b) == Carried(a) + Carried(b) && Consecutive(a + b, cursor)
    decreases |b|
  {
    if b == [] {
      assert a + b == a;
    } else {
      var n := |b| - 1;
      ConsecutiveJoin(a, b[..n], cursor);
      Regroup(a, b[..n], [b[n]]);
      assert b[..n] + [b[n]] == b;
      Regroup(Carried(a), Carried(b[..n]), b[n].rows);
      OneMore(a + b[..n], b[n], cursor);
    }
  }

  lemma OneMore(requests: seq<Request>, q: Request, cursor: nat)
    requires Consecutive(requests, cursor) && q.Data? && q.cursor == cursor + |Carried(requests)|
    ensures Carried(requests + [q]) == Carried(requests) + q.rows && Consecutive(requests + [q], cursor)
  {
    assert (requests + [q])[..|requests|] == requests;
  }

  /** What is accepted of two pieces, one after the other. */
  lemma AcceptedJoin(a: seq<Request>, b: seq<Request>, left: seq<Row>, right: seq<Row>, cursor: nat, final: bool, ok: bool)
    requires AcceptedOf(a, left, cursor, false, true) && AcceptedOf(b, right, cursor + |left|, final, ok)
    ensures AcceptedOf(a + b, left + right, cursor, final, ok)
  {
    ConsecutiveJoin(a, b, cursor);
    assert NoFinal(a) by {
      assert FinalLast(a) && a[|a| - 1].final == false;
    }
  }

  lemma AcceptedPart(a: seq<Request>, left: seq<Row>, right: seq<Row>, cursor: nat, final: bool)
    requires AcceptedOf(a, left, cursor, final, false)
    ensures forall f :: AcceptedOf(a, left + right, cursor, f, false)
  {
  }

  /** A request accepted whole. */
  lemma OneAccepted(rows: seq<Row>, cursor: nat, final: bool)
    ensures AcceptedOf([Data(rows, cursor, final)], rows, cursor, final, true)
  {
    var q := Data(rows, cursor, final);
    assert [q][..0] == [];
    OneMore([], q, cursor);
    assert [] + [q] == [q] && [] + rows == rows;
  }

  lemma NoneAccepted(rows: seq<Row>, cursor: nat, final: bool)
    ensures AcceptedOf([], rows, cursor, final, false)
  {
  }

  lemma ExtendsTwice(a: seq<Request>, b: seq<Request>, c: seq<Request>, rows: seq<Row>, cursor: nat)
    requires Extends(a, b, rows, cursor) && Extends(b, c, rows, cursor)
    ensures Extends(a, c, rows, cursor)
  {
    forall k | |a| <= k < |c| ensures SliceOf(c[k], rows, cursor) {
      if k < |b| {
        assert c[k] == b[k];
      }
    }
  }

  lemma ExtendsWider(before: seq<Request>, sent: seq<Request>, rows: seq<Row>, lo: nat, hi: nat, cursor: nat)
    requires lo <= hi <= |rows| && Extends(before, sent, rows[lo..hi], cursor + lo)
    ensures Extends(before, sent, rows, cursor)
  {
    forall k | |before| <= k < |sent| ensures SliceOf(sent[k], rows, cursor) {
      assert SliceOf(sent[k], rows[lo..hi], cursor + lo);
    }
  }

  lemma OneSent(before: seq<Request>, sent: seq<Request>, q: Request, rows: seq<Row>, cursor: nat)
    requires sent == before + [q] && SliceOf(q, rows, cursor)
    ensures Extends(before, sent, rows, cursor)
  {
  }

  lemma WholeSlice(rows: seq<Row>, cursor: nat, final: bool)
    requires |rows| <= BATCH_SIZE
    ensures SliceOf(Data(rows, cursor, final), rows, cursor)
  {
  }

  class Cloud {
    const replies: seq<Reply>
    var next: nat
    ghost var sent: seq<Request>
    ghost var accepted: seq<Request>
    ghost var resetting: bool  // the server has asked for a reset that it has not finished

    constructor (replies: seq<Reply>)
      ensures this.replies == replies && next == 0 && sent == [] && accepted == [] && !resetting
    {
      this.replies := replies;
      next, sent, accepted, resetting := 0, [], [], false;
    }

    /** One request; rows are never sent while a reset is pending. */
    method Ingest(q: Request) returns (r: Reply)
      requires q.Data? ==> !resetting
      modifies this
      ensures resetting == (r.ResetIncomplete? || r.ResetNeeded? || (old(resetting) && !r.Accepted?))
      ensures sent == old(sent) + [q]
      ensures accepted == if r.Accepted? && q.Data? then old(accepted) + [q] else old(accepted)
      ensures r == if old(next) < |replies| then replies[old(next)] else Failed
      ensures next == old(next) + 1
    {
      r := if next < |replies| then replies[next] else Failed;
      next := next + 1;
      sent := sent + [q];
      resetting := r.ResetIncomplete? || r.ResetNeeded? || (resetting && !r.Accepted?);
      if r.Accepted? && q.Data? {
        accepted := accepted + [q];
      }
    }

    /**
     Repeats the empty request until the server has finished resetting: one request more than the run of
     incomplete answers that lies ahead, and success when the answer after that run is a finished reset.
     */
    method PublishReset(ghost rows: seq<Row>, ghost cursor: nat) returns (ok: bool)
      modifies this
      ensures accepted == old(accepted) && (ok ==> !resetting)
      ensures next == old(next) + ResetRun(replies, old(next)) + 1
      ensures |sent| == |old(sent)| + ResetRun(replies, old(next)) + 1
      ensures ok <==> next <= |replies| && replies[next - 1].Accepted?
      ensures Extends(old(sent), sent, rows, cursor)
      ensures forall k :: |old(sent)| <= k < |sent| ==> sent[k] == Reset
    {
      while true
        invariant next >= old(next) && accepted == old(accepted) && old(sent) <= sent
        invariant |sent| - |old(sent)| == next - old(next)
        invariant ResetRun(replies, old(next)) == next - old(next) + ResetRun(replies, next)
        invariant forall k :: |old(sent)| <= k < |sent| ==> sent[k] == Reset
        decreases |replies| - next
      {
        var r := Ingest(Reset);
        if r.ResetNeeded? || r.OutOfMemory? || r.Failed? {
          return false;
        }
        if !r.ResetIncomplete? {
          return true;
        }
      }
    }

    /** One request with a batch. */
    method SendOnce(rows: seq<Row>, cursor: nat, final: bool) returns (r: Reply)
      requires |rows| <= BATCH_SIZE && !resetting
      modifies this
      ensures Extends(old(sent), sent, rows, cursor)
      ensures resetting == (r.ResetIncomplete? || r.ResetNeeded?)
      ensures r.Accepted? ==> accepted == old(accepted) + [Data(rows, cursor, final)]
      ensures !r.Accepted? ==> accepted == old(accepted)
      ensures |sent| == |old(sent)| + 1
      ensures next == old(next) + 1 && r == if old(next) < |replies| then replies[old(next)] else Failed
    {
      WholeSlice(rows, cursor, final);
      ghost var before := sent;
      r := Ingest(Data(rows, cursor, final));
      OneSent(before, sent, Data(rows, cursor, final), rows, cursor);
    }

    /** One attempt to send a batch, and the reset the server may ask for first. */
    method SendBatch(rows: seq<Row>, cursor: nat, final: bool) returns (r: Reply, ok: bool)
      requires |rows| <= BATCH_SIZE && !resetting
      modifies this
      ensures Extends(old(sent), sent, rows, cursor) && (ok ==> !resetting)
      ensures r.Accepted? ==> ok && accepted == old(accepted) + [Data(rows, cursor, final)]
      ensures !r.Accepted? ==> accepted == old(accepted)
      ensures next > old(next) && (!r.Failed? ==> old(next) < |replies|)
      ensures |sent| - |old(sent)| == next - old(next)
      ensures if r.ResetIncomplete? || r.ResetNeeded?
              then Resume(replies, old(next)) == (if ok then Resume(replies, next) else next)
              else Resume(replies, old(next)) == old(next)
    {
      r := SendOnce(rows, cursor, final);
      ok := true;
      ghost var after := sent;
      if r.ResetIncomplete? || r.ResetNeeded? {
        ok := PublishReset(rows, cursor);
        ExtendsTwice(old(sent), after, sent, rows, cursor);
      }
    }

    /** Sends rows, drains resets and splits a batch the server cannot hold. */
    method PublishBatch(rows: seq<Row>, cursor: nat, final: bool) returns (ok: bool, count: int, ghost taken: seq<Request>)
      requires |rows| <= BATCH_SIZE && !resetting
      modifies this
      ensures Extends(old(sent), sent, rows, cursor) && (ok ==> !resetting)
      ensures accepted == old(accepted) + taken && AcceptedOf(taken, rows, cursor, final, ok)
      ensures next >= Resume(replies, old(next)) && (ok ==> next > Resume(replies, old(next)))
      ensures next > old(next) && |sent| - |old(sent)| == next - old(next)
      decreases |rows|, 1
    {
      count, taken := 0, [];
      while true
        invariant Extends(old(sent), sent, rows, cursor)
        invariant accepted == old(accepted) && !resetting
        invariant next >= old(next) && Resume(replies, next) == Resume(replies, old(next))
        invariant |sent| - |old(sent)| == next - old(next)
        decreases |replies| - next
      {
        ghost var before := sent;
        var r;
        r, ok := SendBatch(rows, cursor, final);
        ExtendsTwice(old(sent), before, sent, rows, cursor);
        if r.Accepted? {
          OneAccepted(rows, cursor, final);
          return true, r.rowsAccepted, [Data(rows, cursor, final)];
        }
        NoneAccepted(rows, cursor, final);
        if !ok {
          return false, 0, [];
        }
        if r.ResetIncomplete? || r.ResetNeeded? {
          continue;
        }
        if |rows| <= 1 || !r.OutOfMemory? {
          return false, 0, [];
        }
        before := sent;
        ok, count, taken := PublishHalves(rows, cursor, final);
        ExtendsTwice(old(sent), before, sent, rows, cursor);
        return;
      }
    }

    /** Sends the two halves of a batch; only the second one can be final. */
    method PublishHalves(rows: seq<Row>, cursor: nat, final: bool) returns (ok: bool, count: int, ghost taken: seq<Request>)
      requires 1 < |rows| <= BATCH_SIZE && !resetting
      modifies this
      ensures next > old(next) && |sent| - |old(sent)| == next - old(next)
      ensures Extends(old(sent), sent, rows, cursor) && (ok ==> !resetting)
      ensures accepted == old(accepted) + taken && AcceptedOf(taken, rows, cursor, final, ok)
      decreases |rows|, 0
    {
      var mid := |rows| / 2;
      assert rows == rows[..mid] + rows[mid..];
      var left;
      ok, left, taken := PublishBatch(rows[..mid], cursor, false);
      assert rows[0..mid] == rows[..mid];
      ExtendsWider(old(sent), sent, rows, 0, mid, cursor);
      if !ok {
        AcceptedPart(taken, rows[..mid], rows[mid..], cursor, false);
        return false, 0, taken;
      }
      var right;
      ghost var got, before := [], sent;
      ok, right, got := PublishBatch(rows[mid..], cursor + mid, final);
      assert rows[mid..|rows|] == rows[mid..];
      ExtendsWider(before, sent, rows, mid, |rows|, cursor);
      ExtendsTwice(old(sent), before, sent, rows, cursor);
      AcceptedJoin(taken, got, rows[..mid], rows[mid..], cursor, final, ok);
      Regroup(old(accepted), taken, got);
      taken := taken + got;
      count := if ok then left + right else 0;
    }

    /** Sends the rows collected since the offset; `taken` is what has been accepted of the earlier ones. */
    method Flush(ghost rows: seq<Row>, batch: seq<Row>, offset: nat, final: bool, ghost taken: seq<Request>)
      returns (ok: bool, ghost all: seq<Request>)
      requires |batch| <= BATCH_SIZE && offset + |batch| <= |rows| && batch == rows[offset..offset + |batch|]
      requires Progress(rows, offset, taken) && !resetting
      modifies this
      ensures Extends(old(sent), sent, rows, 0) && (ok ==> !resetting)
      ensures forall base :: old(accepted) == base + taken ==> accepted == base + all
      ensures ok && !final ==> Progress(rows, offset + |batch|, all)
      ensures ok && offset + |batch| == |rows| ==> AcceptedOf(all, rows, 0, final, true)
      ensures !ok ==> forall f :: AcceptedOf(all, rows, 0, f, false)
    {
      var count;
      ghost var got;
      ok, count, got := PublishBatch(batch, offset, final);
      ExtendsWider(old(sent), sent, rows, offset, offset + |batch|, 0);
      Flushed(rows, offset, batch, taken, got, final, ok);
      all := taken + got;
      forall base | old(accepted) == base + taken ensures accepted == base + all {
        Regroup(base, taken, got);
      }
    }

    /**
     Publishes all rows in batches; `unreadable(i)` says that the database fails at row i, or after the
     last row when i is their number.
     */
    method PublishRows(rows: seq<Row>, final: bool, unreadable: nat -> bool) returns (ok: bool, ghost taken: seq<Request>)
      requires !resetting
      modifies this
      ensures Extends(old(sent), sent, rows, 0) && (ok ==> !resetting)
      ensures accepted == old(accepted) + taken && AcceptedOf(taken, rows, 0, final, ok)
    {
      ok, taken := false, [];
      var batch: seq<Row> := [];
      var offset: nat := 0;
      var i := 0;
      while i < |rows|
        invariant 0 <= i <= |rows|
        invariant Extends(old(sent), sent, rows, 0)
        invariant accepted == old(accepted) + taken && !resetting
        invariant offset + |batch| == i && batch == rows[offset..i] && |batch| <= BATCH_SIZE
        invariant Progress(rows, offset, taken)
      {
        if |batch| == BATCH_SIZE {
          ghost var before := sent;
          ok, taken := Flush(rows, batch, offset, false, taken);
          ExtendsTwice(old(sent), before, sent, rows, 0);
          if !ok {
            return;
          }
          offset := offset + |batch|;
          batch := [];
          assert offset == i && rows[offset..i] == [];
        }
        if unreadable(i) {
          return false, taken;
        }
        SliceNext(rows, offset, i);
        batch := batch + [rows[i]];
        i := i + 1;
      }
      if unreadable(|rows|) {
        return false, taken;
      }
      ghost var before := sent;
      ok, taken := Flush(rows, batch, offset, final, taken);
      ExtendsTwice(old(sent), before, sent, rows, 0);
    }
  }

  /** For every n there is a server that makes one reset send more than n requests. */
  method ResetOfAnyLength(n: nat) returns (cloud: Cloud)
    ensures |cloud.sent| == n + 1 && cloud.accepted == []
  {
    cloud := new Cloud(Script(k => ResetIncomplete, n));
    RunOfScript(k => ResetIncomplete, n, 0, n);
    var ok := cloud.PublishReset([], 0);
  }

  /** A server that asks for a reset and finishes it, n times. */
  function Resets(n: nat): seq<Reply> {
    if n == 0 then [] else [ResetNeeded, Accepted(0)] + Resets(n - 1)
  }

  lemma {:induction false} ResumeAfterResets(before: seq<Reply>, n: nat)
    ensures Resume(before + Resets(n), |before|) == |before| + 2 * n
    decreases n
  {
    var all := before + Resets(n);
    if n > 0 {
      var pair := [ResetNeeded, Accepted(0)];
      Regroup(before, pair, Resets(n - 1));
      assert all == before + pair + Resets(n - 1);
      assert (before + pair)[|before|] == pair[0] && (before + pair)[|before| + 1] == pair[1];
      ResumeAfterResets(before + pair, n - 1);
    }
  }

  /** For every n there is a server that makes one batch send 2 * n requests and more, though each reset ends. */
  method BatchOfAnyLength(rows: seq<Row>, n: nat) returns (cloud: Cloud)
    requires |rows| <= BATCH_SIZE
    ensures |cloud.sent| >= 2 * n
  {
    cloud := new Cloud(Resets(n));
    ResumeAfterResets([], n);
    assert [] + Resets(n) == Resets(n);
    ghost var taken;
    var ok, count;
    ok, count, taken := cloud.PublishBatch(rows, 0, false);
  }

  /** Everything before the offset has been accepted in order, and nothing was final. */
  predicate Progress(rows: seq<Row>, offset: nat, taken: seq<Request>)
    requires offset <= |rows|
  {
    Consecutive(taken, 0) && Carried(taken) == rows[..offset] && NoFinal(taken)
  }

  /** One flush extends what has been accepted so far. */
  lemma Flushed(rows: seq<Row>, offset: nat, batch: seq<Row>, taken: seq<Request>, got: seq<Request>, final: bool, ok: bool)
    requires offset + |batch| <= |rows| && batch == rows[offset..offset + |batch|]
    requires Progress(rows, offset, taken) && AcceptedOf(got, batch, offset, final, ok)
    ensures ok && !final ==> Progress(rows, offset + |batch|, taken + got)
    ensures ok && offset + |batch| == |rows| ==> AcceptedOf(taken + got, rows, 0, final, true)
    ensures !ok ==> forall f :: AcceptedOf(taken + got, rows, 0, f, false)
  {
    var end := offset + |batch|;
    ConsecutiveJoin(taken, got, 0);
    assert rows[..end] == rows[..offset] + batch;
    assert ok ==> Carried(taken + got) == rows[..end];
    assert Carried(taken + got) <= rows[..end];
    var all := taken + got;
    forall k | 0 <= k < |all| && all[k].Data? && all[k].final ensures ok && final && k == |all| - 1 {
      assert k >= |taken|;
      assert all[k] == got[k - |taken|];
    }
  }
}
