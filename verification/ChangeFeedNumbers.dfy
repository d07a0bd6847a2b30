/**
 When a sequence number can be allocated again.

 Within one generation it never is (`ChangeFeedRuns.NeverReissued`).  Across generations it is not
 either while change_log survives; after a loss of the log it can be, exactly when a number that was
 issued lies above everything the repair restores the counter from.
 */
module ChangeFeedNumbers {
  import opened Options
  import opened ChangeFeed
  import opened ChangeFeedRuns

  predicate KeepsLog(s: Step) {
    s.Loses? ==> !s.log
  }

  predicate LogKept(steps: seq<Step>) {
    forall k :: 0 <= k < |steps| ==> KeepsLog(steps[k])
  }

  /** No number that was issued, for whatever table and generation, lies above the counter. */
  ghost predicate Covered(w: World) {
    forall p :: p in w.issued ==> p.no <= w.db.counter
  }

  /** The step allocates a number that was issued before. */
  ghost predicate Reissues(w: World, s: Step) {
    exists p, q :: p in Allocated(w.db, s) && q in w.issued && p.no == q.no
  }

  /** Some step issues a number again, and the log is not lost before it. */
  ghost predicate CanRecur(w: World) {
    exists steps: seq<Step>, s: Step :: RecursAfter(w, steps, s)
  }

  ghost predicate RecursAfter(w: World, steps: seq<Step>, s: Step) {
    LogKept(steps) && Runnable(w, steps) && Enabled(Run(w, steps), s) && Reissues(Run(w, steps), s)
  }

  lemma CounterGrows(w: World, s: Step)
    requires Inv(w) && Enabled(w, s) && KeepsLog(s)
    ensures Next(w, s).db.counter >= w.db.counter
  {
    if s.Repairs? {
      RecreatedNumbering(w.db);
    }
  }

  lemma StepKeepsCovered(w: World, s: Step)
    requires Inv(w) && Covered(w) && Enabled(w, s) && KeepsLog(s)
    ensures Covered(Next(w, s)) && !Reissues(w, s)
  {
    CounterGrows(w, s);
  }

  lemma {:induction false} RunKeepsCovered(w: World, steps: seq<Step>)
    requires Inv(w) && Covered(w) && Runnable(w, steps) && LogKept(steps)
    ensures Inv(Run(w, steps)) && Covered(Run(w, steps))
    decreases |steps|
  {
    if steps != [] {
      StepKeepsInv(w, steps[0]);
      StepKeepsCovered(w, steps[0]);
      assert forall k :: 0 <= k < |steps| - 1 ==> steps[1..][k] == steps[k + 1];
      RunKeepsCovered(Next(w, steps[0]), steps[1..]);
    }
  }

  lemma CoveredNeverRecurs(w: World)
    requires Inv(w) && Covered(w)
    ensures !CanRecur(w)
  {
    forall steps: seq<Step>, s: Step | LogKept(steps) && Runnable(w, steps) && Enabled(Run(w, steps), s)
      ensures !Reissues(Run(w, steps), s)
    {
      RunKeepsCovered(w, steps);
      if s.Loses? {
        assert Allocated(Run(w, steps).db, s) == {};
      } else {
        StepKeepsCovered(Run(w, steps), s);
      }
    }
  }

  /** As long as the log has never been lost, no number is issued twice, to whatever tables. */
  lemma NumbersAreUniqueWithoutLoss(tracked: set<Table>, rows: map<Table, Content>, steps: seq<Step>)
    requires Runnable(Installed(tracked, rows), steps) && LogKept(steps)
    ensures !CanRecur(Run(Installed(tracked, rows), steps))
  {
    RunKeepsCovered(Installed(tracked, rows), steps);
    CoveredNeverRecurs(Run(Installed(tracked, rows), steps));
  }

  // ---------------------------------------------------------------- writing up to a number

  function Touch(t: Table): Step {
    Writes(Replace(t, [], []), 0, true)
  }

  function Touches(t: Table, n: nat): seq<Step> {
    seq(n, k => Touch(t))
  }

  ghost predicate Writable(w: World, t: Table) {
    w.db.hasLog && t in w.db.tracked && t in w.db.generations
  }

  lemma TouchAllocates(w: World, t: Table)
    requires Inv(w) && Writable(w, t)
    ensures Enabled(w, Touch(t))
    ensures var next := Next(w, Touch(t));
      Inv(next) && Writable(next, t) && next.db.counter == w.db.counter + 1 && w.issued <= next.issued
    ensures Issue(t, GenerationId(w.db, t), w.db.counter + 1) in Allocated(w.db, Touch(t))
  {
    StepKeepsInv(w, Touch(t));
    assert |Emitted(RowsOf(w.db, t), Replace(t, [], []), 0)| == 1;
  }

  lemma {:induction false} TouchesCount(w: World, t: Table, n: nat)
    requires Inv(w) && Writable(w, t)
    ensures Runnable(w, Touches(t, n)) && LogKept(Touches(t, n))
    ensures var next := Run(w, Touches(t, n));
      Inv(next) && Writable(next, t) && next.db.counter == w.db.counter + n && w.issued <= next.issued
    decreases n
  {
    if n > 0 {
      TouchAllocates(w, t);
      assert Touches(t, n)[0] == Touch(t) && Touches(t, n)[1..] == Touches(t, n - 1);
      TouchesCount(Next(w, Touch(t)), t, n - 1);
    }
  }

  lemma UncoveredRecurs(w: World, t: Table, q: Issue)
    requires Inv(w) && Writable(w, t) && q in w.issued && q.no > w.db.counter
    ensures CanRecur(w)
  {
    var n := q.no - w.db.counter - 1;
    var steps := Touches(t, n);
    TouchesCount(w, t, n);
    var last := Run(w, steps);
    TouchAllocates(last, t);
    var p := Issue(t, GenerationId(last.db, t), q.no);
    assert p in Allocated(last.db, Touch(t)) && q in last.issued;
    assert RecursAfter(w, steps, Touch(t));
  }

  /**
   After a repair a number can be issued again, without another loss of the log, exactly when a number
   issued before the repair lies above the counter and above every bound the counter is restored from:
   the floor, the generation starts and the surviving entries.  `t` is any tracked table.
   */
  lemma NumbersRecurExactlyWhen(w: World, s: Step, t: Table)
    requires Inv(w) && Enabled(w, s) && s.Repairs? && t in w.db.tracked
    ensures CanRecur(Next(w, s)) <==>
      exists p :: p in w.issued && p.no > Max(w.db.counter, AllocatorFloor(w.db))
  {
    StepKeepsInv(w, s);
    RepairSettles(w, s, s.ids);
    var next := Next(w, s);
    RepairedCounter(w, s);
    assert TableCurrent(next.db, t);
    if p :| p in w.issued && p.no > Max(w.db.counter, AllocatorFloor(w.db)) {
      UncoveredRecurs(next, t, p);
    } else {
      CoveredNeverRecurs(next);
    }
  }

  lemma RepairedCounter(w: World, s: Step)
    requires Inv(w) && Enabled(w, s) && s.Repairs?
    ensures Next(w, s).db.counter == Max(w.db.counter, AllocatorFloor(w.db)) && Next(w, s).issued == w.issued
  {
    if Current(w.db) {
      RecreatedNumbering(w.db);
    }
  }

  // ---------------------------------------------------------------- an input

  const TABLE: Table := "guilds"

  function FirstSteps(): seq<Step> {
    [Repairs(map[TABLE := 0]), Touch(TABLE), Loses(true, true, true, false), Repairs(map[TABLE := 1])]
  }

  /** The feed after its first opening and one row write. */
  ghost predicate Started(w: World) {
    Inv(w) && w.db.tracked == {TABLE} && w.used == {0} && Issue(TABLE, Some(0), 1) in w.issued
  }

  lemma Starts()
    ensures var w, steps := Installed({TABLE}, map[]), FirstSteps();
      Enabled(w, steps[0]) && Enabled(Next(w, steps[0]), steps[1]) && Started(Next(Next(w, steps[0]), steps[1]))
  {
    var w := Installed({TABLE}, map[]);
    var s := Repairs(map[TABLE := 0]);
    assert MaxStart(map[]) == 0;
    var next := Next(w, s);
    assert next.db.generations == map[TABLE := Generation(1, 0, 0)] && next.db.counter == 0;
    StepKeepsInv(w, s);
    TouchAllocates(next, TABLE);
  }

  lemma Restarts(w: World)
    requires Started(w)
    ensures var steps := FirstSteps();
      && Enabled(w, steps[2]) && Enabled(Next(w, steps[2]), steps[3])
      && var last := Next(Next(w, steps[2]), steps[3]);
         && Inv(last) && Writable(last, TABLE) && last.db.counter == 0 && last.db.generations[TABLE].id == 1
         && last.issued == w.issued
  {
    var lost := Next(w, Loses(true, true, true, false));
    assert lost.db.floor == 0 && lost.db.generations == map[] && lost.used == {0};
    assert MaxStart(map[]) == 0;
    StepKeepsInv(w, Loses(true, true, true, false));
    StepKeepsInv(lost, Repairs(map[TABLE := 1]));
  }

  /**
   A feed is installed, one row is written, the feed's own tables are dropped and restored: the next
   write is given number 1 again, under another generation.
   */
  lemma LossLetsNumbersRecur()
    ensures var start := Installed({TABLE}, map[]);
      && Runnable(start, FirstSteps())
      && var last := Run(start, FirstSteps());
         && CanRecur(last)
         && Issue(TABLE, Some(0), 1) in last.issued && Issue(TABLE, Some(1), 1) in Allocated(last.db, Touch(TABLE))
  {
    var w, steps := Installed({TABLE}, map[]), FirstSteps();
    Starts();
    Restarts(Next(Next(w, steps[0]), steps[1]));
    FourSteps(w, steps);
    var last := Run(w, steps);
    TouchAllocates(last, TABLE);
    UncoveredRecurs(last, TABLE, Issue(TABLE, Some(0), 1));
  }

  lemma FourSteps(w: World, steps: seq<Step>)
    requires |steps| == 4 && Enabled(w, steps[0])
    requires Enabled(Next(w, steps[0]), steps[1])
    requires Enabled(Next(Next(w, steps[0]), steps[1]), steps[2])
    requires Enabled(Next(Next(Next(w, steps[0]), steps[1]), steps[2]), steps[3])
    ensures Runnable(w, steps)
    ensures Run(w, steps) == Next(Next(Next(Next(w, steps[0]), steps[1]), steps[2]), steps[3])
  {
    var a := Next(w, steps[0]);
    var b := Next(a, steps[1]);
    TwoSteps(b, steps[2..]);
    assert steps[1..][0] == steps[1] && steps[1..][1..] == steps[2..];
    assert Runnable(a, steps[1..]) && Run(a, steps[1..]) == Run(b, steps[2..]);
  }

  lemma TwoSteps(w: World, steps: seq<Step>)
    requires |steps| == 2 && Enabled(w, steps[0]) && Enabled(Next(w, steps[0]), steps[1])
    ensures Runnable(w, steps) && Run(w, steps) == Next(Next(w, steps[0]), steps[1])
  {
    var rest := steps[1..];
    assert rest[0] == steps[1];
    OneStep(Next(w, steps[0]), rest);
  }

  lemma OneStep(w: World, steps: seq<Step>)
    requires |steps| == 1 && Enabled(w, steps[0])
    ensures Runnable(w, steps) && Run(w, steps) == Next(w, steps[0])
  {
    assert steps[1..] == [];
    assert Runnable(Next(w, steps[0]), steps[1..]) && Run(Next(w, steps[0]), steps[1..]) == Next(w, steps[0]);
  }
}
