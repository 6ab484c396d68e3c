// Whole executions against the big-step meanings.
module CallTreeRuns {
  import opened Wrappers
  import opened Protocol
  import opened ProtocolLog
  import opened ProtocolSafety
  import opened ProtocolFailures
  import opened CallTree
  import opened Transparency

  ghost predicate ConfigYields(c: Config, rest: Rest) {
    OrphansYield(Threads(c), rest.ds, rest.os) && !rest.ds[0].Cut?
  }

  function Remaining(c: Config, ds: seq<Deriv>, x: Row): nat
    requires |Threads(c)| == |ds|
  {
    OrphanCalls(Threads(c), ds, x)
  }

  // How often a row has been attempted.
  function Recorded(log: seq<Row>, x: Row): nat {
    if log == [] then 0 else Recorded(log[..|log| - 1], x) + Hit(log[|log| - 1], x)
  }

  lemma {:induction false} RecordedSnoc(log: seq<Row>, row: Option<Row>, x: Row)
    ensures Recorded(log + ToSeq(row), x) == Recorded(log, x) + RowHit(row, x)
  {
    if row.Some? {
      assert (log + [row.value])[..|log|] == log;
    } else {
      assert log + [] == log;
    }
  }

  lemma {:induction false} OrphanCallsConcat(a: seq<Orphan>, b: seq<Orphan>, da: seq<Deriv>, db: seq<Deriv>, x: Row)
    requires |a| == |da| && |b| == |db|
    ensures OrphanCalls(a + b, da + db, x) == OrphanCalls(a, da, x) + OrphanCalls(b, db, x)
    decreases |a|
  {
    if a == [] {
      assert a + b == b && da + db == db;
    } else {
      assert (a + b)[1..] == a[1..] + b && (da + db)[1..] == da[1..] + db;
      OrphanCallsConcat(a[1..], b, da[1..], db, x);
    }
  }

  lemma {:induction false} OrphanCallsUpdate(a: seq<Orphan>, ds: seq<Deriv>, i: nat, t: Task, d: Deriv, x: Row)
    requires |a| == |ds| && i < |a|
    ensures OrphanCalls(a[i := Orphan(a[i].ctx, t)], ds[i := d], x) + TaskCalls(a[i].task, PlacesOf(a[i].ctx), ds[i], x)
         == OrphanCalls(a, ds, x) + TaskCalls(t, PlacesOf(a[i].ctx), d, x)
    decreases |a|
  {
    var b := a[i := Orphan(a[i].ctx, t)];
    if i > 0 {
      assert b[1..] == a[1..][i - 1 := Orphan(a[1..][i - 1].ctx, t)] && ds[i := d][1..] == ds[1..][i - 1 := d];
      OrphanCallsUpdate(a[1..], ds[1..], i - 1, t, d, x);
    } else {
      assert b[1..] == a[1..] && ds[i := d][1..] == ds[1..];
    }
  }

  lemma {:induction false} SplitYields(a: seq<Orphan>, b: seq<Orphan>, rest: Rest)
    requires OrphansYield(a + b, rest.ds, rest.os)
    ensures OrphansYield(a, rest.ds[..|a|], rest.os[..|a|]) && OrphansYield(b, rest.ds[|a|..], rest.os[|a|..])
  {
    assert forall i :: 0 <= i < |a| ==> (a + b)[i] == a[i];
    forall i | 0 <= i < |b|
      ensures rest.ds[|a|..][i].Cut? || TaskYields(b[i].ctx, b[i].task, rest.ds[|a|..][i], rest.os[|a|..][i])
    {
      assert (a + b)[|a| + i] == b[i];
    }
  }

  lemma {:induction false} MovedYields(a: seq<Orphan>, k: nat, t: Task, ds: seq<Deriv>, d: Deriv, os: seq<Outcome>)
    requires k < |a| && OrphansYield(a[k := Orphan(a[k].ctx, t)], ds, os)
    requires d.Cut? || TaskYields(a[k].ctx, a[k].task, d, os[k])
    ensures OrphansYield(a, ds[k := d], os)
  {
    var b := a[k := Orphan(a[k].ctx, t)];
    assert forall i :: 0 <= i < |a| && i != k ==> b[i] == a[i] && ds[k := d][i] == ds[i];
  }

  // What is known of the threads after a step, split into those there were before and the branches left behind.
  ghost predicate Splits(c: Config, m: Move, e: Effect, after: Rest) {
    var n := |Threads(c)|;
    && Enabled(c, m.(io := Done)) == Some(e) && m.thread < n
    && |after.ds| == |after.os| == n + |e.orphans|
    && OrphansYield(e.orphans, after.ds[n..], after.os[n..])
    && OrphansYield(Threads(c)[m.thread := Orphan(Threads(c)[m.thread].ctx, e.task)], after.ds[..n], after.os[..n])
    && !after.ds[0].Cut?
  }

  function Left(c: Config, after: Rest): Rest
    requires |after.ds| >= |Threads(c)| && |after.os| >= |Threads(c)|
  {
    Rest(after.ds[|Threads(c)|..], after.os[|Threads(c)|..])
  }

  lemma {:induction false} AfterSplits(c: Config, m: Move, e: Effect, after: Rest)
    requires Contained(m.io) && Enabled(c, m) == Some(e) && ConfigYields(Next(c, m), after)
    ensures Splits(c, m, e, after)
  {
    ContainedIsSwallowed(Threads(c)[m.thread].ctx, Threads(c)[m.thread].task, m.path, m.io, c.next);
    MovedTasks(c, m, e);
    SplitYields(Threads(c)[m.thread := Orphan(Threads(c)[m.thread].ctx, e.task)], e.orphans, after);
  }

  lemma {:induction false} MovedPullable(c: Config, m: Move, e: Effect, after: Rest)
    requires Splits(c, m, e, after) && !after.ds[m.thread].Cut?
    ensures var t := Threads(c)[m.thread];
            Pullable(t.ctx, t.task, m.path, c.next, after.ds[m.thread], after.os[m.thread], Left(c, after))
  {
    var t := Threads(c)[m.thread];
    assert Threads(c)[m.thread := Orphan(t.ctx, e.task)][m.thread] == Orphan(t.ctx, e.task);
    YieldsShape(t.ctx, e.task, after.ds[m.thread], after.os[m.thread]);
  }

  // The derivations before a step, from those after it.
  ghost function Before(c: Config, m: Move, e: Effect, after: Rest): Rest
    requires Splits(c, m, e, after)
  {
    var n, t := |Threads(c)|, Threads(c)[m.thread];
    var ds :=
      if after.ds[m.thread].Cut? then after.ds[..n]
      else (
        MovedPullable(c, m, e, after);
        after.ds[..n][m.thread := Pull(t.ctx, t.task, m.path, c.next, after.ds[m.thread], after.os[m.thread],
                                       Left(c, after))]);
    Rest(ds, after.os[..n])
  }

  lemma {:induction false} BeforeYields(c: Config, m: Move, e: Effect, after: Rest)
    requires Sound(c) && Splits(c, m, e, after)
    ensures ConfigYields(c, Before(c, m, e, after))
    ensures AllComplete(after.ds) ==> AllComplete(Before(c, m, e, after).ds)
  {
    var k, n, t := m.thread, |Threads(c)|, Threads(c)[m.thread];
    var before := Before(c, m, e, after);
    if !after.ds[k].Cut? {
      MovedPullable(c, m, e, after);
      PullYields(c.attempted, t.ctx, t.task, m.path, c.next, after.ds[k], after.os[k], Left(c, after));
    }
    MovedYields(Threads(c), k, e.task, after.ds[..n], before.ds[k], after.os[..n]);
    assert before.ds == after.ds[..n][k := before.ds[k]];
    if k == 0 {
      NotCut(t.ctx, t.task, before.ds[0], before.os[0]);
    }
    if AllComplete(after.ds) {
      assert AllComplete(Left(c, after).ds) && Complete(after.ds[k]);
    }
  }

  // No frame that has ended so far changed its body's outcome, and from here on none does.
  ghost predicate AllUnchanged(c: Config, ds: seq<Deriv>) {
    |ds| == |Threads(c)| && OrphansUnchanged(Threads(c), ds) && AllKept(c.ends)
  }

  lemma {:induction false} MovedUnchanged(c: Config, m: Move, e: Effect, after: Rest)
    requires Contained(m.io) && Enabled(c, m) == Some(e) && Splits(c, m, e, after) && AllUnchanged(Next(c, m), after.ds)
    ensures TaskUnchanged(Threads(c)[m.thread].ctx, Threads(c)[m.thread].task, Before(c, m, e, after).ds[m.thread])
  {
    hide Advance, Pull, TaskYields, Pullable, TaskUnchanged, Kept, EndOutcome;
    var k, n, t, d := m.thread, |Threads(c)|, Threads(c)[m.thread], Next(c, m);
    MovedTasks(c, m, e);
    if after.ds[k].Cut? {
      CutTaskUnchanged(t.ctx, t.task);
    } else {
      MovedPullable(c, m, e, after);
      assert forall i :: 0 <= i < |e.orphans| ==> e.orphans[i] == Threads(d)[n + i];
      assert Threads(d)[k] == Orphan(t.ctx, e.task);
      if e.end.Some? {
        assert e.end.value == d.ends[|c.ends|];
        UnchangedExactly(e.end.value.tracer, e.end.value.outcome);
      }
      PullUnchanged(t.ctx, t.task, m.path, c.next, after.ds[k], after.os[k], Left(c, after));
    }
  }

  lemma {:induction false} BeforeUnchanged(c: Config, m: Move, e: Effect, after: Rest)
    requires Contained(m.io) && Enabled(c, m) == Some(e) && Splits(c, m, e, after) && AllUnchanged(Next(c, m), after.ds)
    ensures AllUnchanged(c, Before(c, m, e, after).ds)
  {
    hide Advance, Pull, TaskYields, Pullable, TaskUnchanged, Kept, OrphansYield;
    var n, d := |Threads(c)|, Next(c, m);
    MovedTasks(c, m, e);
    MovedUnchanged(c, m, e, after);
    assert forall i :: 0 <= i < |c.ends| ==> c.ends[i] == d.ends[i];
    forall i | 0 <= i < n
      ensures TaskUnchanged(Threads(c)[i].ctx, Threads(c)[i].task, Before(c, m, e, after).ds[i])
    {
      assert i != m.thread ==> Threads(d)[i] == Threads(c)[i];
    }
  }

  // The conserved quantity: start rows attempted so far plus those still to be recorded.
  lemma {:induction false} StepBalances(c: Config, m: Move, e: Effect, after: Rest, x: Row)
    requires Sound(c) && Contained(m.io) && Enabled(c, m) == Some(e) && ConfigYields(Next(c, m), after)
             && AllComplete(after.ds)
    requires IsStart(x)
    ensures Splits(c, m, e, after)
    ensures |Threads(Next(c, m))| == |after.ds|
    ensures Recorded(c.attempted, x) + Remaining(c, Before(c, m, e, after).ds, x)
         == Recorded(Next(c, m).attempted, x) + Remaining(Next(c, m), after.ds, x)
  {
    hide Advance, Pull, TaskCalls, OrphanCalls, Recorded, TaskYields, Sound, Pullable, Counted, TaskOk;
    AfterSplits(c, m, e, after);
    MovedTasks(c, m, e);
    RecordedSnoc(c.attempted, e.row, x);
    ThreadsBalance(c, m, e, after, x);
  }

  lemma {:induction false} ThreadsBalance(c: Config, m: Move, e: Effect, after: Rest, x: Row)
    requires Sound(c) && Splits(c, m, e, after) && AllComplete(after.ds) && IsStart(x)
    ensures var n := |Threads(c)|;
            Remaining(c, Before(c, m, e, after).ds, x) ==
            OrphanCalls(Threads(c)[m.thread := Orphan(Threads(c)[m.thread].ctx, e.task)] + e.orphans, after.ds, x)
            + RowHit(e.row, x)
  {
    hide Advance, Pull, TaskCalls, OrphanCalls, TaskYields;
    var k, n, t := m.thread, |Threads(c)|, Threads(c)[m.thread];
    MovedPullable(c, m, e, after);
    assert Complete(after.ds[k]);
    PullCounted(c.attempted, t.ctx, t.task, m.path, c.next, after.ds[k], after.os[k], Left(c, after), x);
    var front, left := after.ds[..n], after.ds[n..];
    assert after.ds == front + left;
    OrphanCallsConcat(Threads(c)[k := Orphan(t.ctx, e.task)], e.orphans, front, left, x);
    var ds := Before(c, m, e, after).ds;
    OrphanCallsUpdate(Threads(c), ds, k, e.task, after.ds[k], x);
    assert ds[k := after.ds[k]] == front;
  }

  lemma {:induction false} InitialRemaining(p: Prog, ds: seq<Deriv>, x: Row)
    requires |ds| == 1
    ensures Remaining(Initial(p), ds, x) == Calls(p, map[], ds[0], x)
  {
    var ts := Threads(Initial(p));
    assert ts == [Orphan(Outside, Ready(p))];
    assert OrphanCalls(ts, ds, x)
           == TaskCalls(Ready(p), PlacesOf(Outside), ds[0], x) + OrphanCalls(ts[1..], ds[1..], x);
    assert PlacesOf(Outside) == map[];
    assert TaskCalls(Ready(p), map[], ds[0], x) == Calls(p, map[], ds[0], x);
  }

  ghost predicate Balanced(p: Prog, d: Deriv, c: Config, ds: seq<Deriv>) {
    |ds| == |Threads(c)| && forall x :: IsStart(x) ==>
      Calls(p, map[], d, x) == Recorded(c.attempted, x) + Remaining(c, ds, x)
  }

  // Back through the whole schedule: a derivation of the program from derivations of what is left of it.
  lemma {:induction false} Backward(p: Prog, moves: seq<Move>, rest: Rest) returns (d: Deriv)
    requires AllContained(moves) && ConfigYields(Exec(p, moves), rest)
    ensures Observed(p, {}, d, rest.os[0])
    ensures AllComplete(rest.ds) ==> Complete(d) && Balanced(p, d, Exec(p, moves), rest.ds)
    ensures AllUnchanged(Exec(p, moves), rest.ds) ==> Unchanged(p, {}, d)
    decreases |moves|
  {
    if moves == [] {
      d := rest.ds[0];
      StartBalanced(p, rest);
    } else {
      var front, m := moves[..|moves| - 1], moves[|moves| - 1];
      var c := Exec(p, front);
      ExecSound(p, front);
      assert Exec(p, moves) == Next(c, m);
      if Enabled(c, m).Some? {
        var e := Enabled(c, m).value;
        AfterSplits(c, m, e, rest);
        BeforeYields(c, m, e, rest);
        var before := Before(c, m, e, rest);
        d := Backward(p, front, before);
        if AllUnchanged(Exec(p, moves), rest.ds) {
          BeforeUnchanged(c, m, e, rest);
        }
        if AllComplete(rest.ds) {
          MovedBalanced(p, d, c, m, e, rest);
        }
      } else {
        d := Backward(p, front, rest);
      }
    }
  }

  lemma {:induction false} StartBalanced(p: Prog, rest: Rest)
    requires ConfigYields(Initial(p), rest)
    ensures Observed(p, {}, rest.ds[0], rest.os[0]) && Balanced(p, rest.ds[0], Initial(p), rest.ds)
    ensures AllComplete(rest.ds) ==> Complete(rest.ds[0])
    ensures AllUnchanged(Initial(p), rest.ds) ==> Unchanged(p, {}, rest.ds[0])
  {
    assert Threads(Initial(p))[0] == Orphan(Outside, Ready(p));
    assert TaskYields(Outside, Ready(p), rest.ds[0], rest.os[0]);
    assert Outside.stores.Keys == {};
    forall x | IsStart(x)
      ensures Calls(p, map[], rest.ds[0], x) == Recorded([], x) + Remaining(Initial(p), rest.ds, x)
    {
      InitialRemaining(p, rest.ds, x);
    }
  }

  lemma {:induction false} MovedBalanced(p: Prog, d: Deriv, c: Config, m: Move, e: Effect, after: Rest)
    requires Sound(c) && Contained(m.io) && Enabled(c, m) == Some(e) && ConfigYields(Next(c, m), after)
             && AllComplete(after.ds)
    requires Splits(c, m, e, after) && Balanced(p, d, c, Before(c, m, e, after).ds)
    ensures Balanced(p, d, Next(c, m), after.ds)
  {
    hide Calls, Recorded, Remaining, Before, Enabled, Next, Sound;
    forall x | IsStart(x)
      ensures Calls(p, map[], d, x) == Recorded(Next(c, m).attempted, x) + Remaining(Next(c, m), after.ds, x)
    {
      StepBalances(c, m, e, after, x);
    }
  }

  // Whatever the schedule and the contained failures, the outcome the instrumented program settles with is one that its
  // big-step meaning yields.
  lemma {:induction false} OutcomeIsObserved(p: Prog, moves: seq<Move>)
    requires AllContained(moves) && Exec(p, moves).main.Settled?
    ensures exists d :: Observed(p, {}, d, Exec(p, moves).main.outcome)
  {
    var c := Exec(p, moves);
    var rest := Rest([Leaf] + seq(|c.orphans|, i => Cut), seq(|Threads(c)|, i => c.main.outcome));
    assert ConfigYields(c, rest);
    var d := Backward(p, moves, rest);
  }

  // If moreover no frame changed its body's outcome, which its caller can check of the values thrown and captured, the
  // outcome is one of the program without instrumentation.
  lemma {:induction false} OutcomeIsPlain(p: Prog, moves: seq<Move>)
    requires AllContained(moves) && Exec(p, moves).main.Settled? && AllKept(Exec(p, moves).ends)
    ensures exists d :: Yields(p, d, Exec(p, moves).main.outcome) && Unchanged(p, {}, d)
  {
    var c := Exec(p, moves);
    var rest := Rest([Leaf] + seq(|c.orphans|, i => Cut), seq(|Threads(c)|, i => c.main.outcome));
    assert ConfigYields(c, rest);
    forall i | 0 <= i < |Threads(c)|
      ensures TaskUnchanged(Threads(c)[i].ctx, Threads(c)[i].task, rest.ds[i])
    {
      if i > 0 {
        CutTaskUnchanged(Threads(c)[i].ctx, Threads(c)[i].task);
      }
    }
    var d := Backward(p, moves, rest);
    TransparentExactly(p, {}, d, c.main.outcome);
  }

  // Once everything has settled: some complete derivation has the outcome returned, and the start rows
  // attempted are exactly the start rows of its nodes, each as often. It is one of the plain meaning too if no
  // frame changed an outcome.
  lemma {:induction false} RowsAreCalls(p: Prog, moves: seq<Move>) returns (d: Deriv)
    requires AllContained(moves) && Finished(Exec(p, moves))
    ensures Observed(p, {}, d, Exec(p, moves).main.outcome) && Complete(d)
    ensures AllKept(Exec(p, moves).ends) ==> Yields(p, d, Exec(p, moves).main.outcome)
    ensures forall x :: IsStart(x) ==> Calls(p, map[], d, x) == Recorded(Exec(p, moves).attempted, x)
  {
    var c := Exec(p, moves);
    var rest := Rest(seq(|Threads(c)|, i => Leaf),
                     seq(|Threads(c)|, i requires 0 <= i < |Threads(c)| =>
                       if Threads(c)[i].task.Settled? then Threads(c)[i].task.outcome else c.main.outcome));
    assert forall i :: 0 <= i < |Threads(c)| ==> Threads(c)[i].task.Settled?;
    assert ConfigYields(c, rest);
    d := Backward(p, moves, rest);
    TransparentExactly(p, {}, d, c.main.outcome);
    forall x
      ensures Remaining(c, rest.ds, x) == 0
    {
      SettledOrphans(Threads(c), rest.ds, x);
    }
  }

  lemma {:induction false} SettledOrphans(a: seq<Orphan>, ds: seq<Deriv>, x: Row)
    requires |a| == |ds| && forall i :: 0 <= i < |a| ==> a[i].task.Settled?
    ensures OrphanCalls(a, ds, x) == 0
    decreases |a|
  {
    if a != [] {
      SettledOrphans(a[1..], ds[1..], x);
    }
  }
}
