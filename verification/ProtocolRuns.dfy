// Properties of whole executions: pairing of rows, and depth.
module ProtocolRuns {
  import opened Wrappers
  import opened Counting
  import opened ParentGraph
  import opened StepDepth
  import opened Protocol
  import opened ProtocolLog
  import opened ProtocolSafety

  // ---- Pairing ----

  lemma {:induction false} CountedIn(log: seq<Row>, x: nat)
    ensures Opens(log, x) > 0 ==> exists i :: 0 <= i < |log| && OpenedId(log[i]) == Some(x)
    ensures Closes(log, x) > 0 ==> exists i :: 0 <= i < |log| && ClosedId(log[i]) == Some(x)
  {
    if log != [] {
      var front := log[..|log| - 1];
      CountedIn(front, x);
      if Opens(front, x) > 0 {
        var i :| 0 <= i < |front| && OpenedId(front[i]) == Some(x);
        assert log[i] == front[i];
      }
      if Closes(front, x) > 0 {
        var i :| 0 <= i < |front| && ClosedId(front[i]) == Some(x);
        assert log[i] == front[i];
      }
    }
  }

  lemma {:induction false} ClosedIn(log: seq<Row>, i: nat)
    requires i < |log| && ClosedId(log[i]).Some?
    ensures Closes(log, ClosedId(log[i]).value) > 0
  {
    if i < |log| - 1 {
      ClosedIn(log[..|log| - 1], i);
    }
  }

  lemma {:induction false} ClosedAtMostOnce(log: seq<Row>, i: nat, j: nat)
    requires i < j < |log| && ClosedId(log[i]).Some? && ClosedId(log[i]) == ClosedId(log[j])
    ensures Closes(log, ClosedId(log[i]).value) >= 2
  {
    var front := log[..|log| - 1];
    if j < |front| {
      ClosedAtMostOnce(front, i, j);
    } else {
      ClosedIn(front, i);
    }
  }

  ghost predicate OpensFor(r: Row, c: Row) {
    || (c.StepCompleted? && r.StepStarted? && r.stepId == c.stepId && r.runId == c.runId)
    || (c.RunCompleted? && r.RunStarted? && r.runId == c.runId)
  }

  lemma {:induction false} ClosingFollowsOpening(log: seq<Row>, i: nat)
    requires WellFormed(log) && i < |log| && ClosedId(log[i]).Some?
    ensures exists j :: 0 <= j < i && OpensFor(log[j], log[i])
  {
    var front := log[..|log| - 1];
    if i < |front| {
      ClosingFollowsOpening(front, i);
      var j :| 0 <= j < i && OpensFor(front[j], front[i]);
      assert OpensFor(log[j], log[i]);
    } else if log[i].StepCompleted? {
      var j :| 0 <= j < |front| && front[j].StepStarted? && front[j].stepId == log[i].stepId
          && front[j].runId == log[i].runId;
      assert OpensFor(log[j], log[i]);
    } else {
      var name :| HasRun(front, log[i].runId, name);
      var j :| 0 <= j < |front| && front[j] == RunStarted(log[i].runId, name);
      assert OpensFor(log[j], log[i]);
    }
  }

  // On every schedule, whatever fails: a step or run has at most one start row, and a completion row always comes after
  // its own start row. It has at most one completion row, unless the write of an inspector's success row failed in a
  // way that got out of the wrapper; then it has a further one.
  lemma {:induction false} RowsPaired(p: Prog, moves: seq<Move>)
    ensures var log := Exec(p, moves).attempted;
            && (forall i, j :: 0 <= i < j < |log| && OpenedId(log[i]).Some? ==> OpenedId(log[i]) != OpenedId(log[j]))
            && (forall i :: 0 <= i < |log| && ClosedId(log[i]).Some? ==>
                  exists j :: 0 <= j < i && OpensFor(log[j], log[i]))
            && (forall i, j :: 0 <= i < j < |log| && ClosedId(log[i]).Some? && ClosedId(log[i]) == ClosedId(log[j]) ==>
                  ClosedId(log[i]).value in Exec(p, moves).again)
  {
    hide Exec, Sound;
    var c := Exec(p, moves);
    var log := c.attempted;
    SoundLog(p, moves);
    forall i, j | 0 <= i < j < |log| && OpenedId(log[i]).Some?
      ensures OpenedId(log[i]) != OpenedId(log[j])
    {
      if OpenedId(log[i]) == OpenedId(log[j]) {
        OpenedOnce(log, i, j);
      }
    }
    forall i, j | 0 <= i < j < |log| && ClosedId(log[i]).Some? && ClosedId(log[i]) == ClosedId(log[j])
      ensures ClosedId(log[i]).value in c.again
    {
      var x := ClosedId(log[i]).value;
      assert Accounted(c, x);
      ClosedAtMostOnce(log, i, j);
      TimesIn(c.again, x);
    }
    forall i | 0 <= i < |log| && ClosedId(log[i]).Some?
      ensures exists j :: 0 <= j < i && OpensFor(log[j], log[i])
    {
      ClosingFollowsOpening(log, i);
    }
  }

  lemma {:induction false} SoundLog(p: Prog, moves: seq<Move>)
    ensures WellFormed(Exec(p, moves).attempted) && Conserved(Exec(p, moves))
  {
    ExecSound(p, moves);
  }

  // Once every task has settled, each opened step and run has its completion row, unless it is
  // gone, and then it has none.
  lemma {:induction false} FinishedRowsComplete(p: Prog, moves: seq<Move>, i: nat)
    requires Finished(Exec(p, moves))
    requires i < |Exec(p, moves).attempted| && OpenedId(Exec(p, moves).attempted[i]).Some?
    ensures var c := Exec(p, moves);
            (exists j :: i < j < |c.attempted| && OpensFor(c.attempted[i], c.attempted[j]))
            <==> OpenedId(c.attempted[i]).value !in c.gone
  {
    hide Exec, Sound;
    var c := Exec(p, moves);
    var log, x := c.attempted, OpenedId(c.attempted[i]).value;
    SoundLog(p, moves);
    OpenedIn(log, i);
    FinishedAccounts(c, x);
    TimesIn(c.gone, x);
    if Closes(log, x) > 0 {
      CountedIn(log, x);
      var j :| 0 <= j < |log| && ClosedId(log[j]) == Some(x);
      ClosingFollowsOpening(log, j);
      var k :| 0 <= k < j && OpensFor(log[k], log[j]);
      OpenedOnce(log, i, k);
    } else {
      forall j | i < j < |log|
        ensures !OpensFor(log[i], log[j])
      {
        if ClosedId(log[j]) == Some(x) {
          ClosedIn(log, j);
        }
      }
    }
  }

  lemma {:induction false} FinishedAccounts(c: Config, x: nat)
    requires Finished(c) && Conserved(c) && Opens(c.attempted, x) > 0
    ensures Closes(c.attempted, x) == 0 <==> Times(c.gone, x) > 0
  {
    assert Accounted(c, x);
    assert forall k :: 0 <= k < |AllTasks(c)| ==> AllTasks(c)[k].Settled?;
    NoneHeld(AllTasks(c), x);
  }

  // The first row of every run is its run_started row.
  lemma {:induction false} RunStartsFirst(p: Prog, moves: seq<Move>, i: nat)
    requires i < |Exec(p, moves).attempted|
    ensures var log := Exec(p, moves).attempted;
            exists j :: 0 <= j <= i && log[j].RunStarted? && log[j].runId == log[i].runId
  {
    ExecSound(p, moves);
    RunRowBefore(Exec(p, moves).attempted, i);
  }

  lemma {:induction false} RunRowBefore(log: seq<Row>, i: nat)
    requires WellFormed(log) && i < |log|
    ensures exists j :: 0 <= j <= i && log[j].RunStarted? && log[j].runId == log[i].runId
  {
    var front := log[..|log| - 1];
    if i < |front| {
      RunRowBefore(front, i);
      var j :| 0 <= j <= i && front[j].RunStarted? && front[j].runId == front[i].runId;
      assert log[j] == front[j];
    } else if log[i].StepCompleted? {
      var k :| 0 <= k < |front| && front[k].StepStarted? && front[k].stepId == log[i].stepId
          && front[k].runId == log[i].runId;
      RunRowBefore(front, k);
      var j :| 0 <= j <= k && front[j].RunStarted? && front[j].runId == front[k].runId;
      assert log[j] == front[j];
    } else if !log[i].RunStarted? {
      var name :| HasRun(front, log[i].runId, name);
      var j :| 0 <= j < |front| && front[j] == RunStarted(log[i].runId, name);
      assert log[j] == front[j];
    }
  }

  // ---- Depth ----

  // The depth printed live, the depth a reader rebuilds from the run's rows, and the length of the step's chain of
  // names are one and the same, up to the reader's cap.
  lemma {:induction false} LiveDepthIsRebuilt(p: Prog, moves: seq<Move>, line: Line)
    requires line.StepLine? && line in Exec(p, moves).console
    ensures var g := Links(FileOf(Exec(p, moves).attempted, line.runId));
            && line.stepId in g
            && Depth(g, line.stepId) == line.depth
            && CappedDepth(g, line.stepId) == Min(1000, line.depth)
  {
    ExecSound(p, moves);
    RebuiltDepth(Exec(p, moves).attempted, line.runId, line.stepId);
  }
}
