// What is printed, when every write and print succeeds: each run and step of the shared tracer once when it starts and
// once when it is done.
module ProtocolConsole {
  import opened Wrappers
  import opened Counting
  import opened Protocol
  import opened ProtocolLog
  import opened ProtocolSafety
  import opened ProtocolRuns
  import opened ProtocolEnds

  predicate AllDone(moves: seq<Move>) {
    forall i :: 0 <= i < |moves| ==> moves[i].io == Done
  }

  // ---- Lines about an id ----

  predicate StartsLine(line: Line, x: nat) {
    match line
    case StepLine(_, stepId, _) => stepId == x
    case RunLine(runId) => runId == x
    case EndLine(_, _) => false
  }

  predicate EndsLine(line: Line, x: nat) {
    line.EndLine? && line.id == x
  }

  function StartLines(console: seq<Line>, x: nat): nat {
    if console == [] then 0
    else StartLines(console[..|console| - 1], x) + (if StartsLine(console[|console| - 1], x) then 1 else 0)
  }

  function EndLines(console: seq<Line>, x: nat): nat {
    if console == [] then 0
    else EndLines(console[..|console| - 1], x) + (if EndsLine(console[|console| - 1], x) then 1 else 0)
  }

  function LineStarts(line: Option<Line>, x: nat): nat {
    if line.Some? && StartsLine(line.value, x) then 1 else 0
  }

  function LineEnds(line: Option<Line>, x: nat): nat {
    if line.Some? && EndsLine(line.value, x) then 1 else 0
  }

  lemma {:induction false} LinesSnoc(console: seq<Line>, line: Option<Line>, x: nat)
    ensures StartLines(console + ToSeq(line), x) == StartLines(console, x) + LineStarts(line, x)
    ensures EndLines(console + ToSeq(line), x) == EndLines(console, x) + LineEnds(line, x)
  {
    if line.Some? {
      assert (console + [line.value])[..|console|] == console;
    } else {
      assert console + [] == console;
    }
  }

  // ---- Frames of the shared tracer ----

  function SharedId(f: Frame, x: nat): nat {
    if f.tracer.Shared? then Eq(f.id, x) else 0
  }

  // How many of them hold the id x and have a body that is running.
  function Shown(t: Task, x: nat): nat
    decreases t
  {
    match t
    case Binding(first, _) => Shown(first, x)
    case Open(f, inner) => SharedId(f, x) + Shown(inner, x)
    case Joining(bs, _) => ShownAll(bs, x)
    case _ => 0
  }

  function ShownAll(ts: seq<Task>, x: nat): nat
    decreases ts
  {
    if ts == [] then 0 else Shown(ts[0], x) + ShownAll(ts[1..], x)
  }

  // How many have still to print how they ended.
  function Due(t: Task, x: nat): nat
    decreases t
  {
    match t
    case Binding(first, _) => Due(first, x)
    case Open(_, inner) => Due(inner, x)
    case Closing(f, _, _) => SharedId(f, x)
    case Reporting(f, _) => Eq(f.id, x)
    case Joining(bs, _) => DueAll(bs, x)
    case _ => 0
  }

  function DueAll(ts: seq<Task>, x: nat): nat
    decreases ts
  {
    if ts == [] then 0 else Due(ts[0], x) + DueAll(ts[1..], x)
  }

  lemma {:induction false} ShownUpdate(ts: seq<Task>, i: nat, t: Task, x: nat)
    requires i < |ts|
    ensures ShownAll(ts[i := t], x) + Shown(ts[i], x) == ShownAll(ts, x) + Shown(t, x)
    ensures DueAll(ts[i := t], x) + Due(ts[i], x) == DueAll(ts, x) + Due(t, x)
  {
    if i > 0 {
      assert ts[i := t][1..] == ts[1..][i - 1 := t];
      ShownUpdate(ts[1..], i - 1, t, x);
    } else {
      assert ts[i := t][1..] == ts[1..];
    }
  }

  lemma {:induction false} ShownConcat(a: seq<Task>, b: seq<Task>, x: nat)
    ensures ShownAll(a + b, x) == ShownAll(a, x) + ShownAll(b, x)
    ensures DueAll(a + b, x) == DueAll(a, x) + DueAll(b, x)
  {
    if a == [] {
      assert a + b == b;
    } else {
      assert (a + b)[1..] == a[1..] + b;
      ShownConcat(a[1..], b, x);
    }
  }

  lemma {:induction false} NoneShown(ts: seq<Task>, x: nat)
    requires forall i :: 0 <= i < |ts| ==> ts[i].Ready? || ts[i].Settled?
    ensures ShownAll(ts, x) == 0 && DueAll(ts, x) == 0
  {
    if ts != [] {
      NoneShown(ts[1..], x);
    }
  }

  // ---- Ends of the shared tracer ----

  predicate SharedEnd(end: End, x: nat) {
    end.id == x && end.tracer.Shared?
  }

  predicate ToldEnd(end: End, x: nat) {
    SharedEnd(end, x) && EndingOf(end.tracer, end.outcome).Told?
  }

  function SharedEnds(ends: seq<End>, x: nat): nat {
    if ends == [] then 0 else SharedEnds(ends[..|ends| - 1], x) + (if SharedEnd(ends[|ends| - 1], x) then 1 else 0)
  }

  function ToldEnds(ends: seq<End>, x: nat): nat {
    if ends == [] then 0 else ToldEnds(ends[..|ends| - 1], x) + (if ToldEnd(ends[|ends| - 1], x) then 1 else 0)
  }

  function EndShared(end: Option<End>, x: nat): nat {
    if end.Some? && SharedEnd(end.value, x) then 1 else 0
  }

  function EndToldOf(end: Option<End>, x: nat): nat {
    if end.Some? && ToldEnd(end.value, x) then 1 else 0
  }

  lemma {:induction false} SharedEndsSnoc(ends: seq<End>, end: Option<End>, x: nat)
    ensures SharedEnds(ends + ToSeq(end), x) == SharedEnds(ends, x) + EndShared(end, x)
    ensures ToldEnds(ends + ToSeq(end), x) == ToldEnds(ends, x) + EndToldOf(end, x)
  {
    if end.Some? {
      assert (ends + [end.value])[..|ends|] == ends;
    } else {
      assert ends + [] == ends;
    }
  }

  // ---- One step ----

  // A start line is printed when a body starts to run, and an end line for a body that ended and was told.
  ghost predicate Prints(t: Task, e: Effect, x: nat) {
    var left := Tasks(e.orphans);
    && Shown(e.task, x) + ShownAll(left, x) + EndShared(e.end, x) == Shown(t, x) + LineStarts(e.line, x)
    && Due(e.task, x) + DueAll(left, x) + LineEnds(e.line, x) == Due(t, x) + EndToldOf(e.end, x)
  }

  lemma {:induction false} AdvancePrints(log: seq<Row>, ctx: Ambient, t: Task, path: seq<nat>, next: nat, x: nat)
    requires Advance(ctx, t, path, Done, next).Some? && TaskOk(log, ctx, t)
    ensures Prints(t, Advance(ctx, t, path, Done, next).value, x)
    decreases t
  {
    hide WriteStart, PrintStart, EndBody, WriteEnd, PrintEnd, Join, Enter, Prints, Begin;
    match t
    case Ready(p) => BeginPrints(ctx, p, next, x);
    case Binding(first, k) =>
      if first.Settled? {
        AwaitPrints(first, k, next, x);
      } else {
        AdvancePrints(log, ctx, first, path, next, x);
        InnerPrints(t, Advance(ctx, first, path, Done, next).value, x);
      }
    case Open(f, inner) =>
      if inner.Settled? {
        EndPrints(f, inner.outcome, next, x);
      } else {
        AdvancePrints(log, Enter(ctx, f), inner, path, next, x);
        InnerPrints(t, Advance(Enter(ctx, f), inner, path, Done, next).value, x);
      }
    case Joining(bs, rejection) =>
      if path[0] < |bs| {
        AdvancePrints(log, ctx, bs[path[0]], path[1..], next, x);
        BranchPrints(ctx, bs, rejection, path, next, x);
      } else {
        JoinPrints(ctx, bs, rejection, next, x);
      }
    case Opening(f, body) => StartPrints(f, body, next, x);
    case Printing(f, body) => LinePrints(f, body, next, x);
    case Closing(f, result, again) => ClosePrints(f, result, again, next, x);
    case Reporting(f, result) => ReportPrints(f, result, next, x);
  }

  // A step inside a binding or a frame.
  lemma {:induction false} InnerPrints(t: Task, e: Effect, x: nat)
    requires (t.Binding? && Prints(t.first, e, x)) || (t.Open? && Prints(t.inner, e, x))
    ensures t.Binding? ==> Prints(t, e.(task := Binding(e.task, t.next)), x)
    ensures t.Open? ==> Prints(t, e.(task := Open(t.frame, e.task)), x)
  {
  }

  lemma {:induction false} BeginPrints(ctx: Ambient, p: Prog, next: nat, x: nat)
    ensures Prints(Ready(p), Begin(ctx, p, next), x)
  {
    var e := Begin(ctx, p, next);
    assert Tasks(e.orphans) == [];
    if p.All? {
      NoneShown(e.task.branches, x);
    }
  }

  lemma {:induction false} AwaitPrints(first: Task, k: Outcome -> Prog, next: nat, x: nat)
    requires first.Settled?
    ensures Prints(Binding(first, k), Quiet(Ready(k(first.outcome)), next), x)
  {
    assert Tasks(Quiet(Ready(k(first.outcome)), next).orphans) == [];
  }

  lemma {:induction false} StartPrints(f: Frame, body: Prog, next: nat, x: nat)
    ensures Prints(Opening(f, body), WriteStart(f, body, Done, next), x)
  {
    assert Tasks([]) == [];
  }

  lemma {:induction false} LinePrints(f: Frame, body: Prog, next: nat, x: nat)
    requires f.tracer.Shared?
    ensures Prints(Printing(f, body), PrintStart(f, body, Done, next), x)
  {
    assert Tasks([]) == [];
  }

  lemma {:induction false} EndPrints(f: Frame, out: Outcome, next: nat, x: nat)
    ensures Prints(Open(f, Settled(out)), EndBody(f, out, next), x)
  {
    assert Tasks([]) == [];
  }

  lemma {:induction false} ClosePrints(f: Frame, result: Outcome, again: bool, next: nat, x: nat)
    ensures Prints(Closing(f, result, again), WriteEnd(f, result, again, Done, next), x)
  {
    assert Tasks([]) == [];
  }

  lemma {:induction false} ReportPrints(f: Frame, result: Outcome, next: nat, x: nat)
    ensures Prints(Reporting(f, result), PrintEnd(f, result, Done, next), x)
  {
    assert Tasks([]) == [];
  }

  lemma {:induction false} BranchPrints(ctx: Ambient, bs: seq<Task>, rejection: Option<Value>, path: seq<nat>,
        next: nat, x: nat)
    requires path != [] && path[0] < |bs| && Advance(ctx, bs[path[0]], path[1..], Done, next).Some?
    requires Prints(bs[path[0]], Advance(ctx, bs[path[0]], path[1..], Done, next).value, x)
    ensures Advance(ctx, Joining(bs, rejection), path, Done, next).Some?
    ensures Prints(Joining(bs, rejection), Advance(ctx, Joining(bs, rejection), path, Done, next).value, x)
  {
    ShownUpdate(bs, path[0], Advance(ctx, bs[path[0]], path[1..], Done, next).value.task, x);
  }

  lemma {:induction false} JoinPrints(ctx: Ambient, bs: seq<Task>, rejection: Option<Value>, next: nat, x: nat)
    requires Join(ctx, bs, rejection, next).Some?
    ensures Prints(Joining(bs, rejection), Join(ctx, bs, rejection, next).value, x)
  {
    var e := Join(ctx, bs, rejection, next).value;
    if rejection.Some? {
      assert Tasks(e.orphans) == bs;
    } else {
      assert Tasks(e.orphans) == [];
      NoneShown(bs, x);
    }
  }

  // ---- Whole executions ----

  ghost predicate Printed(c: Config, x: nat) {
    && ShownAll(AllTasks(c), x) + SharedEnds(c.ends, x) == StartLines(c.console, x)
    && DueAll(AllTasks(c), x) + EndLines(c.console, x) == ToldEnds(c.ends, x)
  }

  lemma {:induction false} NextPrinted(c: Config, m: Move, x: nat)
    requires Printed(c, x) && Sound(c) && m.io == Done
    ensures Printed(Next(c, m), x)
  {
    if Enabled(c, m).Some? {
      var e, t := Enabled(c, m).value, Threads(c)[m.thread];
      MovedTasks(c, m, e);
      assert AllTasks(c)[m.thread] == t.task;
      assert TaskOk(c.attempted, t.ctx, t.task);
      AdvancePrints(c.attempted, t.ctx, t.task, m.path, c.next, x);
      hide Advance, Shown, ShownAll, Due, DueAll, Sound, StartLines, EndLines, SharedEnds, ToldEnds;
      ShownUpdate(AllTasks(c), m.thread, e.task, x);
      ShownConcat(AllTasks(c)[m.thread := e.task], Tasks(e.orphans), x);
      SharedEndsSnoc(c.ends, e.end, x);
      LinesSnoc(c.console, e.line, x);
    }
  }

  lemma {:induction false} ExecPrinted(p: Prog, moves: seq<Move>, x: nat)
    requires AllDone(moves)
    ensures Printed(Exec(p, moves), x)
  {
    if moves == [] {
      assert AllTasks(Initial(p)) == [Ready(p)];
      NoneShown([Ready(p)], x);
    } else {
      var front := moves[..|moves| - 1];
      ExecPrinted(p, front, x);
      ExecSound(p, front);
      NextPrinted(Exec(p, front), moves[|moves| - 1], x);
    }
  }

  lemma {:induction false} DoneIsContained(moves: seq<Move>)
    requires AllDone(moves)
    ensures AllContained(moves)
  {
  }

  lemma {:induction false} HasStartLine(console: seq<Line>, x: nat)
    requires StartLines(console, x) > 0
    ensures exists j :: 0 <= j < |console| && StartsLine(console[j], x)
  {
    var front := console[..|console| - 1];
    if !StartsLine(console[|front|], x) {
      HasStartLine(front, x);
      var j :| 0 <= j < |front| && StartsLine(front[j], x);
      assert console[j] == front[j];
    }
  }

  lemma {:induction false} HasEndLine(console: seq<Line>, k: nat)
    requires k < |console| && console[k].EndLine?
    ensures EndLines(console, console[k].id) > 0
  {
    if k < |console| - 1 {
      HasEndLine(console[..|console| - 1], k);
    }
  }

  lemma {:induction false} ToldAreShared(ends: seq<End>, x: nat)
    ensures ToldEnds(ends, x) <= SharedEnds(ends, x)
  {
    if ends != [] {
      ToldAreShared(ends[..|ends| - 1], x);
    }
  }

  // How a run or step ended is printed after its start.
  lemma {:induction false} EndsAfterStarts(p: Prog, moves: seq<Move>, k: nat)
    requires AllDone(moves) && k < |Exec(p, moves).console| && Exec(p, moves).console[k].EndLine?
    ensures var console := Exec(p, moves).console;
            exists j :: 0 <= j < k && StartsLine(console[j], console[k].id)
  {
    var front := moves[..|moves| - 1];
    var before, console := Exec(p, front).console, Exec(p, moves).console;
    ConsoleGrows(p, moves);
    if k < |before| {
      EndsAfterStarts(p, front, k);
      var j :| 0 <= j < k && StartsLine(before[j], before[k].id);
      assert console[j] == before[j] && console[k] == before[k];
    } else {
      var x := console[k].id;
      ExecPrinted(p, moves, x);
      hide Exec;
      HasEndLine(console, k);
      ToldAreShared(Exec(p, moves).ends, x);
      HasStartLine(console, x);
      var j :| 0 <= j < |console| && StartsLine(console[j], x);
    }
  }

  lemma {:induction false} ConsoleGrows(p: Prog, moves: seq<Move>)
    requires moves != []
    ensures var before, after := Exec(p, moves[..|moves| - 1]).console, Exec(p, moves).console;
            |before| <= |after| <= |before| + 1 && after[..|before|] == before
  {
  }

  // ---- When everything has settled ----

  lemma {:induction false} NoEnds(ends: seq<End>, x: nat)
    requires forall k :: 0 <= k < |ends| ==> ends[k].id != x
    ensures SharedEnds(ends, x) == 0 && ToldEnds(ends, x) == 0
  {
    if ends != [] {
      NoEnds(ends[..|ends| - 1], x);
    }
  }

  lemma {:induction false} OneEnd(ends: seq<End>, i: nat)
    requires i < |ends| && forall k :: 0 <= k < |ends| && ends[k].id == ends[i].id ==> k == i
    ensures var x := ends[i].id;
            && SharedEnds(ends, x) == (if ends[i].tracer.Shared? then 1 else 0)
            && ToldEnds(ends, x)
               == (if ends[i].tracer.Shared? && EndingOf(ends[i].tracer, ends[i].outcome).Told? then 1 else 0)
  {
    var front := ends[..|ends| - 1];
    if i < |front| {
      OneEnd(front, i);
    } else {
      NoEnds(front, ends[i].id);
    }
  }

  lemma {:induction false} SomeEnd(ends: seq<End>, x: nat) returns (i: nat)
    requires EndsOf(ends, x) > 0
    ensures i < |ends| && ends[i].id == x
  {
    i := |ends| - 1;
    if ends[i].id != x {
      i := SomeEnd(ends[..|ends| - 1], x);
    }
  }

  // Each start row belongs to a body that has ended.
  lemma {:induction false} StartHasEnd(p: Prog, moves: seq<Move>, k: nat) returns (i: nat)
    requires AllContained(moves) && Finished(Exec(p, moves))
    requires k < |Exec(p, moves).attempted| && OpenedId(Exec(p, moves).attempted[k]).Some?
    ensures i < |Exec(p, moves).ends| && OpenedId(Exec(p, moves).attempted[k]) == Some(Exec(p, moves).ends[i].id)
  {
    var c := Exec(p, moves);
    var x := OpenedId(c.attempted[k]).value;
    ExecEnds(p, moves, x);
    ExecConserves(p, moves);
    hide Exec;
    assert Accounted(c, x);
    OpenedIn(c.attempted, k);
    assert forall t :: 0 <= t < |AllTasks(c)| ==> AllTasks(c)[t].Settled?;
    NoneRunning(AllTasks(c), x);
    i := SomeEnd(c.ends, x);
  }

  // It has a completion row exactly if what the body ended with is told, and every such row says the same.
  lemma {:induction false} ToldHasRow(c: Config, i: nat)
    requires Finished(c) && AllTell(c) && Conserved(c) && i < |c.ends| && EndsAccounted(c, c.ends[i].id)
    ensures EndingOf(c.ends[i].tracer, c.ends[i].outcome).Told?
            <==> exists failed :: HasEnd(c.attempted, c.ends[i].id, failed)
    ensures forall a, b :: HasEnd(c.attempted, c.ends[i].id, a) && HasEnd(c.attempted, c.ends[i].id, b) ==> a == b
  {
    var x := c.ends[i].id;
    OnlyEnd(c, i);
    forall failed | HasEnd(c.attempted, x, failed)
      ensures EndingOf(c.ends[i].tracer, c.ends[i].outcome).Told?
              && failed == EndingOf(c.ends[i].tracer, c.ends[i].outcome).result.Threw?
    {
      var j :| 0 <= j < |c.attempted| && ClosedId(c.attempted[j]) == Some(x) && c.attempted[j].failed == failed;
      assert RowTells(c.ends, c.attempted[j]);
    }
    if EndingOf(c.ends[i].tracer, c.ends[i].outcome).Told? {
      ToldIsNotGone(c, i);
      SettledRow(c, i);
    }
  }

  lemma {:induction false} ToldIsNotGone(c: Config, i: nat)
    requires AllTell(c) && i < |c.ends| && EndsAccounted(c, c.ends[i].id)
    requires EndingOf(c.ends[i].tracer, c.ends[i].outcome).Told?
    ensures c.ends[i].id !in c.gone
  {
    OnlyEnd(c, i);
    forall g | 0 <= g < |c.gone|
      ensures c.gone[g] != c.ends[i].id
    {
      assert Conceals(c.ends, c.gone[g]);
    }
  }

  lemma {:induction false} SettledRow(c: Config, i: nat)
    requires Finished(c) && Conserved(c) && i < |c.ends| && EndsAccounted(c, c.ends[i].id) && c.ends[i].id !in c.gone
    ensures exists failed :: HasEnd(c.attempted, c.ends[i].id, failed)
  {
    var x := c.ends[i].id;
    EndedOnce(c.ends, i);
    assert Accounted(c, x);
    assert forall k :: 0 <= k < |AllTasks(c)| ==> AllTasks(c)[k].Settled?;
    NoneHeld(AllTasks(c), x);
    TimesIn(c.gone, x);
    CountedIn(c.attempted, x);
    var j :| 0 <= j < |c.attempted| && ClosedId(c.attempted[j]) == Some(x);
    assert HasEnd(c.attempted, x, c.attempted[j].failed);
  }

  lemma {:induction false} EndLinesTell(c: Config, x: nat)
    requires forall i :: 0 <= i < |c.console| ==> LineOk(c.attempted, c.console[i])
    requires forall a, b :: HasEnd(c.attempted, x, a) && HasEnd(c.attempted, x, b) ==> a == b
    ensures forall line, failed :: line in c.console && EndsLine(line, x) && HasEnd(c.attempted, x, failed) ==>
              line.failed == failed
  {
    hide HasEnd;
    forall line, failed | line in c.console && EndsLine(line, x) && HasEnd(c.attempted, x, failed)
      ensures line.failed == failed
    {
      assert LineOk(c.attempted, line);
    }
  }

  // Once everything has settled: each run and step of the shared tracer that has a start row has one start line, and
  // one end line exactly if it has a completion row, which says the same. Inspectors print nothing.
  lemma {:induction false} ConsoleComplete(p: Prog, moves: seq<Move>, k: nat) returns (i: nat)
    requires AllDone(moves) && Finished(Exec(p, moves))
    requires k < |Exec(p, moves).attempted| && OpenedId(Exec(p, moves).attempted[k]).Some?
    ensures var c, x := Exec(p, moves), OpenedId(Exec(p, moves).attempted[k]).value;
            && i < |c.ends| && c.ends[i].id == x
            && StartLines(c.console, x) == (if c.ends[i].tracer.Shared? then 1 else 0)
            && EndLines(c.console, x)
               == (if c.ends[i].tracer.Shared? && exists failed :: HasEnd(c.attempted, x, failed) then 1 else 0)
            && forall line, failed :: line in c.console && EndsLine(line, x) && HasEnd(c.attempted, x, failed) ==>
                 line.failed == failed
  {
    var c, x := Exec(p, moves), OpenedId(Exec(p, moves).attempted[k]).value;
    DoneIsContained(moves);
    i := StartHasEnd(p, moves, k);
    ExecPrinted(p, moves, x);
    ExecEnds(p, moves, x);
    ExecTells(p, moves);
    ExecSound(p, moves);
    hide Exec, AllTell;
    OnlyEnd(c, i);
    OneEnd(c.ends, i);
    ToldHasRow(c, i);
    assert forall t :: 0 <= t < |AllTasks(c)| ==> AllTasks(c)[t].Settled?;
    NoneDue(AllTasks(c), x);
    EndLinesTell(c, x);
  }

  lemma {:induction false} NoneDue(ts: seq<Task>, x: nat)
    requires forall i :: 0 <= i < |ts| ==> ts[i].Settled?
    ensures ShownAll(ts, x) == 0 && DueAll(ts, x) == 0
  {
    NoneShown(ts, x);
  }

  // ---- Stored rows ----

  // A row handed over is stored exactly if its write succeeds, and nothing is printed when a print fails.
  lemma {:induction false} StoredExactly(p: Prog, moves: seq<Move>, m: Move)
    ensures var c, d := Exec(p, moves), Exec(p, moves + [m]);
            && |c.attempted| <= |d.attempted| && d.attempted[..|c.attempted|] == c.attempted
            && d.disk == c.disk + (if m.io.Done? then d.attempted[|c.attempted|..] else [])
            && (m.io.Fails? ==> d.console == c.console)
  {
    assert (moves + [m])[..|moves|] == moves;
  }

  // So if everything succeeds, every row handed over is stored.
  lemma {:induction false} AllStored(p: Prog, moves: seq<Move>)
    requires AllDone(moves)
    ensures Exec(p, moves).disk == Exec(p, moves).attempted
  {
    if moves != [] {
      var front, last := moves[..|moves| - 1], moves[|moves| - 1];
      AllStored(p, front);
      StoredExactly(p, front, last);
      assert moves == front + [last];
    }
  }
}
