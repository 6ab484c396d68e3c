// What every reachable configuration of the protocol keeps, whatever the program, the schedule and the failures.
module ProtocolSafety {
  import opened Wrappers
  import opened Counting
  import opened ParentGraph
  import opened StepDepth
  import opened Protocol
  import opened ProtocolLog

  // ---- Ids held by frames that have no completion row yet ----

  // How many frames of a task hold the id x and have still to attempt a first completion row.
  function Live(t: Task, x: nat): nat
    decreases t
  {
    match t
    case Binding(first, _) => Live(first, x)
    case Opening(f, _) => Eq(f.id, x)
    case Printing(f, _) => Eq(f.id, x)
    case Open(f, inner) => Eq(f.id, x) + Live(inner, x)
    case Closing(f, _, again) => if again then 0 else Eq(f.id, x)
    case Joining(bs, _) => LiveAll(bs, x)
    case _ => 0
  }

  function LiveAll(ts: seq<Task>, x: nat): nat
    decreases ts
  {
    if ts == [] then 0 else Live(ts[0], x) + LiveAll(ts[1..], x)
  }

  // Of those, how many still have to attempt their start row.
  function Pending(t: Task, x: nat): nat
    decreases t
  {
    match t
    case Binding(first, _) => Pending(first, x)
    case Opening(f, _) => Eq(f.id, x)
    case Open(_, inner) => Pending(inner, x)
    case Joining(bs, _) => PendingAll(bs, x)
    case _ => 0
  }

  function PendingAll(ts: seq<Task>, x: nat): nat
    decreases ts
  {
    if ts == [] then 0 else Pending(ts[0], x) + PendingAll(ts[1..], x)
  }

  // How many frames have a further completion row to attempt.
  function Repeating(t: Task, x: nat): nat
    decreases t
  {
    match t
    case Binding(first, _) => Repeating(first, x)
    case Open(_, inner) => Repeating(inner, x)
    case Closing(f, _, again) => if again then Eq(f.id, x) else 0
    case Joining(bs, _) => RepeatingAll(bs, x)
    case _ => 0
  }

  function RepeatingAll(ts: seq<Task>, x: nat): nat
    decreases ts
  {
    if ts == [] then 0 else Repeating(ts[0], x) + RepeatingAll(ts[1..], x)
  }

  lemma {:induction false} AllUpdate(ts: seq<Task>, i: nat, t: Task, x: nat)
    requires i < |ts|
    ensures LiveAll(ts[i := t], x) + Live(ts[i], x) == LiveAll(ts, x) + Live(t, x)
    ensures PendingAll(ts[i := t], x) + Pending(ts[i], x) == PendingAll(ts, x) + Pending(t, x)
    ensures RepeatingAll(ts[i := t], x) + Repeating(ts[i], x) == RepeatingAll(ts, x) + Repeating(t, x)
  {
    if i > 0 {
      assert ts[i := t][1..] == ts[1..][i - 1 := t];
      AllUpdate(ts[1..], i - 1, t, x);
    } else {
      assert ts[i := t][1..] == ts[1..];
    }
  }

  lemma {:induction false} AllConcat(a: seq<Task>, b: seq<Task>, x: nat)
    ensures LiveAll(a + b, x) == LiveAll(a, x) + LiveAll(b, x)
    ensures PendingAll(a + b, x) == PendingAll(a, x) + PendingAll(b, x)
    ensures RepeatingAll(a + b, x) == RepeatingAll(a, x) + RepeatingAll(b, x)
  {
    if a == [] {
      assert a + b == b;
    } else {
      assert (a + b)[1..] == a[1..] + b;
      AllConcat(a[1..], b, x);
    }
  }

  lemma {:induction false} NoneHeld(ts: seq<Task>, x: nat)
    requires forall i :: 0 <= i < |ts| ==> ts[i].Ready? || ts[i].Settled?
    ensures LiveAll(ts, x) == 0 && PendingAll(ts, x) == 0 && RepeatingAll(ts, x) == 0
  {
    if ts != [] {
      NoneHeld(ts[1..], x);
    }
  }

  lemma {:induction false} LiveBranch(bs: seq<Task>, i: nat, x: nat)
    requires i < |bs|
    ensures Pending(bs[i], x) <= PendingAll(bs, x) && Live(bs[i], x) <= LiveAll(bs, x)
  {
    if i > 0 {
      LiveBranch(bs[1..], i - 1, x);
    }
  }

  function Tasks(os: seq<Orphan>): (ts: seq<Task>)
    ensures |ts| == |os|
  {
    seq(|os|, i requires 0 <= i < |os| => os[i].task)
  }

  function RowOpens(row: Option<Row>, x: nat): nat {
    if row.Some? then EqSome(OpenedId(row.value), x) else 0
  }

  function RowCloses(row: Option<Row>, x: nat): nat {
    if row.Some? then EqSome(ClosedId(row.value), x) else 0
  }

  // A step creates at most one id, and moves every id between pending, live, closed and gone without losing or copying
  // it; a further completion row is announced before it is attempted.
  ghost predicate Conserves(t: Task, next: nat, e: Effect, x: nat) {
    var created := if next <= x < e.next then 1 else 0;
    var left := Tasks(e.orphans);
    && next <= e.next <= next + 1
    && Pending(e.task, x) + PendingAll(left, x) + RowOpens(e.row, x) == Pending(t, x) + created
    && Live(e.task, x) + LiveAll(left, x) + RowCloses(e.row, x) + EqSome(e.gone, x)
       == Live(t, x) + created + EqSome(e.again, x)
    && Repeating(e.task, x) + RepeatingAll(left, x) + 2 * EqSome(e.again, x) <= Repeating(t, x) + RowCloses(e.row, x)
    && EqSome(e.again, x) <= RowCloses(e.row, x)
  }

  lemma {:induction false} BeginConserves(ctx: Ambient, p: Prog, next: nat, x: nat)
    ensures Conserves(Ready(p), next, Begin(ctx, p, next), x)
  {
    var e := Begin(ctx, p, next);
    assert Tasks(e.orphans) == [];
    if p.All? {
      NoneHeld(e.task.branches, x);
    }
  }

  lemma {:induction false} FrameConserves(ctx: Ambient, t: Task, path: seq<nat>, io: Io, next: nat, x: nat)
    requires t.Opening? || t.Printing? || t.Closing? || t.Reporting? || (t.Open? && t.inner.Settled?)
    ensures Advance(ctx, t, path, io, next).Some? && Conserves(t, next, Advance(ctx, t, path, io, next).value, x)
  {
    hide Conserves;
    match t
    case Opening(f, body) => StartConserves(f, body, io, next, x);
    case Printing(f, body) => PrintConserves(f, body, io, next, x);
    case Open(f, inner) => EndConserves(f, inner.outcome, next, x);
    case Closing(f, result, again) => CloseConserves(f, result, again, io, next, x);
    case Reporting(f, result) => ReportConserves(f, result, io, next, x);
  }

  lemma {:induction false} StartConserves(f: Frame, body: Prog, io: Io, next: nat, x: nat)
    ensures Conserves(Opening(f, body), next, WriteStart(f, body, io, next), x)
  {
    assert Tasks([]) == [];
  }

  lemma {:induction false} PrintConserves(f: Frame, body: Prog, io: Io, next: nat, x: nat)
    ensures Conserves(Printing(f, body), next, PrintStart(f, body, io, next), x)
  {
    assert Tasks([]) == [];
  }

  lemma {:induction false} EndConserves(f: Frame, out: Outcome, next: nat, x: nat)
    ensures Conserves(Open(f, Settled(out)), next, EndBody(f, out, next), x)
  {
    assert Tasks([]) == [];
  }

  lemma {:induction false} CloseConserves(f: Frame, result: Outcome, again: bool, io: Io, next: nat, x: nat)
    ensures Conserves(Closing(f, result, again), next, WriteEnd(f, result, again, io, next), x)
  {
    assert Tasks([]) == [];
  }

  lemma {:induction false} ReportConserves(f: Frame, result: Outcome, io: Io, next: nat, x: nat)
    ensures Conserves(Reporting(f, result), next, PrintEnd(f, result, io, next), x)
  {
    assert Tasks([]) == [];
  }

  lemma {:induction false} AwaitConserves(first: Task, k: Outcome -> Prog, next: nat, x: nat)
    requires first.Settled?
    ensures Conserves(Binding(first, k), next, Quiet(Ready(k(first.outcome)), next), x)
  {
    assert Tasks(Quiet(Ready(k(first.outcome)), next).orphans) == [];
  }

  lemma {:induction false} AdvanceConserves(ctx: Ambient, t: Task, path: seq<nat>, io: Io, next: nat, x: nat)
    requires Advance(ctx, t, path, io, next).Some?
    ensures Conserves(t, next, Advance(ctx, t, path, io, next).value, x)
    decreases t
  {
    hide WriteStart, PrintStart, EndBody, WriteEnd, PrintEnd, Join, Enter;
    match t
    case Ready(p) => BeginConserves(ctx, p, next, x);
    case Binding(first, k) =>
      if first.Settled? {
        AwaitConserves(first, k, next, x);
      } else {
        AdvanceConserves(ctx, first, path, io, next, x);
      }
    case Open(f, inner) =>
      if inner.Settled? {
        FrameConserves(ctx, t, path, io, next, x);
      } else {
        AdvanceConserves(Enter(ctx, f), inner, path, io, next, x);
      }
    case Joining(bs, rejection) =>
      if path[0] < |bs| {
        AdvanceConserves(ctx, bs[path[0]], path[1..], io, next, x);
        BranchConserves(ctx, bs, rejection, path, io, next, x);
      } else {
        JoinConserves(ctx, bs, rejection, next, x);
      }
    case _ => FrameConserves(ctx, t, path, io, next, x);
  }

  lemma {:induction false} BranchConserves(ctx: Ambient, bs: seq<Task>, rejection: Option<Value>, path: seq<nat>,
        io: Io, next: nat, x: nat)
    requires path != [] && path[0] < |bs| && Advance(ctx, bs[path[0]], path[1..], io, next).Some?
    requires Conserves(bs[path[0]], next, Advance(ctx, bs[path[0]], path[1..], io, next).value, x)
    ensures Conserves(Joining(bs, rejection), next, Advance(ctx, Joining(bs, rejection), path, io, next).value, x)
  {
    AllUpdate(bs, path[0], Advance(ctx, bs[path[0]], path[1..], io, next).value.task, x);
    LiveBranch(bs, path[0], x);
  }

  lemma {:induction false} JoinConserves(ctx: Ambient, bs: seq<Task>, rejection: Option<Value>, next: nat, x: nat)
    requires Join(ctx, bs, rejection, next).Some?
    ensures Conserves(Joining(bs, rejection), next, Join(ctx, bs, rejection, next).value, x)
  {
    var e := Join(ctx, bs, rejection, next).value;
    if rejection.Some? {
      assert Tasks(e.orphans) == bs;
    } else {
      assert Tasks(e.orphans) == [];
      NoneHeld(bs, x);
    }
  }

  // ---- The accounts of a configuration ----

  function AllTasks(c: Config): seq<Task> {
    Tasks(Threads(c))
  }

  // Every id allocated is waiting for its start row or has had it exactly once; and it is live, gone or has its
  // completion row, exactly one of these; further completion rows come after the first.
  ghost predicate Accounted(c: Config, x: nat) {
    var known := if x < c.next then 1 else 0;
    && PendingAll(AllTasks(c), x) + Opens(c.attempted, x) == known
    && LiveAll(AllTasks(c), x) + Closes(c.attempted, x) + Times(c.gone, x) == known + Times(c.again, x)
    && RepeatingAll(AllTasks(c), x) + 2 * Times(c.again, x) <= Closes(c.attempted, x)
  }

  ghost predicate Conserved(c: Config) {
    forall x: nat :: Accounted(c, x)
  }

  lemma {:induction false} LogCounts(log: seq<Row>, row: Option<Row>, x: nat)
    ensures Opens(log + ToSeq(row), x) == Opens(log, x) + RowOpens(row, x)
    ensures Closes(log + ToSeq(row), x) == Closes(log, x) + RowCloses(row, x)
  {
    if row.Some? {
      assert (log + [row.value])[..|log|] == log;
    } else {
      assert log + [] == log;
    }
  }

  // What a move leaves of the tasks.
  lemma {:induction false} MovedTasks(c: Config, m: Move, e: Effect)
    requires Enabled(c, m) == Some(e)
    ensures Threads(Next(c, m)) == Threads(c)[m.thread := Orphan(Threads(c)[m.thread].ctx, e.task)] + e.orphans
    ensures AllTasks(Next(c, m)) == AllTasks(c)[m.thread := e.task] + Tasks(e.orphans)
  {
    var moved := Threads(c)[m.thread := Orphan(Threads(c)[m.thread].ctx, e.task)];
    assert Threads(Next(c, m)) == moved + e.orphans;
    assert AllTasks(Next(c, m)) == Tasks(moved) + Tasks(e.orphans);
    assert Tasks(moved) == AllTasks(c)[m.thread := e.task];
  }

  lemma {:induction false} MovedSums(c: Config, m: Move, e: Effect, x: nat)
    requires Enabled(c, m) == Some(e)
    ensures var before, after, t, left :=
            AllTasks(c), AllTasks(Next(c, m)), Threads(c)[m.thread].task, Tasks(e.orphans);
            && PendingAll(after, x) + Pending(t, x) == PendingAll(before, x) + Pending(e.task, x) + PendingAll(left, x)
            && LiveAll(after, x) + Live(t, x) == LiveAll(before, x) + Live(e.task, x) + LiveAll(left, x)
            && RepeatingAll(after, x) + Repeating(t, x)
                == RepeatingAll(before, x) + Repeating(e.task, x) + RepeatingAll(left, x)
  {
    MovedTasks(c, m, e);
    assert AllTasks(c)[m.thread] == Threads(c)[m.thread].task;
    AllUpdate(AllTasks(c), m.thread, e.task, x);
    AllConcat(AllTasks(c)[m.thread := e.task], Tasks(e.orphans), x);
  }

  lemma {:induction false} MovedCounts(c: Config, m: Move, e: Effect, x: nat)
    requires Enabled(c, m) == Some(e)
    ensures var d := Next(c, m);
            && d.next == e.next
            && Opens(d.attempted, x) == Opens(c.attempted, x) + RowOpens(e.row, x)
            && Closes(d.attempted, x) == Closes(c.attempted, x) + RowCloses(e.row, x)
            && Times(d.gone, x) == Times(c.gone, x) + EqSome(e.gone, x)
            && Times(d.again, x) == Times(c.again, x) + EqSome(e.again, x)
  {
    hide Enabled, Opens, Closes, Times;
    LogCounts(c.attempted, e.row, x);
    TimesSnoc(c.gone, e.gone, x);
    TimesSnoc(c.again, e.again, x);
  }

  lemma {:induction false} NextConserves(c: Config, m: Move, x: nat)
    requires Accounted(c, x)
    ensures Accounted(Next(c, m), x)
  {
    if Enabled(c, m).Some? {
      var e, t := Enabled(c, m).value, Threads(c)[m.thread];
      assert Conserves(t.task, c.next, e, x) by {
        AdvanceConserves(t.ctx, t.task, m.path, m.io, c.next, x);
      }
      hide Enabled, Next, PendingAll, LiveAll, RepeatingAll, Opens, Closes, Times, AllTasks;
      MovedSums(c, m, e, x);
      MovedCounts(c, m, e, x);
    }
  }

  lemma {:induction false} ExecConserves(p: Prog, moves: seq<Move>)
    ensures Conserved(Exec(p, moves))
  {
    if moves == [] {
      forall x: nat
        ensures Accounted(Initial(p), x)
      {
        assert AllTasks(Initial(p)) == [Ready(p)];
        NoneHeld([Ready(p)], x);
      }
    } else {
      var front := moves[..|moves| - 1];
      ExecConserves(p, front);
      forall x: nat
        ensures Accounted(Exec(p, moves), x)
      {
        NextConserves(Exec(p, front), moves[|moves| - 1], x);
      }
    }
  }

  // ---- Stores agree with the rows ----

  ghost predicate StoreOk(log: seq<Row>, c: Context) {
    && (exists name :: HasRun(log, c.runId, name))
    && (c.stepId.None? ==> c.depth == 0)
    && (c.stepId.Some? ==> HasStep(log, c.runId, c.stepId.value) && |PathOf(log, c.stepId.value)| == c.depth)
  }

  ghost predicate AmbientOk(log: seq<Row>, ctx: Ambient) {
    forall tracer :: tracer in ctx.stores ==> StoreOk(log, ctx.stores[tracer])
  }

  // A step carries what its tracer's store held.
  ghost predicate FrameOk(ctx: Ambient, f: Frame) {
    f.StepFrame? ==>
      && f.tracer in ctx.stores
      && var c := ctx.stores[f.tracer]; f.runId == c.runId && f.parentId == c.stepId && f.depth == c.depth
  }

  // Every frame was opened in the store it runs in, and an opened frame has its start row in the log.
  ghost predicate TaskOk(log: seq<Row>, ctx: Ambient, t: Task)
    decreases t
  {
    match t
    case Binding(first, _) => TaskOk(log, ctx, first)
    case Opening(f, _) => FrameOk(ctx, f)
    case Printing(f, _) => FrameOk(ctx, f) && StartRow(f) in log && f.tracer.Shared?
    case Open(f, inner) => FrameOk(ctx, f) && StartRow(f) in log && TaskOk(log, Enter(ctx, f), inner)
    case Closing(f, _, _) => FrameOk(ctx, f) && StartRow(f) in log
    case Reporting(f, result) => HasEnd(log, f.id, result.Threw?) && f.tracer.Shared?
    case Joining(bs, rejection) =>
      && (forall i :: 0 <= i < |bs| ==> TaskOk(log, ctx, bs[i]))
      && (rejection.Some? ==> Settled(Threw(rejection.value)) in bs)
      && (rejection.None? ==> forall i :: 0 <= i < |bs| && bs[i].Settled? ==> bs[i].outcome.Returned?)
    case _ => true
  }

  lemma {:induction false} AmbientOkGrows(log: seq<Row>, r: Row, ctx: Ambient)
    requires AmbientOk(log, ctx) && Follows(log, r)
    ensures AmbientOk(log + [r], ctx)
  {
    forall tracer | tracer in ctx.stores
      ensures StoreOk(log + [r], ctx.stores[tracer])
    {
      var c := ctx.stores[tracer];
      var name :| HasRun(log, c.runId, name);
      assert HasRun(log + [r], c.runId, name);
      if c.stepId.Some? {
        HasStepGrows(log, [r], c.runId, c.stepId.value);
        PathStable(log, r, c.runId, c.stepId.value);
      }
    }
  }

  lemma {:induction false} TaskOkGrows(log: seq<Row>, r: Row, ctx: Ambient, t: Task)
    requires TaskOk(log, ctx, t)
    ensures TaskOk(log + [r], ctx, t)
    decreases t
  {
    match t
    case Binding(first, _) => TaskOkGrows(log, r, ctx, first);
    case Open(f, inner) => TaskOkGrows(log, r, Enter(ctx, f), inner);
    case Reporting(f, result) => HasEndGrows(log, [r], f.id, result.Threw?);
    case Joining(bs, _) =>
      forall i | 0 <= i < |bs|
        ensures TaskOk(log + [r], ctx, bs[i])
      {
        TaskOkGrows(log, r, ctx, bs[i]);
      }
    case _ =>
  }

  // The stores derived for a recorded frame agree with the rows again.
  lemma {:induction false} EnterOk(log: seq<Row>, ctx: Ambient, f: Frame)
    requires WellFormed(log) && AmbientOk(log, ctx) && FrameOk(ctx, f) && StartRow(f) in log
    ensures AmbientOk(log, Enter(ctx, f))
    ensures f.StepFrame? ==> HasStep(log, f.runId, f.id) && |PathOf(log, f.id)| == f.depth + 1
  {
    var i :| 0 <= i < |log| && log[i] == StartRow(f);
    if f.StepFrame? {
      PathLaw(log, i);
      assert StoreOk(log, ctx.stores[f.tracer]);
    } else {
      assert HasRun(log, f.id, f.name);
    }
  }

  ghost predicate OrphansOk(log: seq<Row>, os: seq<Orphan>) {
    forall i :: 0 <= i < |os| ==> AmbientOk(log, os[i].ctx) && TaskOk(log, os[i].ctx, os[i].task)
  }

  // What is printed is what the rows say: of a step its run and its depth, one less than the length of its path; of a
  // run that it has started; and of either how it ended.
  ghost predicate LineOk(log: seq<Row>, line: Line) {
    match line
    case StepLine(runId, stepId, depth) => HasStep(log, runId, stepId) && |PathOf(log, stepId)| == depth + 1
    case RunLine(runId) => exists name :: HasRun(log, runId, name)
    case EndLine(id, failed) => HasEnd(log, id, failed)
  }

  lemma {:induction false} HasEndGrows(log: seq<Row>, more: seq<Row>, id: nat, failed: bool)
    requires HasEnd(log, id, failed)
    ensures HasEnd(log + more, id, failed)
  {
    var i :| 0 <= i < |log| && ClosedId(log[i]) == Some(id) && log[i].failed == failed;
    assert (log + more)[i] == log[i];
  }

  lemma {:induction false} EndRowEnds(log: seq<Row>, f: Frame, result: Outcome)
    ensures HasEnd(log + [EndRow(f, result)], f.id, result.Threw?)
  {
    assert (log + [EndRow(f, result)])[|log|] == EndRow(f, result);
  }

  ghost predicate EffectOk(log: seq<Row>, ctx: Ambient, e: Effect) {
    var grown := log + ToSeq(e.row);
    && (e.row.Some? ==> Follows(log, e.row.value))
    && TaskOk(grown, ctx, e.task)
    && OrphansOk(grown, e.orphans)
    && (e.line.Some? ==> LineOk(log, e.line.value))
  }

  lemma {:induction false} AdvanceKeepsOk(log: seq<Row>, ctx: Ambient, t: Task, path: seq<nat>, io: Io, next: nat)
    requires WellFormed(log) && AmbientOk(log, ctx) && TaskOk(log, ctx, t)
    requires Advance(ctx, t, path, io, next).Some?
    requires forall x: nat :: Pending(t, x) > 0 ==> Opens(log, x) == 0
    ensures EffectOk(log, ctx, Advance(ctx, t, path, io, next).value)
    decreases t
  {
    match t
    case Binding(first, _) =>
      if !first.Settled? {
        AdvanceKeepsOk(log, ctx, first, path, io, next);
      }
    case Open(f, inner) =>
      if !inner.Settled? {
        EnterOk(log, ctx, f);
        AdvanceKeepsOk(log, Enter(ctx, f), inner, path, io, next);
      }
    case Joining(bs, rejection) =>
      if path[0] < |bs| {
        forall x: nat | Pending(bs[path[0]], x) > 0
          ensures Opens(log, x) == 0
        {
          LiveBranch(bs, path[0], x);
          assert Pending(t, x) > 0;
        }
        AdvanceKeepsOk(log, ctx, bs[path[0]], path[1..], io, next);
        BranchKeepsOk(log, ctx, bs, rejection, path, io, next);
      } else {
        JoinKeepsOk(log, ctx, bs, rejection, next);
      }
    case Ready(p) => BeginKeepsOk(log, ctx, p, next);
    case _ => FrameKeepsOk(log, ctx, t, path, io, next);
  }

  lemma {:induction false} BeginKeepsOk(log: seq<Row>, ctx: Ambient, p: Prog, next: nat)
    ensures EffectOk(log, ctx, Begin(ctx, p, next))
  {
  }

  lemma {:induction false} FrameKeepsOk(log: seq<Row>, ctx: Ambient, t: Task, path: seq<nat>, io: Io, next: nat)
    requires WellFormed(log) && AmbientOk(log, ctx) && TaskOk(log, ctx, t)
    requires t.Opening? || t.Printing? || t.Closing? || t.Reporting?
    requires forall x: nat :: Pending(t, x) > 0 ==> Opens(log, x) == 0
    ensures EffectOk(log, ctx, Advance(ctx, t, path, io, next).value)
  {
    hide EffectOk, WellFormed, AmbientOk, FrameOk;
    match t
    case Opening(f, body) =>
      assert Pending(t, f.id) > 0;
      StartOk(log, ctx, f, body, io, next);
    case Printing(f, body) => PrintOk(log, ctx, f, body, io, next);
    case Closing(f, result, again) => CloseOk(log, ctx, f, result, again, io, next);
    case Reporting(f, result) => ReportOk(log, ctx, f, result, io, next);
  }

  lemma {:induction false} StartOk(log: seq<Row>, ctx: Ambient, f: Frame, body: Prog, io: Io, next: nat)
    requires WellFormed(log) && AmbientOk(log, ctx) && FrameOk(ctx, f) && Opens(log, f.id) == 0
    ensures EffectOk(log, ctx, WriteStart(f, body, io, next))
  {
    if f.StepFrame? {
      assert StoreOk(log, ctx.stores[f.tracer]);
    }
  }

  lemma {:induction false} PrintOk(log: seq<Row>, ctx: Ambient, f: Frame, body: Prog, io: Io, next: nat)
    requires WellFormed(log) && AmbientOk(log, ctx) && FrameOk(ctx, f) && StartRow(f) in log
    ensures EffectOk(log, ctx, PrintStart(f, body, io, next))
  {
    EnterOk(log, ctx, f);
    assert f.RunFrame? ==> HasRun(log, f.id, f.name);
    assert log + [] == log;
  }

  lemma {:induction false} CloseOk(log: seq<Row>, ctx: Ambient, f: Frame, result: Outcome, again: bool, io: Io,
        next: nat)
    requires WellFormed(log) && AmbientOk(log, ctx) && FrameOk(ctx, f) && StartRow(f) in log
    ensures EffectOk(log, ctx, WriteEnd(f, result, again, io, next))
  {
    EnterOk(log, ctx, f);
    EndRowEnds(log, f, result);
    assert f.RunFrame? ==> HasRun(log, f.id, f.name);
  }

  lemma {:induction false} ReportOk(log: seq<Row>, ctx: Ambient, f: Frame, result: Outcome, io: Io, next: nat)
    requires HasEnd(log, f.id, result.Threw?)
    ensures EffectOk(log, ctx, PrintEnd(f, result, io, next))
  {
    assert log + [] == log;
  }

  lemma {:induction false} BranchKeepsOk(log: seq<Row>, ctx: Ambient, bs: seq<Task>, rejection: Option<Value>,
        path: seq<nat>, io: Io, next: nat)
    requires TaskOk(log, ctx, Joining(bs, rejection)) && path != [] && path[0] < |bs|
    requires Advance(ctx, bs[path[0]], path[1..], io, next).Some?
    requires EffectOk(log, ctx, Advance(ctx, bs[path[0]], path[1..], io, next).value)
    ensures EffectOk(log, ctx, Advance(ctx, Joining(bs, rejection), path, io, next).value)
  {
    var i := path[0];
    var e := Advance(ctx, bs[i], path[1..], io, next).value;
    var moved, grown := bs[i := e.task], log + ToSeq(e.row);
    forall k | 0 <= k < |moved|
      ensures TaskOk(grown, ctx, moved[k])
    {
      if k != i && e.row.Some? {
        TaskOkGrows(log, e.row.value, ctx, bs[k]);
      } else if k != i {
        assert grown == log;
      }
    }
    if rejection.Some? {
      var k :| 0 <= k < |bs| && bs[k] == Settled(Threw(rejection.value));
      assert k != i && moved[k] == bs[k];
    } else if Rejection(rejection, e.task).Some? {
      assert moved[i] == e.task;
    } else {
      assert forall k :: 0 <= k < |moved| && k != i ==> moved[k] == bs[k];
    }
  }

  lemma {:induction false} JoinKeepsOk(log: seq<Row>, ctx: Ambient, bs: seq<Task>, rejection: Option<Value>, next: nat)
    requires AmbientOk(log, ctx) && TaskOk(log, ctx, Joining(bs, rejection)) && Join(ctx, bs, rejection, next).Some?
    ensures EffectOk(log, ctx, Join(ctx, bs, rejection, next).value)
  {
    assert log + [] == log;
  }

  // ---- Whole executions ----

  ghost predicate Sound(c: Config) {
    && WellFormed(c.attempted)
    && OrphansOk(c.attempted, Threads(c))
    && forall i :: 0 <= i < |c.console| ==> LineOk(c.attempted, c.console[i])
  }

  lemma {:induction false} OrphansOkGrows(log: seq<Row>, row: Option<Row>, os: seq<Orphan>)
    requires OrphansOk(log, os) && (row.Some? ==> Follows(log, row.value))
    ensures OrphansOk(log + ToSeq(row), os)
  {
    if row.Some? {
      forall i | 0 <= i < |os|
        ensures AmbientOk(log + [row.value], os[i].ctx) && TaskOk(log + [row.value], os[i].ctx, os[i].task)
      {
        AmbientOkGrows(log, row.value, os[i].ctx);
        TaskOkGrows(log, row.value, os[i].ctx, os[i].task);
      }
    } else {
      assert log + [] == log;
    }
  }

  lemma {:induction false} LineOkGrows(log: seq<Row>, row: Row, line: Line)
    requires LineOk(log, line) && Follows(log, row)
    ensures LineOk(log + [row], line)
  {
    match line
    case StepLine(runId, stepId, _) =>
      HasStepGrows(log, [row], runId, stepId);
      PathStable(log, row, runId, stepId);
    case RunLine(runId) =>
      var name :| HasRun(log, runId, name);
      assert HasRun(log + [row], runId, name);
    case EndLine(id, failed) => HasEndGrows(log, [row], id, failed);
  }

  lemma {:induction false} LinesOkGrow(log: seq<Row>, row: Option<Row>, console: seq<Line>)
    requires (forall i :: 0 <= i < |console| ==> LineOk(log, console[i])) && (row.Some? ==> Follows(log, row.value))
    ensures forall i :: 0 <= i < |console| ==> LineOk(log + ToSeq(row), console[i])
  {
    if row.Some? {
      forall i | 0 <= i < |console|
        ensures LineOk(log + [row.value], console[i])
      {
        LineOkGrows(log, row.value, console[i]);
      }
    } else {
      assert log + [] == log;
    }
  }

  lemma {:induction false} PendingNotOpened(c: Config, thread: nat, x: nat)
    requires thread < |AllTasks(c)| && Accounted(c, x) && Pending(AllTasks(c)[thread], x) > 0
    ensures Opens(c.attempted, x) == 0
  {
    LiveBranch(AllTasks(c), thread, x);
  }

  // What a move does in a sound configuration.
  lemma {:induction false} EnabledOk(c: Config, m: Move, e: Effect)
    requires Sound(c) && Conserved(c) && Enabled(c, m) == Some(e)
    ensures EffectOk(c.attempted, Threads(c)[m.thread].ctx, e)
  {
    var t := Threads(c)[m.thread];
    forall x: nat | Pending(t.task, x) > 0
      ensures Opens(c.attempted, x) == 0
    {
      assert Accounted(c, x) && AllTasks(c)[m.thread] == t.task;
      PendingNotOpened(c, m.thread, x);
    }
    AdvanceKeepsOk(c.attempted, t.ctx, t.task, m.path, m.io, c.next);
  }

  lemma {:induction false} MovedOk(log: seq<Row>, os: seq<Orphan>, i: nat, t: Task)
    requires OrphansOk(log, os) && i < |os| && TaskOk(log, os[i].ctx, t)
    ensures OrphansOk(log, os[i := Orphan(os[i].ctx, t)])
  {
  }

  lemma {:induction false} OrphansOkConcat(log: seq<Row>, a: seq<Orphan>, b: seq<Orphan>)
    requires OrphansOk(log, a) && OrphansOk(log, b)
    ensures OrphansOk(log, a + b)
  {
  }

  lemma {:induction false} NextSound(c: Config, m: Move)
    requires Sound(c) && Conserved(c)
    ensures Sound(Next(c, m))
  {
    if Enabled(c, m).Some? {
      hide TaskOk, AmbientOk, LineOk, Enabled, Advance;
      var e, d := Enabled(c, m).value, Next(c, m);
      EnabledOk(c, m, e);
      MovedTasks(c, m, e);
      OrphansOkGrows(c.attempted, e.row, Threads(c));
      MovedOk(d.attempted, Threads(c), m.thread, e.task);
      OrphansOkConcat(d.attempted, Threads(c)[m.thread := Orphan(Threads(c)[m.thread].ctx, e.task)], e.orphans);
      NewLines(Replace(c, m.thread, e.task), e, m.io);
      WellFormedGrows(c.attempted, e.row);
    }
  }

  lemma {:induction false} WellFormedGrows(log: seq<Row>, row: Option<Row>)
    requires WellFormed(log) && (row.Some? ==> Follows(log, row.value))
    ensures WellFormed(log + ToSeq(row))
  {
    if row.Some? {
      WellFormedSnoc(log, row.value);
    } else {
      assert log + [] == log;
    }
  }

  lemma {:induction false} NewLines(c: Config, e: Effect, io: Io)
    requires forall i :: 0 <= i < |c.console| ==> LineOk(c.attempted, c.console[i])
    requires (e.row.Some? ==> Follows(c.attempted, e.row.value)) && (e.line.Some? ==> LineOk(c.attempted, e.line.value))
    ensures var d := Record(c, e, io);
            forall i :: 0 <= i < |d.console| ==> LineOk(d.attempted, d.console[i])
  {
    LinesOkGrow(c.attempted, e.row, c.console);
    LinesOkGrow(c.attempted, e.row, ToSeq(e.line));
  }

  lemma {:induction false} ExecSound(p: Prog, moves: seq<Move>)
    ensures Sound(Exec(p, moves)) && Conserved(Exec(p, moves))
  {
    ExecConserves(p, moves);
    if moves == [] {
      assert Threads(Initial(p)) == [Orphan(Outside, Ready(p))];
    } else {
      var front := moves[..|moves| - 1];
      ExecSound(p, front);
      NextSound(Exec(p, front), moves[|moves| - 1]);
    }
  }
}
