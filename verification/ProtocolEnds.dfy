// How bodies end and what the rows say of it: a completion row tells the outcome of the body exactly if describing the
// value it returned or threw does not throw.
module ProtocolEnds {
  import opened Wrappers
  import opened Counting
  import opened Protocol
  import opened ProtocolLog
  import opened ProtocolSafety
  import opened ProtocolRuns

  // What a caller can check of its own values: the value thrown, or the result an inspector captures, can be described.
  predicate Describable(tracer: Tracer, out: Outcome) {
    match tracer
    case Shared => out.Threw? ==> FormatError(out.error).None?
    case Inspector(_, captureResults, captureErrors) =>
      if out.Returned? then captureResults ==> SummarizeValue(out.value).None?
      else (captureErrors ==> SummarizeCapturedError(out.error).None?) && ToPersistedError(out.error).None?
  }

  // A frame reports its body's outcome, and then also settles with it, exactly if the outcome can be described.
  lemma {:induction false} ToldExactly(tracer: Tracer, out: Outcome)
    ensures EndingOf(tracer, out) == Told(out) <==> Describable(tracer, out)
    ensures EndingOf(tracer, out).Told? && EndingOf(tracer, out).result.Threw? == out.Threw? ==>
              Describable(tracer, out)
  {
  }

  // ---- One end for each frame ----

  // How many frames of a task hold the id x and have a body that has not settled.
  function Running(t: Task, x: nat): nat
    decreases t
  {
    match t
    case Binding(first, _) => Running(first, x)
    case Opening(f, _) => Eq(f.id, x)
    case Printing(f, _) => Eq(f.id, x)
    case Open(f, inner) => Eq(f.id, x) + Running(inner, x)
    case Joining(bs, _) => RunningAll(bs, x)
    case _ => 0
  }

  function RunningAll(ts: seq<Task>, x: nat): nat
    decreases ts
  {
    if ts == [] then 0 else Running(ts[0], x) + RunningAll(ts[1..], x)
  }

  lemma {:induction false} RunningUpdate(ts: seq<Task>, i: nat, t: Task, x: nat)
    requires i < |ts|
    ensures RunningAll(ts[i := t], x) + Running(ts[i], x) == RunningAll(ts, x) + Running(t, x)
  {
    if i > 0 {
      assert ts[i := t][1..] == ts[1..][i - 1 := t];
      RunningUpdate(ts[1..], i - 1, t, x);
    } else {
      assert ts[i := t][1..] == ts[1..];
    }
  }

  lemma {:induction false} RunningConcat(a: seq<Task>, b: seq<Task>, x: nat)
    ensures RunningAll(a + b, x) == RunningAll(a, x) + RunningAll(b, x)
  {
    if a == [] {
      assert a + b == b;
    } else {
      assert (a + b)[1..] == a[1..] + b;
      RunningConcat(a[1..], b, x);
    }
  }

  lemma {:induction false} NoneRunning(ts: seq<Task>, x: nat)
    requires forall i :: 0 <= i < |ts| ==> ts[i].Ready? || ts[i].Settled?
    ensures RunningAll(ts, x) == 0
  {
    if ts != [] {
      NoneRunning(ts[1..], x);
    }
  }

  function EndId(end: Option<End>): Option<nat> {
    if end.Some? then Some(end.value.id) else None
  }

  // With a contained failure or none, a step ends a body or keeps it running.
  ghost predicate KeepsRunning(t: Task, next: nat, e: Effect, x: nat) {
    Running(e.task, x) + RunningAll(Tasks(e.orphans), x) + EqSome(EndId(e.end), x)
    == Running(t, x) + (if next <= x < e.next then 1 else 0)
  }

  lemma {:induction false} AdvanceKeepsRunning(ctx: Ambient, t: Task, path: seq<nat>, io: Io, next: nat, x: nat)
    requires Advance(ctx, t, path, io, next).Some? && Contained(io)
    ensures KeepsRunning(t, next, Advance(ctx, t, path, io, next).value, x)
    decreases t
  {
    match t
    case Ready(p) => BeginKeepsRunning(ctx, p, next, x);
    case Binding(first, _) =>
      if first.Settled? {
        assert Tasks([]) == [];
      } else {
        AdvanceKeepsRunning(ctx, first, path, io, next, x);
      }
    case Open(f, inner) =>
      if inner.Settled? {
        assert Tasks([]) == [];
      } else {
        AdvanceKeepsRunning(Enter(ctx, f), inner, path, io, next, x);
      }
    case Joining(bs, rejection) =>
      if path[0] < |bs| {
        AdvanceKeepsRunning(ctx, bs[path[0]], path[1..], io, next, x);
        BranchKeepsRunning(ctx, bs, rejection, path, io, next, x);
      } else {
        JoinKeepsRunning(ctx, bs, rejection, next, x);
      }
    case Settled(_) =>
    case _ => FrameKeepsRunning(ctx, t, path, io, next, x);
  }

  lemma {:induction false} BranchKeepsRunning(ctx: Ambient, bs: seq<Task>, rejection: Option<Value>, path: seq<nat>,
        io: Io, next: nat, x: nat)
    requires path != [] && path[0] < |bs| && Advance(ctx, bs[path[0]], path[1..], io, next).Some?
    requires KeepsRunning(bs[path[0]], next, Advance(ctx, bs[path[0]], path[1..], io, next).value, x)
    ensures Advance(ctx, Joining(bs, rejection), path, io, next).Some?
    ensures KeepsRunning(Joining(bs, rejection), next, Advance(ctx, Joining(bs, rejection), path, io, next).value, x)
  {
    RunningUpdate(bs, path[0], Advance(ctx, bs[path[0]], path[1..], io, next).value.task, x);
  }

  lemma {:induction false} FrameKeepsRunning(ctx: Ambient, t: Task, path: seq<nat>, io: Io, next: nat, x: nat)
    requires (t.Opening? || t.Printing? || t.Closing? || t.Reporting?) && Contained(io)
    ensures KeepsRunning(t, next, Advance(ctx, t, path, io, next).value, x)
  {
    assert Tasks([]) == [];
  }

  lemma {:induction false} BeginKeepsRunning(ctx: Ambient, p: Prog, next: nat, x: nat)
    ensures KeepsRunning(Ready(p), next, Begin(ctx, p, next), x)
  {
    var e := Begin(ctx, p, next);
    assert Tasks(e.orphans) == [];
    if p.All? {
      NoneRunning(e.task.branches, x);
    }
  }

  lemma {:induction false} JoinKeepsRunning(ctx: Ambient, bs: seq<Task>, rejection: Option<Value>, next: nat, x: nat)
    requires Join(ctx, bs, rejection, next).Some?
    ensures KeepsRunning(Joining(bs, rejection), next, Join(ctx, bs, rejection, next).value, x)
  {
    var e := Join(ctx, bs, rejection, next).value;
    if rejection.Some? {
      assert Tasks(e.orphans) == bs;
    } else {
      assert Tasks(e.orphans) == [];
      NoneRunning(bs, x);
    }
  }

  function EndsOf(ends: seq<End>, x: nat): nat {
    if ends == [] then 0 else EndsOf(ends[..|ends| - 1], x) + Eq(ends[|ends| - 1].id, x)
  }

  // Every id allocated belongs to a running body or to one that has ended, exactly one of these.
  ghost predicate EndsAccounted(c: Config, x: nat) {
    RunningAll(AllTasks(c), x) + EndsOf(c.ends, x) == if x < c.next then 1 else 0
  }

  lemma {:induction false} EndsSnoc(ends: seq<End>, end: Option<End>, x: nat)
    ensures EndsOf(ends + ToSeq(end), x) == EndsOf(ends, x) + EqSome(EndId(end), x)
  {
    if end.Some? {
      assert (ends + [end.value])[..|ends|] == ends;
    } else {
      assert ends + [] == ends;
    }
  }

  lemma {:induction false} NextEnds(c: Config, m: Move, x: nat)
    requires EndsAccounted(c, x) && Contained(m.io)
    ensures EndsAccounted(Next(c, m), x)
  {
    if Enabled(c, m).Some? {
      var e, t := Enabled(c, m).value, Threads(c)[m.thread];
      MovedTasks(c, m, e);
      assert AllTasks(c)[m.thread] == t.task;
      AdvanceKeepsRunning(t.ctx, t.task, m.path, m.io, c.next, x);
      assert c.next <= e.next <= c.next + 1 by {
        AdvanceConserves(t.ctx, t.task, m.path, m.io, c.next, x);
      }
      hide Advance, Running, RunningAll;
      RunningUpdate(AllTasks(c), m.thread, e.task, x);
      RunningConcat(AllTasks(c)[m.thread := e.task], Tasks(e.orphans), x);
      EndsSnoc(c.ends, e.end, x);
    }
  }

  lemma {:induction false} ExecEnds(p: Prog, moves: seq<Move>, x: nat)
    requires AllContained(moves)
    ensures EndsAccounted(Exec(p, moves), x)
  {
    if moves == [] {
      assert AllTasks(Initial(p)) == [Ready(p)];
      NoneRunning([Ready(p)], x);
    } else {
      ExecEnds(p, moves[..|moves| - 1], x);
      NextEnds(Exec(p, moves[..|moves| - 1]), moves[|moves| - 1], x);
    }
  }

  // ---- What the rows say ----

  // The frame x told this outcome.
  ghost predicate TellsOf(ends: seq<End>, x: nat, result: Outcome) {
    exists i :: 0 <= i < |ends| && ends[i].id == x && EndingOf(ends[i].tracer, ends[i].outcome) == Told(result)
  }

  ghost predicate Conceals(ends: seq<End>, x: nat) {
    exists i :: 0 <= i < |ends| && ends[i].id == x && EndingOf(ends[i].tracer, ends[i].outcome).Untold?
  }

  // A frame that is about to write its completion row is going to tell the ending of its body.
  ghost predicate TaskTells(ends: seq<End>, t: Task)
    decreases t
  {
    match t
    case Binding(first, _) => TaskTells(ends, first)
    case Open(_, inner) => TaskTells(ends, inner)
    case Closing(f, result, again) => !again && TellsOf(ends, f.id, result)
    case Joining(bs, _) => forall i :: 0 <= i < |bs| ==> TaskTells(ends, bs[i])
    case _ => true
  }

  ghost predicate RowTells(ends: seq<End>, r: Row) {
    match r
    case StepCompleted(_, x, failed) => exists result :: TellsOf(ends, x, result) && failed == result.Threw?
    case RunCompleted(x, failed) => exists result :: TellsOf(ends, x, result) && failed == result.Threw?
    case _ => true
  }

  ghost predicate AllTell(c: Config) {
    && (forall i :: 0 <= i < |AllTasks(c)| ==> TaskTells(c.ends, AllTasks(c)[i]))
    && (forall i :: 0 <= i < |c.attempted| ==> RowTells(c.ends, c.attempted[i]))
    && (forall i :: 0 <= i < |c.gone| ==> Conceals(c.ends, c.gone[i]))
    && (forall i :: 0 <= i < |c.ends| && EndingOf(c.ends[i].tracer, c.ends[i].outcome).Untold? ==>
        c.ends[i].id in c.gone)
    && c.again == []
  }

  lemma {:induction false} TellsGrow(ends: seq<End>, more: seq<End>, x: nat, result: Outcome)
    requires TellsOf(ends, x, result)
    ensures TellsOf(ends + more, x, result)
  {
    var i :| 0 <= i < |ends| && ends[i].id == x && EndingOf(ends[i].tracer, ends[i].outcome) == Told(result);
    assert (ends + more)[i] == ends[i];
  }

  lemma {:induction false} RowTellsGrow(ends: seq<End>, more: seq<End>, r: Row)
    requires RowTells(ends, r)
    ensures RowTells(ends + more, r)
  {
    if ClosedId(r).Some? {
      var result :| TellsOf(ends, ClosedId(r).value, result) && r.failed == result.Threw?;
      TellsGrow(ends, more, ClosedId(r).value, result);
    }
  }

  lemma {:induction false} ConcealsGrow(ends: seq<End>, more: seq<End>, x: nat)
    requires Conceals(ends, x)
    ensures Conceals(ends + more, x)
  {
    var i :| 0 <= i < |ends| && ends[i].id == x && EndingOf(ends[i].tracer, ends[i].outcome).Untold?;
    assert (ends + more)[i] == ends[i];
  }

  lemma {:induction false} TaskTellsGrow(ends: seq<End>, more: seq<End>, t: Task)
    requires TaskTells(ends, t)
    ensures TaskTells(ends + more, t)
    decreases t
  {
    match t
    case Binding(first, _) => TaskTellsGrow(ends, more, first);
    case Open(_, inner) => TaskTellsGrow(ends, more, inner);
    case Closing(f, result, _) => TellsGrow(ends, more, f.id, result);
    case Joining(bs, _) =>
      forall i | 0 <= i < |bs|
        ensures TaskTells(ends + more, bs[i])
      {
        TaskTellsGrow(ends, more, bs[i]);
      }
    case _ =>
  }

  // A step keeps this up, with the end it adds.
  ghost predicate EffectTells(ends: seq<End>, e: Effect) {
    var grown := ends + ToSeq(e.end);
    && TaskTells(grown, e.task)
    && (forall i :: 0 <= i < |e.orphans| ==> TaskTells(grown, e.orphans[i].task))
    && (e.row.Some? ==> RowTells(grown, e.row.value))
    && (e.gone.Some? ==> Conceals(grown, e.gone.value))
    && (e.end.Some? && EndingOf(e.end.value.tracer, e.end.value.outcome).Untold? ==> e.gone == Some(e.end.value.id))
    && e.again.None?
  }

  lemma {:induction false} AdvanceTells(ends: seq<End>, ctx: Ambient, t: Task, path: seq<nat>, io: Io, next: nat)
    requires TaskTells(ends, t) && Contained(io) && Advance(ctx, t, path, io, next).Some?
    ensures EffectTells(ends, Advance(ctx, t, path, io, next).value)
    decreases t
  {
    match t
    case Ready(p) => assert ends + [] == ends;
    case Binding(first, _) =>
      if first.Settled? {
        assert ends + [] == ends;
      } else {
        AdvanceTells(ends, ctx, first, path, io, next);
      }
    case Open(f, inner) =>
      if inner.Settled? {
        EndTells(ends, f, inner.outcome, next);
      } else {
        AdvanceTells(ends, Enter(ctx, f), inner, path, io, next);
      }
    case Joining(bs, rejection) =>
      if path[0] < |bs| {
        AdvanceTells(ends, ctx, bs[path[0]], path[1..], io, next);
        BranchTells(ends, ctx, bs, rejection, path, io, next);
      } else {
        assert ends + [] == ends;
      }
    case Closing(f, result, again) => CloseTells(ends, f, result, io, next);
    case Settled(_) =>
    case Opening(_, _) => assert ends + [] == ends;
    case Printing(_, _) => assert ends + [] == ends;
    case Reporting(_, _) => assert ends + [] == ends;
  }

  lemma {:induction false} EndTells(ends: seq<End>, f: Frame, out: Outcome, next: nat)
    ensures EffectTells(ends, EndBody(f, out, next))
  {
    var grown := ends + [End(f.id, f.tracer, out)];
    assert grown[|ends|] == End(f.id, f.tracer, out);
  }

  lemma {:induction false} CloseTells(ends: seq<End>, f: Frame, result: Outcome, io: Io, next: nat)
    requires TellsOf(ends, f.id, result) && Contained(io)
    ensures EffectTells(ends, WriteEnd(f, result, false, io, next))
  {
    assert ends + [] == ends;
  }

  lemma {:induction false} BranchTells(ends: seq<End>, ctx: Ambient, bs: seq<Task>, rejection: Option<Value>,
        path: seq<nat>, io: Io, next: nat)
    requires TaskTells(ends, Joining(bs, rejection)) && path != [] && path[0] < |bs|
    requires Advance(ctx, bs[path[0]], path[1..], io, next).Some?
    requires EffectTells(ends, Advance(ctx, bs[path[0]], path[1..], io, next).value)
    ensures EffectTells(ends, Advance(ctx, Joining(bs, rejection), path, io, next).value)
  {
    var e := Advance(ctx, bs[path[0]], path[1..], io, next).value;
    var moved, grown := bs[path[0] := e.task], ends + ToSeq(e.end);
    forall k | 0 <= k < |moved|
      ensures TaskTells(grown, moved[k])
    {
      if k != path[0] {
        TaskTellsGrow(ends, ToSeq(e.end), bs[k]);
      }
    }
  }

  lemma {:induction false} NextTells(c: Config, m: Move)
    requires AllTell(c) && Contained(m.io)
    ensures AllTell(Next(c, m))
  {
    if Enabled(c, m).Some? {
      var e, t, d := Enabled(c, m).value, Threads(c)[m.thread], Next(c, m);
      assert AllTasks(c)[m.thread] == t.task;
      AdvanceTells(c.ends, t.ctx, t.task, m.path, m.io, c.next);
      MovedTasks(c, m, e);
      TasksTell(c, m, e);
      RecordTells(c, m, e);
    }
  }

  lemma {:induction false} TasksTell(c: Config, m: Move, e: Effect)
    requires AllTell(c) && Enabled(c, m) == Some(e) && EffectTells(c.ends, e)
    ensures forall i :: 0 <= i < |AllTasks(Next(c, m))| ==> TaskTells(c.ends + ToSeq(e.end), AllTasks(Next(c, m))[i])
  {
    MovedTasks(c, m, e);
    var before, grown := AllTasks(c), c.ends + ToSeq(e.end);
    var moved, left := before[m.thread := e.task], Tasks(e.orphans);
    forall i | 0 <= i < |moved|
      ensures TaskTells(grown, moved[i])
    {
      if i != m.thread {
        TaskTellsGrow(c.ends, ToSeq(e.end), before[i]);
      }
    }
    assert forall i :: 0 <= i < |left| ==> left[i] == e.orphans[i].task;
  }

  lemma {:induction false} RecordTells(c: Config, m: Move, e: Effect)
    requires AllTell(c) && Enabled(c, m) == Some(e) && EffectTells(c.ends, e)
    ensures var d := Next(c, m);
            && d.ends == c.ends + ToSeq(e.end) && d.again == []
            && (forall i :: 0 <= i < |d.attempted| ==> RowTells(d.ends, d.attempted[i]))
            && (forall i :: 0 <= i < |d.gone| ==> Conceals(d.ends, d.gone[i]))
            && (forall i :: 0 <= i < |d.ends| && EndingOf(d.ends[i].tracer, d.ends[i].outcome).Untold? ==>
                  d.ends[i].id in d.gone)
  {
    hide RowTells, Conceals, TaskTells, Advance;
    var d := Next(c, m);
    forall i | 0 <= i < |d.attempted|
      ensures RowTells(d.ends, d.attempted[i])
    {
      if i < |c.attempted| {
        RowTellsGrow(c.ends, ToSeq(e.end), c.attempted[i]);
      }
    }
    forall i | 0 <= i < |d.gone|
      ensures Conceals(d.ends, d.gone[i])
    {
      if i < |c.gone| {
        ConcealsGrow(c.ends, ToSeq(e.end), c.gone[i]);
      }
    }
  }

  lemma {:induction false} ExecTells(p: Prog, moves: seq<Move>)
    requires AllContained(moves)
    ensures AllTell(Exec(p, moves))
  {
    if moves == [] {
      assert AllTasks(Initial(p)) == [Ready(p)];
    } else {
      ExecTells(p, moves[..|moves| - 1]);
      NextTells(Exec(p, moves[..|moves| - 1]), moves[|moves| - 1]);
    }
  }

  // ---- The condition, exactly ----

  // The rows tell how the body of the frame ended: one completion row, failed exactly if the body threw.
  ghost predicate RowsTell(log: seq<Row>, end: End) {
    HasEnd(log, end.id, end.outcome.Threw?)
  }

  lemma {:induction false} UniqueEnd(ends: seq<End>, i: nat, j: nat)
    requires i < j < |ends| && ends[i].id == ends[j].id
    ensures EndsOf(ends, ends[i].id) >= 2
  {
    var front := ends[..|ends| - 1];
    if j < |front| {
      UniqueEnd(front, i, j);
    } else {
      EndedOnce(front, i);
    }
  }

  lemma {:induction false} EndedOnce(ends: seq<End>, i: nat)
    requires i < |ends|
    ensures EndsOf(ends, ends[i].id) >= 1
  {
    if i < |ends| - 1 {
      EndedOnce(ends[..|ends| - 1], i);
    }
  }

  // Once everything has settled and no failure got out of its wrapper: the rows tell how a body ended exactly if what
  // it returned or threw can be described.
  lemma {:induction false} EndIsTold(p: Prog, moves: seq<Move>, i: nat)
    requires AllContained(moves) && Finished(Exec(p, moves)) && i < |Exec(p, moves).ends|
    ensures var c := Exec(p, moves);
            RowsTell(c.attempted, c.ends[i]) <==> Describable(c.ends[i].tracer, c.ends[i].outcome)
  {
    var c := Exec(p, moves);
    var log, end := c.attempted, c.ends[i];
    ExecTells(p, moves);
    ExecEnds(p, moves, end.id);
    ExecConserves(p, moves);
    hide Exec;
    EndedOnce(c.ends, i);
    OnlyEnd(c, i);
    ToldExactly(end.tracer, end.outcome);
    if RowsTell(log, end) {
      var j :| 0 <= j < |log| && ClosedId(log[j]) == Some(end.id) && log[j].failed == end.outcome.Threw?;
      assert RowTells(c.ends, log[j]);
    } else if Describable(end.tracer, end.outcome) {
      EndHasRow(c, i);
    }
  }

  // No other end has the same id.
  lemma {:induction false} OnlyEnd(c: Config, i: nat)
    requires i < |c.ends| && EndsAccounted(c, c.ends[i].id)
    ensures forall k :: 0 <= k < |c.ends| && c.ends[k].id == c.ends[i].id ==> k == i
  {
    forall k | 0 <= k < |c.ends| && c.ends[k].id == c.ends[i].id
      ensures k == i
    {
      if k < i {
        UniqueEnd(c.ends, k, i);
      } else if i < k {
        UniqueEnd(c.ends, i, k);
      }
    }
  }

  lemma {:induction false} EndHasRow(c: Config, i: nat)
    requires Finished(c) && AllTell(c) && Conserved(c) && i < |c.ends| && EndsAccounted(c, c.ends[i].id)
    requires EndingOf(c.ends[i].tracer, c.ends[i].outcome) == Told(c.ends[i].outcome)
    ensures RowsTell(c.attempted, c.ends[i])
  {
    var x := c.ends[i].id;
    OnlyEnd(c, i);
    EndedOnce(c.ends, i);
    assert Accounted(c, x);
    assert forall k :: 0 <= k < |AllTasks(c)| ==> AllTasks(c)[k].Settled?;
    NoneHeld(AllTasks(c), x);
    TimesIn(c.gone, x);
    forall g | 0 <= g < |c.gone|
      ensures c.gone[g] != x
    {
      assert Conceals(c.ends, c.gone[g]);
    }
    CountedIn(c.attempted, x);
    var j :| 0 <= j < |c.attempted| && ClosedId(c.attempted[j]) == Some(x);
    assert RowTells(c.ends, c.attempted[j]);
  }

  // So every body is told truly exactly if no value thrown, and no result captured, throws when it is described; and
  // then every start row has its completion row.
  lemma {:induction false} AllToldExactly(p: Prog, moves: seq<Move>)
    requires AllContained(moves) && Finished(Exec(p, moves))
    ensures var c := Exec(p, moves);
            (forall i :: 0 <= i < |c.ends| ==> RowsTell(c.attempted, c.ends[i]))
            <==> (forall i :: 0 <= i < |c.ends| ==> Describable(c.ends[i].tracer, c.ends[i].outcome))
    ensures var c := Exec(p, moves);
            (forall i :: 0 <= i < |c.ends| ==> Describable(c.ends[i].tracer, c.ends[i].outcome)) ==> c.gone == []
  {
    var c := Exec(p, moves);
    forall i | 0 <= i < |c.ends|
      ensures RowsTell(c.attempted, c.ends[i]) <==> Describable(c.ends[i].tracer, c.ends[i].outcome)
      ensures Describable(c.ends[i].tracer, c.ends[i].outcome) ==> EndingOf(c.ends[i].tracer, c.ends[i].outcome).Told?
    {
      EndIsTold(p, moves, i);
      ToldExactly(c.ends[i].tracer, c.ends[i].outcome);
    }
    ExecTells(p, moves);
    if c.gone != [] {
      assert Conceals(c.ends, c.gone[0]);
      var i :| 0 <= i < |c.ends| && c.ends[i].id == c.gone[0] && EndingOf(c.ends[i].tracer, c.ends[i].outcome).Untold?;
      assert !Describable(c.ends[i].tracer, c.ends[i].outcome);
    }
  }
}
