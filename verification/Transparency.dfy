// When instrumented code means what the same code means without instrumentation.
module Transparency {
  import opened Wrappers
  import opened Protocol
  import opened ProtocolLog
  import opened ProtocolSafety
  import opened ProtocolFailures
  import opened ProtocolEnds
  import opened CallTree

  // ---- Outcomes kept ----

  // Describing the error does not throw, or throws that very error.
  predicate Harmless(thrown: Option<Value>, error: Value) {
    thrown.None? || thrown.value == error
  }

  // What a caller can check of its own values: a result an inspector captures can be described, and of an error the
  // first description that throws, if any does, throws that very error.
  predicate Kept(tracer: Tracer, out: Outcome) {
    match tracer
    case Shared => out.Threw? ==> Harmless(FormatError(out.error), out.error)
    case Inspector(_, captureResults, captureErrors) =>
      if out.Returned? then captureResults ==> SummarizeValue(out.value).None?
      else if captureErrors && SummarizeCapturedError(out.error).Some? then
        Harmless(SummarizeCapturedError(out.error), out.error)
      else Harmless(ToPersistedError(out.error), out.error)
  }

  // A frame settles with its body's outcome exactly then.
  lemma {:induction false} UnchangedExactly(tracer: Tracer, out: Outcome)
    ensures EndOutcome(tracer, out) == out <==> Kept(tracer, out)
    ensures Describable(tracer, out) ==> Kept(tracer, out)
  {
  }

  // An error whose message cannot be read without throwing that very error: a run that throws it settles with it,
  // although it has no completion row.
  const SelfThrower: Value :=
    Strange([Quirks(ThrowsObject(0), ThrowsObject(0), ThrowsObject(0), ThrowsObject(0), ThrowsObject(0))], 0)

  const OneSelfThrow: Prog := Run(Shared, "run", true, Settle(Threw(SelfThrower)))

  lemma {:induction false} KeptButUntold() returns (moves: seq<Move>)
    ensures Kept(Shared, Threw(SelfThrower)) && !Describable(Shared, Threw(SelfThrower))
    ensures AllContained(moves) && Finished(Exec(OneSelfThrow, moves))
    ensures Exec(OneSelfThrow, moves).main == Settled(Threw(SelfThrower))
    ensures Exec(OneSelfThrow, moves).attempted == [RunStarted(0, "run")]
  {
    hide Exec, Alone, AllContained;
    var p, body, out := OneSelfThrow, Settle(Threw(SelfThrower)), Threw(SelfThrower);
    var f := RunFrame(Shared, 0, "run");
    AloneStart(p);
    AloneNext(p, [], Done, Begin(Outside, p, 0));
    AloneNext(p, [] + [Done], Done, WriteStart(f, body, Done, 1));
    AloneNext(p, [] + [Done] + [Done], Done, PrintStart(f, body, Done, 1));
    AloneNext(p, [] + [Done] + [Done] + [Done], Done, Quiet(Open(f, Settled(out)), 1));
    AloneNext(p, [] + [Done] + [Done] + [Done] + [Done], Done, EndBody(f, out, 1));
    moves := Alone([] + [Done] + [Done] + [Done] + [Done] + [Done]);
    AloneContained([] + [Done] + [Done] + [Done] + [Done] + [Done]);
  }

  predicate AllKept(ends: seq<End>) {
    forall i :: 0 <= i < |ends| ==> Kept(ends[i].tracer, ends[i].outcome)
  }

  // The instrumented meaning and the plain one are the same exactly if no derivation of either changes an outcome.
  lemma {:induction false} SameMeaningExactly(p: Prog, on: set<Tracer>)
    ensures (forall d, o :: Yields(p, d, o) <==> Observed(p, on, d, o))
            <==> (forall d, o :: Yields(p, d, o) || Observed(p, on, d, o) ==> Unchanged(p, on, d))
  {
    forall d, o
      ensures Yields(p, d, o) && Observed(p, on, d, o) ==> Unchanged(p, on, d)
      ensures Unchanged(p, on, d) ==> (Yields(p, d, o) <==> Observed(p, on, d, o))
    {
      TransparentExactly(p, on, d, o);
    }
  }

  // ---- One step, backwards ----

  ghost predicate TaskUnchanged(ctx: Ambient, t: Task, d: Deriv)
    decreases t
  {
    match t
    case Ready(p) => Unchanged(p, ctx.stores.Keys, d)
    case Binding(first, k) =>
      d.Then? ==> TaskUnchanged(ctx, first, d.first) && Unchanged(k(d.mid), ctx.stores.Keys, d.rest)
    case Opening(f, body) => d.Inside? ==>
          Unchanged(body, Enter(ctx, f).stores.Keys, d.sub) && EndOutcome(f.tracer, d.mid) == d.mid
    case Printing(f, body) => d.Inside? ==>
          Unchanged(body, Enter(ctx, f).stores.Keys, d.sub) && EndOutcome(f.tracer, d.mid) == d.mid
    case Open(f, inner) =>
      d.Inside? ==> TaskUnchanged(Enter(ctx, f), inner, d.sub) && EndOutcome(f.tracer, d.mid) == d.mid
    case Joining(bs, _) => d.Fork? && |d.branches| == |bs| ==> forall i :: 0 <= i < |bs| ==>
          TaskUnchanged(ctx, bs[i], d.branches[i])
    case _ => true
  }

  ghost predicate OrphansUnchanged(os: seq<Orphan>, ds: seq<Deriv>)
    requires |os| == |ds|
  {
    forall i :: 0 <= i < |os| ==> TaskUnchanged(os[i].ctx, os[i].task, ds[i])
  }

  // After a step nothing changes an outcome, and neither does the step.
  ghost predicate CalmlyUnchanged(ctx: Ambient, t: Task, path: seq<nat>, next: nat, d: Deriv, rest: Rest)
    requires Calm(ctx, t, path, next).Some? && |rest.ds| == |Calm(ctx, t, path, next).value.orphans|
  {
    var e := Calm(ctx, t, path, next).value;
    && TaskUnchanged(ctx, e.task, d) && OrphansUnchanged(e.orphans, rest.ds)
    && (e.end.Some? ==> EndOutcome(e.end.value.tracer, e.end.value.outcome) == e.end.value.outcome)
  }

  lemma {:induction false} PullUnchanged(ctx: Ambient, t: Task, path: seq<nat>, next: nat, d: Deriv, o: Outcome,
        rest: Rest)
    requires Pullable(ctx, t, path, next, d, o, rest) && CalmlyUnchanged(ctx, t, path, next, d, rest)
    ensures TaskUnchanged(ctx, t, Pull(ctx, t, path, next, d, o, rest))
    decreases t, 2
  {
    hide Pullable, Observed, Advance, Unchanged, CalmlyUnchanged, EndOutcome, Fits, TaskYields, TaskShape, Enter;
    match t
    case Binding(first, k) =>
      if !first.Settled? {
        BindingCalm(ctx, first, k, path, next, d, o, rest);
        PullUnchanged(ctx, first, path, next, d.first, d.mid, rest);
      } else {
        FrameUnchanged(ctx, t, path, next, d, o, rest);
      }
    case Open(f, inner) =>
      if !inner.Settled? {
        OpenCalm(ctx, f, inner, path, next, d, o, rest);
        PullUnchanged(Enter(ctx, f), inner, path, next, d.sub, d.mid, rest);
      } else {
        FrameUnchanged(ctx, t, path, next, d, o, rest);
      }
    case Joining(bs, rejection) => GroupUnchanged(ctx, bs, rejection, path, next, d, o, rest);
    case Ready(p) => BeginUnchanged(ctx, p, path, next, d, o, rest);
    case _ => FrameUnchanged(ctx, t, path, next, d, o, rest);
  }

  lemma {:induction false} GroupUnchanged(ctx: Ambient, bs: seq<Task>, rejection: Option<Value>, path: seq<nat>,
        next: nat, d: Deriv, o: Outcome, rest: Rest)
    requires Pullable(ctx, Joining(bs, rejection), path, next, d, o, rest)
    requires CalmlyUnchanged(ctx, Joining(bs, rejection), path, next, d, rest)
    ensures TaskUnchanged(ctx, Joining(bs, rejection), Pull(ctx, Joining(bs, rejection), path, next, d, o, rest))
    decreases Joining(bs, rejection), 1
  {
    hide Pullable, Observed, Advance, Unchanged, CalmlyUnchanged, EndOutcome;
    BranchInner(ctx, bs, rejection, path, next, d, o, rest);
    if path[0] < |bs| {
      BranchUnchanged(ctx, bs, rejection, path, next, d, o, rest);
    } else {
      JoinUnchanged(ctx, bs, rejection, path, next, d, o, rest);
    }
  }

  lemma {:induction false} BindingCalm(ctx: Ambient, first: Task, k: Outcome -> Prog, path: seq<nat>, next: nat,
        d: Deriv, o: Outcome, rest: Rest)
    requires Pullable(ctx, Binding(first, k), path, next, d, o, rest) && !first.Settled?
    requires CalmlyUnchanged(ctx, Binding(first, k), path, next, d, rest)
    ensures d.Then? && Pullable(ctx, first, path, next, d.first, d.mid, rest)
    ensures CalmlyUnchanged(ctx, first, path, next, d.first, rest) && Unchanged(k(d.mid), ctx.stores.Keys, d.rest)
  {
  }

  lemma {:induction false} OpenCalm(ctx: Ambient, f: Frame, inner: Task, path: seq<nat>, next: nat, d: Deriv,
        o: Outcome, rest: Rest)
    requires Pullable(ctx, Open(f, inner), path, next, d, o, rest) && !inner.Settled?
    requires CalmlyUnchanged(ctx, Open(f, inner), path, next, d, rest)
    ensures d.Inside? && Pullable(Enter(ctx, f), inner, path, next, d.sub, d.mid, rest)
    ensures CalmlyUnchanged(Enter(ctx, f), inner, path, next, d.sub, rest) && EndOutcome(f.tracer, d.mid) == d.mid
  {
  }

  lemma {:induction false} FrameUnchanged(ctx: Ambient, t: Task, path: seq<nat>, next: nat, d: Deriv, o: Outcome,
        rest: Rest)
    requires Pullable(ctx, t, path, next, d, o, rest) && CalmlyUnchanged(ctx, t, path, next, d, rest)
    requires !t.Ready? && !t.Joining? && (t.Binding? ==> t.first.Settled?) && (t.Open? ==> t.inner.Settled?)
    ensures TaskUnchanged(ctx, t, Pull(ctx, t, path, next, d, o, rest))
  {
    match t
    case Opening(f, body) => assert TaskUnchanged(Enter(ctx, f), Ready(body), d.sub) ==>
          Unchanged(body, Enter(ctx, f).stores.Keys, d.sub);
    case Printing(f, body) => assert TaskUnchanged(Enter(ctx, f), Ready(body), d.sub) ==>
          Unchanged(body, Enter(ctx, f).stores.Keys, d.sub);
    case _ =>
  }

  lemma {:induction false} BeginUnchanged(ctx: Ambient, p: Prog, path: seq<nat>, next: nat, d: Deriv, o: Outcome,
        rest: Rest)
    requires Pullable(ctx, Ready(p), path, next, d, o, rest) && CalmlyUnchanged(ctx, Ready(p), path, next, d, rest)
    ensures TaskUnchanged(ctx, Ready(p), Pull(ctx, Ready(p), path, next, d, o, rest))
  {
    var e := Begin(ctx, p, next);
    match p
    case Bind(first, k) => assert TaskUnchanged(ctx, Ready(first), d.first);
    case All(ps) =>
      forall i | 0 <= i < |ps|
        ensures Unchanged(ps[i], ctx.stores.Keys, d.branches[i])
      {
        assert TaskUnchanged(ctx, e.task.branches[i], d.branches[i]);
      }
    case Step(tracer, _, _) => assert tracer in ctx.stores ==> Enter(ctx, e.task.frame).stores.Keys == ctx.stores.Keys;
    case Run(tracer, _, enabled, _) => assert enabled ==>
          Enter(ctx, e.task.frame).stores.Keys == ctx.stores.Keys + {tracer};
    case Settle(_) =>
  }

  lemma {:induction false} BranchUnchanged(ctx: Ambient, bs: seq<Task>, rejection: Option<Value>, path: seq<nat>,
        next: nat, d: Deriv, o: Outcome, rest: Rest)
    requires Pullable(ctx, Joining(bs, rejection), path, next, d, o, rest) && path != [] && path[0] < |bs|
    requires CalmlyUnchanged(ctx, Joining(bs, rejection), path, next, d, rest)
    ensures TaskUnchanged(ctx, Joining(bs, rejection), Pull(ctx, Joining(bs, rejection), path, next, d, o, rest))
    decreases Joining(bs, rejection), 0
  {
    BranchInner(ctx, bs, rejection, path, next, d, o, rest);
    var e, i := Calm(ctx, Joining(bs, rejection), path, next).value, path[0];
    assert forall k :: 0 <= k < |bs| ==> TaskUnchanged(ctx, e.task.branches[k], d.branches[k]);
    assert forall k :: 0 <= k < |bs| && k != i ==> e.task.branches[k] == bs[k];
    if d.branches[i].Cut? {
      CutTaskUnchanged(ctx, bs[i]);
    } else {
      PullUnchanged(ctx, bs[i], path[1..], next, d.branches[i], d.outcomes[i], rest);
    }
  }

  lemma {:induction false} CutTaskUnchanged(ctx: Ambient, t: Task)
    ensures TaskUnchanged(ctx, t, Cut)
  {
  }

  lemma {:induction false} JoinUnchanged(ctx: Ambient, bs: seq<Task>, rejection: Option<Value>, path: seq<nat>,
        next: nat, d: Deriv, o: Outcome, rest: Rest)
    requires Pullable(ctx, Joining(bs, rejection), path, next, d, o, rest) && path != [] && path[0] >= |bs|
    requires CalmlyUnchanged(ctx, Joining(bs, rejection), path, next, d, rest)
    ensures TaskUnchanged(ctx, Joining(bs, rejection), Pull(ctx, Joining(bs, rejection), path, next, d, o, rest))
  {
    var e, r := Calm(ctx, Joining(bs, rejection), path, next).value, Pull(ctx, Joining(bs, rejection), path, next, d, o,
        rest);
    forall i | 0 <= i < |bs|
      ensures TaskUnchanged(ctx, bs[i], r.branches[i])
    {
      if !bs[i].Settled? {
        assert e.orphans[i] == Orphan(ctx, bs[i]) && TaskUnchanged(e.orphans[i].ctx, e.orphans[i].task, rest.ds[i]);
      }
    }
  }
}
