// Big-step meanings of user programs, without tasks, stores or schedules: the plain one, and the one with what
// describing values may throw. And what one step of the protocol leaves of a derivation.
module CallTree {
  import opened Wrappers
  import opened Protocol
  import opened ProtocolLog
  import opened ProtocolSafety

  // How a program came to its outcome. `Cut` stands for a Promise.all branch still running when another one rejected.
  // `Inside` is a run or step with its id, and `mid` the outcome of its body.
  datatype Deriv =
    | Cut
    | Leaf
    | Inside(id: nat, sub: Deriv, mid: Outcome)
    | Then(first: Deriv, mid: Outcome, rest: Deriv)
    | Fork(branches: seq<Deriv>, outcomes: seq<Outcome>)

  ghost predicate Joined(ds: seq<Deriv>, outcomes: seq<Outcome>, o: Outcome)
    requires |ds| == |outcomes|
  {
    if o.Threw? then exists i :: 0 <= i < |ds| && !ds[i].Cut? && outcomes[i] == o
    else
      && (forall i :: 0 <= i < |ds| ==> !ds[i].Cut? && outcomes[i].Returned?)
      && o.value.Tuple? && |o.value.items| == |ds|
      && forall i :: 0 <= i < |ds| ==> outcomes[i].value == o.value.items[i]
  }

  // The plain meaning of user code: runs and steps just run their body.
  ghost predicate Yields(p: Prog, d: Deriv, o: Outcome)
    decreases d
  {
    match p
    case Settle(r) => d.Leaf? && o == r
    case Bind(first, k) => d.Then? && Yields(first, d.first, d.mid) && Yields(k(d.mid), d.rest, o)
    case Step(_, _, body) => d.Inside? && Yields(body, d.sub, d.mid) && o == d.mid
    case Run(_, _, _, body) => d.Inside? && Yields(body, d.sub, d.mid) && o == d.mid
    case All(ps) =>
      && d.Fork? && |d.branches| == |ps| == |d.outcomes|
      && (forall i :: 0 <= i < |ps| ==> d.branches[i].Cut? || Yields(ps[i], d.branches[i], d.outcomes[i]))
      && Joined(d.branches, d.outcomes, o)
  }

  // What a frame settles with when its body settles.
  function EndOutcome(tracer: Tracer, out: Outcome): Outcome {
    match EndingOf(tracer, out)
    case Told(result) => result
    case Untold(error) => Threw(error)
  }

  // The meaning of instrumented code: a run or step inside a run of its tracer settles with what it makes of its body's
  // outcome. `on` are the tracers with an active run.
  ghost predicate Observed(p: Prog, on: set<Tracer>, d: Deriv, o: Outcome)
    decreases d
  {
    match p
    case Settle(r) => d.Leaf? && o == r
    case Bind(first, k) => d.Then? && Observed(first, on, d.first, d.mid) && Observed(k(d.mid), on, d.rest, o)
    case Step(tracer, _, body) =>
      d.Inside? && Observed(body, on, d.sub, d.mid) && o == if tracer in on then EndOutcome(tracer, d.mid) else d.mid
    case Run(tracer, _, enabled, body) =>
      && d.Inside?
      && if enabled then Observed(body, on + {tracer}, d.sub, d.mid) && o == EndOutcome(tracer, d.mid)
         else Observed(body, on, d.sub, d.mid) && o == d.mid
    case All(ps) =>
      && d.Fork? && |d.branches| == |ps| == |d.outcomes|
      && (forall i :: 0 <= i < |ps| ==> d.branches[i].Cut? || Observed(ps[i], on, d.branches[i], d.outcomes[i]))
      && Joined(d.branches, d.outcomes, o)
  }

  // Every run and step of a derivation settles with its body's outcome.
  ghost predicate Unchanged(p: Prog, on: set<Tracer>, d: Deriv)
    decreases d
  {
    match p
    case Bind(first, k) => d.Then? ==> Unchanged(first, on, d.first) && Unchanged(k(d.mid), on, d.rest)
    case Step(tracer, _, body) => d.Inside? ==> Unchanged(body, on, d.sub) && (tracer in on ==>
          EndOutcome(tracer, d.mid) == d.mid)
    case Run(tracer, _, enabled, body) =>
      d.Inside? ==>
        if enabled then Unchanged(body, on + {tracer}, d.sub) && EndOutcome(tracer, d.mid) == d.mid
        else Unchanged(body, on, d.sub)
    case All(ps) =>
      d.Fork? && |d.branches| == |ps| ==> forall i :: 0 <= i < |ps| ==> Unchanged(ps[i], on, d.branches[i])
    case Settle(_) => true
  }

  // A derivation is one of both meanings exactly if it is one of either and changes no outcome.
  lemma {:induction false} TransparentExactly(p: Prog, on: set<Tracer>, d: Deriv, o: Outcome)
    ensures Yields(p, d, o) && Observed(p, on, d, o) ==> Unchanged(p, on, d)
    ensures Unchanged(p, on, d) ==> (Yields(p, d, o) <==> Observed(p, on, d, o))
    decreases d
  {
    match p
    case Settle(_) =>
    case Bind(first, k) =>
      if d.Then? {
        TransparentExactly(first, on, d.first, d.mid);
        TransparentExactly(k(d.mid), on, d.rest, o);
      }
    case Step(_, _, body) =>
      if d.Inside? {
        TransparentExactly(body, on, d.sub, d.mid);
      }
    case Run(tracer, _, enabled, body) =>
      if d.Inside? {
        TransparentExactly(body, if enabled then on + {tracer} else on, d.sub, d.mid);
      }
    case All(ps) =>
      if d.Fork? && |d.branches| == |ps| == |d.outcomes| {
        forall i | 0 <= i < |ps|
          ensures Yields(ps[i], d.branches[i], d.outcomes[i]) && Observed(ps[i], on, d.branches[i], d.outcomes[i]) ==>
                    Unchanged(ps[i], on, d.branches[i])
          ensures Unchanged(ps[i], on, d.branches[i]) ==>
                    (Yields(ps[i], d.branches[i], d.outcomes[i]) <==> Observed(ps[i], on, d.branches[i], d.outcomes[i]))
          ensures d.branches[i].Cut? ==> Unchanged(ps[i], on, d.branches[i])
        {
          TransparentExactly(ps[i], on, d.branches[i], d.outcomes[i]);
          CutUnchanged(ps[i], on);
        }
      }
  }

  lemma {:induction false} CutUnchanged(p: Prog, on: set<Tracer>)
    ensures Unchanged(p, on, Cut)
  {
  }

  predicate Complete(d: Deriv)
    decreases d
  {
    match d
    case Cut => false
    case Leaf => true
    case Inside(_, sub, _) => Complete(sub)
    case Then(first, _, rest) => Complete(first) && Complete(rest)
    case Fork(ds, _) => forall i :: 0 <= i < |ds| ==> Complete(ds[i])
  }

  // ---- The start rows a derivation calls for ----

  // Where a tracer has got to: its run and its innermost step of that run.
  datatype Place = Place(runId: nat, stepId: Option<nat>)

  type Places = map<Tracer, Place>

  function Hit(r: Row, x: Row): nat {
    if r == x then 1 else 0
  }

  // The places inside a run or step with this id.
  function InStep(places: Places, tracer: Tracer, id: nat): Places
    requires tracer in places
  {
    places[tracer := Place(places[tracer].runId, Some(id))]
  }

  function InRun(places: Places, tracer: Tracer, id: nat): Places {
    places[tracer := Place(id, None)]
  }

  // How many nodes of a derivation have the start row x: that of a step names the run and the innermost enclosing step
  // of the same tracer. A step outside any run is not instrumented.
  function Calls(p: Prog, places: Places, d: Deriv, x: Row): nat
    decreases d
  {
    match p
    case Bind(first, k) => if d.Then? then Calls(first, places, d.first, x) + Calls(k(d.mid), places, d.rest, x) else 0
    case Step(tracer, name, body) =>
      if !d.Inside? then 0
      else if tracer !in places then Calls(body, places, d.sub, x)
      else
        Hit(StepStarted(places[tracer].runId, d.id, places[tracer].stepId, name), x)
        + Calls(body, InStep(places, tracer, d.id), d.sub, x)
    case Run(tracer, name, enabled, body) =>
      if !d.Inside? then 0
      else if !enabled then Calls(body, places, d.sub, x)
      else Hit(RunStarted(d.id, name), x) + Calls(body, InRun(places, tracer, d.id), d.sub, x)
    case All(ps) => if d.Fork? && |d.branches| == |ps| then CallsAll(ps, places, d.branches, x) else 0
    case Settle(_) => 0
  }

  function CallsAll(ps: seq<Prog>, places: Places, ds: seq<Deriv>, x: Row): nat
    requires |ps| == |ds|
    decreases ds
  {
    if ps == [] then 0 else Calls(ps[0], places, ds[0], x) + CallsAll(ps[1..], places, ds[1..], x)
  }

  // ---- The same for a task that is under way: what it may still settle with and has still to record ----

  ghost predicate TaskYields(ctx: Ambient, t: Task, d: Deriv, o: Outcome)
    decreases t
  {
    match t
    case Ready(p) => Observed(p, ctx.stores.Keys, d, o)
    case Settled(r) => d.Leaf? && o == r
    case Binding(first, k) => d.Then? && TaskYields(ctx, first, d.first, d.mid)
        && Observed(k(d.mid), ctx.stores.Keys, d.rest, o)
    case Opening(f, body) => d.Inside? && Observed(body, Enter(ctx, f).stores.Keys, d.sub, d.mid)
        && o == EndOutcome(f.tracer, d.mid)
    case Printing(f, body) => d.Inside? && Observed(body, Enter(ctx, f).stores.Keys, d.sub, d.mid)
        && o == EndOutcome(f.tracer, d.mid)
    case Open(f, inner) =>
      d.Inside? && TaskYields(Enter(ctx, f), inner, d.sub, d.mid) && o == EndOutcome(f.tracer, d.mid)
    case Closing(_, r, _) => d.Leaf? && o == r
    case Reporting(_, r) => d.Leaf? && o == r
    case Joining(bs, _) =>
      && d.Fork? && |d.branches| == |bs| == |d.outcomes|
      && (forall i :: 0 <= i < |bs| ==> d.branches[i].Cut? || TaskYields(ctx, bs[i], d.branches[i], d.outcomes[i]))
      && Joined(d.branches, d.outcomes, o)
  }

  function InFrame(places: Places, f: Frame): Places {
    places[f.tracer := if f.StepFrame? then Place(f.runId, Some(f.id)) else Place(f.id, None)]
  }

  function TaskCalls(t: Task, places: Places, d: Deriv, x: Row): nat
    decreases t
  {
    match t
    case Ready(p) => Calls(p, places, d, x)
    case Binding(first, k) => if d.Then? then TaskCalls(first, places, d.first, x)
        + Calls(k(d.mid), places, d.rest, x) else 0
    case Opening(f, body) => if d.Inside? then Hit(StartRow(f), x) + Calls(body, InFrame(places, f), d.sub, x) else 0
    case Printing(f, body) => if d.Inside? then Calls(body, InFrame(places, f), d.sub, x) else 0
    case Open(f, inner) => if d.Inside? then TaskCalls(inner, InFrame(places, f), d.sub, x) else 0
    case Joining(bs, _) => if d.Fork? && |d.branches| == |bs| then TaskCallsAll(bs, places, d.branches, x) else 0
    case _ => 0
  }

  function TaskCallsAll(ts: seq<Task>, places: Places, ds: seq<Deriv>, x: Row): nat
    requires |ts| == |ds|
    decreases ts
  {
    if ts == [] then 0 else TaskCalls(ts[0], places, ds[0], x) + TaskCallsAll(ts[1..], places, ds[1..], x)
  }

  function PlacesOf(ctx: Ambient): Places {
    map tracer | tracer in ctx.stores :: Place(ctx.stores[tracer].runId, ctx.stores[tracer].stepId)
  }

  lemma {:induction false} EnterPlaces(ctx: Ambient, f: Frame)
    requires FrameOk(ctx, f)
    ensures PlacesOf(Enter(ctx, f)) == InFrame(PlacesOf(ctx), f)
  {
  }

  // ---- One step, backwards ----

  // Derivations for the branches left behind; a cut one says nothing.
  ghost predicate OrphansYield(os: seq<Orphan>, ds: seq<Deriv>, outcomes: seq<Outcome>) {
    && |os| == |ds| == |outcomes|
    && forall i :: 0 <= i < |os| ==> ds[i].Cut? || TaskYields(os[i].ctx, os[i].task, ds[i], outcomes[i])
  }

  function OrphanCalls(os: seq<Orphan>, ds: seq<Deriv>, x: Row): nat
    requires |os| == |ds|
  {
    if os == [] then 0 else TaskCalls(os[0].task, PlacesOf(os[0].ctx), ds[0], x) + OrphanCalls(os[1..], ds[1..], x)
  }

  predicate AllComplete(ds: seq<Deriv>) {
    forall i :: 0 <= i < |ds| ==> Complete(ds[i])
  }

  // A step with nothing failing.
  function Calm(ctx: Ambient, t: Task, path: seq<nat>, next: nat): Option<Effect> {
    Advance(ctx, t, path, Done, next)
  }

  // The constructor a derivation needs at each frame of a task.
  ghost predicate TaskShape(t: Task, d: Deriv)
    decreases t
  {
    match t
    case Binding(first, _) => d.Then? && TaskShape(first, d.first)
    case Opening(_, _) => d.Inside?
    case Open(_, inner) => d.Inside? && TaskShape(inner, d.sub)
    case Joining(bs, _) =>
      d.Fork? && |d.branches| == |bs| == |d.outcomes|
      && forall i :: 0 <= i < |bs| ==> d.branches[i].Cut? || TaskShape(bs[i], d.branches[i])
    case _ => true
  }

  lemma {:induction false} YieldsShape(ctx: Ambient, t: Task, d: Deriv, o: Outcome)
    requires TaskYields(ctx, t, d, o)
    ensures TaskShape(t, d)
    decreases t
  {
    match t
    case Binding(first, _) => YieldsShape(ctx, first, d.first, d.mid);
    case Open(f, inner) => YieldsShape(Enter(ctx, f), inner, d.sub, d.mid);
    case Joining(bs, _) =>
      forall i | 0 <= i < |bs|
        ensures d.branches[i].Cut? || TaskShape(bs[i], d.branches[i])
      {
        if !d.branches[i].Cut? {
          YieldsShape(ctx, bs[i], d.branches[i], d.outcomes[i]);
        }
      }
    case _ =>
  }

  // The outcomes of the branches left behind, with their derivations.
  datatype Rest = Rest(ds: seq<Deriv>, os: seq<Outcome>)

  ghost predicate Fits(e: Effect, d: Deriv, rest: Rest) {
    OrphansYield(e.orphans, rest.ds, rest.os) && TaskShape(e.task, d)
  }

  // The derivation of a task before a step, from one of the task after it, with outcome o, and those of
  // the branches it left behind.
  ghost function Pull(ctx: Ambient, t: Task, path: seq<nat>, next: nat, d: Deriv, o: Outcome, rest: Rest): Deriv
    requires Calm(ctx, t, path, next).Some? && Fits(Calm(ctx, t, path, next).value, d, rest)
    decreases t
  {
    match t
    case Ready(p) =>
      if (p.Step? && p.tracer !in ctx.stores) || (p.Run? && !p.enabled) then Inside(0, d, o)
      else if p.Step? || p.Run? then Inside(next, d.sub, d.mid)
      else d
    case Binding(first, k) =>
      if first.Settled? then Then(Leaf, first.outcome, d)
      else Then(Pull(ctx, first, path, next, d.first, d.mid, rest), d.mid, d.rest)
    case Open(f, inner) =>
      if inner.Settled? then Inside(0, Leaf, inner.outcome)
      else Inside(0, Pull(Enter(ctx, f), inner, path, next, d.sub, d.mid, rest), d.mid)
    case Joining(bs, rejection) =>
      if path[0] < |bs| then
        if d.branches[path[0]].Cut? then d
        else
          var i := path[0];
          Fork(d.branches[i := Pull(ctx, bs[i], path[1..], next, d.branches[i], d.outcomes[i], rest)], d.outcomes)
      else if rejection.Some? then
        Fork(seq(|bs|, i requires 0 <= i < |bs| => if bs[i].Settled? then Leaf else rest.ds[i]),
             seq(|bs|, i requires 0 <= i < |bs| => if bs[i].Settled? then bs[i].outcome else rest.os[i]))
      else
        Fork(seq(|bs|, i => Leaf), seq(|bs|, i requires 0 <= i < |bs| => bs[i].outcome))
    case _ => d
  }

  ghost predicate Pullable(ctx: Ambient, t: Task, path: seq<nat>, next: nat, d: Deriv, o: Outcome, rest: Rest) {
    && Calm(ctx, t, path, next).Some?
    && Fits(Calm(ctx, t, path, next).value, d, rest)
    && TaskYields(ctx, Calm(ctx, t, path, next).value.task, d, o)
  }

  // The pulled derivation yields the same outcome, and is complete if those it comes from are.
  ghost predicate Pulled(ctx: Ambient, t: Task, path: seq<nat>, next: nat, d: Deriv, o: Outcome, rest: Rest)
    requires Calm(ctx, t, path, next).Some? && Fits(Calm(ctx, t, path, next).value, d, rest)
  {
    var r := Pull(ctx, t, path, next, d, o, rest);
    TaskYields(ctx, t, r, o) && (Complete(d) && AllComplete(rest.ds) ==> Complete(r))
  }

  lemma {:induction false} BindingInner(ctx: Ambient, first: Task, k: Outcome -> Prog, path: seq<nat>, next: nat,
        d: Deriv, o: Outcome, rest: Rest)
    requires Pullable(ctx, Binding(first, k), path, next, d, o, rest) && !first.Settled?
    ensures d.Then? && Pullable(ctx, first, path, next, d.first, d.mid, rest)
  {
  }

  lemma {:induction false} OpenInner(ctx: Ambient, f: Frame, inner: Task, path: seq<nat>, next: nat, d: Deriv,
        o: Outcome, rest: Rest)
    requires Pullable(ctx, Open(f, inner), path, next, d, o, rest) && !inner.Settled?
    ensures d.Inside? && Pullable(Enter(ctx, f), inner, path, next, d.sub, d.mid, rest)
  {
  }

  lemma {:induction false} BranchInner(ctx: Ambient, bs: seq<Task>, rejection: Option<Value>, path: seq<nat>, next: nat,
        d: Deriv, o: Outcome, rest: Rest)
    requires Pullable(ctx, Joining(bs, rejection), path, next, d, o, rest)
    ensures path != [] && (path[0] < |bs| ==> d.Fork? && |d.branches| == |bs| == |d.outcomes|)
    ensures path[0] < |bs| && !d.branches[path[0]].Cut? ==>
              Pullable(ctx, bs[path[0]], path[1..], next, d.branches[path[0]], d.outcomes[path[0]], rest)
  {
  }

  lemma {:induction false} BindingPulled(ctx: Ambient, first: Task, k: Outcome -> Prog, path: seq<nat>, next: nat,
        d: Deriv, o: Outcome, rest: Rest)
    requires Pullable(ctx, Binding(first, k), path, next, d, o, rest)
    requires !first.Settled? ==> Pulled(ctx, first, path, next, d.first, d.mid, rest)
    ensures Pulled(ctx, Binding(first, k), path, next, d, o, rest)
  {
  }

  lemma {:induction false} OpenPulled(ctx: Ambient, f: Frame, inner: Task, path: seq<nat>, next: nat, d: Deriv,
        o: Outcome, rest: Rest)
    requires Pullable(ctx, Open(f, inner), path, next, d, o, rest)
    requires !inner.Settled? ==> Pulled(Enter(ctx, f), inner, path, next, d.sub, d.mid, rest)
    ensures Pulled(ctx, Open(f, inner), path, next, d, o, rest)
  {
  }

  // Whatever a task settles with after a step, it could settle with before the step.
  lemma {:induction false} PullYields(log: seq<Row>, ctx: Ambient, t: Task, path: seq<nat>, next: nat, d: Deriv,
        o: Outcome, rest: Rest)
    requires TaskOk(log, ctx, t) && Pullable(ctx, t, path, next, d, o, rest)
    ensures Pulled(ctx, t, path, next, d, o, rest)
    decreases t, 1
  {
    hide Pulled, Pullable, Observed, Advance, FrameOk, Pull, TaskYields, Fits, TaskShape, Calm, WellFormed, Enter;
    match t
    case Binding(first, k) =>
      if !first.Settled? {
        BindingInner(ctx, first, k, path, next, d, o, rest);
        PullYields(log, ctx, first, path, next, d.first, d.mid, rest);
      }
      BindingPulled(ctx, first, k, path, next, d, o, rest);
    case Open(f, inner) =>
      if !inner.Settled? {
        OpenInner(ctx, f, inner, path, next, d, o, rest);
        PullYields(log, Enter(ctx, f), inner, path, next, d.sub, d.mid, rest);
      }
      OpenPulled(ctx, f, inner, path, next, d, o, rest);
    case Joining(bs, rejection) => GroupYields(log, ctx, bs, rejection, path, next, d, o, rest);
    case Ready(p) => BeginPulled(ctx, p, path, next, d, o, rest);
    case _ => FramePulled(ctx, t, path, next, d, o, rest);
  }

  lemma {:induction false} GroupYields(log: seq<Row>, ctx: Ambient, bs: seq<Task>, rejection: Option<Value>,
        path: seq<nat>, next: nat, d: Deriv, o: Outcome, rest: Rest)
    requires TaskOk(log, ctx, Joining(bs, rejection)) && Pullable(ctx, Joining(bs, rejection), path, next, d, o, rest)
    ensures Pulled(ctx, Joining(bs, rejection), path, next, d, o, rest)
    decreases Joining(bs, rejection), 0
  {
    hide Pulled, Pullable, Observed, Advance, FrameOk;
    BranchInner(ctx, bs, rejection, path, next, d, o, rest);
    if path[0] < |bs| {
      if !d.branches[path[0]].Cut? {
        PullYields(log, ctx, bs[path[0]], path[1..], next, d.branches[path[0]], d.outcomes[path[0]], rest);
      }
      BranchPulled(ctx, bs, rejection, path, next, d, o, rest);
    } else {
      JoinPulled(log, ctx, bs, rejection, path, next, d, o, rest);
    }
  }

  lemma {:induction false} FramePulled(ctx: Ambient, t: Task, path: seq<nat>, next: nat, d: Deriv, o: Outcome,
        rest: Rest)
    requires Pullable(ctx, t, path, next, d, o, rest)
    requires !t.Ready? && !t.Binding? && !t.Open? && !t.Joining?
    ensures Pulled(ctx, t, path, next, d, o, rest)
  {
    match t
    case Opening(f, body) => assert TaskYields(Enter(ctx, f), Ready(body), d.sub, d.mid)
        == Observed(body, Enter(ctx, f).stores.Keys, d.sub, d.mid);
    case Printing(f, body) => assert TaskYields(Enter(ctx, f), Ready(body), d.sub, d.mid);
    case _ =>
  }

  lemma {:induction false} BeginPulled(ctx: Ambient, p: Prog, path: seq<nat>, next: nat, d: Deriv, o: Outcome,
        rest: Rest)
    requires Pullable(ctx, Ready(p), path, next, d, o, rest)
    ensures Pulled(ctx, Ready(p), path, next, d, o, rest)
  {
    var e := Begin(ctx, p, next);
    assert TaskYields(ctx, e.task, d, o);
    match p
    case Bind(first, k) => assert TaskYields(ctx, Ready(first), d.first, d.mid);
    case All(ps) =>
      assert forall i :: 0 <= i < |ps| ==> e.task.branches[i] == Ready(ps[i]);
      forall i | 0 <= i < |ps|
        ensures d.branches[i].Cut? || Observed(ps[i], ctx.stores.Keys, d.branches[i], d.outcomes[i])
      {
        assert d.branches[i].Cut? || TaskYields(ctx, Ready(ps[i]), d.branches[i], d.outcomes[i]);
      }
    case Step(tracer, _, _) => assert tracer in ctx.stores ==> Enter(ctx, e.task.frame).stores.Keys == ctx.stores.Keys;
    case Run(tracer, _, enabled, _) => assert enabled ==>
          Enter(ctx, e.task.frame).stores.Keys == ctx.stores.Keys + {tracer};
    case Settle(_) =>
  }

  lemma {:induction false} BranchPulled(ctx: Ambient, bs: seq<Task>, rejection: Option<Value>, path: seq<nat>,
        next: nat, d: Deriv, o: Outcome, rest: Rest)
    requires Pullable(ctx, Joining(bs, rejection), path, next, d, o, rest)
    requires path != [] && path[0] < |bs|
    requires !d.branches[path[0]].Cut? ==>
               Pulled(ctx, bs[path[0]], path[1..], next, d.branches[path[0]], d.outcomes[path[0]], rest)
    ensures Pulled(ctx, Joining(bs, rejection), path, next, d, o, rest)
  {
    var r, i := Pull(ctx, Joining(bs, rejection), path, next, d, o, rest), path[0];
    if !d.branches[i].Cut? {
      NotCut(ctx, bs[i], r.branches[i], d.outcomes[i]);
      assert forall k :: 0 <= k < |bs| && k != i ==> r.branches[k] == d.branches[k];
      assert forall k :: 0 <= k < |bs| ==> (r.branches[k].Cut? <==> d.branches[k].Cut?);
    }
    var e := Calm(ctx, Joining(bs, rejection), path, next).value;
    forall k | 0 <= k < |bs|
      ensures r.branches[k].Cut? || TaskYields(ctx, bs[k], r.branches[k], r.outcomes[k])
    {
      if k != i {
        assert e.task.branches[k] == bs[k];
      }
    }
  }

  lemma {:induction false} NotCut(ctx: Ambient, t: Task, d: Deriv, o: Outcome)
    requires TaskYields(ctx, t, d, o)
    ensures !d.Cut?
  {
    match t
    case Ready(p) => match p { case Settle(_) => case _ => }
    case _ =>
  }

  lemma {:induction false} JoinPulled(log: seq<Row>, ctx: Ambient, bs: seq<Task>, rejection: Option<Value>,
        path: seq<nat>, next: nat, d: Deriv, o: Outcome, rest: Rest)
    requires TaskOk(log, ctx, Joining(bs, rejection))
    requires Pullable(ctx, Joining(bs, rejection), path, next, d, o, rest)
    requires path != [] && path[0] >= |bs|
    ensures Pulled(ctx, Joining(bs, rejection), path, next, d, o, rest)
  {
    var r := Pull(ctx, Joining(bs, rejection), path, next, d, o, rest);
    var e := Calm(ctx, Joining(bs, rejection), path, next).value;
    if rejection.Some? {
      var k :| 0 <= k < |bs| && bs[k] == Settled(Threw(rejection.value));
      assert r.outcomes[k] == o && r.branches[k] == Leaf;
      forall i | 0 <= i < |bs|
        ensures r.branches[i].Cut? || TaskYields(ctx, bs[i], r.branches[i], r.outcomes[i])
      {
        assert e.orphans[i] == Orphan(ctx, bs[i]);
      }
    }
  }

  // ---- Counting what a step records ----

  predicate IsStart(r: Row) {
    r.StepStarted? || r.RunStarted?
  }

  function RowHit(row: Option<Row>, x: Row): nat {
    if row == Some(x) then 1 else 0
  }

  ghost predicate Counted(ctx: Ambient, t: Task, path: seq<nat>, next: nat, d: Deriv, o: Outcome, rest: Rest, x: Row)
    requires Calm(ctx, t, path, next).Some? && Fits(Calm(ctx, t, path, next).value, d, rest)
  {
    var e := Calm(ctx, t, path, next).value;
    TaskCalls(t, PlacesOf(ctx), Pull(ctx, t, path, next, d, o, rest), x)
    == TaskCalls(e.task, PlacesOf(ctx), d, x) + OrphanCalls(e.orphans, rest.ds, x) + RowHit(e.row, x)
  }

  lemma {:induction false} BindingCounted(ctx: Ambient, first: Task, k: Outcome -> Prog, path: seq<nat>, next: nat,
        d: Deriv, o: Outcome, rest: Rest, x: Row)
    requires Pullable(ctx, Binding(first, k), path, next, d, o, rest)
    requires !first.Settled? ==> Counted(ctx, first, path, next, d.first, d.mid, rest, x)
    ensures Counted(ctx, Binding(first, k), path, next, d, o, rest, x)
  {
  }

  lemma {:induction false} OpenCounted(ctx: Ambient, f: Frame, inner: Task, path: seq<nat>, next: nat, d: Deriv,
        o: Outcome, rest: Rest, x: Row)
    requires FrameOk(ctx, f) && Pullable(ctx, Open(f, inner), path, next, d, o, rest)
    requires !inner.Settled? ==> Counted(Enter(ctx, f), inner, path, next, d.sub, d.mid, rest, x)
    ensures Counted(ctx, Open(f, inner), path, next, d, o, rest, x)
  {
    EnterPlaces(ctx, f);
  }

  // What a task has to record before a step is what it records in the step plus what it and the branches it leaves
  // behind have to record after it.
  lemma {:induction false} PullCounted(log: seq<Row>, ctx: Ambient, t: Task, path: seq<nat>, next: nat, d: Deriv,
        o: Outcome, rest: Rest, x: Row)
    requires TaskOk(log, ctx, t) && Pullable(ctx, t, path, next, d, o, rest) && Complete(d) && IsStart(x)
    ensures Counted(ctx, t, path, next, d, o, rest, x)
    decreases t, 1
  {
    hide Counted, Pullable, Observed, Advance, FrameOk, Pull, TaskYields, Fits, TaskShape, Calm, TaskCalls, Calls,
         Enter;
    match t
    case Binding(first, k) =>
      if !first.Settled? {
        BindingInner(ctx, first, k, path, next, d, o, rest);
        PullCounted(log, ctx, first, path, next, d.first, d.mid, rest, x);
      }
      BindingCounted(ctx, first, k, path, next, d, o, rest, x);
    case Open(f, inner) =>
      if !inner.Settled? {
        OpenInner(ctx, f, inner, path, next, d, o, rest);
        PullCounted(log, Enter(ctx, f), inner, path, next, d.sub, d.mid, rest, x);
      }
      OpenCounted(ctx, f, inner, path, next, d, o, rest, x);
    case Joining(bs, rejection) => GroupCounted(log, ctx, bs, rejection, path, next, d, o, rest, x);
    case Ready(p) => BeginCounted(ctx, p, path, next, d, o, rest, x);
    case _ => FrameCounted(ctx, t, path, next, d, o, rest, x);
  }

  lemma {:induction false} GroupCounted(log: seq<Row>, ctx: Ambient, bs: seq<Task>, rejection: Option<Value>,
        path: seq<nat>, next: nat, d: Deriv, o: Outcome, rest: Rest, x: Row)
    requires TaskOk(log, ctx, Joining(bs, rejection)) && Pullable(ctx, Joining(bs, rejection), path, next, d, o, rest)
    requires Complete(d) && IsStart(x)
    ensures Counted(ctx, Joining(bs, rejection), path, next, d, o, rest, x)
    decreases Joining(bs, rejection), 0
  {
    hide Counted, Pullable, Observed, Advance, FrameOk;
    BranchInner(ctx, bs, rejection, path, next, d, o, rest);
    if path[0] < |bs| {
      assert !d.branches[path[0]].Cut?;
      PullCounted(log, ctx, bs[path[0]], path[1..], next, d.branches[path[0]], d.outcomes[path[0]], rest, x);
      BranchCounted(ctx, bs, rejection, path, next, d, o, rest, x);
    } else {
      JoinCounted(ctx, bs, rejection, path, next, d, o, rest, x);
    }
  }

  lemma {:induction false} FrameCounted(ctx: Ambient, t: Task, path: seq<nat>, next: nat, d: Deriv, o: Outcome,
        rest: Rest, x: Row)
    requires Pullable(ctx, t, path, next, d, o, rest) && IsStart(x)
    requires !t.Ready? && !t.Binding? && !t.Open? && !t.Joining?
    ensures Counted(ctx, t, path, next, d, o, rest, x)
  {
    match t
    case Opening(f, body) => ReadyCall(body, InFrame(PlacesOf(ctx), f), d.sub, x);
    case Printing(f, body) => ReadyCall(body, InFrame(PlacesOf(ctx), f), d.sub, x);
    case _ =>
  }

  lemma {:induction false} BeginCounted(ctx: Ambient, p: Prog, path: seq<nat>, next: nat, d: Deriv, o: Outcome,
        rest: Rest, x: Row)
    requires Pullable(ctx, Ready(p), path, next, d, o, rest)
    ensures Counted(ctx, Ready(p), path, next, d, o, rest, x)
  {
    hide Calls, TaskCalls, TaskYields, PlacesOf, Enter, Pull, TaskShape, Begin;
    PullBegin(ctx, p, path, next, d, o, rest);
    var r := Pull(ctx, Ready(p), path, next, d, o, rest);
    ReadyCall(p, PlacesOf(ctx), r, x);
    BeginCalls(ctx, p, next, d, r, x);
  }

  // The derivation before the beginning of p that goes on as d.
  ghost predicate BeginsAs(ctx: Ambient, p: Prog, next: nat, d: Deriv, r: Deriv) {
    && TaskShape(Begin(ctx, p, next).task, d)
    && if (p.Step? && p.tracer !in ctx.stores) || (p.Run? && !p.enabled) then r.Inside? && r.sub == d
       else if p.Step? || p.Run? then d.Inside? && r == Inside(next, d.sub, d.mid)
       else r == d
  }

  lemma {:induction false} PullBegin(ctx: Ambient, p: Prog, path: seq<nat>, next: nat, d: Deriv, o: Outcome, rest: Rest)
    requires Pullable(ctx, Ready(p), path, next, d, o, rest)
    ensures BeginsAs(ctx, p, next, d, Pull(ctx, Ready(p), path, next, d, o, rest))
    ensures Calm(ctx, Ready(p), path, next) == Some(Begin(ctx, p, next))
    ensures Begin(ctx, p, next).orphans == [] && rest.ds == [] && Begin(ctx, p, next).row.None?
  {
    hide TaskYields;
  }

  lemma {:induction false} ReadyCall(p: Prog, places: Places, d: Deriv, x: Row)
    ensures TaskCalls(Ready(p), places, d, x) == Calls(p, places, d, x)
  {
  }

  // Starting a piece of code records nothing yet.
  lemma {:induction false} BeginCalls(ctx: Ambient, p: Prog, next: nat, d: Deriv, r: Deriv, x: Row)
    requires BeginsAs(ctx, p, next, d, r)
    ensures Calls(p, PlacesOf(ctx), r, x) == TaskCalls(Begin(ctx, p, next).task, PlacesOf(ctx), d, x)
  {
    var places, e := PlacesOf(ctx), Begin(ctx, p, next);
    match p
    case Bind(first, k) => ReadyCall(first, places, d.first, x);
    case All(ps) => ReadyCalls(ps, e.task.branches, places, d.branches, x);
    case Step(tracer, _, body) =>
      if tracer in ctx.stores {
        assert InFrame(places, e.task.frame) == InStep(places, tracer, next);
      }
    case Run(tracer, _, enabled, _) =>
      if enabled {
        assert InFrame(places, e.task.frame) == InRun(places, tracer, next);
      }
    case Settle(_) =>
  }

  lemma {:induction false} ReadyCalls(ps: seq<Prog>, ts: seq<Task>, places: Places, ds: seq<Deriv>, x: Row)
    requires |ps| == |ts| == |ds|
    requires forall i :: 0 <= i < |ps| ==> ts[i] == Ready(ps[i])
    ensures TaskCallsAll(ts, places, ds, x) == CallsAll(ps, places, ds, x)
    decreases |ps|
  {
    if ps != [] {
      ReadyCall(ps[0], places, ds[0], x);
      ReadyCalls(ps[1..], ts[1..], places, ds[1..], x);
    }
  }

  lemma {:induction false} CallsUpdate(ts: seq<Task>, places: Places, ds: seq<Deriv>, i: nat, t: Task, d: Deriv, x: Row)
    requires |ts| == |ds| && i < |ts|
    ensures TaskCallsAll(ts[i := t], places, ds[i := d], x) + TaskCalls(ts[i], places, ds[i], x)
         == TaskCallsAll(ts, places, ds, x) + TaskCalls(t, places, d, x)
    decreases |ts|
  {
    if i > 0 {
      assert ts[i := t][1..] == ts[1..][i - 1 := t] && ds[i := d][1..] == ds[1..][i - 1 := d];
      CallsUpdate(ts[1..], places, ds[1..], i - 1, t, d, x);
    } else {
      assert ts[i := t][1..] == ts[1..] && ds[i := d][1..] == ds[1..];
    }
  }

  lemma {:induction false} BranchCounted(ctx: Ambient, bs: seq<Task>, rejection: Option<Value>, path: seq<nat>,
        next: nat, d: Deriv, o: Outcome, rest: Rest, x: Row)
    requires Pullable(ctx, Joining(bs, rejection), path, next, d, o, rest)
    requires path != [] && path[0] < |bs| && !d.branches[path[0]].Cut?
    requires Counted(ctx, bs[path[0]], path[1..], next, d.branches[path[0]], d.outcomes[path[0]], rest, x)
    ensures Counted(ctx, Joining(bs, rejection), path, next, d, o, rest, x)
  {
    var i := path[0];
    var us := Calm(ctx, Joining(bs, rejection), path, next).value.task.branches;
    var r := Pull(ctx, Joining(bs, rejection), path, next, d, o, rest);
    CallsUpdate(us, PlacesOf(ctx), d.branches, i, bs[i], r.branches[i], x);
    assert us[i := bs[i]] == bs;
  }

  lemma {:induction false} SettledCalls(ts: seq<Task>, places: Places, ds: seq<Deriv>, x: Row)
    requires |ts| == |ds| && forall i :: 0 <= i < |ts| ==> ts[i].Settled?
    ensures TaskCallsAll(ts, places, ds, x) == 0
    decreases |ts|
  {
    if ts != [] {
      SettledCalls(ts[1..], places, ds[1..], x);
    }
  }

  // Branches left behind record, each in the stores it was started in, what they would have recorded in the group.
  lemma {:induction false} LeftCalls(ctx: Ambient, os: seq<Orphan>, ts: seq<Task>, ds: seq<Deriv>, rs: seq<Deriv>,
        x: Row)
    requires |os| == |ts| == |ds| == |rs|
    requires forall i :: 0 <= i < |os| ==> os[i] == Orphan(ctx, ts[i]) && (!ts[i].Settled? ==> rs[i] == ds[i])
    ensures TaskCallsAll(ts, PlacesOf(ctx), rs, x) == OrphanCalls(os, ds, x)
    decreases |os|
  {
    if os != [] {
      LeftCalls(ctx, os[1..], ts[1..], ds[1..], rs[1..], x);
    }
  }

  lemma {:induction false} JoinCounted(ctx: Ambient, bs: seq<Task>, rejection: Option<Value>, path: seq<nat>, next: nat,
        d: Deriv, o: Outcome, rest: Rest, x: Row)
    requires Pullable(ctx, Joining(bs, rejection), path, next, d, o, rest)
    requires path != [] && path[0] >= |bs|
    ensures Counted(ctx, Joining(bs, rejection), path, next, d, o, rest, x)
  {
    var e := Calm(ctx, Joining(bs, rejection), path, next).value;
    var r := Pull(ctx, Joining(bs, rejection), path, next, d, o, rest);
    if rejection.Some? {
      LeftCalls(ctx, e.orphans, bs, rest.ds, r.branches, x);
    } else {
      SettledCalls(bs, PlacesOf(ctx), r.branches, x);
    }
  }
}
