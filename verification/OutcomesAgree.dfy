// The other direction of transparency: every outcome the meaning allows is one that some schedule settles with.
module OutcomesAgree {
  import opened Wrappers
  import opened Protocol
  import opened ProtocolEnds
  import opened ProtocolFailures
  import opened CallTree
  import opened CallTreeRuns
  import opened Transparency

  // A task, the next fresh id, and whether every frame whose body settled on the way keeps its outcome, after some
  // steps of that task alone with nothing failing.
  datatype Point = Point(task: Task, next: nat, kept: bool)

  predicate EndKept(end: Option<End>) {
    end.Some? ==> Kept(end.value.tracer, end.value.outcome)
  }

  function After(at: Point, e: Effect): Point {
    Point(e.task, e.next, at.kept && EndKept(e.end))
  }

  function Drive(ctx: Ambient, at: Point, paths: seq<seq<nat>>): Option<Point>
    decreases |paths|
  {
    if paths == [] then Some(at)
    else
      match Calm(ctx, at.task, paths[0], at.next)
      case None => None
      case Some(e) => Drive(ctx, After(at, e), paths[1..])
  }

  lemma {:induction false} DriveOn(ctx: Ambient, at: Point, a: seq<seq<nat>>, b: seq<seq<nat>>)
    requires Drive(ctx, at, a).Some?
    ensures Drive(ctx, at, a + b) == Drive(ctx, Drive(ctx, at, a).value, b)
    decreases |a|
  {
    if a == [] {
      assert a + b == b;
    } else {
      var e := Calm(ctx, at.task, a[0], at.next).value;
      assert (a + b)[0] == a[0] && (a + b)[1..] == a[1..] + b;
      DriveOn(ctx, After(at, e), a[1..], b);
    }
  }

  // ---- Driving a part drives the whole ----

  lemma {:induction false} InBinding(ctx: Ambient, first: Task, next: nat, kept: bool, k: Outcome -> Prog,
        paths: seq<seq<nat>>)
    requires Drive(ctx, Point(first, next, kept), paths).Some?
    ensures var end := Drive(ctx, Point(first, next, kept), paths).value;
            Drive(ctx, Point(Binding(first, k), next, kept), paths) == Some(end.(task := Binding(end.task, k)))
    decreases |paths|
  {
    if paths != [] {
      var e := Calm(ctx, first, paths[0], next).value;
      InBinding(ctx, e.task, e.next, kept && EndKept(e.end), k, paths[1..]);
    }
  }

  lemma {:induction false} InOpen(ctx: Ambient, inner: Task, next: nat, kept: bool, f: Frame, paths: seq<seq<nat>>)
    requires Drive(Enter(ctx, f), Point(inner, next, kept), paths).Some?
    ensures var end := Drive(Enter(ctx, f), Point(inner, next, kept), paths).value;
            Drive(ctx, Point(Open(f, inner), next, kept), paths) == Some(end.(task := Open(f, end.task)))
    decreases |paths|
  {
    if paths != [] {
      var e := Calm(Enter(ctx, f), inner, paths[0], next).value;
      InOpen(ctx, e.task, e.next, kept && EndKept(e.end), f, paths[1..]);
    }
  }

  function Into(i: nat, paths: seq<seq<nat>>): (r: seq<seq<nat>>)
    ensures |r| == |paths|
  {
    seq(|paths|, j requires 0 <= j < |paths| => [i] + paths[j])
  }

  lemma {:induction false} InBranch(ctx: Ambient, bs: seq<Task>, rejection: Option<Value>, next: nat, kept: bool,
        i: nat, paths: seq<seq<nat>>)
    requires i < |bs| && !bs[i].Settled?
    requires Drive(ctx, Point(bs[i], next, kept), paths).Some?
    ensures var end := Drive(ctx, Point(bs[i], next, kept), paths).value;
            Drive(ctx, Point(Joining(bs, rejection), next, kept), Into(i, paths)) ==
            Some(end.(task := Joining(bs[i := end.task], Rejection(rejection, end.task))))
    decreases |paths|
  {
    if paths == [] {
      assert bs[i := bs[i]] == bs;
    } else {
      hide Drive;
      DriveFirst(ctx, Point(bs[i], next, kept), paths);
      var e := Calm(ctx, bs[i], paths[0], next).value;
      assert ([i] + paths[0])[1..] == paths[0];
      assert Into(i, paths)[1..] == Into(i, paths[1..]);
      var moved := bs[i := e.task];
      assert Calm(ctx, Joining(bs, rejection), [i] + paths[0], next)
          == Some(e.(task := Joining(moved, Rejection(rejection, e.task))));
      DriveFirst(ctx, Point(Joining(bs, rejection), next, kept), Into(i, paths));
      if e.task.Settled? {
        SettledDrive(ctx, After(Point(bs[i], next, kept), e), paths[1..]);
        var joined := e.(task := Joining(moved, Rejection(rejection, e.task)));
        SettledDrive(ctx, After(Point(Joining(bs, rejection), next, kept), joined), []);
      } else {
        InBranch(ctx, moved, rejection, e.next, kept && EndKept(e.end), i, paths[1..]);
        var end := Drive(ctx, After(Point(bs[i], next, kept), e), paths[1..]).value;
        assert moved[i := end.task] == bs[i := end.task];
      }
    }
  }

  lemma {:induction false} DriveFirst(ctx: Ambient, at: Point, paths: seq<seq<nat>>)
    requires paths != []
    ensures Drive(ctx, at, paths) ==
            match Calm(ctx, at.task, paths[0], at.next)
            case None => None
            case Some(e) => Drive(ctx, After(at, e), paths[1..])
  {
  }

  // Nothing moves what has settled.
  lemma {:induction false} SettledDrive(ctx: Ambient, at: Point, paths: seq<seq<nat>>)
    ensures at.task.Settled? && Drive(ctx, at, paths).Some? ==> paths == []
    ensures Drive(ctx, at, []) == Some(at)
  {
  }

  // ---- A schedule for every derivation ----

  // A drive to the end of a program, from any stores and next id. On the way every outcome is kept if `plain`.
  ghost predicate Settles(ctx: Ambient, at: Point, paths: seq<seq<nat>>, o: Outcome, plain: bool) {
    && Drive(ctx, at, paths).Some?
    && Drive(ctx, at, paths).value.task == Settled(o)
    && (plain && at.kept ==> Drive(ctx, at, paths).value.kept)
  }

  // A first step, then a drive.
  lemma {:induction false} StepThen(ctx: Ambient, at: Point, path: seq<nat>, rest: seq<seq<nat>>, o: Outcome,
        plain: bool)
    requires Calm(ctx, at.task, path, at.next).Some?
    requires var e := Calm(ctx, at.task, path, at.next).value;
             Settles(ctx, After(at, e), rest, o, plain) && (plain ==> EndKept(e.end))
    ensures Settles(ctx, at, [path] + rest, o, plain)
  {
    assert ([path] + rest)[1..] == rest;
  }

  // A drive, then another.
  lemma {:induction false} DriveThen(ctx: Ambient, at: Point, a: seq<seq<nat>>, b: seq<seq<nat>>, o: Outcome,
        plain: bool)
    requires Drive(ctx, at, a).Some? && Settles(ctx, Drive(ctx, at, a).value, b, o, plain)
    requires plain && at.kept ==> Drive(ctx, at, a).value.kept
    ensures Settles(ctx, at, a + b, o, plain)
  {
    DriveOn(ctx, at, a, b);
  }

  lemma {:induction false} Realise(ctx: Ambient, p: Prog, d: Deriv, o: Outcome, next: nat, kept: bool, plain: bool)
    returns (paths: seq<seq<nat>>)
    requires Observed(p, ctx.stores.Keys, d, o) && (plain ==> Unchanged(p, ctx.stores.Keys, d))
    ensures Settles(ctx, Point(Ready(p), next, kept), paths, o, plain)
    decreases d, 2
  {
    hide Settles, Drive;
    var e := Begin(ctx, p, next);
    match p {
    case Settle(_) =>
      paths := [];
      SettledSettles(ctx, e.next, kept, o, plain);
    case Bind(first, k) => paths := RealiseBind(ctx, first, k, d, o, next, kept, plain);
    case Step(tracer, name, body) =>
      if tracer !in ctx.stores {
        paths := Realise(ctx, body, d.sub, o, next, kept, plain);
      } else {
        assert Enter(ctx, e.task.frame).stores.Keys == ctx.stores.Keys;
        paths := RealiseFrame(ctx, e.task.frame, body, d.sub, d.mid, e.next, kept, plain);
      }
    case Run(tracer, name, enabled, body) =>
      if !enabled {
        paths := Realise(ctx, body, d.sub, o, next, kept, plain);
      } else {
        assert Enter(ctx, e.task.frame).stores.Keys == ctx.stores.Keys + {tracer};
        paths := RealiseFrame(ctx, e.task.frame, body, d.sub, d.mid, e.next, kept, plain);
      }
    case All(ps) =>
      assert e.task.branches == AllReady(ps);
      paths := RealiseAll(ctx, ps, d, o, next, kept, plain);
    }
    StepThen(ctx, Point(Ready(p), next, kept), [], paths, o, plain);
    paths := [[]] + paths;
  }

  lemma {:induction false} SettledSettles(ctx: Ambient, next: nat, kept: bool, o: Outcome, plain: bool)
    ensures Settles(ctx, Point(Settled(o), next, kept), [], o, plain)
  {
  }

  lemma {:induction false} RealiseBind(ctx: Ambient, first: Prog, k: Outcome -> Prog, d: Deriv, o: Outcome, next: nat,
        kept: bool, plain: bool)
    returns (paths: seq<seq<nat>>)
    requires Observed(Bind(first, k), ctx.stores.Keys, d, o)
             && (plain ==> Unchanged(Bind(first, k), ctx.stores.Keys, d))
    ensures Settles(ctx, Point(Binding(Ready(first), k), next, kept), paths, o, plain)
    decreases d, 0
  {
    var a := Realise(ctx, first, d.first, d.mid, next, kept, plain);
    InBinding(ctx, Ready(first), next, kept, k, a);
    var mid := Drive(ctx, Point(Ready(first), next, kept), a).value;
    var b := Realise(ctx, k(d.mid), d.rest, o, mid.next, mid.kept, plain);
    StepThen(ctx, Point(Binding(mid.task, k), mid.next, mid.kept), [], b, o, plain);
    DriveThen(ctx, Point(Binding(Ready(first), k), next, kept), a, [[]] + b, o, plain);
    paths := a + ([[]] + b);
  }

  // Both frames: a start row, for the shared tracer a print, the body, and the end.
  lemma {:induction false} RealiseFrame(ctx: Ambient, f: Frame, body: Prog, d: Deriv, mid: Outcome, next: nat,
        kept: bool, plain: bool)
    returns (paths: seq<seq<nat>>)
    requires Observed(body, Enter(ctx, f).stores.Keys, d, mid)
    requires plain ==> Unchanged(body, Enter(ctx, f).stores.Keys, d) && EndOutcome(f.tracer, mid) == mid
    ensures Settles(ctx, Point(Opening(f, body), next, kept), paths, EndOutcome(f.tracer, mid), plain)
    decreases d, 3
  {
    hide Drive, Observed, Unchanged, EndOutcome, Enter, EndingOf;
    var o := EndOutcome(f.tracer, mid);
    var a := Realise(Enter(ctx, f), body, d, mid, next, kept, plain);
    InOpen(ctx, Ready(body), next, kept, f, a);
    var end := Drive(Enter(ctx, f), Point(Ready(body), next, kept), a).value;
    var b := FrameEnds(ctx, f, mid, end.next, end.kept, plain);
    DriveThen(ctx, Point(Open(f, Ready(body)), next, kept), a, b, o, plain);
    paths := a + b;
    if f.tracer.Shared? {
      StepThen(ctx, Point(Printing(f, body), next, kept), [], paths, o, plain);
      paths := [[]] + paths;
    }
    StepThen(ctx, Point(Opening(f, body), next, kept), [], paths, o, plain);
    paths := [[]] + paths;
  }

  lemma {:induction false} FrameEnds(ctx: Ambient, f: Frame, mid: Outcome, next: nat, kept: bool, plain: bool)
    returns (paths: seq<seq<nat>>)
    requires plain ==> EndOutcome(f.tracer, mid) == mid
    ensures Settles(ctx, Point(Open(f, Settled(mid)), next, kept), paths, EndOutcome(f.tracer, mid), plain)
  {
    hide Settles, Drive;
    var o, now := EndOutcome(f.tracer, mid), kept && Kept(f.tracer, mid);
    UnchangedExactly(f.tracer, mid);
    SettledSettles(ctx, next, now, o, plain);
    paths := [];
    if EndingOf(f.tracer, mid).Told? {
      if f.tracer.Shared? {
        StepThen(ctx, Point(Reporting(f, o), next, now), [], paths, o, plain);
        paths := [[]] + paths;
      }
      StepThen(ctx, Point(Closing(f, o, false), next, now), [], paths, o, plain);
      paths := [[]] + paths;
    }
    StepThen(ctx, Point(Open(f, Settled(mid)), next, kept), [], paths, o, plain);
    paths := [[]] + paths;
  }

  function AllReady(ps: seq<Prog>): (ts: seq<Task>)
    ensures |ts| == |ps|
  {
    seq(|ps|, i requires 0 <= i < |ps| => Ready(ps[i]))
  }

  lemma {:induction false} RealiseAll(ctx: Ambient, ps: seq<Prog>, d: Deriv, o: Outcome, next: nat, kept: bool,
        plain: bool)
    returns (paths: seq<seq<nat>>)
    requires Observed(All(ps), ctx.stores.Keys, d, o) && (plain ==> Unchanged(All(ps), ctx.stores.Keys, d))
    ensures Settles(ctx, Point(Joining(AllReady(ps), None), next, kept), paths, o, plain)
    decreases d, 1
  {
    var n := |ps|;
    var mid;
    if o.Threw? {
      paths, mid := RealiseThrow(ctx, ps, d, o, next, kept, plain);
    } else {
      paths, mid := RealiseBranches(ctx, ps, d, n, next, kept, plain);
      var done := mid.task.branches;
      assert AllReturned(done) && Results(done) == o.value.items;
    }
    SettledSettles(ctx, mid.next, mid.kept, o, plain);
    StepThen(ctx, mid, [n], [], o, plain);
    assert [[n]] + [] == [[n]];
    DriveThen(ctx, Point(Joining(AllReady(ps), None), next, kept), paths, [[n]], o, plain);
    paths := paths + [[n]];
  }

  // A group that throws: the branch with that error goes first, and the others are left behind.
  lemma {:induction false} RealiseThrow(ctx: Ambient, ps: seq<Prog>, d: Deriv, o: Outcome, next: nat, kept: bool,
        plain: bool)
    returns (paths: seq<seq<nat>>, mid: Point)
    requires Observed(All(ps), ctx.stores.Keys, d, o) && (plain ==> Unchanged(All(ps), ctx.stores.Keys, d)) && o.Threw?
    ensures Drive(ctx, Point(Joining(AllReady(ps), None), next, kept), paths) == Some(mid)
    ensures mid.task.Joining? && |mid.task.branches| == |ps| && mid.task.rejection == Some(o.error)
    ensures plain && kept ==> mid.kept
    decreases d, 0
  {
    var bs := AllReady(ps);
    var i :| 0 <= i < |ps| && !d.branches[i].Cut? && d.outcomes[i] == o;
    var a := Realise(ctx, ps[i], d.branches[i], o, next, kept, plain);
    InBranch(ctx, bs, None, next, kept, i, a);
    var end := Drive(ctx, Point(bs[i], next, kept), a).value;
    paths, mid := Into(i, a), end.(task := Joining(bs[i := Settled(o)], Some(o.error)));
  }

  lemma {:induction false} BranchReturns(ctx: Ambient, bs: seq<Task>, next: nat, kept: bool, i: nat,
        paths: seq<seq<nat>>, o: Outcome, plain: bool)
    returns (mid: Point)
    requires i < |bs| && !bs[i].Settled? && o.Returned? && Settles(ctx, Point(bs[i], next, kept), paths, o, plain)
    ensures Drive(ctx, Point(Joining(bs, None), next, kept), Into(i, paths)) == Some(mid)
    ensures mid.task == Joining(bs[i := Settled(o)], None) && (plain && kept ==> mid.kept)
  {
    InBranch(ctx, bs, None, next, kept, i, paths);
    mid := Drive(ctx, Point(bs[i], next, kept), paths).value.(task := Joining(bs[i := Settled(o)], None));
  }

  // The first n branches have returned, the others have not started.
  ghost predicate DoneUpTo(ps: seq<Prog>, outcomes: seq<Outcome>, bs: seq<Task>, n: nat)
    requires |outcomes| == |ps|
  {
    |bs| == |ps| && forall i :: 0 <= i < |ps| ==> bs[i] == if i < n then Settled(outcomes[i]) else Ready(ps[i])
  }

  lemma {:induction false} OneMoreDone(ps: seq<Prog>, outcomes: seq<Outcome>, bs: seq<Task>, n: nat)
    requires |outcomes| == |ps| && 0 < n <= |ps| && DoneUpTo(ps, outcomes, bs, n - 1)
    ensures |bs| == |ps| && bs[n - 1] == Ready(ps[n - 1])
            && DoneUpTo(ps, outcomes, bs[n - 1 := Settled(outcomes[n - 1])], n)
  {
  }

  // The first n branches of a group that returns, one after the other.
  lemma {:induction false} RealiseBranches(ctx: Ambient, ps: seq<Prog>, d: Deriv, n: nat, next: nat, kept: bool,
        plain: bool)
    returns (paths: seq<seq<nat>>, mid: Point)
    requires d.Fork? && |d.branches| == |ps| == |d.outcomes| && n <= |ps|
    requires forall i :: 0 <= i < |ps| ==>
               Observed(ps[i], ctx.stores.Keys, d.branches[i], d.outcomes[i]) && d.outcomes[i].Returned?
    requires plain ==> forall i :: 0 <= i < |ps| ==> Unchanged(ps[i], ctx.stores.Keys, d.branches[i])
    ensures Drive(ctx, Point(Joining(AllReady(ps), None), next, kept), paths) == Some(mid)
    ensures mid.task.Joining? && mid.task.rejection.None? && DoneUpTo(ps, d.outcomes, mid.task.branches, n)
    ensures plain && kept ==> mid.kept
    decreases d, 0, n
  {
    if n == 0 {
      paths, mid := [], Point(Joining(AllReady(ps), None), next, kept);
    } else {
      hide Advance, Drive, Observed, Unchanged, DoneUpTo, Into, AllReady;
      var before, here := RealiseBranches(ctx, ps, d, n - 1, next, kept, plain);
      var bs, o := here.task.branches, d.outcomes[n - 1];
      OneMoreDone(ps, d.outcomes, bs, n);
      var a := Realise(ctx, ps[n - 1], d.branches[n - 1], o, here.next, here.kept, plain);
      mid := BranchReturns(ctx, bs, here.next, here.kept, n - 1, a, o, plain);
      DriveOn(ctx, Point(Joining(AllReady(ps), None), next, kept), before, Into(n - 1, a));
      paths := before + Into(n - 1, a);
    }
  }

  // ---- Drives of the main task are schedules ----

  lemma {:induction false} MainStep(c: Config, path: seq<nat>, e: Effect)
    requires Calm(Outside, c.main, path, c.next) == Some(e)
    ensures var d := Next(c, Move(0, path, Done));
            d.main == e.task && d.next == e.next && d.ends == c.ends + ToSeq(e.end)
  {
  }

  lemma {:induction false} DriveMain(p: Prog, moves: seq<Move>, kept: bool, paths: seq<seq<nat>>)
    returns (all: seq<Move>)
    requires AllContained(moves) && (kept ==> AllKept(Exec(p, moves).ends))
    requires Drive(Outside, Point(Exec(p, moves).main, Exec(p, moves).next, kept), paths).Some?
    ensures AllContained(all)
    ensures var end := Drive(Outside, Point(Exec(p, moves).main, Exec(p, moves).next, kept), paths).value;
            Exec(p, all).main == end.task && (end.kept ==> AllKept(Exec(p, all).ends))
    decreases |paths|
  {
    all := moves;
    if paths != [] {
      var c, m := Exec(p, moves), Move(0, paths[0], Done);
      var e := Calm(Outside, c.main, paths[0], c.next).value;
      MainStep(c, paths[0], e);
      ExecSnoc(p, moves, m);
      all := DriveMain(p, moves + [m], kept && EndKept(e.end), paths[1..]);
    }
  }

  lemma {:induction false} Scheduled(p: Prog, d: Deriv, o: Outcome, plain: bool) returns (moves: seq<Move>)
    requires Observed(p, {}, d, o) && (plain ==> Unchanged(p, {}, d))
    ensures AllContained(moves) && Exec(p, moves).main == Settled(o) && (plain ==> AllKept(Exec(p, moves).ends))
  {
    assert Outside.stores.Keys == {};
    var paths := Realise(Outside, p, d, o, 0, true, plain);
    assert Exec(p, []) == Initial(p);
    moves := DriveMain(p, [], true, paths);
  }

  // The outcomes the instrumented program can settle with, over all schedules and all contained failures of writes and
  // prints, are those of its big-step meaning.
  lemma {:induction false} SameOutcomes(p: Prog, o: Outcome)
    ensures (exists moves :: AllContained(moves) && Exec(p, moves).main == Settled(o))
            <==> (exists d :: Observed(p, {}, d, o))
  {
    if moves :| AllContained(moves) && Exec(p, moves).main == Settled(o) {
      OutcomeIsObserved(p, moves);
    }
    if d :| Observed(p, {}, d, o) {
      var moves := Scheduled(p, d, o, false);
    }
  }

  // Transparency: those of schedules on which every frame keeps its body's outcome are those the program has without
  // instrumentation, by a course of it on which that is so.
  lemma {:induction false} PlainOutcomes(p: Prog, o: Outcome)
    ensures (exists moves :: AllContained(moves) && AllKept(Exec(p, moves).ends)
                             && Exec(p, moves).main == Settled(o))
            <==> (exists d :: Yields(p, d, o) && Unchanged(p, {}, d))
  {
    if moves :| AllContained(moves) && AllKept(Exec(p, moves).ends) && Exec(p, moves).main == Settled(o) {
      OutcomeIsPlain(p, moves);
    }
    if d :| Yields(p, d, o) && Unchanged(p, {}, d) {
      TransparentExactly(p, {}, d, o);
      var moves := Scheduled(p, d, o, true);
    }
  }
}
