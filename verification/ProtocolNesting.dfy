// What a run or step encloses is completed before it is, unless a branch it left behind is still running.
module ProtocolNesting {
  import opened Wrappers
  import opened Counting
  import opened Protocol
  import opened ProtocolLog
  import opened ProtocolSafety
  import opened ProtocolRuns
  import opened ProtocolFailures

  // ---- Where frames are ----

  // How many frames of a task hold the id x and have a body that is running.
  function Around(t: Task, x: nat): nat
    decreases t
  {
    match t
    case Binding(first, _) => Around(first, x)
    case Open(f, inner) => Eq(f.id, x) + Around(inner, x)
    case Joining(bs, _) => AroundAll(bs, x)
    case _ => 0
  }

  function AroundAll(ts: seq<Task>, x: nat): nat
    decreases ts
  {
    if ts == [] then 0 else Around(ts[0], x) + AroundAll(ts[1..], x)
  }

  lemma {:induction false} AroundLive(t: Task, x: nat)
    ensures Around(t, x) <= Live(t, x)
    decreases t
  {
    match t
    case Binding(first, _) => AroundLive(first, x);
    case Open(_, inner) => AroundLive(inner, x);
    case Joining(bs, _) => AroundAllLive(bs, x);
    case _ =>
  }

  lemma {:induction false} AroundAllLive(ts: seq<Task>, x: nat)
    ensures AroundAll(ts, x) <= LiveAll(ts, x)
    decreases ts
  {
    if ts != [] {
      AroundLive(ts[0], x);
      AroundAllLive(ts[1..], x);
    }
  }

  // The frames noted around each frame when its id was allocated are those it is in.
  ghost predicate Placed(within: map<nat, seq<nat>>, ctx: Ambient, t: Task)
    decreases t
  {
    match t
    case Binding(first, _) => Placed(within, ctx, first)
    case Opening(f, _) => PlacedAt(within, ctx, f)
    case Printing(f, _) => PlacedAt(within, ctx, f)
    case Open(f, inner) => PlacedAt(within, ctx, f) && Placed(within, Enter(ctx, f), inner)
    case Closing(f, _, _) => PlacedAt(within, ctx, f)
    case Joining(bs, _) => forall i :: 0 <= i < |bs| ==> Placed(within, ctx, bs[i])
    case _ => true
  }

  ghost predicate PlacedAt(within: map<nat, seq<nat>>, ctx: Ambient, f: Frame) {
    f.id in within && within[f.id] == ctx.frames
  }

  ghost predicate AllPlaced(c: Config) {
    && (forall i :: 0 <= i < |Threads(c)| ==> Placed(c.within, Threads(c)[i].ctx, Threads(c)[i].task))
    && (forall x: nat :: x in c.within <==> x < c.next)
  }

  function Noted(within: map<nat, seq<nat>>, next: nat, e: Effect): map<nat, seq<nat>> {
    if e.next > next then within[next := e.within] else within
  }

  lemma {:induction false} PlacedGrows(within: map<nat, seq<nat>>, next: nat, e: Effect, ctx: Ambient, t: Task)
    requires Placed(within, ctx, t) && next !in within
    ensures Placed(Noted(within, next, e), ctx, t)
    decreases t
  {
    match t
    case Binding(first, _) => PlacedGrows(within, next, e, ctx, first);
    case Open(f, inner) => PlacedGrows(within, next, e, Enter(ctx, f), inner);
    case Joining(bs, _) =>
      forall i | 0 <= i < |bs|
        ensures Placed(Noted(within, next, e), ctx, bs[i])
      {
        PlacedGrows(within, next, e, ctx, bs[i]);
      }
    case _ =>
  }

  ghost predicate EffectPlaced(within: map<nat, seq<nat>>, next: nat, ctx: Ambient, e: Effect) {
    && Placed(Noted(within, next, e), ctx, e.task)
    && forall i :: 0 <= i < |e.orphans| ==> Placed(Noted(within, next, e), e.orphans[i].ctx, e.orphans[i].task)
  }

  lemma {:induction false} AdvancePlaced(within: map<nat, seq<nat>>, ctx: Ambient, t: Task, path: seq<nat>, io: Io,
        next: nat)
    requires Placed(within, ctx, t) && next !in within && Advance(ctx, t, path, io, next).Some?
    ensures EffectPlaced(within, next, ctx, Advance(ctx, t, path, io, next).value)
    decreases t
  {
    match t
    case Binding(first, _) =>
      if !first.Settled? {
        AdvancePlaced(within, ctx, first, path, io, next);
      }
    case Open(f, inner) =>
      if !inner.Settled? {
        AdvancePlaced(within, Enter(ctx, f), inner, path, io, next);
      }
    case Joining(bs, rejection) =>
      if path[0] < |bs| {
        AdvancePlaced(within, ctx, bs[path[0]], path[1..], io, next);
        BranchPlaced(within, ctx, bs, rejection, path, io, next);
      }
    case _ =>
  }

  lemma {:induction false} BranchPlaced(within: map<nat, seq<nat>>, ctx: Ambient, bs: seq<Task>,
        rejection: Option<Value>, path: seq<nat>, io: Io, next: nat)
    requires Placed(within, ctx, Joining(bs, rejection)) && next !in within && path != [] && path[0] < |bs|
    requires Advance(ctx, bs[path[0]], path[1..], io, next).Some?
    requires EffectPlaced(within, next, ctx, Advance(ctx, bs[path[0]], path[1..], io, next).value)
    ensures EffectPlaced(within, next, ctx, Advance(ctx, Joining(bs, rejection), path, io, next).value)
  {
    var e := Advance(ctx, bs[path[0]], path[1..], io, next).value;
    var moved := bs[path[0] := e.task];
    forall k | 0 <= k < |moved|
      ensures Placed(Noted(within, next, e), ctx, moved[k])
    {
      if k != path[0] {
        PlacedGrows(within, next, e, ctx, bs[k]);
      }
    }
  }

  lemma {:induction false} NextPlaced(c: Config, m: Move)
    requires AllPlaced(c)
    ensures AllPlaced(Next(c, m))
  {
    if Enabled(c, m).Some? {
      var e, t, d := Enabled(c, m).value, Threads(c)[m.thread], Next(c, m);
      AdvancePlaced(c.within, t.ctx, t.task, m.path, m.io, c.next);
      AdvanceConserves(t.ctx, t.task, m.path, m.io, c.next, 0);
      MovedTasks(c, m, e);
      var moved := Threads(c)[m.thread := Orphan(t.ctx, e.task)];
      hide Placed, Advance, Enabled, Conserves;
      assert d.within == Noted(c.within, c.next, e);
      forall i | 0 <= i < |moved|
        ensures Placed(d.within, moved[i].ctx, moved[i].task)
      {
        if i != m.thread {
          PlacedGrows(c.within, c.next, e, moved[i].ctx, moved[i].task);
        }
      }
    }
  }

  lemma {:induction false} ExecPlaced(p: Prog, moves: seq<Move>)
    ensures AllPlaced(Exec(p, moves))
  {
    if moves != [] {
      ExecPlaced(p, moves[..|moves| - 1]);
      NextPlaced(Exec(p, moves[..|moves| - 1]), moves[|moves| - 1]);
    }
  }

  // A live frame is inside every frame noted around it.
  lemma {:induction false} LiveInside(within: map<nat, seq<nat>>, ctx: Ambient, t: Task, x: nat, f: nat)
    requires Placed(within, ctx, t) && Live(t, x) > 0
    ensures x in within
    ensures f in within[x] ==> f in ctx.frames || Around(t, f) > 0
    decreases t
  {
    match t
    case Binding(first, _) => LiveInside(within, ctx, first, x, f);
    case Open(g, inner) =>
      if g.id != x {
        LiveInside(within, Enter(ctx, g), inner, x, f);
      }
    case Joining(bs, _) => LiveInsideAll(within, ctx, bs, x, f);
    case _ =>
  }

  lemma {:induction false} LiveInsideAll(within: map<nat, seq<nat>>, ctx: Ambient, ts: seq<Task>, x: nat, f: nat)
    requires (forall i :: 0 <= i < |ts| ==> Placed(within, ctx, ts[i])) && LiveAll(ts, x) > 0
    ensures x in within
    ensures f in within[x] ==> f in ctx.frames || AroundAll(ts, f) > 0
    decreases ts
  {
    if Live(ts[0], x) > 0 {
      LiveInside(within, ctx, ts[0], x, f);
    } else {
      LiveInsideAll(within, ctx, ts[1..], x, f);
    }
  }

  // ---- A frame with nothing running inside ----

  // No branch left behind by this frame, at whatever depth, is still running.
  predicate NothingLeftRunning(c: Config, f: nat) {
    forall i :: 0 <= i < |c.orphans| && f in c.orphans[i].ctx.frames ==> c.orphans[i].task.Settled?
  }

  // The frame has ended and nothing inside it can move any more.
  ghost predicate Over(c: Config, f: nat) {
    LiveAll(AllTasks(c), f) == 0 && f < c.next && NothingLeftRunning(c, f)
  }

  lemma {:induction false} ThreadLive(c: Config, i: nat, x: nat)
    requires i < |Threads(c)|
    ensures Live(Threads(c)[i].task, x) <= LiveAll(AllTasks(c), x)
  {
    LiveBranch(AllTasks(c), i, x);
  }

  // A step happens inside the frames of its stores and the frames around its place in the task.
  lemma {:induction false} EffectOutside(ctx: Ambient, t: Task, path: seq<nat>, io: Io, next: nat, f: nat)
    requires Advance(ctx, t, path, io, next).Some? && f !in ctx.frames && Around(t, f) == 0
    ensures var e := Advance(ctx, t, path, io, next).value;
            && f !in e.within
            && (forall i :: 0 <= i < |e.orphans| ==> f !in e.orphans[i].ctx.frames)
    decreases t
  {
    match t
    case Binding(first, _) =>
      if !first.Settled? {
        EffectOutside(ctx, first, path, io, next, f);
      }
    case Open(g, inner) =>
      if !inner.Settled? {
        EffectOutside(Enter(ctx, g), inner, path, io, next, f);
      }
    case Joining(bs, _) =>
      if path[0] < |bs| {
        AroundBranch(bs, path[0], f);
        EffectOutside(ctx, bs[path[0]], path[1..], io, next, f);
      }
    case _ =>
  }

  lemma {:induction false} AroundBranch(bs: seq<Task>, i: nat, f: nat)
    requires i < |bs|
    ensures Around(bs[i], f) <= AroundAll(bs, f)
  {
    if i > 0 {
      AroundBranch(bs[1..], i - 1, f);
    }
  }

  // A row is attempted by a live or repeating frame, or opens one.
  lemma {:induction false} RowOfFrame(within: map<nat, seq<nat>>, ctx: Ambient, t: Task, path: seq<nat>, io: Io,
        next: nat, f: nat)
    requires Placed(within, ctx, t) && f !in ctx.frames && Around(t, f) == 0
    requires Advance(ctx, t, path, io, next).Some? && Advance(ctx, t, path, io, next).value.row.Some?
    ensures var x := IdOf(Advance(ctx, t, path, io, next).value.row.value); x in within && f !in within[x]
    decreases t
  {
    match t
    case Binding(first, _) => RowOfFrame(within, ctx, first, path, io, next, f);
    case Open(g, inner) => RowOfFrame(within, Enter(ctx, g), inner, path, io, next, f);
    case Joining(bs, _) =>
      AroundBranch(bs, path[0], f);
      RowOfFrame(within, ctx, bs[path[0]], path[1..], io, next, f);
    case _ =>
  }

  // The run or step a row is about.
  function IdOf(r: Row): nat {
    match r
    case StepStarted(_, id, _, _) => id
    case StepCompleted(_, id, _) => id
    case RunStarted(id, _) => id
    case RunCompleted(id, _) => id
  }

  // Once over, always over; and no row is about anything inside the frame.
  lemma {:induction false} NextOver(c: Config, m: Move, f: nat)
    requires AllPlaced(c) && Over(c, f)
    ensures Over(Next(c, m), f)
    ensures Enabled(c, m).Some? ==>
              var e := Enabled(c, m).value;
              && (e.next > c.next ==> f !in e.within)
              && (e.row.Some? ==> IdOf(e.row.value) in c.within && f !in c.within[IdOf(e.row.value)])
  {
    if Enabled(c, m).Some? {
      var e, t := Enabled(c, m).value, Threads(c)[m.thread];
      ThreadLive(c, m.thread, f);
      AroundLive(t.task, f);
      EffectOutside(t.ctx, t.task, m.path, m.io, c.next, f);
      if e.row.Some? {
        RowOfFrame(c.within, t.ctx, t.task, m.path, m.io, c.next, f);
      }
      OverAfter(c, m, f, e);
    }
  }

  lemma {:induction false} NextGrows(ctx: Ambient, t: Task, path: seq<nat>, io: Io, next: nat)
    requires Advance(ctx, t, path, io, next).Some?
    ensures next <= Advance(ctx, t, path, io, next).value.next
  {
    AdvanceConserves(ctx, t, path, io, next, 0);
  }

  lemma {:induction false} OverAfter(c: Config, m: Move, f: nat, e: Effect)
    requires Over(c, f) && Enabled(c, m) == Some(e)
    requires forall i :: 0 <= i < |e.orphans| ==> f !in e.orphans[i].ctx.frames
    ensures Over(Next(c, m), f)
  {
    hide Enabled, Next, Live, LiveAll, Conserves, NothingLeftRunning, AllTasks;
    EnabledAdvances(c, m, e);
    var t := Threads(c)[m.thread];
    NextGrows(t.ctx, t.task, m.path, m.io, c.next);
    ThreadLive(c, m.thread, f);
    assert Live(t.task, f) == 0;
    EndsOnce(t.ctx, t.task, m.path, m.io, c.next, f);
    MovedSums(c, m, e, f);
    MovedCounts(c, m, e, f);
    StillSettled(c, m, e, f);
  }

  lemma {:induction false} EnabledAdvances(c: Config, m: Move, e: Effect)
    requires Enabled(c, m) == Some(e)
    ensures m.thread <= |c.orphans|
    ensures Advance(Threads(c)[m.thread].ctx, Threads(c)[m.thread].task, m.path, m.io, c.next) == Some(e)
  {
    hide Advance;
  }

  // A branch left behind that has settled stays so, and no new one is left behind inside f.
  lemma {:induction false} StillSettled(c: Config, m: Move, e: Effect, f: nat)
    requires NothingLeftRunning(c, f) && Enabled(c, m) == Some(e)
    requires forall i :: 0 <= i < |e.orphans| ==> f !in e.orphans[i].ctx.frames
    ensures NothingLeftRunning(Next(c, m), f)
  {
    MovedTasks(c, m, e);
    EnabledAdvances(c, m, e);
    assert !Threads(c)[m.thread].task.Settled?;
    hide Enabled, Next, Advance;
    var d := Next(c, m);
    forall i | 0 <= i < |d.orphans| && f in d.orphans[i].ctx.frames
      ensures d.orphans[i].task.Settled?
    {
      assert Threads(d)[i + 1] == d.orphans[i];
      assert i < |c.orphans| ==> Threads(c)[i + 1] == c.orphans[i];
    }
  }

  // A frame that is not live has no first completion row to attempt.
  lemma {:induction false} EndsOnce(ctx: Ambient, t: Task, path: seq<nat>, io: Io, next: nat, x: nat)
    requires Advance(ctx, t, path, io, next).Some? && Live(t, x) == 0 && x < next
    ensures var e := Advance(ctx, t, path, io, next).value; Live(e.task, x) == 0 && LiveAll(Tasks(e.orphans), x) == 0
    decreases t
  {
    AdvanceConserves(ctx, t, path, io, next, x);
    match t
    case Binding(first, _) =>
      if !first.Settled? {
        EndsOnce(ctx, first, path, io, next, x);
      }
    case Open(f, inner) =>
      if !inner.Settled? {
        EndsOnce(Enter(ctx, f), inner, path, io, next, x);
      }
    case Joining(bs, rejection) =>
      if path[0] < |bs| {
        LiveBranch(bs, path[0], x);
        EndsOnce(ctx, bs[path[0]], path[1..], io, next, x);
        AllUpdate(bs, path[0], Advance(ctx, bs[path[0]], path[1..], io, next).value.task, x);
      }
    case _ =>
  }

  // ---- Completion rows ----

  // A step that attempts a row leaves no branches behind, and one that attempts a completion row ends no other frame.
  lemma {:induction false} RowAlone(ctx: Ambient, t: Task, path: seq<nat>, io: Io, next: nat)
    requires Advance(ctx, t, path, io, next).Some? && Advance(ctx, t, path, io, next).value.row.Some?
    ensures var e := Advance(ctx, t, path, io, next).value;
            e.orphans == [] && e.next == next && (ClosedId(e.row.value).Some? ==> e.gone.None?)
    decreases t
  {
    match t
    case Binding(first, _) => RowAlone(ctx, first, path, io, next);
    case Open(f, inner) => RowAlone(Enter(ctx, f), inner, path, io, next);
    case Joining(bs, _) => RowAlone(ctx, bs[path[0]], path[1..], io, next);
    case _ =>
  }

  lemma {:induction false} ClosedIsNotLive(c: Config, x: nat)
    requires Accounted(c, x) && Closes(c.attempted, x) > 0
    ensures LiveAll(AllTasks(c), x) == 0 && x < c.next
  {
  }

  // A frame that completes with nothing left running is over.
  lemma {:induction false} CompletionIsOver(c: Config, m: Move, e: Effect, f: nat)
    requires Conserved(c) && Enabled(c, m) == Some(e) && e.row.Some? && ClosedId(e.row.value) == Some(f)
    requires NothingLeftRunning(c, f)
    ensures Over(Next(c, m), f)
  {
    var t := Threads(c)[m.thread];
    RowAlone(t.ctx, t.task, m.path, m.io, c.next);
    StillSettled(c, m, e, f);
    assert Accounted(c, f);
    NextConserves(c, m, f);
    MovedCounts(c, m, e, f);
    ClosedIsNotLive(Next(c, m), f);
  }

  // What is inside a frame that is over has its completion row or is gone.
  lemma {:induction false} InsideIsOver(c: Config, f: nat, x: nat)
    requires AllPlaced(c) && Over(c, f) && Accounted(c, x) && x in c.within && f in c.within[x]
    ensures Closes(c.attempted, x) > 0 || x in c.gone
  {
    if LiveAll(AllTasks(c), x) > 0 {
      var i := LiveThread(c, x);
      var t := Threads(c)[i];
      assert i > 0 ==> c.orphans[i - 1] == t;
      ThreadLive(c, i, f);
      AroundLive(t.task, f);
      LiveInside(c.within, t.ctx, t.task, x, f);
    } else {
      TimesIn(c.gone, x);
    }
  }

  lemma {:induction false} LiveThread(c: Config, x: nat) returns (i: nat)
    requires LiveAll(AllTasks(c), x) > 0
    ensures i < |Threads(c)| && Live(Threads(c)[i].task, x) > 0
  {
    i := LiveIndex(AllTasks(c), x);
  }

  lemma {:induction false} LiveIndex(ts: seq<Task>, x: nat) returns (i: nat)
    requires LiveAll(ts, x) > 0
    ensures i < |ts| && Live(ts[i], x) > 0
  {
    if Live(ts[0], x) > 0 {
      i := 0;
    } else {
      i := LiveIndex(ts[1..], x);
      i := i + 1;
    }
  }

  // From c to d nothing has happened inside the frame.
  ghost predicate Silent(c: Config, d: Config, f: nat) {
    && c.attempted <= d.attempted
    && (forall j :: |c.attempted| <= j < |d.attempted| ==>
          IdOf(d.attempted[j]) in d.within && f !in d.within[IdOf(d.attempted[j])])
    && (forall x :: x in c.within ==> x in d.within && d.within[x] == c.within[x])
    && (forall x :: x in d.within && f in d.within[x] ==> x in c.within)
  }

  lemma {:induction false} SilentNext(c: Config, d: Config, m: Move, f: nat)
    requires AllPlaced(d) && Over(d, f) && Silent(c, d, f)
    ensures Over(Next(d, m), f) && Silent(c, Next(d, m), f)
  {
    NextOver(d, m, f);
    hide Over, Placed;
    if Enabled(d, m).Some? {
      assert d.next !in d.within;
    }
  }

  // From a configuration on in which the frame is over.
  lemma {:induction false} NothingAfter(p: Prog, moves: seq<Move>, k: nat, f: nat)
    requires k <= |moves| && Over(Exec(p, moves[..k]), f)
    ensures Over(Exec(p, moves), f) && Silent(Exec(p, moves[..k]), Exec(p, moves), f)
    decreases |moves|
  {
    if k < |moves| {
      var front, m := moves[..|moves| - 1], moves[|moves| - 1];
      assert front[..k] == moves[..k];
      NothingAfter(p, front, k, f);
      ExecPlaced(p, front);
      SilentNext(Exec(p, moves[..k]), Exec(p, front), m, f);
    } else {
      assert moves[..k] == moves;
    }
  }

  // When a run or step hands over its first completion row and no branch it left behind is still running, all
  // that it encloses, steps and runs of any tracer at any depth, has completed before or is gone, and no
  // later row is about any of it.
  lemma {:induction false} CompletionsNested(p: Prog, moves: seq<Move>, k: nat, f: nat)
    requires k < |moves| && Enabled(Exec(p, moves[..k]), moves[k]).Some?
    requires Enabled(Exec(p, moves[..k]), moves[k]).value.row.Some?
    requires ClosedId(Enabled(Exec(p, moves[..k]), moves[k]).value.row.value) == Some(f)
    requires NothingLeftRunning(Exec(p, moves[..k]), f)
    ensures var c, d := Exec(p, moves[..k]), Exec(p, moves);
            && |c.attempted| < |d.attempted| && ClosedId(d.attempted[|c.attempted|]) == Some(f)
            && (forall j :: |c.attempted| < j < |d.attempted| ==>
                  IdOf(d.attempted[j]) in d.within && f !in d.within[IdOf(d.attempted[j])])
            && (forall x: nat :: x in d.within && f in d.within[x] && x != f ==>
                  Closes(c.attempted, x) > 0 || x in c.gone)
  {
    var c, m := Exec(p, moves[..k]), moves[k];
    var e := Enabled(c, m).value;
    ExecConserves(p, moves[..k]);
    ExecPlaced(p, moves[..k]);
    CompletionIsOver(c, m, e, f);
    assert Exec(p, moves[..k + 1]) == Next(c, m) by {
      ExecSnoc(p, moves[..k], m);
      assert moves[..k + 1] == moves[..k] + [m];
    }
    NothingAfter(p, moves, k + 1, f);
    hide Exec, NothingLeftRunning;
    forall x: nat | x in Next(c, m).within && f in Next(c, m).within[x] && x != f
      ensures Closes(c.attempted, x) > 0 || x in c.gone
    {
      InsideBefore(c, m, e, f, x);
    }
  }

  lemma {:induction false} InsideBefore(c: Config, m: Move, e: Effect, f: nat, x: nat)
    requires Conserved(c) && AllPlaced(c) && Enabled(c, m) == Some(e) && e.row.Some? && ClosedId(e.row.value) == Some(f)
             && x != f
    requires Over(Next(c, m), f) && x in Next(c, m).within && f in Next(c, m).within[x]
    ensures Closes(c.attempted, x) > 0 || x in c.gone
  {
    var t := Threads(c)[m.thread];
    RowAlone(t.ctx, t.task, m.path, m.io, c.next);
    NextPlaced(c, m);
    assert Accounted(c, x);
    NextConserves(c, m, x);
    InsideIsOver(Next(c, m), f, x);
    MovedCounts(c, m, e, x);
    assert c.gone + [] == c.gone;
  }

  // ---- What rows name encloses them ----

  // The run and the step a store holds are frames around the code that sees it.
  ghost predicate StoresEnclose(ctx: Ambient) {
    forall tracer :: tracer in ctx.stores ==> StoreEncloses(ctx.stores[tracer], ctx.frames)
  }

  ghost predicate StoreEncloses(s: Context, frames: seq<nat>) {
    s.runId in frames && (s.stepId.Some? ==> s.stepId.value in frames)
  }

  ghost predicate RowEnclosed(within: map<nat, seq<nat>>, r: Row) {
    r.StepStarted? ==>
      r.stepId in within && r.runId in within[r.stepId] && (r.parentId.Some? ==> r.parentId.value in within[r.stepId])
  }

  ghost predicate AllEnclosed(c: Config) {
    && (forall i :: 0 <= i < |Threads(c)| ==> StoresEnclose(Threads(c)[i].ctx))
    && (forall j :: 0 <= j < |c.attempted| ==> RowEnclosed(c.within, c.attempted[j]))
  }

  lemma {:induction false} EnterEncloses(ctx: Ambient, f: Frame)
    requires StoresEnclose(ctx)
    ensures StoresEnclose(Enter(ctx, f))
  {
    var inside := Enter(ctx, f);
    assert f.id in inside.frames && forall x :: x in ctx.frames ==> x in inside.frames;
    forall tracer | tracer in inside.stores
      ensures StoreEncloses(inside.stores[tracer], inside.frames)
    {
      if tracer in ctx.stores {
        assert StoreEncloses(ctx.stores[tracer], ctx.frames);
      }
    }
  }

  lemma {:induction false} EffectEnclosed(log: seq<Row>, within: map<nat, seq<nat>>, ctx: Ambient, t: Task,
        path: seq<nat>, io: Io, next: nat)
    requires TaskOk(log, ctx, t) && Placed(within, ctx, t) && StoresEnclose(ctx)
             && Advance(ctx, t, path, io, next).Some?
    ensures var e := Advance(ctx, t, path, io, next).value;
            && (e.row.Some? ==> RowEnclosed(within, e.row.value))
            && (forall i :: 0 <= i < |e.orphans| ==> StoresEnclose(e.orphans[i].ctx))
    decreases t
  {
    match t
    case Binding(first, _) =>
      if !first.Settled? {
        EffectEnclosed(log, within, ctx, first, path, io, next);
      }
    case Open(f, inner) =>
      if !inner.Settled? {
        EnterEncloses(ctx, f);
        EffectEnclosed(log, within, Enter(ctx, f), inner, path, io, next);
      }
    case Joining(bs, _) =>
      if path[0] < |bs| {
        EffectEnclosed(log, within, ctx, bs[path[0]], path[1..], io, next);
      }
    case Opening(f, _) =>
      if f.StepFrame? {
        assert StoreEncloses(ctx.stores[f.tracer], ctx.frames);
      }
    case _ =>
  }

  lemma {:induction false} NextEnclosed(c: Config, m: Move)
    requires Sound(c) && AllPlaced(c) && AllEnclosed(c)
    ensures AllEnclosed(Next(c, m))
  {
    if Enabled(c, m).Some? {
      var e, t, d := Enabled(c, m).value, Threads(c)[m.thread], Next(c, m);
      EffectEnclosed(c.attempted, c.within, t.ctx, t.task, m.path, m.io, c.next);
      MovedTasks(c, m, e);
      hide Advance, Enabled, Sound, Placed, StoresEnclose;
      assert c.next !in c.within;
      forall j | 0 <= j < |d.attempted|
        ensures RowEnclosed(d.within, d.attempted[j])
      {
        var r := d.attempted[j];
        assert RowEnclosed(c.within, r);
      }
    }
  }

  // The run and the parent in a step's start row are frames that enclose the step.
  lemma {:induction false} ExecEnclosed(p: Prog, moves: seq<Move>)
    ensures AllEnclosed(Exec(p, moves))
  {
    if moves == [] {
      assert Threads(Initial(p)) == [Orphan(Outside, Ready(p))];
    } else {
      var front := moves[..|moves| - 1];
      ExecEnclosed(p, front);
      ExecPlaced(p, front);
      ExecSound(p, front);
      NextEnclosed(Exec(p, front), moves[|moves| - 1]);
    }
  }

  // So under the same condition the completion row of a run is followed by no start row of a step of that run, and that
  // of a step by no start row of a child.
  lemma {:induction false} NoStartAfterCompletion(p: Prog, moves: seq<Move>, k: nat, f: nat)
    requires k < |moves| && Enabled(Exec(p, moves[..k]), moves[k]).Some?
    requires Enabled(Exec(p, moves[..k]), moves[k]).value.row.Some?
    requires ClosedId(Enabled(Exec(p, moves[..k]), moves[k]).value.row.value) == Some(f)
    requires NothingLeftRunning(Exec(p, moves[..k]), f)
    ensures var c, d := Exec(p, moves[..k]), Exec(p, moves);
            forall j :: |c.attempted| < j < |d.attempted| && d.attempted[j].StepStarted? ==>
              d.attempted[j].runId != f && d.attempted[j].parentId != Some(f)
  {
    CompletionsNested(p, moves, k, f);
    ExecEnclosed(p, moves);
    hide Exec, NothingLeftRunning, StoresEnclose, Enabled;
    var c, d := Exec(p, moves[..k]), Exec(p, moves);
    forall j | |c.attempted| < j < |d.attempted| && d.attempted[j].StepStarted?
      ensures d.attempted[j].runId != f && d.attempted[j].parentId != Some(f)
    {
      assert RowEnclosed(d.within, d.attempted[j]);
    }
  }

  // ---- A branch still running ----

  datatype Shot = Shot(main: Task, orphans: seq<Orphan>, next: nat, attempted: seq<Row>)

  function Look(c: Config): Shot {
    Shot(c.main, c.orphans, c.next, c.attempted)
  }

  function ThreadOf(s: Shot, i: nat): Orphan
    requires i <= |s.orphans|
  {
    if i == 0 then Orphan(Outside, s.main) else s.orphans[i - 1]
  }

  function After(s: Shot, i: nat, e: Effect): Shot
    requires i <= |s.orphans|
  {
    Shot(if i == 0 then e.task else s.main,
         (if i == 0 then s.orphans else s.orphans[i - 1 := Orphan(s.orphans[i - 1].ctx, e.task)]) + e.orphans,
         e.next, s.attempted + ToSeq(e.row))
  }

  lemma {:induction false} LookNext(p: Prog, moves: seq<Move>, thread: nat, path: seq<nat>, e: Effect)
    requires var s := Look(Exec(p, moves));
             && thread <= |s.orphans|
             && Advance(ThreadOf(s, thread).ctx, ThreadOf(s, thread).task, path, Done, s.next) == Some(e)
    ensures Look(Exec(p, moves + [Move(thread, path, Done)])) == After(Look(Exec(p, moves)), thread, e)
  {
    hide Exec, Advance, Next;
    ExecSnoc(p, moves, Move(thread, path, Done));
    LookMoved(Exec(p, moves), thread, path, e);
  }

  lemma {:induction false} LookMoved(c: Config, thread: nat, path: seq<nat>, e: Effect)
    requires thread <= |c.orphans|
    requires Advance(ThreadOf(Look(c), thread).ctx, ThreadOf(Look(c), thread).task, path, Done, c.next) == Some(e)
    ensures Look(Next(c, Move(thread, path, Done))) == After(Look(c), thread, e)
  {
    hide Advance;
  }

  // A run whose group rejects while one of its branches is inside a step, and which catches that.
  const LateBody: Prog := Settle(Returned(Atom(2)))

  const LateStep: Prog := Step(Watcher, "late", LateBody)

  const Thrower: Prog := Settle(Threw(Atom(1)))

  const Recover: Outcome -> Prog := (_: Outcome) => Settle(Returned(Atom(3)))

  const Group: Prog := All([Thrower, LateStep])

  const LateRun: Prog := Run(Watcher, "run", true, Bind(Group, Recover))

  const RunF: Frame := RunFrame(Watcher, 0, "run")

  const StepF: Frame := StepFrame(Watcher, 1, 0, None, 0, "late")

  function InGroup(first: Task, second: Task, rejection: Option<Value>): Task {
    Open(RunF, Binding(Joining([first, second], rejection), Recover))
  }

  const Rows1: seq<Row> := [RunStarted(0, "run")]

  const Rows2: seq<Row> := [RunStarted(0, "run"), StepStarted(0, 1, None, "late")]

  lemma {:induction false} InsideRun(t: Task, path: seq<nat>, next: nat)
    requires !t.Settled? && Advance(Enter(Outside, RunF), t, path, Done, next).Some?
    ensures var e := Advance(Enter(Outside, RunF), t, path, Done, next).value;
            Advance(Outside, Open(RunF, Binding(t, Recover)), path, Done, next)
            == Some(e.(task := Open(RunF, Binding(e.task, Recover))))
  {
  }

  lemma {:induction false} StepBegins()
    ensures Begin(Enter(Outside, RunF), LateStep, 1) == Quiet(Opening(StepF, LateBody), 2).(within := [0])
  {
    var ctx := Enter(Outside, RunF);
    assert ctx.frames == [0] && Watcher in ctx.stores && ctx.stores[Watcher] == Context(0, None, 0);
    var e := Begin(ctx, LateStep, 1);
    assert LateStep.Step? && LateStep.tracer == Watcher && LateStep.name == "late" && LateStep.body == LateBody;
    assert e.task == Opening(StepFrame(Watcher, 1, 0, None, 0, "late"), LateBody);
    assert e.next == 2;
    assert e.within == [0];
  }

  lemma {:induction false} GroupBegins()
    ensures Begin(Enter(Outside, RunF), Group, 1) == Quiet(Joining([Ready(Thrower), Ready(LateStep)], None), 1)
  {
    var ps := [Thrower, LateStep];
    assert Group == All(ps);
    var branches := Begin(Enter(Outside, RunF), Group, 1).task.branches;
    assert |branches| == 2 && branches[0] == Ready(ps[0]) && branches[1] == Ready(ps[1]);
    assert branches == [Ready(Thrower), Ready(LateStep)];
  }

  lemma {:induction false} GroupStarts() returns (moves: seq<Move>)
    ensures AllContained(moves)
    ensures Look(Exec(LateRun, moves)) == Shot(InGroup(Ready(Thrower), Ready(LateStep), None), [], 1, Rows1)
  {
    hide Exec;
    var p := LateRun;
    NoMoves(p);
    LookNext(p, [], 0, [], Begin(Outside, p, 0));
    moves := [] + [Move(0, [], Done)];
    LookNext(p, moves, 0, [], WriteStart(RunF, Bind(Group, Recover), Done, 1));
    moves := moves + [Move(0, [], Done)];
    LookNext(p, moves, 0, [], Quiet(Open(RunF, Binding(Ready(Group), Recover)), 1));
    moves := moves + [Move(0, [], Done)];
    GroupBegins();
    InsideRun(Ready(Group), [], 1);
    LookNext(p, moves, 0, [], Quiet(InGroup(Ready(Thrower), Ready(LateStep), None), 1));
    moves := moves + [Move(0, [], Done)];
  }

  lemma {:induction false} OneThrows() returns (moves: seq<Move>)
    ensures AllContained(moves)
    ensures Look(Exec(LateRun, moves))
            == Shot(InGroup(Settled(Threw(Atom(1))), Ready(LateStep), Some(Atom(1))), [], 1, [RunStarted(0, "run")])
  {
    hide Exec;
    var thrown := Settled(Threw(Atom(1)));
    moves := GroupStarts();
    assert [Ready(Thrower), Ready(LateStep)][0 := thrown] == [thrown, Ready(LateStep)];
    LookNext(LateRun, moves, 0, [0], Quiet(InGroup(thrown, Ready(LateStep), Some(Atom(1))), 1));
    moves := moves + [Move(0, [0], Done)];
  }

  // Up to the rejection of the group, with the step's body under way.
  lemma {:induction false} GroupRejects() returns (moves: seq<Move>)
    ensures AllContained(moves)
    ensures Look(Exec(LateRun, moves))
            == Shot(InGroup(Settled(Threw(Atom(1))), Open(StepF, Ready(LateBody)), Some(Atom(1))), [], 2, Rows2)
  {
    hide Exec;
    var p := LateRun;
    var thrown := Settled(Threw(Atom(1)));
    moves := OneThrows();
    StepBegins();
    assert [thrown, Ready(LateStep)][1 := Opening(StepF, LateBody)] == [thrown, Opening(StepF, LateBody)];
    InsideRun(Joining([thrown, Ready(LateStep)], Some(Atom(1))), [1], 1);
    LookNext(p, moves, 0, [1], Quiet(InGroup(thrown, Opening(StepF, LateBody), Some(Atom(1))), 2).(within := [0]));
    moves := moves + [Move(0, [1], Done)];
    assert [thrown, Opening(StepF, LateBody)][1 := Open(StepF, Ready(LateBody))]
           == [thrown, Open(StepF, Ready(LateBody))];
    LookNext(p, moves, 0, [1],
             Quiet(InGroup(thrown, Open(StepF, Ready(LateBody)), Some(Atom(1))), 2).(row := Some(StartRow(StepF))));
    moves := moves + [Move(0, [1], Done)];
  }

  lemma {:induction false} NoMoves(p: Prog)
    ensures Look(Exec(p, [])) == Shot(Ready(p), [], 0, [])
  {
  }

  // What the group leaves behind.
  function Leftover(second: Task): seq<Orphan> {
    [Orphan(Enter(Outside, RunF), Settled(Threw(Atom(1)))), Orphan(Enter(Outside, RunF), second)]
  }

  const Rows3: seq<Row> := Rows2 + [RunCompleted(0, false)]

  // The group is left, and the run completes.
  lemma {:induction false} RunCompletesFirst() returns (moves: seq<Move>)
    ensures AllContained(moves)
    ensures Look(Exec(LateRun, moves))
            == Shot(Settled(Returned(Atom(3))), Leftover(Open(StepF, Ready(LateBody))), 2, Rows3)
  {
    hide Exec;
    var p, left := LateRun, Leftover(Open(StepF, Ready(LateBody)));
    var thrown, running := Settled(Threw(Atom(1))), Open(StepF, Ready(LateBody));
    moves := GroupRejects();
    var joined := Join(Enter(Outside, RunF), [thrown, running], Some(Atom(1)), 2).value;
    assert joined.orphans == left;
    InsideRun(Joining([thrown, running], Some(Atom(1))), [2], 2);
    LookNext(p, moves, 0, [2], joined.(task := Open(RunF, Binding(thrown, Recover))));
    moves := moves + [Move(0, [2], Done)];
    assert [] + left == left && left + [] == left && Rows2 + [] == Rows2;
    LookNext(p, moves, 0, [], Quiet(Open(RunF, Ready(Recover(Threw(Atom(1))))), 2));
    moves := moves + [Move(0, [], Done)];
    LookNext(p, moves, 0, [], Quiet(Open(RunF, Settled(Returned(Atom(3)))), 2));
    moves := moves + [Move(0, [], Done)];
    LookNext(p, moves, 0, [], EndBody(RunF, Returned(Atom(3)), 2));
    moves := moves + [Move(0, [], Done)];
    LookNext(p, moves, 0, [], WriteEnd(RunF, Returned(Atom(3)), false, Done, 2));
    moves := moves + [Move(0, [], Done)];
  }

  // Without the condition nesting fails: the group is left, the run completes, and then the step inside it completes.
  lemma {:induction false} LateBranchBreaksNesting() returns (moves: seq<Move>)
    ensures Finished(Exec(LateRun, moves)) && AllContained(moves)
    ensures Exec(LateRun, moves).attempted == Rows2 + [RunCompleted(0, false), StepCompleted(0, 1, false)]
  {
    hide Exec;
    var p, out := LateRun, Returned(Atom(2));
    moves := RunCompletesFirst();
    LeftoverMoves(Open(StepF, Ready(LateBody)), Open(StepF, Settled(out)));
    LookNext(p, moves, 2, [], Quiet(Open(StepF, Settled(out)), 2));
    moves := moves + [Move(2, [], Done)];
    assert Rows3 + [] == Rows3;
    LeftoverMoves(Open(StepF, Settled(out)), Closing(StepF, out, false));
    LookNext(p, moves, 2, [], EndBody(StepF, out, 2));
    moves := moves + [Move(2, [], Done)];
    LeftoverMoves(Closing(StepF, out, false), Settled(out));
    LookNext(p, moves, 2, [], WriteEnd(StepF, out, false, Done, 2));
    moves := moves + [Move(2, [], Done)];
    assert Rows3 + [StepCompleted(0, 1, false)] == Rows2 + [RunCompleted(0, false), StepCompleted(0, 1, false)];
  }

  lemma {:induction false} LeftoverMoves(before: Task, after: Task)
    ensures Leftover(before)[1 := Orphan(Enter(Outside, RunF), after)] + [] == Leftover(after)
  {
  }
}
