// Failing writes and prints: which failures the wrappers keep in, that these change nothing, and what the others do.
module ProtocolFailures {
  import opened Wrappers
  import opened Protocol
  import opened ProtocolLog
  import opened ProtocolSafety

  // ---- Failures that stay in ----

  lemma {:induction false} ContainedEscapesNot(tracer: Tracer, io: Io)
    ensures Contained(io) ==> Escape(tracer, io).None?
    ensures tracer.Inspector? && Escape(Shared, io).None? && Escape(tracer, io).None? ==> Contained(io)
  {
  }

  // A contained failure leads to the very same step as success: same task, same rows handed over,
  // same branches left behind.
  lemma {:induction false} ContainedIsSwallowed(ctx: Ambient, t: Task, path: seq<nat>, io: Io, next: nat)
    requires Contained(io)
    ensures Advance(ctx, t, path, io, next) == Advance(ctx, t, path, Done, next)
    decreases t
  {
    match t
    case Binding(first, _) => ContainedIsSwallowed(ctx, first, path, io, next);
    case Open(f, inner) => ContainedIsSwallowed(Enter(ctx, f), inner, path, io, next);
    case Joining(bs, _) =>
      if path != [] && path[0] < |bs| {
        ContainedIsSwallowed(ctx, bs[path[0]], path[1..], io, next);
      }
    case _ =>
  }

  ghost predicate SameStep(ctx: Ambient, t: Task, path: seq<nat>, io: Io, next: nat) {
    Advance(ctx, t, path, io, next) == Advance(ctx, t, path, Done, next)
  }

  // And these are all the failures that never change a step.
  lemma {:induction false} SwallowedExactly(io: Io)
    ensures Contained(io) <==> forall ctx, t, path, next :: SameStep(ctx, t, path, io, next)
  {
    if Contained(io) {
      forall ctx, t, path, next
        ensures SameStep(ctx, t, path, io, next)
      {
        ContainedIsSwallowed(ctx, t, path, io, next);
      }
    } else {
      var tracer := if Escape(Shared, io).Some? then Shared else Watcher;
      var t := Closing(RunFrame(tracer, 0, ""), Returned(Atom(0)), true);
      ContainedEscapesNot(Watcher, io);
      assert Advance(Outside, t, [], io, 0).value.task == Settled(Threw(Escape(tracer, io).value));
      assert !SameStep(Outside, t, [], io, 0);
    }
  }

  // ---- Whole schedules ----

  predicate Subsequence<T(==)>(a: seq<T>, b: seq<T>) {
    if a == [] then true
    else if b == [] then false
    else if a[|a| - 1] == b[|b| - 1] then Subsequence(a[..|a| - 1], b[..|b| - 1])
    else Subsequence(a, b[..|b| - 1])
  }

  lemma {:induction false} SubsequenceSkip<T>(a: seq<T>, b: seq<T>, x: T)
    requires Subsequence(a, b)
    ensures Subsequence(a, b + [x])
    decreases |b|, 1
  {
    assert (b + [x])[..|b|] == b;
    if a != [] && a[|a| - 1] == x {
      SubsequenceFront(a, b);
    }
  }

  lemma {:induction false} SubsequenceFront<T>(a: seq<T>, b: seq<T>)
    requires Subsequence(a, b) && a != []
    ensures Subsequence(a[..|a| - 1], b)
    decreases |b|, 0
  {
    if b != [] {
      if a[|a| - 1] == b[|b| - 1] {
        SubsequenceSkip(a[..|a| - 1], b[..|b| - 1], b[|b| - 1]);
        assert b == b[..|b| - 1] + [b[|b| - 1]];
      } else {
        SubsequenceFront(a, b[..|b| - 1]);
        SubsequenceSkip(a[..|a| - 1], b[..|b| - 1], b[|b| - 1]);
        assert b == b[..|b| - 1] + [b[|b| - 1]];
      }
    }
  }

  lemma {:induction false} SubsequenceGrows<T>(a: seq<T>, b: seq<T>, x: Option<T>, kept: bool)
    requires Subsequence(a, b)
    ensures Subsequence(a + (if kept then ToSeq(x) else []), b + ToSeq(x))
  {
    if x.None? {
      assert a + [] == a && b + [] == b;
    } else if kept {
      assert (a + [x.value])[..|a|] == a && (b + [x.value])[..|b|] == b;
    } else {
      assert a + [] == a;
      SubsequenceSkip(a, b, x.value);
    }
  }

  function Reliable(moves: seq<Move>): (r: seq<Move>)
    ensures |r| == |moves|
  {
    seq(|moves|, i requires 0 <= i < |moves| => moves[i].(io := Done))
  }

  // Two configurations that differ only in what was stored and printed.
  ghost predicate Lags(c: Config, clean: Config) {
    && c == clean.(disk := c.disk, console := c.console)
    && clean.disk == clean.attempted
    && Subsequence(c.disk, clean.disk) && Subsequence(c.console, clean.console)
  }

  lemma {:induction false} SameMove(c: Config, clean: Config, m: Move)
    requires Lags(c, clean) && Contained(m.io)
    ensures Enabled(c, m) == Enabled(clean, m.(io := Done))
    ensures Enabled(c, m).Some? ==> m.thread <= |c.orphans|
  {
    hide Advance, Subsequence;
    assert Threads(c) == Threads(clean);
    if m.thread <= |c.orphans| {
      ContainedIsSwallowed(Threads(c)[m.thread].ctx, Threads(c)[m.thread].task, m.path, m.io, c.next);
    }
  }

  lemma {:induction false} NextLags(c: Config, clean: Config, m: Move)
    requires Lags(c, clean) && Contained(m.io)
    ensures Lags(Next(c, m), Next(clean, m.(io := Done)))
  {
    hide Advance, Subsequence;
    SameMove(c, clean, m);
    hide Enabled;
    if Enabled(c, m).Some? {
      var e := Enabled(c, m).value;
      SubsequenceGrows(c.disk, clean.disk, e.row, m.io.Done?);
      SubsequenceGrows(c.console, clean.console, e.line, m.io.Done?);
    }
  }

  // Contained failures, any number of them anywhere, change neither what the program does nor what it hands to the
  // writers: the same schedule with nothing failing reaches the same tasks. What is stored and printed is a subsequence
  // of what is stored and printed then.
  lemma {:induction false} FailuresDoNotSteer(p: Prog, moves: seq<Move>)
    requires AllContained(moves)
    ensures Lags(Exec(p, moves), Exec(p, Reliable(moves)))
  {
    if moves != [] {
      var front := moves[..|moves| - 1];
      FailuresDoNotSteer(p, front);
      assert Reliable(moves)[..|moves| - 1] == Reliable(front);
      NextLags(Exec(p, front), Exec(p, Reliable(front)), moves[|moves| - 1]);
    }
  }

  // ---- Failures that get out ----

  lemma {:induction false} ExecSnoc(p: Prog, moves: seq<Move>, m: Move)
    ensures Exec(p, moves + [m]) == Next(Exec(p, moves), m)
  {
    assert (moves + [m])[..|moves|] == moves;
  }

  // One move of the main task when there is no other.
  lemma {:induction false} MainMove(c: Config, io: Io, e: Effect)
    requires c.orphans == [] && Advance(Outside, c.main, [], io, c.next) == Some(e) && e.orphans == []
    ensures var d := Next(c, Move(0, [], io));
            && d.main == e.task && d.orphans == [] && d.next == e.next && d.attempted == c.attempted + ToSeq(e.row)
            && d.ends == c.ends + ToSeq(e.end)
  {
  }

  // A schedule of the main task alone, by how its writes and prints turn out.
  function Alone(ios: seq<Io>): seq<Move> {
    if ios == [] then [] else Alone(ios[..|ios| - 1]) + [Move(0, [], ios[|ios| - 1])]
  }

  lemma {:induction false} AloneStart(p: Prog)
    ensures Exec(p, Alone([])) == Initial(p)
  {
  }

  lemma {:induction false} AloneNext(p: Prog, ios: seq<Io>, io: Io, e: Effect)
    requires var c := Exec(p, Alone(ios));
             c.orphans == [] && Advance(Outside, c.main, [], io, c.next) == Some(e) && e.orphans == []
    ensures var c, d := Exec(p, Alone(ios)), Exec(p, Alone(ios + [io]));
            && d.main == e.task && d.orphans == [] && d.next == e.next && d.attempted == c.attempted + ToSeq(e.row)
            && d.ends == c.ends + ToSeq(e.end)
  {
    assert (ios + [io])[..|ios|] == ios;
    ExecSnoc(p, Alone(ios), Move(0, [], io));
    MainMove(Exec(p, Alone(ios)), io, e);
  }

  // An error of the writer whose message cannot be read.
  const BadError: Value := Strange([Quirks(Throws(Atom(7)), Throws(Atom(7)), Fine, Fine, Fine)], 0)

  const Bad: Io := Fails(BadError, None)

  const OneRun: Prog := Run(Shared, "run", true, Settle(Returned(Atom(1))))

  // It escapes the write of the start row: the call throws what describing it throws, and the body never runs.
  lemma {:induction false} EscapeSkipsTheBody() returns (moves: seq<Move>)
    ensures Finished(Exec(OneRun, moves))
    ensures Exec(OneRun, moves).main == Settled(Threw(Atom(7))) && Exec(OneRun, moves).ends == []
  {
    hide Exec, Alone;
    var p, body := OneRun, Settle(Returned(Atom(1)));
    var f := RunFrame(Shared, 0, "run");
    AloneStart(p);
    AloneNext(p, [], Done, Begin(Outside, p, 0));
    AloneNext(p, [] + [Done], Bad, WriteStart(f, body, Bad, 1));
    moves := Alone([] + [Done] + [Bad]);
  }

  const Watcher: Tracer := Inspector(0, false, false)

  const OneInspected: Prog := Run(Watcher, "run", true, Settle(Returned(Atom(1))))

  // Up to the write of the success row.
  lemma {:induction false} InspectedCloses()
    ensures var c := Exec(OneInspected, Alone([] + [Done] + [Done] + [Done] + [Done]));
            && c.main == Closing(RunFrame(Watcher, 0, "run"), Returned(Atom(1)), false)
            && c.orphans == [] && c.next == 1 && c.attempted == [RunStarted(0, "run")]
  {
    hide Exec, Alone;
    var p, body, out := OneInspected, Settle(Returned(Atom(1))), Returned(Atom(1));
    var f := RunFrame(Watcher, 0, "run");
    AloneStart(p);
    AloneNext(p, [], Done, Begin(Outside, p, 0));
    AloneNext(p, [] + [Done], Done, WriteStart(f, body, Done, 1));
    AloneNext(p, [] + [Done] + [Done], Done, Quiet(Open(f, Settled(out)), 1));
    AloneNext(p, [] + [Done] + [Done] + [Done], Done, EndBody(f, out, 1));
  }

  // It escapes the write of an inspector's success row: the run then has a second completion row,
  // for an error, and throws.
  lemma {:induction false} EscapeRepeatsTheEnd() returns (moves: seq<Move>)
    ensures Finished(Exec(OneInspected, moves)) && Exec(OneInspected, moves).main == Settled(Threw(Atom(7)))
    ensures Exec(OneInspected, moves).attempted == [RunStarted(0, "run"), RunCompleted(0, false), RunCompleted(0, true)]
  {
    hide Exec, Alone;
    var f := RunFrame(Watcher, 0, "run");
    InspectedCloses();
    var done := [] + [Done] + [Done] + [Done] + [Done];
    AloneNext(OneInspected, done, Bad, WriteEnd(f, Returned(Atom(1)), false, Bad, 1));
    AloneNext(OneInspected, done + [Bad], Done, WriteEnd(f, Threw(Atom(7)), true, Done, 1));
    moves := Alone(done + [Bad] + [Done]);
  }

  // ---- Values that cannot be described ----

  // An error whose message cannot be read: a run that throws it settles with what formatError throws,
  // and has no completion row.
  const BadThrow: Value := Strange([Quirks(Throws(Atom(8)), Throws(Atom(8)), Fine, Fine, Fine)], 0)

  const OneThrow: Prog := Run(Shared, "run", true, Settle(Threw(BadThrow)))

  lemma {:induction false} UndescribedErrorIsReplaced() returns (moves: seq<Move>)
    ensures AllContained(moves) && Finished(Exec(OneThrow, moves))
            && Exec(OneThrow, moves).main == Settled(Threw(Atom(8)))
    ensures Exec(OneThrow, moves).attempted == [RunStarted(0, "run")]
  {
    hide Exec, Alone, AllContained;
    var p, body, out := OneThrow, Settle(Threw(BadThrow)), Threw(BadThrow);
    var f := RunFrame(Shared, 0, "run");
    AloneStart(p);
    AloneNext(p, [], Done, Begin(Outside, p, 0));
    AloneNext(p, [] + [Done], Done, WriteStart(f, body, Done, 1));
    AloneNext(p, [] + [Done] + [Done], Done, PrintStart(f, body, Done, 1));
    AloneNext(p, [] + [Done] + [Done] + [Done], Done, Quiet(Open(f, Settled(out)), 1));
    AloneNext(p, [] + [Done] + [Done] + [Done] + [Done], Done, EndBody(f, out, 1));
    moves := Alone([] + [Done] + [Done] + [Done] + [Done] + [Done]);
    AloneContained([] + [Done] + [Done] + [Done] + [Done] + [Done]);
  }

  lemma {:induction false} AloneContained(ios: seq<Io>)
    requires forall i :: 0 <= i < |ios| ==> ios[i].Done?
    ensures AllContained(Alone(ios))
  {
    if ios != [] {
      AloneContained(ios[..|ios| - 1]);
    }
  }

  // A result whose constructor cannot be read, captured by an inspector: the run throws although its body returned, and
  // its row reports an error.
  const BadResult: Value := Strange([Quirks(Fine, Fine, Fine, Throws(Atom(9)), Fine)], 0)

  const Curious: Tracer := Inspector(0, true, false)

  const OneCaptured: Prog := Run(Curious, "run", true, Settle(Returned(BadResult)))

  lemma {:induction false} UndescribedResultBecomesError() returns (moves: seq<Move>)
    ensures AllContained(moves) && Finished(Exec(OneCaptured, moves))
            && Exec(OneCaptured, moves).main == Settled(Threw(Atom(9)))
    ensures Exec(OneCaptured, moves).attempted == [RunStarted(0, "run"), RunCompleted(0, true)]
  {
    hide Exec, Alone, AllContained;
    var p, body, out := OneCaptured, Settle(Returned(BadResult)), Returned(BadResult);
    var f := RunFrame(Curious, 0, "run");
    AloneStart(p);
    AloneNext(p, [], Done, Begin(Outside, p, 0));
    AloneNext(p, [] + [Done], Done, WriteStart(f, body, Done, 1));
    AloneNext(p, [] + [Done] + [Done], Done, Quiet(Open(f, Settled(out)), 1));
    AloneNext(p, [] + [Done] + [Done] + [Done], Done, EndBody(f, out, 1));
    AloneNext(p, [] + [Done] + [Done] + [Done] + [Done], Done, WriteEnd(f, Threw(Atom(9)), false, Done, 1));
    moves := Alone([] + [Done] + [Done] + [Done] + [Done] + [Done]);
    AloneContained([] + [Done] + [Done] + [Done] + [Done] + [Done]);
  }
}
