// The instrumentation protocol: user programs with runs and steps of any number of tracers
// under an arbitrary scheduler.
module Protocol {
  import opened Wrappers

  // A value of user code. A Strange one is one of a group of objects whose properties may throw when they are read.
  datatype Value =
    | Atom(n: int)
    | Tuple(items: seq<Value>)
    | Strange(objects: seq<Quirks>, at: nat)

  // For each way in which instrumentation describes a value, how that turns out.
  datatype Quirks = Quirks(format: Reading, normalize: Reading, persist: Reading, summary: Reading,
                           errorSummary: Reading)

  // It may throw another value, or an object of the same group, the one described included.
  datatype Reading = Fine | Throws(error: Value) | ThrowsObject(at: nat)

  datatype Outcome = Returned(value: Value) | Threw(error: Value)

  // What holds a store of its own: the module with inspectRun and step, or one inspector of createInspector with what
  // it captures of results and of errors.
  datatype Tracer = Shared | Inspector(id: nat, captureResults: bool, captureErrors: bool)

  // User code. `Bind` awaits its first part and goes on with whatever the outcome calls for, so it covers sequencing,
  // branching and try/catch; `All` is Promise.all over branches started together.
  datatype Prog =
    | Settle(outcome: Outcome)
    | Bind(first: Prog, next: Outcome -> Prog)
    | Step(tracer: Tracer, name: string, body: Prog)
    | Run(tracer: Tracer, name: string, enabled: bool, body: Prog)
    | All(branches: seq<Prog>)

  // What runWithContext and runWithStepContext push.
  datatype Context = Context(runId: nat, stepId: Option<nat>, depth: nat)

  // The ambient stores, at most one for each tracer, and the instrumented frames around the code, outermost first. The
  // frames are bookkeeping: no transition looks at them.
  datatype Ambient = Ambient(stores: map<Tracer, Context>, frames: seq<nat>)

  datatype Row =
    | RunStarted(runId: nat, name: string)
    | RunCompleted(runId: nat, failed: bool)
    | StepStarted(runId: nat, stepId: nat, parentId: Option<nat>, name: string)
    | StepCompleted(runId: nat, stepId: nat, failed: bool)

  // What is printed when a run or step starts, and when it is done.
  datatype Line = StepLine(runId: nat, stepId: nat, depth: nat) | RunLine(runId: nat) | EndLine(id: nat, failed: bool)

  // One call of a run or step, with what it captures from its tracer's store before its first await.
  datatype Frame =
    | StepFrame(tracer: Tracer, id: nat, runId: nat, parentId: Option<nat>, depth: nat, name: string)
    | RunFrame(tracer: Tracer, id: nat, name: string)

  function StartRow(f: Frame): Row {
    match f
    case StepFrame(_, id, runId, parentId, _, name) => StepStarted(runId, id, parentId, name)
    case RunFrame(_, id, name) => RunStarted(id, name)
  }

  function EndRow(f: Frame, result: Outcome): Row {
    match f
    case StepFrame(_, id, runId, _, _, _) => StepCompleted(runId, id, result.Threw?)
    case RunFrame(_, id, _) => RunCompleted(id, result.Threw?)
  }

  function StartLine(f: Frame): Line {
    match f
    case StepFrame(_, id, runId, _, depth, _) => StepLine(runId, id, depth)
    case RunFrame(_, id, _) => RunLine(id)
  }

  // A program in progress. A frame waits in turn for its start row, a print, its body, its completion row and more
  // prints; `again` marks a completion row that follows another one of the same frame.
  datatype Task =
    | Ready(prog: Prog)
    | Settled(outcome: Outcome)
    | Binding(first: Task, next: Outcome -> Prog)
    | Opening(frame: Frame, body: Prog)
    | Printing(frame: Frame, body: Prog)
    | Open(frame: Frame, inner: Task)
    | Closing(frame: Frame, result: Outcome, again: bool)
    | Reporting(frame: Frame, result: Outcome)
    | Joining(branches: seq<Task>, rejection: Option<Value>)

  // A branch that outlives the Promise.all that started it keeps the stores it was started in.
  datatype Orphan = Orphan(ctx: Ambient, task: Task)

  // ---- Operations that may throw ----

  // How a write or a print turns out: what it throws, and what console.warn throws when it reports that.
  datatype Io = Done | Fails(error: Value, warning: Option<Value>)

  // What a description throws, if it does.
  function Thrown(v: Value, reading: Quirks -> Reading): Option<Value> {
    if !v.Strange? || v.at >= |v.objects| then None
    else
      match reading(v.objects[v.at])
      case Fine => None
      case Throws(error) => Some(error)
      case ThrowsObject(k) => Some(Strange(v.objects, k))
  }

  // formatError reads the message and stack of an error, normalizeError of the inspector runtime its message.
  function FormatError(v: Value): Option<Value> {
    Thrown(v, (q: Quirks) => q.format)
  }

  function NormalizeError(v: Value): Option<Value> {
    Thrown(v, (q: Quirks) => q.normalize)
  }

  // toPersistedError reads message, name, code and status.
  function ToPersistedError(v: Value): Option<Value> {
    Thrown(v, (q: Quirks) => q.persist)
  }

  // summarizeValue reads length or constructor, and summarizeCapturedError the name of an error.
  function SummarizeValue(v: Value): Option<Value> {
    Thrown(v, (q: Quirks) => q.summary)
  }

  function SummarizeCapturedError(v: Value): Option<Value> {
    Thrown(v, (q: Quirks) => q.errorSummary)
  }

  // What gets out of the wrapper around a write or a print. safeInstrumentation catches what the operation
  // throws and warns about it; the inspector runtime catches it and counts it. Both describe the error,
  // outside of any further wrapper.
  function Escape(tracer: Tracer, io: Io): Option<Value> {
    match io
    case Done => None
    case Fails(error, warning) =>
      if tracer.Inspector? then NormalizeError(error)
      else if FormatError(error).Some? then FormatError(error)
      else warning
  }

  // What a frame makes of its body's outcome before it writes its completion row: the outcome to report, or what
  // describing it throws, and then there is no row.
  datatype Ending = Told(result: Outcome) | Untold(error: Value)

  // The catch block of a run or step.
  function Catching(tracer: Tracer, error: Value): Ending {
    match tracer
    case Shared => if FormatError(error).Some? then Untold(FormatError(error).value) else Told(Threw(error))
    case Inspector(_, _, captureErrors) =>
      if captureErrors && SummarizeCapturedError(error).Some? then Untold(SummarizeCapturedError(error).value)
      else if ToPersistedError(error).Some? then Untold(ToPersistedError(error).value)
      else Told(Threw(error))
  }

  // An inspector summarises a captured result inside the try block, so that what this throws is caught
  // like an error of the body.
  function EndingOf(tracer: Tracer, out: Outcome): Ending {
    match out
    case Threw(error) => Catching(tracer, error)
    case Returned(value) =>
      if tracer.Inspector? && tracer.captureResults && SummarizeValue(value).Some?
      then Catching(tracer, SummarizeValue(value).value)
      else Told(out)
  }

  // ---- Steps of a task ----

  // How the body of a frame ended.
  datatype End = End(id: nat, tracer: Tracer, outcome: Outcome)

  // What a step does besides moving the task: `within` are the frames around an id it allocates; `gone` is a frame that
  // ends without a completion row, `again` one that has a further completion row, `end` a body that has settled.
  datatype Effect = Effect(task: Task, next: nat, within: seq<nat>, row: Option<Row>, line: Option<Line>,
                           orphans: seq<Orphan>, gone: Option<nat>, again: Option<nat>, end: Option<End>)

  function Quiet(t: Task, next: nat): Effect {
    Effect(t, next, [], None, None, [], None, None, None)
  }

  // Without an active run the body of a step runs in the unchanged store.
  function Enter(ctx: Ambient, f: Frame): Ambient {
    var stores :=
      match f
      case StepFrame(tracer, id, _, _, _, _) =>
        if tracer in ctx.stores
        then ctx.stores[tracer := ctx.stores[tracer].(stepId := Some(id), depth := ctx.stores[tracer].depth + 1)]
        else ctx.stores
      case RunFrame(tracer, id, _) => ctx.stores[tracer := Context(id, None, 0)];
    Ambient(stores, ctx.frames + [f.id])
  }

  // Starting a piece of user code; `next` is the next fresh id.
  function Begin(ctx: Ambient, p: Prog, next: nat): Effect {
    match p
    case Settle(o) => Quiet(Settled(o), next)
    case Bind(first, k) => Quiet(Binding(Ready(first), k), next)
    case Step(tracer, name, body) =>
      if tracer !in ctx.stores then Quiet(Ready(body), next)
      else
        var c := ctx.stores[tracer];
        Quiet(Opening(StepFrame(tracer, next, c.runId, c.stepId, c.depth, name), body), next + 1).(within := ctx.frames)
    case Run(tracer, name, enabled, body) =>
      if enabled then Quiet(Opening(RunFrame(tracer, next, name), body), next + 1).(within := ctx.frames)
      else Quiet(Ready(body), next)
    case All(ps) => Quiet(Joining(seq(|ps|, i requires 0 <= i < |ps| => Ready(ps[i])), None), next)
  }

  // The start row. If a failure escapes, the call throws it and the body never runs.
  function WriteStart(f: Frame, body: Prog, io: Io, next: nat): Effect {
    var e := Quiet(if f.tracer.Shared? then Printing(f, body) else Open(f, Ready(body)), next)
      .(row := Some(StartRow(f)));
    match Escape(f.tracer, io)
    case None => e
    case Some(error) => e.(task := Settled(Threw(error)), gone := Some(f.id))
  }

  function PrintStart(f: Frame, body: Prog, io: Io, next: nat): Effect {
    var e := Quiet(Open(f, Ready(body)), next).(line := Some(StartLine(f)));
    match Escape(f.tracer, io)
    case None => e
    case Some(error) => e.(task := Settled(Threw(error)), gone := Some(f.id))
  }

  // The body has settled.
  function EndBody(f: Frame, out: Outcome, next: nat): Effect {
    var e := Quiet(Settled(out), next).(end := Some(End(f.id, f.tracer, out)));
    match EndingOf(f.tracer, out)
    case Told(result) => e.(task := Closing(f, result, false))
    case Untold(error) => e.(task := Settled(Threw(error)), gone := Some(f.id))
  }

  // The completion row. A failure that escapes the write of an inspector's success row lands in the catch block of the
  // body and is reported like an error of the body.
  function WriteEnd(f: Frame, result: Outcome, again: bool, io: Io, next: nat): Effect {
    var e := Quiet(if f.tracer.Shared? then Reporting(f, result) else Settled(result), next)
      .(row := Some(EndRow(f, result)), again := if again then Some(f.id) else None);
    match Escape(f.tracer, io)
    case None => e
    case Some(error) =>
      if f.tracer.Shared? || result.Threw? || again then e.(task := Settled(Threw(error)))
      else
        match Catching(f.tracer, error)
        case Told(caught) => e.(task := Closing(f, caught, true))
        case Untold(other) => e.(task := Settled(Threw(other)))
  }

  function PrintEnd(f: Frame, result: Outcome, io: Io, next: nat): Effect {
    var e := Quiet(Settled(result), next).(line := Some(EndLine(f.id, result.Threw?)));
    match Escape(f.tracer, io)
    case None => e
    case Some(error) => e.(task := Settled(Threw(error)))
  }

  predicate AllReturned(ts: seq<Task>) {
    forall i :: 0 <= i < |ts| ==> ts[i].Settled? && ts[i].outcome.Returned?
  }

  function Results(ts: seq<Task>): seq<Value>
    requires AllReturned(ts)
  {
    seq(|ts|, i requires 0 <= i < |ts| => ts[i].outcome.value)
  }

  // The end of a Promise.all: as soon as one branch has thrown, the others are left behind.
  function Join(ctx: Ambient, bs: seq<Task>, rejection: Option<Value>, next: nat): Option<Effect> {
    if rejection.Some? then
      Some(Quiet(Settled(Threw(rejection.value)), next)
             .(orphans := seq(|bs|, i requires 0 <= i < |bs| => Orphan(ctx, bs[i]))))
    else if AllReturned(bs) then Some(Quiet(Settled(Returned(Tuple(Results(bs)))), next))
    else None
  }

  function Rejection(rejection: Option<Value>, t: Task): Option<Value> {
    if rejection.None? && t.Settled? && t.outcome.Threw? then Some(t.outcome.error) else rejection
  }

  // One step of a task. `path` picks the branch to advance in each Promise.all on the way, `io` is how the write or
  // print turns out if the step is one.
  function Advance(ctx: Ambient, t: Task, path: seq<nat>, io: Io, next: nat): Option<Effect>
    decreases t
  {
    match t
    case Settled(_) => None
    case Ready(p) => Some(Begin(ctx, p, next))
    case Binding(first, k) =>
      if first.Settled? then Some(Quiet(Ready(k(first.outcome)), next))
      else
        (match Advance(ctx, first, path, io, next)
         case None => None
         case Some(e) => Some(e.(task := Binding(e.task, k))))
    case Opening(f, body) => Some(WriteStart(f, body, io, next))
    case Printing(f, body) => Some(PrintStart(f, body, io, next))
    case Open(f, inner) =>
      if inner.Settled? then Some(EndBody(f, inner.outcome, next))
      else
        (match Advance(Enter(ctx, f), inner, path, io, next)
         case None => None
         case Some(e) => Some(e.(task := Open(f, e.task))))
    case Closing(f, result, again) => Some(WriteEnd(f, result, again, io, next))
    case Reporting(f, result) => Some(PrintEnd(f, result, io, next))
    case Joining(bs, rejection) =>
      if path == [] then None
      else if path[0] < |bs| then
        (match Advance(ctx, bs[path[0]], path[1..], io, next)
         case None => None
         case Some(e) => Some(e.(task := Joining(bs[path[0] := e.task], Rejection(rejection, e.task)))))
      else Join(ctx, bs, rejection, next)
  }

  // ---- The whole process ----

  // The main task, branches left behind, and what has been recorded. `attempted` holds every row handed to a writer,
  // `disk` those that were stored. The rest is bookkeeping: the frames around each frame, the frames that ended without
  // a completion row or with a further one, and how the bodies ended.
  datatype Config = Config(main: Task, orphans: seq<Orphan>, next: nat, attempted: seq<Row>, disk: seq<Row>,
                           console: seq<Line>, within: map<nat, seq<nat>>, gone: seq<nat>, again: seq<nat>,
                           ends: seq<End>)

  // A scheduler choice, and how the write or print it leads to turns out.
  datatype Move = Move(thread: nat, path: seq<nat>, io: Io)

  function Record(c: Config, e: Effect, io: Io): Config {
    c.(orphans := c.orphans + e.orphans,
       next := e.next,
       attempted := c.attempted + ToSeq(e.row),
       disk := c.disk + (if io.Done? then ToSeq(e.row) else []),
       console := c.console + (if io.Done? then ToSeq(e.line) else []),
       within := if e.next > c.next then c.within[c.next := e.within] else c.within,
       gone := c.gone + ToSeq(e.gone),
       again := c.again + ToSeq(e.again),
       ends := c.ends + ToSeq(e.end))
  }

  const Outside: Ambient := Ambient(map[], [])

  // All tasks with their stores, the main task first.
  function Threads(c: Config): (r: seq<Orphan>)
    ensures |r| == |c.orphans| + 1
  {
    [Orphan(Outside, c.main)] + c.orphans
  }

  function Replace(c: Config, thread: nat, t: Task): Config
    requires thread <= |c.orphans|
  {
    if thread == 0 then c.(main := t)
    else c.(orphans := c.orphans[thread - 1 := Orphan(c.orphans[thread - 1].ctx, t)])
  }

  // What a move does, if it is enabled.
  function Enabled(c: Config, m: Move): Option<Effect> {
    if m.thread > |c.orphans| then None
    else Advance(Threads(c)[m.thread].ctx, Threads(c)[m.thread].task, m.path, m.io, c.next)
  }

  // A move that is not enabled changes nothing.
  function Next(c: Config, m: Move): Config {
    match Enabled(c, m)
    case None => c
    case Some(e) => Record(Replace(c, m.thread, e.task), e, m.io)
  }

  function Initial(p: Prog): Config {
    Config(Ready(p), [], 0, [], [], [], map[], [], [], [])
  }

  function Exec(p: Prog, moves: seq<Move>): Config {
    if moves == [] then Initial(p) else Next(Exec(p, moves[..|moves| - 1]), moves[|moves| - 1])
  }

  predicate Finished(c: Config) {
    c.main.Settled? && forall i :: 0 <= i < |c.orphans| ==> c.orphans[i].task.Settled?
  }

  // A failure that the wrappers keep in: its error can be described, and warning about it does not throw.
  predicate Contained(io: Io) {
    io.Fails? ==> FormatError(io.error).None? && NormalizeError(io.error).None? && io.warning.None?
  }

  predicate AllContained(moves: seq<Move>) {
    forall i :: 0 <= i < |moves| ==> Contained(moves[i].io)
  }
}
