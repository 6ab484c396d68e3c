// The AI SDK telemetry lifecycle as a state machine over serialised callbacks.
module AiSdk {
  import opened Wrappers

  datatype Kind = RUN | LLM | TOOL

  datatype RowStatus = Running | Ok | Error | Unknown

  datatype Name = RunName(name: string) | StepName(stepNumber: int) | ToolName(toolName: string)

  // A persisted row. A row is terminal unless its status is running.
  datatype Row = Row(eventId: nat, runId: nat, parentId: Option<nat>, kind: Kind, name: Name, status: RowStatus)

  // An open step or tool, under the key the SDK knows it by.
  datatype Open<K> = Open(key: K, eventId: nat, parentId: nat, name: Name)

  datatype ActiveRun = ActiveRun(runId: nat, eventId: nat, name: Name, steps: seq<Open<int>>, tools: seq<Open<string>>)

  // `attempted` holds every row handed to the writer wrapper, `leaked` the events that lost their open entry without a
  // terminal row, and `unopened` those that got an entry but no running row. None is looked at by the callbacks.
  datatype State = State(active: Option<ActiveRun>, suspended: bool, next: nat, lifecycleWarnings: nat,
                         closeFailures: nat, attempted: seq<Row>, leaked: seq<nat>, unopened: seq<nat>)

  // How reading the payload of a callback turns out: it may throw before the callback has touched its maps, or only
  // while the row is built.
  datatype Payload = Readable | NoKey | NoRow

  datatype Callback =
    | OnStart(name: string, payload: Payload)
    | OnStepStart(stepNumber: int, payload: Payload)
    | OnStepFinish(stepNumber: int, payload: Payload)
    | OnToolCallStart(toolCallId: string, toolName: string, inStep: Option<int>, payload: Payload)
    | OnToolCallFinish(toolCallId: string, success: bool, payload: Payload)
    | OnFinish(payload: Payload)
    | Close(writerFails: bool)

  // ---- A JavaScript Map: insertion order, and re-setting a key keeps its place ----

  function Find<K(==)>(es: seq<Open<K>>, key: K): (i: nat)
    ensures i <= |es|
    ensures i < |es| ==> es[i].key == key
    ensures forall j :: 0 <= j < i ==> es[j].key != key
  {
    if es == [] then 0 else if es[0].key == key then 0 else 1 + Find(es[1..], key)
  }

  function Put<K(==)>(es: seq<Open<K>>, e: Open<K>): seq<Open<K>> {
    var i := Find(es, e.key);
    if i < |es| then es[i := e] else es + [e]
  }

  function Delete<K(==)>(es: seq<Open<K>>, key: K): seq<Open<K>> {
    var i := Find(es, key);
    if i < |es| then es[..i] + es[i + 1..] else es
  }

  // ---- Rows ----

  function RunRow(r: ActiveRun, status: RowStatus): Row {
    Row(r.eventId, r.runId, None, RUN, r.name, status)
  }

  function ChildRow<K>(runId: nat, e: Open<K>, kind: Kind, status: RowStatus): Row {
    Row(e.eventId, runId, Some(e.parentId), kind, e.name, status)
  }

  function ChildRows<K>(runId: nat, es: seq<Open<K>>, kind: Kind, status: RowStatus): (rs: seq<Row>)
    ensures |rs| == |es|
  {
    seq(|es|, i requires 0 <= i < |es| => ChildRow(runId, es[i], kind, status))
  }

  // Terminal rows for everything open: tools first, then steps, then the run.
  function Endings(r: ActiveRun, status: RowStatus): seq<Row> {
    ChildRows(r.runId, r.tools, TOOL, status) + ChildRows(r.runId, r.steps, LLM, status) + [RunRow(r, status)]
  }

  function EventIds<K>(es: seq<Open<K>>): (ids: seq<nat>)
    ensures |ids| == |es|
  {
    seq(|es|, i requires 0 <= i < |es| => es[i].eventId)
  }

  // ---- Transitions ----

  function Warn(s: State): State {
    s.(lifecycleWarnings := s.lifecycleWarnings + 1)
  }

  function Write(s: State, row: Row): State {
    s.(attempted := s.attempted + [row])
  }

  // Hands over a running row, if it can be built. What a callback throws is caught, with a warning.
  function WriteRunning(s: State, row: Row, payload: Payload): State {
    if payload.NoRow? then Warn(s.(unopened := s.unopened + [row.eventId])) else Write(s, row)
  }

  // Ends the active run: open tools first, then open steps, then the run.
  function Terminalize(s: State, status: RowStatus): State
    requires s.active.Some?
  {
    var r := s.active.value;
    s.(attempted := s.attempted + ChildRows(r.runId, r.tools, TOOL, status) + ChildRows(r.runId, r.steps, LLM, status)
                    + [RunRow(r, status)],
       active := None)
  }

  function Start(s: State, name: string, payload: Payload): State {
    if s.active.Some? || s.suspended then
      var t := if s.active.Some? then Terminalize(s, Error) else s;
      Warn(t.(suspended := true))
    else if payload.NoKey? then Warn(s.(next := s.next + 2))
    else
      var r := ActiveRun(s.next, s.next + 1, RunName(name), [], []);
      WriteRunning(s.(active := Some(r), next := s.next + 2), RunRow(r, Running), payload)
  }

  // getActiveRun: without a usable run the callback is ignored with a warning.
  predicate Usable(s: State) {
    !s.suspended && s.active.Some?
  }

  // The event that loses its entry when the key is set again.
  function Lost<K(==)>(es: seq<Open<K>>, key: K): seq<nat> {
    if Find(es, key) < |es| then [es[Find(es, key)].eventId] else []
  }

  function StepStart(s: State, n: int, payload: Payload): State {
    if !Usable(s) then Warn(s)
    else if payload.NoKey? then Warn(s.(next := s.next + 1))
    else
      var r, e := s.active.value, Open(n, s.next, s.active.value.eventId, StepName(n));
      WriteRunning(s.(active := Some(r.(steps := Put(r.steps, e))), next := s.next + 1,
                      leaked := s.leaked + Lost(r.steps, n)),
                   ChildRow(r.runId, e, LLM, Running), payload)
  }

  function StepFinish(s: State, n: int, payload: Payload): State {
    if !Usable(s) then Warn(s)
    else
      var r := s.active.value;
      var i := Find(r.steps, n);
      if i == |r.steps| || !payload.Readable? then Warn(s)
      else Write(s, ChildRow(r.runId, r.steps[i], LLM, Ok)).(active := Some(r.(steps := Delete(r.steps, n))))
  }

  function ToolStart(s: State, id: string, toolName: string, inStep: Option<int>, payload: Payload): State {
    if !Usable(s) then Warn(s)
    else
      var r := s.active.value;
      var k := if inStep.Some? then Find(r.steps, inStep.value) else |r.steps|;
      var e := Open(id, s.next, if k < |r.steps| then r.steps[k].eventId else r.eventId, ToolName(toolName));
      var t := if k < |r.steps| then s else Warn(s);
      if payload.NoKey? then Warn(t.(next := s.next + 1))
      else
        WriteRunning(t.(active := Some(r.(tools := Put(r.tools, e))), next := s.next + 1,
                        leaked := s.leaked + Lost(r.tools, id)),
                     ChildRow(r.runId, e, TOOL, Running), payload)
  }

  function ToolFinish(s: State, id: string, success: bool, payload: Payload): State {
    if !Usable(s) then Warn(s)
    else
      var r := s.active.value;
      var i := Find(r.tools, id);
      if i == |r.tools| || !payload.Readable? then Warn(s)
      else
        Write(s, ChildRow(r.runId, r.tools[i], TOOL, if success then Ok else Error))
          .(active := Some(r.(tools := Delete(r.tools, id))))
  }

  // Steps and tools still open when the generation finishes are dropped without a terminal row.
  function Finish(s: State, payload: Payload): State {
    if s.suspended then s.(suspended := false)
    else if s.active.None? || !payload.Readable? then Warn(s)
    else
      var r := s.active.value;
      Write(s, RunRow(r, Ok)).(active := None, leaked := s.leaked + EventIds(r.tools) + EventIds(r.steps))
  }

  function CloseState(s: State, writerFails: bool): State {
    var t := if s.active.Some? then Terminalize(s, Unknown) else s;
    t.(active := None, suspended := false, closeFailures := t.closeFailures + (if writerFails then 1 else 0))
  }

  function Handle(s: State, c: Callback): State {
    match c
    case OnStart(name, payload) => Start(s, name, payload)
    case OnStepStart(n, payload) => StepStart(s, n, payload)
    case OnStepFinish(n, payload) => StepFinish(s, n, payload)
    case OnToolCallStart(id, toolName, inStep, payload) => ToolStart(s, id, toolName, inStep, payload)
    case OnToolCallFinish(id, success, payload) => ToolFinish(s, id, success, payload)
    case OnFinish(payload) => Finish(s, payload)
    case Close(writerFails) => CloseState(s, writerFails)
  }

  const INITIAL := State(None, false, 0, 0, 0, [], [], [])

  function Run(cs: seq<Callback>): State {
    if cs == [] then INITIAL else Handle(Run(cs[..|cs| - 1]), cs[|cs| - 1])
  }
}
