// The telemetry integration object: its callbacks update fields and hand rows to a writer that may fail.
module AiSdkIntegration {
  import opened Wrappers
  import opened AiSdk

  class TelemetryIntegration {
    // Whether a writer was configured, and which of the rows handed to it, by position, it stores.
    const hasWriter: bool
    const accepts: nat -> bool

    var activeRun: Option<ActiveRun>
    var suspended: bool
    var lifecycleWarnings: nat
    var writeFailures: nat
    var closeFailures: nat
    var nextId: nat
    var stored: seq<Row>
    ghost var attempted: seq<Row>
    ghost var leaked: seq<nat>
    ghost var unopened: seq<nat>

    ghost function Abs(): State
      reads this
    {
      State(activeRun, suspended, nextId, lifecycleWarnings, closeFailures, attempted, leaked, unopened)
    }

    // The writer holds the rows it accepted, and every other row handed to it counts as a write failure.
    ghost predicate Delivered()
      reads this`stored, this`attempted, this`writeFailures
    {
      if hasWriter then
        stored == Accepted(accepts, attempted) && writeFailures + |stored| == |attempted|
      else
        stored == [] && writeFailures == 0
    }

    constructor (hasWriter: bool, accepts: nat -> bool)
      ensures this.hasWriter == hasWriter && this.accepts == accepts
      ensures Abs() == INITIAL && Delivered()
    {
      this.hasWriter := hasWriter;
      this.accepts := accepts;
      activeRun, suspended, nextId := None, false, 0;
      lifecycleWarnings, writeFailures, closeFailures := 0, 0, 0;
      stored, attempted, leaked, unopened := [], [], [], [];
    }

    method CreateId() returns (id: nat)
      modifies this`nextId
      ensures id == old(nextId) && nextId == old(nextId) + 1
    {
      id := nextId;
      nextId := nextId + 1;
    }

    // A failing write is counted and swallowed.
    method WriteRow(row: Row)
      requires Delivered()
      modifies this`attempted, this`stored, this`writeFailures
      ensures Delivered()
      ensures attempted == old(attempted) + [row]
    {
      ghost var k := |attempted|;
      AcceptedSnoc(accepts, attempted, row);
      if hasWriter {
        if accepts(writeFailures + |stored|) {
          stored := stored + [row];
        } else {
          writeFailures := writeFailures + 1;
        }
      }
      attempted := attempted + [row];
    }

    method RecordLifecycleWarning()
      modifies this`lifecycleWarnings
      ensures lifecycleWarnings == old(lifecycleWarnings) + 1
    {
      lifecycleWarnings := lifecycleWarnings + 1;
    }

    // Hands over a running row if the payload lets it be built; otherwise what is thrown is caught with a warning.
    method WriteRunningRow(row: Row, payload: Payload)
      requires Delivered()
      modifies this`attempted, this`stored, this`writeFailures, this`lifecycleWarnings, this`unopened
      ensures Delivered() && Abs() == WriteRunning(old(Abs()), row, payload)
    {
      if payload.NoRow? {
        unopened := unopened + [row.eventId];
        RecordLifecycleWarning();
        return;
      }
      WriteRow(row);
    }

    method TerminalizeActiveRun(status: RowStatus)
      requires Delivered()
      modifies this`attempted, this`stored, this`writeFailures, this`activeRun
      ensures Delivered()
      ensures Abs() == if old(activeRun).Some? then Terminalize(old(Abs()), status) else old(Abs())
    {
      hide Delivered;
      if activeRun.None? {
        return;
      }
      var run := activeRun.value;
      ghost var tools := ChildRows(run.runId, run.tools, TOOL, status);
      ghost var steps := ChildRows(run.runId, run.steps, LLM, status);
      for i := 0 to |run.tools|
        invariant Delivered() && activeRun == old(activeRun)
        invariant attempted == old(attempted) + tools[..i]
      {
        WriteRow(ChildRow(run.runId, run.tools[i], TOOL, status));
        assert tools[..i + 1] == tools[..i] + [tools[i]];
      }
      assert tools[..|run.tools|] == tools;
      for i := 0 to |run.steps|
        invariant Delivered() && activeRun == old(activeRun)
        invariant attempted == old(attempted) + tools + steps[..i]
      {
        WriteRow(ChildRow(run.runId, run.steps[i], LLM, status));
        assert steps[..i + 1] == steps[..i] + [steps[i]];
      }
      assert steps[..|run.steps|] == steps;
      WriteRow(RunRow(run, status));
      activeRun := None;
    }

    method OnStart(name: string, payload: Payload)
      requires Delivered()
      modifies this
      ensures Delivered() && Abs() == Start(old(Abs()), name, payload)
    {
      if activeRun.Some? || suspended {
        if activeRun.Some? {
          TerminalizeActiveRun(Error);
        }
        suspended := true;
        RecordLifecycleWarning();
        return;
      }
      var runId := CreateId();
      var eventId := CreateId();
      if payload.NoKey? {
        RecordLifecycleWarning();
        return;
      }
      var run := ActiveRun(runId, eventId, RunName(name), [], []);
      activeRun := Some(run);
      WriteRunningRow(RunRow(run, Running), payload);
    }

    method GetActiveRun() returns (run: Option<ActiveRun>)
      modifies this`lifecycleWarnings
      ensures run == if Usable(old(Abs())) then activeRun else None
      ensures Abs() == if Usable(old(Abs())) then old(Abs()) else Warn(old(Abs()))
    {
      if suspended {
        RecordLifecycleWarning();
        return None;
      }
      if activeRun.Some? {
        return activeRun;
      }
      RecordLifecycleWarning();
      return None;
    }

    method OnStepStart(stepNumber: int, payload: Payload)
      requires Delivered()
      modifies this
      ensures Delivered() && Abs() == StepStart(old(Abs()), stepNumber, payload)
    {
      hide Put, Find, Lost, ChildRow, Delivered;
      var active := GetActiveRun();
      if active.None? {
        return;
      }
      var run := active.value;
      var stepEventId := CreateId();
      if payload.NoKey? {
        RecordLifecycleWarning();
        return;
      }
      var step := Open(stepNumber, stepEventId, run.eventId, StepName(stepNumber));
      leaked := leaked + Lost(run.steps, stepNumber);
      activeRun := Some(run.(steps := Put(run.steps, step)));
      WriteRunningRow(ChildRow(run.runId, step, LLM, Running), payload);
    }

    method OnStepFinish(stepNumber: int, payload: Payload)
      requires Delivered()
      modifies this
      ensures Delivered() && Abs() == StepFinish(old(Abs()), stepNumber, payload)
    {
      hide Delete, Find, ChildRow, Delivered;
      var active := GetActiveRun();
      if active.None? {
        return;
      }
      var run := active.value;
      var i := Find(run.steps, stepNumber);
      if i == |run.steps| || !payload.Readable? {
        RecordLifecycleWarning();
        return;
      }
      WriteRow(ChildRow(run.runId, run.steps[i], LLM, Ok));
      activeRun := Some(run.(steps := Delete(run.steps, stepNumber)));
    }

    method OnToolCallStart(toolCallId: string, toolName: string, stepNumber: Option<int>, payload: Payload)
      requires Delivered()
      modifies this
      ensures Delivered() && Abs() == ToolStart(old(Abs()), toolCallId, toolName, stepNumber, payload)
    {
      hide Put, Find, Lost, ChildRow, Delivered;
      var active := GetActiveRun();
      if active.None? {
        return;
      }
      var run := active.value;
      var eventId := CreateId();
      var k := if stepNumber.Some? then Find(run.steps, stepNumber.value) else |run.steps|;
      var parentId := if k < |run.steps| then run.steps[k].eventId else run.eventId;
      if k == |run.steps| {
        RecordLifecycleWarning();
      }
      if payload.NoKey? {
        RecordLifecycleWarning();
        return;
      }
      var tool := Open(toolCallId, eventId, parentId, ToolName(toolName));
      leaked := leaked + Lost(run.tools, toolCallId);
      activeRun := Some(run.(tools := Put(run.tools, tool)));
      WriteRunningRow(ChildRow(run.runId, tool, TOOL, Running), payload);
    }

    method OnToolCallFinish(toolCallId: string, success: bool, payload: Payload)
      requires Delivered()
      modifies this
      ensures Delivered() && Abs() == ToolFinish(old(Abs()), toolCallId, success, payload)
    {
      hide Delete, Find, ChildRow, Delivered;
      var active := GetActiveRun();
      if active.None? {
        return;
      }
      var run := active.value;
      var i := Find(run.tools, toolCallId);
      if i == |run.tools| || !payload.Readable? {
        RecordLifecycleWarning();
        return;
      }
      WriteRow(ChildRow(run.runId, run.tools[i], TOOL, if success then Ok else Error));
      activeRun := Some(run.(tools := Delete(run.tools, toolCallId)));
    }

    method OnFinish(payload: Payload)
      requires Delivered()
      modifies this
      ensures Delivered() && Abs() == Finish(old(Abs()), payload)
    {
      hide Delivered, RunRow, EventIds;
      if suspended {
        suspended := false;
        return;
      }
      var active := GetActiveRun();
      if active.None? {
        return;
      }
      var run := active.value;
      if !payload.Readable? {
        RecordLifecycleWarning();
        return;
      }
      WriteRow(RunRow(run, Ok));
      leaked := leaked + EventIds(run.tools) + EventIds(run.steps);
      activeRun := None;
    }

    method Close(writerFails: bool)
      requires Delivered()
      modifies this
      ensures Delivered() && Abs() == CloseState(old(Abs()), writerFails)
    {
      if activeRun.Some? {
        TerminalizeActiveRun(Unknown);
      }
      if writerFails {
        closeFailures := closeFailures + 1;
      }
      activeRun := None;
      suspended := false;
    }
  }

  // The rows, among those handed over, that the writer stores.
  ghost function Accepted(accepts: nat -> bool, rows: seq<Row>): seq<Row> {
    if rows == [] then []
    else Accepted(accepts, rows[..|rows| - 1]) + (if accepts(|rows| - 1) then [rows[|rows| - 1]] else [])
  }

  lemma {:induction false} AcceptedSnoc(accepts: nat -> bool, rows: seq<Row>, row: Row)
    ensures Accepted(accepts, rows + [row]) == Accepted(accepts, rows) + (if accepts(|rows|) then [row] else [])
  {
    assert (rows + [row])[..|rows|] == rows;
  }

  ghost function AcceptedBefore(accepts: nat -> bool, k: nat): nat {
    if k == 0 then 0 else AcceptedBefore(accepts, k - 1) + (if accepts(k - 1) then 1 else 0)
  }

  // The rows stored are exactly those the writer takes, in the order they were handed over.
  lemma {:induction false} AcceptedInOrder(accepts: nat -> bool, rows: seq<Row>, k: nat)
    requires k < |rows|
    ensures |Accepted(accepts, rows)| == AcceptedBefore(accepts, |rows|)
    ensures accepts(k) ==>
              && AcceptedBefore(accepts, k) < |Accepted(accepts, rows)|
              && Accepted(accepts, rows)[AcceptedBefore(accepts, k)] == rows[k]
  {
    var front := rows[..|rows| - 1];
    if k < |front| {
      AcceptedInOrder(accepts, front, k);
    } else if front != [] {
      AcceptedInOrder(accepts, front, 0);
    }
  }

  method Deliver(integration: TelemetryIntegration, c: Callback)
    requires integration.Delivered()
    modifies integration
    ensures integration.Abs() == Handle(old(integration.Abs()), c) && integration.Delivered()
  {
    hide Start, StepStart, StepFinish, ToolStart, ToolFinish, Finish, CloseState;
    match c
    case OnStart(name, payload) => integration.OnStart(name, payload);
    case OnStepStart(n, payload) => integration.OnStepStart(n, payload);
    case OnStepFinish(n, payload) => integration.OnStepFinish(n, payload);
    case OnToolCallStart(id, toolName, inStep, payload) => integration.OnToolCallStart(id, toolName, inStep, payload);
    case OnToolCallFinish(id, success, payload) => integration.OnToolCallFinish(id, success, payload);
    case OnFinish(payload) => integration.OnFinish(payload);
    case Close(writerFails) => integration.Close(writerFails);
  }

  // A whole callback sequence drives the object exactly as it drives the state machine, whatever the writer does.
  method Drive(integration: TelemetryIntegration, cs: seq<Callback>)
    requires integration.Abs() == INITIAL && integration.Delivered()
    modifies integration
    ensures integration.Abs() == AiSdk.Run(cs) && integration.Delivered()
  {
    hide Handle;
    for i := 0 to |cs|
      invariant integration.Abs() == AiSdk.Run(cs[..i]) && integration.Delivered()
    {
      assert cs[..i + 1][..i] == cs[..i];
      Deliver(integration, cs[i]);
    }
    assert cs[..|cs|] == cs;
  }
}
