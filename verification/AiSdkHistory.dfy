// What each callback hands over, told by the callbacks before it alone.
module AiSdkHistory {
  import opened Wrappers
  import opened AiSdk
  import opened AiSdkRuns

  // ---- Where a callback sequence has got to ----

  // No generation, the one that callback `start` began, or none until the overlapping one finishes.
  datatype Phase = Idle | Active(start: nat) | Suspended

  function PhaseOf(cs: seq<Callback>): Phase {
    if cs == [] then Idle
    else
      var before := PhaseOf(cs[..|cs| - 1]);
      match cs[|cs| - 1]
      case OnStart(_, payload) =>
        if !before.Idle? then Suspended else if payload.NoKey? then Idle else Active(|cs| - 1)
      case OnFinish(payload) => if before.Active? && !payload.Readable? then before else Idle
      case Close(_) => Idle
      case _ => before
  }

  // How many ids the callbacks have drawn, and so the next id.
  function Drawn(cs: seq<Callback>): nat {
    if cs == [] then 0
    else
      var front, c := cs[..|cs| - 1], cs[|cs| - 1];
      Drawn(front)
      + (if c.OnStart? && PhaseOf(front).Idle? then 2
         else if (c.OnStepStart? || c.OnToolCallStart?) && PhaseOf(front).Active? then 1
         else 0)
  }

  lemma {:induction false} StartIsPast(cs: seq<Callback>)
    ensures PhaseOf(cs).Active? ==> PhaseOf(cs).start < |cs| && cs[PhaseOf(cs).start].OnStart?
  {
    if cs != [] {
      StartIsPast(cs[..|cs| - 1]);
    }
  }

  // The id of the active run, and of its event.
  function RunIdOf(cs: seq<Callback>): nat
    requires PhaseOf(cs).Active?
  {
    StartIsPast(cs);
    Drawn(cs[..PhaseOf(cs).start])
  }

  function RunEventOf(cs: seq<Callback>): nat
    requires PhaseOf(cs).Active?
  {
    RunIdOf(cs) + 1
  }

  function RunNameOf(cs: seq<Callback>): Name
    requires PhaseOf(cs).Active?
  {
    StartIsPast(cs);
    RunName(cs[PhaseOf(cs).start].name)
  }

  // ---- Open steps and tools ----

  predicate StartsStep(cs: seq<Callback>, c: Callback, n: int) {
    c.OnStepStart? && c.stepNumber == n && !c.payload.NoKey? && PhaseOf(cs).Active?
  }

  predicate EndsStep(c: Callback, n: int) {
    c.OnStepFinish? && c.stepNumber == n && c.payload.Readable?
  }

  // Callback j is the last start of step n in the active run, and the step has not been finished since.
  ghost predicate StepOpen(cs: seq<Callback>, n: int, j: nat) {
    && j < |cs| && StartsStep(cs[..j], cs[j], n) && PhaseOf(cs[..j]) == PhaseOf(cs)
    && forall i :: j < i < |cs| ==> !StartsStep(cs[..i], cs[i], n) && !EndsStep(cs[i], n)
  }

  predicate StartsTool(cs: seq<Callback>, c: Callback, id: string) {
    c.OnToolCallStart? && c.toolCallId == id && !c.payload.NoKey? && PhaseOf(cs).Active?
  }

  predicate EndsTool(c: Callback, id: string) {
    c.OnToolCallFinish? && c.toolCallId == id && c.payload.Readable?
  }

  ghost predicate ToolOpen(cs: seq<Callback>, id: string, j: nat) {
    && j < |cs| && StartsTool(cs[..j], cs[j], id) && PhaseOf(cs[..j]) == PhaseOf(cs)
    && forall i :: j < i < |cs| ==> !StartsTool(cs[..i], cs[i], id) && !EndsTool(cs[i], id)
  }

  // The parent of a tool call that names a step: the event of that step if it is open, and else that of the run.
  ghost predicate ToolParent(cs: seq<Callback>, inStep: Option<int>, parent: nat)
    requires PhaseOf(cs).Active?
  {
    if inStep.Some? && exists j: nat :: StepOpen(cs, inStep.value, j) then
      forall j: nat :: StepOpen(cs, inStep.value, j) ==> parent == Drawn(cs[..j])
    else parent == RunEventOf(cs)
  }

  // ---- The rows ----

  // A row about the step that callback j started, and one about the tool call that it started.
  ghost predicate StepRow(cs: seq<Callback>, n: int, j: nat, status: RowStatus, row: Row)
    requires PhaseOf(cs).Active?
  {
    j <= |cs| && row == Row(Drawn(cs[..j]), RunIdOf(cs), Some(RunEventOf(cs)), LLM, StepName(n), status)
  }

  ghost predicate ToolRow(cs: seq<Callback>, j: nat, status: RowStatus, row: Row)
    requires PhaseOf(cs).Active?
  {
    && j < |cs| && cs[j].OnToolCallStart? && PhaseOf(cs[..j]).Active?
    && row == Row(Drawn(cs[..j]), RunIdOf(cs), row.parentId, TOOL, ToolName(cs[j].toolName), status)
    && row.parentId.Some? && ToolParent(cs[..j], cs[j].inStep, row.parentId.value)
  }

  // The row is about an open step or an open tool.
  ghost predicate AboutOpen(cs: seq<Callback>, status: RowStatus, row: Row)
    requires PhaseOf(cs).Active?
  {
    || (exists n, j: nat :: StepOpen(cs, n, j) && StepRow(cs, n, j, status, row))
    || (exists id, j: nat :: ToolOpen(cs, id, j) && ToolRow(cs, j, status, row))
  }

  ghost predicate StepCovered(cs: seq<Callback>, n: int, j: nat, status: RowStatus, rows: seq<Row>)
    requires PhaseOf(cs).Active?
  {
    exists k :: 0 <= k < |rows| && StepRow(cs, n, j, status, rows[k])
  }

  ghost predicate ToolCovered(cs: seq<Callback>, j: nat, status: RowStatus, rows: seq<Row>)
    requires PhaseOf(cs).Active?
  {
    exists k :: 0 <= k < |rows| && ToolRow(cs, j, status, rows[k])
  }

  // Rows that end all open tools and steps, and the run at last.
  ghost predicate ForcedRows(cs: seq<Callback>, status: RowStatus, rows: seq<Row>)
    requires PhaseOf(cs).Active?
  {
    && rows != []
    && rows[|rows| - 1] == Row(RunEventOf(cs), RunIdOf(cs), None, RUN, RunNameOf(cs), status)
    && (forall k :: 0 <= k < |rows| - 1 ==> AboutOpen(cs, status, rows[k]))
    && (forall n, j: nat :: StepOpen(cs, n, j) ==> StepCovered(cs, n, j, status, rows))
    && (forall id, j: nat :: ToolOpen(cs, id, j) ==> ToolCovered(cs, j, status, rows))
  }

  // What callback c hands over after cs.
  ghost predicate HandsOver(cs: seq<Callback>, c: Callback, rows: seq<Row>) {
    var active := PhaseOf(cs).Active?;
    match c
    case OnStart(name, payload) =>
      if active then ForcedRows(cs, Error, rows)
      else if PhaseOf(cs).Idle? && payload.Readable? then
        rows == [Row(Drawn(cs) + 1, Drawn(cs), None, RUN, RunName(name), Running)]
      else rows == []
    case OnStepStart(n, payload) =>
      if active && payload.Readable? then |rows| == 1 && StepRow(cs, n, |cs|, Running, rows[0]) else rows == []
    case OnStepFinish(n, payload) =>
      if active && payload.Readable? && exists j: nat :: StepOpen(cs, n, j) then
        |rows| == 1 && forall j: nat :: StepOpen(cs, n, j) ==> StepRow(cs, n, j, Ok, rows[0])
      else rows == []
    case OnToolCallStart(id, toolName, inStep, payload) =>
      if active && payload.Readable? then
        && |rows| == 1 && rows[0].parentId.Some? && ToolParent(cs, inStep, rows[0].parentId.value)
        && rows[0] == Row(Drawn(cs), RunIdOf(cs), rows[0].parentId, TOOL, ToolName(toolName), Running)
      else rows == []
    case OnToolCallFinish(id, success, payload) =>
      if active && payload.Readable? && exists j: nat :: ToolOpen(cs, id, j) then
        |rows| == 1 && forall j: nat :: ToolOpen(cs, id, j) ==> ToolRow(cs, j, if success then Ok else Error, rows[0])
      else rows == []
    case OnFinish(payload) =>
      if active && payload.Readable? then rows == [Row(RunEventOf(cs), RunIdOf(cs), None, RUN, RunNameOf(cs), Ok)]
      else rows == []
    case Close(_) => if active then ForcedRows(cs, Unknown, rows) else rows == []
  }

  // How many warnings callback c adds after cs.
  ghost function Warned(cs: seq<Callback>, c: Callback): nat {
    var active := PhaseOf(cs).Active?;
    match c
    case OnStart(_, payload) => if PhaseOf(cs).Idle? && payload.Readable? then 0 else 1
    case OnStepStart(_, payload) => if active && payload.Readable? then 0 else 1
    case OnStepFinish(n, payload) =>
      if active && payload.Readable? && exists j: nat :: StepOpen(cs, n, j) then 0 else 1
    case OnToolCallStart(_, _, inStep, payload) =>
      if !active then 1
      else
        (if inStep.Some? && exists j: nat :: StepOpen(cs, inStep.value, j) then 0 else 1)
        + (if payload.Readable? then 0 else 1)
    case OnToolCallFinish(id, _, payload) =>
      if active && payload.Readable? && exists j: nat :: ToolOpen(cs, id, j) then 0 else 1
    case OnFinish(payload) => if PhaseOf(cs).Suspended? || (active && payload.Readable?) then 0 else 1
    case Close(_) => 0
  }

  // ---- Looking up a key ----

  function Found<K(==)>(es: seq<Open<K>>, key: K): Option<Open<K>> {
    if Find(es, key) < |es| then Some(es[Find(es, key)]) else None
  }

  lemma {:induction false} FindIs<K(!new)>(es: seq<Open<K>>, key: K, i: nat)
    requires i <= |es| && (i < |es| ==> es[i].key == key) && forall j :: 0 <= j < i ==> es[j].key != key
    ensures Find(es, key) == i
  {
  }

  lemma {:induction false} FoundAt<K(!new)>(es: seq<Open<K>>, i: nat)
    requires DistinctKeys(es) && i < |es|
    ensures Found(es, es[i].key) == Some(es[i])
  {
    FindIs(es, es[i].key, i);
  }

  lemma {:induction false} FoundAfterPut<K(!new)>(es: seq<Open<K>>, e: Open<K>, key: K)
    ensures Found(Put(es, e), key) == if key == e.key then Some(e) else Found(es, key)
  {
    var i, r := Find(es, e.key), Put(es, e);
    if key == e.key {
      FindIs(r, key, i);
    } else {
      var k := Find(es, key);
      FindIs(r, key, if k < |es| then k else |r|);
    }
  }

  lemma {:induction false} FoundAfterDelete<K(!new)>(es: seq<Open<K>>, gone: K, key: K)
    requires DistinctKeys(es)
    ensures Found(Delete(es, gone), key) == if key == gone then None else Found(es, key)
  {
    var i, r, k := Find(es, gone), Delete(es, gone), Find(es, key);
    if i < |es| {
      assert forall j :: 0 <= j < |r| ==> r[j] == if j < i then es[j] else es[j + 1];
      if key == gone {
        FindIs(r, key, |r|);
      } else {
        FindIs(r, key, if k == |es| then |r| else if k < i then k else k - 1);
      }
    }
  }

  // ---- One more callback ----

  lemma {:induction false} PhaseSnoc(cs: seq<Callback>, c: Callback)
    ensures PhaseOf(cs + [c]) ==
            match c
            case OnStart(_, payload) =>
              if !PhaseOf(cs).Idle? then Suspended else if payload.NoKey? then Idle else Active(|cs|)
            case OnFinish(payload) => if PhaseOf(cs).Active? && !payload.Readable? then PhaseOf(cs) else Idle
            case Close(_) => Idle
            case _ => PhaseOf(cs)
    ensures Drawn(cs + [c]) == Drawn(cs)
            + (if c.OnStart? && PhaseOf(cs).Idle? then 2
               else if (c.OnStepStart? || c.OnToolCallStart?) && PhaseOf(cs).Active? then 1
               else 0)
  {
    assert (cs + [c])[..|cs|] == cs;
  }

  lemma {:induction false} PrefixSnoc(cs: seq<Callback>, c: Callback, j: nat)
    requires j <= |cs|
    ensures (cs + [c])[..j] == cs[..j]
    ensures j < |cs| ==> (cs + [c])[j] == cs[j]
  {
  }

  lemma {:induction false} SameRun(cs: seq<Callback>, c: Callback)
    requires PhaseOf(cs).Active? && PhaseOf(cs + [c]) == PhaseOf(cs)
    ensures RunIdOf(cs + [c]) == RunIdOf(cs) && RunNameOf(cs + [c]) == RunNameOf(cs)
  {
    StartIsPast(cs);
    PrefixSnoc(cs, c, PhaseOf(cs).start);
  }

  // An active phase that was there before a callback was there ever since.
  lemma {:induction false} PhaseBack(cs: seq<Callback>, c: Callback, j: nat)
    requires j <= |cs| && PhaseOf(cs + [c]).Active? && PhaseOf(cs[..j]) == PhaseOf(cs + [c])
    ensures PhaseOf(cs) == PhaseOf(cs + [c])
  {
    PhaseSnoc(cs, c);
    StartIsPast(cs[..j]);
  }

  lemma {:induction false} StepOpenSnoc(cs: seq<Callback>, c: Callback, n: int, j: nat)
    requires PhaseOf(cs + [c]).Active?
    ensures StepOpen(cs + [c], n, j) <==>
            || (j == |cs| && StartsStep(cs, c, n))
            || (PhaseOf(cs + [c]) == PhaseOf(cs) && StepOpen(cs, n, j) && !StartsStep(cs, c, n) && !EndsStep(c, n))
  {
    var all := cs + [c];
    PhaseSnoc(cs, c);
    PrefixSnoc(cs, c, |cs|);
    if j < |cs| {
      hide StartsStep, PhaseOf;
      PrefixSnoc(cs, c, j);
      forall i | j < i < |cs|
        ensures all[..i] == cs[..i] && all[i] == cs[i]
      {
        PrefixSnoc(cs, c, i);
      }
      if StepOpen(all, n, j) {
        PhaseBack(cs, c, j);
      }
    }
  }

  lemma {:induction false} ToolOpenSnoc(cs: seq<Callback>, c: Callback, id: string, j: nat)
    requires PhaseOf(cs + [c]).Active?
    ensures ToolOpen(cs + [c], id, j) <==>
            || (j == |cs| && StartsTool(cs, c, id))
            || (PhaseOf(cs + [c]) == PhaseOf(cs) && ToolOpen(cs, id, j) && !StartsTool(cs, c, id) && !EndsTool(c, id))
  {
    var all := cs + [c];
    PhaseSnoc(cs, c);
    PrefixSnoc(cs, c, |cs|);
    if j < |cs| {
      hide StartsTool, PhaseOf;
      PrefixSnoc(cs, c, j);
      forall i | j < i < |cs|
        ensures all[..i] == cs[..i] && all[i] == cs[i]
      {
        PrefixSnoc(cs, c, i);
      }
      if ToolOpen(all, id, j) {
        PhaseBack(cs, c, j);
      }
    }
  }

  lemma {:induction false} OneOpen(cs: seq<Callback>, n: int, i: nat, j: nat)
    requires StepOpen(cs, n, i) && StepOpen(cs, n, j)
    ensures i == j
  {
  }

  lemma {:induction false} OneToolOpen(cs: seq<Callback>, id: string, i: nat, j: nat)
    requires ToolOpen(cs, id, i) && ToolOpen(cs, id, j)
    ensures i == j
  {
  }

  // ---- The maps of the active run ----

  ghost predicate StepListed(cs: seq<Callback>, found: Option<Open<int>>, n: int)
    requires PhaseOf(cs).Active?
  {
    match found
    case None => forall j: nat :: !StepOpen(cs, n, j)
    case Some(e) =>
      exists j: nat :: StepOpen(cs, n, j) && e == Open(n, Drawn(cs[..j]), RunEventOf(cs), StepName(n))
  }

  ghost predicate ToolListed(cs: seq<Callback>, found: Option<Open<string>>, id: string)
    requires PhaseOf(cs).Active?
  {
    match found
    case None => forall j: nat :: !ToolOpen(cs, id, j)
    case Some(e) =>
      exists j: nat ::
        && ToolOpen(cs, id, j) && e == Open(id, Drawn(cs[..j]), e.parentId, ToolName(cs[j].toolName))
        && ToolParent(cs[..j], cs[j].inStep, e.parentId)
  }

  ghost predicate RunAgrees(cs: seq<Callback>, r: ActiveRun)
    requires PhaseOf(cs).Active?
  {
    && r.runId == RunIdOf(cs) && r.eventId == RunEventOf(cs) && r.name == RunNameOf(cs)
    && (forall n :: StepListed(cs, Found(r.steps, n), n))
    && (forall id :: ToolListed(cs, Found(r.tools, id), id))
  }

  // The machine is where the callbacks say.
  ghost predicate Agrees(cs: seq<Callback>, s: State) {
    && s.next == Drawn(cs) && s.suspended == PhaseOf(cs).Suspended? && s.active.Some? == PhaseOf(cs).Active?
    && (PhaseOf(cs).Active? ==> RunAgrees(cs, s.active.value))
  }

  lemma {:induction false} FoundStep(cs: seq<Callback>, e: Open<int>, n: int) returns (j: nat)
    requires PhaseOf(cs).Active? && StepListed(cs, Some(e), n)
    ensures StepOpen(cs, n, j) && j < |cs| && e == Open(n, Drawn(cs[..j]), RunEventOf(cs), StepName(n))
  {
    var k: nat :| StepOpen(cs, n, k) && e == Open(n, Drawn(cs[..k]), RunEventOf(cs), StepName(n));
    j := k;
  }

  lemma {:induction false} FoundTool(cs: seq<Callback>, e: Open<string>, id: string) returns (j: nat)
    requires PhaseOf(cs).Active? && ToolListed(cs, Some(e), id)
    ensures ToolOpen(cs, id, j) && j < |cs| && cs[j].OnToolCallStart? && PhaseOf(cs[..j]).Active?
    ensures e == Open(id, Drawn(cs[..j]), e.parentId, ToolName(cs[j].toolName))
    ensures ToolParent(cs[..j], cs[j].inStep, e.parentId)
  {
    var k: nat :| ToolOpen(cs, id, k) && e == Open(id, Drawn(cs[..k]), e.parentId, ToolName(cs[k].toolName))
                  && ToolParent(cs[..k], cs[k].inStep, e.parentId);
    j := k;
  }

  lemma {:induction false} StepListedSnoc(cs: seq<Callback>, c: Callback, found: Option<Open<int>>, n: int)
    requires PhaseOf(cs).Active? && PhaseOf(cs + [c]) == PhaseOf(cs) && StepListed(cs, found, n)
    ensures StepListed(cs + [c],
                       if StartsStep(cs, c, n) then Some(Open(n, Drawn(cs), RunEventOf(cs), StepName(n)))
                       else if EndsStep(c, n) then None else found, n)
  {
    hide StepOpen, PhaseOf, Drawn;
    SameRun(cs, c);
    forall j: nat
      ensures StepOpen(cs + [c], n, j) <==>
                (j == |cs| && StartsStep(cs, c, n)) || (StepOpen(cs, n, j) && !StartsStep(cs, c, n) && !EndsStep(c, n))
    {
      StepOpenSnoc(cs, c, n, j);
    }
    if StartsStep(cs, c, n) {
      PrefixSnoc(cs, c, |cs|);
      assert StepOpen(cs + [c], n, |cs|);
    } else if found.Some? && !EndsStep(c, n) {
      var j := FoundStep(cs, found.value, n);
      PrefixSnoc(cs, c, j);
      assert StepOpen(cs + [c], n, j);
    }
  }

  lemma {:induction false} ToolListedSnoc(cs: seq<Callback>, c: Callback, found: Option<Open<string>>, id: string,
        parent: nat)
    requires PhaseOf(cs).Active? && PhaseOf(cs + [c]) == PhaseOf(cs) && ToolListed(cs, found, id)
    requires c.OnToolCallStart? ==> ToolParent(cs, c.inStep, parent)
    ensures ToolListed(cs + [c],
                       if StartsTool(cs, c, id) then Some(Open(id, Drawn(cs), parent, ToolName(c.toolName)))
                       else if EndsTool(c, id) then None else found, id)
  {
    hide ToolOpen, ToolParent, PhaseOf, Drawn;
    SameRun(cs, c);
    forall j: nat
      ensures ToolOpen(cs + [c], id, j) <==>
                || (j == |cs| && StartsTool(cs, c, id))
                || (ToolOpen(cs, id, j) && !StartsTool(cs, c, id) && !EndsTool(c, id))
    {
      ToolOpenSnoc(cs, c, id, j);
    }
    if StartsTool(cs, c, id) {
      PrefixSnoc(cs, c, |cs|);
      assert ToolOpen(cs + [c], id, |cs|);
    } else if found.Some? && !EndsTool(c, id) {
      var j := FoundTool(cs, found.value, id);
      PrefixSnoc(cs, c, j);
      assert ToolOpen(cs + [c], id, j);
    }
  }

  // ---- Each callback ----

  lemma {:induction false} PhaseNext(cs: seq<Callback>, s: State, c: Callback)
    requires Agrees(cs, s)
    ensures var t := Handle(s, c);
            && t.next == Drawn(cs + [c]) && t.suspended == PhaseOf(cs + [c]).Suspended?
            && t.active.Some? == PhaseOf(cs + [c]).Active?
  {
    hide RunAgrees, PhaseOf, Drawn, Put, Delete, Find;
    PhaseSnoc(cs, c);
  }

  // The parent the machine chooses for a tool call.
  function ChosenParent(r: ActiveRun, inStep: Option<int>): nat {
    if inStep.Some? && Found(r.steps, inStep.value).Some? then Found(r.steps, inStep.value).value.eventId else r.eventId
  }

  lemma {:induction false} ParentTold(cs: seq<Callback>, r: ActiveRun, inStep: Option<int>)
    requires PhaseOf(cs).Active? && RunAgrees(cs, r)
    ensures ToolParent(cs, inStep, ChosenParent(r, inStep))
    ensures inStep.Some? ==> (Found(r.steps, inStep.value).Some? <==> exists j: nat :: StepOpen(cs, inStep.value, j))
  {
    hide StepOpen, Found, ToolListed;
    if inStep.Some? {
      var n := inStep.value;
      assert StepListed(cs, Found(r.steps, n), n);
      if Found(r.steps, n).Some? {
        var j := FoundStep(cs, Found(r.steps, n).value, n);
        forall k: nat | StepOpen(cs, n, k)
          ensures k == j
        {
          OneOpen(cs, n, j, k);
        }
      }
    }
  }

  // What a callback does to the maps of a run that stays active.
  lemma {:induction false} StepsNext(s: State, c: Callback, n: int)
    requires Usable(s) && DistinctKeys(s.active.value.steps) && !c.OnStart? && Handle(s, c).active.Some?
    ensures Found(Handle(s, c).active.value.steps, n)
            == if c.OnStepStart? && c.stepNumber == n && !c.payload.NoKey? then
                 Some(Open(n, s.next, s.active.value.eventId, StepName(n)))
               else if EndsStep(c, n) then None else Found(s.active.value.steps, n)
  {
    hide Put, Delete, DistinctKeys;
    var r := s.active.value;
    match c
    case OnStepStart(m, payload) => FoundAfterPut(r.steps, Open(m, s.next, r.eventId, StepName(m)), n);
    case OnStepFinish(m, payload) => FoundAfterDelete(r.steps, m, n);
    case _ =>
  }

  lemma {:induction false} ToolsNext(s: State, c: Callback, id: string)
    requires Usable(s) && DistinctKeys(s.active.value.tools) && !c.OnStart? && Handle(s, c).active.Some?
    ensures Found(Handle(s, c).active.value.tools, id)
            == if c.OnToolCallStart? && c.toolCallId == id && !c.payload.NoKey? then
                 Some(Open(id, s.next, ChosenParent(s.active.value, c.inStep), ToolName(c.toolName)))
               else if EndsTool(c, id) then None else Found(s.active.value.tools, id)
  {
    hide Put, Delete, DistinctKeys;
    var r := s.active.value;
    match c
    case OnToolCallStart(m, toolName, inStep, payload) =>
      FoundAfterPut(r.tools, Open(m, s.next, ChosenParent(r, inStep), ToolName(toolName)), id);
    case OnToolCallFinish(m, _, payload) => FoundAfterDelete(r.tools, m, id);
    case _ =>
  }

  lemma {:induction false} RunStays(cs: seq<Callback>, s: State, c: Callback)
    requires Agrees(cs, s) && PhaseOf(cs).Active? && PhaseOf(cs + [c]) == PhaseOf(cs)
    ensures Usable(s) && !c.OnStart? && Handle(s, c).active.Some?
    ensures var r, t := s.active.value, Handle(s, c).active.value;
            && (t.runId, t.eventId, t.name) == (r.runId, r.eventId, r.name)
            && (r.runId, r.eventId, r.name) == (RunIdOf(cs), RunEventOf(cs), RunNameOf(cs))
  {
    hide StepListed, ToolListed, PhaseOf, Drawn, Put, Delete;
    PhaseSnoc(cs, c);
  }

  lemma {:induction false} FreshRunAgrees(cs: seq<Callback>, s: State, c: Callback)
    requires Agrees(cs, s) && PhaseOf(cs + [c]).Active? && PhaseOf(cs + [c]) != PhaseOf(cs)
    ensures Handle(s, c).active.Some? && RunAgrees(cs + [c], Handle(s, c).active.value)
  {
    PhaseSnoc(cs, c);
    PrefixSnoc(cs, c, |cs|);
    var r := Handle(s, c).active.value;
    hide StepOpen, ToolOpen;
    forall n
      ensures StepListed(cs + [c], Found(r.steps, n), n)
    {
      forall j: nat
        ensures !StepOpen(cs + [c], n, j)
      {
        StepOpenSnoc(cs, c, n, j);
      }
    }
    forall id
      ensures ToolListed(cs + [c], Found(r.tools, id), id)
    {
      forall j: nat
        ensures !ToolOpen(cs + [c], id, j)
      {
        ToolOpenSnoc(cs, c, id, j);
      }
    }
  }

  lemma {:induction false} SameRunAgrees(cs: seq<Callback>, s: State, c: Callback)
    requires Agrees(cs, s) && Inv(s) && PhaseOf(cs).Active? && PhaseOf(cs + [c]) == PhaseOf(cs)
    ensures Handle(s, c).active.Some? && RunAgrees(cs + [c], Handle(s, c).active.value)
  {
    var r := s.active.value;
    assert DistinctKeys(r.steps) && DistinctKeys(r.tools);
    hide Inv, Handle, PhaseOf, Drawn, StepListed, ToolListed, Found, DistinctKeys, EndsStep, EndsTool;
    SameRun(cs, c);
    RunStays(cs, s, c);
    forall n
      ensures StepListed(cs + [c], Found(Handle(s, c).active.value.steps, n), n)
    {
      StepsNext(s, c, n);
      StepListedSnoc(cs, c, Found(r.steps, n), n);
    }
    forall id
      ensures ToolListed(cs + [c], Found(Handle(s, c).active.value.tools, id), id)
    {
      ToolsNext(s, c, id);
      if c.OnToolCallStart? {
        ParentTold(cs, r, c.inStep);
      }
      ToolListedSnoc(cs, c, Found(r.tools, id), id, if c.OnToolCallStart? then ChosenParent(r, c.inStep) else 0);
    }
  }

  // The machine is always where the callbacks say.
  lemma {:induction false} RunAgreed(cs: seq<Callback>)
    ensures Agrees(cs, AiSdk.Run(cs))
  {
    if cs != [] {
      hide Inv, Handle, RunAgrees, Agrees;
      var front, c := cs[..|cs| - 1], cs[|cs| - 1];
      assert cs == front + [c];
      RunAgreed(front);
      RunInv(front);
      RunSnoc(front, c);
      AgreesNext(front, AiSdk.Run(front), c);
    }
  }

  lemma {:induction false} AgreesNext(cs: seq<Callback>, s: State, c: Callback)
    requires Agrees(cs, s) && Inv(s)
    ensures Agrees(cs + [c], Handle(s, c))
  {
    hide Inv, Handle, RunAgrees;
    PhaseNext(cs, s, c);
    if PhaseOf(cs + [c]).Active? {
      if PhaseOf(cs + [c]) == PhaseOf(cs) {
        SameRunAgrees(cs, s, c);
      } else {
        FreshRunAgrees(cs, s, c);
      }
    }
  }

  // ---- The rows handed over ----

  lemma {:induction false} OpenStepFound(cs: seq<Callback>, r: ActiveRun, n: int, j: nat)
    requires PhaseOf(cs).Active? && RunAgrees(cs, r) && StepOpen(cs, n, j)
    ensures j < |cs| && Found(r.steps, n) == Some(Open(n, Drawn(cs[..j]), RunEventOf(cs), StepName(n)))
  {
    hide Found, ToolListed;
    assert StepListed(cs, Found(r.steps, n), n);
    var i := FoundStep(cs, Found(r.steps, n).value, n);
    OneOpen(cs, n, i, j);
  }

  lemma {:induction false} OpenToolFound(cs: seq<Callback>, r: ActiveRun, id: string, j: nat)
    requires PhaseOf(cs).Active? && RunAgrees(cs, r) && ToolOpen(cs, id, j)
    ensures j < |cs| && cs[j].OnToolCallStart? && PhaseOf(cs[..j]).Active? && Found(r.tools, id).Some?
    ensures var e := Found(r.tools, id).value;
            && e == Open(id, Drawn(cs[..j]), e.parentId, ToolName(cs[j].toolName))
            && ToolParent(cs[..j], cs[j].inStep, e.parentId)
  {
    hide Found, StepListed, ToolParent;
    assert ToolListed(cs, Found(r.tools, id), id);
    var i := FoundTool(cs, Found(r.tools, id).value, id);
    OneToolOpen(cs, id, i, j);
  }

  // An entry of the maps, as the step or tool it stands for.
  lemma {:induction false} EntryIsStep(cs: seq<Callback>, r: ActiveRun, i: nat, status: RowStatus)
    requires PhaseOf(cs).Active? && RunAgrees(cs, r) && DistinctKeys(r.steps) && i < |r.steps|
    ensures AboutOpen(cs, status, ChildRow(r.runId, r.steps[i], LLM, status))
  {
    hide DistinctKeys, ToolListed;
    var n := r.steps[i].key;
    FoundAt(r.steps, i);
    assert StepListed(cs, Found(r.steps, n), n);
    var j := FoundStep(cs, r.steps[i], n);
    assert StepRow(cs, n, j, status, ChildRow(r.runId, r.steps[i], LLM, status));
  }

  lemma {:induction false} EntryIsTool(cs: seq<Callback>, r: ActiveRun, i: nat, status: RowStatus)
    requires PhaseOf(cs).Active? && RunAgrees(cs, r) && DistinctKeys(r.tools) && i < |r.tools|
    ensures AboutOpen(cs, status, ChildRow(r.runId, r.tools[i], TOOL, status))
  {
    hide DistinctKeys, StepListed, ToolParent;
    var id := r.tools[i].key;
    FoundAt(r.tools, i);
    assert ToolListed(cs, Found(r.tools, id), id);
    var j := FoundTool(cs, r.tools[i], id);
    assert ToolRow(cs, j, status, ChildRow(r.runId, r.tools[i], TOOL, status));
  }

  lemma {:induction false} EndingAt(r: ActiveRun, status: RowStatus, k: nat)
    requires k < |r.tools| + |r.steps|
    ensures Endings(r, status)[k] == if k < |r.tools| then ChildRow(r.runId, r.tools[k], TOOL, status)
                                     else ChildRow(r.runId, r.steps[k - |r.tools|], LLM, status)
  {
  }

  lemma {:induction false} StepEnding(cs: seq<Callback>, r: ActiveRun, status: RowStatus, n: int, j: nat)
    requires PhaseOf(cs).Active? && RunAgrees(cs, r) && StepOpen(cs, n, j)
    ensures StepCovered(cs, n, j, status, Endings(r, status))
  {
    hide StepOpen, StepListed, ToolListed, RunNameOf;
    OpenStepFound(cs, r, n, j);
    var k := |r.tools| + Find(r.steps, n);
    EndingAt(r, status, k);
    assert StepRow(cs, n, j, status, Endings(r, status)[k]);
  }

  lemma {:induction false} ToolEnding(cs: seq<Callback>, r: ActiveRun, status: RowStatus, id: string, j: nat)
    requires PhaseOf(cs).Active? && RunAgrees(cs, r) && ToolOpen(cs, id, j)
    ensures ToolCovered(cs, j, status, Endings(r, status))
  {
    hide ToolOpen, StepListed, ToolListed, RunNameOf, ToolParent;
    OpenToolFound(cs, r, id, j);
    var k := Find(r.tools, id);
    EndingAt(r, status, k);
    assert ToolRow(cs, j, status, Endings(r, status)[k]);
  }

  lemma {:induction false} EndingIs(cs: seq<Callback>, r: ActiveRun, status: RowStatus, k: nat)
    requires PhaseOf(cs).Active? && RunAgrees(cs, r) && DistinctKeys(r.steps) && DistinctKeys(r.tools)
    requires k < |r.tools| + |r.steps|
    ensures AboutOpen(cs, status, Endings(r, status)[k])
  {
    hide AboutOpen, StepListed, ToolListed, DistinctKeys;
    EndingAt(r, status, k);
    if k < |r.tools| {
      EntryIsTool(cs, r, k, status);
    } else {
      EntryIsStep(cs, r, k - |r.tools|, status);
    }
  }

  lemma {:induction false} EndingsForced(cs: seq<Callback>, r: ActiveRun, status: RowStatus)
    requires PhaseOf(cs).Active? && RunAgrees(cs, r) && DistinctKeys(r.steps) && DistinctKeys(r.tools)
    ensures ForcedRows(cs, status, Endings(r, status))
  {
    hide AboutOpen, StepCovered, ToolCovered, StepOpen, ToolOpen, StepListed, ToolListed, DistinctKeys, RunNameOf;
    var rows := Endings(r, status);
    forall k | 0 <= k < |rows| - 1
      ensures AboutOpen(cs, status, rows[k])
    {
      EndingIs(cs, r, status, k);
    }
    forall n, j: nat | StepOpen(cs, n, j)
      ensures StepCovered(cs, n, j, status, rows)
    {
      StepEnding(cs, r, status, n, j);
    }
    forall id, j: nat | ToolOpen(cs, id, j)
      ensures ToolCovered(cs, j, status, rows)
    {
      ToolEnding(cs, r, status, id, j);
    }
  }

  lemma {:induction false} ForcedOver(cs: seq<Callback>, s: State, c: Callback)
    requires Agrees(cs, s) && Inv(s) && s.active.Some? && (c.OnStart? || c.Close?)
    ensures var rows := Endings(s.active.value, if c.OnStart? then Error else Unknown);
            Handle(s, c).attempted == s.attempted + rows && HandsOver(cs, c, rows)
  {
    var r, status := s.active.value, if c.OnStart? then Error else Unknown;
    assert DistinctKeys(r.steps) && DistinctKeys(r.tools);
    hide Inv, ForcedRows, RunAgrees;
    EndingsForced(cs, r, status);
    assert s.attempted + Endings(r, status)
        == s.attempted + ChildRows(r.runId, r.tools, TOOL, status) + ChildRows(r.runId, r.steps, LLM, status)
           + [RunRow(r, status)];
  }

  lemma {:induction false} StepOver(cs: seq<Callback>, s: State, n: int, payload: Payload)
    requires Agrees(cs, s) && s.active.Some? && payload.Readable?
    ensures var rows := match Found(s.active.value.steps, n)
                        case None => []
                        case Some(e) => [ChildRow(s.active.value.runId, e, LLM, Ok)];
            && Handle(s, OnStepFinish(n, payload)).attempted == s.attempted + rows
            && HandsOver(cs, OnStepFinish(n, payload), rows)
            && (Found(s.active.value.steps, n).Some? <==> exists j: nat :: StepOpen(cs, n, j))
  {
    hide StepOpen, ToolListed, Delete;
    var r := s.active.value;
    assert StepListed(cs, Found(r.steps, n), n);
    if Found(r.steps, n).Some? {
      var i := FoundStep(cs, Found(r.steps, n).value, n);
    }
    forall j: nat | StepOpen(cs, n, j)
      ensures Found(r.steps, n).Some?
              && StepRow(cs, n, j, Ok, ChildRow(r.runId, Found(r.steps, n).value, LLM, Ok))
    {
      OpenStepFound(cs, r, n, j);
    }
    assert s.attempted + [] == s.attempted;
  }

  lemma {:induction false} ToolOver(cs: seq<Callback>, s: State, id: string, success: bool, payload: Payload)
    requires Agrees(cs, s) && s.active.Some? && payload.Readable?
    ensures var status := if success then Ok else Error;
            var rows := match Found(s.active.value.tools, id)
                        case None => []
                        case Some(e) => [ChildRow(s.active.value.runId, e, TOOL, status)];
            && Handle(s, OnToolCallFinish(id, success, payload)).attempted == s.attempted + rows
            && HandsOver(cs, OnToolCallFinish(id, success, payload), rows)
            && (Found(s.active.value.tools, id).Some? <==> exists j: nat :: ToolOpen(cs, id, j))
  {
    hide ToolOpen, StepListed, Delete, ToolParent;
    var r, status := s.active.value, if success then Ok else Error;
    assert ToolListed(cs, Found(r.tools, id), id);
    if Found(r.tools, id).Some? {
      var i := FoundTool(cs, Found(r.tools, id).value, id);
    }
    forall j: nat | ToolOpen(cs, id, j)
      ensures Found(r.tools, id).Some?
      ensures ToolRow(cs, j, status, ChildRow(r.runId, Found(r.tools, id).value, TOOL, status))
    {
      OpenToolFound(cs, r, id, j);
    }
    assert s.attempted + [] == s.attempted;
  }

  lemma {:induction false} StartOver(cs: seq<Callback>, s: State, c: Callback)
    requires Agrees(cs, s)
    requires (c.OnStart? && s.active.None?) || c.OnStepStart? || c.OnFinish? || (c.Close? && s.active.None?)
    ensures var t := Handle(s, c);
            |t.attempted| >= |s.attempted| && t.attempted[..|s.attempted|] == s.attempted
            && HandsOver(cs, c, t.attempted[|s.attempted|..])
  {
    hide StepListed, ToolListed, ToolParent, Put, Lost;
    assert cs[..|cs|] == cs;
  }

  lemma {:induction false} ToolStartOver(cs: seq<Callback>, s: State, id: string, toolName: string, inStep: Option<int>,
        payload: Payload)
    requires Agrees(cs, s)
    ensures var c := OnToolCallStart(id, toolName, inStep, payload);
            var t := Handle(s, c);
            |t.attempted| >= |s.attempted| && t.attempted[..|s.attempted|] == s.attempted
            && HandsOver(cs, c, t.attempted[|s.attempted|..])
  {
    if s.active.Some? {
      ParentTold(cs, s.active.value, inStep);
    }
    hide RunAgrees, ToolParent, Put, Lost;
  }

  // Callback c, whatever came before it, adds exactly the rows that the callbacks before it say.
  lemma {:induction false} CallbackRows(cs: seq<Callback>, c: Callback) returns (rows: seq<Row>)
    ensures AiSdk.Run(cs + [c]).attempted == AiSdk.Run(cs).attempted + rows
    ensures HandsOver(cs, c, rows)
  {
    hide Inv, Agrees, HandsOver, Handle, Found;
    var s := AiSdk.Run(cs);
    RunAgreed(cs);
    RunInv(cs);
    RunSnoc(cs, c);
    rows := RowsAdded(cs, s, c);
  }

  lemma {:induction false} RowsAdded(cs: seq<Callback>, s: State, c: Callback) returns (rows: seq<Row>)
    requires Agrees(cs, s) && Inv(s)
    ensures Handle(s, c).attempted == s.attempted + rows
    ensures HandsOver(cs, c, rows)
  {
    hide Inv, HandsOver, RunAgrees, Found, Endings;
    if s.active.Some? && (c.OnStart? || c.Close?) {
      ForcedOver(cs, s, c);
      rows := Endings(s.active.value, if c.OnStart? then Error else Unknown);
    } else if c.OnStepFinish? && s.active.Some? && c.payload.Readable? {
      StepOver(cs, s, c.stepNumber, c.payload);
      rows := match Found(s.active.value.steps, c.stepNumber)
        case None => []
        case Some(e) => [ChildRow(s.active.value.runId, e, LLM, Ok)];
    } else if c.OnToolCallFinish? && s.active.Some? && c.payload.Readable? {
      ToolOver(cs, s, c.toolCallId, c.success, c.payload);
      rows := match Found(s.active.value.tools, c.toolCallId)
        case None => []
        case Some(e) => [ChildRow(s.active.value.runId, e, TOOL, if c.success then Ok else Error)];
    } else {
      if c.OnToolCallStart? {
        ToolStartOver(cs, s, c.toolCallId, c.toolName, c.inStep, c.payload);
      } else if c.OnStepFinish? || c.OnToolCallFinish? {
        NothingOver(cs, s, c);
      } else {
        StartOver(cs, s, c);
      }
      rows := Handle(s, c).attempted[|s.attempted|..];
    }
  }

  lemma {:induction false} NothingOver(cs: seq<Callback>, s: State, c: Callback)
    requires Agrees(cs, s) && (c.OnStepFinish? || c.OnToolCallFinish?) && (s.active.None? || !c.payload.Readable?)
    ensures Handle(s, c).attempted == s.attempted && HandsOver(cs, c, [])
  {
  }

  lemma {:induction false} FinishWarns(cs: seq<Callback>, s: State, c: Callback)
    requires Agrees(cs, s) && (c.OnStepFinish? || c.OnToolCallFinish?)
    ensures Handle(s, c).lifecycleWarnings == s.lifecycleWarnings + Warned(cs, c)
    ensures Handle(s, c).closeFailures == s.closeFailures
  {
    hide RunAgrees, StepOpen, ToolOpen, Delete, HandsOver;
    if s.active.Some? && c.payload.Readable? {
      if c.OnStepFinish? {
        StepOver(cs, s, c.stepNumber, c.payload);
      } else {
        ToolOver(cs, s, c.toolCallId, c.success, c.payload);
      }
    }
  }

  lemma {:induction false} OtherWarns(cs: seq<Callback>, s: State, c: Callback)
    requires Agrees(cs, s) && !c.OnStepFinish? && !c.OnToolCallFinish?
    ensures Handle(s, c).lifecycleWarnings == s.lifecycleWarnings + Warned(cs, c)
    ensures Handle(s, c).closeFailures == s.closeFailures + (if c.Close? && c.writerFails then 1 else 0)
  {
    hide RunAgrees, StepOpen, ToolOpen, Put;
    if s.active.Some? && c.OnToolCallStart? {
      ParentTold(cs, s.active.value, c.inStep);
    }
  }

  // And it adds exactly the warnings that they say; a close counts a failure exactly if the writer fails.
  lemma {:induction false} CallbackWarnings(cs: seq<Callback>, c: Callback)
    ensures AiSdk.Run(cs + [c]).lifecycleWarnings == AiSdk.Run(cs).lifecycleWarnings + Warned(cs, c)
    ensures AiSdk.Run(cs + [c]).closeFailures
            == AiSdk.Run(cs).closeFailures + (if c.Close? && c.writerFails then 1 else 0)
  {
    hide Agrees, Handle, Warned;
    RunAgreed(cs);
    RunSnoc(cs, c);
    if c.OnStepFinish? || c.OnToolCallFinish? {
      FinishWarns(cs, AiSdk.Run(cs), c);
    } else {
      OtherWarns(cs, AiSdk.Run(cs), c);
    }
  }
}
