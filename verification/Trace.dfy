// Trace rows, and the table of steps every reader builds from them.
module Trace {
  import opened Wrappers
  import opened ParentGraph
  import opened Lines

  datatype StepType = RunStep | LlmStep | ToolStep | DecisionStep | LogicStep | StateStep | CustomStep
  datatype StepStatus = Running | Success | Error
  datatype OutcomeStatus = Passed | Failed | Unknown | Skipped

  // Rows as the strict validator admits them: times and durations are finite numbers.
  datatype TraceEvent =
    | RunStarted(runId: string, name: string, startTime: real)
    | RunCompleted(runId: string, failed: bool, endTime: real, durationMs: real)
    | StepStarted(runId: string, stepId: string, parentId: Option<string>, name: string, stepType: StepType,
                  startTime: real)
    | StepCompleted(runId: string, stepId: string, failed: bool, endTime: real, durationMs: real)
    | OutcomeObserved(runId: string, outcomeId: string, parentId: Option<string>, name: string,
                      outcome: OutcomeStatus, observedAt: real)

  datatype StepInfo = StepInfo(name: string, stepType: StepType, parentId: Option<string>, startedAt: real,
                               status: StepStatus, durationMs: Option<real>)

  // A JavaScript Map from step id to step: `order` is insertion order, and re-setting a key keeps its place.
  datatype StepTable = StepTable(order: seq<string>, nodes: map<string, StepInfo>) {
    ghost predicate Valid() {
      && (forall i, j :: 0 <= i < j < |order| ==> order[i] != order[j])
      && (forall id :: id in nodes <==> id in order)
    }

    function Set(id: string, info: StepInfo): StepTable {
      StepTable(if id in nodes then order else order + [id], nodes[id := info])
    }
  }

  predicate IsBlank(s: string) {
    forall i :: 0 <= i < |s| ==> IsSpaceCode(s[i] as int)
  }

  ghost predicate NonBlankIds(events: seq<TraceEvent>) {
    forall i :: 0 <= i < |events| && events[i].StepStarted? ==> !IsBlank(events[i].stepId)
  }

  function Status(failed: bool): StepStatus {
    if failed then Error else Success
  }

  function Opened(e: TraceEvent): StepInfo
    requires e.StepStarted?
  {
    StepInfo(e.name, e.stepType, e.parentId, e.startTime, Running, None)
  }

  function Completed(info: StepInfo, e: TraceEvent): StepInfo
    requires e.StepCompleted?
  {
    info.(status := Status(e.failed), durationMs := Some(e.durationMs))
  }

  // First pass: every start row sets its step.
  function OpenAll(events: seq<TraceEvent>): (t: StepTable)
    ensures t.Valid()
  {
    if events == [] then StepTable([], map[])
    else
      var t := OpenAll(events[..|events| - 1]);
      var e := events[|events| - 1];
      if e.StepStarted? then t.Set(e.stepId, Opened(e)) else t
  }

  // Second pass: every completion row of a recorded step sets its status and duration.
  function CompleteAll(t: StepTable, events: seq<TraceEvent>): (r: StepTable)
    requires t.Valid()
    ensures r.Valid() && r.order == t.order
  {
    if events == [] then t
    else
      var r := CompleteAll(t, events[..|events| - 1]);
      var e := events[|events| - 1];
      if e.StepCompleted? && e.stepId in r.nodes then r.Set(e.stepId, Completed(r.nodes[e.stepId], e)) else r
  }

  function Load(events: seq<TraceEvent>): (t: StepTable)
    ensures t.Valid()
  {
    CompleteAll(OpenAll(events), events)
  }

  lemma {:induction false} OpenAllNext(events: seq<TraceEvent>, i: nat)
    requires i < |events|
    ensures var t, e := OpenAll(events[..i]), events[i];
            OpenAll(events[..i + 1]) == if e.StepStarted? then t.Set(e.stepId, Opened(e)) else t
  {
    assert events[..i + 1][..i] == events[..i];
  }

  lemma {:induction false} CompleteAllNext(t: StepTable, events: seq<TraceEvent>, i: nat)
    requires t.Valid() && i < |events|
    ensures var r, e := CompleteAll(t, events[..i]), events[i];
            CompleteAll(t, events[..i + 1]) ==
            if e.StepCompleted? && e.stepId in r.nodes then r.Set(e.stepId, Completed(r.nodes[e.stepId], e)) else r
  {
    assert events[..i + 1][..i] == events[..i];
  }

  lemma {:induction false} NoRows()
    ensures OpenAll([]) == StepTable([], map[])
    ensures forall t: StepTable :: t.Valid() ==> CompleteAll(t, []) == t
  {
  }

  method LoadSteps(events: seq<TraceEvent>) returns (t: StepTable)
    ensures t == Load(events)
  {
    hide OpenAll, CompleteAll;
    t := StepTable([], map[]);
    NoRows();
    for i := 0 to |events|
      invariant t == OpenAll(events[..i])
    {
      OpenAllNext(events, i);
      var e := events[i];
      if e.StepStarted? {
        t := t.Set(e.stepId, Opened(e));
      }
    }
    assert events[..|events|] == events;
    ghost var started := t;
    for i := 0 to |events|
      invariant t == CompleteAll(started, events[..i])
    {
      CompleteAllNext(started, events, i);
      var e := events[i];
      if e.StepCompleted? && e.stepId in t.nodes {
        t := t.Set(e.stepId, Completed(t.nodes[e.stepId], e));
      }
    }
  }

  // What the two passes mean, row by row.
  ghost predicate LastStart(events: seq<TraceEvent>, id: string, i: nat) {
    && i < |events| && events[i].StepStarted? && events[i].stepId == id
    && forall j :: i < j < |events| && events[j].StepStarted? ==> events[j].stepId != id
  }

  ghost predicate LastCompletion(events: seq<TraceEvent>, id: string, i: nat) {
    && i < |events| && events[i].StepCompleted? && events[i].stepId == id
    && forall j :: i < j < |events| && events[j].StepCompleted? ==> events[j].stepId != id
  }

  lemma {:induction false} LastStartExists(events: seq<TraceEvent>, i: nat) returns (s: nat)
    requires i < |events| && events[i].StepStarted?
    ensures s >= i && LastStart(events, events[i].stepId, s)
    decreases |events| - i
  {
    s := i;
    if j :| i < j < |events| && events[j].StepStarted? && events[j].stepId == events[i].stepId {
      s := LastStartExists(events, j);
    }
  }

  lemma {:induction false} LastCompletionExists(events: seq<TraceEvent>, i: nat) returns (c: nat)
    requires i < |events| && events[i].StepCompleted?
    ensures c >= i && LastCompletion(events, events[i].stepId, c)
    decreases |events| - i
  {
    c := i;
    if j :| i < j < |events| && events[j].StepCompleted? && events[j].stepId == events[i].stepId {
      c := LastCompletionExists(events, j);
    }
  }

  lemma {:induction false} OpenAllMeaning(events: seq<TraceEvent>, id: string)
    ensures id in OpenAll(events).nodes
            <==> exists i :: 0 <= i < |events| && events[i].StepStarted? && events[i].stepId == id
    ensures forall i: nat :: LastStart(events, id, i) ==>
              id in OpenAll(events).nodes && OpenAll(events).nodes[id] == Opened(events[i])
  {
    if events != [] {
      var front := events[..|events| - 1];
      OpenAllMeaning(front, id);
      forall i: nat | LastStart(events, id, i)
        ensures id in OpenAll(events).nodes && OpenAll(events).nodes[id] == Opened(events[i])
      {
        if i < |front| {
          assert events[|events| - 1].StepStarted? ==> events[|events| - 1].stepId != id;
          assert LastStart(front, id, i);
        }
      }
      if id in OpenAll(front).nodes {
        var i :| 0 <= i < |front| && front[i].StepStarted? && front[i].stepId == id;
        assert events[i].StepStarted? && events[i].stepId == id;
      }
    }
  }

  lemma {:induction false} CompleteAllKeeps(t: StepTable, events: seq<TraceEvent>, id: string)
    requires t.Valid() && id in t.nodes
    ensures var r := CompleteAll(t, events);
            && id in r.nodes
            && r.nodes[id] == t.nodes[id].(status := r.nodes[id].status, durationMs := r.nodes[id].durationMs)
            && ((forall i :: 0 <= i < |events| && events[i].StepCompleted? ==> events[i].stepId != id) ==>
                  r.nodes[id] == t.nodes[id])
  {
    if events != [] {
      var front := events[..|events| - 1];
      CompleteAllKeeps(t, front, id);
      assert forall i :: 0 <= i < |front| ==> front[i] == events[i];
    }
  }

  lemma {:induction false} LastCompletionBefore(events: seq<TraceEvent>, id: string, i: nat)
    requires LastCompletion(events, id, i) && i < |events| - 1
    ensures LastCompletion(events[..|events| - 1], id, i)
    ensures events[|events| - 1].StepCompleted? ==> events[|events| - 1].stepId != id
  {
  }

  lemma {:induction false} CompleteAllMeaning(t: StepTable, events: seq<TraceEvent>, id: string, i: nat)
    requires t.Valid() && id in t.nodes && LastCompletion(events, id, i)
    ensures id in CompleteAll(t, events).nodes && CompleteAll(t, events).nodes[id] == Completed(t.nodes[id], events[i])
  {
    var front := events[..|events| - 1];
    CompleteAllKeeps(t, front, id);
    if i < |front| {
      LastCompletionBefore(events, id, i);
      CompleteAllMeaning(t, front, id, i);
    }
  }

  // A step is in the table exactly if it has a start row; the last start row gives its name, type, parent and time, and
  // the last completion row, if there is one at all, gives its status and duration.
  lemma {:induction false} LoadMeaning(events: seq<TraceEvent>, id: string)
    ensures id in Load(events).nodes
            <==> exists i :: 0 <= i < |events| && events[i].StepStarted? && events[i].stepId == id
    ensures forall s: nat, c: nat :: LastStart(events, id, s) && LastCompletion(events, id, c) ==>
              id in Load(events).nodes && Load(events).nodes[id]
              == StepInfo(events[s].name, events[s].stepType, events[s].parentId, events[s].startTime,
                          if events[c].failed then Error else Success, Some(events[c].durationMs))
    ensures (forall i :: 0 <= i < |events| && events[i].StepCompleted? ==> events[i].stepId != id) ==>
            forall s: nat :: LastStart(events, id, s) ==>
              id in Load(events).nodes && Load(events).nodes[id]
              == StepInfo(events[s].name, events[s].stepType, events[s].parentId, events[s].startTime, Running, None)
  {
    OpenAllMeaning(events, id);
    if id in OpenAll(events).nodes {
      CompleteAllKeeps(OpenAll(events), events, id);
      forall c: nat | LastCompletion(events, id, c)
        ensures Load(events).nodes[id] == Completed(OpenAll(events).nodes[id], events[c])
      {
        CompleteAllMeaning(OpenAll(events), events, id, c);
      }
    }
    assert id in Load(events).nodes <==> id in OpenAll(events).nodes by {
      assert Load(events).order == OpenAll(events).order;
    }
  }

  ghost predicate FirstStart(events: seq<TraceEvent>, id: string, i: nat) {
    && i < |events| && events[i].StepStarted? && events[i].stepId == id
    && forall j :: 0 <= j < i && events[j].StepStarted? ==> events[j].stepId != id
  }

  lemma {:induction false} FirstStartExists(events: seq<TraceEvent>, i: nat) returns (s: nat)
    requires i < |events| && events[i].StepStarted?
    ensures s <= i && FirstStart(events, events[i].stepId, s)
  {
    s := i;
    if j :| 0 <= j < i && events[j].StepStarted? && events[j].stepId == events[i].stepId {
      s := FirstStartExists(events, j);
    }
  }

  // The table lists the steps in the order of their first start rows.
  lemma {:induction false} TableOrder(events: seq<TraceEvent>, i: nat, j: nat, a: nat, b: nat)
    requires i < j < |Load(events).order|
    requires FirstStart(events, Load(events).order[i], a) && FirstStart(events, Load(events).order[j], b)
    ensures a < b
  {
    OpenOrder(events, i, j, a, b);
  }

  lemma {:induction false} OpenOrder(events: seq<TraceEvent>, i: nat, j: nat, a: nat, b: nat)
    requires i < j < |OpenAll(events).order|
    requires FirstStart(events, OpenAll(events).order[i], a) && FirstStart(events, OpenAll(events).order[j], b)
    ensures a < b
  {
    var front := events[..|events| - 1];
    var t := OpenAll(front);
    assert forall k :: 0 <= k < |front| ==> front[k] == events[k];
    StartedBefore(front, t.order[i]);
    assert FirstStart(front, t.order[i], a);
    if j < |t.order| {
      StartedBefore(front, t.order[j]);
      assert FirstStart(front, t.order[j], b);
      OpenOrder(front, i, j, a, b);
    } else {
      OpenAllMeaning(front, OpenAll(events).order[j]);
    }
  }

  lemma {:induction false} StartedBefore(events: seq<TraceEvent>, id: string)
    requires id in OpenAll(events).order
    ensures exists i :: 0 <= i < |events| && events[i].StepStarted? && events[i].stepId == id
  {
    OpenAllMeaning(events, id);
  }

  // Only the start rows and the completion rows matter, each in their own order.
  function Starts(events: seq<TraceEvent>): seq<TraceEvent> {
    if events == [] then []
    else if events[|events| - 1].StepStarted? then Starts(events[..|events| - 1]) + [events[|events| - 1]]
    else Starts(events[..|events| - 1])
  }

  function Completions(events: seq<TraceEvent>): seq<TraceEvent> {
    if events == [] then []
    else if events[|events| - 1].StepCompleted? then Completions(events[..|events| - 1]) + [events[|events| - 1]]
    else Completions(events[..|events| - 1])
  }

  lemma {:induction false} OpenAllSnoc(events: seq<TraceEvent>, e: TraceEvent)
    requires e.StepStarted?
    ensures OpenAll(events + [e]) == OpenAll(events).Set(e.stepId, Opened(e))
  {
    assert (events + [e])[..|events|] == events;
  }

  lemma {:induction false} CompleteAllSnoc(t: StepTable, events: seq<TraceEvent>, e: TraceEvent)
    requires t.Valid() && e.StepCompleted?
    ensures var r := CompleteAll(t, events);
            CompleteAll(t, events + [e]) ==
            if e.stepId in r.nodes then r.Set(e.stepId, Completed(r.nodes[e.stepId], e)) else r
  {
    assert (events + [e])[..|events|] == events;
  }

  lemma {:induction false} OpenedRow(front: seq<TraceEvent>, e: TraceEvent)
    requires OpenAll(front) == OpenAll(Starts(front))
    ensures OpenAll(front + [e]) == OpenAll(Starts(front + [e]))
  {
    assert (front + [e])[..|front|] == front;
    if e.StepStarted? {
      OpenAllSnoc(Starts(front), e);
      OpenAllSnoc(front, e);
    }
  }

  lemma {:induction false} OpenAllStarts(events: seq<TraceEvent>)
    ensures OpenAll(events) == OpenAll(Starts(events))
  {
    if events != [] {
      var front, e := events[..|events| - 1], events[|events| - 1];
      OpenAllStarts(front);
      OpenedRow(front, e);
      assert front + [e] == events;
    }
  }

  lemma {:induction false} CompleteAllCompletions(t: StepTable, events: seq<TraceEvent>)
    requires t.Valid()
    ensures CompleteAll(t, events) == CompleteAll(t, Completions(events))
  {
    if events != [] {
      var front, e := events[..|events| - 1], events[|events| - 1];
      CompleteAllCompletions(t, front);
      if e.StepCompleted? {
        CompleteAllSnoc(t, Completions(front), e);
        CompleteAllSnoc(t, front, e);
        assert front + [e] == events;
      }
    }
  }

  lemma {:induction false} LoadReshuffle(a: seq<TraceEvent>, b: seq<TraceEvent>)
    requires Starts(a) == Starts(b) && Completions(a) == Completions(b)
    ensures Load(a) == Load(b)
  {
    OpenAllStarts(a);
    OpenAllStarts(b);
    CompleteAllCompletions(OpenAll(a), a);
    CompleteAllCompletions(OpenAll(a), b);
  }

  // The parent links of the table. The timeline and the summary also treat a blank parent id as none.
  function Links(t: StepTable): Graph<string> {
    map id | id in t.nodes :: t.nodes[id].parentId
  }

  function NonBlank(parentId: Option<string>): Option<string> {
    if parentId.Some? && IsBlank(parentId.value) then None else parentId
  }

  function NonBlankLinks(t: StepTable): Graph<string> {
    map id | id in t.nodes :: NonBlank(t.nodes[id].parentId)
  }
}
