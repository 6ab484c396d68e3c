// The summary of a run by its rows alone.
module SummaryRows {
  import opened Wrappers
  import opened Counting
  import opened Trace
  import opened Timeline
  import opened RunSummary
  import opened Causal

  // The steps that have a start row.
  ghost function StepIds(events: seq<TraceEvent>): set<string> {
    set i | 0 <= i < |events| && events[i].StepStarted? :: events[i].stepId
  }

  ghost predicate OfType(events: seq<TraceEvent>, id: string, stepType: StepType) {
    exists s: nat :: LastStart(events, id, s) && events[s].stepType == stepType
  }

  ghost function StepsOfType(events: seq<TraceEvent>, stepType: StepType): set<string> {
    set id | id in StepIds(events) && OfType(events, id, stepType)
  }

  ghost function FailedSteps(events: seq<TraceEvent>): set<string> {
    set id | id in StepIds(events) && EndedInError(events, id)
  }

  // ---- Counting in the table ----

  // These are the ids, each once, whose steps have the property.
  ghost predicate Picks(t: StepTable, ids: seq<string>, p: StepInfo -> bool, found: set<string>)
    requires forall i :: 0 <= i < |ids| ==> ids[i] in t.nodes
  {
    && (forall i, j :: 0 <= i < j < |ids| ==> ids[i] != ids[j])
    && (forall i :: 0 <= i < |ids| ==> (ids[i] in found <==> p(t.nodes[ids[i]])))
    && (forall id :: id in found ==> id in ids)
  }

  lemma {:induction false} CountIsSize(t: StepTable, ids: seq<string>, p: StepInfo -> bool, found: set<string>)
    requires forall i :: 0 <= i < |ids| ==> ids[i] in t.nodes
    requires Picks(t, ids, p, found)
    ensures Count(p, Infos(t, ids)) == |found|
  {
    if ids == [] {
      assert found == {};
    } else {
      var front, last := ids[..|ids| - 1], ids[|ids| - 1];
      assert ids == front + [last];
      InfosSnoc(t, front, last);
      CountSnoc(p, Infos(t, front), t.nodes[last]);
      assert last !in front;
      assert forall i :: 0 <= i < |front| ==> front[i] == ids[i];
      CountIsSize(t, front, p, found - {last});
    }
  }

  lemma {:induction false} SizeIs(ids: seq<string>, all: set<string>)
    requires forall i, j :: 0 <= i < j < |ids| ==> ids[i] != ids[j]
    requires forall id :: id in ids <==> id in all
    ensures |ids| == |all|
  {
    if ids == [] {
      assert all == {};
    } else {
      var front, last := ids[..|ids| - 1], ids[|ids| - 1];
      assert ids == front + [last];
      SizeIs(front, all - {last});
    }
  }

  // ---- The table by rows ----

  lemma {:induction false} TableIsStepIds(events: seq<TraceEvent>, id: string)
    ensures id in Load(events).order <==> id in StepIds(events)
  {
    LoadMeaning(events, id);
  }

  lemma {:induction false} TypeByRows(events: seq<TraceEvent>, id: string, stepType: StepType)
    requires id in Load(events).nodes
    ensures Load(events).nodes[id].stepType == stepType <==> OfType(events, id, stepType)
  {
    hide Load;
    LoadMeaning(events, id);
    var i :| 0 <= i < |events| && events[i].StepStarted? && events[i].stepId == id;
    var s := LastStartExists(events, i);
    if j :| 0 <= j < |events| && events[j].StepCompleted? && events[j].stepId == id {
      var c := LastCompletionExists(events, j);
    }
    assert Load(events).nodes[id].stepType == events[s].stepType;
  }

  lemma {:induction false} TypesPicked(events: seq<TraceEvent>, p: StepInfo -> bool, stepType: StepType)
    requires forall info: StepInfo :: p(info) <==> info.stepType == stepType
    ensures Count(p, Infos(Load(events), Load(events).order)) == |StepsOfType(events, stepType)|
  {
    hide Load, Infos, StepIds, OfType;
    var t := Load(events);
    forall id
      ensures id in t.order <==> id in StepIds(events)
      ensures id in t.nodes ==> (p(t.nodes[id]) <==> OfType(events, id, stepType))
    {
      TableIsStepIds(events, id);
      if id in t.nodes {
        TypeByRows(events, id, stepType);
      }
    }
    CountIsSize(t, t.order, p, StepsOfType(events, stepType));
  }

  lemma {:induction false} FailuresPicked(events: seq<TraceEvent>)
    ensures Count(IsError, Infos(Load(events), Load(events).order)) == |FailedSteps(events)|
  {
    hide Load, Infos, StepIds, EndedInError;
    var t := Load(events);
    forall id
      ensures id in t.order <==> id in StepIds(events)
      ensures id in t.nodes ==> (IsError(t.nodes[id]) <==> EndedInError(events, id))
    {
      TableIsStepIds(events, id);
      if id in t.nodes {
        StatusByRows(events, id);
      }
    }
    CountIsSize(t, t.order, IsError, FailedSteps(events));
  }

  // The numbers of steps: all that started, those whose last start row is of the type, and those whose
  // last completion row failed.
  lemma {:induction false} CountsByRows(events: seq<TraceEvent>, s: Summary)
    requires SummaryOf(events, s)
    ensures s.totalSteps == |StepIds(events)|
    ensures s.llmSteps == |StepsOfType(events, LlmStep)| && s.toolSteps == |StepsOfType(events, ToolStep)|
    ensures s.logicSteps == s.totalSteps - s.llmSteps - s.toolSteps
    ensures s.errorSteps == |FailedSteps(events)|
  {
    hide Load, Infos, StepIds, StepsOfType, FailedSteps;
    TypesPicked(events, IsLlm, LlmStep);
    TypesPicked(events, IsTool, ToolStep);
    FailuresPicked(events);
    forall id
      ensures id in Load(events).order <==> id in StepIds(events)
    {
      TableIsStepIds(events, id);
    }
    SizeIs(Load(events).order, StepIds(events));
  }

  // ---- The longest step ----

  // A step took this long by its last completion row.
  ghost predicate Took(events: seq<TraceEvent>, id: string, durationMs: real) {
    id in StepIds(events) && exists c: nat :: LastCompletion(events, id, c) && events[c].durationMs == durationMs
  }

  lemma {:induction false} TookIs(events: seq<TraceEvent>, id: string, d: real)
    ensures Took(events, id, d) <==> id in Load(events).nodes && Load(events).nodes[id].durationMs == Some(d)
  {
    hide Load, StepIds;
    TableIsStepIds(events, id);
    LoadMeaning(events, id);
    if id in Load(events).nodes {
      var i :| 0 <= i < |events| && events[i].StepStarted? && events[i].stepId == id;
      var s := LastStartExists(events, i);
      if j :| 0 <= j < |events| && events[j].StepCompleted? && events[j].stepId == id {
        var c := LastCompletionExists(events, j);
        assert forall b: nat :: LastCompletion(events, id, b) ==> b == c;
      }
    }
  }

  // The step shown as the longest: no step took longer, and of those that took as long it was recorded first.
  ghost predicate LongestByRows(events: seq<TraceEvent>, l: LongestStep, id: string, s: nat) {
    && LastStart(events, id, s) && (l.name, l.stepType) == (events[s].name, events[s].stepType)
    && Took(events, id, l.durationMs)
    && (forall other, d :: Took(events, other, d) ==> d <= l.durationMs)
    && (forall other, a: nat, b: nat ::
          Took(events, other, l.durationMs) && other != id && FirstStart(events, id, a) && FirstStart(events, other, b)
          ==> a < b)
  }

  lemma {:induction false} StartFields(events: seq<TraceEvent>, id: string) returns (s: nat)
    requires id in Load(events).nodes
    ensures LastStart(events, id, s)
    ensures (Load(events).nodes[id].name, Load(events).nodes[id].stepType) == (events[s].name, events[s].stepType)
  {
    hide Load;
    LoadMeaning(events, id);
    var i :| 0 <= i < |events| && events[i].StepStarted? && events[i].stepId == id;
    s := LastStartExists(events, i);
    if j :| 0 <= j < |events| && events[j].StepCompleted? && events[j].stepId == id {
      var c := LastCompletionExists(events, j);
    }
  }

  lemma {:induction false} NoneLonger(events: seq<TraceEvent>, l: LongestStep, k: nat, other: string, d: real)
    requires k < |Load(events).order|
    requires forall i :: 0 <= i < |Load(events).order| && Load(events).nodes[Load(events).order[i]].durationMs.Some? ==>
               Load(events).nodes[Load(events).order[i]].durationMs.value <= l.durationMs
    requires forall i :: 0 <= i < k && Load(events).nodes[Load(events).order[i]].durationMs.Some? ==>
               Load(events).nodes[Load(events).order[i]].durationMs.value < l.durationMs
    requires Took(events, other, d)
    ensures d <= l.durationMs
    ensures d == l.durationMs && other != Load(events).order[k] ==>
              forall a: nat, b: nat ::
                FirstStart(events, Load(events).order[k], a) && FirstStart(events, other, b) ==> a < b
  {
    hide Load, Took, FirstStart;
    TookIs(events, other, d);
    var order := Load(events).order;
    var m :| 0 <= m < |order| && order[m] == other;
    forall a: nat, b: nat |
      d == l.durationMs && other != order[k] && FirstStart(events, order[k], a) && FirstStart(events, other, b)
      ensures a < b
    {
      TableOrder(events, k, m, a, b);
    }
  }

  lemma {:induction false} LongestIs(events: seq<TraceEvent>, s: Summary) returns (id: string, k: nat)
    requires SummaryOf(events, s)
    ensures s.longestStep.None? <==> forall other, d :: !Took(events, other, d)
    ensures s.longestStep.Some? ==> LongestByRows(events, s.longestStep.value, id, k)
  {
    hide Load, Took, FirstStart, LastStart, Infos, IsMaxDepth;
    var t := Load(events);
    id, k := "", 0;
    if s.longestStep.Some? {
      var l := s.longestStep.value;
      var n :| 0 <= n < |t.order|
        && t.nodes[t.order[n]].durationMs == Some(l.durationMs)
        && l == LongestStep(t.nodes[t.order[n]].name, l.durationMs, t.nodes[t.order[n]].stepType)
        && (forall i :: 0 <= i < |t.order| && t.nodes[t.order[i]].durationMs.Some? ==>
              t.nodes[t.order[i]].durationMs.value <= l.durationMs)
        && (forall i :: 0 <= i < n && t.nodes[t.order[i]].durationMs.Some? ==>
              t.nodes[t.order[i]].durationMs.value < l.durationMs);
      id := t.order[n];
      k := StartFields(events, id);
      TookIs(events, id, l.durationMs);
      forall other, d | Took(events, other, d)
        ensures d <= l.durationMs
        ensures forall a: nat, b: nat ::
                  d == l.durationMs && other != id && FirstStart(events, id, a) && FirstStart(events, other, b)
                  ==> a < b
      {
        NoneLonger(events, l, n, other, d);
      }
    } else {
      forall other, d
        ensures !Took(events, other, d)
      {
        TookIs(events, other, d);
      }
    }
  }
}
