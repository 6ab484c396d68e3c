// The first causal failure of a run: a fixed order of stages, none of which infers from timing alone.
module Causal {
  import opened Wrappers
  import opened ParentGraph
  import opened StableSort
  import opened Trace
  import opened Timeline
  import opened RunSummary

  datatype Finding = Finding(ruleId: string, failed: bool, evidenceIds: seq<string>)

  datatype Failure =
    | ErrorStep(stepId: string, name: string, runId: string)
    | ErrorRun(runId: string)
    | ObservedOutcome(outcomeId: string, name: string, runId: string, parentId: Option<string>)
    | Contract(finding: Finding)
    | Tip(stepId: string, runId: string, parentId: Option<string>)
    | NoFailure

  function OrderIndex(f: Failure): nat {
    match f
    case ErrorStep(_, _, _) => 1
    case ErrorRun(_) => 1
    case ObservedOutcome(_, _, _, _) => 2
    case Contract(_) => 3
    case Tip(_, _, _) => 4
    case NoFailure => 0
  }

  function EvidenceIds(f: Failure): seq<string> {
    match f
    case ErrorStep(stepId, _, _) => [stepId]
    case ErrorRun(runId) => [runId]
    case ObservedOutcome(outcomeId, _, _, parentId) => [outcomeId] + Linked(parentId)
    case Contract(finding) => finding.evidenceIds
    case Tip(stepId, _, parentId) => [stepId] + Linked(parentId)
    case NoFailure => []
  }

  // A parent id counts unless it is missing or the empty string.
  function Linked(parentId: Option<string>): seq<string> {
    if parentId.Some? && parentId.value != "" then [parentId.value] else []
  }

  predicate IsFailedRun(e: TraceEvent) {
    e.RunCompleted? && e.failed
  }

  predicate IsOutcome(e: TraceEvent) {
    e.OutcomeObserved?
  }

  predicate IsFailedOutcome(e: TraceEvent) {
    e.OutcomeObserved? && e.outcome == Failed
  }

  predicate IsErrorCompletion(e: TraceEvent) {
    e.StepCompleted? && e.failed
  }

  predicate IsLinkedFailure(f: Finding) {
    f.failed && f.evidenceIds != []
  }

  predicate Any<T>(x: T) {
    true
  }

  function Filter<T>(p: T -> bool, s: seq<T>): seq<T> {
    if s == [] then [] else Filter(p, s[..|s| - 1]) + (if p(s[|s| - 1]) then [s[|s| - 1]] else [])
  }

  function ObservedKey(e: TraceEvent): real {
    if e.OutcomeObserved? then e.observedAt else 0.0
  }

  // `collate` is the place of a name in the collation order.
  function NameKey(collate: string -> real): TraceEvent -> real {
    (e: TraceEvent) => if e.OutcomeObserved? then collate(e.name) else 0.0
  }

  // By time observed, then by name.
  function Outcomes(events: seq<TraceEvent>, collate: string -> real): seq<TraceEvent> {
    Sort(ObservedKey, Sort(NameKey(collate), Filter(IsOutcome, events)))
  }

  // ---- Stage four: the deepest of the error completions ----

  function ParentLink(g: Graph<string>, id: string): Option<string> {
    if id in g && g[id].Some? && g[id].value != "" then g[id] else None
  }

  // The number of links followed from id; it stops at a step met before.
  function LinksUp(g: Graph<string>, id: string, seen: set<string>): nat
    decreases |g.Keys - seen|
  {
    if id != "" && id in g && id !in seen && ParentLink(g, id).Some? then
      assert g.Keys - (seen + {id}) < g.Keys - seen by {
        assert id in g.Keys - seen && id !in g.Keys - (seen + {id});
      }
      SmallerSet(g.Keys - (seen + {id}), g.Keys - seen);
      1 + LinksUp(g, ParentLink(g, id).value, seen + {id})
    else 0
  }

  lemma {:induction false} SmallerSet(a: set<string>, b: set<string>)
    requires a < b
    ensures |a| < |b|
  {
    var x :| x in b && x !in a;
    assert a <= b - {x};
    SubsetSize(a, b - {x});
  }

  lemma {:induction false} SubsetSize(a: set<string>, b: set<string>)
    requires a <= b
    ensures |a| <= |b|
  {
    if a != {} {
      var x :| x in a;
      SubsetSize(a - {x}, b - {x});
    }
  }

  method CountLinks(g: Graph<string>, id: string) returns (d: nat)
    ensures d == LinksUp(g, id, {})
  {
    d := 0;
    var cur := id;
    var seen: set<string> := {};
    while cur != "" && cur in g && cur !in seen
      invariant LinksUp(g, id, {}) == d + LinksUp(g, cur, seen)
      decreases |g.Keys - seen|
    {
      ghost var before := seen;
      seen := seen + {cur};
      SmallerSet(g.Keys - seen, g.Keys - before);
      var parent := ParentLink(g, cur);
      if parent.None? {
        break;
      }
      d := d + 1;
      cur := parent.value;
    }
  }

  function DepthKey(g: Graph<string>): TraceEvent -> real {
    (e: TraceEvent) => if e.StepCompleted? then -(LinksUp(g, e.stepId, {}) as real) else 0.0
  }

  lemma {:induction false} LinksSet(t: StepTable, id: string, info: StepInfo)
    ensures Links(t.Set(id, info)) == Links(t)[id := info.parentId]
  {
  }

  method CollectParents(events: seq<TraceEvent>) returns (parents: Graph<string>)
    ensures parents == Links(OpenAll(events))
  {
    parents := map[];
    for i := 0 to |events|
      invariant parents == Links(OpenAll(events[..i]))
    {
      assert events[..i + 1][..i] == events[..i];
      if events[i].StepStarted? {
        LinksSet(OpenAll(events[..i]), events[i].stepId, Opened(events[i]));
        parents := parents[events[i].stepId := events[i].parentId];
      }
    }
    assert events[..|events|] == events;
  }

  // ---- The stages in order ----

  ghost function FirstErrorEntry(events: seq<TraceEvent>): Option<Entry> {
    First(EntryIsError, TimelineEntries(events, None))
  }

  function FirstFailedOutcome(events: seq<TraceEvent>, collate: string -> real): Option<TraceEvent> {
    First(IsFailedOutcome, Outcomes(events, collate))
  }

  function DeepestError(events: seq<TraceEvent>): Option<TraceEvent> {
    First(Any, Sort(DepthKey(Links(OpenAll(events))), Filter(IsErrorCompletion, events)))
  }

  ghost function FirstFailure(events: seq<TraceEvent>, collate: string -> real, findings: seq<Finding>): Failure {
    if FirstErrorEntry(events).Some? then
      ErrorStep(FirstErrorEntry(events).value.stepId, FirstErrorEntry(events).value.name, RunIdOf(events))
    else if First(IsFailedRun, events).Some? then ErrorRun(First(IsFailedRun, events).value.runId)
    else if FirstFailedOutcome(events, collate).Some? then FromOutcome(FirstFailedOutcome(events, collate).value)
    else if First(IsLinkedFailure, findings).Some? then Contract(First(IsLinkedFailure, findings).value)
    else LastResort(events)
  }

  function FromOutcome(e: TraceEvent): Failure {
    if e.OutcomeObserved? then ObservedOutcome(e.outcomeId, e.name, e.runId, e.parentId) else NoFailure
  }

  function LastResort(events: seq<TraceEvent>): Failure {
    if DeepestError(events).Some? then FromTip(Links(OpenAll(events)), DeepestError(events).value) else NoFailure
  }

  lemma {:induction false} FirstOfAny<T>(s: seq<T>)
    ensures First(Any, s) == if s == [] then None else Some(s[0])
  {
    if |s| > 1 {
      FirstOfAny(s[..|s| - 1]);
    }
  }

  method FindTip(events: seq<TraceEvent>) returns (r: Failure)
    ensures r == LastResort(events)
  {
    var parentByStep := CollectParents(events);
    var errorSteps := Filter(IsErrorCompletion, events);
    FirstOfAny(Sort(DepthKey(parentByStep), errorSteps));
    SortIs(DepthKey(parentByStep), errorSteps);
    if errorSteps != [] {
      var sorted := SortByDepth(parentByStep, errorSteps);
      r := FromTip(parentByStep, sorted[0]);
    } else {
      r := NoFailure;
    }
  }

  function FromTip(g: Graph<string>, e: TraceEvent): Failure {
    if e.StepCompleted? then Tip(e.stepId, e.runId, if e.stepId in g then g[e.stepId] else None) else NoFailure
  }

  // Array.prototype.sort with a comparator that walks up the parent links of both rows.
  method SortByDepth(g: Graph<string>, errors: seq<TraceEvent>) returns (sorted: seq<TraceEvent>)
    ensures sorted == Sort(DepthKey(g), errors)
  {
    sorted := [];
    for i := 0 to |errors|
      invariant sorted == Sort(DepthKey(g), errors[..i])
    {
      assert errors[..i + 1][..i] == errors[..i];
      sorted := Insert(DepthKey(g), errors[i], sorted);
    }
    assert errors[..|errors|] == errors;
  }

  method FindFirstCausalFailure(events: seq<TraceEvent>, collate: string -> real,
        findings: seq<Finding>) returns (r: Failure)
    ensures r == FirstFailure(events, collate, findings)
  {
    var timeline := BuildRunTimeline(events, None);
    var firstError := First(EntryIsError, timeline.entries);
    if firstError.Some? {
      return ErrorStep(firstError.value.stepId, firstError.value.name, timeline.runId);
    }
    var failedRun := First(IsFailedRun, events);
    if failedRun.Some? {
      return ErrorRun(failedRun.value.runId);
    }
    var failedOutcome := First(IsFailedOutcome, Outcomes(events, collate));
    if failedOutcome.Some? {
      return FromOutcome(failedOutcome.value);
    }
    var contractFail := First(IsLinkedFailure, findings);
    if contractFail.Some? {
      return Contract(contractFail.value);
    }
    r := FindTip(events);
  }

  // ---- What the stages find ----

  // The last completion of a step that has a start row says it failed.
  ghost predicate EndedInError(events: seq<TraceEvent>, id: string) {
    exists s: nat, c: nat :: LastStart(events, id, s) && LastCompletion(events, id, c) && events[c].failed
  }

  // The status in the table, by rows.
  lemma {:induction false} StatusByRows(events: seq<TraceEvent>, id: string)
    requires id in Load(events).nodes
    ensures Load(events).nodes[id].status == Error <==> EndedInError(events, id)
    ensures forall s: nat :: LastStart(events, id, s) ==> Load(events).nodes[id].startedAt == events[s].startTime
  {
    LoadMeaning(events, id);
    var i :| 0 <= i < |events| && events[i].StepStarted? && events[i].stepId == id;
    var s := LastStartExists(events, i);
    if j :| 0 <= j < |events| && events[j].StepCompleted? && events[j].stepId == id {
      var c := LastCompletionExists(events, j);
    }
  }

  lemma {:induction false} EndedInErrorIsRecorded(events: seq<TraceEvent>, id: string)
    requires EndedInError(events, id)
    ensures id in Load(events).nodes
  {
    LoadMeaning(events, id);
  }

  // Stage one finds a step exactly if one ended in error, and then one that started no later than any other such step.
  lemma {:induction false} StageOne(events: seq<TraceEvent>)
    ensures FirstErrorEntry(events).Some? <==> exists id :: EndedInError(events, id)
    ensures FirstErrorEntry(events).Some? ==>
              var e := FirstErrorEntry(events).value;
              && EndedInError(events, e.stepId)
              && (forall s: nat :: LastStart(events, e.stepId, s) ==> e.startedAt == events[s].startTime)
              && (forall id, s: nat :: EndedInError(events, id) && LastStart(events, id, s) ==>
                    e.startedAt <= events[s].startTime)
  {
    var t := Load(events);
    var raw := EntriesOf(t, RunStart(events));
    var k := FirstOfSorted(EntryIsError, StartKey, raw);
    forall i | 0 <= i < |raw|
      ensures EntryIsError(raw[i]) <==> EndedInError(events, raw[i].stepId)
      ensures forall s: nat :: LastStart(events, raw[i].stepId, s) ==> raw[i].startedAt == events[s].startTime
    {
      StatusByRows(events, t.order[i]);
    }
    forall id | EndedInError(events, id)
      ensures exists i :: 0 <= i < |raw| && raw[i].stepId == id
    {
      EndedInErrorIsRecorded(events, id);
      var i :| 0 <= i < |t.order| && t.order[i] == id;
      assert raw[i].stepId == id;
    }
  }

  lemma {:induction false} FilterIs<T>(p: T -> bool, s: seq<T>)
    ensures forall x :: x in Filter(p, s) <==> x in s && p(x)
  {
    if s != [] {
      FilterIs(p, s[..|s| - 1]);
      assert s == s[..|s| - 1] + [s[|s| - 1]];
    }
  }

  // An error completion of a step that never started, or one that a later completion of the step took back.
  ghost predicate Moot(events: seq<TraceEvent>, c: nat)
    requires c < |events| && events[c].StepCompleted?
  {
    || (forall i :: 0 <= i < |events| && events[i].StepStarted? ==> events[i].stepId != events[c].stepId)
    || (exists later: nat :: c < later && LastCompletion(events, events[c].stepId, later) && !events[later].failed)
  }

  // Stage one finds no step exactly if every error completion is moot.
  lemma {:induction false} OnlyMootErrors(events: seq<TraceEvent>)
    ensures FirstErrorEntry(events).None?
            <==> forall c: nat :: c < |events| && IsErrorCompletion(events[c]) ==> Moot(events, c)
  {
    StageOne(events);
    forall c: nat | c < |events| && IsErrorCompletion(events[c])
      ensures Moot(events, c) || EndedInError(events, events[c].stepId)
    {
      if i: nat :| i < |events| && events[i].StepStarted? && events[i].stepId == events[c].stepId {
        var s := LastStartExists(events, i);
        var last := LastCompletionExists(events, c);
        assert LastStart(events, events[c].stepId, s) && LastCompletion(events, events[c].stepId, last);
      }
    }
    if id :| EndedInError(events, id) {
      var s: nat, c: nat :| LastStart(events, id, s) && LastCompletion(events, id, c) && events[c].failed;
      assert IsErrorCompletion(events[c]) && !Moot(events, c);
    }
  }

  lemma {:induction false} OutcomesByName(events: seq<TraceEvent>,
        collate: string -> real) returns (byName: seq<TraceEvent>)
    ensures byName == Sort(NameKey(collate), Filter(IsOutcome, events))
    ensures forall x :: x in byName <==> x in events && IsOutcome(x)
    ensures Ascending(NameKey(collate), byName)
  {
    var rows := Filter(IsOutcome, events);
    byName := Sort(NameKey(collate), rows);
    FilterIs(IsOutcome, events);
    SortIs(NameKey(collate), rows);
    forall x
      ensures x in byName <==> x in rows
    {
      assert x in byName <==> x in multiset(byName);
    }
  }

  // Whether e comes before f, or ties with it, in the order of outcomes.
  predicate NoLater(collate: string -> real, e: TraceEvent, f: TraceEvent)
    requires e.OutcomeObserved? && f.OutcomeObserved?
  {
    e.observedAt < f.observedAt || (e.observedAt == f.observedAt && collate(e.name) <= collate(f.name))
  }

  // Stage two reports a failed outcome observed no later than any other.
  lemma {:induction false} StageTwo(events: seq<TraceEvent>, collate: string -> real)
    ensures FirstFailedOutcome(events, collate).None? <==> forall x :: x in events ==> !IsFailedOutcome(x)
    ensures FirstFailedOutcome(events, collate).Some? ==>
              var e := FirstFailedOutcome(events, collate).value;
              && e in events && IsFailedOutcome(e)
              && forall x :: x in events && IsFailedOutcome(x) ==> NoLater(collate, e, x)
  {
    var byName := OutcomesByName(events, collate);
    var k := FirstOfSorted(IsFailedOutcome, ObservedKey, byName);
    forall x | x in events && IsFailedOutcome(x)
      ensures exists j :: 0 <= j < |byName| && byName[j] == x
    {
      assert IsOutcome(x);
      assert x in byName;
    }
    if FirstFailedOutcome(events, collate).Some? {
      var e := byName[k];
      assert e in byName;
      forall x | x in events && IsFailedOutcome(x)
        ensures NoLater(collate, e, x)
      {
        var j :| 0 <= j < |byName| && byName[j] == x;
        assert ObservedKey(e) <= ObservedKey(x);
        assert j < k ==> ObservedKey(e) < ObservedKey(byName[j]);
        assert j > k ==> NameKey(collate)(byName[k]) <= NameKey(collate)(byName[j]);
      }
    }
  }

  // The last resort reports an error completion from which at least as many links lead up as from any other.
  lemma {:induction false} StageFour(events: seq<TraceEvent>)
    ensures DeepestError(events).None? <==> forall x :: x in events ==> !IsErrorCompletion(x)
    ensures DeepestError(events).Some? ==>
              var tip, g := DeepestError(events).value, Links(OpenAll(events));
              && tip in events && IsErrorCompletion(tip)
              && forall x :: x in events && IsErrorCompletion(x) ==>
                 LinksUp(g, x.stepId, {}) <= LinksUp(g, tip.stepId, {})
  {
    var g := Links(OpenAll(events));
    var errors := Filter(IsErrorCompletion, events);
    FilterIs(IsErrorCompletion, events);
    FirstOfAny(Sort(DepthKey(g), errors));
    SortIs(DepthKey(g), errors);
    if errors != [] {
      var k := FirstOfSorted(Any, DepthKey(g), errors);
      var tip := errors[k];
      assert tip in errors;
      forall x | x in events && IsErrorCompletion(x)
        ensures LinksUp(g, x.stepId, {}) <= LinksUp(g, tip.stepId, {})
      {
        assert x in errors;
        var j :| 0 <= j < |errors| && errors[j] == x;
        assert Any(errors[j]);
        assert DepthKey(g)(tip) <= DepthKey(g)(x);
      }
    } else {
      forall x | x in events
        ensures !IsErrorCompletion(x)
      {
        assert x !in errors;
      }
    }
  }

  lemma {:induction false} EndedInErrorCompleted(events: seq<TraceEvent>, id: string)
    requires EndedInError(events, id)
    ensures exists x :: x in events && IsErrorCompletion(x)
  {
    var s: nat, c: nat :| LastStart(events, id, s) && LastCompletion(events, id, c) && events[c].failed;
    assert events[c] in events && IsErrorCompletion(events[c]);
  }

  // The answer is "none" exactly if there is nothing to report: no failed run, no failed outcome, no failing finding
  // with evidence, and no error completion, which every step that ended in error has.
  lemma {:induction false} NoneMeansNothing(events: seq<TraceEvent>, collate: string -> real, findings: seq<Finding>)
    ensures FirstFailure(events, collate, findings).NoFailure? <==>
            && (forall x :: x in events ==> !IsFailedRun(x) && !IsFailedOutcome(x) && !IsErrorCompletion(x))
            && (forall f :: f in findings ==> !IsLinkedFailure(f))
  {
    StageOne(events);
    if id :| EndedInError(events, id) {
      EndedInErrorCompleted(events, id);
    }
    FirstAmong(IsFailedRun, events);
    StageTwo(events, collate);
    FirstAmong(IsLinkedFailure, findings);
    StageFour(events);
  }

  lemma {:induction false} FirstAmong<T>(p: T -> bool, s: seq<T>)
    ensures First(p, s).None? <==> forall x :: x in s ==> !p(x)
    ensures First(p, s).Some? ==> First(p, s).value in s && p(First(p, s).value)
  {
    var k := FirstIs(p, s);
    if First(p, s).None? {
      forall x | x in s
        ensures !p(x)
      {
        var i :| 0 <= i < |s| && s[i] == x;
      }
    } else {
      assert s[k] in s;
    }
  }

  // Every answer but "none" comes with evidence.
  lemma {:induction false} AnswersHaveEvidence(events: seq<TraceEvent>, collate: string -> real, findings: seq<Finding>)
    ensures EvidenceIds(FirstFailure(events, collate, findings)) == []
            <==> FirstFailure(events, collate, findings).NoFailure?
  {
    hide FirstErrorEntry, FirstFailedOutcome, First;
    LastResortIsTip(events);
    FirstAmong(IsLinkedFailure, findings);
  }

  lemma {:induction false} LastResortIsTip(events: seq<TraceEvent>)
    ensures LastResort(events).Tip? || LastResort(events).NoFailure?
  {
  }

  // Each stage is reached exactly when the ones before it find nothing.
  lemma {:induction false} StagesInOrder(events: seq<TraceEvent>, collate: string -> real, findings: seq<Finding>)
    ensures var r := FirstFailure(events, collate, findings);
            var errorStep, errorRun := exists id :: EndedInError(events, id), exists x :: x in events && IsFailedRun(x);
            var outcome := exists x :: x in events && IsFailedOutcome(x);
            var finding := exists f :: f in findings && IsLinkedFailure(f);
            && (r.ErrorStep? <==> errorStep)
            && (r.ErrorRun? <==> !errorStep && errorRun)
            && (OrderIndex(r) == 1 <==> errorStep || errorRun)
            && (OrderIndex(r) == 2 <==> !errorStep && !errorRun && outcome)
            && (OrderIndex(r) == 3 <==> !errorStep && !errorRun && !outcome && finding)
            && (OrderIndex(r) == 4 ==>
                  forall c: nat :: c < |events| && IsErrorCompletion(events[c]) ==> Moot(events, c))
  {
    hide EndedInError, First, FirstErrorEntry, FirstFailedOutcome, LastResort, Moot;
    LastResortIsTip(events);
    StageOne(events);
    OnlyMootErrors(events);
    FirstAmong(IsFailedRun, events);
    StageTwo(events, collate);
    FirstAmong(IsLinkedFailure, findings);
  }

  // On a chain that reaches a root, the links counted are the step's depth, and one more if the root names a
  // step that was never recorded.
  lemma {:induction false} LinksUpIsDepth(g: Graph<string>, id: string, d: nat, seen: set<string>)
    requires id in g && "" !in g && RootedAt(g, id, d)
    requires forall j: nat :: j <= d && Ancestor(g, id, j).Some? ==> Ancestor(g, id, j).value !in seen
    ensures Ancestor(g, id, d).value in g
    ensures LinksUp(g, id, seen) == Depth(g, id) + |Linked(g[Ancestor(g, id, d).value])|
    decreases d
  {
    AncestorRecorded(g, id, d);
    RootedHeight(g, id, d);
    assert Ancestor(g, id, 0) == Some(id);
    if d > 0 {
      var p := Up(g, id).value;
      forall j: nat | j <= d - 1 && Ancestor(g, p, j).Some?
        ensures Ancestor(g, p, j).value !in seen + {id}
      {
        assert Ancestor(g, id, j + 1) == Ancestor(g, p, j);
        if Ancestor(g, p, j).value == id {
          assert ReturnsIn(g, id, j + 1);
          CycleNeverEnds(g, id, d);
        }
      }
      assert Ancestor(g, id, d) == Ancestor(g, p, d - 1);
      LinksUpIsDepth(g, p, d - 1, seen + {id});
      RootedHeight(g, p, d - 1);
    } else {
      NoLinks(g, id, seen);
    }
  }

  lemma {:induction false} NoLinks(g: Graph<string>, id: string, seen: set<string>)
    requires id in g && "" !in g && Up(g, id).None? && id !in seen
    ensures LinksUp(g, id, seen) == |Linked(g[id])|
  {
  }

  // A cycle ends the count: never more links than recorded steps.
  lemma {:induction false} LinksUpBounded(g: Graph<string>, id: string, seen: set<string>)
    ensures LinksUp(g, id, seen) <= |g.Keys - seen|
    decreases |g.Keys - seen|
  {
    if id != "" && id in g && id !in seen && ParentLink(g, id).Some? {
      assert id in g.Keys - seen && id !in g.Keys - (seen + {id});
      SmallerSet(g.Keys - (seen + {id}), g.Keys - seen);
      LinksUpBounded(g, ParentLink(g, id).value, seen + {id});
    }
  }
}
