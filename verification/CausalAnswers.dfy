// What the answer to "what failed first" is, by rows.
module CausalAnswers {
  import opened Wrappers
  import opened ParentGraph
  import opened StableSort
  import opened Trace
  import opened Timeline
  import opened RunSummary
  import opened Causal

  // ---- Places of the rows that a filter keeps ----

  ghost function Places<T>(p: T -> bool, s: seq<T>): seq<nat> {
    if s == [] then [] else Places(p, s[..|s| - 1]) + (if p(s[|s| - 1]) then [|s| - 1] else [])
  }

  lemma {:induction false} PlacesAre<T>(p: T -> bool, s: seq<T>)
    ensures |Places(p, s)| == |Filter(p, s)|
    ensures forall k :: 0 <= k < |Places(p, s)| ==>
              Places(p, s)[k] < |s| && p(s[Places(p, s)[k]]) && Filter(p, s)[k] == s[Places(p, s)[k]]
    ensures forall k, l :: 0 <= k < l < |Places(p, s)| ==> Places(p, s)[k] < Places(p, s)[l]
  {
    if s != [] {
      PlacesAre(p, s[..|s| - 1]);
    }
  }

  lemma {:induction false} PlaceOf<T>(p: T -> bool, s: seq<T>, i: nat) returns (k: nat)
    requires i < |s| && p(s[i])
    ensures k < |Places(p, s)| && Places(p, s)[k] == i
  {
    if i < |s| - 1 {
      k := PlaceOf(p, s[..|s| - 1], i);
    } else {
      k := |Places(p, s)| - 1;
    }
  }

  // The first element of the least key among those with q is the same before filtering.
  lemma {:induction false} FilteredLeast<T(!new)>(p: T -> bool, q: T -> bool, key: T -> real, s: seq<T>, k: nat)
    returns (i: nat)
    requires forall x :: q(x) ==> p(x)
    requires FirstLeast(q, key, Filter(p, s), k)
    ensures FirstLeast(q, key, s, i) && s[i] == Filter(p, s)[k]
  {
    var kept, places := Filter(p, s), Places(p, s);
    PlacesAre(p, s);
    i := places[k];
    forall j | 0 <= j < |s| && q(s[j])
      ensures key(s[i]) <= key(s[j])
      ensures j < i ==> key(s[i]) < key(s[j])
    {
      var l := PlaceOf(p, s, j);
      assert kept[l] == s[j];
    }
  }

  // ---- The step of stage one ----

  // The step ended in error and no such step started earlier; of two that started at once, the first recorded.
  ghost predicate FirstToFail(events: seq<TraceEvent>, id: string, s: nat) {
    && EndedInError(events, id) && LastStart(events, id, s)
    && (forall other, r: nat :: EndedInError(events, other) && LastStart(events, other, r) ==>
          events[s].startTime <= events[r].startTime)
    && (forall other, r: nat, a: nat, b: nat ::
          && EndedInError(events, other) && LastStart(events, other, r) && other != id
          && events[s].startTime == events[r].startTime
          && FirstStart(events, id, a) && FirstStart(events, other, b)
          ==> a < b)
  }

  lemma {:induction false} ErrorEntryPlace(events: seq<TraceEvent>) returns (k: nat)
    requires FirstErrorEntry(events).Some?
    ensures var raw := EntriesOf(Load(events), RunStart(events));
            && k < |raw| && FirstLeast(EntryIsError, StartKey, raw, k)
            && FirstErrorEntry(events).value == raw[k]
  {
    k := FirstOfSorted(EntryIsError, StartKey, EntriesOf(Load(events), RunStart(events)));
  }

  lemma {:induction false} ErrorAt(events: seq<TraceEvent>, id: string, r: nat) returns (i: nat)
    requires EndedInError(events, id) && LastStart(events, id, r)
    ensures i < |Load(events).order| && Load(events).order[i] == id
    ensures EntryIsError(EntryOf(Load(events), RunStart(events), id))
    ensures StartKey(EntryOf(Load(events), RunStart(events), id)) == events[r].startTime
  {
    EndedInErrorIsRecorded(events, id);
    StatusByRows(events, id);
    i :| 0 <= i < |Load(events).order| && Load(events).order[i] == id;
  }

  // A step that failed and started at the same time was recorded later.
  lemma {:induction false} LaterRecorded(events: seq<TraceEvent>, k: nat, other: string, r: nat, a: nat, b: nat)
    requires FirstLeast(EntryIsError, StartKey, EntriesOf(Load(events), RunStart(events)), k)
    requires EndedInError(events, other) && LastStart(events, other, r) && other != Load(events).order[k]
    requires StartKey(EntriesOf(Load(events), RunStart(events))[k]) == events[r].startTime
    requires FirstStart(events, Load(events).order[k], a) && FirstStart(events, other, b)
    ensures a < b
  {
    hide Load, EndedInError, LastStart, FirstStart, RunStart;
    var raw := EntriesOf(Load(events), RunStart(events));
    var i := ErrorAt(events, other, r);
    assert raw[i] == EntryOf(Load(events), RunStart(events), other);
    TableOrder(events, k, i, a, b);
  }

  lemma {:induction false} FirstErrorByRows(events: seq<TraceEvent>) returns (s: nat)
    requires FirstErrorEntry(events).Some?
    ensures FirstToFail(events, FirstErrorEntry(events).value.stepId, s)
    ensures FirstErrorEntry(events).value.name == events[s].name
  {
    hide Load, FirstErrorEntry, EndedInError, RunStart, FirstStart, FirstLeast;
    var e := FirstErrorEntry(events).value;
    var k := ErrorEntryPlace(events);
    StageOne(events);
    s := StartOf(events, e.stepId);
    ErrorEntryIs(events, k);
    forall other, r: nat, a: nat, b: nat |
      EndedInError(events, other) && LastStart(events, other, r) && other != e.stepId
      && events[s].startTime == events[r].startTime
      && FirstStart(events, e.stepId, a) && FirstStart(events, other, b)
      ensures a < b
    {
      LaterRecorded(events, k, other, r, a, b);
    }
    EntryName(events, k, s);
  }

  lemma {:induction false} ErrorEntryIs(events: seq<TraceEvent>, k: nat)
    requires FirstErrorEntry(events).Some?
    requires k < |Load(events).order|
             && FirstErrorEntry(events).value == EntriesOf(Load(events), RunStart(events))[k]
    ensures FirstErrorEntry(events).value.stepId == Load(events).order[k]
    ensures StartKey(EntriesOf(Load(events), RunStart(events))[k]) == FirstErrorEntry(events).value.startedAt
  {
  }

  lemma {:induction false} StartOf(events: seq<TraceEvent>, id: string) returns (s: nat)
    requires EndedInError(events, id)
    ensures LastStart(events, id, s)
  {
    var r: nat, c: nat :| LastStart(events, id, r) && LastCompletion(events, id, c) && events[c].failed;
    s := r;
  }

  lemma {:induction false} EntryName(events: seq<TraceEvent>, k: nat, s: nat)
    requires k < |Load(events).order| && LastStart(events, Load(events).order[k], s)
    ensures EntriesOf(Load(events), RunStart(events))[k].name == events[s].name
  {
    StepTells(events, Load(events).order[k], s, false);
  }

  // ---- The outcome of stage two ----

  // The failed outcome observed first; of two observed at once the one that comes first by name, and then by row.
  ghost predicate FirstOutcome(events: seq<TraceEvent>, collate: string -> real, k: nat) {
    && k < |events| && events[k].OutcomeObserved? && events[k].outcome == Failed
    && forall j :: 0 <= j < |events| && events[j].OutcomeObserved? && events[j].outcome == Failed ==>
         NoLater(collate, events[k], events[j]) && (j < k ==> !NoLater(collate, events[j], events[k]))
  }

  function FailedAt(at: real): TraceEvent -> bool {
    (e: TraceEvent) => IsFailedOutcome(e) && ObservedKey(e) == at
  }

  // Of the failed outcomes observed at the time of the one reported, it is the first in the order by name.
  lemma {:induction false} SameTime(byName: seq<TraceEvent>, k: nat)
    requires FirstLeast(IsFailedOutcome, ObservedKey, byName, k)
    ensures First(FailedAt(ObservedKey(byName[k])), byName) == Some(byName[k])
  {
    var q := FailedAt(ObservedKey(byName[k]));
    var i := FirstIs(q, byName);
    assert q(byName[k]);
    assert forall j :: 0 <= j < k ==> !q(byName[j]);
  }

  lemma {:induction false} OutcomeByRows(events: seq<TraceEvent>, collate: string -> real) returns (i: nat)
    requires FirstFailedOutcome(events, collate).Some?
    ensures FirstOutcome(events, collate, i) && FirstFailedOutcome(events, collate).value == events[i]
  {
    var byName := OutcomesByName(events, collate);
    var rows := Filter(IsOutcome, events);
    var k := FirstOfSorted(IsFailedOutcome, ObservedKey, byName);
    var at := ObservedKey(byName[k]);
    SameTime(byName, k);
    var l := FirstOfSorted(FailedAt(at), NameKey(collate), rows);
    i := FilteredLeast(IsOutcome, FailedAt(at), NameKey(collate), events, l);
    forall j | 0 <= j < |events| && IsFailedOutcome(events[j])
      ensures NoLater(collate, events[i], events[j]) && (j < i ==> !NoLater(collate, events[j], events[i]))
    {
      assert events[j] in byName;
      var m :| 0 <= m < |byName| && byName[m] == events[j];
      assert at <= ObservedKey(byName[m]);
      assert ObservedKey(events[j]) == at ==> FailedAt(at)(events[j]);
    }
  }

  // ---- The tip of stage four ----

  // The first error completion from which the most links lead up.
  ghost predicate Deepest(events: seq<TraceEvent>, k: nat) {
    && k < |events| && events[k].StepCompleted? && events[k].failed
    && var g := Links(OpenAll(events));
       forall j :: 0 <= j < |events| && events[j].StepCompleted? && events[j].failed ==>
         && LinksUp(g, events[j].stepId, {}) <= LinksUp(g, events[k].stepId, {})
         && (j < k ==> LinksUp(g, events[j].stepId, {}) < LinksUp(g, events[k].stepId, {}))
  }

  lemma {:induction false} TipByRows(events: seq<TraceEvent>) returns (i: nat)
    requires DeepestError(events).Some?
    ensures Deepest(events, i) && DeepestError(events).value == events[i]
  {
    var g := Links(OpenAll(events));
    var errors := Filter(IsErrorCompletion, events);
    FilterIs(IsErrorCompletion, events);
    var k := FirstOfSorted(Any, DepthKey(g), errors);
    assert forall j :: 0 <= j < |errors| ==> errors[j] in errors && Any(errors[j]);
    assert FirstLeast(IsErrorCompletion, DepthKey(g), errors, k);
    i := FilteredLeast(IsErrorCompletion, IsErrorCompletion, DepthKey(g), events, k);
    forall j | 0 <= j < |events| && IsErrorCompletion(events[j])
      ensures LinksUp(g, events[j].stepId, {}) <= LinksUp(g, events[i].stepId, {})
      ensures j < i ==> LinksUp(g, events[j].stepId, {}) < LinksUp(g, events[i].stepId, {})
    {
      assert DepthKey(g)(events[i]) <= DepthKey(g)(events[j]);
    }
  }

  // ---- The answer ----

  ghost predicate FirstWith<T(!new)>(p: T -> bool, s: seq<T>, k: nat) {
    k < |s| && p(s[k]) && forall j :: 0 <= j < k ==> !p(s[j])
  }

  // What each answer says: ids, name, run and parent are those of the rows found, and so is the evidence.
  ghost predicate Answers(events: seq<TraceEvent>, collate: string -> real, findings: seq<Finding>, r: Failure) {
    match r
    case ErrorStep(stepId, name, runId) =>
      && EvidenceIds(r) == [stepId] && runId == RunIdOf(events)
      && exists s: nat :: FirstToFail(events, stepId, s) && name == events[s].name
    case ErrorRun(runId) =>
      && EvidenceIds(r) == [runId]
      && exists k: nat ::
           FirstWith((e: TraceEvent) => e.RunCompleted? && e.failed, events, k) && runId == events[k].runId
    case ObservedOutcome(outcomeId, name, runId, parentId) =>
      && EvidenceIds(r) == (if parentId.Some? && parentId.value != "" then [outcomeId, parentId.value] else [outcomeId])
      && exists k: nat ::
           && FirstOutcome(events, collate, k)
           && (outcomeId, name, runId, parentId)
              == (events[k].outcomeId, events[k].name, events[k].runId, events[k].parentId)
    case Contract(finding) =>
      && EvidenceIds(r) == finding.evidenceIds
      && exists k: nat ::
           FirstWith((f: Finding) => f.failed && f.evidenceIds != [], findings, k) && finding == findings[k]
    case Tip(stepId, runId, parentId) =>
      && EvidenceIds(r) == (if parentId.Some? && parentId.value != "" then [stepId, parentId.value] else [stepId])
      && (exists k: nat :: Deepest(events, k) && (stepId, runId) == (events[k].stepId, events[k].runId))
      && (forall s: nat :: LastStart(events, stepId, s) ==> parentId == events[s].parentId)
      && ((forall i :: 0 <= i < |events| && events[i].StepStarted? ==> events[i].stepId != stepId) ==> parentId == None)
    case NoFailure => EvidenceIds(r) == []
  }

  lemma {:induction false} AnswersTip(events: seq<TraceEvent>, collate: string -> real, findings: seq<Finding>)
    ensures Answers(events, collate, findings, LastResort(events))
  {
    if DeepestError(events).Some? {
      hide DeepestError, Deepest, OpenAll;
      var i := TipByRows(events);
      OpenAllMeaning(events, events[i].stepId);
    }
  }

  lemma {:induction false} AnswersOutcome(events: seq<TraceEvent>, collate: string -> real, findings: seq<Finding>)
    requires FirstFailedOutcome(events, collate).Some?
    ensures Answers(events, collate, findings, FromOutcome(FirstFailedOutcome(events, collate).value))
  {
    hide FirstFailedOutcome;
    var i := OutcomeByRows(events, collate);
  }

  // The answer for all rows and findings.
  lemma {:induction false} AnswerByRows(events: seq<TraceEvent>, collate: string -> real, findings: seq<Finding>)
    ensures Answers(events, collate, findings, FirstFailure(events, collate, findings))
  {
    hide FirstErrorEntry, FirstFailedOutcome, First, LastResort, FirstToFail, FromOutcome;
    if FirstErrorEntry(events).Some? {
      var s := FirstErrorByRows(events);
    } else if First(IsFailedRun, events).Some? {
      var k := FirstIs(IsFailedRun, events);
      assert FirstWith((e: TraceEvent) => e.RunCompleted? && e.failed, events, k);
    } else if FirstFailedOutcome(events, collate).Some? {
      AnswersOutcome(events, collate, findings);
    } else if First(IsLinkedFailure, findings).Some? {
      var k := FirstIs(IsLinkedFailure, findings);
      assert FirstWith((f: Finding) => f.failed && f.evidenceIds != [], findings, k);
    } else {
      AnswersTip(events, collate, findings);
    }
  }
}
