// The summary of one run, folded from the rows separately from the timeline, and the agreement of the two.
module RunSummary {
  import opened Wrappers
  import opened ParentGraph
  import opened StepDepth
  import opened StableSort
  import opened Counting
  import opened Trace
  import opened Timeline

  datatype LongestStep = LongestStep(name: string, durationMs: real, stepType: StepType)

  datatype Summary = Summary(runId: string, state: RunState, durationMs: Option<real>, totalSteps: nat, llmSteps: nat,
                             toolSteps: nat, logicSteps: nat, errorSteps: nat, maxDepth: nat,
                             longestStep: Option<LongestStep>)

  predicate IsLlm(info: StepInfo) {
    info.stepType == LlmStep
  }

  predicate IsTool(info: StepInfo) {
    info.stepType == ToolStep
  }

  predicate IsError(info: StepInfo) {
    info.status == Error
  }

  function Infos(t: StepTable, ids: seq<string>): (r: seq<StepInfo>)
    requires forall i :: 0 <= i < |ids| ==> ids[i] in t.nodes
    ensures |r| == |ids|
  {
    seq(|ids|, i requires 0 <= i < |ids| => t.nodes[ids[i]])
  }

  ghost predicate IsMaxDepth(t: StepTable, ids: seq<string>, m: nat) {
    && (forall i :: 0 <= i < |ids| ==> CappedDepth(NonBlankLinks(t), ids[i]) <= m)
    && (m == 0 || exists i :: 0 <= i < |ids| && CappedDepth(NonBlankLinks(t), ids[i]) == m)
  }

  // The first step, in insertion order, of the greatest duration.
  ghost predicate IsLongest(t: StepTable, ids: seq<string>, longest: Option<LongestStep>)
    requires forall i :: 0 <= i < |ids| ==> ids[i] in t.nodes
  {
    match longest
    case None => forall i :: 0 <= i < |ids| ==> t.nodes[ids[i]].durationMs.None?
    case Some(l) =>
      exists k :: 0 <= k < |ids|
        && t.nodes[ids[k]].durationMs == Some(l.durationMs)
        && l == LongestStep(t.nodes[ids[k]].name, l.durationMs, t.nodes[ids[k]].stepType)
        && (forall i :: 0 <= i < |ids| && t.nodes[ids[i]].durationMs.Some? ==>
              t.nodes[ids[i]].durationMs.value <= l.durationMs)
        && (forall i :: 0 <= i < k && t.nodes[ids[i]].durationMs.Some? ==>
            t.nodes[ids[i]].durationMs.value < l.durationMs)
  }

  ghost predicate Summarizes(t: StepTable, ids: seq<string>, s: Summary)
    requires forall i :: 0 <= i < |ids| ==> ids[i] in t.nodes
  {
    && s.totalSteps == |ids|
    && s.llmSteps == Count(IsLlm, Infos(t, ids))
    && s.toolSteps == Count(IsTool, Infos(t, ids))
    && s.llmSteps + s.toolSteps + s.logicSteps == s.totalSteps
    && s.errorSteps == Count(IsError, Infos(t, ids))
    && IsMaxDepth(t, ids, s.maxDepth)
    && IsLongest(t, ids, s.longestStep)
  }

  function Tally(s: Summary, info: StepInfo, depth: nat): Summary {
    s.(totalSteps := s.totalSteps + 1,
       llmSteps := s.llmSteps + (if info.stepType.LlmStep? then 1 else 0),
       toolSteps := s.toolSteps + (if info.stepType.ToolStep? then 1 else 0),
       logicSteps := s.logicSteps + (if info.stepType.LlmStep? || info.stepType.ToolStep? then 0 else 1),
       errorSteps := s.errorSteps + (if info.status == Error then 1 else 0),
       maxDepth := if depth > s.maxDepth then depth else s.maxDepth,
       longestStep :=
         if info.durationMs.Some? && (s.longestStep.None? || info.durationMs.value > s.longestStep.value.durationMs)
         then Some(LongestStep(info.name, info.durationMs.value, info.stepType))
         else s.longestStep)
  }

  lemma {:induction false} TallyLongest(t: StepTable, ids: seq<string>, id: string, s: Summary, depth: nat)
    requires id in t.nodes && forall i :: 0 <= i < |ids| ==> ids[i] in t.nodes
    requires IsLongest(t, ids, s.longestStep)
    ensures IsLongest(t, ids + [id], Tally(s, t.nodes[id], depth).longestStep)
  {
    var longer, n := ids + [id], |ids|;
    assert longer[n] == id && forall i :: 0 <= i < n ==> longer[i] == ids[i];
    var r := Tally(s, t.nodes[id], depth).longestStep;
    if r == s.longestStep {
      if r.Some? {
        var l := r.value;
        var k :| 0 <= k < |ids|
          && t.nodes[ids[k]].durationMs == Some(l.durationMs)
          && l == LongestStep(t.nodes[ids[k]].name, l.durationMs, t.nodes[ids[k]].stepType)
          && (forall i :: 0 <= i < |ids| && t.nodes[ids[i]].durationMs.Some? ==>
                t.nodes[ids[i]].durationMs.value <= l.durationMs)
          && (forall i :: 0 <= i < k && t.nodes[ids[i]].durationMs.Some? ==>
                t.nodes[ids[i]].durationMs.value < l.durationMs);
        assert longer[k] == ids[k];
      }
    } else {
      assert t.nodes[longer[n]].durationMs == Some(r.value.durationMs);
    }
  }

  lemma {:induction false} TallyDepth(t: StepTable, ids: seq<string>, id: string, m: nat)
    requires IsMaxDepth(t, ids, m)
    ensures IsMaxDepth(t, ids + [id], Max(m, CappedDepth(NonBlankLinks(t), id)))
  {
    var longer := ids + [id];
    assert longer[|ids|] == id && forall i :: 0 <= i < |ids| ==> longer[i] == ids[i];
  }

  lemma {:induction false} InfosSnoc(t: StepTable, ids: seq<string>, id: string)
    requires id in t.nodes && forall i :: 0 <= i < |ids| ==> ids[i] in t.nodes
    ensures forall i :: 0 <= i < |ids + [id]| ==> (ids + [id])[i] in t.nodes
    ensures Infos(t, ids + [id]) == Infos(t, ids) + [t.nodes[id]]
  {
  }

  lemma {:induction false} TallyStep(t: StepTable, ids: seq<string>, id: string, s: Summary, depth: nat)
    requires id in t.nodes && forall i :: 0 <= i < |ids| ==> ids[i] in t.nodes
    requires Summarizes(t, ids, s)
    requires depth == CappedDepth(NonBlankLinks(t), id)
    ensures Summarizes(t, ids + [id], Tally(s, t.nodes[id], depth))
  {
    var info := t.nodes[id];
    InfosSnoc(t, ids, id);
    TallyDepth(t, ids, id, s.maxDepth);
    CountSnoc(IsLlm, Infos(t, ids), info);
    CountSnoc(IsTool, Infos(t, ids), info);
    CountSnoc(IsError, Infos(t, ids), info);
    TallyLongest(t, ids, id, s, depth);
  }

  // All of the summary but the run id.
  ghost predicate SummaryOf(events: seq<TraceEvent>, s: Summary) {
    var c := LastRunCompleted(events);
    && Summarizes(Load(events), Load(events).order, s)
    && s.state == StateOf(events)
    && s.durationMs == (if c.Some? && c.value.RunCompleted? then Some(c.value.durationMs) else None)
  }

  method BuildRunSummary(events: seq<TraceEvent>) returns (s: Summary)
    ensures SummaryOf(events, s) && s.runId == RunIdOf(events)
  {
    var last := LastRunCompleted(events);
    s := Summary(RunIdOf(events), StateOf(events),
                 if last.Some? && last.value.RunCompleted? then Some(last.value.durationMs) else None,
                 0, 0, 0, 0, 0, 0, None);
    var steps := LoadSteps(events);
    s := TallyAll(steps, s);
  }

  method TallyAll(steps: StepTable, initial: Summary) returns (s: Summary)
    requires steps.Valid() && Summarizes(steps, [], initial)
    ensures Summarizes(steps, steps.order, s)
    ensures (s.runId, s.state, s.durationMs) == (initial.runId, initial.state, initial.durationMs)
  {
    hide Summarizes, CappedDepth;
    s := initial;
    var resolver := new DepthResolver(NonBlankLinks(steps));
    assert steps.order[..0] == [];
    for i := 0 to |steps.order|
      invariant CacheCorrect(resolver.parents, resolver.depthCache)
      invariant Summarizes(steps, steps.order[..i], s)
      invariant (s.runId, s.state, s.durationMs) == (initial.runId, initial.state, initial.durationMs)
    {
      var id := steps.order[i];
      var depth := resolver.Resolve(id);
      assert steps.order[..i + 1] == steps.order[..i] + [id];
      TallyStep(steps, steps.order[..i], id, s, depth.value);
      // A recorded step always has a depth, so the default depth is never needed here.
      s := Tally(s, steps.nodes[id], depth.value);
    }
    assert steps.order[..|steps.order|] == steps.order;
  }

  // ---- Agreement with the timeline ----

  predicate EntryIsError(e: Entry) {
    e.isError
  }

  function DeepestEntry(es: seq<Entry>): nat {
    if es == [] then 0 else Max(es[0].depth, DeepestEntry(es[1..]))
  }

  lemma {:induction false} DeepestEntryIs(es: seq<Entry>)
    ensures forall e :: e in es ==> e.depth <= DeepestEntry(es)
    ensures DeepestEntry(es) == 0 || exists e :: e in es && e.depth == DeepestEntry(es)
  {
    if es != [] {
      DeepestEntryIs(es[1..]);
      assert forall e :: e in es ==> e == es[0] || e in es[1..];
      assert es[0] in es;
    }
  }

  lemma {:induction false} ErrorsMatch(es: seq<Entry>, infos: seq<StepInfo>)
    requires |es| == |infos|
    requires forall i :: 0 <= i < |es| ==> (es[i].isError <==> infos[i].status == Error)
    ensures Count(EntryIsError, es) == Count(IsError, infos)
  {
    if es != [] {
      ErrorsMatch(es[..|es| - 1], infos[..|es| - 1]);
    }
  }

  // The greatest depth is determined by the entries alone, not by their order.
  lemma {:induction false} DeepestPermuted(raw: seq<Entry>, sorted: seq<Entry>, m: nat)
    requires multiset(sorted) == multiset(raw)
    requires forall i :: 0 <= i < |raw| ==> raw[i].depth <= m
    requires m == 0 || exists i :: 0 <= i < |raw| && raw[i].depth == m
    ensures DeepestEntry(sorted) == m
  {
    DeepestEntryIs(sorted);
    forall e | e in sorted
      ensures e.depth <= m
    {
      assert e in multiset(raw);
    }
    if m > 0 {
      var i :| 0 <= i < |raw| && raw[i].depth == m;
      assert raw[i] in multiset(sorted);
    }
  }

  // What the timeline lists: a rearrangement of one entry per recorded step, in start order, with the slow marks on
  // top; the steps that started at the same time stay in the order of the table.
  lemma {:induction false} TimelineMeaning(events: seq<TraceEvent>, slowTopN: Option<int>)
    ensures var es, sorted :=
            TimelineEntries(events, slowTopN), Sort(StartKey, EntriesOf(Load(events), RunStart(events)));
            && |es| == |Load(events).order|
            && (forall i :: 0 <= i < |es| ==> es[i] == sorted[i].(slow := es[i].slow))
            && multiset(sorted) == multiset(EntriesOf(Load(events), RunStart(events)))
            && (forall i, j :: 0 <= i < j < |es| ==> es[i].startedAt <= es[j].startedAt)
            && (forall at :: WithKey(StartKey, at, sorted)
                             == WithKey(StartKey, at, EntriesOf(Load(events), RunStart(events))))
  {
    hide Load, EntriesOf, Sort, SlowIds, WithKey;
    var sorted := Sort(StartKey, EntriesOf(Load(events), RunStart(events)));
    SortIs(StartKey, EntriesOf(Load(events), RunStart(events)));
    SortKeepsTies(StartKey, EntriesOf(Load(events), RunStart(events)));
    assert forall i, j :: 0 <= i < j < |sorted| ==> StartKey(sorted[i]) <= StartKey(sorted[j]);
  }

  // The time from the first start row of a run to `at`, if there is such a row and it is not later.
  ghost predicate SinceRunStart(events: seq<TraceEvent>, at: real, offsetMs: real) {
    && (forall r: nat :: FirstRunRow(events, r) ==>
          offsetMs == if events[r].startTime < at then at - events[r].startTime else 0.0)
    && ((forall i :: 0 <= i < |events| ==> !events[i].RunStarted?) ==> offsetMs == 0.0)
  }

  lemma {:induction false} OffsetByRows(events: seq<TraceEvent>, at: real)
    ensures SinceRunStart(events, at, Offset(RunStart(events), at))
  {
    hide RunStart;
    RunByRows(events);
  }

  // What the rows of a step say of an entry: the last start row s, and the last completion row if there is one.
  ghost predicate TellsOf(events: seq<TraceEvent>, s: nat, e: Entry)
    requires LastStart(events, e.stepId, s)
  {
    && (e.name, e.stepType, e.startedAt) == (events[s].name, events[s].stepType, events[s].startTime)
    && SinceRunStart(events, e.startedAt, e.offsetMs)
    && (forall c: nat :: LastCompletion(events, e.stepId, c) ==>
          && e.status == (if events[c].failed then Error else Success)
          && e.isError == events[c].failed && e.durationMs == Some(events[c].durationMs))
    && ((forall i :: 0 <= i < |events| && events[i].StepCompleted? ==> events[i].stepId != e.stepId) ==>
          e.status == Running && !e.isError && e.durationMs == None)
  }

  lemma {:induction false} StepTells(events: seq<TraceEvent>, id: string, s: nat, slow: bool)
    requires id in Load(events).nodes && LastStart(events, id, s)
    ensures TellsOf(events, s, EntryOf(Load(events), RunStart(events), id).(slow := slow))
  {
    hide Load, RunStart, CappedDepth, SinceRunStart, Offset;
    LoadMeaning(events, id);
    OffsetByRows(events, events[s].startTime);
    if c :| 0 <= c < |events| && events[c].StepCompleted? && events[c].stepId == id {
      var last := LastCompletionExists(events, c);
    }
  }

  // Every entry of the timeline is told by the rows of its step.
  lemma {:induction false} EntryByRows(events: seq<TraceEvent>, slowTopN: Option<int>, k: nat) returns (s: nat)
    requires k < |TimelineEntries(events, slowTopN)|
    ensures LastStart(events, TimelineEntries(events, slowTopN)[k].stepId, s)
    ensures TellsOf(events, s, TimelineEntries(events, slowTopN)[k])
  {
    hide TellsOf, Load, Sort;
    var e, t := TimelineEntries(events, slowTopN)[k], Load(events);
    var raw := EntriesOf(t, RunStart(events));
    TimelineMeaning(events, slowTopN);
    assert Sort(StartKey, raw)[k] in multiset(raw);
    var i :| 0 <= i < |raw| && raw[i] == Sort(StartKey, raw)[k];
    LoadMeaning(events, t.order[i]);
    var j :| 0 <= j < |events| && events[j].StepStarted? && events[j].stepId == t.order[i];
    s := LastStartExists(events, j);
    StepTells(events, t.order[i], s, e.slow);
  }

  // The two folds agree on every row sequence: step count, error-step count and greatest depth.
  lemma {:induction false} FoldsAgree(events: seq<TraceEvent>, slowTopN: Option<int>, s: Summary)
    requires Summarizes(Load(events), Load(events).order, s)
    ensures var es := TimelineEntries(events, slowTopN);
            && |es| == s.totalSteps
            && Count(EntryIsError, es) == s.errorSteps
            && DeepestEntry(es) == s.maxDepth
  {
    var t, es := Load(events), TimelineEntries(events, slowTopN);
    var raw := EntriesOf(t, RunStart(events));
    var sorted := Sort(StartKey, raw);
    TimelineMeaning(events, slowTopN);
    ErrorsMatch(raw, Infos(t, t.order));
    CountPermuted(EntryIsError, raw, sorted);
    DepthsAgree(t, RunStart(events), sorted, s.maxDepth);
    CountMarked(sorted, es);
  }

  lemma {:induction false} DepthsAgree(t: StepTable, runStart: Option<real>, sorted: seq<Entry>, m: nat)
    requires t.Valid() && IsMaxDepth(t, t.order, m)
    requires multiset(sorted) == multiset(EntriesOf(t, runStart))
    ensures DeepestEntry(sorted) == m
  {
    var raw := EntriesOf(t, runStart);
    assert forall i :: 0 <= i < |raw| ==> raw[i].depth == CappedDepth(NonBlankLinks(t), t.order[i]);
    DeepestPermuted(raw, sorted, m);
  }

  lemma {:induction false} CountMarked(es: seq<Entry>, marked: seq<Entry>)
    requires |es| == |marked|
    requires forall i :: 0 <= i < |es| ==> marked[i] == es[i].(slow := marked[i].slow)
    ensures Count(EntryIsError, es) == Count(EntryIsError, marked)
    ensures DeepestEntry(es) == DeepestEntry(marked)
    decreases |es|
  {
    if es != [] {
      CountMarkedErrors(es, marked);
      CountMarked(es[1..], marked[1..]);
    }
  }

  lemma {:induction false} CountMarkedErrors(es: seq<Entry>, marked: seq<Entry>)
    requires |es| == |marked|
    requires forall i :: 0 <= i < |es| ==> es[i].isError == marked[i].isError
    ensures Count(EntryIsError, es) == Count(EntryIsError, marked)
  {
    if es != [] {
      CountMarkedErrors(es[..|es| - 1], marked[..|es| - 1]);
    }
  }

  // ---- Order of rows ----

  function OpeningRows(events: seq<TraceEvent>): seq<TraceEvent> {
    if events == [] then []
    else if events[|events| - 1].RunStarted? || events[|events| - 1].StepStarted?
      then OpeningRows(events[..|events| - 1]) + [events[|events| - 1]]
    else OpeningRows(events[..|events| - 1])
  }

  function ClosingRows(events: seq<TraceEvent>): seq<TraceEvent> {
    if events == [] then []
    else if events[|events| - 1].RunCompleted? || events[|events| - 1].StepCompleted?
      then ClosingRows(events[..|events| - 1]) + [events[|events| - 1]]
    else ClosingRows(events[..|events| - 1])
  }

  lemma {:induction false} OpeningRowsDecide(events: seq<TraceEvent>)
    ensures Starts(events) == Starts(OpeningRows(events))
    ensures FirstRunStarted(events) == FirstRunStarted(OpeningRows(events))
  {
    if events != [] {
      var front, e := events[..|events| - 1], events[|events| - 1];
      OpeningRowsDecide(front);
      assert (OpeningRows(front) + [e])[..|OpeningRows(front)|] == OpeningRows(front);
    }
  }

  lemma {:induction false} ClosingRowsDecide(events: seq<TraceEvent>)
    ensures Completions(events) == Completions(ClosingRows(events))
    ensures LastRunCompleted(events) == LastRunCompleted(ClosingRows(events))
  {
    if events != [] {
      var front, e := events[..|events| - 1], events[|events| - 1];
      ClosingRowsDecide(front);
      assert (ClosingRows(front) + [e])[..|ClosingRows(front)|] == ClosingRows(front);
    }
  }

  // Any reshuffle that keeps the order among opening rows and the order among closing rows changes nothing in either
  // reading, timeline or summary; the run id too is unchanged unless the rows contain no run start.
  lemma {:induction false} ReshuffleInvariant(a: seq<TraceEvent>, b: seq<TraceEvent>, slowTopN: Option<int>, s: Summary)
    requires OpeningRows(a) == OpeningRows(b) && ClosingRows(a) == ClosingRows(b)
    ensures TimelineEntries(a, slowTopN) == TimelineEntries(b, slowTopN)
    ensures Load(a) == Load(b)
    ensures StateOf(a) == StateOf(b) && LastRunCompleted(a) == LastRunCompleted(b) && RunStart(a) == RunStart(b)
    ensures SummaryOf(a, s) <==> SummaryOf(b, s)
    ensures FirstRunStarted(a).Some? ==> RunIdOf(a) == RunIdOf(b)
  {
    OpeningRowsDecide(a);
    OpeningRowsDecide(b);
    ClosingRowsDecide(a);
    ClosingRowsDecide(b);
    LoadReshuffle(a, b);
  }
}
