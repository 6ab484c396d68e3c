// The chronological timeline of one run.
module Timeline {
  import opened Wrappers
  import opened ParentGraph
  import opened StepDepth
  import opened StableSort
  import opened Trace

  datatype RunState = RunSuccess | RunError | RunRunning | RunUnknown

  datatype Entry = Entry(stepId: string, name: string, stepType: StepType, status: StepStatus, depth: nat,
                         startedAt: real, offsetMs: real, durationMs: Option<real>, isError: bool, slow: bool)

  datatype RunTimeline = RunTimeline(runId: string, state: RunState, startedAt: Option<real>, endedAt: Option<real>,
                                     durationMs: Option<real>, entries: seq<Entry>)

  function FirstRunStarted(events: seq<TraceEvent>): Option<TraceEvent> {
    if events == [] then None
    else if FirstRunStarted(events[..|events| - 1]).Some? then FirstRunStarted(events[..|events| - 1])
    else if events[|events| - 1].RunStarted? then Some(events[|events| - 1])
    else None
  }

  function LastRunCompleted(events: seq<TraceEvent>): Option<TraceEvent> {
    if events == [] then None
    else if events[|events| - 1].RunCompleted? then Some(events[|events| - 1])
    else LastRunCompleted(events[..|events| - 1])
  }

  // What the readers show as the state of the run: how it last completed, else whether it started.
  function StateOf(events: seq<TraceEvent>): RunState {
    match LastRunCompleted(events)
    case Some(c) => if c.RunCompleted? && c.failed then RunError else RunSuccess
    case None => if FirstRunStarted(events).Some? then RunRunning else RunUnknown
  }

  function RunIdOf(events: seq<TraceEvent>): string {
    match FirstRunStarted(events)
    case Some(s) => s.runId
    case None => if events != [] then events[0].runId else "unknown-run"
  }

  function RunStart(events: seq<TraceEvent>): Option<real> {
    match FirstRunStarted(events)
    case Some(s) => if s.RunStarted? then Some(s.startTime) else None
    case None => None
  }

  // The first start row of a run, and its last completion row.
  ghost predicate FirstRunRow(events: seq<TraceEvent>, k: nat) {
    k < |events| && events[k].RunStarted? && forall j :: 0 <= j < k ==> !events[j].RunStarted?
  }

  ghost predicate LastRunRow(events: seq<TraceEvent>, k: nat) {
    k < |events| && events[k].RunCompleted? && forall j :: k < j < |events| ==> !events[j].RunCompleted?
  }

  lemma {:induction false} FirstRunStartedIs(events: seq<TraceEvent>)
    ensures FirstRunStarted(events).None? ==> forall i :: 0 <= i < |events| ==> !events[i].RunStarted?
    ensures forall k: nat :: FirstRunRow(events, k) ==> FirstRunStarted(events) == Some(events[k])
  {
    if events != [] {
      var front := events[..|events| - 1];
      FirstRunStartedIs(front);
      assert forall i :: 0 <= i < |front| ==> front[i] == events[i];
      forall k: nat | FirstRunRow(events, k)
        ensures FirstRunStarted(events) == Some(events[k])
      {
        assert k < |front| ==> FirstRunRow(front, k);
        if k == |front| && FirstRunStarted(front).Some? {
          var i := FirstRunRowExists(front);
        }
      }
    }
  }

  lemma {:induction false} FirstRunRowExists(events: seq<TraceEvent>) returns (k: nat)
    requires FirstRunStarted(events).Some?
    ensures FirstRunRow(events, k)
  {
    var front := events[..|events| - 1];
    if FirstRunStarted(front).Some? {
      k := FirstRunRowExists(front);
      assert forall i :: 0 <= i < |front| ==> front[i] == events[i];
    } else {
      FirstRunStartedIs(front);
      assert forall i :: 0 <= i < |front| ==> front[i] == events[i];
      k := |front|;
    }
  }

  lemma {:induction false} LastRunCompletedIs(events: seq<TraceEvent>)
    ensures LastRunCompleted(events).None? <==> forall i :: 0 <= i < |events| ==> !events[i].RunCompleted?
    ensures forall k: nat :: LastRunRow(events, k) ==> LastRunCompleted(events) == Some(events[k])
  {
    if events != [] {
      var front := events[..|events| - 1];
      LastRunCompletedIs(front);
      assert forall i :: 0 <= i < |front| ==> front[i] == events[i];
      assert forall k: nat :: LastRunRow(events, k) && k < |front| ==> LastRunRow(front, k);
    }
  }

  // The run by its rows: the first start row gives id and time, the last completion row the state.
  lemma {:induction false} RunByRows(events: seq<TraceEvent>)
    ensures forall k: nat :: FirstRunRow(events, k) ==>
              RunIdOf(events) == events[k].runId && RunStart(events) == Some(events[k].startTime)
    ensures (forall i :: 0 <= i < |events| ==> !events[i].RunStarted?) ==>
              RunStart(events) == None && RunIdOf(events) == if events == [] then "unknown-run" else events[0].runId
    ensures forall k: nat :: LastRunRow(events, k) ==>
              LastRunCompleted(events) == Some(events[k])
              && StateOf(events) == if events[k].failed then RunError else RunSuccess
    ensures (forall i :: 0 <= i < |events| ==> !events[i].RunCompleted?) ==>
              LastRunCompleted(events) == None
              && (StateOf(events) == RunRunning <==> exists i :: 0 <= i < |events| && events[i].RunStarted?)
              && (StateOf(events) == RunUnknown <==> forall i :: 0 <= i < |events| ==> !events[i].RunStarted?)
  {
    FirstRunStartedIs(events);
    LastRunCompletedIs(events);
    if FirstRunStarted(events).Some? {
      var k := FirstRunRowExists(events);
    }
  }

  function Offset(runStart: Option<real>, startedAt: real): real {
    if runStart.Some? && runStart.value < startedAt then startedAt - runStart.value else 0.0
  }

  ghost function EntryOf(t: StepTable, runStart: Option<real>, id: string): Entry
    requires id in t.nodes
  {
    var s := t.nodes[id];
    Entry(id, s.name, s.stepType, s.status, CappedDepth(NonBlankLinks(t), id), s.startedAt,
          Offset(runStart, s.startedAt), s.durationMs, s.status == Error, false)
  }

  ghost function EntriesOf(t: StepTable, runStart: Option<real>): (r: seq<Entry>)
    requires t.Valid()
    ensures |r| == |t.order|
  {
    seq(|t.order|, i requires 0 <= i < |t.order| => EntryOf(t, runStart, t.order[i]))
  }

  function StartKey(e: Entry): real {
    e.startedAt
  }

  // Longest duration first.
  function DurationKey(e: Entry): real {
    if e.durationMs.Some? then -e.durationMs.value else 0.0
  }

  function Timed(entries: seq<Entry>): seq<Entry> {
    if entries == [] then []
    else if entries[|entries| - 1].durationMs.Some? then Timed(entries[..|entries| - 1]) + [entries[|entries| - 1]]
    else Timed(entries[..|entries| - 1])
  }

  // Array.prototype.slice(0, n), where a negative n counts from the end.
  function Slice<T>(entries: seq<T>, n: int): (r: seq<T>)
    ensures r <= entries
    ensures |r| == if n >= 0 then Min(n, |entries|) else Max(0, |entries| + n)
  {
    if n >= 0 then entries[..Min(n, |entries|)] else entries[..Max(0, |entries| + n)]
  }

  function Ranked(entries: seq<Entry>): seq<Entry> {
    Sort(DurationKey, Timed(entries))
  }

  function SlowIds(entries: seq<Entry>, topN: int): set<string> {
    set i | 0 <= i < |Slice(Ranked(entries), topN)| :: Slice(Ranked(entries), topN)[i].stepId
  }

  ghost function MarkSlow(entries: seq<Entry>, topN: int): (r: seq<Entry>)
    ensures |r| == |entries|
  {
    seq(|entries|, i requires 0 <= i < |entries| =>
      entries[i].(slow := entries[i].slow || entries[i].stepId in SlowIds(entries, topN)))
  }

  ghost function TimelineEntries(events: seq<TraceEvent>, slowTopN: Option<int>): seq<Entry> {
    var sorted := Sort(StartKey, EntriesOf(Load(events), RunStart(events)));
    if slowTopN.Some? then MarkSlow(sorted, slowTopN.value) else sorted
  }

  method CollectEntries(steps: StepTable, runStart: Option<real>) returns (entries: seq<Entry>)
    requires steps.Valid()
    ensures entries == EntriesOf(steps, runStart)
  {
    var resolver := new DepthResolver(NonBlankLinks(steps));
    entries := [];
    for i := 0 to |steps.order|
      invariant CacheCorrect(resolver.parents, resolver.depthCache)
      invariant entries == EntriesOf(steps, runStart)[..i]
    {
      var id := steps.order[i];
      var s := steps.nodes[id];
      var depth := resolver.Resolve(id);
      if depth.None? {
        // The "Failed to resolve timeline depth" exception is unreachable.
        assert false;
      }
      entries := entries + [Entry(id, s.name, s.stepType, s.status, depth.value, s.startedAt,
                                  Offset(runStart, s.startedAt), s.durationMs, s.status == Error, false)];
    }
  }

  method FlagSlow(entries: seq<Entry>, topN: int) returns (r: seq<Entry>)
    ensures r == MarkSlow(entries, topN)
  {
    var slowIds := SlowIds(entries, topN);
    r := entries;
    for i := 0 to |r|
      invariant |r| == |entries|
      invariant r[..i] == MarkSlow(entries, topN)[..i]
      invariant r[i..] == entries[i..]
    {
      assert r[i] == r[i..][0] == entries[i];
      assert r[i + 1..] == r[i..][1..];
      if r[i].stepId in slowIds {
        r := r[i := r[i].(slow := true)];
      }
      assert r[i] == MarkSlow(entries, topN)[i];
    }
  }

  // `slowTopN` is set when the focus is on slow steps.
  method BuildRunTimeline(events: seq<TraceEvent>, slowTopN: Option<int>) returns (r: RunTimeline)
    ensures r.entries == TimelineEntries(events, slowTopN)
    ensures r.state == StateOf(events) && r.runId == RunIdOf(events) && r.startedAt == RunStart(events)
    ensures var c := LastRunCompleted(events);
            && r.durationMs == (if c.Some? && c.value.RunCompleted? then Some(c.value.durationMs) else None)
            && r.endedAt == (if c.Some? && c.value.RunCompleted? then Some(c.value.endTime) else None)
  {
    var steps := LoadSteps(events);
    var runStart := RunStart(events);
    var entries := CollectEntries(steps, runStart);
    entries := Sort(StartKey, entries);
    if slowTopN.Some? {
      entries := FlagSlow(entries, slowTopN.value);
    }
    var last := LastRunCompleted(events);
    r := RunTimeline(RunIdOf(events), StateOf(events), runStart,
                     if last.Some? && last.value.RunCompleted? then Some(last.value.endTime) else None,
                     if last.Some? && last.value.RunCompleted? then Some(last.value.durationMs) else None,
                     entries);
  }
}
