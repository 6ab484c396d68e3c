// Statistics over many runs.
module Stats {
  import opened Wrappers
  import opened Counting
  import opened StableSort
  import opened Trace
  import opened Timeline
  import opened RunSummary

  // ---- Nearest-rank percentiles ----

  function Ceil(x: real): int {
    -((-x).Floor)
  }

  // p per cent of n samples.
  function Share(p: real, n: nat): real {
    p / 100.0 * n as real
  }

  function Rank(n: nat, share: real): int
    requires n > 0
  {
    Min(n - 1, Max(0, Ceil(share) - 1))
  }

  function Percentile(sorted: seq<real>, p: real): Option<real> {
    if sorted == [] then None else Some(sorted[Rank(|sorted|, Share(p, |sorted|))])
  }

  function Id(x: real): real {
    x
  }

  function AtMost(v: real): real -> bool {
    (x: real) => x <= v
  }

  function Below(v: real): real -> bool {
    (x: real) => x < v
  }

  // v is a sample with at least this share of the samples at or below it, and less than this share below it.
  ghost predicate Splits(samples: seq<real>, share: real, v: real) {
    v in samples && Count(AtMost(v), samples) as real >= share && (Count(Below(v), samples) as real) < share
  }

  lemma {:induction false} CountAtLeast<T>(f: T -> bool, s: seq<T>, k: nat)
    requires k <= |s| && forall i :: 0 <= i < k ==> f(s[i])
    ensures Count(f, s) >= k
  {
    if s != [] && k > 0 {
      CountAtLeast(f, s[..|s| - 1], if k == |s| then k - 1 else k);
    }
  }

  lemma {:induction false} CountAtMost<T>(f: T -> bool, s: seq<T>, k: nat)
    requires k <= |s| && forall i :: k <= i < |s| ==> !f(s[i])
    ensures Count(f, s) <= k
  {
    if k < |s| {
      CountAtMost(f, s[..|s| - 1], k);
    }
  }

  lemma {:induction false} ShareBounds(p: real, n: nat)
    requires n > 0 && 0.0 < p <= 100.0
    ensures 0.0 < Share(p, n) <= n as real
  {
    ShareGrows(p, 100.0, n);
  }

  lemma {:induction false} ShareGrows(p: real, q: real, n: nat)
    requires p <= q
    ensures Share(p, n) <= Share(q, n)
  {
    assert Share(q, n) - Share(p, n) == (q - p) / 100.0 * n as real;
  }

  lemma {:induction false} RankBounds(n: nat, share: real)
    requires 0.0 < share <= n as real
    ensures 0 <= Rank(n, share) < n
    ensures (Rank(n, share) as real) < share <= (Rank(n, share) + 1) as real
  {
    assert share <= Ceil(share) as real < share + 1.0;
  }

  lemma {:induction false} SortedCounts(sorted: seq<real>, k: nat)
    requires k < |sorted| && Ascending(Id, sorted)
    ensures Count(AtMost(sorted[k]), sorted) >= k + 1
    ensures Count(Below(sorted[k]), sorted) <= k
  {
    assert forall i :: 0 <= i < k ==> Id(sorted[i]) <= Id(sorted[k]);
    assert forall i :: k < i < |sorted| ==> Id(sorted[k]) <= Id(sorted[i]);
    CountAtLeast(AtMost(sorted[k]), sorted, k + 1);
    CountAtMost(Below(sorted[k]), sorted, k);
  }

  lemma {:induction false} SplitsAt(samples: seq<real>, sorted: seq<real>, k: nat, share: real)
    requires multiset(sorted) == multiset(samples) && Ascending(Id, sorted) && k < |sorted|
    requires (k as real) < share <= (k + 1) as real
    ensures Splits(samples, share, sorted[k])
  {
    SortedCounts(sorted, k);
    CountPermuted(AtMost(sorted[k]), samples, sorted);
    CountPermuted(Below(sorted[k]), samples, sorted);
    assert sorted[k] in multiset(samples);
  }

  // The value computed splits the samples at p per cent, however they were ordered.
  lemma {:induction false} PercentileSplits(samples: seq<real>, p: real)
    requires samples != [] && 0.0 < p <= 100.0
    ensures Percentile(Sort(Id, samples), p).Some?
    ensures Splits(samples, Share(p, |samples|), Percentile(Sort(Id, samples), p).value)
  {
    var share := Share(p, |samples|);
    SortIs(Id, samples);
    ShareBounds(p, |samples|);
    RankBounds(|samples|, share);
    SplitsAt(samples, Sort(Id, samples), Rank(|samples|, share), share);
  }

  lemma {:induction false} CountMore<T>(f: T -> bool, g: T -> bool, s: seq<T>)
    requires forall x :: x in s && f(x) ==> g(x)
    ensures Count(f, s) <= Count(g, s)
  {
    if s != [] {
      CountMore(f, g, s[..|s| - 1]);
    }
  }

  // The values grow with the share; so there is only one value for each share.
  lemma {:induction false} SplitsMonotone(samples: seq<real>, low: real, high: real, v: real, w: real)
    requires low <= high && Splits(samples, low, v) && Splits(samples, high, w)
    ensures v <= w
  {
    if w < v {
      CountMore(AtMost(w), Below(v), samples);
    }
  }

  // ---- Durations ----

  datatype DurationStats = DurationStats(minMs: real, maxMs: real, avgMs: real, p50Ms: real, p95Ms: real)

  function Sum(s: seq<real>): real {
    if s == [] then 0.0 else Sum(s[..|s| - 1]) + s[|s| - 1]
  }

  function Mean(s: seq<real>): real
    requires s != []
  {
    Sum(s) / |s| as real
  }

  lemma {:induction false} SumConcat(a: seq<real>, b: seq<real>)
    ensures Sum(a + b) == Sum(a) + Sum(b)
  {
    if b == [] {
      assert a + b == a;
    } else {
      assert (a + b)[..|a + b| - 1] == a + b[..|b| - 1];
      SumConcat(a, b[..|b| - 1]);
    }
  }

  // The sum of one value is the value, and that of two sequences the sum of theirs; the mean
  // times the length is the sum.
  lemma {:induction false} MeanLaws(x: real, a: seq<real>, b: seq<real>)
    ensures Sum([]) == 0.0 && Sum([x]) == x && Sum(a + b) == Sum(a) + Sum(b)
    ensures a != [] ==> Mean(a) * |a| as real == Sum(a)
  {
    assert [x][..0] == [];
    SumConcat(a, b);
  }

  lemma {:induction false} MeanBetween(s: seq<real>, low: real, high: real)
    requires s != [] && forall i :: 0 <= i < |s| ==> low <= s[i] <= high
    ensures low <= Mean(s) <= high
  {
    SumBetween(s, low, high);
    Average(Sum(s), low, high, |s|);
  }

  lemma {:induction false} SumBetween(s: seq<real>, low: real, high: real)
    requires forall i :: 0 <= i < |s| ==> low <= s[i] <= high
    ensures low * |s| as real <= Sum(s) <= high * |s| as real
  {
    if s != [] {
      SumBetween(s[..|s| - 1], low, high);
      assert low * |s| as real == low * (|s| - 1) as real + low;
      assert high * |s| as real == high * (|s| - 1) as real + high;
    }
  }

  // The figures shown for a sequence of durations.
  function Durations(durations: seq<real>): Option<DurationStats> {
    if durations == [] then None
    else
      var sorted := Sort(Id, durations);
      SortIs(Id, durations);
      Some(DurationStats(sorted[0], sorted[|sorted| - 1], Mean(durations),
                         Percentile(sorted, 50.0).value, Percentile(sorted, 95.0).value))
  }

  // The least, greatest and average duration.
  lemma {:induction false} DurationsRange(durations: seq<real>)
    requires durations != []
    ensures var d := Durations(durations).value;
            && (forall i :: 0 <= i < |durations| ==> d.minMs <= durations[i] <= d.maxMs)
            && d.minMs in durations && d.maxMs in durations
            && d.minMs <= d.avgMs <= d.maxMs
  {
    var d := Durations(durations).value;
    SortIs(Id, durations);
    Extremes(durations, Sort(Id, durations));
    MeanBetween(durations, d.minMs, d.maxMs);
  }

  // The average is the sum of the durations divided by how many there are.
  lemma {:induction false} DurationsMean(durations: seq<real>)
    requires durations != []
    ensures Durations(durations).value.avgMs * |durations| as real == Sum(durations)
  {
    hide Sum, Mean, Sort;
    MeanLaws(0.0, durations, []);
  }

  // The median and the 95th percentile, in order between the least and the greatest duration.
  lemma {:induction false} DurationsOrdered(durations: seq<real>)
    requires durations != []
    ensures var d, n := Durations(durations).value, |durations|;
            && Splits(durations, Share(50.0, n), d.p50Ms) && Splits(durations, Share(95.0, n), d.p95Ms)
            && d.minMs <= d.p50Ms <= d.p95Ms <= d.maxMs
  {
    var d, n := Durations(durations).value, |durations|;
    DurationsRange(durations);
    PercentileSplits(durations, 50.0);
    PercentileSplits(durations, 95.0);
    ShareGrows(50.0, 95.0, n);
    SplitsMonotone(durations, Share(50.0, n), Share(95.0, n), d.p50Ms, d.p95Ms);
  }

  lemma {:induction false} Extremes(durations: seq<real>, sorted: seq<real>)
    requires durations != [] && |sorted| == |durations| && multiset(sorted) == multiset(durations)
             && Ascending(Id, sorted)
    ensures forall i :: 0 <= i < |durations| ==> sorted[0] <= durations[i] <= sorted[|sorted| - 1]
    ensures sorted[0] in durations && sorted[|sorted| - 1] in durations
  {
    assert sorted[0] in multiset(durations) && sorted[|sorted| - 1] in multiset(durations);
    forall i | 0 <= i < |durations|
      ensures sorted[0] <= durations[i] <= sorted[|sorted| - 1]
    {
      assert durations[i] in multiset(sorted);
      var k :| 0 <= k < |sorted| && sorted[k] == durations[i];
      assert Id(sorted[0]) <= Id(sorted[k]) <= Id(sorted[|sorted| - 1]);
    }
  }

  lemma {:induction false} Average(sum: real, low: real, high: real, n: nat)
    requires n > 0 && low * n as real <= sum <= high * n as real
    ensures low <= sum / n as real <= high
  {
    assert sum / n as real * n as real == sum;
  }

  // ---- The figures over all runs ----

  // A trace file that passed the filters: what its metadata says, and its rows unless reading fails.
  datatype RunMeta = RunMeta(runId: string, name: Option<string>, state: RunState, durationMs: Option<real>,
                             events: Option<seq<TraceEvent>>)

  datatype RankedRun = RankedRun(runId: string, name: Option<string>, durationMs: real, state: RunState)
  datatype RankedStep = RankedStep(runId: string, stepName: string, stepType: StepType, durationMs: real)

  datatype TraceStats = TraceStats(totalRuns: nat, successCount: nat, errorCount: nat, runningCount: nat,
                                   unknownCount: nat, errorRate: real, duration: Option<DurationStats>, totalSteps: nat,
                                   avgStepsPerRun: real, totalLlmSteps: nat, totalToolSteps: nat, totalErrorSteps: nat,
                                   slowestRuns: seq<RankedRun>, slowestSteps: seq<RankedStep>)

  function InState(state: RunState): RunMeta -> bool {
    (m: RunMeta) => m.state == state
  }

  predicate HasDuration(m: RunMeta) {
    m.durationMs.Some? && m.durationMs.value >= 0.0
  }

  function DurationOf(m: RunMeta): seq<real> {
    if HasDuration(m) then [m.durationMs.value] else []
  }

  function RankedRunOf(m: RunMeta): seq<RankedRun> {
    if HasDuration(m) then [RankedRun(m.runId, m.name, m.durationMs.value, m.state)] else []
  }

  function RowsOf(m: RunMeta): seq<TraceEvent> {
    if m.events.Some? then m.events.value else []
  }

  // Each completion row, with the name and type its step was last started with before it.
  function CompletedSteps(runId: string, events: seq<TraceEvent>): seq<RankedStep> {
    if events == [] then []
    else
      var front, e := events[..|events| - 1], events[|events| - 1];
      CompletedSteps(runId, front) + (if e.StepCompleted? then [CompletedStep(runId, OpenAll(front), e)] else [])
  }

  function CompletedStep(runId: string, started: StepTable, e: TraceEvent): RankedStep
    requires e.StepCompleted?
  {
    if e.stepId in started.nodes
    then RankedStep(runId, started.nodes[e.stepId].name, started.nodes[e.stepId].stepType, e.durationMs)
    else RankedStep(runId, e.stepId, LogicStep, e.durationMs)
  }

  lemma {:induction false} NextCompleted(runId: string, events: seq<TraceEvent>, i: nat)
    requires i < |events|
    ensures var t, e := OpenAll(events[..i]), events[i];
            && CompletedSteps(runId, events[..i + 1])
               == CompletedSteps(runId, events[..i]) + (if e.StepCompleted? then [CompletedStep(runId, t, e)] else [])
            && Labels(OpenAll(events[..i + 1]))
               == if e.StepStarted? then Labels(t)[e.stepId := (e.name, e.stepType)] else Labels(t)
  {
    OpenAllNext(events, i);
    assert events[..i + 1][..i] == events[..i];
  }

  method CollectCompletedSteps(runId: string, events: seq<TraceEvent>) returns (out: seq<RankedStep>)
    ensures out == CompletedSteps(runId, events)
  {
    out := [];
    var started: map<string, (string, StepType)> := map[];
    for i := 0 to |events|
      invariant out == CompletedSteps(runId, events[..i])
      invariant started == Labels(OpenAll(events[..i]))
    {
      NextCompleted(runId, events, i);
      hide CompletedSteps, OpenAll;
      var e := events[i];
      if e.StepStarted? {
        started := started[e.stepId := (e.name, e.stepType)];
      }
      if e.StepCompleted? {
        out := out + [if e.stepId in started
                      then RankedStep(runId, started[e.stepId].0, started[e.stepId].1, e.durationMs)
                      else RankedStep(runId, e.stepId, LogicStep, e.durationMs)];
      }
    }
    assert events[..|events|] == events;
  }

  function Labels(t: StepTable): map<string, (string, StepType)> {
    map id | id in t.nodes :: (t.nodes[id].name, t.nodes[id].stepType)
  }

  function StepsOf(m: RunMeta): seq<RankedStep> {
    CompletedSteps(m.runId, RowsOf(m))
  }

  function InfosOf(m: RunMeta): seq<StepInfo> {
    Infos(Load(RowsOf(m)), Load(RowsOf(m)).order)
  }

  function RunKey(r: RankedRun): real {
    -r.durationMs
  }

  function StepKey(s: RankedStep): real {
    -s.durationMs
  }

  // What the figures mean, by the runs taken one by one.
  ghost predicate Describes(metas: seq<RunMeta>, runLimit: int, stepLimit: int, s: TraceStats) {
    && s.totalRuns == |metas|
    && s.successCount == Count(InState(RunSuccess), metas)
    && s.errorCount == Count(InState(RunError), metas)
    && s.runningCount == Count(InState(RunRunning), metas)
    && s.unknownCount == Count(InState(RunUnknown), metas)
    && s.errorRate == (if metas == [] then 0.0 else s.errorCount as real / |metas| as real)
    && s.duration == Durations(FlatMap(DurationOf, metas))
    && s.totalSteps == |FlatMap(InfosOf, metas)|
    && s.avgStepsPerRun == (if metas == [] then 0.0 else s.totalSteps as real / |metas| as real)
    && s.totalLlmSteps == Count(IsLlm, FlatMap(InfosOf, metas))
    && s.totalToolSteps == Count(IsTool, FlatMap(InfosOf, metas))
    && s.totalErrorSteps == Count(IsError, FlatMap(InfosOf, metas))
    && s.slowestRuns == Slice(Sort(RunKey, FlatMap(RankedRunOf, metas)), runLimit)
    && s.slowestSteps == Slice(Sort(StepKey, FlatMap(StepsOf, metas)), stepLimit)
  }

  datatype StepTotals = StepTotals(steps: nat, llm: nat, tool: nat, error: nat)

  ghost predicate Totals(infos: seq<StepInfo>, t: StepTotals) {
    t.steps == |infos| && t.llm == Count(IsLlm, infos) && t.tool == Count(IsTool, infos)
    && t.error == Count(IsError, infos)
  }

  lemma {:induction false} TotalsAre(infos: seq<StepInfo>, t: StepTotals)
    requires Totals(infos, t)
    ensures t.steps == |infos| && t.llm == Count(IsLlm, infos) && t.tool == Count(IsTool, infos)
            && t.error == Count(IsError, infos)
  {
  }

  lemma {:induction false} NoMetas()
    ensures forall state :: Count(InState(state), []) == 0
    ensures FlatMap(DurationOf, []) == [] && FlatMap(RankedRunOf, []) == [] && FlatMap(StepsOf, []) == []
    ensures Totals(FlatMap(InfosOf, []), StepTotals(0, 0, 0, 0))
  {
  }

  lemma {:induction false} TotalsAdd(a: seq<StepInfo>, b: seq<StepInfo>, s: StepTotals, t: StepTotals)
    requires Totals(a, s) && Totals(b, t)
    ensures Totals(a + b, StepTotals(s.steps + t.steps, s.llm + t.llm, s.tool + t.tool, s.error + t.error))
  {
    CountConcat(IsLlm, a, b);
    CountConcat(IsTool, a, b);
    CountConcat(IsError, a, b);
  }

  // The rows of one run: its step totals and its completed steps.
  method ReadRun(m: RunMeta) returns (totals: StepTotals, steps: seq<RankedStep>)
    ensures Totals(InfosOf(m), totals) && steps == StepsOf(m)
  {
    var events := RowsOf(m);
    if events == [] {
      return StepTotals(0, 0, 0, 0), [];
    }
    var summary := BuildRunSummary(events);
    totals := StepTotals(summary.totalSteps, summary.llmSteps, summary.toolSteps, summary.errorSteps);
    steps := CollectCompletedSteps(m.runId, events);
  }

  // The metas are those that passed the filters.
  method BuildTraceStats(metas: seq<RunMeta>, runLimit: int, stepLimit: int) returns (s: TraceStats)
    ensures Describes(metas, runLimit, stepLimit, s)
    ensures s.successCount + s.errorCount + s.runningCount + s.unknownCount == s.totalRuns
  {
    hide Count, FlatMap, Sort, Durations, InfosOf, StepsOf, Totals;
    NoMetas();
    var success, error, running, unknown := 0, 0, 0, 0;
    var durations: seq<real>, slowestRuns: seq<RankedRun>, slowestSteps: seq<RankedStep> := [], [], [];
    var totals := StepTotals(0, 0, 0, 0);
    for i := 0 to |metas|
      invariant success == Count(InState(RunSuccess), metas[..i]) && error == Count(InState(RunError), metas[..i])
      invariant running == Count(InState(RunRunning), metas[..i]) && unknown == Count(InState(RunUnknown), metas[..i])
      invariant success + error + running + unknown == i
      invariant durations == FlatMap(DurationOf, metas[..i])
      invariant slowestRuns == FlatMap(RankedRunOf, metas[..i])
      invariant slowestSteps == FlatMap(StepsOf, metas[..i])
      invariant Totals(FlatMap(InfosOf, metas[..i]), totals)
    {
      var m := metas[i];
      MetaSnoc(metas[..i], m);
      assert metas[..i + 1] == metas[..i] + [m];
      match m.state {
        case RunSuccess => success := success + 1;
        case RunError => error := error + 1;
        case RunRunning => running := running + 1;
        case RunUnknown => unknown := unknown + 1;
      }
      if m.durationMs.Some? && m.durationMs.value >= 0.0 {
        durations := durations + [m.durationMs.value];
        slowestRuns := slowestRuns + [RankedRun(m.runId, m.name, m.durationMs.value, m.state)];
      }
      var more, steps := ReadRun(m);
      TotalsAdd(FlatMap(InfosOf, metas[..i]), InfosOf(m), totals, more);
      totals := StepTotals(totals.steps + more.steps, totals.llm + more.llm,
                           totals.tool + more.tool, totals.error + more.error);
      slowestSteps := slowestSteps + steps;
    }
    assert metas[..|metas|] == metas;
    TotalsAre(FlatMap(InfosOf, metas), totals);
    var n := |metas|;
    s := TraceStats(n, success, error, running, unknown, if n > 0 then error as real / n as real else 0.0,
                    Durations(durations), totals.steps, if n > 0 then totals.steps as real / n as real else 0.0,
                    totals.llm, totals.tool, totals.error,
                    Slice(Sort(RunKey, slowestRuns), runLimit), Slice(Sort(StepKey, slowestSteps), stepLimit));
  }

  lemma {:induction false} MetaSnoc(metas: seq<RunMeta>, m: RunMeta)
    ensures Count(InState(RunSuccess), metas + [m])
         == Count(InState(RunSuccess), metas) + (if m.state == RunSuccess then 1 else 0)
    ensures Count(InState(RunError), metas + [m])
         == Count(InState(RunError), metas) + (if m.state == RunError then 1 else 0)
    ensures Count(InState(RunRunning), metas + [m])
         == Count(InState(RunRunning), metas) + (if m.state == RunRunning then 1 else 0)
    ensures Count(InState(RunUnknown), metas + [m])
         == Count(InState(RunUnknown), metas) + (if m.state == RunUnknown then 1 else 0)
    ensures FlatMap(DurationOf, metas + [m]) == FlatMap(DurationOf, metas) + DurationOf(m)
    ensures FlatMap(RankedRunOf, metas + [m]) == FlatMap(RankedRunOf, metas) + RankedRunOf(m)
    ensures FlatMap(StepsOf, metas + [m]) == FlatMap(StepsOf, metas) + StepsOf(m)
    ensures FlatMap(InfosOf, metas + [m]) == FlatMap(InfosOf, metas) + InfosOf(m)
  {
    CountSnoc(InState(RunSuccess), metas, m);
    CountSnoc(InState(RunError), metas, m);
    CountSnoc(InState(RunRunning), metas, m);
    CountSnoc(InState(RunUnknown), metas, m);
    FlatMapSnoc(DurationOf, metas, m);
    FlatMapSnoc(RankedRunOf, metas, m);
    FlatMapSnoc(StepsOf, metas, m);
    FlatMapSnoc(InfosOf, metas, m);
  }

  // ---- The slowest runs and steps ----

  // The first n of the sorted elements: in descending order, and none of the others is greater.
  ghost predicate Greatest<T(!new)>(size: T -> real, all: seq<T>, n: int, kept: seq<T>, rest: seq<T>) {
    && |kept| == (if n >= 0 then Min(n, |all|) else Max(0, |all| + n))
    && multiset(kept) + multiset(rest) == multiset(all)
    && (forall i, j :: 0 <= i < j < |kept| ==> size(kept[i]) >= size(kept[j]))
    && (forall a, b :: a in kept && b in rest ==> size(a) >= size(b))
  }

  lemma {:induction false} TopIsGreatest<T(!new)>(key: T -> real, size: T -> real, all: seq<T>, n: int)
    returns (rest: seq<T>)
    requires forall x :: key(x) == -size(x)
    ensures Greatest(size, all, n, Slice(Sort(key, all), n), rest)
  {
    var sorted := Sort(key, all);
    SortIs(key, all);
    var kept := Slice(sorted, n);
    TopOfSorted(key, all, |kept|);
    assert kept == sorted[..|kept|];
    rest := sorted[|kept|..];
    forall i, j | 0 <= i < j < |kept|
      ensures size(kept[i]) >= size(kept[j])
    {
      assert key(sorted[i]) <= key(sorted[j]);
    }
    forall a, b | a in kept && b in rest
      ensures size(a) >= size(b)
    {
      assert key(a) <= key(b);
    }
  }

  function RunTime(r: RankedRun): real {
    r.durationMs
  }

  function StepTime(s: RankedStep): real {
    s.durationMs
  }

  predicate Counts(m: RunMeta) {
    m.durationMs.Some? && m.durationMs.value >= 0.0
  }

  ghost predicate RankedFrom(metas: seq<RunMeta>, x: RankedRun) {
    exists i :: 0 <= i < |metas| && Counts(metas[i])
                && x == RankedRun(metas[i].runId, metas[i].name, metas[i].durationMs.value, metas[i].state)
  }

  lemma {:induction false} RankedRunsAre(metas: seq<RunMeta>)
    ensures |FlatMap(RankedRunOf, metas)| == Count(Counts, metas)
    ensures forall x :: x in FlatMap(RankedRunOf, metas) <==> RankedFrom(metas, x)
  {
    FlatMapCount(RankedRunOf, Counts, metas);
    forall x
      ensures x in FlatMap(RankedRunOf, metas) <==> RankedFrom(metas, x)
    {
      FlatMapMember(RankedRunOf, metas, x);
    }
  }

  // The slowest runs: as many as asked for, in descending order, of one entry for each run with a duration that is not
  // negative, with the run's id, name, duration and state; and none of the others took longer.
  lemma {:induction false} SlowestRuns(metas: seq<RunMeta>, runLimit: int, stepLimit: int, s: TraceStats)
    returns (all: seq<RankedRun>, rest: seq<RankedRun>)
    requires Describes(metas, runLimit, stepLimit, s)
    ensures Greatest(RunTime, all, runLimit, s.slowestRuns, rest)
    ensures |all| == Count(Counts, metas) && forall x :: x in all <==> RankedFrom(metas, x)
  {
    hide FlatMap, Count, RankedFrom, Greatest;
    all := FlatMap(RankedRunOf, metas);
    rest := TopIsGreatest(RunKey, RunTime, all, runLimit);
    RankedRunsAre(metas);
  }

  lemma {:induction false} FlatMapCount<S, T>(f: S -> seq<T>, p: S -> bool, s: seq<S>)
    requires forall x :: |f(x)| == if p(x) then 1 else 0
    ensures |FlatMap(f, s)| == Count(p, s)
  {
    if s != [] {
      FlatMapCount(f, p, s[..|s| - 1]);
    }
  }

  // The durations are those of the same runs, one each.
  lemma {:induction false} DurationsOfRuns(metas: seq<RunMeta>)
    ensures |FlatMap(DurationOf, metas)| == Count(Counts, metas)
    ensures forall d :: d in FlatMap(DurationOf, metas) <==>
              exists i :: 0 <= i < |metas| && metas[i].durationMs == Some(d) && d >= 0.0
  {
    FlatMapCount(DurationOf, Counts, metas);
    forall d
      ensures d in FlatMap(DurationOf, metas) <==>
                exists i :: 0 <= i < |metas| && metas[i].durationMs == Some(d) && d >= 0.0
    {
      FlatMapMember(DurationOf, metas, d);
    }
  }

  // The slowest steps, in the same way, of the completed steps of all runs.
  lemma {:induction false} SlowestSteps(metas: seq<RunMeta>, runLimit: int, stepLimit: int, s: TraceStats)
    returns (rest: seq<RankedStep>)
    requires Describes(metas, runLimit, stepLimit, s)
    ensures Greatest(StepTime, FlatMap(StepsOf, metas), stepLimit, s.slowestSteps, rest)
  {
    rest := TopIsGreatest(StepKey, StepTime, FlatMap(StepsOf, metas), stepLimit);
  }

  // ---- Completed steps by rows ----

  predicate IsCompletion(e: TraceEvent) {
    e.StepCompleted?
  }

  // Each completion row has its entry, in order: the duration it gives, and the name and type of the last start row of
  // its step before it; without one, the step's id and the type of a logic step.
  lemma {:induction false} CompletedByRows(runId: string, events: seq<TraceEvent>, i: nat)
    requires i < |events| && events[i].StepCompleted?
    ensures |CompletedSteps(runId, events)| == Count(IsCompletion, events)
    ensures Count(IsCompletion, events[..i]) < |CompletedSteps(runId, events)|
    ensures var e, id := CompletedSteps(runId, events)[Count(IsCompletion, events[..i])], events[i].stepId;
            && e.runId == runId && e.durationMs == events[i].durationMs
            && (forall s: nat :: LastStart(events[..i], id, s) ==>
                  (e.stepName, e.stepType) == (events[s].name, events[s].stepType))
            && ((forall s :: 0 <= s < i && events[s].StepStarted? ==> events[s].stepId != id) ==>
                  (e.stepName, e.stepType) == (id, LogicStep))
  {
    var front, last := events[..|events| - 1], events[|events| - 1];
    CompletedCount(runId, events);
    CompletedCount(runId, front);
    if i < |front| {
      CompletedByRows(runId, front, i);
      assert front[..i] == events[..i];
    } else {
      OpenAllMeaning(front, last.stepId);
    }
  }

  lemma {:induction false} CompletedCount(runId: string, events: seq<TraceEvent>)
    ensures |CompletedSteps(runId, events)| == Count(IsCompletion, events)
  {
    if events != [] {
      CompletedCount(runId, events[..|events| - 1]);
    }
  }
}
