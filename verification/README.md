# AgentInspect: a verified model

AgentInspect records the runs of an agent program as append-only rows and later rebuilds trees, depths, timings and
verdicts from those rows. This project models the parts of it that are hard to get right and proves what they promise,
in Dafny 4.11. `dafny verify dfyconfig.toml` checks everything.

**Instrumentation as a concurrent protocol.** `Protocol` gives user programs (settling, awaiting with arbitrary
continuations, steps, runs, `Promise.all`) a small-step semantics: an arbitrary scheduler, ambient stores for each task,
one log. A `Promise.all` that rejects leaves its other branches running. Any number of tracers, each with a store of its
own, may be mixed in one program: the module behind `inspectRun` and `step`, and the inspectors of `createInspector`.
Each run or step is a frame that goes through its writes, its prints, its body and the description of what the body
returned or threw, and each of these may throw; the try/catch around writes and prints decides what gets out.
`ProtocolLog`, `ProtocolSafety` and `ProtocolRuns` prove what every reachable configuration keeps, `ProtocolFailures`
which failures stay in and that these change nothing, `ProtocolEnds` when the rows tell how the bodies ended,
`ProtocolNesting` when completions are nested, `ProtocolConsole` what is printed.

**What instrumented code means.** `CallTree` gives the same programs two big-step meanings that know nothing of tasks,
stores and rows: without instrumentation, and with what describing values may throw. `Transparency` says exactly when
the two agree. `CallTreeRuns` and `OutcomesAgree` connect them with the executions in both directions, and `Forests`
proves that the trees rebuilt from the rows are the call trees; `PartialForests` says what those of an interrupted
process are. `StoredRows` and `Readback` carry the rows that were stored on into the readers. `InspectorRuntime` is the
gate between an inspector and its writer; a gate that drops rows is one of the patterns of failing writes that the
protocol theorems quantify over.

**Reading rows back.** `ParentGraph` defines depth on arbitrary finite parent links, with missing parents and cycles.
`StepDepth` is the memoised walk as a class. `Trace` loads the step table, `Timeline` and `RunSummary` are the two
independent folds, `SummaryRows` the summary by rows, `SlowFocus` the slow marks, `TreeView` the printed forest and
`TreeLines` what its lines say, `Causal` the ordered search for the first failure and `CausalAnswers` what it answers,
by rows.

**The AI SDK lifecycle.** `AiSdk` is the state machine, `AiSdkIntegration` the object whose callbacks refine it step by
step whatever the writer does, `AiSdkRuns` the invariant, `AiSdkGuarantees` what follows, and `AiSdkHistory` tells from
the callbacks alone which rows and warnings each of them adds. The two ways entries leak (a step number or tool id used
again while open, and a finish over open children) are part of the state, and so are the entries whose running row could
not be built because reading the callback's payload threw.

**Bounding at write time.** `Json` measures JSON text in UTF-8 bytes; `JsonText` writes that text, `JsonRead` and
`JsonLog` prove that what is written line by line is read back, `EventText` that it tells the event. `MetadataBounds`
bounds a value in a heap with sharing, cycles and objects that throw when read; `MetadataContent` says what is kept of
it, `MetadataLaws`, `MetadataPrepare` and `MetadataStability` say when doing it again changes nothing. `EventSize` is
the size ladder and the minimal and tiny forms.

**Streams and arithmetic.** `Lines` splits text, `Utf8` decodes it piece by piece and `Utf8Errors` says what becomes of
other bytes, `Tail` follows a growing file and `TailRounds` says what each round adds, `ReadTrace` parses one, `Stats`
computes percentiles and rankings, `Circuits` are the circuit breakers, `CircuitRules`, `CircuitLaws` and `CircuitOrder`
what they mean.

Some properties one might expect do not hold of the code. Each is stated with a concrete input and with the exact
condition under which it holds.

- "Instrumentation failures are swallowed" (inspect-run.ts:58): a failed write or print is, exactly if its error can be
  described and warning about it does not throw (`ProtocolFailures.SwallowedExactly`; otherwise `EscapeSkipsTheBody`,
  `EscapeRepeatsTheEnd`).
- "User errors are re-thrown": exactly if the first description of the error that throws, if any does, throws that very
  error, because describing it happens outside the wrappers (`Transparency.UnchangedExactly`; otherwise
  `ProtocolFailures.UndescribedErrorIsReplaced`). A result that is captured is returned exactly if it can be described
  (otherwise `UndescribedResultBecomesError`).
- Each start row has its completion row, telling how the body ended: exactly if what the body threw, or returned and had
  captured, can be described (`ProtocolEnds.EndIsTold`, `AllToldExactly`; otherwise `Transparency.KeptButUntold`).
- Completions are nested as long as no branch a rejecting group left behind is still running
  (`ProtocolNesting.CompletionsNested`; otherwise `LateBranchBreaksNesting`).
- Bounding metadata twice is not bounding it once (`MetadataStability.BoundTwiceExactly`, `BoundTwiceDiffers`).
- A retry verdict with a negative limit can close when events are added (`CircuitLaws.RetriesStayOpen`,
  `RetriesCanClose`).
- After a close rows may be left without their ending (`AiSdkGuarantees.ClosedIsComplete` says for which callback
  sequences), and an ending may have no running row (`RowsMatch`, `UnopenedExactly`, `UnopenedIsEnded`).

Statements about the protocol's rows are about all rows handed to a writer; `ProtocolFailures.FailuresDoNotSteer` says
how the rows stored relate to them, and `Readback` what readers show of those. Times and durations are reals. Ids in the
protocol and the AI SDK machine are fresh numbers.

## Model

| member | source | states |
|---|---|---|
| ProtocolRuns.RowsPaired | packages/core/src/step.ts:57-150 | over every program, schedule and failure pattern no run or step has two start rows, every completion row follows its own start row, and a second completion row is only ever one after an inspector's success row whose write failed past the wrapper |
| ProtocolRuns.FinishedRowsComplete | packages/core/src/step.ts:84-150 | once everything has settled, a start row has its completion row after it, with the same id, iff the frame did not end by a throw that got past the wrappers before that row |
| ProtocolRuns.RunStartsFirst | packages/core/src/inspector.ts:299-330 | before or at every row of a run stands that run's run_started row |
| ProtocolFailures.ContainedIsSwallowed | packages/core/src/step.ts:21-30 | a contained failure of a write or a print leads to the very same step of the task as success: same task, same rows handed over, same branches left behind |
| ProtocolFailures.SwallowedExactly | packages/core/src/utils.ts:179-186 | a failure changes no step of any task iff its error can be described, by both wrappers, and warning about it does not throw |
| ProtocolFailures.FailuresDoNotSteer | packages/core/src/inspect-run.ts:43-52 | over whole schedules, with contained failures anywhere, the tasks, the rows handed over and the bookkeeping are those of the same schedule with nothing failing; what is stored and printed is a subsequence |
| ProtocolFailures.EscapeSkipsTheBody | packages/core/src/inspect-run.ts:98-112 | a concrete failure of the start row's write whose error cannot be described: the run throws and its body never runs |
| ProtocolFailures.EscapeRepeatsTheEnd | packages/core/src/inspector.ts:324-366 | the same for an inspector's success row: the run has a second completion row, for an error, and throws although its body returned |
| ProtocolFailures.UndescribedErrorIsReplaced | packages/core/src/inspect-run.ts:121-125 | a concrete error that formatError throws on: the run throws another error and has no completion row |
| ProtocolFailures.UndescribedResultBecomesError | packages/core/src/inspector.ts:324-345 | a concrete result that summarizeValue throws on: the run throws although its body returned, and its row reports an error |
| ProtocolEnds.ToldExactly | packages/core/src/inspector.ts:324-366 | a frame reports its body's outcome and settles with it iff the value thrown, or the result captured, can be described |
| ProtocolEnds.EndIsTold | packages/core/src/step.ts:83-148 | once everything has settled under contained failures, the rows tell how a body ended iff what it threw, or returned and had captured, can be described |
| ProtocolEnds.AllToldExactly | packages/core/src/inspector.ts:414-464 | all bodies are told iff all their outcomes can be described, and then no frame is without its completion row |
| ProtocolNesting.CompletionsNested | packages/core/src/inspect-run.ts:118-170 | when a run or step hands over its completion row and no branch left behind inside it is still running, everything it encloses, runs and steps of any tracer at any depth, has completed or ended without a row, and no later row is about any of it |
| ProtocolNesting.NoStartAfterCompletion | packages/core/src/step.ts:125-150 | under that condition no later row starts a step of the completed run or a child of the completed step |
| ProtocolNesting.LateBranchBreaksNesting | packages/core/src/context.ts:171-236 | without it, a concrete schedule on which a step completes after its run |
| ProtocolSafety.ExecSound | packages/core/src/inspector-runtime.ts:123-166 | in every reachable configuration, whatever fails, with any mix of tracers, every row may follow the rows before it: fresh ids, a parent that is an earlier step of the same run, a run that has started; each task's stores name what encloses it; a start line stands for a start row, at the depth the links give, and an end line for a completion row that says the same of success or failure |
| ProtocolConsole.ConsoleComplete | packages/core/src/step.ts:79-148 | once everything has settled with every write and print succeeding, each run and step of the module behind inspectRun and step that has a start row has one start line, and one end line iff it has a completion row, which says the same of success or failure; inspectors print nothing |
| ProtocolConsole.EndsAfterStarts | packages/core/src/inspect-run.ts:112-173 | over every schedule and failure pattern an end line stands behind the start line of the same run or step |
| ProtocolConsole.StoredExactly | packages/core/src/inspector-runtime.ts:183-213 | a row handed over is stored iff its write succeeds, a line is printed only if its print does, and no row stored or handed over is taken back |
| ProtocolSafety.ExecConserves | packages/core/src/step.ts:49-150 | no id is lost or copied: the start rows of an id are its first completion row, its frame still open or its frame gone |
| ProtocolRuns.LiveDepthIsRebuilt | packages/core/src/step.ts:50-81 | the depth at which a step was printed is the depth rebuilt from the parent links of its run's rows, and up to 1000 the depth readers show |
| ProtocolLog.RebuiltDepth | packages/core/src/context.ts:216-225 | in any well-formed log the depth of a step by parent links is the number of its enclosing steps |
| CallTree.TransparentExactly | packages/core/src/step.ts:83-123 | a derivation of the plain and of the instrumented meaning is one of both iff it is one of either and no frame of it changes its body's outcome |
| Transparency.UnchangedExactly | packages/core/src/inspector.ts:171-250 | a frame settles with its body's outcome iff a captured result can be described, and the first description of an error that throws, if any, throws that very error; what can be described is always kept |
| Transparency.KeptButUntold | packages/core/src/inspect-run.ts:121-125 | a concrete error whose descriptions throw that very error: the run settles with it although it cannot be described, and has no completion row |
| Transparency.SameMeaningExactly | packages/core/src/inspect-run.ts:118-175 | a program has the same derivations with and without instrumentation iff none of them has a frame that changes an outcome |
| CallTreeRuns.OutcomeIsObserved | packages/core/src/step.ts:83-123 | whatever the schedule and the contained failures, the instrumented program settles with an outcome of its instrumented meaning |
| CallTreeRuns.OutcomeIsPlain | packages/core/src/step.ts:83-123 | if moreover every frame keeps its body's outcome, which is a condition on the values thrown and captured alone, with an outcome of the program without instrumentation |
| OutcomesAgree.SameOutcomes | packages/core/src/inspect-run.ts:119-175 | the outcomes of executions, over all schedules and contained failures, are exactly those of the instrumented meaning |
| OutcomesAgree.PlainOutcomes | packages/core/src/inspect-run.ts:54-59 | the outcomes of executions on which every frame keeps its body's outcome are exactly those the program has without instrumentation by courses on which that is so |
| OutcomesAgree.Realise | packages/core/src/step.ts:83-150 | from any stores, every derivation of the instrumented meaning has a schedule that leads the program there, with every outcome kept if the derivation changes none |
| CallTreeRuns.RowsAreCalls | packages/core/src/step.ts:57-87 | once everything has settled, some complete derivation has the outcome returned and calls for exactly the start rows handed over, with their ids, parents and names, each as often; it is one of the program without instrumentation if every frame keeps its body's outcome |
| Forests.CallTreeRebuilt | packages/core/src/context.ts:171-236 | once everything has settled, the forest rebuilt from the parent links of the rows is the forest of runs and steps of such a derivation: equal as labelled trees up to the order of siblings |
| Forests.LogRebuilds | packages/core/src/step.ts:57-77 | any well-formed log with the start rows of a derivation rebuilds the call trees of that derivation |
| PartialForests.InterruptedForest | packages/core/src/context.ts:171-236 | whenever a process that could still come to its end is interrupted, the trees rebuilt from the rows handed over, and those rebuilt from the rows stored, are found in the forest of a complete derivation: each in a place of its own, with the same names, possibly with fewer children |
| CallTree.PullCounted | packages/core/src/context.ts:171-236 | for one step of one task: what it still had to record before is what it recorded in the step plus what it and the branches it left behind still have to record |
| Readback.StepIsShown | packages/core/src/timeline.ts:169-251 | every step the protocol started is in the table loaded from the rows handed over, at its run-time depth: in the timeline up to 1000, and on exactly one line of the tree view |
| Readback.LiveDepthIsShown | packages/cli/src/view.ts:110-151 | the depth printed while a step ran is the depth of its timeline entry, up to 1000, and of its line in the tree view |
| Readback.StoredStepIsShown | packages/core/src/timeline.ts:169-251 | of the rows stored, whatever writes failed: a step is shown at the number of its consecutive ancestors whose start rows were stored, never deeper than it ran |
| StoredRows.WholeHeightExactly | packages/core/src/timeline.ts:232-251 | and exactly as deep as it ran iff the start rows of all its ancestors were stored |
| Readback.StatusIsShown | packages/core/src/timeline.ts:160-167 | at any time the status shown of a stored step is that of the last of its completion rows stored, and running if none was |
| Readback.StatusIsTrue | packages/core/src/timeline.ts:160-167 | under contained failures, once a completion row was stored, the status shown tells how the body ended iff what it threw, or returned and had captured, can be described |
| InspectorRuntime.Runtime.DoWrite | packages/core/src/inspector-runtime.ts:183-195 | a write adds to the history and keeps the object equal to what the history comes to: rows delivered, errors counted, last error |
| InspectorRuntime.Runtime.DoFlush | packages/core/src/inspector-runtime.ts:196-203 | the same for a flush, which is not gated by a close |
| InspectorRuntime.Runtime.DoClose | packages/core/src/inspector-runtime.ts:204-213 | the same for a close; the writer is closed at most once |
| InspectorRuntime.WritesConserved | packages/core/src/inspector-runtime.ts:183-213 | for every history of calls: each write before the first close ends in one delivered row or one counted error, never both and never neither; the errors counted are those, the failed flushes and a failed first close |
| InspectorRuntime.DeliveredByCalls | packages/core/src/inspector-runtime.ts:183-199 | the rows delivered are those of the calls that hand one over before any close and that the writer takes, in the order of the calls |
| InspectorRuntime.LastErrorByCalls | packages/core/src/inspector-runtime.ts:67-110 | the error remembered is the last one met, under its message or, if that is blank, a fixed text |
| InspectorRuntime.NothingAfterClose | packages/core/src/inspector-runtime.ts:183-184 | whatever is called after a close, nothing more is delivered |
| ParentGraph.DepthLaw | packages/core/src/timeline.ts:172-251 | depth is 0 without a recorded parent or on a cycle, and one more than the parent's elsewhere |
| ParentGraph.RootOrCycle | packages/cli/src/view.ts:92-99 | every chain of parents either reaches a root or enters a cycle, never both |
| StepDepth.DepthResolver.Resolve | packages/core/src/trace-metadata.ts:199-257 | from any correct cache, on any parent links and in any query order, the walk ends, answers the capped depth of exactly the recorded steps and leaves the cache correct |
| StepDepth.DepthResolver.CutCycle | packages/core/src/trace-metadata.ts:219-227 | exactly the steps of the cycle just met get depth 0, and the cache stays correct |
| StepDepth.DepthResolver.Unwind | packages/core/src/trace-metadata.ts:249-256 | walking back down caches every step of the chain correctly, one deeper each up to the cap |
| Trace.LoadSteps | packages/core/src/timeline.ts:145-167 | the two loops compute the step table of the rows |
| Trace.LoadMeaning | packages/core/src/timeline.ts:145-167 | a step is in the table iff it has a start row; its last start row gives name, type, parent and time, its last completion row status and duration, and without one it is running and has no duration |
| Trace.TableOrder | packages/core/src/timeline.ts:145-167 | the table lists the steps in the order of their first start rows |
| Timeline.BuildRunTimeline | packages/core/src/timeline.ts:102-289 | the entries are those of the table with their capped depths, in start order, with the slow marks; the run's id, state and times come from its run rows; the "Failed to resolve" exception is unreachable |
| Timeline.RunByRows | packages/core/src/timeline.ts:110-143 | the first start row of a run gives its id and start, the last completion row whether it succeeded; without one it is running if it started and unknown otherwise |
| Timeline.FlagSlow | packages/core/src/timeline.ts:260-266 | exactly the entries with a top-ranked id are marked, all else is unchanged |
| SlowFocus.AsManyAsAsked | packages/core/src/timeline.ts:255-266 | as many entries are marked as asked for, or all that have a duration |
| SlowFocus.SlowestAreMarked | packages/core/src/timeline.ts:255-266 | marked entries have a duration and no unmarked entry took longer than a marked one |
| RunSummary.BuildRunSummary | packages/core/src/trace-metadata.ts:259-375 | counts by kind, errors, greatest depth and the first of the longest steps, over the table |
| SummaryRows.CountsByRows | packages/core/src/trace-metadata.ts:259-375 | the counts by rows: the steps with a start row, those whose last start row is of a model call or of a tool, the others, and those whose last completion row failed |
| SummaryRows.LongestIs | packages/core/src/trace-metadata.ts:259-375 | there is a longest step iff some started step completed; it has the name and type of its last start row, no step took longer by its last completion row, and of those that took as long it started first |
| RunSummary.TimelineMeaning | packages/core/src/timeline.ts:232-253 | the timeline is a rearrangement of one entry per recorded step in order of start time, in which steps that started together keep the order of the table |
| RunSummary.EntryByRows | packages/core/src/timeline.ts:232-253 | every entry is told by rows: name, type and start by the last start row of its step, status, error mark and duration by its last completion row, the offset since the start of the run, never negative |
| RunSummary.FoldsAgree | packages/core/src/trace-metadata.ts:259-375 | on every row sequence summary and timeline agree on the number of steps, of errors, and the greatest depth |
| RunSummary.ReshuffleInvariant | packages/core/src/timeline.ts:106-167 | any reshuffle that keeps the order among opening rows and among closing rows leaves table, timeline, run state and summary unchanged |
| TreeView.BuildStepTree | packages/cli/src/view.ts:63-108 | the loops build the forest of the table, whose printed lines the rows of TreeLines below are about |
| TreeView.LinkNodes | packages/cli/src/view.ts:92-99 | each step is pushed once, under its recorded parent or among the roots, in table order |
| TreeView.SiblingsAre | packages/cli/src/view.ts:92-105 | siblings are exactly the steps with that parent, without repetition, in order of start time |
| TreeView.SiblingTies | packages/cli/src/view.ts:100-105 | siblings that started at the same time stay in the order of the table |
| TreeView.TreeShowsRootedOnce | packages/cli/src/view.ts:63-151 | a step is printed exactly once if its chain reaches a root and never if it enters a cycle; a printed depth is the length of the chain |
| TreeLines.LineUnderParent | packages/cli/src/view.ts:110-151 | the last line of smaller depth before a line below a root is its recorded parent, one level up |
| TreeLines.LinesByStart | packages/cli/src/view.ts:100-149 | of two lines with the same recorded parent, or without one, the earlier started first, or at the same time and then its first start row comes first |
| TreeLines.PruneByLines | packages/cli/src/view.ts:218-227 | the error view prints exactly the lines that have an error at or below them, which is told from the lines alone |
| TreeView.TreeAgreesWithTimeline | packages/cli/src/view.ts:110-151 | with validated ids, the depth of every printed step, up to 1000, is its depth in the timeline |
| TreeView.PruneKeepsErrorLines | packages/cli/src/view.ts:218-227 | the pruned tree prints exactly the lines with an error at or below them, at the same depths and in the same order |
| Causal.FindFirstCausalFailure | packages/core/src/causal-failure.ts:73-227 | the search computes the first failure of the stages in order, whose ids, names and evidence CausalAnswers.AnswerByRows states by rows |
| CausalAnswers.AnswerByRows | packages/core/src/causal-failure.ts:72-216 | a failed step is answered by its id, the name of its last start row and the run's id, and is the first started of those that ended in error; a failed run by the first failed run row; a failed outcome by id, name, run and parent of the first one observed; a finding by the first failing one with evidence; the last resort by id, run and recorded parent of the first error completion with the most links; and each with those ids as evidence |
| Causal.StageOne | packages/core/src/causal-failure.ts:79-97 | a step is reported iff the last completion of some started step failed, and then one that started no later than any other such step |
| Causal.StageTwo | packages/core/src/causal-failure.ts:117-139 | a failed outcome is reported iff there is one, and then one observed no later than any other, ties by name |
| Causal.StageFour | packages/core/src/causal-failure.ts:175-216 | the last resort finds an error completion iff there is one, from which at least as many parent links lead up as from any other |
| Causal.OnlyMootErrors | packages/core/src/causal-failure.ts:164-174 | stage one finds no step iff every error completion is of a step that never started or was taken back by a later completion |
| Causal.StagesInOrder | packages/core/src/causal-failure.ts:73-227 | which stage answers, by the existence of each source, a failed step before a failed run; stage four answers only over moot error completions |
| Causal.NoneMeansNothing | packages/core/src/causal-failure.ts:222-227 | the answer is "none" iff there is no failed run, failed outcome, failing finding with evidence or error completion |
| Causal.AnswersHaveEvidence | packages/core/src/causal-failure.ts:82-217 | every answer but "none" names at least one piece of evidence |
| Causal.CountLinks | packages/core/src/causal-failure.ts:187-199 | the loop over parent links ends on every graph and counts the links up to the first step met before |
| Causal.LinksUpIsDepth | packages/core/src/causal-failure.ts:187-199 | on a chain that reaches a root this is the depth, plus one if the root names a step never recorded |
| Causal.LinksUpBounded | packages/core/src/causal-failure.ts:187-199 | it never exceeds the number of recorded steps |
| AiSdkIntegration.Drive | packages/ai-sdk/src/index.ts:366-783 | a whole callback sequence drives the object exactly as the state machine, whatever the writer does; each row handed over is stored or counted as a failure |
| AiSdkIntegration.AcceptedInOrder | packages/ai-sdk/src/index.ts:773-783 | the rows stored are exactly those the writer takes, in the order they were handed over |
| AiSdkIntegration.TelemetryIntegration.TerminalizeActiveRun | packages/ai-sdk/src/index.ts:287-364 | hands over terminal rows for open tools, then open steps, then the run, and forgets the run |
| AiSdkIntegration.TelemetryIntegration.OnStart | packages/ai-sdk/src/index.ts:366-438 | the object's new state is that of the machine: a fresh run, with its running row unless reading the payload throws, or abandonment and suspension on overlap |
| AiSdkIntegration.TelemetryIntegration.OnToolCallStart | packages/ai-sdk/src/index.ts:539-593 | the same for a tool call; AiSdkHistory.CallbackRows states its parent by the callbacks before it |
| AiSdkIntegration.TelemetryIntegration.OnFinish | packages/ai-sdk/src/index.ts:651-698 | the same for the end of a generation, which drops open children without terminal rows |
| AiSdkIntegration.TelemetryIntegration.Close | packages/ai-sdk/src/index.ts:713-726 | the same for a close, also when the writer fails to close |
| AiSdkRuns.RunInv | packages/ai-sdk/src/index.ts:366-741 | over every serialised callback sequence: no active run beside a suspension; every terminal row and every parent justified by an earlier row or by an entry whose running row could not be built; every event ended, open or leaked exactly once |
| AiSdkHistory.CallbackRows | packages/ai-sdk/src/index.ts:366-741 | each callback, whatever came before it, adds exactly the rows told by the callbacks before it: a tool's parent is the event of the last start of its step in this run that was not finished since, and the run's event if there is none; a finished step or run is ok, a finished tool ok or error as it says, an overlap ends everything open with error and a close with unknown |
| AiSdkHistory.CallbackWarnings | packages/ai-sdk/src/index.ts:366-741 | and adds exactly the warnings so told: out of place, unknown key, no open step for a tool, a payload that cannot be read |
| AiSdkGuarantees.RowsMatch | packages/ai-sdk/src/index.ts:287-698 | each terminal row repeats an earlier running row in id, run, parent, kind and name iff the event's running row could be built; no event is opened or ended twice; a parent was opened earlier in the same run iff its running row could be built |
| AiSdkGuarantees.UnopenedExactly | packages/ai-sdk/src/index.ts:386-593 | every running row could be built iff no callback threw between setting an entry and building the entry's row |
| AiSdkGuarantees.UnopenedIsEnded | packages/ai-sdk/src/index.ts:440-479 | a concrete sequence: a step whose running row cannot be built, and its terminal row after a close |
| AiSdkGuarantees.RowsConserved | packages/ai-sdk/src/index.ts:440-698 | running rows and those that could not be built = terminal rows + open entries + leaked entries |
| AiSdkGuarantees.SuspendedIsSilent | packages/ai-sdk/src/index.ts:366-376 | an active run and a suspension never coexist, and no callback hands over a row while suspended |
| AiSdkGuarantees.LeaksExactly | packages/ai-sdk/src/index.ts:440-698 | entries leak iff some callback, before its payload throws, reuses an open key or finishes over open children |
| AiSdkGuarantees.ClosedIsComplete | packages/ai-sdk/src/index.ts:713-741 | after a close every running row has its terminal row iff no callback dropped an entry that has its running row; reusing no open key and finishing over no open children is enough for that, and necessary if every running row could be built |
| AiSdkGuarantees.ForcedEndingsOrdered | packages/ai-sdk/src/index.ts:287-364 | an overlap or a close ends everything open, each event once, tools before steps and the run last, with status error or unknown |
| MetadataBounds.TruncateCompose | packages/core/src/trace-event-safety.ts:82-86 | cutting at n and then at m is cutting at the smaller of the two |
| MetadataLaws.BoundShape | packages/core/src/trace-event-safety.ts:161-220 | whatever the heap, shared and cyclic parts included, the bounded value is a finite tree at most 33 levels deep, with at most 51 items in an array and no __proto__ key; MetadataContent.ShowsExactly states its content |
| MetadataContent.ShowsExactly | packages/core/src/trace-event-safety.ts:161-220 | what is recorded of a heap value, by structure and path: null, booleans and finite numbers as they are, a string whole or cut and marked at the limit of its key, the first 50 items in order and how many more there are, the record's keys in order but __proto__; the markers exactly for what is too deep, met before or cannot be read |
| MetadataContent.TrimmedExactly | packages/core/src/trace-event-safety.ts:161-220 | the same for trees |
| MetadataLaws.RecordsNeverThrow | packages/core/src/trace-event-safety.ts:161-220 | bounding a record never throws, even if reading something below it does |
| MetadataLaws.NarrowStable | packages/core/src/trace-event-safety.ts:161-220 | bounding a tree whose arrays hold at most 51 items changes nothing when repeated |
| MetadataLaws.StableNarrow | packages/core/src/trace-event-safety.ts:161-220 | bounding a tree twice is bounding it once iff every array it looks into has at most 51 items |
| MetadataStability.StableExactly | packages/core/src/trace-event-safety.ts:161-220 | wherever the walk over the heap stands, bounding its result again changes nothing iff every array looked into has at most 51 items and every marker that stands for a value fits the limit; what was dropped because reading threw does not matter |
| MetadataStability.BoundTwiceExactly | packages/core/src/inspector.ts:273-278 | a value of the heap, with sharing and cycles, bounded and laid out in a heap again, is bounded to itself iff that holds along the walk; so a summary bounded before a write and again in it is stable iff it does |
| MetadataStability.BoundTwiceDiffers | packages/core/src/trace-event-safety.ts:197-208 | a concrete heap with an array of 52 items for which bounding twice differs from bounding once |
| MetadataPrepare.ThreeIsTwo | packages/core/src/trace-event-safety.ts:161-220 | bounding any value three times is bounding it twice |
| MetadataPrepare.PreparedShape | packages/core/src/trace-event-safety.ts:235-262 | prepared metadata is a finite record of bounded depth and width whatever the input and the redactor; MetadataContent.PreparedContent states its content |
| MetadataContent.PreparedContent | packages/core/src/trace-event-safety.ts:235-262 | prepared metadata of a record is what is recorded of it, redacted, and trimmed once more |
| MetadataContent.PreparedOtherwise | packages/core/src/trace-event-safety.ts:235-262 | what is not a record counts as an empty one, or as one that could not be enumerated if reading it throws |
| MetadataPrepare.PrepareIdempotent | packages/core/src/trace-event-safety.ts:235-262 | with redaction off, preparing prepared metadata again changes nothing |
| MetadataPrepare.BoundOnTree | packages/core/src/trace-event-safety.ts:161-220 | on a tree of fresh objects the walk with its set of seen objects is bounding on trees |
| EventSize.ShrinkShrinks | packages/core/src/trace-event-safety.ts:301-310 | shrinking does not enlarge a limit iff the limit is at least 32, or 16 for previews |
| EventSize.LadderDescends | packages/core/src/trace-event-safety.ts:424-437 | each rung prepares the metadata under limits no larger than the rung before, the first rung iff the limits are not below the floors |
| EventSize.PrepareTraceEventForDisk | packages/core/src/trace-event-safety.ts:403-466 | start rows: only the metadata changes, to the first candidate that fits, and the result fits iff the row without metadata fits; completion rows: only the error stack is cut, to at most 500 code units, and the result fits iff the row or its cut form fits |
| EventSize.TinyBound | packages/core/src/trace-event-safety.ts:686-698 | the tiny form has at most 1002 bytes whatever it was cut from |
| EventSize.EnforcedSize | packages/core/src/trace-event-safety.ts:700-716 | enforcement of a valid event returns the event itself if it fits, else the minimal form if that fits, else the tiny form, always a valid event; every budget of at least 1002 bytes is met |
| EventSize.MinimalByFields | packages/core/src/trace-event-safety.ts:654-684 | the minimal form field by field: texts cut at 128 code units, enumerations kept, attributes that name the sizes |
| EventSize.TinyByFields | packages/core/src/trace-event-safety.ts:686-698 | the tiny form field by field: texts cut at 32 code units, no status, no source name or version |
| EventSize.EnforcedKeepsIdentity | packages/core/src/trace-event-safety.ts:654-716 | whatever form is chosen keeps kind, version, confidence and source type, and its ids, name and timestamp agree with the event's as far as 32 code units |
| EventSize.EnforcedTwice | packages/core/src/trace-event-safety.ts:700-716 | enforcing a budget on an enforced event changes nothing, also when the tiny form does not fit |
| Json.EscapedBound | packages/core/src/trace-event-safety.ts:641-652 | a JSON string costs at most 6 bytes for each code unit |
| Json.DecimalTells | packages/core/src/trace-event-safety.ts:283-292 | the digits written of a number tell the number |
| JsonText.SizeIs | packages/core/src/trace-event-safety.ts:88-90 | the size that limits are about is the number of UTF-8 bytes of the text written, escapes, surrogates and separators included |
| JsonRead.ValueBack | packages/core/src/read-trace.ts:66-71 | the text of any value is read back as that value, leaving what follows it |
| EventText.PersistedTold | packages/core/src/trace-event-safety.ts:641-652 | two persisted events with the same JSON are the same event, every enumeration and optional property included |
| EventText.EventTold | packages/core/src/storage.ts:121-127 | the same for two trace rows of a kind, metadata and error included |
| JsonLog.LogReadsBack | packages/core/src/storage.ts:171-196 | whatever values are appended to a log, one text and a line feed each, its bytes decode and split into one line for each of them, in order, which trimming leaves alone and which is read back as the value; behind them there is only an empty piece |
| Lines.SplitAppend | packages/cli/src/tail.ts:158-160 | text appended to a text only continues its last piece, also when a carriage return and its line feed come apart |
| Lines.SplitJoined | packages/core/src/read-trace.ts:64-66 | splitting two texts joined by a line feed |
| Lines.TrimIs | packages/core/src/read-trace.ts:66-67 | trimming takes white space off both ends, and all of it |
| Utf8.DecodePieces | packages/cli/src/tail.ts:128-158 | decoding in pieces is decoding at once, also when a sequence is cut |
| Utf8.RoundTrip | packages/cli/src/tail.ts:100-100 | text written in UTF-8 is read back exactly, with nothing pending |
| Utf8Errors.ReadsOn | packages/cli/src/tail.ts:128-158 | bytes that are not UTF-8: what was read of a code point when a byte cannot go on is one U+FFFD, and that byte is read anew; so is what is left at the end |
| Tail.FollowFile | packages/cli/src/tail.ts:111-173 | over any rounds of polling, the lines delivered are those of the bytes read since each truncation noticed, numbered from 1; the carry is the rest; it fails at the first round whose stat throws, or whose open or read throws when there is something to read, with what was delivered before |
| TailRounds.RoundReads | packages/cli/src/tail.ts:131-170 | one round keeps what was read before, starts over iff the file is shorter than the position reached, and appends the file's bytes from that position, as many as it has, the stat reported and the read delivers |
| TailRounds.EndsWithFirst | packages/cli/src/tail.ts:131-138 | the loop ends with the first round whose stat fails, or that sees a file of another size than the position reached, not empty, and cannot read it |
| TailRounds.StartsAtEnd | packages/cli/src/tail.ts:128-130 | following starts at the end of the file, and after each truncation at its beginning |
| TailRounds.CatchesUp | packages/cli/src/tail.ts:131-170 | once the file has stopped growing its end is reached after at most as many rounds as bytes were missing, and the position stays there |
| TailRounds.DeliveredInOrder | packages/cli/src/tail.ts:163-166 | the lines delivered are those of the stretches between truncations, one after the other |
| TailRounds.DeliveredOnce | packages/cli/src/tail.ts:163-166 | and each stretch delivers the lines of its bytes once, the k-th with the number k |
| Tail.ReadFileOnce | packages/cli/src/tail.ts:93-109 | reading at once delivers every piece of the decoded file, numbered from 1 |
| Tail.NumberedFromOne | packages/cli/src/tail.ts:163-166 | the k-th line delivered since a truncation carries the number k |
| Tail.ReadsTheFile | packages/cli/src/tail.ts:138-156 | as long as the file only grew since the last truncation noticed, the bytes read are those of the file from the base to the position reached |
| Tail.LinesOnlyGrow | packages/cli/src/tail.ts:158-160 | lines delivered stay lines of the text whatever is read next |
| Tail.FollowingIsReadingOnce | packages/cli/src/tail.ts:111-173 | a file followed from its beginning to its end gives the lines of reading it at once, all but the last, and carries that one |
| Tail.FollowsWrittenText | packages/cli/src/tail.ts:111-173 | of a file of UTF-8 text, in any chunks, the lines followed are a prefix of the text's own, and with the carry all of them once read to the end |
| ReadTrace.ParseTraceJsonl | packages/core/src/read-trace.ts:47-121 | the loop computes the rows of the lines, and from these the events, the persisted events and the count; the format and the warnings |
| ReadTrace.RowsAreLines | packages/core/src/read-trace.ts:64-105 | a row is in the result iff the line it names reads as that event |
| ReadTrace.OneLine | packages/core/src/read-trace.ts:64-118 | what a text of one line comes to, by how the line reads: its row under the number 1, its warning, its version as the format |
| ReadTrace.ParseJoined | packages/core/src/read-trace.ts:47-121 | parsing is a homomorphism: of two texts joined by a line feed, rows (line numbers moved), events, persisted events and warnings are appended, counts added and formats joined |
| ReadTrace.JoinIsLeastUpperBound | packages/core/src/read-trace.ts:107-118 | the join of formats is the least upper bound in empty < version < mixed |
| Stats.PercentileSplits | packages/core/src/stats.ts:59-66 | for 0 < p <= 100 the value is a sample with at least p per cent of the samples at or below it and fewer than p per cent below it |
| Stats.SplitsMonotone | packages/core/src/stats.ts:59-66 | any two values that split the samples so are in the order of their shares; so each share has one value |
| Stats.DurationsOrdered | packages/core/src/stats.ts:175-200 | minimum <= median <= 95th percentile <= maximum, and both split the durations |
| Stats.DurationsRange | packages/core/src/stats.ts:175-200 | minimum and maximum bound all durations and the average |
| Stats.DurationsMean | packages/core/src/stats.ts:175-200 | the average times the number of durations is their sum |
| Stats.DurationsOfRuns | packages/core/src/stats.ts:126-160 | the durations are those of the runs that have one that is not negative, one each |
| Stats.BuildTraceStats | packages/core/src/stats.ts:103-210 | every figure by the runs taken one by one; the four state counts add up to the number of runs |
| Stats.CollectCompletedSteps | packages/core/src/stats.ts:212-243 | one ranked step for each completion row, labelled by the last start row before it |
| Stats.CompletedByRows | packages/core/src/stats.ts:212-243 | each completion row has its entry, in order: its duration, and name and type of the last start row of its step before it, or the id and the type of a logic step |
| Stats.SlowestSteps | packages/core/src/stats.ts:162-208 | the slowest steps are as many as asked for, in descending order, and none left out took longer |
| Stats.SlowestRuns | packages/core/src/stats.ts:162-208 | the slowest runs are as many as asked for, in descending order, each with the run's id, name, duration and state, and none left out took longer |
| Circuits.EvaluateSameToolRepetition | packages/circuit/src/analyze.ts:119-139 | the counting map gives the verdict of counting labels |
| Circuits.EvaluateSameArgsRepetition | packages/circuit/src/analyze.ts:141-165 | the same for labels with digests of their arguments |
| Circuits.EvaluateExcessiveBranchWidth | packages/circuit/src/analyze.ts:246-267 | the same for parent ids |
| Circuits.RunCircuits | packages/circuit/src/analyze.ts:301-313 | the verdicts of the selected rules that have a limit, in order; ok iff none is open |
| CircuitRules.SameToolByEvents | packages/circuit/src/analyze.ts:119-139 | the rule opens with one entry for each label that more tool calls have than allowed, with that number, the label seen first in front; closed without any |
| CircuitRules.SameArgsByEvents | packages/circuit/src/analyze.ts:141-165 | the same for each pair of label and digest, shown under its label |
| CircuitRules.WidthByEvents | packages/circuit/src/analyze.ts:246-267 | it warns with one entry for each parent id that more events have than allowed |
| CircuitRules.RunawayByEvents | packages/circuit/src/analyze.ts:228-244 | it opens iff no event succeeded and more events than allowed are model calls, and shows how many |
| CircuitRules.LoopByEvents | packages/circuit/src/analyze.ts:167-187 | it opens iff the number of iteration events, or the greatest iteration number if that is greater, exceeds the limit, and shows it |
| CircuitRules.RetriesByEvents | packages/circuit/src/analyze.ts:189-202 | it opens iff the greatest attempt, 0 without any, exceeds the limit, and shows it |
| CircuitRules.TimeoutByEvents | packages/circuit/src/analyze.ts:204-226 | it warns with one entry for each tool call that took too long, in the order of the events |
| CircuitRules.ResultsByRule | packages/circuit/src/analyze.ts:269-313 | the selected rules that have a limit are evaluated in the order selected, each under its own limit |
| CircuitLaws.RepetitionMeans | packages/circuit/src/analyze.ts:119-165 | a verdict is closed iff no key's multiplicity exceeds the limit, and its evidence is the keys whose multiplicity does |
| CircuitOrder.OrderIndependent | packages/circuit/src/analyze.ts:119-267 | for every rule, the status does not depend on the order of events, and the evidence only in its own order |
| CircuitOrder.ResultsReordered | packages/circuit/src/analyze.ts:301-313 | reordering the events leaves the list of verdicts the same rule by rule, and whether the run is ok |
| CircuitLaws.CountsAddUp | packages/circuit/src/analyze.ts:124-128 | the counts add up to the number of events counted |
| CircuitLaws.SameArgsImpliesSameTool | packages/circuit/src/analyze.ts:119-165 | where the rule on arguments opens at a limit so does the rule on tools, even with colliding digests |
| CircuitLaws.LoopVerdictMeans | packages/circuit/src/analyze.ts:167-187 | the loop rule opens iff there are too many iteration events or one carries too great a number |
| CircuitLaws.RetryVerdictMeans | packages/circuit/src/analyze.ts:189-202 | the retry rule opens iff some attempt number is too great, or there is none and the limit is negative |
| CircuitLaws.TimeoutVerdictMeans | packages/circuit/src/analyze.ts:204-226 | the timeout rule warns iff some tool call took longer than allowed |
| CircuitLaws.FindingsLast | packages/circuit/src/analyze.ts:119-267 | more events never close a verdict, except of the runaway rule and of the retry rule under a negative limit without attempts |
| CircuitLaws.NotOkLasts | packages/circuit/src/analyze.ts:301-313 | a run that such rules make not ok stays not ok |
| CircuitLaws.RetriesStayOpen | packages/circuit/src/analyze.ts:189-202 | more events never close an open retry verdict iff the limit is not negative or there is an attempt |
| CircuitLaws.RetriesCanClose | packages/circuit/src/analyze.ts:189-202 | limit -1 and no attempts is open, and an attempt numbered -5 closes it |
| CircuitLaws.RunawayStaysOpen | packages/circuit/src/analyze.ts:228-244 | an open runaway verdict stays open iff no later event succeeds |
| StableSort.FirstOfSorted | packages/core/src/causal-failure.ts:81-81 | the first match after a stable sort is the earliest among the matches of least key |

## Left out

- Files, streams, the network, clocks and terminals: a write or a print is a step that may fail, times and polling rounds are inputs, and writing a row is one indivisible step of the scheduler.
- ProtocolFailures.FailuresDoNotSteer: setting up the trace file counts with the write of the start row, and several prints in a row count as one; a warning that a step runs outside a run is taken to succeed.
- ProtocolFailures.SwallowedExactly: describing a value throws or not once and for all; options whose properties throw when read, before anything is recorded, are not modelled.
- Names are taken as already trimmed and cut; step types, metadata and error details of the protocol's rows are not modelled.
- A call with something that is not a function, which throws before anything is recorded.
- createInspector: run ids chosen by the caller are taken to be fresh, its rows carry what the other rows carry, a row refused when it is prepared counts as a write that fails, and a close while a write is under way is not modelled; a run of inspectRun that prints nothing is one whose prints all fail.
- PartialForests.InterruptedForest: speaks of processes that can still come to their end; that every program has such a schedule is not stated, since the order Dafny has on datatypes does not look into continuations.
- StepDepth.DepthResolver.Resolve: the shared walk is modelled once for the timeline and the summary, which contain two copies of it.
- TreeView.BuildStepTree: the nodes are built as values from the child lists, not as objects that share their children arrays; names, types and durations on the printed lines are not modelled, nor are names on the lines of a running process.
- JsonRead.ValueBack: the reader accepts what is written and more, but not white space between tokens; a number is any text of the characters numbers are written with, and an object is its list of properties.
- AiSdkIntegration.Drive: callbacks are serialised, so a callback arriving while another waits for its write is not modelled; usage, previews and summaries in the rows are not modelled; reading the run's model again when the run is ended by force is taken not to throw; and the two maps are values in a field.
- MetadataLaws.BoundShape: proxies, getters that answer differently each time and sparse arrays are not modelled; an object either reads normally or throws.
- MetadataPrepare.PrepareIdempotent: the redactor is an arbitrary function on the record, and the identity where redaction is off.
- EventSize.PrepareTraceEventForDisk: the row's error arrives redacted, the metadata's preparation is a function of the limits, and the fallback for preparation that throws is not modelled; multiplication by 0.5, 0.25 and 0.1 is exact.
- EventSize.EnforcedSize: serialisation that fails is not modelled, nor are the redaction and bounding that precede enforcement.
- Utf8.DecodePieces: Node's decoder may hold invalid bytes back longer than this one before it replaces them; the text decoded in the end is the same.
- Tail.FollowFile: a line callback that throws is not modelled; a file replaced by one that is not shorter goes unnoticed, as in the program, and then the bytes read are not those of one file.
- ReadTrace.ParseTraceJsonl: JSON parsing, validation and the conversion of persisted events are parameters; an empty line is the only one they are not asked about.
- Causal.FindFirstCausalFailure: rationale texts, the name of the tip and the fallbacks for rows without a run id are not modelled; the collation of names is a parameter.
- Stats.BuildTraceStats: filters by date and correlation come before the model; sums are exact.
- Circuits.RunCircuits: recognising tool and LLM events by kind and name, and the digest itself, are inputs.
- Redaction, outcome extraction from persisted rows, Evidence manifests, guardrail rules, the SQLite index, rendering, configuration and the command line: not part of this model; searching, cleaning and migrating would only add filters and tallies.
