// The guarantees of the telemetry lifecycle, for every serialised callback sequence.
module AiSdkGuarantees {
  import opened Wrappers
  import opened Counting
  import opened AiSdk
  import opened AiSdkRuns

  // ---- Reading the log ----

  lemma {:induction false} RowCounted(log: seq<Row>, i: nat)
    requires i < |log|
    ensures log[i].status == AiSdk.Running ==> AiSdkRuns.Running(log, log[i].eventId) > 0
    ensures log[i].status != AiSdk.Running ==> Terminal(log, log[i].eventId) > 0
  {
    if i < |log| - 1 {
      RowCounted(log[..|log| - 1], i);
    }
  }

  lemma {:induction false} OpeningRow(log: seq<Row>, x: nat)
    requires AiSdkRuns.Running(log, x) > 0
    ensures exists i :: 0 <= i < |log| && log[i].eventId == x && log[i].status == AiSdk.Running
  {
    var front, last := log[..|log| - 1], |log| - 1;
    if log[last].eventId != x || log[last].status != AiSdk.Running {
      OpeningRow(front, x);
      var i :| 0 <= i < |front| && front[i].eventId == x && front[i].status == AiSdk.Running;
      assert log[i] == front[i];
    }
  }

  lemma {:induction false} TerminalRow(log: seq<Row>, x: nat)
    requires Terminal(log, x) > 0
    ensures exists i :: 0 <= i < |log| && log[i].eventId == x && log[i].status != AiSdk.Running
  {
    var front, last := log[..|log| - 1], |log| - 1;
    if log[last].eventId != x || log[last].status == AiSdk.Running {
      TerminalRow(front, x);
      var i :| 0 <= i < |front| && front[i].eventId == x && front[i].status != AiSdk.Running;
      assert log[i] == front[i];
    }
  }

  lemma {:induction false} CountedTwice(log: seq<Row>, i: nat, j: nat)
    requires i < j < |log| && log[i].eventId == log[j].eventId
    ensures log[i].status == AiSdk.Running && log[j].status == AiSdk.Running ==>
              AiSdkRuns.Running(log, log[i].eventId) >= 2
    ensures log[i].status != AiSdk.Running && log[j].status != AiSdk.Running ==> Terminal(log, log[i].eventId) >= 2
  {
    var front := log[..|log| - 1];
    if j < |front| {
      CountedTwice(front, i, j);
    } else {
      RowCounted(front, i);
    }
  }

  lemma {:induction false} RowJustified(log: seq<Row>, unopened: seq<nat>, i: nat)
    requires LogOk(log, unopened) && i < |log|
    ensures Justified(log[..i], unopened, log[i])
  {
    hide Justified;
    if i < |log| - 1 {
      RowJustified(log[..|log| - 1], unopened, i);
      assert log[..|log| - 1][..i] == log[..i];
    }
  }

  // Two rows of one event: one opens it, the other ends it.
  ghost predicate Ends(opening: Row, ending: Row) {
    opening.status == AiSdk.Running && ending.status != AiSdk.Running && ending.(status := AiSdk.Running) == opening
  }

  // Each terminal row handed to the writer matches an earlier running row with the same event id, run id, parent, kind
  // and name, exactly if the running row of its event could be built; no event id is opened twice or ended twice; and
  // the parent of a row was opened earlier in its run, exactly if the parent's running row could be built.
  lemma {:induction false} RowsMatch(cs: seq<Callback>)
    ensures var log, unopened := Run(cs).attempted, Run(cs).unopened;
            && (forall i :: 0 <= i < |log| && log[i].status != AiSdk.Running ==>
                  (HasOpening(log, i) <==> log[i].eventId !in unopened))
            && (forall i, j :: 0 <= i < j < |log| && log[i].eventId == log[j].eventId ==> Ends(log[i], log[j]))
            && (forall i :: 0 <= i < |log| && log[i].parentId.Some? ==>
                  (RunningRow(log[..i], log[i].runId, log[i].parentId.value) <==> log[i].parentId.value !in unopened))
  {
    hide Run, Inv;
    var s := Run(cs);
    RunInv(cs);
    forall i | 0 <= i < |s.attempted| && s.attempted[i].status != AiSdk.Running
      ensures HasOpening(s.attempted, i) <==> s.attempted[i].eventId !in s.unopened
    {
      OpeningOf(s, i);
    }
    forall i | 0 <= i < |s.attempted| && s.attempted[i].parentId.Some?
      ensures RunningRow(s.attempted[..i], s.attempted[i].runId, s.attempted[i].parentId.value)
              <==> s.attempted[i].parentId.value !in s.unopened
    {
      ParentOf(s, i);
    }
    forall i, j | 0 <= i < j < |s.attempted| && s.attempted[i].eventId == s.attempted[j].eventId
      ensures Ends(s.attempted[i], s.attempted[j])
    {
      TwoRows(s, i, j);
    }
  }

  ghost predicate HasOpening(log: seq<Row>, i: nat)
    requires i < |log|
  {
    exists j :: 0 <= j < i && Ends(log[j], log[i])
  }

  // An event whose running row could not be built has no running row.
  lemma {:induction false} UnopenedHasNone(s: State, i: nat)
    requires Inv(s) && i < |s.attempted| && s.attempted[i].status == AiSdk.Running
    ensures s.attempted[i].eventId !in s.unopened
  {
    assert Accounted(s, s.attempted[i].eventId);
    RowCounted(s.attempted, i);
    TimesIn(s.unopened, s.attempted[i].eventId);
  }

  lemma {:induction false} OpeningOf(s: State, i: nat)
    requires Inv(s) && i < |s.attempted| && s.attempted[i].status != AiSdk.Running
    ensures HasOpening(s.attempted, i) <==> s.attempted[i].eventId !in s.unopened
  {
    hide Inv;
    var log := s.attempted;
    OkLog(s);
    RowJustified(log, s.unopened, i);
    if HasOpening(log, i) {
      var j :| 0 <= j < i && Ends(log[j], log[i]);
      UnopenedHasNone(s, j);
    }
    if log[i].eventId !in s.unopened {
      var j :| 0 <= j < i && log[..i][j] == log[i].(status := AiSdk.Running);
      assert Ends(log[j], log[i]);
    }
  }

  lemma {:induction false} ParentOf(s: State, i: nat)
    requires Inv(s) && i < |s.attempted| && s.attempted[i].parentId.Some?
    ensures RunningRow(s.attempted[..i], s.attempted[i].runId, s.attempted[i].parentId.value)
            <==> s.attempted[i].parentId.value !in s.unopened
  {
    hide Inv;
    var log, id := s.attempted, s.attempted[i].parentId.value;
    OkLog(s);
    RowJustified(log, s.unopened, i);
    if RunningRow(log[..i], log[i].runId, id) {
      var j :| 0 <= j < i && log[..i][j].status == AiSdk.Running && log[..i][j].runId == log[i].runId
               && log[..i][j].eventId == id;
      UnopenedHasNone(s, j);
    }
  }

  lemma {:induction false} OkLog(s: State)
    requires Inv(s)
    ensures LogOk(s.attempted, s.unopened)
  {
  }

  lemma {:induction false} TwoRows(s: State, i: nat, j: nat)
    requires Inv(s) && i < j < |s.attempted| && s.attempted[i].eventId == s.attempted[j].eventId
    ensures Ends(s.attempted[i], s.attempted[j])
  {
    hide LogOk, RunRecorded, OpenCount;
    var log, x := s.attempted, s.attempted[i].eventId;
    assert Accounted(s, x);
    CountedTwice(log, i, j);
    RowCounted(log, i);
    RowCounted(log, j);
    TimesIn(s.unopened, x);
    var ending := if log[i].status != AiSdk.Running then i else j;
    OpeningOf(s, ending);
    var k :| 0 <= k < ending && Ends(log[k], log[ending]);
    if k < i {
      CountedTwice(log, k, i);
    } else if i < k {
      CountedTwice(log, i, k);
    }
    if ending == i {
      CountedTwice(log, k, j);
    }
  }

  // ---- When every running row is built ----

  // The callback does not throw between setting an entry and building the entry's running row.
  predicate RowBuilt(s: State, c: Callback) {
    match c
    case OnStart(_, payload) => s.active.Some? || s.suspended || !payload.NoRow?
    case OnStepStart(_, payload) => !Usable(s) || !payload.NoRow?
    case OnToolCallStart(_, _, _, payload) => !Usable(s) || !payload.NoRow?
    case _ => true
  }

  predicate RowsBuilt(cs: seq<Callback>) {
    cs == [] || (RowsBuilt(cs[..|cs| - 1]) && RowBuilt(Run(cs[..|cs| - 1]), cs[|cs| - 1]))
  }

  // What a callback adds to the unopened events: nothing, or one event id never drawn before.
  lemma {:induction false} UnopenedStep(s: State, c: Callback)
    ensures var u := Handle(s, c).unopened;
            if RowBuilt(s, c) then u == s.unopened else |u| == |s.unopened| + 1 && u[..|s.unopened|] == s.unopened
                                                         && u[|s.unopened|] >= s.next
  {
  }

  lemma {:induction false} UnopenedExactly(cs: seq<Callback>)
    ensures Run(cs).unopened == [] <==> RowsBuilt(cs)
  {
    if cs != [] {
      UnopenedExactly(cs[..|cs| - 1]);
      UnopenedStep(Run(cs[..|cs| - 1]), cs[|cs| - 1]);
    }
  }

  // A step whose running row cannot be built still gets a terminal row when the run is closed.
  lemma {:induction false} UnopenedIsEnded(name: string, n: int, writerFails: bool)
    ensures var log := Run([OnStart(name, Readable), OnStepStart(n, NoRow), Close(writerFails)]).attempted;
            && |log| == 3 && log[1].kind == LLM && log[1].status == Unknown && !HasOpening(log, 1)
  {
    hide Run, Handle;
    var a, b, c := OnStart(name, Readable), OnStepStart(n, NoRow), Close(writerFails);
    NothingRun();
    RunSnoc([], a);
    RunSnoc([a], b);
    RunSnoc([a, b], c);
    assert [] + [a] == [a] && [a] + [b] == [a, b] && [a, b] + [c] == [a, b, c];
    var e := Open(n, 2, 1, StepName(n));
    UnopenedStepCloses(name, e, writerFails);
  }

  lemma {:induction false} UnopenedStepCloses(name: string, e: Open<int>, writerFails: bool)
    requires e == Open(e.key, 2, 1, StepName(e.key))
    ensures var s := Handle(Handle(INITIAL, OnStart(name, Readable)), OnStepStart(e.key, NoRow));
            var r := ActiveRun(0, 1, RunName(name), [], []);
            Handle(s, Close(writerFails)).attempted
            == [RunRow(r, AiSdk.Running), ChildRow(0, e, LLM, Unknown), RunRow(r, Unknown)]
  {
    var r := ActiveRun(0, 1, RunName(name), [], []);
    var s := Start(INITIAL, name, Readable);
    assert s.active == Some(r) && s.attempted == [RunRow(r, AiSdk.Running)] && s.next == 2;
    var t := StepStart(s, e.key, NoRow);
    assert Put(r.steps, e) == [e];
    assert t.active == Some(r.(steps := [e])) && t.attempted == s.attempted;
    assert ChildRows(0, [e], LLM, Unknown) == [ChildRow(0, e, LLM, Unknown)];
  }

  lemma {:induction false} NothingRun()
    ensures Run([]) == INITIAL
  {
  }

  // ---- Conservation ----

  function RunningRows(log: seq<Row>): nat {
    if log == [] then 0 else RunningRows(log[..|log| - 1]) + (if log[|log| - 1].status == AiSdk.Running then 1 else 0)
  }

  function OpenTotal(s: State): nat {
    if s.active.Some? then 1 + |s.active.value.steps| + |s.active.value.tools| else 0
  }

  ghost predicate Balanced(s: State) {
    RunningRows(s.attempted) + |s.unopened| == (|s.attempted| - RunningRows(s.attempted)) + OpenTotal(s) + |s.leaked|
  }

  lemma {:induction false} RunningRowsConcat(a: seq<Row>, b: seq<Row>)
    ensures RunningRows(a + b) == RunningRows(a) + RunningRows(b)
  {
    if b == [] {
      assert a + b == a;
    } else {
      assert (a + b)[..|a + b| - 1] == a + b[..|b| - 1];
      RunningRowsConcat(a, b[..|b| - 1]);
    }
  }

  lemma {:induction false} TerminalRows(rows: seq<Row>)
    requires forall i :: 0 <= i < |rows| ==> rows[i].status != AiSdk.Running
    ensures RunningRows(rows) == 0
  {
    if rows != [] {
      TerminalRows(rows[..|rows| - 1]);
    }
  }

  lemma {:induction false} WriteBalance(log: seq<Row>, row: Row)
    ensures RunningRows(log + [row]) == RunningRows(log) + (if row.status == AiSdk.Running then 1 else 0)
  {
    assert (log + [row])[..|log|] == log;
  }

  lemma {:induction false} TerminalizeBalanced(s: State, status: RowStatus)
    requires Balanced(s) && s.active.Some? && status != AiSdk.Running
    ensures Balanced(Terminalize(s, status))
  {
    var r := s.active.value;
    var rows :=
      ChildRows(r.runId, r.tools, TOOL, status) + ChildRows(r.runId, r.steps, LLM, status) + [RunRow(r, status)];
    assert Terminalize(s, status).attempted == s.attempted + rows;
    RunningRowsConcat(s.attempted, rows);
    TerminalRows(rows);
  }

  // A callback that hands over one row keeps the balance if it opens, ends or leaks accordingly.
  lemma {:induction false} OneRowBalanced(s: State, s': State, row: Row)
    requires Balanced(s) && s'.attempted == s.attempted + [row] && s'.unopened == s.unopened
    requires OpenTotal(s') + |s'.leaked| == OpenTotal(s) + |s.leaked| + (if row.status == AiSdk.Running then 1 else -1)
    ensures Balanced(s')
  {
    WriteBalance(s.attempted, row);
  }

  lemma {:induction false} StartBalanced(s: State, name: string, payload: Payload)
    requires Balanced(s)
    ensures Balanced(Start(s, name, payload))
  {
    if s.active.Some? {
      TerminalizeBalanced(s, Error);
    } else if !s.suspended && payload.Readable? {
      OneRowBalanced(s, Start(s, name, payload),
                     RunRow(ActiveRun(s.next, s.next + 1, RunName(name), [], []), AiSdk.Running));
    }
  }

  lemma {:induction false} StepBalanced(s: State, c: Callback)
    requires Balanced(s) && Usable(s) && (c.OnStepStart? || c.OnStepFinish?)
    ensures Balanced(Handle(s, c))
  {
    var s' := Handle(s, c);
    if |s'.attempted| > |s.attempted| {
      OneRowBalanced(s, s', s'.attempted[|s.attempted|]);
    }
  }

  lemma {:induction false} ToolBalanced(s: State, c: Callback)
    requires Balanced(s) && Usable(s) && (c.OnToolCallStart? || c.OnToolCallFinish?)
    ensures Balanced(Handle(s, c))
  {
    var s' := Handle(s, c);
    if |s'.attempted| > |s.attempted| {
      OneRowBalanced(s, s', s'.attempted[|s.attempted|]);
    }
  }

  lemma {:induction false} HandleBalanced(s: State, c: Callback)
    requires Balanced(s)
    ensures Balanced(Handle(s, c))
  {
    match c
    case OnStart(name, payload) => StartBalanced(s, name, payload);
    case Close(_) =>
      if s.active.Some? {
        TerminalizeBalanced(s, Unknown);
      }
    case OnFinish(payload) =>
      if Usable(s) && payload.Readable? {
        OneRowBalanced(s, Finish(s, payload), RunRow(s.active.value, Ok));
      }
    case _ =>
      if Usable(s) && (c.OnStepStart? || c.OnStepFinish?) {
        StepBalanced(s, c);
      } else if Usable(s) {
        ToolBalanced(s, c);
      }
  }

  // Over every sequence: running rows and those that could not be built = terminal rows + open entries + entries leaked
  // by key reuse or by a finish with open children.
  lemma {:induction false} RowsConserved(cs: seq<Callback>)
    ensures Balanced(Run(cs))
  {
    if cs != [] {
      RowsConserved(cs[..|cs| - 1]);
      HandleBalanced(Run(cs[..|cs| - 1]), cs[|cs| - 1]);
    }
  }

  // ---- Suspension ----

  // An active run and a suspension never coexist, and while suspended no callback hands a row to the writer.
  lemma {:induction false} SuspendedIsSilent(cs: seq<Callback>, c: Callback)
    ensures !(Run(cs).active.Some? && Run(cs).suspended)
    ensures Run(cs).suspended ==> Handle(Run(cs), c).attempted == Run(cs).attempted
  {
    RunInv(cs);
  }

  // ---- When every row is ended ----

  // The entries a callback drops without a terminal row.
  function Dropped(s: State, c: Callback): seq<nat> {
    if !Usable(s) then []
    else
      match c
      case OnStepStart(n, payload) => if payload.NoKey? then [] else Lost(s.active.value.steps, n)
      case OnToolCallStart(id, _, _, payload) => if payload.NoKey? then [] else Lost(s.active.value.tools, id)
      case OnFinish(payload) =>
        if payload.Readable? then EventIds(s.active.value.tools) + EventIds(s.active.value.steps) else []
      case _ => []
  }

  // The callback does not reuse an open key and does not finish the generation over open children.
  predicate Disciplined(s: State, c: Callback) {
    Usable(s) ==>
      match c
      case OnStepStart(n, payload) => payload.NoKey? || Find(s.active.value.steps, n) == |s.active.value.steps|
      case OnToolCallStart(id, _, _, payload) =>
        payload.NoKey? || Find(s.active.value.tools, id) == |s.active.value.tools|
      case OnFinish(payload) => payload.Readable? ==> s.active.value.steps == [] && s.active.value.tools == []
      case _ => true
  }

  predicate DisciplinedRun(cs: seq<Callback>) {
    cs == [] || (DisciplinedRun(cs[..|cs| - 1]) && Disciplined(Run(cs[..|cs| - 1]), cs[|cs| - 1]))
  }

  lemma {:induction false} LeaksStep(s: State, c: Callback)
    ensures Handle(s, c).leaked == s.leaked + Dropped(s, c)
    ensures Dropped(s, c) == [] <==> Disciplined(s, c)
  {
  }

  lemma {:induction false} LeaksExactly(cs: seq<Callback>)
    ensures Run(cs).leaked == [] <==> DisciplinedRun(cs)
  {
    if cs != [] {
      LeaksExactly(cs[..|cs| - 1]);
      LeaksStep(Run(cs[..|cs| - 1]), cs[|cs| - 1]);
    }
  }

  ghost predicate AllIn(ids: seq<nat>, unopened: seq<nat>) {
    forall i :: 0 <= i < |ids| ==> ids[i] in unopened
  }

  // The callback drops no entry that has its running row.
  ghost predicate Careful(s: State, c: Callback) {
    AllIn(Dropped(s, c), s.unopened)
  }

  ghost predicate CarefulRun(cs: seq<Callback>) {
    cs == [] || (CarefulRun(cs[..|cs| - 1]) && Careful(Run(cs[..|cs| - 1]), cs[|cs| - 1]))
  }

  lemma {:induction false} CarefulStep(s: State, c: Callback)
    requires Inv(s)
    ensures AllIn(Handle(s, c).leaked, Handle(s, c).unopened) <==> AllIn(s.leaked, s.unopened) && Careful(s, c)
  {
    hide Inv, Handle, Dropped, RowBuilt;
    var s', more := Handle(s, c), Dropped(s, c);
    LeaksStep(s, c);
    UnopenedStep(s, c);
    forall i | 0 <= i < |s'.leaked|
      ensures s'.leaked[i] in s'.unopened <==> s'.leaked[i] in s.unopened
    {
      LeakedIsKnown(s, c, s'.leaked[i]);
    }
    assert forall i :: 0 <= i < |s.leaked| ==> s'.leaked[i] == s.leaked[i];
    assert forall i :: 0 <= i < |more| ==> s'.leaked[|s.leaked| + i] == more[i];
  }

  lemma {:induction false} LostIsOpen<K(!new)>(es: seq<Open<K>>, key: K, x: nat)
    ensures Times(Lost(es, key), x) <= OpenIn(es, x)
  {
    var i := Find(es, key);
    if i < |es| {
      OpenInSplit(es, i, x);
      TimesSnoc([], Some(es[i].eventId), x);
      assert [] + [es[i].eventId] == Lost(es, key);
    }
  }

  lemma {:induction false} DroppedIsOpen(s: State, c: Callback, x: nat)
    ensures Times(Dropped(s, c), x) <= OpenCount(s.active, x)
  {
    if Usable(s) {
      var r := s.active.value;
      match c
      case OnStepStart(n, _) => LostIsOpen(r.steps, n, x);
      case OnToolCallStart(id, _, _, _) => LostIsOpen(r.tools, id, x);
      case OnFinish(_) =>
        TimesConcat(EventIds(r.tools), EventIds(r.steps), x);
        EventIdsLeak(r.tools, x);
        EventIdsLeak(r.steps, x);
      case _ =>
    }
  }

  // An event that leaks was drawn before the callback, so its running row was tried before.
  lemma {:induction false} LeakedIsKnown(s: State, c: Callback, x: nat)
    requires Inv(s) && x in Handle(s, c).leaked
    ensures x in Handle(s, c).unopened <==> x in s.unopened
  {
    hide Dropped, Handle, OpenCount, RowBuilt;
    var u, u' := s.unopened, Handle(s, c).unopened;
    LeaksStep(s, c);
    UnopenedStep(s, c);
    DroppedIsOpen(s, c, x);
    TimesIn(s.leaked, x);
    TimesIn(Dropped(s, c), x);
    assert Accounted(s, x) && x < s.next;
    assert forall k :: 0 <= k < |u| ==> u'[k] == u[k];
    assert forall k :: 0 <= k < |u'| && u'[k] == x ==> k < |u|;
  }

  lemma {:induction false} CarefulExactly(cs: seq<Callback>)
    ensures AllIn(Run(cs).leaked, Run(cs).unopened) <==> CarefulRun(cs)
  {
    hide Inv, Handle, Careful, AllIn;
    if cs == [] {
      EmptyIn();
    } else {
      var front := cs[..|cs| - 1];
      CarefulExactly(front);
      RunInv(front);
      CarefulStep(Run(front), cs[|cs| - 1]);
    }
  }

  lemma {:induction false} EmptyIn()
    ensures AllIn(INITIAL.leaked, INITIAL.unopened)
  {
    assert |INITIAL.leaked| == 0;
  }

  ghost predicate AllEnded(log: seq<Row>) {
    forall i :: 0 <= i < |log| && log[i].status == AiSdk.Running ==> exists j :: i < j < |log| && Ends(log[i], log[j])
  }

  // After a close, every running row has its terminal row exactly if no callback dropped an entry with a running row;
  // that is so when no key was reused while open and no generation finished over open children, and only then if every
  // running row could be built.
  lemma {:induction false} ClosedIsComplete(cs: seq<Callback>, writerFails: bool)
    ensures AllEnded(Run(cs + [Close(writerFails)]).attempted) <==> CarefulRun(cs)
    ensures DisciplinedRun(cs) ==> CarefulRun(cs)
    ensures RowsBuilt(cs) && CarefulRun(cs) ==> DisciplinedRun(cs)
  {
    hide Inv, Run, Handle, DisciplinedRun, CarefulRun, RowsBuilt;
    var all := cs + [Close(writerFails)];
    assert all[..|cs|] == cs;
    RunInv(all);
    LeaksExactly(cs);
    CarefulExactly(cs);
    UnopenedExactly(cs);
    ClosedState(cs, writerFails);
    EndedUnlessLeaked(Run(all));
    if Run(cs).leaked != [] && Run(cs).unopened == [] {
      assert Run(cs).leaked[0] !in Run(cs).unopened;
    }
  }

  lemma {:induction false} ClosedState(cs: seq<Callback>, writerFails: bool)
    ensures var s := Run(cs + [Close(writerFails)]);
            s.active.None? && s.leaked == Run(cs).leaked && s.unopened == Run(cs).unopened
  {
    assert (cs + [Close(writerFails)])[..|cs|] == cs;
  }

  lemma {:induction false} EndedUnlessLeaked(s: State)
    requires Inv(s) && s.active.None?
    ensures AllEnded(s.attempted) <==> AllIn(s.leaked, s.unopened)
  {
    hide Inv;
    if AllIn(s.leaked, s.unopened) {
      forall i | 0 <= i < |s.attempted| && s.attempted[i].status == AiSdk.Running
        ensures exists j :: i < j < |s.attempted| && Ends(s.attempted[i], s.attempted[j])
      {
        UnopenedHasNone(s, i);
        EndedIfNotLeaked(s, i);
      }
    } else {
      var k :| 0 <= k < |s.leaked| && s.leaked[k] !in s.unopened;
      LeakedNeverEnds(s, s.leaked[k]);
    }
  }

  lemma {:induction false} EndedIfNotLeaked(s: State, i: nat)
    requires Inv(s) && s.active.None?
    requires i < |s.attempted| && s.attempted[i].status == AiSdk.Running && s.attempted[i].eventId !in s.leaked
    ensures exists j :: i < j < |s.attempted| && Ends(s.attempted[i], s.attempted[j])
  {
    var x := s.attempted[i].eventId;
    assert Accounted(s, x);
    RowCounted(s.attempted, i);
    TimesIn(s.leaked, x);
    TerminalRow(s.attempted, x);
    var j :| 0 <= j < |s.attempted| && s.attempted[j].eventId == x && s.attempted[j].status != AiSdk.Running;
    if j < i {
      TwoRows(s, j, i);
    } else {
      TwoRows(s, i, j);
    }
  }

  lemma {:induction false} LeakedNeverEnds(s: State, x: nat)
    requires Inv(s) && x in s.leaked && x !in s.unopened
    ensures !AllEnded(s.attempted)
  {
    assert Accounted(s, x);
    TimesIn(s.leaked, x);
    TimesIn(s.unopened, x);
    OpeningRow(s.attempted, x);
    var i :| 0 <= i < |s.attempted| && s.attempted[i].eventId == x && s.attempted[i].status == AiSdk.Running;
    if AllEnded(s.attempted) {
      var j :| i < j < |s.attempted| && Ends(s.attempted[i], s.attempted[j]);
      RowCounted(s.attempted, j);
    }
  }

  // ---- Order of forced endings ----

  function Rank(k: Kind): nat {
    match k
    case TOOL => 0
    case LLM => 1
    case RUN => 2
  }

  // Rows that end everything open in a run, each event once, tools before steps and the run last.
  ghost predicate OrderedEndings(r: ActiveRun, rows: seq<Row>, status: RowStatus) {
    && |rows| == |r.tools| + |r.steps| + 1
    && (forall i :: 0 <= i < |rows| ==> rows[i].status == status && rows[i].runId == r.runId)
    && (forall i, j :: 0 <= i <= j < |rows| ==> Rank(rows[i].kind) <= Rank(rows[j].kind))
    && rows[|rows| - 1].eventId == r.eventId && rows[|rows| - 1].kind == RUN
    && (forall i :: 0 <= i < |r.tools| ==> ChildRow(r.runId, r.tools[i], TOOL, status) in rows)
    && (forall i :: 0 <= i < |r.steps| ==> ChildRow(r.runId, r.steps[i], LLM, status) in rows)
  }

  lemma {:induction false} EndingsOrdered(r: ActiveRun, status: RowStatus)
    ensures OrderedEndings(r, Endings(r, status), status)
  {
    var tools, steps := ChildRows(r.runId, r.tools, TOOL, status), ChildRows(r.runId, r.steps, LLM, status);
    var rows := tools + steps + [RunRow(r, status)];
    forall i | 0 <= i < |rows|
      ensures rows[i].kind == (if i < |tools| then TOOL else if i < |tools| + |steps| then LLM else RUN)
      ensures rows[i].status == status && rows[i].runId == r.runId
    {
      if |tools| <= i < |tools| + |steps| {
        assert rows[i] == steps[i - |tools|];
      }
    }
    forall i | 0 <= i < |r.tools|
      ensures ChildRow(r.runId, r.tools[i], TOOL, status) in rows
    {
      assert rows[i] == tools[i];
    }
    forall i | 0 <= i < |r.steps|
      ensures ChildRow(r.runId, r.steps[i], LLM, status) in rows
    {
      assert rows[|tools| + i] == steps[i];
    }
  }

  // An overlapping start or a close ends the active run that way, with status error or unknown.
  lemma {:induction false} ForcedEndingsOrdered(cs: seq<Callback>, c: Callback)
    requires c.OnStart? || c.Close?
    requires Run(cs).active.Some?
    ensures var s, status := Run(cs), if c.OnStart? then Error else Unknown;
            && Handle(s, c).active.None?
            && Handle(s, c).attempted == s.attempted + Endings(s.active.value, status)
            && OrderedEndings(s.active.value, Endings(s.active.value, status), status)
  {
    var s, status := Run(cs), if c.OnStart? then Error else Unknown;
    EndingsOrdered(s.active.value, status);
    TerminalizeEndings(s, status);
  }

  lemma {:induction false} TerminalizeEndings(s: State, status: RowStatus)
    requires s.active.Some?
    ensures Terminalize(s, status).attempted == s.attempted + Endings(s.active.value, status)
  {
  }
}
