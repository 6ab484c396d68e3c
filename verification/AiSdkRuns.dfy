// What every serialised callback sequence keeps.
module AiSdkRuns {
  import opened Wrappers
  import opened Counting
  import opened AiSdk

  // ---- Counting by event id ----

  function Running(log: seq<Row>, x: nat): nat {
    if log == [] then 0
    else Running(log[..|log| - 1], x)
         + (if log[|log| - 1].eventId == x && log[|log| - 1].status == AiSdk.Running then 1 else 0)
  }

  function Terminal(log: seq<Row>, x: nat): nat {
    if log == [] then 0
    else Terminal(log[..|log| - 1], x)
         + (if log[|log| - 1].eventId == x && log[|log| - 1].status != AiSdk.Running then 1 else 0)
  }

  function OpenIn<K>(es: seq<Open<K>>, x: nat): nat {
    if es == [] then 0 else OpenIn(es[..|es| - 1], x) + Eq(es[|es| - 1].eventId, x)
  }

  function OpenCount(active: Option<ActiveRun>, x: nat): nat {
    match active
    case None => 0
    case Some(r) => Eq(r.eventId, x) + OpenIn(r.steps, x) + OpenIn(r.tools, x)
  }

  // ---- Justified rows ----

  ghost predicate RunningRow(log: seq<Row>, runId: nat, eventId: nat) {
    exists i :: 0 <= i < |log| && log[i].status == AiSdk.Running && log[i].runId == runId && log[i].eventId == eventId
  }

  // The event of the row has a running row that agrees with it, or is one whose running row could not be built.
  ghost predicate Opened(log: seq<Row>, unopened: seq<nat>, r: Row) {
    r.(status := AiSdk.Running) in log || r.eventId in unopened
  }

  ghost predicate Known(log: seq<Row>, unopened: seq<nat>, runId: nat, eventId: nat) {
    RunningRow(log, runId, eventId) || eventId in unopened
  }

  // A terminal row is about an opened event; a parent is known in the same run.
  ghost predicate Justified(log: seq<Row>, unopened: seq<nat>, r: Row) {
    && (r.status != AiSdk.Running ==> Opened(log, unopened, r))
    && (r.parentId.Some? ==> Known(log, unopened, r.runId, r.parentId.value))
  }

  ghost predicate LogOk(log: seq<Row>, unopened: seq<nat>) {
    log == [] || (LogOk(log[..|log| - 1], unopened) && Justified(log[..|log| - 1], unopened, log[|log| - 1]))
  }

  ghost predicate DistinctKeys<K(!new)>(es: seq<Open<K>>) {
    forall i, j :: 0 <= i < j < |es| ==> es[i].key != es[j].key
  }

  // Every open entry is opened, and its parent known.
  ghost predicate Recorded<K(!new)>(log: seq<Row>, unopened: seq<nat>, runId: nat, es: seq<Open<K>>, kind: Kind) {
    forall i :: 0 <= i < |es| ==>
      && Opened(log, unopened, ChildRow(runId, es[i], kind, AiSdk.Running))
      && Known(log, unopened, runId, es[i].parentId)
  }

  ghost predicate RunRecorded(log: seq<Row>, unopened: seq<nat>, r: ActiveRun) {
    && Opened(log, unopened, RunRow(r, AiSdk.Running))
    && Recorded(log, unopened, r.runId, r.steps, LLM) && DistinctKeys(r.steps)
    && Recorded(log, unopened, r.runId, r.tools, TOOL) && DistinctKeys(r.tools)
  }

  // Every event that got an entry has exactly one running row, or lost it when it could not be built; and it is either
  // ended, open or leaked, exactly once.
  ghost predicate Accounted(s: State, x: nat) {
    && Running(s.attempted, x) + Times(s.unopened, x)
       == Terminal(s.attempted, x) + OpenCount(s.active, x) + Times(s.leaked, x)
    && Running(s.attempted, x) + Times(s.unopened, x) <= 1
    && (x >= s.next ==> Running(s.attempted, x) + Times(s.unopened, x) == 0)
  }

  ghost predicate Inv(s: State) {
    && !(s.active.Some? && s.suspended)
    && LogOk(s.attempted, s.unopened)
    && (s.active.Some? ==> RunRecorded(s.attempted, s.unopened, s.active.value))
    && forall x: nat :: Accounted(s, x)
  }

  // ---- Bookkeeping of the maps ----

  lemma {:induction false} OpenInConcat<K>(a: seq<Open<K>>, b: seq<Open<K>>, x: nat)
    ensures OpenIn(a + b, x) == OpenIn(a, x) + OpenIn(b, x)
  {
    if b == [] {
      assert a + b == a;
    } else {
      assert (a + b)[..|a + b| - 1] == a + b[..|b| - 1];
      OpenInConcat(a, b[..|b| - 1], x);
    }
  }

  lemma {:induction false} EventIdsLeak<K>(es: seq<Open<K>>, x: nat)
    ensures Times(EventIds(es), x) == OpenIn(es, x)
  {
    if es != [] {
      assert EventIds(es)[..|es| - 1] == EventIds(es[..|es| - 1]);
      EventIdsLeak(es[..|es| - 1], x);
    }
  }

  lemma {:induction false} OpenInSplit<K>(es: seq<Open<K>>, i: nat, x: nat)
    requires i < |es|
    ensures OpenIn(es, x) == OpenIn(es[..i], x) + Eq(es[i].eventId, x) + OpenIn(es[i + 1..], x)
  {
    assert es == (es[..i] + [es[i]]) + es[i + 1..];
    OpenInConcat(es[..i] + [es[i]], es[i + 1..], x);
    OpenInSnoc(es[..i], es[i], x);
  }

  lemma {:induction false} OpenInSnoc<K>(es: seq<Open<K>>, e: Open<K>, x: nat)
    ensures OpenIn(es + [e], x) == OpenIn(es, x) + Eq(e.eventId, x)
  {
    assert (es + [e])[..|es|] == es;
  }

  lemma {:induction false} PutCounts<K(!new)>(es: seq<Open<K>>, e: Open<K>, x: nat)
    ensures OpenIn(Put(es, e), x) + Times(Lost(es, e.key), x) == OpenIn(es, x) + Eq(e.eventId, x)
  {
    var i := Find(es, e.key);
    if i < |es| {
      OpenInSplit(es, i, x);
      OpenInSplit(Put(es, e), i, x);
      assert Put(es, e)[..i] == es[..i] && Put(es, e)[i + 1..] == es[i + 1..];
      TimesSnoc([], Some(es[i].eventId), x);
      assert [] + [es[i].eventId] == Lost(es, e.key);
    } else {
      OpenInSnoc(es, e, x);
    }
  }

  lemma {:induction false} DeleteCounts<K(!new)>(es: seq<Open<K>>, i: nat, x: nat)
    requires i < |es| && i == Find(es, es[i].key)
    ensures OpenIn(Delete(es, es[i].key), x) + Eq(es[i].eventId, x) == OpenIn(es, x)
  {
    OpenInSplit(es, i, x);
    OpenInConcat(es[..i], es[i + 1..], x);
  }

  lemma {:induction false} PutRecorded<K(!new)>(log: seq<Row>, unopened: seq<nat>, runId: nat, es: seq<Open<K>>,
        e: Open<K>, kind: Kind)
    requires Recorded(log, unopened, runId, es, kind) && DistinctKeys(es)
    requires Opened(log, unopened, ChildRow(runId, e, kind, AiSdk.Running)) && Known(log, unopened, runId, e.parentId)
    ensures Recorded(log, unopened, runId, Put(es, e), kind) && DistinctKeys(Put(es, e))
  {
    hide Opened, Known;
    var i, r := Find(es, e.key), Put(es, e);
    assert forall k :: 0 <= k < |r| ==> r[k] == if k == i then e else es[k];
  }

  lemma {:induction false} DeleteAt<K(!new)>(es: seq<Open<K>>, key: K, k: nat)
    requires k < |Delete(es, key)|
    ensures var k' := if k < Find(es, key) then k else k + 1; k' < |es| && Delete(es, key)[k] == es[k']
  {
  }

  lemma {:induction false} DeleteRecorded<K(!new)>(log: seq<Row>, unopened: seq<nat>, runId: nat, es: seq<Open<K>>,
        key: K, kind: Kind)
    requires Recorded(log, unopened, runId, es, kind) && DistinctKeys(es)
    ensures Recorded(log, unopened, runId, Delete(es, key), kind) && DistinctKeys(Delete(es, key))
  {
    hide Opened, Known, Delete;
    var i, r := Find(es, key), Delete(es, key);
    forall k | 0 <= k < |r|
      ensures Opened(log, unopened, ChildRow(runId, r[k], kind, AiSdk.Running))
      ensures Known(log, unopened, runId, r[k].parentId)
    {
      DeleteAt(es, key, k);
    }
    forall k, l | 0 <= k < l < |r|
      ensures r[k].key != r[l].key
    {
      DeleteAt(es, key, k);
      DeleteAt(es, key, l);
    }
  }

  // ---- Growing the log ----

  ghost predicate Grows(log: seq<Row>, unopened: seq<nat>, log': seq<Row>, unopened': seq<nat>) {
    log <= log' && unopened <= unopened'
  }

  lemma {:induction false} OpenedGrows(log: seq<Row>, unopened: seq<nat>, log': seq<Row>, unopened': seq<nat>, r: Row)
    requires Grows(log, unopened, log', unopened') && Opened(log, unopened, r)
    ensures Opened(log', unopened', r)
  {
    if r.eventId in unopened {
      var k :| 0 <= k < |unopened| && unopened[k] == r.eventId;
      assert unopened'[k] == unopened[k];
    } else {
      var k :| 0 <= k < |log| && log[k] == r.(status := AiSdk.Running);
      assert log'[k] == log[k];
    }
  }

  lemma {:induction false} KnownGrows(log: seq<Row>, unopened: seq<nat>, log': seq<Row>, unopened': seq<nat>,
        runId: nat, eventId: nat)
    requires Grows(log, unopened, log', unopened') && Known(log, unopened, runId, eventId)
    ensures Known(log', unopened', runId, eventId)
  {
    if eventId in unopened {
      var k :| 0 <= k < |unopened| && unopened[k] == eventId;
      assert unopened'[k] == unopened[k];
    } else {
      var k :| 0 <= k < |log| && log[k].status == AiSdk.Running && log[k].runId == runId && log[k].eventId == eventId;
      assert log'[k] == log[k];
    }
  }

  lemma {:induction false} RecordedGrows<K(!new)>(log: seq<Row>, unopened: seq<nat>, log': seq<Row>,
        unopened': seq<nat>, runId: nat, es: seq<Open<K>>, kind: Kind)
    requires Grows(log, unopened, log', unopened') && Recorded(log, unopened, runId, es, kind)
    ensures Recorded(log', unopened', runId, es, kind)
  {
    hide Opened, Known, Grows;
    forall i | 0 <= i < |es|
      ensures Opened(log', unopened', ChildRow(runId, es[i], kind, AiSdk.Running))
      ensures Known(log', unopened', runId, es[i].parentId)
    {
      OpenedGrows(log, unopened, log', unopened', ChildRow(runId, es[i], kind, AiSdk.Running));
      KnownGrows(log, unopened, log', unopened', runId, es[i].parentId);
    }
  }

  lemma {:induction false} RunRecordedGrows(log: seq<Row>, unopened: seq<nat>, log': seq<Row>, unopened': seq<nat>,
        r: ActiveRun)
    requires Grows(log, unopened, log', unopened') && RunRecorded(log, unopened, r)
    ensures RunRecorded(log', unopened', r)
  {
    hide Opened, Grows, Recorded;
    OpenedGrows(log, unopened, log', unopened', RunRow(r, AiSdk.Running));
    RecordedGrows(log, unopened, log', unopened', r.runId, r.steps, LLM);
    RecordedGrows(log, unopened, log', unopened', r.runId, r.tools, TOOL);
  }

  lemma {:induction false} JustifiedGrows(log: seq<Row>, unopened: seq<nat>, unopened': seq<nat>, r: Row)
    requires unopened <= unopened' && Justified(log, unopened, r)
    ensures Justified(log, unopened', r)
  {
    hide Opened, Known;
    if r.status != AiSdk.Running {
      OpenedGrows(log, unopened, log, unopened', r);
    }
    if r.parentId.Some? {
      KnownGrows(log, unopened, log, unopened', r.runId, r.parentId.value);
    }
  }

  lemma {:induction false} LogOkGrows(log: seq<Row>, unopened: seq<nat>, unopened': seq<nat>)
    requires unopened <= unopened' && LogOk(log, unopened)
    ensures LogOk(log, unopened')
  {
    hide Justified;
    if log != [] {
      LogOkGrows(log[..|log| - 1], unopened, unopened');
      JustifiedGrows(log[..|log| - 1], unopened, unopened', log[|log| - 1]);
    }
  }

  lemma {:induction false} LogSnoc(log: seq<Row>, unopened: seq<nat>, row: Row, x: nat)
    ensures Running(log + [row], x)
            == Running(log, x) + (if row.eventId == x && row.status == AiSdk.Running then 1 else 0)
    ensures Terminal(log + [row], x)
            == Terminal(log, x) + (if row.eventId == x && row.status != AiSdk.Running then 1 else 0)
    ensures LogOk(log, unopened) && Justified(log, unopened, row) ==> LogOk(log + [row], unopened)
  {
    hide Justified;
    assert (log + [row])[..|log|] == log;
  }

  // Terminal rows for all open entries, in order.
  lemma {:induction false} EndAll<K(!new)>(log: seq<Row>, unopened: seq<nat>, runId: nat, es: seq<Open<K>>, kind: Kind,
        status: RowStatus, x: nat)
    requires LogOk(log, unopened) && Recorded(log, unopened, runId, es, kind) && status != AiSdk.Running
    ensures var rows := ChildRows(runId, es, kind, status);
            && LogOk(log + rows, unopened)
            && Running(log + rows, x) == Running(log, x)
            && Terminal(log + rows, x) == Terminal(log, x) + OpenIn(es, x)
  {
    hide Opened, Known, Justified;
    var rows := ChildRows(runId, es, kind, status);
    if es == [] {
      assert log + rows == log;
    } else {
      var front, last := es[..|es| - 1], es[|es| - 1];
      var before, row := log + ChildRows(runId, front, kind, status), ChildRow(runId, last, kind, status);
      EndAll(log, unopened, runId, front, kind, status, x);
      EndingJustified(log, unopened, before, runId, last, kind, status);
      LogSnoc(before, unopened, row, x);
      assert rows == ChildRows(runId, front, kind, status) + [row];
      assert log + rows == before + [row];
    }
  }

  lemma {:induction false} EndingJustified<K>(log: seq<Row>, unopened: seq<nat>, before: seq<Row>, runId: nat,
        e: Open<K>, kind: Kind, status: RowStatus)
    requires log <= before && status != AiSdk.Running
    requires Opened(log, unopened, ChildRow(runId, e, kind, AiSdk.Running)) && Known(log, unopened, runId, e.parentId)
    ensures Justified(before, unopened, ChildRow(runId, e, kind, status))
  {
    hide Known;
    var row := ChildRow(runId, e, kind, status);
    assert row.(status := AiSdk.Running) == ChildRow(runId, e, kind, AiSdk.Running);
    OpenedGrows(log, unopened, before, unopened, row);
    KnownGrows(log, unopened, before, unopened, runId, e.parentId);
  }

  lemma {:induction false} TerminalizeAccounts(s: State, status: RowStatus, x: nat)
    requires Inv(s) && s.active.Some? && status != AiSdk.Running
    ensures LogOk(Terminalize(s, status).attempted, s.unopened) && Accounted(Terminalize(s, status), x)
  {
    hide Opened, Recorded, LogOk;
    var r, log, u := s.active.value, s.attempted, s.unopened;
    var tools, steps := ChildRows(r.runId, r.tools, TOOL, status), ChildRows(r.runId, r.steps, LLM, status);
    EndAll(log, u, r.runId, r.tools, TOOL, status, x);
    RecordedGrows(log, u, log + tools, u, r.runId, r.steps, LLM);
    EndAll(log + tools, u, r.runId, r.steps, LLM, status, x);
    RunEndJustified(log, u, log + tools + steps, r, status);
    LogSnoc(log + tools + steps, u, RunRow(r, status), x);
    assert Accounted(s, x);
  }

  lemma {:induction false} RunEndJustified(log: seq<Row>, unopened: seq<nat>, before: seq<Row>, r: ActiveRun,
        status: RowStatus)
    requires log <= before && Opened(log, unopened, RunRow(r, AiSdk.Running)) && status != AiSdk.Running
    ensures Justified(before, unopened, RunRow(r, status))
  {
    assert RunRow(r, status).(status := AiSdk.Running) == RunRow(r, AiSdk.Running);
    OpenedGrows(log, unopened, before, unopened, RunRow(r, status));
  }

  lemma {:induction false} TerminalizeInv(s: State, status: RowStatus)
    requires Inv(s) && s.active.Some? && status != AiSdk.Running
    ensures Inv(Terminalize(s, status))
  {
    hide LogOk, Accounted;
    forall x: nat
      ensures Accounted(Terminalize(s, status), x)
    {
      TerminalizeAccounts(s, status, x);
    }
    TerminalizeAccounts(s, status, 0);
  }

  // ---- Each callback ----

  // A warning, with any number of event ids drawn.
  lemma {:induction false} WarnInv(s: State, drawn: nat)
    requires Inv(s)
    ensures Inv(Warn(s.(next := s.next + drawn)))
  {
    hide LogOk, RunRecorded;
    var w := Warn(s.(next := s.next + drawn));
    forall x: nat
      ensures Accounted(w, x)
    {
      assert Accounted(s, x);
    }
  }

  lemma {:induction false} OverlapInv(s: State)
    requires Inv(s) && s.active.None?
    ensures Inv(Warn(s.(suspended := true)))
  {
    assert forall x: nat :: Accounted(s, x) ==> Accounted(Warn(s.(suspended := true)), x);
  }

  // The log and the unopened events after a running row was to be handed over.
  lemma {:induction false} WriteRunningCounts(s: State, row: Row, payload: Payload, x: nat)
    requires row.status == AiSdk.Running
    ensures var w := WriteRunning(s, row, payload);
            && Running(w.attempted, x) + Times(w.unopened, x)
               == Running(s.attempted, x) + Times(s.unopened, x) + Eq(row.eventId, x)
            && Terminal(w.attempted, x) == Terminal(s.attempted, x)
  {
    LogSnoc(s.attempted, s.unopened, row, x);
    TimesSnoc(s.unopened, Some(row.eventId), x);
  }

  lemma {:induction false} WriteRunningGrows(s: State, row: Row, payload: Payload)
    requires LogOk(s.attempted, s.unopened) && Justified(s.attempted, s.unopened, row) && row.status == AiSdk.Running
    ensures var w := WriteRunning(s, row, payload);
            && LogOk(w.attempted, w.unopened)
            && Grows(s.attempted, s.unopened, w.attempted, w.unopened)
            && Opened(w.attempted, w.unopened, row)
  {
    hide Justified;
    var w := WriteRunning(s, row, payload);
    assert row.(status := AiSdk.Running) == row;
    if payload.NoRow? {
      LogOkGrows(s.attempted, s.unopened, w.unopened);
      assert w.unopened[|s.unopened|] == row.eventId;
    } else {
      LogSnoc(s.attempted, s.unopened, row, 0);
      assert w.attempted[|s.attempted|] == row;
    }
  }

  lemma {:induction false} FreshRunInv(s: State, name: string, payload: Payload)
    requires Inv(s) && s.active.None? && !s.suspended && !payload.NoKey?
    ensures Inv(Start(s, name, payload))
  {
    hide LogOk, Opened, Recorded;
    var r := ActiveRun(s.next, s.next + 1, RunName(name), [], []);
    var t := s.(active := Some(r), next := s.next + 2);
    WriteRunningGrows(t, RunRow(r, AiSdk.Running), payload);
    NothingRecorded(Start(s, name, payload), r);
    forall x: nat
      ensures Accounted(Start(s, name, payload), x)
    {
      assert Accounted(s, x);
      WriteRunningCounts(t, RunRow(r, AiSdk.Running), payload, x);
    }
  }

  lemma {:induction false} NothingRecorded(s: State, r: ActiveRun)
    requires r.steps == [] && r.tools == []
    ensures Recorded(s.attempted, s.unopened, r.runId, r.steps, LLM)
    ensures Recorded(s.attempted, s.unopened, r.runId, r.tools, TOOL)
  {
    assert |r.steps| == |r.tools| == 0;
  }

  lemma {:induction false} StartInv(s: State, name: string, payload: Payload)
    requires Inv(s)
    ensures Inv(Start(s, name, payload))
  {
    hide Inv;
    if s.active.Some? {
      TerminalizeInv(s, Error);
      OverlapInv(Terminalize(s, Error));
    } else if s.suspended {
      OverlapInv(s);
    } else if payload.NoKey? {
      WarnInv(s, 2);
    } else {
      FreshRunInv(s, name, payload);
    }
  }

  // A new child: the run's maps change to `r'`, an entry that was overwritten leaks, and a running
  // row is to be handed over.
  lemma {:induction false} OpenChildInv(s: State, r': ActiveRun, row: Row, lost: seq<nat>, payload: Payload)
    requires Inv(s) && s.active.Some? && row.status == AiSdk.Running && row.eventId == s.next
    requires Justified(s.attempted, s.unopened, row)
    requires var w := WriteRunning(s, row, payload); RunRecorded(w.attempted, w.unopened, r')
    requires forall x: nat :: OpenCount(Some(r'), x) + Times(lost, x) == OpenCount(s.active, x) + Eq(s.next, x)
    ensures Inv(WriteRunning(s.(active := Some(r'), next := s.next + 1, leaked := s.leaked + lost), row, payload))
  {
    hide LogOk, RunRecorded, Justified, OpenCount;
    var t := s.(active := Some(r'), next := s.next + 1, leaked := s.leaked + lost);
    WriteRunningGrows(t, row, payload);
    forall x: nat
      ensures Accounted(WriteRunning(t, row, payload), x)
    {
      assert Accounted(s, x);
      WriteRunningCounts(t, row, payload, x);
      TimesConcat(s.leaked, lost, x);
    }
  }

  // A finished child: its entry is removed and a terminal row is written.
  lemma {:induction false} CloseChildInv(s: State, r': ActiveRun, row: Row)
    requires Inv(s) && s.active.Some?
    requires row.status != AiSdk.Running && Justified(s.attempted, s.unopened, row)
    requires RunRecorded(s.attempted + [row], s.unopened, r')
    requires forall x: nat :: OpenCount(Some(r'), x) + Eq(row.eventId, x) == OpenCount(s.active, x)
    ensures Inv(Write(s, row).(active := Some(r')))
  {
    hide LogOk, RunRecorded, Justified, OpenCount, Accounted;
    var s' := Write(s, row).(active := Some(r'));
    forall x: nat
      ensures Accounted(s', x)
    {
      CloseChildAccounts(s, r', row, x);
    }
    LogSnoc(s.attempted, s.unopened, row, 0);
  }

  lemma {:induction false} CloseChildAccounts(s: State, r': ActiveRun, row: Row, x: nat)
    requires Accounted(s, x) && row.status != AiSdk.Running
    requires OpenCount(Some(r'), x) + Eq(row.eventId, x) == OpenCount(s.active, x)
    ensures Accounted(Write(s, row).(active := Some(r')), x)
  {
    hide OpenCount;
    LogSnoc(s.attempted, s.unopened, row, x);
  }

  // The parent chosen for a child is a step or run that is known.
  lemma {:induction false} ParentKnown(log: seq<Row>, unopened: seq<nat>, r: ActiveRun, k: nat)
    requires RunRecorded(log, unopened, r) && k <= |r.steps|
    ensures Known(log, unopened, r.runId, if k < |r.steps| then r.steps[k].eventId else r.eventId)
  {
    var row := if k < |r.steps| then ChildRow(r.runId, r.steps[k], LLM, AiSdk.Running) else RunRow(r, AiSdk.Running);
    assert Opened(log, unopened, row);
    if row.eventId !in unopened {
      var i :| 0 <= i < |log| && log[i] == row;
    }
  }

  lemma {:induction false} NewStep(s: State, r: ActiveRun, e: Open<int>, payload: Payload)
    requires Inv(s) && s.active == Some(r) && Known(s.attempted, s.unopened, r.runId, e.parentId)
    ensures Justified(s.attempted, s.unopened, ChildRow(r.runId, e, LLM, AiSdk.Running))
    ensures var w := WriteRunning(s, ChildRow(r.runId, e, LLM, AiSdk.Running), payload);
            RunRecorded(w.attempted, w.unopened, r.(steps := Put(r.steps, e)))
  {
    hide Opened, Known, Recorded, DistinctKeys, LogOk, Grows, WriteRunning;
    var row := ChildRow(r.runId, e, LLM, AiSdk.Running);
    var w := WriteRunning(s, row, payload);
    WriteRunningGrows(s, row, payload);
    RunRecordedGrows(s.attempted, s.unopened, w.attempted, w.unopened, r);
    KnownGrows(s.attempted, s.unopened, w.attempted, w.unopened, r.runId, e.parentId);
    PutRecorded(w.attempted, w.unopened, r.runId, r.steps, e, LLM);
  }

  lemma {:induction false} StepStartInv(s: State, n: int, payload: Payload)
    requires Inv(s) && Usable(s) && !payload.NoKey?
    ensures Inv(StepStart(s, n, payload))
  {
    hide Inv, Justified, RunRecorded, Known, Accounted;
    var r := s.active.value;
    var e := Open(n, s.next, r.eventId, StepName(n));
    RecordedRun(s);
    ParentKnown(s.attempted, s.unopened, r, |r.steps|);
    NewStep(s, r, e, payload);
    forall x: nat
      ensures OpenCount(Some(r.(steps := Put(r.steps, e))), x) + Times(Lost(r.steps, n), x)
              == OpenCount(s.active, x) + Eq(s.next, x)
    {
      PutCounts(r.steps, e, x);
    }
    OpenChildInv(s, r.(steps := Put(r.steps, e)), ChildRow(r.runId, e, LLM, AiSdk.Running), Lost(r.steps, n), payload);
  }

  lemma {:induction false} RecordedRun(s: State)
    requires Inv(s) && s.active.Some?
    ensures RunRecorded(s.attempted, s.unopened, s.active.value)
  {
  }

  lemma {:induction false} NewTool(s: State, r: ActiveRun, e: Open<string>, payload: Payload)
    requires Inv(s) && s.active == Some(r) && Known(s.attempted, s.unopened, r.runId, e.parentId)
    ensures Justified(s.attempted, s.unopened, ChildRow(r.runId, e, TOOL, AiSdk.Running))
    ensures var w := WriteRunning(s, ChildRow(r.runId, e, TOOL, AiSdk.Running), payload);
            RunRecorded(w.attempted, w.unopened, r.(tools := Put(r.tools, e)))
  {
    hide Opened, Known, Recorded, DistinctKeys, LogOk, Grows, WriteRunning;
    var row := ChildRow(r.runId, e, TOOL, AiSdk.Running);
    var w := WriteRunning(s, row, payload);
    WriteRunningGrows(s, row, payload);
    RunRecordedGrows(s.attempted, s.unopened, w.attempted, w.unopened, r);
    KnownGrows(s.attempted, s.unopened, w.attempted, w.unopened, r.runId, e.parentId);
    PutRecorded(w.attempted, w.unopened, r.runId, r.tools, e, TOOL);
  }

  // Opening a tool under a known parent.
  lemma {:induction false} OpenToolInv(s: State, r: ActiveRun, e: Open<string>, payload: Payload)
    requires Inv(s) && s.active == Some(r) && e.eventId == s.next && Known(s.attempted, s.unopened, r.runId, e.parentId)
    ensures Inv(WriteRunning(s.(active := Some(r.(tools := Put(r.tools, e))), next := s.next + 1,
                                leaked := s.leaked + Lost(r.tools, e.key)),
                             ChildRow(r.runId, e, TOOL, AiSdk.Running), payload))
  {
    hide Inv, Justified, RunRecorded, Known, Accounted;
    NewTool(s, r, e, payload);
    forall x: nat
      ensures OpenCount(Some(r.(tools := Put(r.tools, e))), x) + Times(Lost(r.tools, e.key), x)
              == OpenCount(s.active, x) + Eq(s.next, x)
    {
      PutCounts(r.tools, e, x);
    }
    OpenChildInv(s, r.(tools := Put(r.tools, e)), ChildRow(r.runId, e, TOOL, AiSdk.Running), Lost(r.tools, e.key),
                 payload);
  }

  lemma {:induction false} ToolStartInv(s: State, id: string, toolName: string, inStep: Option<int>, payload: Payload)
    requires Inv(s) && Usable(s)
    ensures Inv(ToolStart(s, id, toolName, inStep, payload))
  {
    hide Inv, Known, RunRecorded;
    var r := s.active.value;
    var k := if inStep.Some? then Find(r.steps, inStep.value) else |r.steps|;
    var e := Open(id, s.next, if k < |r.steps| then r.steps[k].eventId else r.eventId, ToolName(toolName));
    RecordedRun(s);
    ParentKnown(s.attempted, s.unopened, r, k);
    WarnInv(s, 0);
    var t := if k < |r.steps| then s else Warn(s);
    if payload.NoKey? {
      WarnInv(t, 1);
    } else {
      OpenToolInv(t, r, e, payload);
    }
  }

  lemma {:induction false} StepFinishInv(s: State, n: int)
    requires Inv(s) && Usable(s) && Find(s.active.value.steps, n) < |s.active.value.steps|
    ensures Inv(StepFinish(s, n, Readable))
  {
    hide Inv, LogOk, Opened, Known, Accounted, DistinctKeys;
    var r := s.active.value;
    var i := Find(r.steps, n);
    var row, r' := ChildRow(r.runId, r.steps[i], LLM, Ok), r.(steps := Delete(r.steps, n));
    RecordedRun(s);
    EndingJustified(s.attempted, s.unopened, s.attempted, r.runId, r.steps[i], LLM, Ok);
    RunRecordedGrows(s.attempted, s.unopened, s.attempted + [row], s.unopened, r);
    DeleteRecorded(s.attempted + [row], s.unopened, r.runId, r.steps, n, LLM);
    forall x: nat
      ensures OpenCount(Some(r'), x) + Eq(row.eventId, x) == OpenCount(s.active, x)
    {
      DeleteCounts(r.steps, i, x);
    }
    CloseChildInv(s, r', row);
  }

  lemma {:induction false} ToolFinishInv(s: State, id: string, success: bool)
    requires Inv(s) && Usable(s) && Find(s.active.value.tools, id) < |s.active.value.tools|
    ensures Inv(ToolFinish(s, id, success, Readable))
  {
    hide Inv, LogOk, Opened, Known, Accounted, DistinctKeys;
    var r, status := s.active.value, if success then Ok else Error;
    var i := Find(r.tools, id);
    var row, r' := ChildRow(r.runId, r.tools[i], TOOL, status), r.(tools := Delete(r.tools, id));
    RecordedRun(s);
    EndingJustified(s.attempted, s.unopened, s.attempted, r.runId, r.tools[i], TOOL, status);
    RunRecordedGrows(s.attempted, s.unopened, s.attempted + [row], s.unopened, r);
    DeleteRecorded(s.attempted + [row], s.unopened, r.runId, r.tools, id, TOOL);
    forall x: nat
      ensures OpenCount(Some(r'), x) + Eq(row.eventId, x) == OpenCount(s.active, x)
    {
      DeleteCounts(r.tools, i, x);
    }
    CloseChildInv(s, r', row);
  }

  lemma {:induction false} FinishInv(s: State, payload: Payload)
    requires Inv(s)
    ensures Inv(Finish(s, payload))
  {
    hide LogOk, Recorded, Opened, Justified;
    if s.suspended {
      assert forall x: nat :: Accounted(s, x) ==> Accounted(Finish(s, payload), x);
    } else if s.active.None? || !payload.Readable? {
      WarnInv(s, 0);
    } else {
      var r, u := s.active.value, s.unopened;
      RunEndJustified(s.attempted, u, s.attempted, r, Ok);
      forall x: nat
        ensures Accounted(Finish(s, payload), x)
      {
        FinishAccounts(s, payload, x);
      }
      LogSnoc(s.attempted, u, RunRow(r, Ok), 0);
    }
  }

  lemma {:induction false} FinishAccounts(s: State, payload: Payload, x: nat)
    requires Accounted(s, x) && Usable(s) && payload.Readable?
    ensures Accounted(Finish(s, payload), x)
  {
    var r := s.active.value;
    LogSnoc(s.attempted, s.unopened, RunRow(r, Ok), x);
    TimesConcat(s.leaked, EventIds(r.tools), x);
    TimesConcat(s.leaked + EventIds(r.tools), EventIds(r.steps), x);
    EventIdsLeak(r.tools, x);
    EventIdsLeak(r.steps, x);
  }

  lemma {:induction false} CloseInv(s: State, writerFails: bool)
    requires Inv(s)
    ensures Inv(CloseState(s, writerFails))
  {
    var t := if s.active.Some? then Terminalize(s, Unknown) else s;
    if s.active.Some? {
      TerminalizeInv(s, Unknown);
    }
    assert forall x: nat :: Accounted(t, x) ==> Accounted(CloseState(s, writerFails), x);
  }

  lemma {:induction false} HandleInv(s: State, c: Callback)
    requires Inv(s)
    ensures Inv(Handle(s, c))
  {
    hide Inv;
    WarnInv(s, 0);
    WarnInv(s, 1);
    match c
    case OnStart(name, payload) => StartInv(s, name, payload);
    case OnStepStart(n, payload) =>
      if Usable(s) && !payload.NoKey? {
        StepStartInv(s, n, payload);
      }
    case OnStepFinish(n, payload) =>
      if Usable(s) && Find(s.active.value.steps, n) < |s.active.value.steps| && payload.Readable? {
        StepFinishInv(s, n);
      }
    case OnToolCallStart(id, toolName, inStep, payload) =>
      if Usable(s) {
        ToolStartInv(s, id, toolName, inStep, payload);
      }
    case OnToolCallFinish(id, success, payload) =>
      if Usable(s) && Find(s.active.value.tools, id) < |s.active.value.tools| && payload.Readable? {
        ToolFinishInv(s, id, success);
      }
    case OnFinish(payload) => FinishInv(s, payload);
    case Close(writerFails) => CloseInv(s, writerFails);
  }

  lemma {:induction false} RunSnoc(cs: seq<Callback>, c: Callback)
    ensures Run(cs + [c]) == Handle(Run(cs), c)
  {
    assert (cs + [c])[..|cs|] == cs;
  }

  lemma {:induction false} RunInv(cs: seq<Callback>)
    ensures Inv(Run(cs))
  {
    if cs == [] {
      assert forall x: nat :: Accounted(INITIAL, x);
    } else {
      RunInv(cs[..|cs| - 1]);
      HandleInv(Run(cs[..|cs| - 1]), cs[|cs| - 1]);
    }
  }
}
