// From the protocol to the readers: the rows of a run, written with string ids and times, and what the timeline and the
// tree view show of them.
module Readback {
  import opened Wrappers
  import opened ParentGraph
  import opened StepDepth
  import opened StableSort
  import P = Protocol
  import L = ProtocolLog
  import S = ProtocolSafety
  import E = ProtocolEnds
  import F = ProtocolFailures
  import Q = StoredRows
  import opened Trace
  import opened Timeline
  import opened RunSummary
  import V = TreeView

  type Naming = nat -> string

  // Distinct ids get distinct names, and none is blank.
  ghost predicate Names(naming: Naming) {
    && (forall i: nat, j: nat :: naming(i) == naming(j) ==> i == j)
    && (forall i: nat :: !IsBlank(naming(i)))
  }

  function Named(naming: Naming, id: Option<nat>): Option<string> {
    if id.Some? then Some(naming(id.value)) else None
  }

  function EventOf(r: P.Row, naming: Naming, time: real): TraceEvent {
    match r
    case RunStarted(runId, name) => RunStarted(naming(runId), name, time)
    case RunCompleted(runId, failed) => RunCompleted(naming(runId), failed, time, 0.0)
    case StepStarted(runId, stepId, parentId, name) =>
      StepStarted(naming(runId), naming(stepId), Named(naming, parentId), name, LogicStep, time)
    case StepCompleted(runId, stepId, failed) => StepCompleted(naming(runId), naming(stepId), failed, time, 0.0)
  }

  // The trace file: `clock` gives the time of each row.
  function EventsOf(file: seq<P.Row>, naming: Naming, clock: nat -> real): (events: seq<TraceEvent>)
    ensures |events| == |file|
  {
    seq(|file|, i requires 0 <= i < |file| => EventOf(file[i], naming, clock(i)))
  }

  // The table holds the named links of g.
  ghost predicate Mirrors(t: StepTable, g: Graph<nat>, naming: Naming) {
    && (forall id: nat :: naming(id) in t.nodes <==> id in g)
    && (forall id: nat :: id in g ==> naming(id) in t.nodes && t.nodes[naming(id)].parentId == Named(naming, g[id]))
    && (forall s :: s in t.nodes ==> exists id: nat :: id in g && naming(id) == s)
  }

  lemma {:induction false} EventsFront(file: seq<P.Row>, naming: Naming, clock: nat -> real)
    requires file != []
    ensures var events := EventsOf(file, naming, clock);
            && events[..|events| - 1] == EventsOf(file[..|file| - 1], naming, clock)
            && events[|events| - 1] == EventOf(file[|file| - 1], naming, clock(|file| - 1))
  {
  }

  lemma {:induction false} OpenMirrors(file: seq<P.Row>, naming: Naming, clock: nat -> real)
    requires Names(naming)
    ensures Mirrors(OpenAll(EventsOf(file, naming, clock)), L.Links(file), naming)
  {
    if file != [] {
      var front, r := file[..|file| - 1], file[|file| - 1];
      OpenMirrors(front, naming, clock);
      EventsFront(file, naming, clock);
      var t, g := OpenAll(EventsOf(front, naming, clock)), L.Links(front);
      if r.StepStarted? {
        SetMirrors(t, g, naming, r, EventOf(r, naming, clock(|file| - 1)));
      }
    }
  }

  lemma {:induction false} SetMirrors(t: StepTable, g: Graph<nat>, naming: Naming, r: P.Row, e: TraceEvent)
    requires Names(naming) && Mirrors(t, g, naming) && r.StepStarted?
    requires e.StepStarted? && e.stepId == naming(r.stepId) && e.parentId == Named(naming, r.parentId)
    ensures Mirrors(t.Set(e.stepId, Opened(e)), g[r.stepId := r.parentId], naming)
  {
    var u, h := t.Set(e.stepId, Opened(e)), g[r.stepId := r.parentId];
    forall id: nat
      ensures naming(id) in u.nodes <==> id in h
      ensures id in h ==> u.nodes[naming(id)].parentId == Named(naming, h[id])
    {
      assert naming(id) == e.stepId ==> id == r.stepId;
    }
    forall s | s in u.nodes
      ensures exists id: nat :: id in h && naming(id) == s
    {
      if s == e.stepId {
        assert r.stepId in h && naming(r.stepId) == s;
      } else {
        var id: nat :| id in g && naming(id) == s;
        assert id in h;
      }
    }
  }

  lemma {:induction false} LoadMirrors(file: seq<P.Row>, naming: Naming, clock: nat -> real)
    requires Names(naming)
    ensures Mirrors(Load(EventsOf(file, naming, clock)), L.Links(file), naming)
  {
    var events := EventsOf(file, naming, clock);
    OpenMirrors(file, naming, clock);
    var t, u := OpenAll(events), Load(events);
    assert forall s :: s in t.nodes <==> s in u.nodes by {
      assert t.order == u.order;
    }
    forall s | s in t.nodes
      ensures u.nodes[s].parentId == t.nodes[s].parentId
    {
      CompleteAllKeeps(t, events, s);
    }
  }

  // ---- The named graph ----

  ghost predicate NamedGraph(g: Graph<nat>, h: Graph<string>, naming: Naming) {
    && (forall id: nat :: naming(id) in h <==> id in g)
    && (forall id: nat :: id in g ==> naming(id) in h && h[naming(id)] == Named(naming, g[id]))
  }

  lemma {:induction false} NamedAncestor(g: Graph<nat>, h: Graph<string>, naming: Naming, id: nat, k: nat)
    requires NamedGraph(g, h, naming)
    ensures Up(h, naming(id)) == Named(naming, Up(g, id))
    ensures Ancestor(h, naming(id), k) == Named(naming, Ancestor(g, id, k))
    decreases k
  {
    if k > 0 && Up(g, id).Some? {
      NamedAncestor(g, h, naming, Up(g, id).value, k - 1);
    }
  }

  lemma {:induction false} NamedRoot(g: Graph<nat>, h: Graph<string>, naming: Naming, id: nat, d: nat)
    requires NamedGraph(g, h, naming) && RootedAt(g, id, d)
    ensures Depth(h, naming(id)) == d && ReachesRoot(h, naming(id))
  {
    NamedAncestor(g, h, naming, id, d);
    NamedAncestor(g, h, naming, Ancestor(g, id, d).value, 0);
    assert RootedAt(h, naming(id), d);
    RootedHeight(h, naming(id), d);
  }

  lemma {:induction false} GraphsNamed(t: StepTable, g: Graph<nat>, naming: Naming)
    requires Names(naming) && Mirrors(t, g, naming)
    ensures NamedGraph(g, Links(t), naming) && NamedGraph(g, NonBlankLinks(t), naming)
  {
  }

  // ---- What is shown of a step ----

  ghost function FileEvents(p: P.Prog, moves: seq<P.Move>, runId: nat, naming: Naming,
        clock: nat -> real): seq<TraceEvent> {
    EventsOf(L.FileOf(P.Exec(p, moves).attempted, runId), naming, clock)
  }

  lemma {:induction false} TableDepth(t: StepTable, g: Graph<nat>, naming: Naming, id: nat, d: nat)
    requires Names(naming) && Mirrors(t, g, naming) && id in g && RootedAt(g, id, d)
    ensures naming(id) in t.nodes && ReachesRoot(Links(t), naming(id))
    ensures Depth(Links(t), naming(id)) == Depth(NonBlankLinks(t), naming(id)) == d
  {
    GraphsNamed(t, g, naming);
    NamedRoot(g, Links(t), naming, id, d);
    NamedRoot(g, NonBlankLinks(t), naming, id, d);
  }

  lemma {:induction false} StepRooted(log: seq<P.Row>, i: nat, g: Graph<nat>, id: nat) returns (d: nat)
    requires L.WellFormed(log) && i < |log| && log[i].StepStarted?
    requires g == L.Links(L.FileOf(log, log[i].runId)) && id == log[i].stepId
    ensures id in g && RootedAt(g, id, d)
    ensures |L.PathOf(log, id)| == d + 1
  {
    L.ChainEnds(log, log[i].runId, id);
    L.FileLinks(log, log[i].runId, i);
    d := |L.PathOf(log, id)| - 1;
  }

  // An id shown at one depth: in the timeline up to the cap, and on one line of the tree view exactly.
  ghost predicate ShownAt(events: seq<TraceEvent>, id: string, depth: nat) {
    && id in Load(events).nodes
    && CappedDepth(NonBlankLinks(Load(events)), id) == Min(MAX_DEPTH, depth)
    && V.Occurrences(V.Printed(V.TreeOf(events), 0), id) == 1
    && forall l :: l in V.Printed(V.TreeOf(events), 0) && l.id == id ==> l.depth == depth
  }

  lemma {:induction false} RootedIsShown(events: seq<TraceEvent>, id: string, d: nat)
    requires var t := Load(events); id in t.nodes && ReachesRoot(Links(t), id)
                                    && Depth(Links(t), id) == Depth(NonBlankLinks(t), id) == d
    ensures ShownAt(events, id, d)
  {
    V.TreeShowsRootedOnce(events, id);
  }

  lemma {:induction false} FileShows(file: seq<P.Row>, id: nat, d: nat, naming: Naming, clock: nat -> real)
    requires Names(naming) && id in L.Links(file) && RootedAt(L.Links(file), id, d)
    ensures ShownAt(EventsOf(file, naming, clock), naming(id), d)
  {
    hide Load, EventsOf, ShownAt, Mirrors, Names, L.Links, RootedAt;
    LoadMirrors(file, naming, clock);
    TableDepth(Load(EventsOf(file, naming, clock)), L.Links(file), naming, id, d);
    RootedIsShown(EventsOf(file, naming, clock), naming(id), d);
  }

  lemma {:induction false} RowIsShown(log: seq<P.Row>, i: nat, naming: Naming, clock: nat -> real)
    requires Names(naming) && L.WellFormed(log) && i < |log| && log[i].StepStarted?
    ensures |L.PathOf(log, log[i].stepId)| > 0
    ensures ShownAt(EventsOf(L.FileOf(log, log[i].runId), naming, clock), naming(log[i].stepId), |L.PathOf(log,
            log[i].stepId)| - 1)
  {
    hide EventsOf, ShownAt;
    var file, id := L.FileOf(log, log[i].runId), log[i].stepId;
    var d := StepRooted(log, i, L.Links(file), id);
    FileShows(file, id, d, naming, clock);
  }

  lemma {:induction false} LogWellFormed(p: P.Prog, moves: seq<P.Move>)
    ensures L.WellFormed(P.Exec(p, moves).attempted)
  {
    S.ExecSound(p, moves);
  }

  // Every step of a run is shown at the depth at which it ran.
  lemma {:induction false} StepIsShown(p: P.Prog, moves: seq<P.Move>, i: nat, naming: Naming, clock: nat -> real)
    requires Names(naming)
    requires i < |P.Exec(p, moves).attempted| && P.Exec(p, moves).attempted[i].StepStarted?
    ensures var log := P.Exec(p, moves).attempted;
            && |L.PathOf(log, log[i].stepId)| > 0
            && ShownAt(FileEvents(p, moves, log[i].runId, naming, clock), naming(log[i].stepId), |L.PathOf(log,
                log[i].stepId)| - 1)
  {
    var log := P.Exec(p, moves).attempted;
    LogWellFormed(p, moves);
    RowIsShown(log, i, naming, clock);
  }

  lemma {:induction false} EntryFor(events: seq<TraceEvent>, slowTopN: Option<int>, id: string)
    requires id in Load(events).nodes
    ensures exists k ::
              0 <= k < |TimelineEntries(events, slowTopN)| && TimelineEntries(events, slowTopN)[k].stepId == id
                        && TimelineEntries(events, slowTopN)[k].depth == CappedDepth(NonBlankLinks(Load(events)), id)
  {
    var t, es := Load(events), TimelineEntries(events, slowTopN);
    var raw := EntriesOf(t, RunStart(events));
    var sorted := Sort(StartKey, raw);
    TimelineMeaning(events, slowTopN);
    var n :| 0 <= n < |t.order| && t.order[n] == id;
    assert raw[n] in multiset(sorted);
    var k :| 0 <= k < |sorted| && sorted[k] == raw[n];
    assert es[k].stepId == id && es[k].depth == CappedDepth(NonBlankLinks(t), id);
  }

  lemma {:induction false} OccursIn(lines: seq<V.Line>, id: string)
    ensures V.Occurrences(lines, id) > 0 ==> exists i :: 0 <= i < |lines| && lines[i].id == id
  {
    if lines != [] && lines[0].id != id {
      OccursIn(lines[1..], id);
      if i :| 0 <= i < |lines[1..]| && lines[1..][i].id == id {
        assert lines[i + 1].id == id;
      }
    }
  }

  lemma {:induction false} TreeLine(events: seq<TraceEvent>, id: string, depth: nat)
    requires ShownAt(events, id, depth)
    ensures V.Line(id, Load(events).nodes[id].status, depth) in V.Printed(V.TreeOf(events), 0)
  {
    var lines := V.Printed(V.TreeOf(events), 0);
    V.TreeShowsRootedOnce(events, id);
    OccursIn(lines, id);
    var i :| 0 <= i < |lines| && lines[i].id == id;
    assert lines[i] in lines;
  }

  // The depth printed while the step ran is the depth of its timeline entry, up to the cap,
  // and of its line in the tree.
  lemma {:induction false} LiveDepthIsShown(p: P.Prog, moves: seq<P.Move>, line: P.Line, naming: Naming,
        clock: nat -> real, slowTopN: Option<int>)
    requires Names(naming) && line.StepLine? && line in P.Exec(p, moves).console
    ensures var events := FileEvents(p, moves, line.runId, naming, clock);
            && naming(line.stepId) in Load(events).nodes
            && (exists k :: 0 <= k < |TimelineEntries(events, slowTopN)|
                            && TimelineEntries(events, slowTopN)[k].stepId == naming(line.stepId)
                            && TimelineEntries(events, slowTopN)[k].depth == Min(1000, line.depth))
            && V.Line(naming(line.stepId), Load(events).nodes[naming(line.stepId)].status,
                line.depth) in V.Printed(V.TreeOf(events), 0)
  {
    var log, id := P.Exec(p, moves).attempted, naming(line.stepId);
    S.ExecSound(p, moves);
    var i :| 0 <= i < |log| && log[i].StepStarted? && log[i].stepId == line.stepId && log[i].runId == line.runId;
    StepIsShown(p, moves, i, naming, clock);
    var events := FileEvents(p, moves, line.runId, naming, clock);
    EntryFor(events, slowTopN, id);
    TreeLine(events, id, line.depth);
  }

  // ---- What is shown of the rows that were stored ----

  ghost function StoredEvents(c: P.Config, runId: nat, naming: Naming, clock: nat -> real): seq<TraceEvent> {
    EventsOf(L.FileOf(c.disk, runId), naming, clock)
  }

  // A step whose start row was stored is shown at the number of its consecutive ancestors whose start rows were stored
  // too, never deeper than it ran, and exactly as deep if all of them were.
  lemma {:induction false} StoredStepIsShown(p: P.Prog, moves: seq<P.Move>, i: nat, naming: Naming, clock: nat -> real)
    returns (d: nat)
    requires Names(naming) && i < |P.Exec(p, moves).disk| && P.Exec(p, moves).disk[i].StepStarted?
    ensures var c := P.Exec(p, moves);
            var id, runId := c.disk[i].stepId, c.disk[i].runId;
            && |L.PathOf(c.attempted, id)| > 0
            && ShownAt(StoredEvents(c, runId, naming, clock), naming(id), d)
            && Q.StoredAncestors(L.Links(L.FileOf(c.attempted, runId)), L.Links(L.FileOf(c.disk, runId)), id,
                                 |L.PathOf(c.attempted, id)| - 1, d)
  {
    var c := P.Exec(p, moves);
    LogWellFormed(p, moves);
    Q.DiskIsPart(p, moves);
    hide P.Exec, ShownAt, Q.StoredAncestors, L.WellFormed, F.Subsequence;
    d := StoredRowIsShown(c.disk, c.attempted, i, naming, clock);
  }

  lemma {:induction false} StoredRowIsShown(disk: seq<P.Row>, log: seq<P.Row>, i: nat, naming: Naming,
        clock: nat -> real)
    returns (d: nat)
    requires Names(naming) && L.WellFormed(log) && F.Subsequence(disk, log) && i < |disk| && disk[i].StepStarted?
    ensures var id, runId := disk[i].stepId, disk[i].runId;
            && |L.PathOf(log, id)| > 0
            && ShownAt(EventsOf(L.FileOf(disk, runId), naming, clock), naming(id), d)
            && Q.StoredAncestors(L.Links(L.FileOf(log, runId)), L.Links(L.FileOf(disk, runId)), id, |L.PathOf(log,
                id)| - 1, d)
  {
    hide Q.StoredAncestors, ShownAt, Names, L.Links, L.FileOf, L.PathOf, RootedAt, EventsOf;
    d := StoredRooted(disk, log, i);
    FileShows(L.FileOf(disk, disk[i].runId), disk[i].stepId, d, naming, clock);
  }

  lemma {:induction false} StoredRooted(disk: seq<P.Row>, log: seq<P.Row>, i: nat) returns (d: nat)
    requires L.WellFormed(log) && F.Subsequence(disk, log) && i < |disk| && disk[i].StepStarted?
    ensures var id, part := disk[i].stepId, L.Links(L.FileOf(disk, disk[i].runId));
            && id in part && RootedAt(part, id, d) && |L.PathOf(log, id)| > 0
            && Q.StoredAncestors(L.Links(L.FileOf(log, disk[i].runId)), part, id, |L.PathOf(log, id)| - 1, d)
  {
    var id, runId := disk[i].stepId, disk[i].runId;
    Q.PartRows(disk, log, id);
    assert disk[i] in disk;
    var j :| 0 <= j < |log| && log[j] == disk[i];
    L.ChainEnds(log, runId, id);
    Q.PartLinks(disk, log, runId);
    Q.LinkHasRow(disk, runId, id);
    d := Q.PartRooted(L.Links(L.FileOf(log, runId)), L.Links(L.FileOf(disk, runId)), id, |L.PathOf(log, id)| - 1);
  }

  // ---- The status shown of a step ----

  function StatusBy(end: Option<bool>): StepStatus {
    match end
    case None => Running
    case Some(failed) => Status(failed)
  }

  lemma {:induction false} EventAt(file: seq<P.Row>, naming: Naming, clock: nat -> real, k: nat)
    requires k < |file|
    ensures EventsOf(file, naming, clock)[k] == EventOf(file[k], naming, clock(k))
  {
  }

  // The last completion row of a step in a file is that of its name in the table.
  lemma {:induction false} LastEndNamed(file: seq<P.Row>, id: nat, naming: Naming, clock: nat -> real) returns (k: nat)
    requires Names(naming)
    ensures var events, end := EventsOf(file, naming, clock), Q.LastEnd(file, id);
            && (end.None? ==>
                  forall j :: 0 <= j < |events| && events[j].StepCompleted? ==> events[j].stepId != naming(id))
            && (end.Some? ==> LastCompletion(events, naming(id), k) && events[k].failed == end.value)
  {
    var events := EventsOf(file, naming, clock);
    k := Q.LastEndAt(file, id);
    forall j | 0 <= j < |events|
      ensures events[j].StepCompleted? ==>
                file[j].StepCompleted? && events[j].stepId == naming(file[j].stepId)
                && events[j].failed == file[j].failed
    {
      EventAt(file, naming, clock, j);
    }
    if Q.LastEnd(file, id).Some? {
      EventAt(file, naming, clock, k);
    }
  }

  lemma {:induction false} StatusOfFile(file: seq<P.Row>, id: nat, naming: Naming, clock: nat -> real)
    requires Names(naming) && naming(id) in Load(EventsOf(file, naming, clock)).nodes
    ensures Load(EventsOf(file, naming, clock)).nodes[naming(id)].status == StatusBy(Q.LastEnd(file, id))
  {
    hide Load, EventsOf;
    var events := EventsOf(file, naming, clock);
    var k := LastEndNamed(file, id, naming, clock);
    LoadMeaning(events, naming(id));
    var i :| 0 <= i < |events| && events[i].StepStarted? && events[i].stepId == naming(id);
    var s := LastStartExists(events, i);
  }

  lemma {:induction false} EndsInItsRun(log: seq<P.Row>, i: nat, r: P.Row)
    requires L.WellFormed(log) && i < |log| && log[i].StepStarted?
    requires r in log && r.StepCompleted? && r.stepId == log[i].stepId
    ensures r.runId == log[i].runId
  {
    var j :| 0 <= j < |log| && log[j] == r;
    var k := StartOfEnd(log, j);
    L.OpenedOnce(log, i, k);
  }

  lemma {:induction false} StartOfEnd(log: seq<P.Row>, j: nat) returns (k: nat)
    requires L.WellFormed(log) && j < |log| && log[j].StepCompleted?
    ensures k < |log| && log[k].StepStarted? && log[k].stepId == log[j].stepId && log[k].runId == log[j].runId
  {
    if j < |log| - 1 {
      k := StartOfEnd(log[..|log| - 1], j);
    } else {
      var front := log[..|log| - 1];
      assert L.HasStep(front, log[j].runId, log[j].stepId);
      k :| 0 <= k < |front| && front[k].StepStarted? && front[k].stepId == log[j].stepId
           && front[k].runId == log[j].runId;
    }
  }

  // At any time a step whose start row was stored is shown with the status of the last of its completion rows that was
  // stored, and as running if none was.
  lemma {:induction false} StatusIsShown(p: P.Prog, moves: seq<P.Move>, i: nat, naming: Naming, clock: nat -> real)
    requires Names(naming) && i < |P.Exec(p, moves).disk| && P.Exec(p, moves).disk[i].StepStarted?
    ensures var c := P.Exec(p, moves);
            var id, t := c.disk[i].stepId, Load(StoredEvents(c, c.disk[i].runId, naming, clock));
            naming(id) in t.nodes && t.nodes[naming(id)].status == StatusBy(Q.LastEnd(c.disk, id))
  {
    hide P.Exec, Load, L.FileOf, EventsOf, V.Printed, Q.StoredAncestors;
    var c := P.Exec(p, moves);
    var id, runId := c.disk[i].stepId, c.disk[i].runId;
    var d := StoredStepIsShown(p, moves, i, naming, clock);
    StatusOfFile(L.FileOf(c.disk, runId), id, naming, clock);
    LogWellFormed(p, moves);
    Q.DiskIsPart(p, moves);
    EndsStored(c.disk, c.attempted, i);
    Q.LastEndOfFile(c.disk, runId, id);
  }

  lemma {:induction false} EndsStored(disk: seq<P.Row>, log: seq<P.Row>, i: nat)
    requires L.WellFormed(log) && F.Subsequence(disk, log) && i < |disk| && disk[i].StepStarted?
    ensures forall r :: r in disk && r.StepCompleted? && r.stepId == disk[i].stepId ==> r.runId == disk[i].runId
  {
    Q.PartRows(disk, log, 0);
    assert disk[i] in disk;
    var j :| 0 <= j < |log| && log[j] == disk[i];
    forall r | r in disk && r.StepCompleted? && r.stepId == disk[i].stepId
      ensures r.runId == disk[i].runId
    {
      EndsInItsRun(log, j, r);
    }
  }

  // And if no failure got out of its wrapper and a completion row was stored, the status tells how the body of the step
  // ended exactly if what the body returned or threw can be described.
  lemma {:induction false} StatusIsTrue(p: P.Prog, moves: seq<P.Move>, i: nat, k: nat, naming: Naming,
        clock: nat -> real)
    requires Names(naming) && P.AllContained(moves)
    requires var c := P.Exec(p, moves);
             && i < |c.disk| && c.disk[i].StepStarted? && k < |c.ends| && c.ends[k].id == c.disk[i].stepId
             && Q.LastEnd(c.disk, c.disk[i].stepId).Some?
    ensures var c := P.Exec(p, moves);
            var id, t := c.disk[i].stepId, Load(StoredEvents(c, c.disk[i].runId, naming, clock));
            && naming(id) in t.nodes
            && (t.nodes[naming(id)].status == Status(c.ends[k].outcome.Threw?)
                <==> E.Describable(c.ends[k].tracer, c.ends[k].outcome))
  {
    var c := P.Exec(p, moves);
    StatusIsShown(p, moves, i, naming, clock);
    Q.DiskIsPart(p, moves);
    E.ExecTells(p, moves);
    E.ExecEnds(p, moves, c.ends[k].id);
    hide P.Exec, Load, L.FileOf;
    TrueEnd(c, k);
  }

  lemma {:induction false} TrueEnd(c: P.Config, k: nat)
    requires F.Subsequence(c.disk, c.attempted) && E.AllTell(c) && k < |c.ends| && E.EndsAccounted(c, c.ends[k].id)
    requires Q.LastEnd(c.disk, c.ends[k].id).Some?
    ensures Q.LastEnd(c.disk, c.ends[k].id) == Some(c.ends[k].outcome.Threw?)
            <==> E.Describable(c.ends[k].tracer, c.ends[k].outcome)
  {
    var end := c.ends[k];
    Q.PartRows(c.disk, c.attempted, 0);
    var n := Q.LastEndAt(c.disk, end.id);
    var r := c.disk[n];
    assert r in c.disk;
    var j :| 0 <= j < |c.attempted| && c.attempted[j] == r;
    assert E.RowTells(c.ends, c.attempted[j]);
    var result :| E.TellsOf(c.ends, end.id, result) && r.failed == result.Threw?;
    E.OnlyEnd(c, k);
    E.ToldExactly(end.tracer, end.outcome);
  }
}
