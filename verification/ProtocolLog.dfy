// Reading the rows a process attempted to write.
module ProtocolLog {
  import opened Wrappers
  import opened Counting
  import opened ParentGraph
  import opened Protocol

  ghost predicate HasRun(log: seq<Row>, runId: nat, name: string) {
    RunStarted(runId, name) in log
  }

  ghost predicate HasStep(log: seq<Row>, runId: nat, stepId: nat) {
    exists i :: 0 <= i < |log| && log[i].StepStarted? && log[i].stepId == stepId && log[i].runId == runId
  }

  // Names of a step and its ancestors, outermost first, as the rows tell them.
  function PathOf(log: seq<Row>, id: nat): seq<string> {
    if log == [] then []
    else
      var front, r := log[..|log| - 1], log[|log| - 1];
      if r.StepStarted? && r.stepId == id then
        (if r.parentId.Some? then PathOf(front, r.parentId.value) else []) + [r.name]
      else PathOf(front, id)
  }

  // The id a row opens or closes.
  function OpenedId(r: Row): Option<nat> {
    match r
    case StepStarted(_, id, _, _) => Some(id)
    case RunStarted(id, _) => Some(id)
    case _ => None
  }

  function ClosedId(r: Row): Option<nat> {
    match r
    case StepCompleted(_, id, _) => Some(id)
    case RunCompleted(id, _) => Some(id)
    case _ => None
  }

  // A completion row of the id says whether it failed.
  ghost predicate HasEnd(log: seq<Row>, id: nat, failed: bool) {
    exists i :: 0 <= i < |log| && ClosedId(log[i]) == Some(id) && log[i].failed == failed
  }

  // How many rows open, or close, an id.
  function Opens(log: seq<Row>, x: nat): nat {
    if log == [] then 0 else Opens(log[..|log| - 1], x) + EqSome(OpenedId(log[|log| - 1]), x)
  }

  function Closes(log: seq<Row>, x: nat): nat {
    if log == [] then 0 else Closes(log[..|log| - 1], x) + EqSome(ClosedId(log[|log| - 1]), x)
  }

  // A row may follow the log: it opens an id never opened before, inside a run and under a parent step that are there.
  ghost predicate Follows(log: seq<Row>, r: Row) {
    && (OpenedId(r).Some? ==> Opens(log, OpenedId(r).value) == 0)
    && (r.StepStarted? ==>
          && (exists name :: HasRun(log, r.runId, name))
          && (r.parentId.Some? ==> HasStep(log, r.runId, r.parentId.value)))
    && (r.StepCompleted? ==> HasStep(log, r.runId, r.stepId))
    && (r.RunCompleted? ==> exists name :: HasRun(log, r.runId, name))
  }

  ghost predicate WellFormed(log: seq<Row>) {
    log == [] || (WellFormed(log[..|log| - 1]) && Follows(log[..|log| - 1], log[|log| - 1]))
  }

  lemma {:induction false} OpenedIn(log: seq<Row>, i: nat)
    requires i < |log| && OpenedId(log[i]).Some?
    ensures Opens(log, OpenedId(log[i]).value) > 0
  {
    if i < |log| - 1 {
      OpenedIn(log[..|log| - 1], i);
    }
  }

  lemma {:induction false} OpenedOnce(log: seq<Row>, i: nat, j: nat)
    requires WellFormed(log) && i < |log| && j < |log|
    requires OpenedId(log[i]).Some? && OpenedId(log[i]) == OpenedId(log[j])
    ensures i == j
  {
    var front := log[..|log| - 1];
    if i < |front| && j < |front| {
      OpenedOnce(front, i, j);
    } else if i < |front| {
      OpenedIn(front, i);
    } else if j < |front| {
      OpenedIn(front, j);
    }
  }

  lemma {:induction false} OpensAtMostOnce(log: seq<Row>, x: nat)
    requires WellFormed(log)
    ensures Opens(log, x) <= 1
  {
    if log != [] {
      OpensAtMostOnce(log[..|log| - 1], x);
    }
  }

  lemma {:induction false} HasStepGrows(log: seq<Row>, more: seq<Row>, runId: nat, stepId: nat)
    requires HasStep(log, runId, stepId)
    ensures HasStep(log + more, runId, stepId)
  {
    var i :| 0 <= i < |log| && log[i].StepStarted? && log[i].stepId == stepId && log[i].runId == runId;
    assert (log + more)[i] == log[i];
  }

  lemma {:induction false} PathSnoc(log: seq<Row>, r: Row, id: nat)
    ensures r.StepStarted? && r.stepId == id ==>
              PathOf(log + [r], id) == (if r.parentId.Some? then PathOf(log, r.parentId.value) else []) + [r.name]
    ensures !(r.StepStarted? && r.stepId == id) ==> PathOf(log + [r], id) == PathOf(log, id)
  {
    assert (log + [r])[..|log|] == log;
  }

  // The path of a recorded step never changes as the log grows.
  lemma {:induction false} PathStable(log: seq<Row>, r: Row, runId: nat, id: nat)
    requires Follows(log, r) && HasStep(log, runId, id)
    ensures PathOf(log + [r], id) == PathOf(log, id)
  {
    PathSnoc(log, r, id);
    var i :| 0 <= i < |log| && log[i].StepStarted? && log[i].stepId == id && log[i].runId == runId;
    OpenedIn(log, i);
  }

  lemma {:induction false} WellFormedSnoc(log: seq<Row>, r: Row)
    requires WellFormed(log) && Follows(log, r)
    ensures WellFormed(log + [r])
  {
    assert (log + [r])[..|log|] == log;
  }

  // A recorded step's path is its parent's path with its own name at the end.
  lemma {:induction false} PathLaw(log: seq<Row>, i: nat)
    requires WellFormed(log) && i < |log| && log[i].StepStarted?
    ensures PathOf(log, log[i].stepId)
         == (if log[i].parentId.Some? then PathOf(log, log[i].parentId.value) else []) + [log[i].name]
    ensures log[i].parentId.Some? ==> HasStep(log, log[i].runId, log[i].parentId.value)
  {
    var front, r, s := log[..|log| - 1], log[|log| - 1], log[i];
    assert log == front + [r];
    if i < |front| {
      PathLaw(front, i);
      assert HasStep(front, s.runId, s.stepId) by {
        assert front[i] == s;
      }
      PathStable(front, r, s.runId, s.stepId);
      if s.parentId.Some? {
        PathStable(front, r, s.runId, s.parentId.value);
        HasStepGrows(front, [r], s.runId, s.parentId.value);
      }
    } else {
      PathSnoc(front, r, s.stepId);
      if s.parentId.Some? {
        PathStable(front, r, s.runId, s.parentId.value);
        HasStepGrows(front, [r], s.runId, s.parentId.value);
      }
    }
  }

  // ---- The graph a reader builds from one run's rows ----

  function FileOf(log: seq<Row>, runId: nat): seq<Row> {
    if log == [] then []
    else if log[|log| - 1].runId == runId then FileOf(log[..|log| - 1], runId) + [log[|log| - 1]]
    else FileOf(log[..|log| - 1], runId)
  }

  function Links(file: seq<Row>): Graph<nat> {
    if file == [] then map[]
    else
      var front, r := file[..|file| - 1], file[|file| - 1];
      if r.StepStarted? then Links(front)[r.stepId := r.parentId] else Links(front)
  }

  lemma {:induction false} FileLinks(log: seq<Row>, runId: nat, i: nat)
    requires WellFormed(log) && i < |log| && log[i].StepStarted? && log[i].runId == runId
    ensures log[i].stepId in Links(FileOf(log, runId))
    ensures Links(FileOf(log, runId))[log[i].stepId] == log[i].parentId
  {
    var front, r := log[..|log| - 1], log[|log| - 1];
    if r.runId == runId {
      assert (FileOf(front, runId) + [r])[..|FileOf(front, runId)|] == FileOf(front, runId);
    }
    if i < |front| {
      FileLinks(front, runId, i);
      if r.StepStarted? && r.stepId == log[i].stepId {
        OpenedOnce(log, i, |front|);
      }
    }
  }

  // The chain of parents of a recorded step ends at a step without parent, after as many links as
  // its path has names but one.
  lemma {:induction false} ChainEnds(log: seq<Row>, runId: nat, id: nat)
    requires WellFormed(log) && HasStep(log, runId, id)
    ensures |PathOf(log, id)| > 0
    ensures RootedAt(Links(FileOf(log, runId)), id, |PathOf(log, id)| - 1)
    decreases |PathOf(log, id)|
  {
    var g := Links(FileOf(log, runId));
    var i :| 0 <= i < |log| && log[i].StepStarted? && log[i].stepId == id && log[i].runId == runId;
    PathLaw(log, i);
    FileLinks(log, runId, i);
    if log[i].parentId.Some? {
      var p := log[i].parentId.value;
      ChainEnds(log, runId, p);
      var j :| 0 <= j < |log| && log[j].StepStarted? && log[j].stepId == p && log[j].runId == runId;
      FileLinks(log, runId, j);
      assert Up(g, id) == Some(p);
    } else {
      assert Ancestor(g, id, 0) == Some(id);
    }
  }

  // The depth a reader rebuilds from the run's rows is the length of the path minus one.
  lemma {:induction false} RebuiltDepth(log: seq<Row>, runId: nat, id: nat)
    requires WellFormed(log) && HasStep(log, runId, id)
    ensures id in Links(FileOf(log, runId))
    ensures Depth(Links(FileOf(log, runId)), id) == |PathOf(log, id)| - 1
  {
    ChainEnds(log, runId, id);
    var i :| 0 <= i < |log| && log[i].StepStarted? && log[i].stepId == id && log[i].runId == runId;
    FileLinks(log, runId, i);
    RootedHeight(Links(FileOf(log, runId)), id, |PathOf(log, id)| - 1);
  }
}
