// The rows that were stored, when some writes failed: a part of those handed to the writers, and the part of the parent
// links that a reader finds in it.
module StoredRows {
  import opened Wrappers
  import opened ParentGraph
  import opened Protocol
  import opened ProtocolLog
  import opened ProtocolSafety
  import opened ProtocolFailures

  lemma {:induction false} DiskIsPart(p: Prog, moves: seq<Move>)
    ensures Subsequence(Exec(p, moves).disk, Exec(p, moves).attempted)
  {
    if moves != [] {
      var c, m := Exec(p, moves[..|moves| - 1]), moves[|moves| - 1];
      DiskIsPart(p, moves[..|moves| - 1]);
      NextPart(c, m);
    }
  }

  lemma {:induction false} NextPart(c: Config, m: Move)
    requires Subsequence(c.disk, c.attempted)
    ensures Subsequence(Next(c, m).disk, Next(c, m).attempted)
  {
    hide Enabled, Subsequence;
    if Enabled(c, m).Some? {
      SubsequenceGrows(c.disk, c.attempted, Enabled(c, m).value.row, m.io.Done?);
    }
  }

  lemma {:induction false} PartRows(disk: seq<Row>, log: seq<Row>, x: nat)
    requires Subsequence(disk, log)
    ensures forall r :: r in disk ==> r in log
    ensures Opens(disk, x) <= Opens(log, x)
    decreases |log|
  {
    if disk != [] {
      if disk[|disk| - 1] == log[|log| - 1] {
        PartRows(disk[..|disk| - 1], log[..|log| - 1], x);
        assert disk == disk[..|disk| - 1] + [disk[|disk| - 1]];
      } else {
        PartRows(disk, log[..|log| - 1], x);
      }
    }
  }

  lemma {:induction false} OpenedTwice(log: seq<Row>, i: nat, j: nat)
    requires i < j < |log| && OpenedId(log[i]).Some? && OpenedId(log[i]) == OpenedId(log[j])
    ensures Opens(log, OpenedId(log[i]).value) >= 2
  {
    if j < |log| - 1 {
      OpenedTwice(log[..|log| - 1], i, j);
    } else {
      OpenedIn(log[..|log| - 1], i);
    }
  }

  // The links a reader finds are those of the start rows of the run.
  lemma {:induction false} LinkOfRow(log: seq<Row>, runId: nat, i: nat)
    requires (forall x: nat :: Opens(log, x) <= 1) && i < |log| && log[i].StepStarted? && log[i].runId == runId
    ensures log[i].stepId in Links(FileOf(log, runId)) && Links(FileOf(log, runId))[log[i].stepId] == log[i].parentId
  {
    var front, r := log[..|log| - 1], log[|log| - 1];
    if r.runId == runId {
      assert (FileOf(front, runId) + [r])[..|FileOf(front, runId)|] == FileOf(front, runId);
    }
    if i < |front| {
      assert forall x: nat :: Opens(front, x) <= Opens(log, x);
      LinkOfRow(front, runId, i);
      if r.StepStarted? && r.stepId == log[i].stepId {
        OpenedTwice(log, i, |front|);
      }
    }
  }

  lemma {:induction false} LinkHasRow(log: seq<Row>, runId: nat, id: nat)
    ensures id in Links(FileOf(log, runId)) <==> HasStep(log, runId, id)
  {
    if log != [] {
      var front, r := log[..|log| - 1], log[|log| - 1];
      LinkHasRow(front, runId, id);
      if r.runId == runId {
        assert (FileOf(front, runId) + [r])[..|FileOf(front, runId)|] == FileOf(front, runId);
      }
      if HasStep(front, runId, id) {
        HasStepGrows(front, [r], runId, id);
        assert log == front + [r];
      }
      if HasStep(log, runId, id) {
        var i :| 0 <= i < |log| && log[i].StepStarted? && log[i].stepId == id && log[i].runId == runId;
        assert i < |front| ==> front[i] == log[i];
      }
    }
  }

  ghost predicate PartOf(part: Graph<nat>, full: Graph<nat>) {
    forall id :: id in part ==> id in full && part[id] == full[id]
  }

  lemma {:induction false} PartLinks(disk: seq<Row>, log: seq<Row>, runId: nat)
    requires WellFormed(log) && Subsequence(disk, log)
    ensures PartOf(Links(FileOf(disk, runId)), Links(FileOf(log, runId)))
  {
    forall x: nat
      ensures Opens(disk, x) <= 1
    {
      PartRows(disk, log, x);
      OpensAtMostOnce(log, x);
    }
    PartRows(disk, log, 0);
    forall id | id in Links(FileOf(disk, runId))
      ensures id in Links(FileOf(log, runId)) && Links(FileOf(disk, runId))[id] == Links(FileOf(log, runId))[id]
    {
      LinkHasRow(disk, runId, id);
      var i :| 0 <= i < |disk| && disk[i].StepStarted? && disk[i].stepId == id && disk[i].runId == runId;
      LinkOfRow(disk, runId, i);
      assert disk[i] in log;
      var j :| 0 <= j < |log| && log[j] == disk[i];
      FileLinks(log, runId, j);
    }
  }

  // The k-th ancestor is there and was stored.
  ghost predicate StoredAt(full: Graph<nat>, part: Graph<nat>, id: nat, k: nat) {
    Ancestor(full, id, k).Some? && Ancestor(full, id, k).value in part
  }

  // d consecutive ancestors of the step were stored with it, and the next one, if there is one, was not.
  ghost predicate StoredAncestors(full: Graph<nat>, part: Graph<nat>, id: nat, height: nat, d: nat) {
    && d <= height
    && (forall k: nat :: k <= d ==> StoredAt(full, part, id, k))
    && (d < height ==> Ancestor(full, id, d + 1).Some? && Ancestor(full, id, d + 1).value !in part)
  }

  lemma {:induction false} PartRooted(full: Graph<nat>, part: Graph<nat>, id: nat, height: nat) returns (d: nat)
    requires PartOf(part, full) && id in part && RootedAt(full, id, height)
    ensures RootedAt(part, id, d) && StoredAncestors(full, part, id, height, d)
    decreases height
  {
    assert Ancestor(full, id, 0) == Some(id);
    if height == 0 || part[id].value !in part {
      d := 0;
      assert height > 0 ==> Ancestor(full, id, 1) == Some(part[id].value) by {
        assert height > 0 ==> Ancestor(full, id, 1) == Ancestor(full, Up(full, id).value, 0);
      }
      assert Ancestor(part, id, 0) == Some(id);
    } else {
      var p := part[id].value;
      assert Up(full, id) == Some(p) == Up(part, id);
      assert RootedAt(full, p, height - 1);
      d := PartRooted(full, part, p, height - 1);
      forall k: nat | k <= d + 1
        ensures StoredAt(full, part, id, k)
      {
        assert k > 0 ==> Ancestor(full, id, k) == Ancestor(full, p, k - 1) && StoredAt(full, part, p, k - 1);
      }
      assert Ancestor(full, id, d + 2) == Ancestor(full, p, d + 1);
      d := d + 1;
    }
  }

  // All ancestors were stored exactly if the depth found is the whole height.
  lemma {:induction false} WholeHeightExactly(full: Graph<nat>, part: Graph<nat>, id: nat, height: nat, d: nat)
    requires StoredAncestors(full, part, id, height, d)
    ensures d == height <==> forall k: nat :: k <= height ==> StoredAt(full, part, id, k)
  {
    if d < height {
      var k: nat := d + 1;
      assert k <= height && !StoredAt(full, part, id, k);
    }
  }

  // ---- What the stored rows say of the end of a step ----

  function LastEnd(log: seq<Row>, id: nat): Option<bool> {
    if log == [] then None
    else
      var r := log[|log| - 1];
      if r.StepCompleted? && r.stepId == id then Some(r.failed) else LastEnd(log[..|log| - 1], id)
  }

  lemma {:induction false} LastEndAt(log: seq<Row>, id: nat) returns (k: nat)
    ensures LastEnd(log, id).None? ==> forall j :: 0 <= j < |log| && log[j].StepCompleted? ==> log[j].stepId != id
    ensures LastEnd(log, id).Some? ==>
              && k < |log| && log[k].StepCompleted? && log[k].stepId == id && LastEnd(log, id) == Some(log[k].failed)
              && forall j :: k < j < |log| && log[j].StepCompleted? ==> log[j].stepId != id
  {
    k := 0;
    if log != [] {
      var r := log[|log| - 1];
      if r.StepCompleted? && r.stepId == id {
        k := |log| - 1;
      } else {
        k := LastEndAt(log[..|log| - 1], id);
      }
    }
  }

  lemma {:induction false} LastEndOfFile(log: seq<Row>, runId: nat, id: nat)
    requires forall r :: r in log && r.StepCompleted? && r.stepId == id ==> r.runId == runId
    ensures LastEnd(FileOf(log, runId), id) == LastEnd(log, id)
  {
    if log != [] {
      var front, r := log[..|log| - 1], log[|log| - 1];
      assert r in log && forall q :: q in front ==> q in log;
      LastEndOfFile(front, runId, id);
      if r.runId == runId {
        assert (FileOf(front, runId) + [r])[..|FileOf(front, runId)|] == FileOf(front, runId);
      }
    }
  }
}
