// The call trees of a program and the trees its rows rebuild, and that they are the same.
module Forests {
  import opened Wrappers
  import opened Counting
  import opened Protocol
  import opened ProtocolLog
  import opened ProtocolSafety
  import opened ProtocolFailures
  import opened CallTree
  import opened Transparency
  import opened CallTreeRuns

  // A run or a step with the steps called in it. Siblings are a multiset: their order does not matter, and
  // how many look alike does.
  datatype Tree = Tree(name: string, isRun: bool, children: multiset<Tree>)

  // ---- The forest of a derivation ----

  // The trees of the steps that belong to the place where the tracer is when the program begins.
  function StepsAt(p: Prog, on: set<Tracer>, d: Deriv, tracer: Tracer): multiset<Tree>
    decreases d
  {
    match p
    case Settle(_) => multiset{}
    case Bind(first, k) =>
      if d.Then? then StepsAt(first, on, d.first, tracer) + StepsAt(k(d.mid), on, d.rest, tracer) else multiset{}
    case Step(caller, name, body) =>
      if !d.Inside? then multiset{}
      else if caller == tracer && tracer in on then multiset{Tree(name, false, StepsAt(body, on, d.sub, tracer))}
      else StepsAt(body, on, d.sub, tracer)
    case Run(caller, _, enabled, body) =>
      if !d.Inside? then multiset{}
      else if !enabled then StepsAt(body, on, d.sub, tracer)
      else if caller == tracer then multiset{}
      else StepsAt(body, on + {caller}, d.sub, tracer)
    case All(ps) => if d.Fork? && |d.branches| == |ps| then StepsAtAll(ps, on, d.branches, tracer) else multiset{}
  }

  function StepsAtAll(ps: seq<Prog>, on: set<Tracer>, ds: seq<Deriv>, tracer: Tracer): multiset<Tree>
    requires |ps| == |ds|
    decreases ds
  {
    if ps == [] then multiset{} else StepsAt(ps[0], on, ds[0], tracer) + StepsAtAll(ps[1..], on, ds[1..], tracer)
  }

  // The trees of the runs.
  function RunsIn(p: Prog, on: set<Tracer>, d: Deriv): multiset<Tree>
    decreases d
  {
    match p
    case Settle(_) => multiset{}
    case Bind(first, k) => if d.Then? then RunsIn(first, on, d.first) + RunsIn(k(d.mid), on, d.rest) else multiset{}
    case Step(_, _, body) => if d.Inside? then RunsIn(body, on, d.sub) else multiset{}
    case Run(tracer, name, enabled, body) =>
      if !d.Inside? then multiset{}
      else if !enabled then RunsIn(body, on, d.sub)
      else multiset{Tree(name, true, StepsAt(body, on + {tracer}, d.sub, tracer))} + RunsIn(body, on + {tracer}, d.sub)
    case All(ps) => if d.Fork? && |d.branches| == |ps| then RunsInAll(ps, on, d.branches) else multiset{}
  }

  function RunsInAll(ps: seq<Prog>, on: set<Tracer>, ds: seq<Deriv>): multiset<Tree>
    requires |ps| == |ds|
    decreases ds
  {
    if ps == [] then multiset{} else RunsIn(ps[0], on, ds[0]) + RunsInAll(ps[1..], on, ds[1..])
  }

  // ---- The forest rebuilt from rows ----

  // The row starts a step right at this place of its run.
  predicate ChildRow(r: Row, at: Place) {
    r.StepStarted? && r.runId == at.runId && r.parentId == at.stepId
  }

  function PlaceOf(r: Row): Place
    requires IsStart(r)
  {
    if r.StepStarted? then Place(r.runId, Some(r.stepId)) else Place(r.runId, None)
  }

  // The trees below a place, by the parent links in the rows.
  function Below(rows: seq<Row>, at: Place): multiset<Tree>
    decreases |rows|
  {
    if rows == [] then multiset{}
    else
      (if ChildRow(rows[0], at) then multiset{Tree(rows[0].name, false, Below(rows[1..], PlaceOf(rows[0])))}
       else multiset{})
      + Below(rows[1..], at)
  }

  function Rebuilt(rows: seq<Row>): multiset<Tree>
    decreases |rows|
  {
    if rows == [] then multiset{}
    else
      (if rows[0].RunStarted? then multiset{Tree(rows[0].name, true, Below(rows[1..], PlaceOf(rows[0])))}
       else multiset{})
      + Rebuilt(rows[1..])
  }

  // ---- Reading the whole log below each row ----

  // The tree of a row, by all rows of the log.
  function TreeOf(log: seq<Row>, r: Row): Tree
    requires IsStart(r)
  {
    Tree(r.name, r.RunStarted?, Below(log, PlaceOf(r)))
  }

  function SumBelow(log: seq<Row>, rows: seq<Row>, at: Place): multiset<Tree> {
    if rows == [] then multiset{}
    else SumBelow(log, rows[..|rows| - 1], at)
         + (if ChildRow(rows[|rows| - 1], at) then multiset{TreeOf(log, rows[|rows| - 1])} else multiset{})
  }

  function SumRuns(log: seq<Row>, rows: seq<Row>): multiset<Tree> {
    if rows == [] then multiset{}
    else SumRuns(log, rows[..|rows| - 1])
         + (if rows[|rows| - 1].RunStarted? then multiset{TreeOf(log, rows[|rows| - 1])} else multiset{})
  }

  lemma {:induction false} SumConcat(log: seq<Row>, a: seq<Row>, b: seq<Row>, at: Place)
    ensures SumBelow(log, a + b, at) == SumBelow(log, a, at) + SumBelow(log, b, at)
    ensures SumRuns(log, a + b) == SumRuns(log, a) + SumRuns(log, b)
    decreases |b|
  {
    if b == [] {
      assert a + b == a;
    } else {
      assert (a + b)[..|a + b| - 1] == a + b[..|b| - 1];
      SumConcat(log, a, b[..|b| - 1], at);
    }
  }

  lemma {:induction false} SumOne(log: seq<Row>, r: Row, at: Place)
    ensures SumBelow(log, [r], at) == if ChildRow(r, at) then multiset{TreeOf(log, r)} else multiset{}
    ensures SumRuns(log, [r]) == if r.RunStarted? then multiset{TreeOf(log, r)} else multiset{}
  {
    assert [r][..0] == [];
  }

  // In a log no row is a child of a later row.
  ghost predicate Ordered(rows: seq<Row>) {
    forall i, j :: 0 <= i <= j < |rows| && IsStart(rows[j]) ==> !ChildRow(rows[i], PlaceOf(rows[j]))
  }

  lemma {:induction false} LogOrdered(log: seq<Row>)
    requires WellFormed(log)
    ensures Ordered(log)
  {
    forall i, j | 0 <= i <= j < |log| && IsStart(log[j])
      ensures !ChildRow(log[i], PlaceOf(log[j]))
    {
      if ChildRow(log[i], PlaceOf(log[j])) {
        var k := ParentBefore(log, i, PlaceOf(log[j]));
        OpenedOnce(log, k, j);
      }
    }
  }

  // The row of the place a step is at stands before it.
  lemma {:induction false} ParentBefore(log: seq<Row>, i: nat, at: Place) returns (k: nat)
    requires WellFormed(log) && i < |log| && ChildRow(log[i], at)
    ensures k < i && IsStart(log[k]) && PlaceOf(log[k]) == at
  {
    var front, r := log[..|log| - 1], log[|log| - 1];
    if i < |front| {
      k := ParentBefore(front, i, at);
    } else if at.stepId.Some? {
      assert HasStep(front, at.runId, at.stepId.value);
      k :|
        0 <= k < |front| && front[k].StepStarted? && front[k].stepId == at.stepId.value && front[k].runId == at.runId;
    } else {
      var name :| HasRun(front, at.runId, name);
      k :| 0 <= k < |front| && front[k] == RunStarted(at.runId, name);
    }
  }

  lemma {:induction false} BelowSkips(rows: seq<Row>, n: nat, at: Place)
    requires n <= |rows| && forall i :: 0 <= i < n ==> !ChildRow(rows[i], at)
    ensures Below(rows[n..], at) == Below(rows, at)
  {
    if n > 0 {
      BelowSkips(rows[1..], n - 1, at);
      assert rows[1..][n - 1..] == rows[n..];
    } else {
      assert rows[0..] == rows;
    }
  }

  // In a log the trees below a place are those of its child rows, each read in the whole log.
  lemma {:induction false} BelowIsSum(log: seq<Row>, n: nat, at: Place)
    requires Ordered(log) && n <= |log|
    ensures Below(log[n..], at) == SumBelow(log, log[n..], at)
    ensures Rebuilt(log[n..]) == SumRuns(log, log[n..])
    decreases |log| - n
  {
    if n < |log| {
      var r := log[n];
      BelowIsSum(log, n + 1, at);
      assert log[n..][1..] == log[n + 1..] && log[n..] == [r] + log[n + 1..];
      SumConcat(log, [r], log[n + 1..], at);
      SumOne(log, r, at);
      if IsStart(r) {
        BelowSkips(log, n + 1, PlaceOf(r));
      }
    }
  }

  // ---- The same start rows in another order ----

  lemma {:induction false} SumWithout(log: seq<Row>, rows: seq<Row>, k: nat, at: Place)
    requires k < |rows|
    ensures var rest := rows[..k] + rows[k + 1..];
            && SumBelow(log, rows, at) == SumBelow(log, rest, at) + SumBelow(log, [rows[k]], at)
            && SumRuns(log, rows) == SumRuns(log, rest) + SumRuns(log, [rows[k]])
  {
    hide SumBelow, SumRuns;
    SumConcat(log, rows[..k], rows[k + 1..], at);
    SumConcat(log, rows[..k], [rows[k]], at);
    SumConcat(log, rows[..k] + [rows[k]], rows[k + 1..], at);
    assert rows == rows[..k] + [rows[k]] + rows[k + 1..];
  }

  // How often a row occurs.
  lemma {:induction false} RecordedConcat(a: seq<Row>, b: seq<Row>, x: Row)
    ensures Recorded(a + b, x) == Recorded(a, x) + Recorded(b, x)
    decreases |b|
  {
    if b == [] {
      assert a + b == a;
    } else {
      assert (a + b)[..|a + b| - 1] == a + b[..|b| - 1];
      RecordedConcat(a, b[..|b| - 1], x);
    }
  }

  lemma {:induction false} RecordedWithout(rows: seq<Row>, k: nat, x: Row)
    requires k < |rows|
    ensures Recorded(rows, x) == Recorded(rows[..k] + rows[k + 1..], x) + Hit(rows[k], x)
  {
    RecordedConcat(rows[..k], rows[k + 1..], x);
    RecordedConcat(rows[..k], [rows[k]], x);
    RecordedConcat(rows[..k] + [rows[k]], rows[k + 1..], x);
    assert rows == rows[..k] + [rows[k]] + rows[k + 1..];
    assert [rows[k]][..0] == [];
  }

  lemma {:induction false} RecordedAt(rows: seq<Row>, x: Row) returns (k: nat)
    requires Recorded(rows, x) > 0
    ensures k < |rows| && rows[k] == x
  {
    if rows[|rows| - 1] == x {
      k := |rows| - 1;
    } else {
      k := RecordedAt(rows[..|rows| - 1], x);
    }
  }

  lemma {:induction false} SumPermuted(log: seq<Row>, a: seq<Row>, b: seq<Row>, at: Place)
    requires forall x :: IsStart(x) ==> Recorded(a, x) == Recorded(b, x)
    ensures SumBelow(log, a, at) == SumBelow(log, b, at) && SumRuns(log, a) == SumRuns(log, b)
    decreases |a| + |b|
  {
    if a != [] && !IsStart(a[|a| - 1]) {
      SumPermuted(log, a[..|a| - 1], b, at);
    } else if a != [] {
      var front, r := a[..|a| - 1], a[|a| - 1];
      assert Recorded(a, r) > 0;
      var k := RecordedAt(b, r);
      forall x | IsStart(x)
        ensures Recorded(front, x) == Recorded(b[..k] + b[k + 1..], x)
      {
        RecordedWithout(b, k, x);
      }
      SumPermuted(log, front, b[..k] + b[k + 1..], at);
      SumWithout(log, b, k, at);
      SumOne(log, r, at);
    } else if b != [] {
      var r := b[|b| - 1];
      assert IsStart(r) ==> Recorded(b, r) > 0 && Recorded(a, r) == 0;
      SumPermuted(log, a, b[..|b| - 1], at);
    }
  }

  // ---- The rows of a derivation ----

  function RowsOf(p: Prog, places: Places, d: Deriv): seq<Row>
    decreases d
  {
    match p
    case Settle(_) => []
    case Bind(first, k) => if d.Then? then RowsOf(first, places, d.first) + RowsOf(k(d.mid), places, d.rest) else []
    case Step(tracer, name, body) =>
      if !d.Inside? then []
      else if tracer !in places then RowsOf(body, places, d.sub)
      else
        [StepStarted(places[tracer].runId, d.id, places[tracer].stepId, name)]
        + RowsOf(body, InStep(places, tracer, d.id), d.sub)
    case Run(tracer, name, enabled, body) =>
      if !d.Inside? then []
      else if !enabled then RowsOf(body, places, d.sub)
      else [RunStarted(d.id, name)] + RowsOf(body, InRun(places, tracer, d.id), d.sub)
    case All(ps) => if d.Fork? && |d.branches| == |ps| then RowsOfAll(ps, places, d.branches) else []
  }

  function RowsOfAll(ps: seq<Prog>, places: Places, ds: seq<Deriv>): seq<Row>
    requires |ps| == |ds|
    decreases ds
  {
    if ps == [] then [] else RowsOf(ps[0], places, ds[0]) + RowsOfAll(ps[1..], places, ds[1..])
  }

  lemma {:induction false} RecordedOne(r: Row, x: Row)
    ensures Recorded([r], x) == Hit(r, x)
  {
    assert [r][..0] == [];
  }

  lemma {:induction false} RowsCounted(p: Prog, places: Places, d: Deriv, x: Row)
    ensures Recorded(RowsOf(p, places, d), x) == Calls(p, places, d, x)
    decreases d
  {
    match p
    case Settle(_) =>
    case Bind(first, k) =>
      if d.Then? {
        RowsCounted(first, places, d.first, x);
        RowsCounted(k(d.mid), places, d.rest, x);
        RecordedConcat(RowsOf(first, places, d.first), RowsOf(k(d.mid), places, d.rest), x);
      }
    case Step(tracer, name, body) =>
      if d.Inside? && tracer in places {
        var r := StepStarted(places[tracer].runId, d.id, places[tracer].stepId, name);
        RowsCounted(body, InStep(places, tracer, d.id), d.sub, x);
        RecordedConcat([r], RowsOf(body, InStep(places, tracer, d.id), d.sub), x);
        RecordedOne(r, x);
      } else if d.Inside? {
        RowsCounted(body, places, d.sub, x);
      }
    case Run(tracer, name, enabled, body) =>
      if d.Inside? && enabled {
        RowsCounted(body, InRun(places, tracer, d.id), d.sub, x);
        RecordedConcat([RunStarted(d.id, name)], RowsOf(body, InRun(places, tracer, d.id), d.sub), x);
        RecordedOne(RunStarted(d.id, name), x);
      } else if d.Inside? {
        RowsCounted(body, places, d.sub, x);
      }
    case All(ps) =>
      if d.Fork? && |d.branches| == |ps| {
        RowsAllCounted(ps, places, d.branches, x);
      }
  }

  lemma {:induction false} RowsAllCounted(ps: seq<Prog>, places: Places, ds: seq<Deriv>, x: Row)
    requires |ps| == |ds|
    ensures Recorded(RowsOfAll(ps, places, ds), x) == CallsAll(ps, places, ds, x)
    decreases ds
  {
    if ps != [] {
      RowsCounted(ps[0], places, ds[0], x);
      RowsAllCounted(ps[1..], places, ds[1..], x);
      RecordedConcat(RowsOf(ps[0], places, ds[0]), RowsOfAll(ps[1..], places, ds[1..]), x);
    }
  }

  // ---- Trees read below the rows of a derivation ----

  // The id of the run or step whose place it is.
  function IdOfPlace(at: Place): nat {
    if at.stepId.Some? then at.stepId.value else at.runId
  }

  predicate Mentions(at: Place, x: nat) {
    at.runId == x || at.stepId == Some(x)
  }

  lemma {:induction false} OpensConcat(a: seq<Row>, b: seq<Row>, x: nat)
    ensures Opens(a + b, x) == Opens(a, x) + Opens(b, x)
    decreases |b|
  {
    if b == [] {
      assert a + b == a;
    } else {
      assert (a + b)[..|a + b| - 1] == a + b[..|b| - 1];
      OpensConcat(a, b[..|b| - 1], x);
    }
  }

  lemma {:induction false} OpensOne(r: Row, x: nat)
    ensures Opens([r], x) == EqSome(OpenedId(r), x)
  {
    assert [r][..0] == [];
  }

  lemma {:induction false} OpensIn(rows: seq<Row>, r: Row)
    requires r in rows && IsStart(r)
    ensures Opens(rows, IdOfPlace(PlaceOf(r))) > 0
  {
    var i :| 0 <= i < |rows| && rows[i] == r;
    OpenedIn(rows, i);
  }

  ghost predicate Elsewhere(places: Places, at: Place) {
    forall tracer :: tracer in places ==> places[tracer] != at
  }

  lemma {:induction false} ElsewhereInside(places: Places, tracer: Tracer, r: Row, at: Place)
    requires IsStart(r) && (r.StepStarted? ==> tracer in places && places[tracer] == Place(r.runId, r.parentId))
    requires Elsewhere(places, at) && OpenedId(r) != Some(IdOfPlace(at))
    ensures Elsewhere(places[tracer := PlaceOf(r)], at) && !ChildRow(r, at)
  {
  }

  // Rows with a place for parent that is not theirs to begin with are inside a row of theirs.
  ghost predicate Local(log: seq<Row>, places: Places, rows: seq<Row>) {
    forall at :: Elsewhere(places, at) && Opens(rows, IdOfPlace(at)) == 0 ==> SumBelow(log, rows, at) == multiset{}
  }

  lemma {:induction false} LocalConcat(log: seq<Row>, places: Places, a: seq<Row>, b: seq<Row>)
    requires Local(log, places, a) && Local(log, places, b)
    ensures Local(log, places, a + b)
  {
    forall at | Elsewhere(places, at) && Opens(a + b, IdOfPlace(at)) == 0
      ensures SumBelow(log, a + b, at) == multiset{}
    {
      OpensConcat(a, b, IdOfPlace(at));
      SumConcat(log, a, b, at);
    }
  }

  // One row in front of those of its body, read at the place of the row.
  lemma {:induction false} LocalCons(log: seq<Row>, places: Places, tracer: Tracer, r: Row, b: seq<Row>)
    requires IsStart(r) && (r.StepStarted? ==> tracer in places && places[tracer] == Place(r.runId, r.parentId))
    requires Local(log, places[tracer := PlaceOf(r)], b)
    ensures Local(log, places, [r] + b)
  {
    hide Opens, SumBelow, Elsewhere;
    forall at | Elsewhere(places, at) && Opens([r] + b, IdOfPlace(at)) == 0
      ensures SumBelow(log, [r] + b, at) == multiset{}
    {
      OpensConcat([r], b, IdOfPlace(at));
      OpensOne(r, IdOfPlace(at));
      SumConcat(log, [r], b, at);
      SumOne(log, r, at);
      ElsewhereInside(places, tracer, r, at);
    }
  }

  lemma {:induction false} RowsLocal(log: seq<Row>, p: Prog, places: Places, d: Deriv)
    ensures Local(log, places, RowsOf(p, places, d))
    decreases d
  {
    match p
    case Settle(_) =>
    case Bind(first, k) =>
      if d.Then? {
        RowsLocal(log, first, places, d.first);
        RowsLocal(log, k(d.mid), places, d.rest);
        LocalConcat(log, places, RowsOf(first, places, d.first), RowsOf(k(d.mid), places, d.rest));
      }
    case Step(tracer, name, body) =>
      if d.Inside? && tracer in places {
        var r := StepStarted(places[tracer].runId, d.id, places[tracer].stepId, name);
        RowsLocal(log, body, InStep(places, tracer, d.id), d.sub);
        LocalCons(log, places, tracer, r, RowsOf(body, InStep(places, tracer, d.id), d.sub));
      } else if d.Inside? {
        RowsLocal(log, body, places, d.sub);
      }
    case Run(tracer, name, enabled, body) =>
      if d.Inside? && enabled {
        RowsLocal(log, body, InRun(places, tracer, d.id), d.sub);
        LocalCons(log, places, tracer, RunStarted(d.id, name), RowsOf(body, InRun(places, tracer, d.id), d.sub));
      } else if d.Inside? {
        RowsLocal(log, body, places, d.sub);
      }
    case All(ps) =>
      if d.Fork? && |d.branches| == |ps| {
        RowsAllLocal(log, ps, places, d.branches);
      }
  }

  lemma {:induction false} RowsAllLocal(log: seq<Row>, ps: seq<Prog>, places: Places, ds: seq<Deriv>)
    requires |ps| == |ds|
    ensures Local(log, places, RowsOfAll(ps, places, ds))
    decreases ds
  {
    if ps != [] {
      RowsLocal(log, ps[0], places, ds[0]);
      RowsAllLocal(log, ps[1..], places, ds[1..]);
      LocalConcat(log, places, RowsOf(ps[0], places, ds[0]), RowsOfAll(ps[1..], places, ds[1..]));
    }
  }

  // The rows have ids of their own, the tracers are in runs of their own, and whatever the log holds below one
  // of the rows is among them.
  ghost predicate Apart(log: seq<Row>, places: Places, rows: seq<Row>) {
    && (forall x: nat :: Opens(rows, x) <= 1)
    && (forall tracer, x: nat :: tracer in places && Mentions(places[tracer], x) ==> Opens(rows, x) == 0)
    && (forall r :: r in rows ==> IsStart(r) && Whole(log, rows, PlaceOf(r)))
    && (forall t, u :: t in places && u in places && t != u ==> places[t].runId != places[u].runId)
  }

  ghost predicate Whole(log: seq<Row>, rows: seq<Row>, at: Place) {
    SumBelow(log, rows, at) == Below(log, at)
  }

  lemma {:induction false} ApartParts(log: seq<Row>, places: Places, a: seq<Row>, b: seq<Row>)
    requires Apart(log, places, a + b) && Local(log, places, a) && Local(log, places, b)
    ensures Apart(log, places, a) && Apart(log, places, b)
  {
    forall x: nat
      ensures Opens(a + b, x) == Opens(a, x) + Opens(b, x)
    {
      OpensConcat(a, b, x);
    }
    forall r | r in a
      ensures IsStart(r) && Whole(log, a, PlaceOf(r))
    {
      assert r in a + b;
      OpensIn(a, r);
      NotAPlace(log, places, a + b, r);
      SumConcat(log, a, b, PlaceOf(r));
    }
    forall r | r in b
      ensures IsStart(r) && Whole(log, b, PlaceOf(r))
    {
      assert r in a + b;
      OpensIn(b, r);
      NotAPlace(log, places, a + b, r);
      SumConcat(log, a, b, PlaceOf(r));
    }
  }

  // The place of a row is none of the places to begin with.
  lemma {:induction false} NotAPlace(log: seq<Row>, places: Places, rows: seq<Row>, r: Row)
    requires Apart(log, places, rows) && r in rows
    ensures IsStart(r) && forall tracer :: tracer in places ==> places[tracer] != PlaceOf(r)
  {
    OpensIn(rows, r);
    forall tracer | tracer in places
      ensures places[tracer] != PlaceOf(r)
    {
      assert Mentions(PlaceOf(r), IdOfPlace(PlaceOf(r)));
    }
  }

  lemma {:induction false} ApartBody(log: seq<Row>, places: Places, tracer: Tracer, r: Row, b: seq<Row>)
    requires IsStart(r) && (r.StepStarted? ==> tracer in places && places[tracer] == Place(r.runId, r.parentId))
    requires Apart(log, places, [r] + b)
    ensures Apart(log, places[tracer := PlaceOf(r)], b)
    ensures SumBelow(log, b, PlaceOf(r)) == Below(log, PlaceOf(r))
  {
    hide Opens, SumBelow, Below;
    var id := IdOfPlace(PlaceOf(r));
    forall x: nat
      ensures Opens([r] + b, x) == (if x == id then 1 else 0) + Opens(b, x)
    {
      OpensConcat([r], b, x);
      OpensOne(r, x);
    }
    forall q | q in b || q == r
      ensures IsStart(q) && Whole(log, b, PlaceOf(q))
    {
      assert q in [r] + b;
      NotAPlace(log, places, [r] + b, q);
      SumConcat(log, [r], b, PlaceOf(q));
      SumOne(log, r, PlaceOf(q));
    }
    assert Opens([r] + b, id) >= 1;
    forall t, u | t in places && u in places && t != u
      ensures places[t].runId != places[u].runId
    {
    }
    RunsApart(log, places, tracer, r, b);
  }

  lemma {:induction false} RunsApart(log: seq<Row>, places: Places, tracer: Tracer, r: Row, b: seq<Row>)
    requires IsStart(r) && (r.StepStarted? ==> tracer in places && places[tracer] == Place(r.runId, r.parentId))
    requires Apart(log, places, [r] + b)
    ensures var inside := places[tracer := PlaceOf(r)];
            && (forall t, u :: t in inside && u in inside && t != u ==> inside[t].runId != inside[u].runId)
            && (forall t, x: nat :: t in inside && Mentions(inside[t], x) ==> Opens(b, x) == 0)
  {
    var id, inside := IdOfPlace(PlaceOf(r)), places[tracer := PlaceOf(r)];
    forall x: nat
      ensures Opens([r] + b, x) == (if x == id then 1 else 0) + Opens(b, x)
    {
      OpensConcat([r], b, x);
      OpensOne(r, x);
    }
    assert Opens([r] + b, id) >= 1;
    hide Opens;
    forall t | t in places && r.RunStarted?
      ensures places[t].runId != r.runId
    {
      assert Mentions(places[t], places[t].runId);
      assert id == r.runId;
    }
    forall t, x: nat | t in inside && Mentions(inside[t], x)
      ensures Opens(b, x) == 0
    {
      if t == tracer && x != id {
        assert Mentions(places[tracer], x);
      }
    }
  }

  // What is below the place of the tracer itself before a step or run of it, and below the other places.
  lemma {:induction false} OuterPlaces(log: seq<Row>, places: Places, tracer: Tracer, r: Row, b: seq<Row>, t: Tracer)
    requires IsStart(r) && (r.StepStarted? ==> tracer in places && places[tracer] == Place(r.runId, r.parentId))
    requires Apart(log, places, [r] + b) && Local(log, places[tracer := PlaceOf(r)], b) && t in places
    ensures SumBelow(log, [r] + b, places[t]) ==
            if t != tracer then SumBelow(log, b, places[t])
            else if r.StepStarted? then multiset{TreeOf(log, r)}
            else multiset{}
  {
    hide Opens, SumBelow, Apart, Local;
    SumConcat(log, [r], b, places[t]);
    SumOne(log, r, places[t]);
    if t == tracer {
      OwnPlace(log, places, tracer, r, b);
    } else {
      OtherPlace(log, places, tracer, r, b, t);
    }
  }

  // No row of the body is right at the place before it.
  lemma {:induction false} OwnPlace(log: seq<Row>, places: Places, tracer: Tracer, r: Row, b: seq<Row>)
    requires IsStart(r) && (r.StepStarted? ==> tracer in places && places[tracer] == Place(r.runId, r.parentId))
    requires Apart(log, places, [r] + b) && Local(log, places[tracer := PlaceOf(r)], b) && tracer in places
    ensures SumBelow(log, b, places[tracer]) == multiset{} && (ChildRow(r, places[tracer]) <==> r.StepStarted?)
  {
    hide Opens, SumBelow;
    var at, inside := places[tracer], places[tracer := PlaceOf(r)];
    assert Mentions(at, IdOfPlace(at));
    OpensConcat([r], b, IdOfPlace(at));
    assert r in [r] + b;
    NotAPlace(log, places, [r] + b, r);
    forall other | other in inside
      ensures inside[other] != at
    {
      assert other != tracer ==> places[other].runId != at.runId;
    }
  }

  lemma {:induction false} OtherPlace(log: seq<Row>, places: Places, tracer: Tracer, r: Row, b: seq<Row>, t: Tracer)
    requires IsStart(r) && (r.StepStarted? ==> tracer in places && places[tracer] == Place(r.runId, r.parentId))
    requires Apart(log, places, [r] + b) && t in places && t != tracer
    ensures !ChildRow(r, places[t])
  {
  }

  // ---- The two readings agree ----

  ghost predicate SameTrees(log: seq<Row>, places: Places, rows: seq<Row>, p: Prog, d: Deriv) {
    && (forall t :: t in places ==> SumBelow(log, rows, places[t]) == StepsAt(p, places.Keys, d, t))
    && SumRuns(log, rows) == RunsIn(p, places.Keys, d)
  }

  lemma {:induction false} TreesOf(log: seq<Row>, p: Prog, places: Places, d: Deriv)
    requires Apart(log, places, RowsOf(p, places, d))
    ensures SameTrees(log, places, RowsOf(p, places, d), p, d)
    decreases d, 1
  {
    hide Apart, Local, SumBelow, SumRuns;
    match p
    case Settle(_) => NoRows(log, places, p, d);
    case Bind(first, k) =>
      if d.Then? {
        BindTrees(log, first, k, places, d);
      } else {
        NoRows(log, places, p, d);
      }
    case Step(tracer, name, body) =>
      if d.Inside? && tracer in places {
        StepTrees(log, p, places, d);
      } else if d.Inside? {
        TreesOf(log, body, places, d.sub);
      } else {
        NoRows(log, places, p, d);
      }
    case Run(tracer, name, enabled, body) =>
      if d.Inside? && enabled {
        RunTrees(log, p, places, d);
      } else if d.Inside? {
        TreesOf(log, body, places, d.sub);
      } else {
        NoRows(log, places, p, d);
      }
    case All(ps) =>
      if d.Fork? && |d.branches| == |ps| {
        TreesOfAll(log, ps, places, d.branches);
      } else {
        NoRows(log, places, p, d);
      }
  }

  lemma {:induction false} StepsAtStep(p: Prog, on: set<Tracer>, d: Deriv, t: Tracer)
    requires p.Step? && p.tracer in on && d.Inside?
    ensures StepsAt(p, on, d, t) ==
            if t == p.tracer then multiset{Tree(p.name, false, StepsAt(p.body, on, d.sub, t))}
            else StepsAt(p.body, on, d.sub, t)
  {
  }

  lemma {:induction false} StepTrees(log: seq<Row>, p: Prog, places: Places, d: Deriv)
    requires p.Step? && p.tracer in places && d.Inside? && Apart(log, places, RowsOf(p, places, d))
    ensures SameTrees(log, places, RowsOf(p, places, d), p, d)
    decreases d, 0
  {
    hide Apart, Local, SumBelow, SumRuns, TreeOf, StepsAt;
    var r := StepStarted(places[p.tracer].runId, d.id, places[p.tracer].stepId, p.name);
    BodyTrees(log, p.body, places, p.tracer, r, d.sub);
    assert places[p.tracer := PlaceOf(r)].Keys == places.Keys;
    hide RowsOf;
    forall t | t in places
      ensures SumBelow(log, RowsOf(p, places, d), places[t]) == StepsAt(p, places.Keys, d, t)
    {
      StepsAtStep(p, places.Keys, d, t);
    }
  }

  lemma {:induction false} RunTrees(log: seq<Row>, p: Prog, places: Places, d: Deriv)
    requires p.Run? && p.enabled && d.Inside? && Apart(log, places, RowsOf(p, places, d))
    ensures SameTrees(log, places, RowsOf(p, places, d), p, d)
    decreases d, 0
  {
    hide Apart, Local, SumBelow, SumRuns, TreeOf;
    BodyTrees(log, p.body, places, p.tracer, RunStarted(d.id, p.name), d.sub);
    assert InRun(places, p.tracer, d.id).Keys == places.Keys + {p.tracer};
  }

  lemma {:induction false} BindTrees(log: seq<Row>, first: Prog, k: Outcome -> Prog, places: Places, d: Deriv)
    requires d.Then? && Apart(log, places, RowsOf(Bind(first, k), places, d))
    ensures SameTrees(log, places, RowsOf(Bind(first, k), places, d), Bind(first, k), d)
    decreases d, 0
  {
    hide Apart, Local, SumBelow, SumRuns;
    var a, b := RowsOf(first, places, d.first), RowsOf(k(d.mid), places, d.rest);
    RowsLocal(log, first, places, d.first);
    RowsLocal(log, k(d.mid), places, d.rest);
    ApartParts(log, places, a, b);
    TreesOf(log, first, places, d.first);
    TreesOf(log, k(d.mid), places, d.rest);
    SumsConcat(log, places, a, b);
  }

  lemma {:induction false} NoRows(log: seq<Row>, places: Places, p: Prog, d: Deriv)
    requires p.Settle? || (p.Bind? && !d.Then?) || ((p.Step? || p.Run?) && !d.Inside?)
             || (p.All? && !(d.Fork? && |d.branches| == |p.branches|))
    ensures SameTrees(log, places, RowsOf(p, places, d), p, d)
  {
  }

  lemma {:induction false} SumsConcat(log: seq<Row>, places: Places, a: seq<Row>, b: seq<Row>)
    ensures SumRuns(log, a + b) == SumRuns(log, a) + SumRuns(log, b)
    ensures forall t :: t in places ==>
              SumBelow(log, a + b, places[t]) == SumBelow(log, a, places[t]) + SumBelow(log, b, places[t])
  {
    SumConcat(log, a, b, Place(0, None));
    forall t | t in places
      ensures SumBelow(log, a + b, places[t]) == SumBelow(log, a, places[t]) + SumBelow(log, b, places[t])
    {
      SumConcat(log, a, b, places[t]);
    }
  }

  // A run or step of a tracer: the row is the root of the trees of its body, and leaves the other places alone.
  lemma {:induction false} BodyTrees(log: seq<Row>, body: Prog, places: Places, tracer: Tracer, r: Row, d: Deriv)
    requires IsStart(r) && (r.StepStarted? ==> tracer in places && places[tracer] == Place(r.runId, r.parentId))
    requires Apart(log, places, [r] + RowsOf(body, places[tracer := PlaceOf(r)], d))
    ensures var inside, rows := places[tracer := PlaceOf(r)], [r] + RowsOf(body, places[tracer := PlaceOf(r)], d);
            && TreeOf(log, r) == Tree(r.name, r.RunStarted?, StepsAt(body, inside.Keys, d, tracer))
            && SumRuns(log, rows) == (if r.RunStarted? then multiset{TreeOf(log, r)} else multiset{})
                + RunsIn(body, inside.Keys, d)
            && forall t :: t in places ==>
                 SumBelow(log, rows, places[t]) ==
                 if t != tracer then StepsAt(body, inside.Keys, d, t)
                 else if r.StepStarted? then multiset{TreeOf(log, r)}
                 else multiset{}
    decreases d, 2
  {
    hide Apart, Local, SumBelow, SumRuns, RowsOf;
    var inside := places[tracer := PlaceOf(r)];
    var b := RowsOf(body, inside, d);
    RowsLocal(log, body, inside, d);
    ApartBody(log, places, tracer, r, b);
    TreesOf(log, body, inside, d);
    SumConcat(log, [r], b, PlaceOf(r));
    SumOne(log, r, PlaceOf(r));
    forall t | t in places
      ensures SumBelow(log, [r] + b, places[t]) ==
              if t != tracer then StepsAt(body, inside.Keys, d, t)
              else if r.StepStarted? then multiset{TreeOf(log, r)}
              else multiset{}
    {
      OuterPlaces(log, places, tracer, r, b, t);
      assert t != tracer ==> inside[t] == places[t];
    }
    assert inside[tracer] == PlaceOf(r);
  }

  lemma {:induction false} TreesOfAll(log: seq<Row>, ps: seq<Prog>, places: Places, ds: seq<Deriv>)
    requires |ps| == |ds| && Apart(log, places, RowsOfAll(ps, places, ds))
    ensures forall t :: t in places ==>
              SumBelow(log, RowsOfAll(ps, places, ds), places[t]) == StepsAtAll(ps, places.Keys, ds, t)
    ensures SumRuns(log, RowsOfAll(ps, places, ds)) == RunsInAll(ps, places.Keys, ds)
    decreases ds
  {
    if ps != [] {
      hide Apart, Local, SumBelow, SumRuns, RowsOf;
      var a, b := RowsOf(ps[0], places, ds[0]), RowsOfAll(ps[1..], places, ds[1..]);
      RowsLocal(log, ps[0], places, ds[0]);
      RowsAllLocal(log, ps[1..], places, ds[1..]);
      ApartParts(log, places, a, b);
      TreesOf(log, ps[0], places, ds[0]);
      TreesOfAll(log, ps[1..], places, ds[1..]);
      SumsConcat(log, places, a, b);
    }
  }

  // ---- The whole log ----

  lemma {:induction false} OpensWithout(rows: seq<Row>, k: nat, x: nat)
    requires k < |rows|
    ensures Opens(rows, x) == Opens(rows[..k] + rows[k + 1..], x) + EqSome(OpenedId(rows[k]), x)
  {
    hide Opens;
    OpensConcat(rows[..k], rows[k + 1..], x);
    OpensConcat(rows[..k], [rows[k]], x);
    OpensConcat(rows[..k] + [rows[k]], rows[k + 1..], x);
    OpensOne(rows[k], x);
    assert rows == rows[..k] + [rows[k]] + rows[k + 1..];
  }

  lemma {:induction false} OpensPermuted(a: seq<Row>, b: seq<Row>, x: nat)
    requires forall r :: IsStart(r) ==> Recorded(a, r) == Recorded(b, r)
    ensures Opens(a, x) == Opens(b, x)
    decreases |a| + |b|
  {
    if a != [] && !IsStart(a[|a| - 1]) {
      OpensPermuted(a[..|a| - 1], b, x);
    } else if a != [] {
      var front, r := a[..|a| - 1], a[|a| - 1];
      assert Recorded(a, r) > 0;
      var k := RecordedAt(b, r);
      forall s | IsStart(s)
        ensures Recorded(front, s) == Recorded(b[..k] + b[k + 1..], s)
      {
        RecordedWithout(b, k, s);
      }
      OpensPermuted(front, b[..k] + b[k + 1..], x);
      OpensWithout(b, k, x);
    } else if b != [] {
      var r := b[|b| - 1];
      assert IsStart(r) ==> Recorded(b, r) > 0 && Recorded(a, r) == 0;
      OpensPermuted(a, b[..|b| - 1], x);
    }
  }

  lemma {:induction false} RowsOfStart(p: Prog, places: Places, d: Deriv)
    ensures forall r :: r in RowsOf(p, places, d) ==> IsStart(r)
    decreases d
  {
    match p
    case Settle(_) =>
    case Bind(first, k) =>
      if d.Then? {
        RowsOfStart(first, places, d.first);
        RowsOfStart(k(d.mid), places, d.rest);
      }
    case Step(tracer, name, body) =>
      if d.Inside? {
        RowsOfStart(body, if tracer in places then InStep(places, tracer, d.id) else places, d.sub);
      }
    case Run(tracer, name, enabled, body) =>
      if d.Inside? {
        RowsOfStart(body, if enabled then InRun(places, tracer, d.id) else places, d.sub);
      }
    case All(ps) =>
      if d.Fork? && |d.branches| == |ps| {
        RowsOfAllStart(ps, places, d.branches);
      }
  }

  lemma {:induction false} RowsOfAllStart(ps: seq<Prog>, places: Places, ds: seq<Deriv>)
    requires |ps| == |ds|
    ensures forall r :: r in RowsOfAll(ps, places, ds) ==> IsStart(r)
    decreases ds
  {
    if ps != [] {
      RowsOfStart(ps[0], places, ds[0]);
      RowsOfAllStart(ps[1..], places, ds[1..]);
    }
  }

  // A log whose start rows are those of a derivation rebuilds the trees of that derivation.
  lemma {:induction false} LogRebuilds(log: seq<Row>, p: Prog, d: Deriv)
    requires WellFormed(log) && forall x :: IsStart(x) ==> Calls(p, map[], d, x) == Recorded(log, x)
    ensures Rebuilt(log) == RunsIn(p, {}, d)
  {
    var rows := RowsOf(p, map[], d);
    forall x | IsStart(x)
      ensures Recorded(log, x) == Recorded(rows, x)
    {
      RowsCounted(p, map[], d, x);
    }
    LogOrdered(log);
    forall x: nat
      ensures Opens(rows, x) <= 1
    {
      OpensAtMostOnce(log, x);
      OpensPermuted(log, rows, x);
    }
    RowsOfStart(p, map[], d);
    forall r | r in rows
      ensures IsStart(r) && Whole(log, rows, PlaceOf(r))
    {
      WholeLog(log, rows, PlaceOf(r));
    }
    assert Apart(log, map[], rows);
    TreesOf(log, p, map[], d);
    WholeLog(log, rows, Place(0, None));
    var none: Places := map[];
    assert none.Keys == {};
  }

  lemma {:induction false} WholeLog(log: seq<Row>, rows: seq<Row>, at: Place)
    requires Ordered(log) && forall x :: IsStart(x) ==> Recorded(log, x) == Recorded(rows, x)
    ensures Whole(log, rows, at) && SumRuns(log, rows) == Rebuilt(log)
  {
    BelowIsSum(log, 0, at);
    assert log[0..] == log;
    SumPermuted(log, log, rows, at);
  }

  // Once everything has settled, the trees rebuilt from the parent links of the rows are the call trees of a complete
  // derivation with the outcome returned: same names, same nesting, as many times, run by run.
  lemma {:induction false} CallTreeRebuilt(p: Prog, moves: seq<Move>)
    requires AllContained(moves) && Finished(Exec(p, moves))
    ensures exists d ::
              && Observed(p, {}, d, Exec(p, moves).main.outcome) && Complete(d)
              && Rebuilt(Exec(p, moves).attempted) == RunsIn(p, {}, d)
              && (AllKept(Exec(p, moves).ends) ==> Yields(p, d, Exec(p, moves).main.outcome))
  {
    var d := RowsAreCalls(p, moves);
    ExecSound(p, moves);
    LogRebuilds(Exec(p, moves).attempted, p, d);
  }
}
