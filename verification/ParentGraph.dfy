// Parent links read back from a trace: an arbitrary finite functional graph. A link may be absent, may name a step that
// was never recorded, and may close a cycle.
module ParentGraph {
  import opened Wrappers

  type Graph<Id> = map<Id, Option<Id>>

  // The parent of a step, if it names a recorded step.
  function Up<Id(==)>(g: Graph<Id>, id: Id): (p: Option<Id>) {
    if id in g && g[id].Some? && g[id].value in g then g[id] else None
  }

  ghost function Ancestor<Id>(g: Graph<Id>, id: Id, k: nat): Option<Id> {
    if k == 0 then Some(id)
    else match Up(g, id)
      case None => None
      case Some(p) => Ancestor(g, p, k - 1)
  }

  ghost predicate ReturnsIn<Id>(g: Graph<Id>, id: Id, k: nat) {
    k > 0 && Ancestor(g, id, k) == Some(id)
  }

  ghost predicate OnCycle<Id(!new)>(g: Graph<Id>, id: Id) {
    exists k: nat :: ReturnsIn(g, id, k)
  }

  // Depth zero: no recorded parent, or a member of a parent cycle.
  ghost predicate Top<Id(!new)>(g: Graph<Id>, id: Id) {
    Up(g, id).None? || OnCycle(g, id)
  }

  ghost predicate AtHeight<Id(!new)>(g: Graph<Id>, id: Id, d: nat) {
    && Ancestor(g, id, d).Some?
    && Top(g, Ancestor(g, id, d).value)
    && forall j: nat :: j < d ==> Ancestor(g, id, j).Some? && !Top(g, Ancestor(g, id, j).value)
  }

  ghost function DepthWithin<Id(!new)>(g: Graph<Id>, id: Id, n: nat): nat {
    if n == 0 || Top(g, id) then 0 else 1 + DepthWithin(g, Up(g, id).value, n - 1)
  }

  // The number of links from a step to the first step of depth zero above it; |g| links always suffice.
  ghost function Depth<Id(!new)>(g: Graph<Id>, id: Id): nat {
    DepthWithin(g, id, |g|)
  }

  lemma {:induction false} DepthAt<Id(!new)>(g: Graph<Id>, id: Id)
    ensures AtHeight(g, id, Depth(g, id))
    ensures Depth(g, id) <= |g|
  {
    HeightExists(g, id);
    var d: nat :| AtHeight(g, id, d) && d <= |g|;
    HeightWithin(g, id, d, |g|);
  }

  lemma {:induction false} HeightWithin<Id(!new)>(g: Graph<Id>, id: Id, d: nat, n: nat)
    requires AtHeight(g, id, d) && d <= n
    ensures DepthWithin(g, id, n) == d
  {
    assert Ancestor(g, id, 0) == Some(id);
    if d > 0 {
      assert !Top(g, id);
      var p := Up(g, id).value;
      assert forall j: nat :: j < d ==> Ancestor(g, p, j) == Ancestor(g, id, j + 1);
      assert AtHeight(g, p, d - 1) by {
        assert Ancestor(g, p, d - 1) == Ancestor(g, id, d);
      }
      HeightWithin(g, p, d - 1, n - 1);
    }
  }

  lemma {:induction false} AncestorAdd<Id>(g: Graph<Id>, id: Id, i: nat, j: nat)
    requires Ancestor(g, id, i).Some?
    ensures Ancestor(g, id, i + j) == Ancestor(g, Ancestor(g, id, i).value, j)
  {
    if i > 0 {
      AncestorAdd(g, Up(g, id).value, i - 1, j);
    }
  }

  lemma {:induction false} AncestorRecorded<Id>(g: Graph<Id>, id: Id, k: nat)
    requires id in g
    requires Ancestor(g, id, k).Some?
    ensures Ancestor(g, id, k).value in g
  {
    if k > 0 {
      AncestorRecorded(g, Up(g, id).value, k - 1);
    }
  }

  // Walking up |g| links either leaves the graph or repeats a step, and a repeated step lies on a cycle.
  lemma {:induction false} HeightExists<Id(!new)>(g: Graph<Id>, id: Id)
    ensures exists d: nat :: AtHeight(g, id, d) && d <= |g|
  {
    var chain := [id];
    var d := 0;
    while !Top(g, chain[d])
      invariant |chain| == d + 1 && chain[0] == id
      invariant d > 0 ==> id in g
      invariant forall j: nat :: j <= d ==> Ancestor(g, id, j) == Some(chain[j])
      invariant forall j: nat :: j < d ==> !Top(g, chain[j])
      invariant forall j: nat :: 0 < j <= d ==> chain[j] in g
      invariant forall i: nat, j: nat :: i < j <= d ==> chain[i] != chain[j]
      invariant d <= |g|
      decreases |g| - d
    {
      var p := Up(g, chain[d]).value;
      AncestorAdd(g, id, d, 1);
      assert Ancestor(g, id, d + 1) == Some(p) by {
        assert Ancestor(g, chain[d], 1) == Some(p);
      }
      forall i: nat | i <= d
        ensures chain[i] != p
      {
        if chain[i] == p {
          AncestorAdd(g, id, i, d + 1 - i);
          assert ReturnsIn(g, p, d + 1 - i);
        }
      }
      chain := chain + [p];
      d := d + 1;
      DistinctFits(chain, g.Keys);
    }
    assert AtHeight(g, id, d);
  }

  lemma {:induction false} HeightUnique<Id(!new)>(g: Graph<Id>, id: Id, d: nat, e: nat)
    requires AtHeight(g, id, d)
    requires AtHeight(g, id, e)
    ensures d == e
  {
  }

  lemma {:induction false} DepthIs<Id(!new)>(g: Graph<Id>, id: Id, d: nat)
    requires AtHeight(g, id, d)
    ensures Depth(g, id) == d
  {
    DepthAt(g, id);
    HeightUnique(g, id, d, Depth(g, id));
  }

  // The recursive law of depth: zero at the top, one more than the parent elsewhere.
  lemma {:induction false} DepthLaw<Id(!new)>(g: Graph<Id>, id: Id)
    ensures Top(g, id) ==> Depth(g, id) == 0
    ensures !Top(g, id) ==> Depth(g, id) == 1 + Depth(g, Up(g, id).value)
  {
    if Top(g, id) {
      assert AtHeight(g, id, 0);
      DepthIs(g, id, 0);
    } else {
      var p := Up(g, id).value;
      var d := Depth(g, p);
      DepthAt(g, p);
      forall j: nat | j < d + 1
        ensures Ancestor(g, id, j).Some? && !Top(g, Ancestor(g, id, j).value)
      {
        if j > 0 {
          assert Ancestor(g, id, j) == Ancestor(g, p, j - 1);
        }
      }
      assert Ancestor(g, id, d + 1) == Ancestor(g, p, d);
      assert AtHeight(g, id, d + 1);
      DepthIs(g, id, d + 1);
    }
  }

  // Every step on a cycle has a parent on the same cycle.
  lemma {:induction false} CycleContinues<Id(!new)>(g: Graph<Id>, id: Id)
    requires OnCycle(g, id)
    ensures Up(g, id).Some? && OnCycle(g, Up(g, id).value)
  {
    var k: nat :| ReturnsIn(g, id, k);
    var p := Up(g, id).value;
    AncestorAdd(g, id, k, 1);
    assert Ancestor(g, id, 1) == Some(p);
    AncestorAdd(g, id, 1, k);
    assert ReturnsIn(g, p, k);
  }

  // A chain that reaches a root never meets a cycle.
  ghost predicate ReachesRoot<Id(!new)>(g: Graph<Id>, id: Id) {
    exists k: nat :: Ancestor(g, id, k).Some? && Up(g, Ancestor(g, id, k).value).None?
  }

  ghost predicate EntersCycle<Id(!new)>(g: Graph<Id>, id: Id) {
    exists k: nat :: Ancestor(g, id, k).Some? && OnCycle(g, Ancestor(g, id, k).value)
  }

  lemma {:induction false} CycleNeverEnds<Id(!new)>(g: Graph<Id>, id: Id, k: nat)
    requires OnCycle(g, id)
    ensures Ancestor(g, id, k).Some? && Up(g, Ancestor(g, id, k).value).Some?
  {
    CycleContinues(g, id);
    if k > 0 {
      CycleNeverEnds(g, Up(g, id).value, k - 1);
    }
  }

  // Every step's parent chain does exactly one of two things: it reaches a root or it enters a cycle.
  lemma {:induction false} RootOrCycle<Id(!new)>(g: Graph<Id>, id: Id)
    ensures ReachesRoot(g, id) <==> !EntersCycle(g, id)
    ensures Ancestor(g, id, Depth(g, id)).Some?
    ensures ReachesRoot(g, id) <==> Up(g, Ancestor(g, id, Depth(g, id)).value).None?
  {
    var d := Depth(g, id);
    DepthAt(g, id);
    var top := Ancestor(g, id, d).value;
    if OnCycle(g, top) {
      CycleContinues(g, top);
      if ReachesRoot(g, id) {
        var k: nat :| Ancestor(g, id, k).Some? && Up(g, Ancestor(g, id, k).value).None?;
        if k < d {
          assert Top(g, Ancestor(g, id, k).value);
        } else {
          AncestorAdd(g, id, d, k - d);
          CycleNeverEnds(g, top, k - d);
        }
      }
    } else if EntersCycle(g, id) {
      var k: nat :| Ancestor(g, id, k).Some? && OnCycle(g, Ancestor(g, id, k).value);
      assert Up(g, top).None?;
      if k > d {
        AncestorAdd(g, id, d, k - d);
      }
    }
  }

  // A step whose chain of parents reaches a root in exactly d links.
  ghost predicate RootedAt<Id(!new)>(g: Graph<Id>, id: Id, d: nat) {
    Ancestor(g, id, d).Some? && Up(g, Ancestor(g, id, d).value).None?
  }

  lemma {:induction false} NoneStays<Id(!new)>(g: Graph<Id>, id: Id, i: nat, j: nat)
    requires Ancestor(g, id, i).None?
    ensures Ancestor(g, id, i + j).None?
    decreases i
  {
    if i > 0 && Up(g, id).Some? {
      NoneStays(g, Up(g, id).value, i - 1, j);
    }
  }

  // The depth of such a step is the length of its chain.
  lemma {:induction false} RootedHeight<Id(!new)>(g: Graph<Id>, id: Id, d: nat)
    requires RootedAt(g, id, d)
    ensures Depth(g, id) == d && d <= |g|
  {
    forall j: nat | j < d
      ensures Ancestor(g, id, j).Some? && !Top(g, Ancestor(g, id, j).value)
    {
      if Ancestor(g, id, j).None? {
        NoneStays(g, id, j, d - j);
      } else {
        var a := Ancestor(g, id, j).value;
        AncestorAdd(g, id, j, d - j);
        if OnCycle(g, a) {
          CycleNeverEnds(g, a, d - j);
        }
        assert Ancestor(g, a, d - j).Some?;
      }
    }
    DepthIs(g, id, d);
    DepthAt(g, id);
  }
}
