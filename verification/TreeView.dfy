// The execution tree that the view command builds and prints.
module TreeView {
  import opened Wrappers
  import opened ParentGraph
  import opened StepDepth
  import opened StableSort
  import opened Trace

  // One node of the forest; the object graph below a root is read as a tree.
  datatype StepNode = StepNode(id: string, status: StepStatus, startedAt: real, children: seq<StepNode>)

  // A printed line: the step and the depth at which it is indented.
  datatype Line = Line(id: string, status: StepStatus, depth: nat)

  datatype Sibling = Sibling(id: string, startedAt: real)

  function SiblingStart(s: Sibling): real {
    s.startedAt
  }

  // Steps pushed under a parent (`Some`) or among the roots (`None`), in insertion order.
  function Pushed(t: StepTable, under: Option<string>, n: nat): seq<Sibling>
    requires n <= |t.order| && forall i :: 0 <= i < |t.order| ==> t.order[i] in t.nodes
  {
    if n == 0 then []
    else
      var front, id := Pushed(t, under, n - 1), t.order[n - 1];
      if Up(Links(t), id) == under then front + [Sibling(id, t.nodes[id].startedAt)] else front
  }

  ghost predicate Belongs(t: StepTable, s: Sibling, under: Option<string>) {
    s.id in t.nodes && Up(Links(t), s.id) == under && s.startedAt == t.nodes[s.id].startedAt
  }

  lemma {:induction false} PushedSound(t: StepTable, under: Option<string>, n: nat)
    requires t.Valid() && n <= |t.order|
    ensures forall i :: 0 <= i < |Pushed(t, under, n)| ==> Belongs(t, Pushed(t, under, n)[i], under)
    ensures forall i :: 0 <= i < |Pushed(t, under, n)| ==> Pushed(t, under, n)[i].id in t.order[..n]
    ensures forall i, j :: 0 <= i < j < |Pushed(t, under, n)| ==> Pushed(t, under, n)[i].id != Pushed(t, under, n)[j].id
  {
    hide Links, Up;
    if n > 0 {
      PushedSound(t, under, n - 1);
      var front, id := Pushed(t, under, n - 1), t.order[n - 1];
      assert id in t.nodes;
      forall i | 0 <= i < |front|
        ensures front[i].id in t.order[..n] && front[i].id != id
      {
        var k :| 0 <= k < n - 1 && t.order[..n - 1][k] == front[i].id;
        assert t.order[..n][k] == front[i].id;
      }
      assert t.order[..n][n - 1] == id;
    }
  }

  lemma {:induction false} PushedComplete(t: StepTable, under: Option<string>, n: nat, k: nat)
    requires t.Valid() && k < n <= |t.order|
    requires Up(Links(t), t.order[k]) == under
    ensures Sibling(t.order[k], t.nodes[t.order[k]].startedAt) in Pushed(t, under, n)
  {
    if k < n - 1 {
      PushedComplete(t, under, n - 1, k);
    }
  }

  // The children of a step, or the roots, in start order.
  function Siblings(t: StepTable, under: Option<string>): seq<Sibling>
    requires t.Valid()
  {
    Sort(SiblingStart, Pushed(t, under, |t.order|))
  }

  // `list` holds every recorded step whose parent is `under`, once, in start order.
  ghost predicate IsSiblingList(t: StepTable, list: seq<Sibling>, under: Option<string>) {
    && (forall i, j :: 0 <= i < j < |list| ==> list[i].id != list[j].id)
    && (forall i, j :: 0 <= i < j < |list| ==> list[i].startedAt <= list[j].startedAt)
    && (forall i :: 0 <= i < |list| ==> Belongs(t, list[i], under))
    && (forall id :: id in t.nodes && Up(Links(t), id) == under ==> exists i :: 0 <= i < |list| && list[i].id == id)
  }

  lemma {:induction false} SiblingPresent(t: StepTable, under: Option<string>, id: string)
    requires t.Valid() && id in t.nodes && Up(Links(t), id) == under
    ensures exists i :: 0 <= i < |Siblings(t, under)| && Siblings(t, under)[i].id == id
  {
    var s := Sibling(id, t.nodes[id].startedAt);
    var k :| 0 <= k < |t.order| && t.order[k] == id;
    PushedComplete(t, under, |t.order|, k);
    SortIs(SiblingStart, Pushed(t, under, |t.order|));
    assert s in multiset(Siblings(t, under));
  }

  // Siblings that started at the same time stay in the order of the table.
  lemma {:induction false} SiblingTies(t: StepTable, under: Option<string>)
    requires t.Valid()
    ensures forall at ::
              WithKey(SiblingStart, at, Siblings(t, under)) == WithKey(SiblingStart, at, Pushed(t, under, |t.order|))
  {
    SortKeepsTies(SiblingStart, Pushed(t, under, |t.order|));
  }

  lemma {:induction false} SiblingsAre(t: StepTable, under: Option<string>)
    requires t.Valid()
    ensures IsSiblingList(t, Siblings(t, under), under)
  {
    hide Pushed, Links, Up, Sort;
    var p, r := Pushed(t, under, |t.order|), Siblings(t, under);
    PushedSound(t, under, |t.order|);
    SortIs(SiblingStart, p);
    forall i | 0 <= i < |r|
      ensures Belongs(t, r[i], under)
    {
      assert r[i] in multiset(p);
    }
    forall id | id in t.nodes && Up(Links(t), id) == under
      ensures exists i :: 0 <= i < |r| && r[i].id == id
    {
      SiblingPresent(t, under, id);
    }
    assert forall i, j :: 0 <= i < j < |r| ==> SiblingStart(r[i]) <= SiblingStart(r[j]);
    PermutedDistinct(p, r);
  }

  lemma {:induction false} DistinctOnce(p: seq<Sibling>, x: Sibling)
    requires forall i, j :: 0 <= i < j < |p| ==> p[i].id != p[j].id
    ensures multiset(p)[x] <= 1
  {
    if p != [] {
      var front := p[..|p| - 1];
      assert p == front + [p[|p| - 1]];
      DistinctOnce(front, x);
      if x == p[|p| - 1] {
        assert x !in front;
      }
    }
  }

  lemma {:induction false} RepeatedTwice(r: seq<Sibling>, i: nat, j: nat)
    requires i < j < |r| && r[i] == r[j]
    ensures multiset(r)[r[i]] >= 2
  {
    assert r == r[..j] + [r[j]] + r[j + 1..];
    assert r[..j][i] == r[i];
  }

  lemma {:induction false} PermutedDistinct(p: seq<Sibling>, r: seq<Sibling>)
    requires multiset(p) == multiset(r)
    requires forall i, j :: 0 <= i < j < |p| ==> p[i].id != p[j].id
    ensures forall i, j :: 0 <= i < j < |r| ==> r[i].id != r[j].id
  {
    forall i, j | 0 <= i < j < |r|
      ensures r[i].id != r[j].id
    {
      assert r[i] in multiset(p) && r[j] in multiset(p);
      DistinctOnce(p, r[i]);
      if r[i] == r[j] {
        RepeatedTwice(r, i, j);
      }
    }
  }

  ghost predicate AllRootedAt(t: StepTable, ids: seq<Sibling>, d: nat) {
    forall i :: 0 <= i < |ids| ==> ids[i].id in t.nodes && RootedAt(Links(t), ids[i].id, d)
  }

  lemma {:induction false} RestRooted(t: StepTable, ids: seq<Sibling>, d: nat)
    requires AllRootedAt(t, ids, d) && ids != []
    ensures AllRootedAt(t, ids[1..], d)
  {
    assert forall i :: 0 <= i < |ids[1..]| ==> ids[1..][i] == ids[i + 1];
  }

  // The children arrays of all nodes, once filled and sorted.
  ghost predicate Linked(t: StepTable, children: map<string, seq<Sibling>>) {
    && children.Keys == t.nodes.Keys
    && forall id {:trigger children[id]} :: id in t.nodes ==> IsSiblingList(t, children[id], Some(id))
  }

  lemma {:induction false} LinksSize(t: StepTable)
    ensures |Links(t)| == |t.nodes|
  {
    assert Links(t).Keys == t.nodes.Keys;
    assert |Links(t)| == |Links(t).Keys| == |t.nodes.Keys| == |t.nodes|;
  }

  lemma {:induction false} BelowRooted(t: StepTable, children: map<string, seq<Sibling>>, id: string, d: nat)
    requires Linked(t, children) && id in t.nodes && RootedAt(Links(t), id, d)
    ensures AllRootedAt(t, children[id], d + 1)
    ensures IsSiblingList(t, children[id], Some(id))
    ensures d <= |t.nodes|
  {
    RootedHeight(Links(t), id, d);
    LinksSize(t);
    forall i | 0 <= i < |children[id]|
      ensures RootedAt(Links(t), children[id][i].id, d + 1)
    {
      assert Up(Links(t), children[id][i].id) == Some(id);
      assert Ancestor(Links(t), children[id][i].id, d + 1) == Ancestor(Links(t), id, d);
    }
  }

  lemma {:induction false} RootsRooted(t: StepTable, roots: seq<Sibling>)
    requires IsSiblingList(t, roots, None)
    ensures AllRootedAt(t, roots, 0)
  {
    assert forall i :: 0 <= i < |roots| ==> Ancestor(Links(t), roots[i].id, 0) == Some(roots[i].id);
  }

  // The forest below a list of siblings at depth d. Cycles are never entered, so the unfolding ends.
  function Forest(t: StepTable, children: map<string, seq<Sibling>>, ids: seq<Sibling>, ghost d: nat): seq<StepNode>
    requires Linked(t, children) && AllRootedAt(t, ids, d)
    decreases |t.nodes| + 1 - d, |ids|
  {
    if ids == [] then []
    else
      var id := ids[0].id;
      BelowRooted(t, children, id, d);
      RestRooted(t, ids, d);
      [StepNode(id, t.nodes[id].status, t.nodes[id].startedAt, Forest(t, children, children[id], d + 1))]
      + Forest(t, children, ids[1..], d)
  }

  lemma {:induction false} AllSiblingsAre(t: StepTable)
    requires t.Valid()
    ensures forall under: Option<string> :: IsSiblingList(t, Siblings(t, under), under)
  {
    forall under: Option<string>
      ensures IsSiblingList(t, Siblings(t, under), under)
    {
      SiblingsAre(t, under);
    }
  }

  function ChildrenOf(t: StepTable): map<string, seq<Sibling>>
    requires t.Valid()
  {
    map id | id in t.nodes :: Siblings(t, Some(id))
  }

  lemma {:induction false} TreeLinked(t: StepTable)
    requires t.Valid()
    ensures Linked(t, ChildrenOf(t))
    ensures IsSiblingList(t, Siblings(t, None), None) && AllRootedAt(t, Siblings(t, None), 0)
  {
    AllSiblingsAre(t);
    RootsRooted(t, Siblings(t, None));
  }

  function TreeOf(events: seq<TraceEvent>): seq<StepNode> {
    var t := Load(events);
    TreeLinked(t);
    Forest(t, ChildrenOf(t), Siblings(t, None), 0)
  }

  // Links every step under its parent or among the roots, then sorts each list by start time.
  method BuildStepTree(events: seq<TraceEvent>) returns (forest: seq<StepNode>)
    ensures forest == TreeOf(events)
  {
    hide Load, Forest, Pushed, Sort, IsSiblingList;
    var t := LoadSteps(events);
    var roots, children := LinkNodes(t);
    roots := Sort(SiblingStart, roots);
    children := map id | id in children :: Sort(SiblingStart, children[id]);
    assert children == ChildrenOf(t);
    TreeLinked(t);
    forest := Forest(t, children, roots, 0);
  }

  ghost predicate PushedSoFar(t: StepTable, roots: seq<Sibling>, children: map<string, seq<Sibling>>, n: nat)
    requires t.Valid() && n <= |t.order|
  {
    && children.Keys == t.nodes.Keys
    && roots == Pushed(t, None, n)
    && forall id {:trigger children[id]} :: id in children ==> children[id] == Pushed(t, Some(id), n)
  }

  lemma {:induction false} PushNext(t: StepTable, roots: seq<Sibling>, children: map<string, seq<Sibling>>, n: nat)
    requires t.Valid() && n < |t.order| && PushedSoFar(t, roots, children, n)
    ensures var s, up := Sibling(t.order[n], t.nodes[t.order[n]].startedAt), Up(Links(t), t.order[n]);
            if up.Some? then PushedSoFar(t, roots, children[up.value := children[up.value] + [s]], n + 1)
            else PushedSoFar(t, roots + [s], children, n + 1)
  {
  }

  method LinkNodes(t: StepTable) returns (roots: seq<Sibling>, children: map<string, seq<Sibling>>)
    requires t.Valid()
    ensures PushedSoFar(t, roots, children, |t.order|)
  {
    roots := [];
    children := map id | id in t.nodes :: [];
    for i := 0 to |t.order|
      invariant PushedSoFar(t, roots, children, i)
    {
      PushNext(t, roots, children, i);
      var n := Sibling(t.order[i], t.nodes[t.order[i]].startedAt);
      var parentId := t.nodes[n.id].parentId;
      if parentId.Some? && parentId.value in t.nodes {
        children := children[parentId.value := children[parentId.value] + [n]];
      } else {
        roots := roots + [n];
      }
    }
  }

  // The lines printStepTree prints, in order.
  function Printed(forest: seq<StepNode>, depth: nat): seq<Line> {
    if forest == [] then []
    else
      [Line(forest[0].id, forest[0].status, depth)]
      + Printed(forest[0].children, depth + 1) + Printed(forest[1..], depth)
  }

  function Occurrences(lines: seq<Line>, id: string): nat {
    if lines == [] then 0 else (if lines[0].id == id then 1 else 0) + Occurrences(lines[1..], id)
  }

  lemma {:induction false} OccurrencesConcat(a: seq<Line>, b: seq<Line>, id: string)
    ensures Occurrences(a + b, id) == Occurrences(a, id) + Occurrences(b, id)
  {
    if a == [] {
      assert a + b == b;
    } else {
      assert (a + b)[1..] == a[1..] + b;
      OccurrencesConcat(a[1..], b, id);
    }
  }

  // Every printed step sits at the length of its own parent chain.
  lemma {:induction false} LinesRooted(t: StepTable, children: map<string, seq<Sibling>>, ids: seq<Sibling>, d: nat)
    requires Linked(t, children) && AllRootedAt(t, ids, d)
    ensures forall l :: l in Printed(Forest(t, children, ids, d), d) ==>
              l.id in t.nodes && RootedAt(Links(t), l.id, l.depth) && l.status == t.nodes[l.id].status
    decreases |t.nodes| + 1 - d, |ids|
  {
    if ids != [] {
      var id := ids[0].id;
      BelowRooted(t, children, id, d);
      RestRooted(t, ids, d);
      LinesRooted(t, children, children[id], d + 1);
      LinesRooted(t, children, ids[1..], d);
      assert Forest(t, children, ids, d)[1..] == Forest(t, children, ids[1..], d);
    }
  }

  // How many of the siblings have the given id.
  function TimesListed(list: seq<Sibling>, id: Option<string>): nat {
    if list == [] then 0 else (if id == Some(list[0].id) then 1 else 0) + TimesListed(list[1..], id)
  }

  lemma {:induction false} TimesListedIs(list: seq<Sibling>, id: Option<string>)
    requires forall i, j :: 0 <= i < j < |list| ==> list[i].id != list[j].id
    ensures (exists i :: 0 <= i < |list| && id == Some(list[i].id)) ==> TimesListed(list, id) == 1
    ensures (forall i :: 0 <= i < |list| ==> id != Some(list[i].id)) ==> TimesListed(list, id) == 0
  {
    if list != [] {
      TimesListedIs(list[1..], id);
      if exists i :: 0 <= i < |list| && id == Some(list[i].id) {
        var i :| 0 <= i < |list| && id == Some(list[i].id);
        assert i > 0 ==> list[1..][i - 1] == list[i];
        assert forall j :: 0 <= j < |list[1..]| ==> list[1..][j] == list[j + 1];
      }
    }
  }

  // The ancestor, at depth d, of a step at depth e.
  ghost function AtDepth(g: Graph<string>, id: string, e: nat, d: nat): Option<string> {
    if e >= d then Ancestor(g, id, e - d) else None
  }

  // Below siblings at depth d, a step rooted at depth e appears as often as its ancestor at depth d is one of them.
  lemma {:induction false} LinesOnce(t: StepTable, children: map<string, seq<Sibling>>, ids: seq<Sibling>, d: nat,
        id: string, e: nat)
    requires Linked(t, children) && AllRootedAt(t, ids, d)
    requires id in t.nodes && RootedAt(Links(t), id, e)
    ensures Occurrences(Printed(Forest(t, children, ids, d), d), id) == TimesListed(ids, AtDepth(Links(t), id, e, d))
    decreases |t.nodes| + 1 - d, |ids|
  {
    if ids == [] {
      NoLines(t, children, d, id, AtDepth(Links(t), id, e, d));
    } else {
      hide Printed, Forest, Occurrences, AtDepth, IsSiblingList, RootedAt, AllRootedAt, Linked, TimesListed, Links;
      FirstAndRest(t, children, ids, d);
      LinesOnce(t, children, children[ids[0].id], d + 1, id, e);
      LinesOnce(t, children, ids[1..], d, id, e);
      FirstLines(t, children, ids, d, id, e);
    }
  }

  lemma {:induction false} FirstLines(t: StepTable, children: map<string, seq<Sibling>>, ids: seq<Sibling>, d: nat,
        id: string, e: nat)
    requires Linked(t, children) && AllRootedAt(t, ids, d) && ids != [] && id in t.nodes && RootedAt(Links(t), id, e)
    requires ids[0].id in t.nodes && AllRootedAt(t, children[ids[0].id], d + 1) && AllRootedAt(t, ids[1..], d)
    requires Occurrences(Printed(Forest(t, children, children[ids[0].id], d + 1), d + 1), id)
          == TimesListed(children[ids[0].id], AtDepth(Links(t), id, e, d + 1))
    requires Occurrences(Printed(Forest(t, children, ids[1..], d), d), id)
             == TimesListed(ids[1..], AtDepth(Links(t), id, e, d))
    ensures Occurrences(Printed(Forest(t, children, ids, d), d), id) == TimesListed(ids, AtDepth(Links(t), id, e, d))
  {
    hide Printed, Forest, Occurrences, AtDepth, IsSiblingList, RootedAt, AllRootedAt, Linked, TimesListed, Links;
    var first := ids[0].id;
    FirstAndRest(t, children, ids, d);
    TimesListedFirst(ids, AtDepth(Links(t), id, e, d));
    LinesSplit(t, children, ids, d, id);
    BelowFirst(t, first, d, children[first], id, e);
  }

  lemma {:induction false} TimesListedFirst(list: seq<Sibling>, id: Option<string>)
    requires list != []
    ensures TimesListed(list, id) == (if id == Some(list[0].id) then 1 else 0) + TimesListed(list[1..], id)
  {
  }

  lemma {:induction false} NoLines(t: StepTable, children: map<string, seq<Sibling>>, d: nat, id: string,
        a: Option<string>)
    requires Linked(t, children)
    ensures AllRootedAt(t, [], d) && Occurrences(Printed(Forest(t, children, [], d), d), id) == 0 == TimesListed([], a)
  {
  }

  lemma {:induction false} FirstAndRest(t: StepTable, children: map<string, seq<Sibling>>, ids: seq<Sibling>, d: nat)
    requires Linked(t, children) && AllRootedAt(t, ids, d) && ids != []
    ensures var first := ids[0].id;
            && first in t.nodes && first in children && RootedAt(Links(t), first, d) && d <= |t.nodes|
            && AllRootedAt(t, children[first], d + 1) && IsSiblingList(t, children[first], Some(first))
            && AllRootedAt(t, ids[1..], d)
  {
    BelowRooted(t, children, ids[0].id, d);
    RestRooted(t, ids, d);
  }

  lemma {:induction false} LinesSplit(t: StepTable, children: map<string, seq<Sibling>>, ids: seq<Sibling>, d: nat,
        id: string)
    requires Linked(t, children) && AllRootedAt(t, ids, d) && ids != []
    requires ids[0].id in t.nodes && AllRootedAt(t, children[ids[0].id], d + 1) && AllRootedAt(t, ids[1..], d)
    ensures Occurrences(Printed(Forest(t, children, ids, d), d), id)
         == (if ids[0].id == id then 1 else 0)
          + Occurrences(Printed(Forest(t, children, children[ids[0].id], d + 1), d + 1), id)
          + Occurrences(Printed(Forest(t, children, ids[1..], d), d), id)
  {
    var below, rest := Forest(t, children, children[ids[0].id], d + 1), Forest(t, children, ids[1..], d);
    var node := StepNode(ids[0].id, t.nodes[ids[0].id].status, t.nodes[ids[0].id].startedAt, below);
    assert Forest(t, children, ids, d) == [node] + rest;
    NodeOccurrences(node, rest, d, id);
  }

  lemma {:induction false} NodeOccurrences(node: StepNode, rest: seq<StepNode>, d: nat, id: string)
    ensures Occurrences(Printed([node] + rest, d), id)
         == (if node.id == id then 1 else 0) + Occurrences(Printed(node.children, d + 1), id)
         + Occurrences(Printed(rest, d), id)
  {
    var head, mid, tail := [Line(node.id, node.status, d)], Printed(node.children, d + 1), Printed(rest, d);
    assert ([node] + rest)[1..] == rest;
    OccurrencesConcat(head + mid, tail, id);
    OccurrencesConcat(head, mid, id);
    assert head[1..] == [];
    assert Occurrences(head, id) == if node.id == id then 1 else 0;
  }

  // `first` is the ancestor of a step at its depth exactly if it is the step itself or one of
  // its children is an ancestor.
  lemma {:induction false} BelowFirst(t: StepTable, first: string, d: nat, below: seq<Sibling>, id: string, e: nat)
    requires RootedAt(Links(t), first, d) && IsSiblingList(t, below, Some(first))
    requires id in t.nodes && RootedAt(Links(t), id, e)
    ensures (if first == id then 1 else 0) + TimesListed(below, AtDepth(Links(t), id, e, d + 1))
         == (if AtDepth(Links(t), id, e, d) == Some(first) then 1 else 0)
  {
    var g, a := Links(t), AtDepth(Links(t), id, e, d + 1);
    TimesListedIs(below, a);
    if id == first {
      RootedHeight(g, id, e);
      RootedHeight(g, id, d);
      assert AtDepth(g, id, e, d) == Some(id);
    } else if e >= d + 1 {
      NextAtDepth(g, id, e, d);
      hide AtDepth, RootedAt, Links, TimesListed;
    } else {
      assert AtDepth(g, id, e, d) != Some(first);
    }
  }

  // The ancestor one level up.
  lemma {:induction false} NextAtDepth(g: Graph<string>, id: string, e: nat, d: nat)
    requires id in g && RootedAt(g, id, e) && e >= d + 1
    ensures var a := AtDepth(g, id, e, d + 1);
            a.Some? && a.value in g && AtDepth(g, id, e, d) == Up(g, a.value)
  {
    var a := AtDepth(g, id, e, d + 1);
    if a.None? {
      NoneStays(g, id, e - d - 1, d + 1);
    }
    AncestorRecorded(g, id, e - d - 1);
    AncestorAdd(g, id, e - d - 1, 1);
    assert Up(g, a.value).Some? ==> Ancestor(g, Up(g, a.value).value, 0) == Up(g, a.value);
  }

  // The printed tree shows a step exactly once if its parent chain reaches a root, and never if it enters a cycle; each
  // printed depth is the length of the chain.
  lemma {:induction false} TreeShowsRootedOnce(events: seq<TraceEvent>, id: string)
    ensures var t, lines := Load(events), Printed(TreeOf(events), 0);
            && (id in t.nodes && ReachesRoot(Links(t), id) ==> Occurrences(lines, id) == 1)
            && (id !in t.nodes || EntersCycle(Links(t), id) ==> Occurrences(lines, id) == 0)
            && (forall l :: l in lines ==> l.id in t.nodes && l.depth == Depth(Links(t), l.id)
                                           && l.status == t.nodes[l.id].status)
  {
    var t := Load(events);
    TreeLinked(t);
    ForestShowsRootedOnce(t, ChildrenOf(t), Siblings(t, None), id);
  }

  lemma {:induction false} ForestShowsRootedOnce(t: StepTable, children: map<string, seq<Sibling>>, roots: seq<Sibling>,
        id: string)
    requires Linked(t, children) && IsSiblingList(t, roots, None) && AllRootedAt(t, roots, 0)
    ensures var lines := Printed(Forest(t, children, roots, 0), 0);
            && (id in t.nodes && ReachesRoot(Links(t), id) ==> Occurrences(lines, id) == 1)
            && (id !in t.nodes || EntersCycle(Links(t), id) ==> Occurrences(lines, id) == 0)
            && (forall l :: l in lines ==> l.id in t.nodes && l.depth == Depth(Links(t), l.id)
                                           && l.status == t.nodes[l.id].status)
  {
    hide Linked, Printed, Forest, Depth;
    var g, lines := Links(t), Printed(Forest(t, children, roots, 0), 0);
    LinesRooted(t, children, roots, 0);
    forall l | l in lines
      ensures l.depth == Depth(g, l.id) && ReachesRoot(g, l.id)
    {
      RootedHeight(g, l.id, l.depth);
    }
    RootOrCycle(g, id);
    if id in t.nodes && ReachesRoot(g, id) {
      var e: nat :| Ancestor(g, id, e).Some? && Up(g, Ancestor(g, id, e).value).None?;
      AncestorRecorded(g, id, e);
      LinesOnce(t, children, roots, 0, id, e);
      TimesListedIs(roots, Ancestor(g, id, e));
    } else {
      AbsentIsZero(lines, id);
    }
  }

  lemma {:induction false} AbsentIsZero(lines: seq<Line>, id: string)
    requires forall l :: l in lines ==> l.id != id
    ensures Occurrences(lines, id) == 0
  {
    if lines != [] {
      AbsentIsZero(lines[1..], id);
    }
  }

  // No validated step has a blank id, so treating a blank parent id as none changes no link.
  lemma {:induction false} BlankParentsMissing(events: seq<TraceEvent>)
    requires NonBlankIds(events)
    ensures forall id :: Up(Links(Load(events)), id) == Up(NonBlankLinks(Load(events)), id)
  {
    var t := Load(events);
    forall id
      ensures Up(Links(t), id) == Up(NonBlankLinks(t), id)
    {
      if id in t.nodes && t.nodes[id].parentId.Some? && t.nodes[id].parentId.value in t.nodes {
        LoadMeaning(events, t.nodes[id].parentId.value);
      }
    }
  }

  // For validated rows the printed depth, capped, is the depth the timeline and the summary report.
  lemma {:induction false} TreeAgreesWithTimeline(events: seq<TraceEvent>, l: Line)
    requires NonBlankIds(events)
    requires l in Printed(TreeOf(events), 0)
    ensures l.id in Load(events).nodes
    ensures Min(1000, l.depth) == CappedDepth(NonBlankLinks(Load(events)), l.id)
  {
    var t := Load(events);
    TreeShowsRootedOnce(events, l.id);
    BlankParentsMissing(events);
    DepthAt(Links(t), l.id);
    SameUpSameDepth(Links(t), NonBlankLinks(t), l.id, Depth(Links(t), l.id));
  }

  lemma {:induction false} SameAncestors(g: Graph<string>, h: Graph<string>, id: string, k: nat)
    requires forall x :: Up(g, x) == Up(h, x)
    ensures Ancestor(g, id, k) == Ancestor(h, id, k)
    decreases k
  {
    if k > 0 && Up(g, id).Some? {
      SameAncestors(g, h, Up(g, id).value, k - 1);
    }
  }

  lemma {:induction false} SameCycles(g: Graph<string>, h: Graph<string>, id: string)
    requires forall x :: Up(g, x) == Up(h, x)
    requires OnCycle(g, id)
    ensures OnCycle(h, id)
  {
    var k: nat :| ReturnsIn(g, id, k);
    SameAncestors(g, h, id, k);
    assert ReturnsIn(h, id, k);
  }

  lemma {:induction false} SameUpSameDepth(g: Graph<string>, h: Graph<string>, id: string, d: nat)
    requires forall x :: Up(g, x) == Up(h, x)
    requires AtHeight(g, id, d)
    ensures Depth(h, id) == d == Depth(g, id)
  {
    forall j: nat
      ensures Ancestor(g, id, j) == Ancestor(h, id, j)
      ensures Ancestor(g, id, j).Some? ==> Top(g, Ancestor(g, id, j).value) == Top(h, Ancestor(g, id, j).value)
    {
      SameAncestors(g, h, id, j);
      if Ancestor(g, id, j).Some? {
        var a := Ancestor(g, id, j).value;
        if OnCycle(g, a) {
          SameCycles(g, h, a);
        }
        if OnCycle(h, a) {
          SameCycles(h, g, a);
        }
      }
    }
    assert AtHeight(h, id, d);
    DepthIs(h, id, d);
    DepthIs(g, id, d);
  }

  // ---- The error view ----

  // Keeps failed nodes and the ancestors needed to situate them.
  function PruneErrorTree(nodes: seq<StepNode>): (r: seq<StepNode>) {
    if nodes == [] then []
    else
      var children := PruneErrorTree(nodes[0].children);
      (if nodes[0].status == Error || |children| > 0 then [nodes[0].(children := children)] else [])
      + PruneErrorTree(nodes[1..])
  }

  predicate HasError(n: StepNode) {
    n.status == Error || exists i :: 0 <= i < |n.children| && HasError(n.children[i])
  }

  // The lines of a forest whose step failed or has a failed step below it.
  function ErrorLines(forest: seq<StepNode>, depth: nat): seq<Line> {
    if forest == [] then []
    else
      (if HasError(forest[0]) then [Line(forest[0].id, forest[0].status, depth)] else [])
      + ErrorLines(forest[0].children, depth + 1) + ErrorLines(forest[1..], depth)
  }

  lemma {:induction false} PruneEmpty(nodes: seq<StepNode>)
    ensures PruneErrorTree(nodes) == [] <==> forall i :: 0 <= i < |nodes| ==> !HasError(nodes[i])
  {
    if nodes != [] {
      PruneEmpty(nodes[0].children);
      PruneEmpty(nodes[1..]);
    }
  }

  lemma {:induction false} LinesConcat(a: seq<StepNode>, b: seq<StepNode>, depth: nat)
    ensures Printed(a + b, depth) == Printed(a, depth) + Printed(b, depth)
  {
    if a == [] {
      assert a + b == b;
    } else {
      assert (a + b)[1..] == a[1..] + b;
      LinesConcat(a[1..], b, depth);
    }
  }

  // The error view prints exactly the lines of the full tree that lead to a failure, in the same order and indentation.
  lemma {:induction false} PruneKeepsErrorLines(forest: seq<StepNode>, depth: nat)
    ensures Printed(PruneErrorTree(forest), depth) == ErrorLines(forest, depth)
  {
    if forest != [] {
      var n := forest[0];
      var children := PruneErrorTree(n.children);
      PruneKeepsErrorLines(n.children, depth + 1);
      PruneKeepsErrorLines(forest[1..], depth);
      PruneEmpty(n.children);
      if n.status == Error || |children| > 0 {
        var kept := n.(children := children);
        LinesConcat([kept], PruneErrorTree(forest[1..]), depth);
        assert [kept][1..] == [];
        assert Printed([kept], depth) == [Line(n.id, n.status, depth)] + Printed(children, depth + 1);
        assert PruneErrorTree(forest) == [kept] + PruneErrorTree(forest[1..]);
        assert HasError(n);
      } else {
        assert !HasError(n);
        assert PruneErrorTree(forest) == PruneErrorTree(forest[1..]);
      }
    }
  }
}
