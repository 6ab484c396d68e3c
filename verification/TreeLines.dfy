// The order of the lines of the printed tree, and whose child each line is.
module TreeLines {
  import opened Wrappers
  import opened ParentGraph
  import opened StepDepth
  import opened StableSort
  import opened Trace
  import opened TreeView

  // ---- Ties in a stable sort ----

  ghost predicate Before<T>(s: seq<T>, x: T, y: T) {
    exists i, j :: 0 <= i < j < |s| && s[i] == x && s[j] == y
  }

  lemma {:induction false} BeforeSnoc<T>(s: seq<T>, z: T, x: T, y: T)
    ensures Before(s + [z], x, y) <==> Before(s, x, y) || (x in s && z == y)
  {
    var longer := s + [z];
    if Before(longer, x, y) {
      var i, j :| 0 <= i < j < |longer| && longer[i] == x && longer[j] == y;
      assert s[i] == x;
      assert j < |s| ==> s[j] == y;
    }
    if Before(s, x, y) {
      var i, j :| 0 <= i < j < |s| && s[i] == x && s[j] == y;
      assert longer[i] == x && longer[j] == y;
    }
    if x in s && z == y {
      var i :| 0 <= i < |s| && s[i] == x;
      assert longer[i] == x && longer[|s|] == y;
    }
  }

  lemma {:induction false} WithKeyMember<T>(key: T -> real, k: real, s: seq<T>, x: T)
    ensures x in WithKey(key, k, s) <==> x in s && key(x) == k
  {
    if s != [] {
      WithKeyMember(key, k, s[..|s| - 1], x);
      assert s == s[..|s| - 1] + [s[|s| - 1]];
    }
  }

  lemma {:induction false} WithKeyBefore<T>(key: T -> real, k: real, s: seq<T>, x: T, y: T)
    requires key(x) == k == key(y)
    ensures Before(WithKey(key, k, s), x, y) <==> Before(s, x, y)
  {
    if s != [] {
      var front, z := s[..|s| - 1], s[|s| - 1];
      assert s == front + [z];
      WithKeyBefore(key, k, front, x, y);
      WithKeyMember(key, k, front, x);
      BeforeSnoc(front, z, x, y);
      BeforeSnoc(WithKey(key, k, front), z, x, y);
      if key(z) != k {
        assert WithKey(key, k, s) == WithKey(key, k, front);
      }
    }
  }

  // Elements with equal keys stand in the order they had before sorting.
  lemma {:induction false} SortKeepsOrder<T>(key: T -> real, s: seq<T>, x: T, y: T)
    requires key(x) == key(y) && Before(Sort(key, s), x, y)
    ensures Before(s, x, y)
  {
    WithKeyBefore(key, key(x), Sort(key, s), x, y);
    SortStable(key, s, key(x));
    WithKeyBefore(key, key(x), s, x, y);
  }

  // ---- The order of siblings ----

  // x started before y, or at the same time and was recorded first.
  ghost predicate Precedes(t: StepTable, x: string, y: string) {
    && x in t.nodes && y in t.nodes
    && (t.nodes[x].startedAt < t.nodes[y].startedAt
        || (t.nodes[x].startedAt == t.nodes[y].startedAt && Before(t.order, x, y)))
  }

  ghost predicate InOrder(t: StepTable, list: seq<Sibling>) {
    forall i, j :: 0 <= i < j < |list| ==> Precedes(t, list[i].id, list[j].id)
  }

  lemma {:induction false} PushedMember(t: StepTable, under: Option<string>, n: nat, s: Sibling)
    requires t.Valid() && n <= |t.order| && s in Pushed(t, under, n)
    ensures exists k :: 0 <= k < n && t.order[k] == s.id
  {
    PushedSound(t, under, n);
    var i :| 0 <= i < |Pushed(t, under, n)| && Pushed(t, under, n)[i] == s;
    var k :| 0 <= k < |t.order[..n]| && t.order[..n][k] == s.id;
    assert t.order[k] == s.id;
  }

  lemma {:induction false} PushedInOrder(t: StepTable, under: Option<string>, n: nat, x: Sibling, y: Sibling)
    requires t.Valid() && n <= |t.order| && Before(Pushed(t, under, n), x, y)
    ensures Before(t.order, x.id, y.id)
  {
    if n > 0 {
      var front, id := Pushed(t, under, n - 1), t.order[n - 1];
      if Pushed(t, under, n) == front || Before(front, x, y) {
        PushedInOrder(t, under, n - 1, x, y);
      } else {
        var z := Sibling(id, t.nodes[id].startedAt);
        BeforeSnoc(front, z, x, y);
        PushedMember(t, under, n - 1, x);
      }
    }
  }

  lemma {:induction false} SiblingsInOrder(t: StepTable, under: Option<string>)
    requires t.Valid()
    ensures InOrder(t, Siblings(t, under))
  {
    hide Pushed, Links, Up;
    var p, r := Pushed(t, under, |t.order|), Siblings(t, under);
    SiblingsAre(t, under);
    forall i, j | 0 <= i < j < |r|
      ensures Precedes(t, r[i].id, r[j].id)
    {
      assert Belongs(t, r[i], under) && Belongs(t, r[j], under);
      if r[i].startedAt == r[j].startedAt {
        assert Before(r, r[i], r[j]);
        SortKeepsOrder(SiblingStart, p, r[i], r[j]);
        PushedInOrder(t, under, |t.order|, r[i], r[j]);
      }
    }
  }

  // ---- The lines below a list of siblings ----

  function LinesBelow(t: StepTable, children: map<string, seq<Sibling>>, ids: seq<Sibling>, d: nat): seq<Line>
    requires Linked(t, children) && AllRootedAt(t, ids, d)
  {
    Printed(Forest(t, children, ids, d), d)
  }

  lemma {:induction false} LinesBelowNone(t: StepTable, children: map<string, seq<Sibling>>, d: nat)
    requires Linked(t, children)
    ensures AllRootedAt(t, [], d) && LinesBelow(t, children, [], d) == []
  {
  }

  // The first sibling, the lines below it, and those of the others.
  lemma {:induction false} LinesBelowSplit(t: StepTable, children: map<string, seq<Sibling>>, ids: seq<Sibling>, d: nat)
    requires Linked(t, children) && AllRootedAt(t, ids, d) && ids != []
    requires ids[0].id in t.nodes && AllRootedAt(t, children[ids[0].id], d + 1) && AllRootedAt(t, ids[1..], d)
    ensures LinesBelow(t, children, ids, d)
         == [Line(ids[0].id, t.nodes[ids[0].id].status, d)] + LinesBelow(t, children, children[ids[0].id], d + 1)
            + LinesBelow(t, children, ids[1..], d)
  {
    var below, rest := Forest(t, children, children[ids[0].id], d + 1), Forest(t, children, ids[1..], d);
    var node := StepNode(ids[0].id, t.nodes[ids[0].id].status, t.nodes[ids[0].id].startedAt, below);
    assert Forest(t, children, ids, d) == [node] + rest;
    assert ([node] + rest)[1..] == rest;
  }

  // No line is above depth d, and those at depth d are the siblings.
  ghost predicate AtBase(ids: seq<Sibling>, d: nat, l: Line) {
    l.depth >= d && (l.depth == d ==> exists i :: 0 <= i < |ids| && ids[i].id == l.id)
  }

  lemma {:induction false} BaseJoined(ids: seq<Sibling>, d: nat, head: Line, below: seq<Line>, rest: seq<Line>)
    requires ids != [] && head.id == ids[0].id && head.depth == d
    requires forall l :: l in below ==> l.depth > d
    requires forall l :: l in rest ==> AtBase(ids[1..], d, l)
    ensures forall l :: l in [head] + below + rest ==> AtBase(ids, d, l)
  {
    forall l | l in [head] + below + rest
      ensures AtBase(ids, d, l)
    {
      if l in rest && l.depth == d {
        var i :| 0 <= i < |ids[1..]| && ids[1..][i].id == l.id;
        assert ids[i + 1].id == l.id;
      }
    }
  }

  lemma {:induction false} BaseLines(t: StepTable, children: map<string, seq<Sibling>>, ids: seq<Sibling>, d: nat)
    requires Linked(t, children) && AllRootedAt(t, ids, d)
    ensures forall l :: l in LinesBelow(t, children, ids, d) ==> AtBase(ids, d, l)
    decreases |t.nodes| + 1 - d, |ids|
  {
    if ids == [] {
      LinesBelowNone(t, children, d);
    } else {
      hide LinesBelow, AllRootedAt, Linked, IsSiblingList, RootedAt, Links;
      var first := ids[0].id;
      FirstAndRest(t, children, ids, d);
      BaseLines(t, children, children[first], d + 1);
      BaseLines(t, children, ids[1..], d);
      LinesBelowSplit(t, children, ids, d);
      var below := LinesBelow(t, children, children[first], d + 1);
      assert forall l :: l in below ==> AtBase(children[first], d + 1, l);
      BaseJoined(ids, d, Line(first, t.nodes[first].status, d), below, LinesBelow(t, children, ids[1..], d));
    }
  }

  // ---- Parents ----

  // Line j is the last line of smaller depth before line k; it is one level up and the recorded parent.
  ghost predicate ParentLine(t: StepTable, lines: seq<Line>, j: nat, k: nat) {
    && j < k < |lines| && lines[j].depth + 1 == lines[k].depth
    && Up(Links(t), lines[k].id) == Some(lines[j].id)
    && forall i :: j < i < k ==> lines[i].depth >= lines[k].depth
  }

  ghost predicate HasParentLine(t: StepTable, lines: seq<Line>, k: nat) {
    exists j: nat :: ParentLine(t, lines, j, k)
  }

  ghost predicate AllParented(t: StepTable, lines: seq<Line>, d: nat) {
    forall k: nat :: k < |lines| && lines[k].depth > d ==> HasParentLine(t, lines, k)
  }

  lemma {:induction false} ParentLineMoved(t: StepTable, front: seq<Line>, lines: seq<Line>, back: seq<Line>, j: nat,
        k: nat)
    requires ParentLine(t, lines, j, k)
    ensures ParentLine(t, front + lines + back, |front| + j, |front| + k)
  {
    hide Up, Links;
    var all := front + lines + back;
    assert forall i :: 0 <= i < |lines| ==> all[|front| + i] == lines[i];
    forall i | |front| + j < i < |front| + k
      ensures all[i].depth >= all[|front| + k].depth
    {
      assert all[i] == lines[i - |front|];
    }
  }

  lemma {:induction false} ParentOf(t: StepTable, lines: seq<Line>, d: nat, k: nat) returns (j: nat)
    requires AllParented(t, lines, d) && k < |lines| && lines[k].depth > d
    ensures ParentLine(t, lines, j, k)
  {
    hide ParentLine;
    assert HasParentLine(t, lines, k);
    var i: nat :| ParentLine(t, lines, i, k);
    j := i;
  }

  lemma {:induction false} BelowParented(t: StepTable, head: Line, below: seq<Line>, rest: seq<Line>, l: nat)
    requires AllParented(t, below, head.depth + 1) && l < |below|
    requires forall m :: m in below ==>
               m.depth > head.depth && (m.depth == head.depth + 1 ==> Up(Links(t), m.id) == Some(head.id))
    ensures HasParentLine(t, [head] + below + rest, l + 1)
  {
    hide Up, Links, AllParented, ParentLine;
    assert below[l] in below;
    if below[l].depth > head.depth + 1 {
      var j := ParentOf(t, below, head.depth + 1, l);
      ParentLineMoved(t, [head], below, rest, j, l);
      assert |[head]| == 1;
    } else {
      HeadIsParent(t, head, below, rest, l);
    }
  }

  lemma {:induction false} HeadIsParent(t: StepTable, head: Line, below: seq<Line>, rest: seq<Line>, l: nat)
    requires l < |below| && below[l].depth == head.depth + 1 && Up(Links(t), below[l].id) == Some(head.id)
    requires forall m :: m in below ==> m.depth > head.depth
    ensures ParentLine(t, [head] + below + rest, 0, l + 1)
  {
    hide Up, Links;
    FrontLine(head, below, rest, l + 1);
    forall i | 0 < i < l + 1
      ensures ([head] + below + rest)[i].depth >= head.depth + 1
    {
      FrontLine(head, below, rest, i);
    }
  }

  // A line of the part below the head.
  lemma {:induction false} FrontLine(head: Line, below: seq<Line>, rest: seq<Line>, a: nat)
    requires 0 < a <= |below|
    ensures ([head] + below + rest)[a] == below[a - 1] && below[a - 1] in below
  {
  }

  lemma {:induction false} RestParented(t: StepTable, front: seq<Line>, rest: seq<Line>, d: nat, l: nat)
    requires AllParented(t, rest, d) && l < |rest| && rest[l].depth > d
    ensures HasParentLine(t, front + rest, |front| + l)
  {
    hide AllParented, ParentLine;
    var j := ParentOf(t, rest, d, l);
    ParentLineMoved(t, front, rest, [], j, l);
    assert front + rest + [] == front + rest;
  }

  lemma {:induction false} ParentedJoined(t: StepTable, head: Line, below: seq<Line>, rest: seq<Line>)
    requires AllParented(t, below, head.depth + 1) && AllParented(t, rest, head.depth)
    requires forall l :: l in below ==>
               l.depth > head.depth && (l.depth == head.depth + 1 ==> Up(Links(t), l.id) == Some(head.id))
    ensures AllParented(t, [head] + below + rest, head.depth)
  {
    hide Up, Links, HasParentLine;
    var front := [head] + below;
    var all := front + rest;
    forall k: nat | k < |all| && all[k].depth > head.depth
      ensures HasParentLine(t, all, k)
    {
      if 0 < k <= |below| {
        BelowParented(t, head, below, rest, k - 1);
      } else if k > |below| {
        assert all[k] == rest[k - |front|];
        RestParented(t, front, rest, head.depth, k - |front|);
      }
    }
  }

  lemma {:induction false} LinesParented(t: StepTable, children: map<string, seq<Sibling>>, ids: seq<Sibling>, d: nat)
    requires Linked(t, children) && AllRootedAt(t, ids, d)
    ensures AllParented(t, LinesBelow(t, children, ids, d), d)
    decreases |t.nodes| + 1 - d, |ids|
  {
    if ids == [] {
      LinesBelowNone(t, children, d);
    } else {
      hide LinesBelow, AllRootedAt, Linked, RootedAt, Links, Up, AllParented;
      var first := ids[0].id;
      FirstAndRest(t, children, ids, d);
      LinesParented(t, children, children[first], d + 1);
      LinesParented(t, children, ids[1..], d);
      LinesBelowSplit(t, children, ids, d);
      BaseLines(t, children, children[first], d + 1);
      var below := LinesBelow(t, children, children[first], d + 1);
      forall l | l in below
        ensures l.depth > d && (l.depth == d + 1 ==> Up(Links(t), l.id) == Some(first))
      {
        if l.depth == d + 1 {
          var i :| 0 <= i < |children[first]| && children[first][i].id == l.id;
          assert Belongs(t, children[first][i], Some(first));
        }
      }
      ParentedJoined(t, Line(first, t.nodes[first].status, d), below, LinesBelow(t, children, ids[1..], d));
    }
  }

  // ---- Order ----

  ghost predicate AllInOrder(t: StepTable, lines: seq<Line>) {
    forall a, b :: 0 <= a < b < |lines| && Up(Links(t), lines[a].id) == Up(Links(t), lines[b].id) ==>
      Precedes(t, lines[a].id, lines[b].id)
  }

  ghost predicate ChildrenInOrder(t: StepTable, children: map<string, seq<Sibling>>) {
    forall id {:trigger children[id]} :: id in children ==> InOrder(t, children[id])
  }

  lemma {:induction false} OrderJoined(t: StepTable, head: Line, below: seq<Line>, rest: seq<Line>)
    requires AllInOrder(t, below) && AllInOrder(t, rest)
    requires forall l :: l in below ==> Up(Links(t), l.id) != Up(Links(t), head.id)
    requires forall l :: l in rest && Up(Links(t), l.id) == Up(Links(t), head.id) ==> Precedes(t, head.id, l.id)
    requires forall l, m :: l in below && m in rest ==> Up(Links(t), l.id) != Up(Links(t), m.id)
    ensures AllInOrder(t, [head] + below + rest)
  {
    hide Up, Links, Precedes;
    var front := [head] + below;
    var all := front + rest;
    forall a, b | 0 <= a < b < |all| && Up(Links(t), all[a].id) == Up(Links(t), all[b].id)
      ensures Precedes(t, all[a].id, all[b].id)
    {
      if b < |front| {
        FrontLine(head, below, rest, b);
        if a > 0 {
          FrontLine(head, below, rest, a);
        }
      } else if a < |front| {
        assert all[b] == rest[b - |front|] && rest[b - |front|] in rest;
        if a > 0 {
          FrontLine(head, below, rest, a);
        }
      } else {
        assert all[b] == rest[b - |front|] && all[a] == rest[a - |front|];
      }
    }
  }

  lemma {:induction false} OccursIn(lines: seq<Line>, l: Line)
    requires l in lines
    ensures Occurrences(lines, l.id) > 0
  {
    if l != lines[0] {
      OccursIn(lines[1..], l);
    }
  }

  // A line below siblings at depth d has one of them as its ancestor at that depth.
  lemma {:induction false} LineAncestor(t: StepTable, children: map<string, seq<Sibling>>, ids: seq<Sibling>, d: nat,
        l: Line)
    requires Linked(t, children) && AllRootedAt(t, ids, d) && l in LinesBelow(t, children, ids, d)
    ensures l.id in t.nodes && RootedAt(Links(t), l.id, l.depth) && l.depth >= d
    ensures exists i :: 0 <= i < |ids| && AtDepth(Links(t), l.id, l.depth, d) == Some(ids[i].id)
  {
    hide AllRootedAt, Linked, RootedAt, Links, AtDepth;
    LinesRooted(t, children, ids, d);
    BaseLines(t, children, ids, d);
    LinesOnce(t, children, ids, d, l.id, l.depth);
    OccursIn(LinesBelow(t, children, ids, d), l);
    ListedSomewhere(ids, AtDepth(Links(t), l.id, l.depth, d));
  }

  lemma {:induction false} ListedSomewhere(list: seq<Sibling>, id: Option<string>)
    requires TimesListed(list, id) > 0
    ensures exists i :: 0 <= i < |list| && id == Some(list[i].id)
  {
    if id != Some(list[0].id) {
      ListedSomewhere(list[1..], id);
      var i :| 0 <= i < |list[1..]| && id == Some(list[1..][i].id);
      assert list[i + 1] == list[1..][i];
    }
  }

  // Steps with the same parent are at the same depth and have the same ancestors above them.
  lemma {:induction false} SameParent(g: Graph<string>, x: string, y: string, e: nat, f: nat, d: nat)
    requires x in g && y in g && RootedAt(g, x, e) && RootedAt(g, y, f) && Up(g, x) == Up(g, y)
    ensures e == f
    ensures e > d ==> AtDepth(g, x, e, d) == AtDepth(g, y, f, d)
  {
    RootedHeight(g, x, e);
    RootedHeight(g, y, f);
    if Up(g, x).Some? {
      assert e > 0 && f > 0;
      var p := Up(g, x).value;
      RootedHeight(g, p, e - 1);
      RootedHeight(g, p, f - 1);
    }
  }

  lemma {:induction false} LinesOrdered(t: StepTable, children: map<string, seq<Sibling>>, ids: seq<Sibling>, d: nat)
    requires Linked(t, children) && AllRootedAt(t, ids, d) && ChildrenInOrder(t, children) && InOrder(t, ids)
    requires forall i, j :: 0 <= i < j < |ids| ==> ids[i].id != ids[j].id
    ensures AllInOrder(t, LinesBelow(t, children, ids, d))
    decreases |t.nodes| + 1 - d, |ids|
  {
    if ids == [] {
      LinesBelowNone(t, children, d);
    } else {
      hide LinesBelow, AllRootedAt, Linked, RootedAt, Links, Up, AllInOrder, InOrder, IsSiblingList;
      var first := ids[0].id;
      FirstAndRest(t, children, ids, d);
      SiblingsDistinct(t, children[first], Some(first));
      LinesOrdered(t, children, children[first], d + 1);
      OthersInOrder(t, ids);
      LinesOrdered(t, children, ids[1..], d);
      LinesBelowSplit(t, children, ids, d);
      PartsApart(t, children, ids, d);
      OrderJoined(t, Line(first, t.nodes[first].status, d), LinesBelow(t, children, children[first], d + 1),
                  LinesBelow(t, children, ids[1..], d));
    }
  }

  lemma {:induction false} SiblingsDistinct(t: StepTable, list: seq<Sibling>, under: Option<string>)
    requires IsSiblingList(t, list, under)
    ensures forall i, j :: 0 <= i < j < |list| ==> list[i].id != list[j].id
  {
  }

  lemma {:induction false} OthersInOrder(t: StepTable, ids: seq<Sibling>)
    requires ids != [] && InOrder(t, ids) && forall i, j :: 0 <= i < j < |ids| ==> ids[i].id != ids[j].id
    ensures InOrder(t, ids[1..]) && forall i, j :: 0 <= i < j < |ids[1..]| ==> ids[1..][i].id != ids[1..][j].id
  {
    hide Precedes;
    assert forall i :: 0 <= i < |ids[1..]| ==> ids[1..][i] == ids[i + 1];
  }

  // How the lines of the first sibling, those below it and those of the others are related.
  lemma {:induction false} PartsApart(t: StepTable, children: map<string, seq<Sibling>>, ids: seq<Sibling>, d: nat)
    requires Linked(t, children) && AllRootedAt(t, ids, d) && ids != [] && InOrder(t, ids)
    requires forall i, j :: 0 <= i < j < |ids| ==> ids[i].id != ids[j].id
    requires ids[0].id in t.nodes && ids[0].id in children && RootedAt(Links(t), ids[0].id, d)
    requires AllRootedAt(t, children[ids[0].id], d + 1) && IsSiblingList(t, children[ids[0].id], Some(ids[0].id))
    requires AllRootedAt(t, ids[1..], d)
    ensures var g, first := Links(t), ids[0].id;
            var below, rest := LinesBelow(t, children, children[first], d + 1), LinesBelow(t, children, ids[1..], d);
            && (forall l :: l in below ==> Up(g, l.id) != Up(g, first))
            && (forall l :: l in rest && Up(g, l.id) == Up(g, first) ==> Precedes(t, first, l.id))
            && (forall l, m :: l in below && m in rest ==> Up(g, l.id) != Up(g, m.id))
  {
    hide LinesBelow, AllRootedAt, Linked, Links, Up, Precedes, AtDepth;
    var g, first := Links(t), ids[0].id;
    var below, rest := LinesBelow(t, children, children[first], d + 1), LinesBelow(t, children, ids[1..], d);
    forall l | l in below
      ensures Up(g, l.id) != Up(g, first)
    {
      BelowIsDeeper(t, children, ids, d, l);
    }
    forall l | l in rest && Up(g, l.id) == Up(g, first)
      ensures Precedes(t, first, l.id)
    {
      LineAncestor(t, children, ids[1..], d, l);
      LinksKeys(t);
      SameParent(g, first, l.id, d, l.depth, 0);
      BaseLines(t, children, ids[1..], d);
      var i :| 0 <= i < |ids[1..]| && ids[1..][i].id == l.id;
      assert ids[i + 1].id == l.id;
    }
    forall l, m | l in below && m in rest
      ensures Up(g, l.id) != Up(g, m.id)
    {
      SubtreesApart(t, children, ids, d, l, m);
    }
  }

  lemma {:induction false} LinksKeys(t: StepTable)
    ensures Links(t).Keys == t.nodes.Keys
  {
  }

  lemma {:induction false} BelowIsDeeper(t: StepTable, children: map<string, seq<Sibling>>, ids: seq<Sibling>, d: nat,
        l: Line)
    requires Linked(t, children) && ids != [] && ids[0].id in t.nodes && ids[0].id in children
    requires RootedAt(Links(t), ids[0].id, d) && AllRootedAt(t, children[ids[0].id], d + 1)
    requires l in LinesBelow(t, children, children[ids[0].id], d + 1)
    ensures Up(Links(t), l.id) != Up(Links(t), ids[0].id)
  {
    hide LinesBelow, AllRootedAt, Linked, Links, Up, AtDepth;
    LineAncestor(t, children, children[ids[0].id], d + 1, l);
    LinksKeys(t);
    if Up(Links(t), l.id) == Up(Links(t), ids[0].id) {
      SameParent(Links(t), ids[0].id, l.id, d, l.depth, 0);
    }
  }

  lemma {:induction false} SubtreesApart(t: StepTable, children: map<string, seq<Sibling>>, ids: seq<Sibling>, d: nat,
        l: Line, m: Line)
    requires Linked(t, children) && ids != [] && ids[0].id in t.nodes && ids[0].id in children
    requires AllRootedAt(t, ids[1..], d) && forall i, j :: 0 <= i < j < |ids| ==> ids[i].id != ids[j].id
    requires AllRootedAt(t, children[ids[0].id], d + 1) && IsSiblingList(t, children[ids[0].id], Some(ids[0].id))
    requires l in LinesBelow(t, children, children[ids[0].id], d + 1) && m in LinesBelow(t, children, ids[1..], d)
    ensures Up(Links(t), l.id) != Up(Links(t), m.id)
  {
    hide LinesBelow, AllRootedAt, Linked, Links, Up, AtDepth;
    var g, first := Links(t), ids[0].id;
    assert forall j :: 0 <= j < |ids[1..]| ==> ids[1..][j] == ids[j + 1];
    LineAncestor(t, children, children[first], d + 1, l);
    LineAncestor(t, children, ids[1..], d, m);
    LinksKeys(t);
    if Up(g, l.id) == Up(g, m.id) {
      SameParent(g, l.id, m.id, l.depth, m.depth, d);
      var i :| 0 <= i < |children[first]| && AtDepth(g, l.id, l.depth, d + 1) == Some(children[first][i].id);
      assert Belongs(t, children[first][i], Some(first));
      NextAtDepth(g, l.id, l.depth, d);
    }
  }

  // ---- The printed tree ----

  // Each line below a root stands under its recorded parent: that is the last line before it of smaller depth.
  lemma {:induction false} LineUnderParent(events: seq<TraceEvent>, k: nat) returns (j: nat)
    requires k < |Printed(TreeOf(events), 0)| && Printed(TreeOf(events), 0)[k].depth > 0
    ensures ParentLine(Load(events), Printed(TreeOf(events), 0), j, k)
  {
    var t := Load(events);
    TreeLinked(t);
    LinesParented(t, ChildrenOf(t), Siblings(t, None), 0);
    assert Printed(TreeOf(events), 0) == LinesBelow(t, ChildrenOf(t), Siblings(t, None), 0);
    j := ParentOf(t, Printed(TreeOf(events), 0), 0, k);
  }

  // Of two lines with the same recorded parent, or without one, the earlier started first, or at the same time and then
  // its first start row comes first.
  lemma {:induction false} LinesByStart(events: seq<TraceEvent>, a: nat, b: nat)
    requires a < b < |Printed(TreeOf(events), 0)|
    requires var lines, g := Printed(TreeOf(events), 0), Links(Load(events)); Up(g, lines[a].id) == Up(g, lines[b].id)
    ensures var x, y := Printed(TreeOf(events), 0)[a].id, Printed(TreeOf(events), 0)[b].id;
            forall s: nat, r: nat, i: nat, j: nat ::
              && LastStart(events, x, s) && LastStart(events, y, r)
              && FirstStart(events, x, i) && FirstStart(events, y, j) ==>
                events[s].startTime < events[r].startTime || (events[s].startTime == events[r].startTime && i < j)
  {
    var t := Load(events);
    TreeInOrder(t);
    hide Load, Printed, ChildrenOf, Siblings, Precedes, Links, LinesBelow;
    var lines := Printed(TreeOf(events), 0);
    TreeIsLines(events);
    PrecedesByRows(events, lines[a].id, lines[b].id);
  }

  lemma {:induction false} TreeIsLines(events: seq<TraceEvent>)
    ensures var t := Load(events);
            && Linked(t, ChildrenOf(t)) && AllRootedAt(t, Siblings(t, None), 0)
            && Printed(TreeOf(events), 0) == LinesBelow(t, ChildrenOf(t), Siblings(t, None), 0)
  {
    TreeLinked(Load(events));
  }

  lemma {:induction false} TreeInOrder(t: StepTable)
    requires t.Valid()
    ensures Linked(t, ChildrenOf(t)) && AllRootedAt(t, Siblings(t, None), 0)
    ensures AllInOrder(t, LinesBelow(t, ChildrenOf(t), Siblings(t, None), 0))
  {
    hide Siblings, Precedes, LinesBelow, InOrder, Linked, AllInOrder;
    TreeLinked(t);
    SiblingsInOrder(t, None);
    SiblingsAre(t, None);
    var children := ChildrenOf(t);
    forall id {:trigger children[id]} | id in children
      ensures InOrder(t, children[id])
    {
      SiblingsInOrder(t, Some(id));
    }
    LinesOrdered(t, children, Siblings(t, None), 0);
  }

  lemma {:induction false} PrecedesByRows(events: seq<TraceEvent>, x: string, y: string)
    requires Precedes(Load(events), x, y)
    ensures forall s: nat, r: nat, i: nat, j: nat ::
              && LastStart(events, x, s) && LastStart(events, y, r)
              && FirstStart(events, x, i) && FirstStart(events, y, j) ==>
                events[s].startTime < events[r].startTime || (events[s].startTime == events[r].startTime && i < j)
  {
    var t := Load(events);
    forall s: nat, r: nat, i: nat, j: nat |
      LastStart(events, x, s) && LastStart(events, y, r) && FirstStart(events, x, i) && FirstStart(events, y, j)
      ensures events[s].startTime < events[r].startTime || (events[s].startTime == events[r].startTime && i < j)
    {
      StartedAt(events, x, s);
      StartedAt(events, y, r);
      if t.nodes[x].startedAt == t.nodes[y].startedAt {
        var k, l :| 0 <= k < l < |t.order| && t.order[k] == x && t.order[l] == y;
        TableOrder(events, k, l, i, j);
      }
    }
  }

  lemma {:induction false} StartedAt(events: seq<TraceEvent>, id: string, s: nat)
    requires LastStart(events, id, s)
    ensures id in Load(events).nodes && Load(events).nodes[id].startedAt == events[s].startTime
  {
    LoadMeaning(events, id);
    if c :| 0 <= c < |events| && events[c].StepCompleted? && events[c].stepId == id {
      var last := LastCompletionExists(events, c);
    }
  }

  // ---- The error view ----

  // The first line, or one of those below it in the tree, is about a failed step.
  predicate LeadsToError(lines: seq<Line>)
    requires lines != []
  {
    exists j :: 0 <= j < |lines| && lines[j].status == Error
                && forall i :: 0 < i <= j ==> lines[i].depth > lines[0].depth
  }

  // The lines from which the lines below lead to a failure.
  function Leading(lines: seq<Line>): seq<Line> {
    if lines == [] then [] else (if LeadsToError(lines) then [lines[0]] else []) + Leading(lines[1..])
  }

  lemma {:induction false} PrintedDeep(forest: seq<StepNode>, depth: nat)
    ensures forall l :: l in Printed(forest, depth) ==> l.depth >= depth
  {
    if forest != [] {
      PrintedDeep(forest[0].children, depth + 1);
      PrintedDeep(forest[1..], depth);
    }
  }

  lemma {:induction false} PrintedErrors(forest: seq<StepNode>, depth: nat)
    ensures (exists l :: l in Printed(forest, depth) && l.status == Error)
            <==> exists i :: 0 <= i < |forest| && HasError(forest[i])
  {
    if forest != [] {
      var head := Line(forest[0].id, forest[0].status, depth);
      var below, rest := Printed(forest[0].children, depth + 1), Printed(forest[1..], depth);
      PrintedErrors(forest[0].children, depth + 1);
      PrintedErrors(forest[1..], depth);
      assert forall l :: l in Printed(forest, depth) <==> l == head || l in below || l in rest;
      assert HasError(forest[0]) <==> head.status == Error || exists l :: l in below && l.status == Error;
      assert forall i :: 0 <= i < |forest[1..]| ==> forest[1..][i] == forest[i + 1];
    }
  }

  // The lines below a head reach as far as they are deeper than it.
  lemma {:induction false} HeadLeads(head: Line, below: seq<Line>, rest: seq<Line>)
    requires forall l :: l in below ==> l.depth > head.depth
    requires rest != [] ==> rest[0].depth <= head.depth
    ensures LeadsToError([head] + below + rest) <==> head.status == Error || exists l :: l in below && l.status == Error
  {
    var all := [head] + below + rest;
    if LeadsToError(all) {
      var j :| 0 <= j < |all| && all[j].status == Error && forall i :: 0 < i <= j ==> all[i].depth > all[0].depth;
      assert rest != [] ==> all[|below| + 1] == rest[0];
      if 0 < j <= |below| {
        FrontLine(head, below, rest, j);
      }
    }
    if head.status == Error {
      assert all[0] == head;
    } else if l :| l in below && l.status == Error {
      var k :| 0 <= k < |below| && below[k] == l;
      FrontLine(head, below, rest, k + 1);
      forall i | 0 < i <= k + 1
        ensures all[i].depth > all[0].depth
      {
        FrontLine(head, below, rest, i);
      }
    }
  }

  lemma {:induction false} FirstLeads(node: StepNode, depth: nat, after: seq<Line>)
    requires after != [] ==> after[0].depth <= depth
    ensures var head, below := Line(node.id, node.status, depth), Printed(node.children, depth + 1);
            Leading([head] + below + after) == (if HasError(node) then [head] else []) + Leading(below + after)
  {
    var head, below := Line(node.id, node.status, depth), Printed(node.children, depth + 1);
    PrintedDeep(node.children, depth + 1);
    HeadLeads(head, below, after);
    PrintedErrors(node.children, depth + 1);
    hide LeadsToError;
    assert ([head] + below + after)[1..] == below + after;
  }

  lemma {:induction false} AfterSiblings(forest: seq<StepNode>, depth: nat, rest: seq<Line>)
    requires rest != [] ==> rest[0].depth <= depth
    ensures var after := Printed(forest, depth) + rest; after != [] ==> after[0].depth <= depth
  {
    assert forest == [] ==> Printed(forest, depth) + rest == rest;
    assert forest != [] ==> Printed(forest, depth)[0].depth == depth;
  }

  lemma {:induction false} FirstAndOthers(forest: seq<StepNode>, depth: nat, rest: seq<Line>)
    requires forest != []
    ensures var head := Line(forest[0].id, forest[0].status, depth);
            && Printed(forest, depth) + rest
               == [head] + Printed(forest[0].children, depth + 1) + (Printed(forest[1..], depth) + rest)
            && ErrorLines(forest, depth)
               == (if HasError(forest[0]) then [head] else []) + ErrorLines(forest[0].children, depth + 1)
                  + ErrorLines(forest[1..], depth)
  {
  }

  lemma {:induction false} Regrouped(a: seq<Line>, b: seq<Line>, c: seq<Line>, d: seq<Line>)
    ensures a + (b + (c + d)) == a + b + c + d
  {
  }

  lemma {:induction false} ErrorLinesLead(forest: seq<StepNode>, depth: nat, rest: seq<Line>)
    requires rest != [] ==> rest[0].depth <= depth
    ensures Leading(Printed(forest, depth) + rest) == ErrorLines(forest, depth) + Leading(rest)
    decreases forest
  {
    if forest == [] {
      assert Printed(forest, depth) + rest == rest;
    } else {
      hide Leading, HasError, Printed, ErrorLines;
      var first := if HasError(forest[0]) then [Line(forest[0].id, forest[0].status, depth)] else [];
      var after := Printed(forest[1..], depth) + rest;
      AfterSiblings(forest[1..], depth, rest);
      ErrorLinesLead(forest[1..], depth, rest);
      ErrorLinesLead(forest[0].children, depth + 1, after);
      FirstLeads(forest[0], depth, after);
      FirstAndOthers(forest, depth, rest);
      Regrouped(first, ErrorLines(forest[0].children, depth + 1), ErrorLines(forest[1..], depth), Leading(rest));
    }
  }

  // The error view prints exactly the lines that lead to a failure, in the same order and with the same indentation.
  lemma {:induction false} PruneByLines(forest: seq<StepNode>, depth: nat)
    ensures Printed(PruneErrorTree(forest), depth) == Leading(Printed(forest, depth))
  {
    PruneKeepsErrorLines(forest, depth);
    ErrorLinesLead(forest, depth, []);
    assert Printed(forest, depth) + [] == Printed(forest, depth);
  }
}
