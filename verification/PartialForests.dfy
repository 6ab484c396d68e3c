// The trees that the rows of an interrupted process rebuild.
module PartialForests {
  import opened Wrappers
  import opened Protocol
  import opened ProtocolFailures
  import opened CallTree
  import opened CallTreeRuns
  import opened StoredRows
  import opened Forests

  // The trees in a, children of t, are found in b, each in a place of its own and possibly with fewer children.
  ghost predicate Within(t: Tree, a: multiset<Tree>, b: multiset<Tree>)
    requires a <= t.children
    decreases t, |a|
  {
    a == multiset{}
    || exists c, u :: c in a && u in b && SameLabel(c, u)
                      && Within(c, c.children, u.children) && Within(t, a - multiset{c}, b - multiset{u})
  }

  predicate SameLabel(t: Tree, u: Tree) {
    t.name == u.name && t.isRun == u.isRun
  }

  ghost predicate PartTree(t: Tree, u: Tree) {
    SameLabel(t, u) && Within(t, t.children, u.children)
  }

  ghost predicate Part(a: multiset<Tree>, b: multiset<Tree>) {
    Within(Tree("", false, a), a, b)
  }

  lemma {:induction false} FirstPair(t: Tree, a: multiset<Tree>, b: multiset<Tree>) returns (c: Tree, u: Tree)
    requires a <= t.children && a != multiset{} && Within(t, a, b)
    ensures c in a && u in b && PartTree(c, u) && Within(t, a - multiset{c}, b - multiset{u})
    ensures |a - multiset{c}| < |a|
  {
    c, u :| c in a && u in b && SameLabel(c, u) && Within(c, c.children, u.children)
            && Within(t, a - multiset{c}, b - multiset{u});
  }

  lemma {:induction false} OnePair(t: Tree, a: multiset<Tree>, b: multiset<Tree>, c: Tree, u: Tree)
    requires a <= t.children && c in a && u in b && PartTree(c, u) && Within(t, a - multiset{c}, b - multiset{u})
    ensures Within(t, a, b)
  {
  }

  lemma {:induction false} WithinAny(t: Tree, other: Tree, a: multiset<Tree>, b: multiset<Tree>)
    requires a <= t.children && a <= other.children && Within(t, a, b)
    ensures Within(other, a, b)
    decreases |a|
  {
    hide Within, PartTree;
    if a == multiset{} {
      NothingWithin(other, b);
    } else {
      var c, u := FirstPair(t, a, b);
      WithinAny(t, other, a - multiset{c}, b - multiset{u});
      OnePair(other, a, b, c, u);
    }
  }

  lemma {:induction false} NothingWithin(t: Tree, b: multiset<Tree>)
    ensures Within(t, multiset{}, b)
  {
  }

  lemma {:induction false} Swapped(b: multiset<Tree>, u: Tree, extra: Tree)
    requires u in b
    ensures u in b + multiset{extra} && b - multiset{u} + multiset{extra} == b + multiset{extra} - multiset{u}
  {
  }

  lemma {:induction false} WithinMore(t: Tree, a: multiset<Tree>, b: multiset<Tree>, extra: Tree)
    requires a <= t.children && Within(t, a, b)
    ensures Within(t, a, b + multiset{extra})
    decreases |a|
  {
    hide Within, PartTree;
    if a == multiset{} {
      NothingWithin(t, b + multiset{extra});
    } else {
      var c, u := FirstPair(t, a, b);
      WithinMore(t, a - multiset{c}, b - multiset{u}, extra);
      Swapped(b, u, extra);
      OnePair(t, a, b + multiset{extra}, c, u);
    }
  }

  lemma {:induction false} PartAdds(a: multiset<Tree>, b: multiset<Tree>, t: Tree, u: Tree)
    requires Part(a, b) && PartTree(t, u)
    ensures Part(a + multiset{t}, b + multiset{u})
  {
    hide Within, PartTree;
    var more := a + multiset{t};
    WithinAny(Tree("", false, a), Tree("", false, more), a, b);
    assert more - multiset{t} == a && b + multiset{u} - multiset{u} == b;
    OnePair(Tree("", false, more), more, b + multiset{u}, t, u);
  }

  // ---- Rows left out ----

  // The first row of b is left out of a, or is the first of a too.
  lemma {:induction false} FirstRow(a: seq<Row>, b: seq<Row>)
    requires Subsequence(a, b) && b != []
    ensures Subsequence(a, b[1..]) || (a != [] && a[0] == b[0] && Subsequence(a[1..], b[1..]))
    decreases |b|
  {
    var front := b[..|b| - 1];
    if |b| > 1 && a != [] {
      assert b[1..][..|b[1..]| - 1] == front[1..];
      if a[|a| - 1] == b[|b| - 1] {
        FirstRow(a[..|a| - 1], front);
        if |a| > 1 {
          assert a[1..][..|a[1..]| - 1] == a[..|a| - 1][1..];
        }
      } else {
        FirstRow(a, front);
      }
    }
  }

  // Rows left out of a log only take trees away, with all that is below them.
  lemma {:induction false} BelowPart(a: seq<Row>, b: seq<Row>, at: Place)
    requires Subsequence(a, b)
    ensures Part(Below(a, at), Below(b, at)) && Part(Rebuilt(a), Rebuilt(b))
    decreases |b|
  {
    if b != [] {
      FirstRow(a, b);
      if Subsequence(a, b[1..]) {
        BelowPart(a, b[1..], at);
        RowSkipped(a, b, at);
      } else {
        BelowPart(a[1..], b[1..], at);
        if IsStart(b[0]) {
          BelowPart(a[1..], b[1..], PlaceOf(b[0]));
        }
        RowKept(a, b, at);
      }
    }
  }

  // The tree of the first row, read in the rows after it.
  function FirstTree(rows: seq<Row>): Tree
    requires rows != [] && IsStart(rows[0])
  {
    Tree(rows[0].name, rows[0].RunStarted?, Below(rows[1..], PlaceOf(rows[0])))
  }

  lemma {:induction false} FirstOfForest(rows: seq<Row>, at: Place)
    requires rows != []
    ensures Below(rows, at) ==
            if ChildRow(rows[0], at) then Below(rows[1..], at) + multiset{FirstTree(rows)} else Below(rows[1..], at)
    ensures Rebuilt(rows) ==
            if rows[0].RunStarted? then Rebuilt(rows[1..]) + multiset{FirstTree(rows)} else Rebuilt(rows[1..])
  {
  }

  lemma {:induction false} RowSkipped(a: seq<Row>, b: seq<Row>, at: Place)
    requires b != [] && Part(Below(a, at), Below(b[1..], at)) && Part(Rebuilt(a), Rebuilt(b[1..]))
    ensures Part(Below(a, at), Below(b, at)) && Part(Rebuilt(a), Rebuilt(b))
  {
    FirstOfForest(b, at);
    hide Part, Below, Rebuilt, FirstTree;
    if ChildRow(b[0], at) {
      PartMore(Below(a, at), Below(b[1..], at), FirstTree(b));
    }
    if b[0].RunStarted? {
      PartMore(Rebuilt(a), Rebuilt(b[1..]), FirstTree(b));
    }
  }

  lemma {:induction false} PartMore(a: multiset<Tree>, b: multiset<Tree>, extra: Tree)
    requires Part(a, b)
    ensures Part(a, b + multiset{extra})
  {
    WithinMore(Tree("", false, a), a, b, extra);
  }

  lemma {:induction false} RowKept(a: seq<Row>, b: seq<Row>, at: Place)
    requires a != [] && b != [] && a[0] == b[0]
    requires Part(Below(a[1..], at), Below(b[1..], at)) && Part(Rebuilt(a[1..]), Rebuilt(b[1..]))
    requires IsStart(b[0]) ==> Part(Below(a[1..], PlaceOf(b[0])), Below(b[1..], PlaceOf(b[0])))
    ensures Part(Below(a, at), Below(b, at)) && Part(Rebuilt(a), Rebuilt(b))
  {
    FirstOfForest(a, at);
    FirstOfForest(b, at);
    if IsStart(b[0]) {
      FirstPart(a, b);
    }
    hide Part, PartTree, Below, Rebuilt, FirstTree;
    if ChildRow(b[0], at) {
      PartAdds(Below(a[1..], at), Below(b[1..], at), FirstTree(a), FirstTree(b));
    }
    if b[0].RunStarted? {
      PartAdds(Rebuilt(a[1..]), Rebuilt(b[1..]), FirstTree(a), FirstTree(b));
    }
  }

  lemma {:induction false} FirstPart(a: seq<Row>, b: seq<Row>)
    requires a != [] && b != [] && a[0] == b[0] && IsStart(b[0])
    requires Part(Below(a[1..], PlaceOf(b[0])), Below(b[1..], PlaceOf(b[0])))
    ensures PartTree(FirstTree(a), FirstTree(b))
  {
    var c := Below(a[1..], PlaceOf(b[0]));
    WithinAny(Tree("", false, c), FirstTree(a), c, Below(b[1..], PlaceOf(b[0])));
  }

  // ---- Interrupted processes ----

  lemma {:induction false} SubsequenceOf<T>(a: seq<T>, b: seq<T>, c: seq<T>)
    requires Subsequence(a, b) && Subsequence(b, c)
    ensures Subsequence(a, c)
    decreases |c|
  {
    if a != [] && c != [] {
      var d, last := c[..|c| - 1], c[|c| - 1];
      if b[|b| - 1] != last {
        SubsequenceOf(a, b, d);
        SubsequenceSkip(a, d, last);
        assert c == d + [last];
      } else if a[|a| - 1] == last {
        SubsequenceOf(a[..|a| - 1], b[..|b| - 1], d);
      } else {
        SubsequenceOf(a, b[..|b| - 1], d);
      }
    }
  }

  lemma {:induction false} AttemptedGrows(p: Prog, moves: seq<Move>, more: seq<Move>)
    ensures Subsequence(Exec(p, moves).attempted, Exec(p, moves + more).attempted)
    decreases |more|
  {
    if more == [] {
      assert moves + more == moves;
      Itself(Exec(p, moves).attempted);
    } else {
      var n := |more| - 1;
      AttemptedGrows(p, moves, more[..n]);
      ExecSnoc(p, moves + more[..n], more[n]);
      assert moves + more == moves + more[..n] + [more[n]];
      NextGrows(Exec(p, moves).attempted, Exec(p, moves + more[..n]), more[n]);
    }
  }

  lemma {:induction false} Itself<T>(a: seq<T>)
    ensures Subsequence(a, a)
  {
    if a != [] {
      Itself(a[..|a| - 1]);
    }
  }

  lemma {:induction false} NextGrows(rows: seq<Row>, c: Config, m: Move)
    requires Subsequence(rows, c.attempted)
    ensures Subsequence(rows, Next(c, m).attempted)
  {
    hide Enabled, Subsequence;
    if Enabled(c, m).Some? && Enabled(c, m).value.row.Some? {
      SubsequenceSkip(rows, c.attempted, Enabled(c, m).value.row.value);
    } else {
      assert c.attempted + [] == c.attempted;
    }
  }

  // Whenever the process is interrupted: the trees that the rows handed over, or those of them that were
  // stored, rebuild are part of the call trees of a complete derivation, of any course on which the process
  // would have come to its end.
  lemma {:induction false} InterruptedForest(p: Prog, moves: seq<Move>, more: seq<Move>)
    requires AllContained(moves + more) && Finished(Exec(p, moves + more))
    ensures exists d ::
              && Observed(p, {}, d, Exec(p, moves + more).main.outcome) && Complete(d)
              && Part(Rebuilt(Exec(p, moves).attempted), RunsIn(p, {}, d))
              && Part(Rebuilt(Exec(p, moves).disk), RunsIn(p, {}, d))
  {
    CallTreeRebuilt(p, moves + more);
    var c, end := Exec(p, moves), Exec(p, moves + more);
    AttemptedGrows(p, moves, more);
    DiskIsPart(p, moves);
    hide Exec, Observed, Complete, RunsIn, Part, Rebuilt, Below, Subsequence;
    SubsequenceOf(c.disk, c.attempted, end.attempted);
    BelowPart(c.attempted, end.attempted, Place(0, None));
    BelowPart(c.disk, end.attempted, Place(0, None));
  }
}
