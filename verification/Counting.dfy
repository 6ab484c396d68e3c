// Counting the elements of a sequence: those that satisfy a property, and the occurrences of an id.
module Counting {
  import opened Wrappers

  function Count<T>(p: T -> bool, s: seq<T>): (n: nat)
    ensures n <= |s|
  {
    if s == [] then 0 else Count(p, s[..|s| - 1]) + (if p(s[|s| - 1]) then 1 else 0)
  }

  lemma {:induction false} CountSnoc<T>(p: T -> bool, s: seq<T>, x: T)
    ensures Count(p, s + [x]) == Count(p, s) + (if p(x) then 1 else 0)
  {
    assert (s + [x])[..|s|] == s;
  }

  lemma {:induction false} CountConcat<T>(p: T -> bool, a: seq<T>, b: seq<T>)
    ensures Count(p, a + b) == Count(p, a) + Count(p, b)
  {
    if b == [] {
      assert a + b == a;
    } else {
      assert a + b == (a + b[..|b| - 1]) + [b[|b| - 1]];
      CountSnoc(p, a + b[..|b| - 1], b[|b| - 1]);
      CountConcat(p, a, b[..|b| - 1]);
    }
  }

  lemma {:induction false} RemoveOne<T>(front: seq<T>, x: T, b: seq<T>, k: nat)
    requires multiset(front + [x]) == multiset(b)
    requires k < |b| && b[k] == x
    ensures multiset(b[..k] + b[k + 1..]) == multiset(front)
  {
    assert b == b[..k] + [x] + b[k + 1..];
    assert multiset(b) == multiset(b[..k] + b[k + 1..]) + multiset{x};
    assert multiset(front) == multiset(front + [x]) - multiset{x};
  }

  // Counting does not depend on the order of the elements.
  lemma {:induction false} CountPermuted<T>(p: T -> bool, a: seq<T>, b: seq<T>)
    requires multiset(a) == multiset(b)
    ensures Count(p, a) == Count(p, b)
    decreases |a|
  {
    if a == [] {
      assert |multiset(b)| == |b|;
    } else {
      var front, x := a[..|a| - 1], a[|a| - 1];
      assert a == front + [x];
      var k := Locate(b, x);
      RemoveOne(front, x, b, k);
      CountPermuted(p, front, b[..k] + b[k + 1..]);
      CountWithout(p, b, k);
    }
  }

  lemma {:induction false} Locate<T>(b: seq<T>, x: T) returns (k: nat)
    requires x in multiset(b)
    ensures k < |b| && b[k] == x
  {
    k :| 0 <= k < |b| && b[k] == x;
  }

  lemma {:induction false} CountWithout<T>(p: T -> bool, b: seq<T>, k: nat)
    requires k < |b|
    ensures Count(p, b) == Count(p, b[..k] + b[k + 1..]) + (if p(b[k]) then 1 else 0)
  {
    assert b == (b[..k] + [b[k]]) + b[k + 1..];
    CountConcat(p, b[..k], b[k + 1..]);
    CountConcat(p, b[..k] + [b[k]], b[k + 1..]);
    CountSnoc(p, b[..k], b[k]);
  }

  // ---- Occurrences of an id ----

  function Eq(id: nat, x: nat): nat {
    if id == x then 1 else 0
  }

  function EqSome(id: Option<nat>, x: nat): nat {
    if id == Some(x) then 1 else 0
  }

  function Times(ids: seq<nat>, x: nat): nat {
    if ids == [] then 0 else Times(ids[..|ids| - 1], x) + Eq(ids[|ids| - 1], x)
  }

  lemma {:induction false} TimesSnoc(ids: seq<nat>, id: Option<nat>, x: nat)
    ensures Times(ids + ToSeq(id), x) == Times(ids, x) + EqSome(id, x)
  {
    if id.Some? {
      assert (ids + [id.value])[..|ids|] == ids;
    } else {
      assert ids + [] == ids;
    }
  }

  lemma {:induction false} TimesConcat(a: seq<nat>, b: seq<nat>, x: nat)
    ensures Times(a + b, x) == Times(a, x) + Times(b, x)
  {
    if b == [] {
      assert a + b == a;
    } else {
      assert (a + b)[..|a + b| - 1] == a + b[..|b| - 1];
      TimesConcat(a, b[..|b| - 1], x);
    }
  }

  lemma {:induction false} TimesIn(ids: seq<nat>, x: nat)
    ensures Times(ids, x) > 0 <==> x in ids
  {
    if ids != [] {
      TimesIn(ids[..|ids| - 1], x);
      assert ids == ids[..|ids| - 1] + [ids[|ids| - 1]];
    }
  }
}
