// The library's stable ascending sort, as a function, with the facts its callers rely on.
module StableSort {
  import opened Wrappers

  function Insert<T>(key: T -> real, x: T, s: seq<T>): seq<T> {
    if s == [] then [x]
    else if key(s[|s| - 1]) <= key(x) then s + [x]
    else Insert(key, x, s[..|s| - 1]) + [s[|s| - 1]]
  }

  function Sort<T>(key: T -> real, s: seq<T>): seq<T> {
    if s == [] then [] else Insert(key, s[|s| - 1], Sort(key, s[..|s| - 1]))
  }

  ghost predicate Ascending<T>(key: T -> real, s: seq<T>) {
    forall i, j :: 0 <= i < j < |s| ==> key(s[i]) <= key(s[j])
  }

  lemma {:induction false} InsertKeepsOrder<T>(key: T -> real, x: T, s: seq<T>)
    requires Ascending(key, s)
    ensures |Insert(key, x, s)| == |s| + 1
    ensures multiset(Insert(key, x, s)) == multiset(s) + multiset{x}
    ensures Ascending(key, Insert(key, x, s))
  {
    if s != [] && key(s[|s| - 1]) > key(x) {
      var front, last := s[..|s| - 1], s[|s| - 1];
      assert s == front + [last];
      InsertKeepsOrder(key, x, front);
      var r := Insert(key, x, front);
      assert Insert(key, x, s) == r + [last];
      hide Insert;
      forall i | 0 <= i < |r|
        ensures key(r[i]) <= key(last)
      {
        assert r[i] in multiset(r);
        assert r[i] == x || r[i] in front;
      }
    }
  }

  // The result is an ascending rearrangement of the input.
  lemma {:induction false} SortIs<T>(key: T -> real, s: seq<T>)
    ensures |Sort(key, s)| == |s|
    ensures multiset(Sort(key, s)) == multiset(s)
    ensures Ascending(key, Sort(key, s))
  {
    if s != [] {
      var front, last := s[..|s| - 1], s[|s| - 1];
      SortIs(key, front);
      InsertKeepsOrder(key, last, Sort(key, front));
      assert s == front + [last];
      assert Sort(key, s) == Insert(key, last, Sort(key, front));
      hide Sort, Insert, Ascending;
    }
  }

  function WithKey<T>(key: T -> real, k: real, s: seq<T>): seq<T> {
    if s == [] then []
    else WithKey(key, k, s[..|s| - 1]) + (if key(s[|s| - 1]) == k then [s[|s| - 1]] else [])
  }

  lemma {:induction false} InsertStable<T>(key: T -> real, x: T, s: seq<T>, k: real)
    requires Ascending(key, s)
    ensures WithKey(key, k, Insert(key, x, s)) == WithKey(key, k, s) + (if key(x) == k then [x] else [])
  {
    if s == [] {
      assert [x][..0] == [];
    } else if key(s[|s| - 1]) <= key(x) {
      assert (s + [x])[..|s|] == s;
    } else {
      var front, last := s[..|s| - 1], s[|s| - 1];
      InsertStable(key, x, front, k);
      var r := Insert(key, x, front);
      assert (r + [last])[..|r|] == r;
    }
  }

  // Elements with equal keys keep their order.
  lemma {:induction false} SortStable<T>(key: T -> real, s: seq<T>, k: real)
    ensures WithKey(key, k, Sort(key, s)) == WithKey(key, k, s)
  {
    if s != [] {
      SortStable(key, s[..|s| - 1], k);
      SortIs(key, s[..|s| - 1]);
      InsertStable(key, s[|s| - 1], Sort(key, s[..|s| - 1]), k);
    }
  }

  lemma {:induction false} SortKeepsTies<T>(key: T -> real, s: seq<T>)
    ensures forall k :: WithKey(key, k, Sort(key, s)) == WithKey(key, k, s)
  {
    forall k
      ensures WithKey(key, k, Sort(key, s)) == WithKey(key, k, s)
    {
      SortStable(key, s, k);
    }
  }

  // Array.prototype.find, on a sequence read from the front.
  function First<T>(p: T -> bool, s: seq<T>): Option<T> {
    if s == [] then None
    else if First(p, s[..|s| - 1]).Some? then First(p, s[..|s| - 1])
    else if p(s[|s| - 1]) then Some(s[|s| - 1])
    else None
  }

  lemma {:induction false} FirstSnoc<T>(p: T -> bool, s: seq<T>, x: T)
    ensures First(p, s + [x]) == if First(p, s).Some? then First(p, s) else if p(x) then Some(x) else None
  {
    assert (s + [x])[..|s|] == s;
  }

  lemma {:induction false} FirstIs<T>(p: T -> bool, s: seq<T>) returns (k: nat)
    ensures First(p, s).None? <==> forall i :: 0 <= i < |s| ==> !p(s[i])
    ensures First(p, s).Some? ==> k < |s| && s[k] == First(p, s).value && p(s[k]) && forall i :: 0 <= i < k ==> !p(s[i])
  {
    k := 0;
    if s != [] {
      var front := s[..|s| - 1];
      k := FirstIs(p, front);
      assert forall i :: 0 <= i < |front| ==> front[i] == s[i];
      if First(p, front).None? {
        k := |front|;
      }
    }
  }

  function Earlier<T>(p: T -> bool, key: T -> real, x: T, f: Option<T>): Option<T> {
    if p(x) && (f.None? || key(x) < key(f.value)) then Some(x) else f
  }

  lemma {:induction false} FirstIsSmall<T>(p: T -> bool, key: T -> real, s: seq<T>)
    requires Ascending(key, s) && First(p, s).Some?
    ensures s != [] && key(First(p, s).value) <= key(s[|s| - 1])
  {
    var k := FirstIs(p, s);
  }

  lemma {:induction false} InsertFirst<T>(p: T -> bool, key: T -> real, x: T, s: seq<T>)
    requires Ascending(key, s)
    ensures First(p, Insert(key, x, s)) == Earlier(p, key, x, First(p, s))
  {
    if s == [] || key(s[|s| - 1]) <= key(x) {
      assert s == [] ==> Insert(key, x, s) == s + [x];
      FirstSnoc(p, s, x);
      if First(p, s).Some? {
        FirstIsSmall(p, key, s);
      }
    } else {
      var front, last := s[..|s| - 1], s[|s| - 1];
      InsertFirst(p, key, x, front);
      FirstSnoc(p, Insert(key, x, front), last);
    }
  }

  // The first element, among those with p, of the least key.
  ghost predicate FirstLeast<T(!new)>(p: T -> bool, key: T -> real, s: seq<T>, k: nat) {
    && k < |s| && p(s[k])
    && (forall i :: 0 <= i < |s| && p(s[i]) ==> key(s[k]) <= key(s[i]))
    && (forall i :: 0 <= i < k && p(s[i]) ==> key(s[k]) < key(s[i]))
  }

  lemma {:induction false} FirstLeastSnoc<T(!new)>(p: T -> bool, key: T -> real, s: seq<T>, x: T, k: nat)
    requires FirstLeast(p, key, s, k)
    ensures if p(x) && key(x) < key(s[k]) then FirstLeast(p, key, s + [x], |s|) else FirstLeast(p, key, s + [x], k)
  {
    var longer := s + [x];
    assert forall i :: 0 <= i < |s| ==> longer[i] == s[i];
  }

  // f is the first element of the least key among those with p, found at k, if there are any.
  ghost predicate IsFirstLeast<T(!new)>(p: T -> bool, key: T -> real, s: seq<T>, f: Option<T>, k: nat) {
    if f.None? then forall i :: 0 <= i < |s| ==> !p(s[i])
    else FirstLeast(p, key, s, k) && f.value == s[k]
  }

  lemma {:induction false} EarlierIsFirstLeast<T(!new)>(p: T -> bool, key: T -> real, s: seq<T>, f: Option<T>, k0: nat,
        x: T)
    returns (k: nat)
    requires IsFirstLeast(p, key, s, f, k0)
    ensures IsFirstLeast(p, key, s + [x], Earlier(p, key, x, f), k)
  {
    k := if f.Some? && !(p(x) && key(x) < key(f.value)) then k0 else |s|;
    if f.Some? {
      FirstLeastSnoc(p, key, s, x, k0);
    } else {
      var longer := s + [x];
      assert forall i :: 0 <= i < |s| ==> longer[i] == s[i];
    }
  }

  lemma {:induction false} FirstOfSorted<T(!new)>(p: T -> bool, key: T -> real, s: seq<T>) returns (k: nat)
    ensures IsFirstLeast(p, key, s, First(p, Sort(key, s)), k)
  {
    k := 0;
    if s != [] {
      var front, x := s[..|s| - 1], s[|s| - 1];
      k := FirstOfSorted(p, key, front);
      SortIs(key, front);
      InsertFirst(p, key, x, Sort(key, front));
      k := EarlierIsFirstLeast(p, key, front, First(p, Sort(key, front)), k, x);
      assert s == front + [x];
    }
  }

  // The first n of the sorted elements are n of the elements, and no other has a smaller key.
  lemma {:induction false} TopOfSorted<T>(key: T -> real, s: seq<T>, n: nat)
    requires n <= |s|
    ensures |Sort(key, s)| == |s|
    ensures var top, rest := Sort(key, s)[..n], Sort(key, s)[n..];
            && multiset(top) + multiset(rest) == multiset(s)
            && forall a, b :: a in top && b in rest ==> key(a) <= key(b)
  {
    SortIs(key, s);
    assert Sort(key, s) == Sort(key, s)[..n] + Sort(key, s)[n..];
  }
}
