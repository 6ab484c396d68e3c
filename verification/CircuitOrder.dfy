// The circuit verdicts do not depend on the order in which the events were recorded.
module CircuitOrder {
  import opened Wrappers
  import opened Counting
  import opened Circuits
  import opened CircuitLaws

  // The same finding, with the same evidence up to its order.
  ghost predicate SameFinding(v: Verdict, w: Verdict) {
    v.status == w.status && multiset(v.evidence) == multiset(w.evidence)
  }

  lemma {:induction false} MiddleOut<T, U>(f: T -> seq<U>, b: seq<T>, k: nat)
    requires k < |b|
    ensures multiset(FlatMap(f, b)) == multiset(FlatMap(f, b[..k] + b[k + 1..])) + multiset(f(b[k]))
  {
    FlatMapConcat(f, b[..k], b[k + 1..]);
    FlatMapSnoc(f, b[..k], b[k]);
    FlatMapConcat(f, b[..k] + [b[k]], b[k + 1..]);
    assert b == b[..k] + [b[k]] + b[k + 1..];
  }

  lemma {:induction false} FlatMapPermuted<T, U>(f: T -> seq<U>, a: seq<T>, b: seq<T>)
    requires multiset(a) == multiset(b)
    ensures multiset(FlatMap(f, a)) == multiset(FlatMap(f, b))
    decreases |a|
  {
    if a == [] {
      assert |multiset(b)| == |b|;
    } else {
      var front, x := a[..|a| - 1], a[|a| - 1];
      assert a == front + [x];
      var k := Locate(b, x);
      RemoveOne(front, x, b, k);
      FlatMapPermuted(f, front, b[..k] + b[k + 1..]);
      MiddleOut(f, b, k);
      FlatMapSnoc(f, front, x);
    }
  }

  // ---- Repetition ----

  // The evidence on one key.
  function Excess(counted: multiset<string>, max: real, name: string -> string): string -> seq<Evidence> {
    (key: string) => if counted[key] as real > max then [Evidence(Some(name(key)), counted[key] as real, max)] else []
  }

  lemma {:induction false} TooManyIsFlatMap(keys: seq<string>, among: seq<string>, max: real, name: string -> string)
    ensures TooMany(keys, among, max, name) == FlatMap(Excess(multiset(keys), max, name), among)
  {
    if among != [] {
      var front, key := among[..|among| - 1], among[|among| - 1];
      TooManyIsFlatMap(keys, front, max, name);
      OccurrencesAreMultiplicity(keys, key);
      FlatMapSnoc(Excess(multiset(keys), max, name), front, key);
      assert among == front + [key];
    }
  }

  lemma {:induction false} DistinctMultiplicity(s: seq<string>, x: string)
    requires forall i, j :: 0 <= i < j < |s| ==> s[i] != s[j]
    ensures multiset(s)[x] == if x in s then 1 else 0
  {
    if s != [] {
      var front, last := s[..|s| - 1], s[|s| - 1];
      DistinctMultiplicity(front, x);
      assert s == front + [last];
    }
  }

  lemma {:induction false} SameKeys(a: seq<string>, b: seq<string>)
    requires multiset(a) == multiset(b)
    ensures multiset(FirstSeen(a)) == multiset(FirstSeen(b))
  {
    FirstSeenIs(a);
    FirstSeenIs(b);
    forall x
      ensures multiset(FirstSeen(a))[x] == multiset(FirstSeen(b))[x]
    {
      DistinctMultiplicity(FirstSeen(a), x);
      DistinctMultiplicity(FirstSeen(b), x);
      assert x in a <==> x in multiset(a);
      assert x in b <==> x in multiset(b);
    }
  }

  lemma {:induction false} RepetitionReordered<T>(key: T -> seq<string>, a: seq<T>, b: seq<T>, max: real,
        name: string -> string, found: Status)
    requires multiset(a) == multiset(b)
    ensures SameFinding(Repetition(FlatMap(key, a), max, name, found), Repetition(FlatMap(key, b), max, name, found))
  {
    var ka, kb := FlatMap(key, a), FlatMap(key, b);
    FlatMapPermuted(key, a, b);
    SameKeys(ka, kb);
    TooManyIsFlatMap(ka, FirstSeen(ka), max, name);
    TooManyIsFlatMap(kb, FirstSeen(kb), max, name);
    FlatMapPermuted(Excess(multiset(ka), max, name), FirstSeen(ka), FirstSeen(kb));
    JudgeReordered(TooMany(ka, FirstSeen(ka), max, name), TooMany(kb, FirstSeen(kb), max, name), found);
  }

  lemma {:induction false} JudgeReordered(a: seq<Evidence>, b: seq<Evidence>, found: Status)
    requires multiset(a) == multiset(b)
    ensures SameFinding(Judge(a, found), Judge(b, found))
  {
    assert |multiset(a)| == |a| && |multiset(b)| == |b|;
  }

  // ---- Greatest numbers ----

  lemma {:induction false} GreatestReordered(start: real, s: seq<real>, other: real, t: seq<real>)
    requires multiset(s) == multiset(t) && (start == other || (start in s && other in t))
    ensures Greatest(start, s) == Greatest(other, t)
  {
    GreatestIs(start, s);
    GreatestIs(other, t);
    assert forall x :: x in s <==> x in multiset(s);
    assert forall x :: x in t <==> x in multiset(t);
    GreatestAtLeast(start, s, Greatest(other, t));
    GreatestAtLeast(other, t, Greatest(start, s));
  }

  lemma {:induction false} GreatestAtLeast(start: real, s: seq<real>, x: real)
    requires x == start || x in s
    ensures x <= Greatest(start, s)
  {
    GreatestIs(start, s);
  }

  lemma {:induction false} AttemptsReordered<A>(a: seq<Event<A>>, b: seq<Event<A>>)
    requires multiset(a) == multiset(b)
    ensures MaxAttempt(a) == MaxAttempt(b)
  {
    var s, t := FlatMap(AttemptOf<A>, a), FlatMap(AttemptOf<A>, b);
    FlatMapPermuted(AttemptOf<A>, a, b);
    assert |multiset(s)| == |s| && |multiset(t)| == |t|;
    if s != [] {
      GreatestReordered(s[0], s, t[0], t);
    }
  }

  lemma {:induction false} PeakReordered<A>(a: seq<Event<A>>, b: seq<Event<A>>)
    requires multiset(a) == multiset(b)
    ensures Peak(a) == Peak(b)
  {
    CountPermuted(IsIteration<A>, a, b);
    FlatMapPermuted(IterationOf<A>, a, b);
    var n := Count(IsIteration<A>, a) as real;
    GreatestReordered(n, FlatMap(IterationOf<A>, a), n, FlatMap(IterationOf<A>, b));
  }

  // ---- Every rule ----

  // No verdict depends on the order of the events, and its evidence only in its own order.
  lemma {:induction false} OrderIndependent<A>(hash: (string, A) -> Digest, rule: Rule, a: seq<Event<A>>,
        b: seq<Event<A>>, max: real)
    requires multiset(a) == multiset(b)
    ensures SameFinding(Evaluate(hash, rule, a, max), Evaluate(hash, rule, b, max))
  {
    match rule
    case SameToolRepetition => RepetitionReordered(ToolKey<A>, a, b, max, Same, Open);
    case SameArgsRepetition => RepetitionReordered(ArgsKey(hash), a, b, max, LabelOf, Open);
    case Width => RepetitionReordered(ParentKey<A>, a, b, max, Same, Warn);
    case LoopIterations => PeakReordered(a, b);
    case Retries => AttemptsReordered(a, b);
    case Timeout =>
      FlatMapPermuted(SlowCall<A>(max), a, b);
      JudgeReordered(FlatMap(SlowCall<A>(max), a), FlatMap(SlowCall<A>(max), b), Warn);
    case Runaway =>
      CountPermuted(Succeeded<A>, a, b);
      CountPermuted(IsLlm<A>, a, b);
  }

  // The same rules give their verdicts in the same order, and the run is ok or not alike.
  lemma {:induction false} ResultsReordered<A>(hash: (string, A) -> Digest, a: seq<Event<A>>, b: seq<Event<A>>,
        selected: seq<Rule>, limits: map<Rule, real>)
    requires multiset(a) == multiset(b)
    ensures var v, w := Results(hash, a, selected, limits), Results(hash, b, selected, limits);
            && |v| == |w|
            && (forall i :: 0 <= i < |v| ==> SameFinding(v[i], w[i]))
            && (AllHold(v) <==> AllHold(w))
  {
    if selected != [] {
      var rule := selected[|selected| - 1];
      ResultsReordered(hash, a, b, selected[..|selected| - 1], limits);
      if rule in limits {
        OrderIndependent(hash, rule, a, b, limits[rule]);
      }
    }
  }
}
