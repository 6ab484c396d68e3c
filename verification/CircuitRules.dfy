// What every circuit rule answers, in terms of the events themselves: when it opens or warns, and with which evidence.
module CircuitRules {
  import opened Wrappers
  import opened Counting
  import opened Circuits
  import opened CircuitLaws

  // ---- Rules that count keys ----

  // What a rule counts: which events have a key, and what the evidence calls it.
  datatype Keyed<!T> = Keyed(has: (T, string) -> bool, shown: T -> string)
  {
    // The rule's own key of an event and name of a key say the same.
    ghost predicate Fits(key: T -> seq<string>, name: string -> string, e: T) {
      && (key(e) == [] ==> forall k :: !has(e, k))
      && (key(e) != [] ==> |key(e)| == 1 && forall k :: has(e, k) <==> k == key(e)[0])
      && (key(e) != [] ==> name(key(e)[0]) == shown(e))
    }

    ghost function Number(events: seq<T>, k: string): nat {
      Count((e: T) => has(e, k), events)
    }

    ghost predicate Seen(events: seq<T>, k: string) {
      exists i :: 0 <= i < |events| && has(events[i], k)
    }

    // Some event has the one key before any has the other.
    ghost predicate Before(events: seq<T>, one: string, other: string) {
      exists i :: 0 <= i < |events| && has(events[i], one) && !Seen(events[..i + 1], other)
    }

    ghost predicate Ordered(events: seq<T>, keys: seq<string>) {
      forall a, b :: 0 <= a < b < |keys| ==> Before(events, keys[a], keys[b])
    }

    // The evidence is one entry for each key more numerous than allowed, the key seen first in front.
    ghost predicate Shows(events: seq<T>, max: real, keys: seq<string>, evidence: seq<Evidence>) {
      && (forall k :: k in keys <==> Seen(events, k) && Number(events, k) as real > max)
      && Ordered(events, keys)
      && |evidence| == |keys|
      && (forall a, i :: 0 <= a < |keys| && 0 <= i < |events| && has(events[i], keys[a]) ==>
            evidence[a] == Evidence(Some(shown(events[i])), Number(events, keys[a]) as real, max))
    }

    lemma {:induction false} NumberIs(key: T -> seq<string>, name: string -> string, events: seq<T>, k: string)
      requires forall e :: Fits(key, name, e)
      ensures Occurrences(FlatMap(key, events), k) == Number(events, k)
    {
      if events != [] {
        var front, e := events[..|events| - 1], events[|events| - 1];
        NumberIs(key, name, front, k);
        assert Fits(key, name, e);
        if key(e) == [] {
          assert FlatMap(key, events) == FlatMap(key, front);
        } else {
          assert key(e) == [key(e)[0]];
          CountSnoc(Is(k), FlatMap(key, front), key(e)[0]);
        }
      }
    }

    lemma {:induction false} SeenIs(key: T -> seq<string>, name: string -> string, events: seq<T>, k: string)
      requires forall e :: Fits(key, name, e)
      ensures k in FirstSeen(FlatMap(key, events)) <==> Seen(events, k)
    {
      FirstSeenIs(FlatMap(key, events));
      FlatMapMember(key, events, k);
      forall i | 0 <= i < |events|
        ensures k in key(events[i]) <==> has(events[i], k)
      {
        assert Fits(key, name, events[i]);
      }
    }

    lemma {:induction false} BeforeGrows(events: seq<T>, e: T, one: string, other: string)
      requires Before(events, one, other)
      ensures Before(events + [e], one, other)
    {
      var i :| 0 <= i < |events| && has(events[i], one) && !Seen(events[..i + 1], other);
      var longer := events + [e];
      assert longer[..i + 1] == events[..i + 1] && longer[i] == events[i];
    }

    lemma {:induction false} BeforeNew(events: seq<T>, e: T, one: string, other: string)
      requires Seen(events, one) && !Seen(events, other)
      ensures Before(events + [e], one, other)
    {
      var i :| 0 <= i < |events| && has(events[i], one);
      var longer := events + [e];
      assert longer[i] == events[i];
      assert longer[..i + 1] == events[..i + 1];
    }

    lemma {:induction false} FirstSeenSnoc(key: T -> seq<string>, name: string -> string, events: seq<T>, e: T)
      requires forall x :: Fits(key, name, x)
      ensures var before, after := FirstSeen(FlatMap(key, events)), FirstSeen(FlatMap(key, events + [e]));
              after == before || exists k :: after == before + [k] && !Seen(events, k)
    {
      FlatMapSnoc(key, events, e);
      assert Fits(key, name, e);
      var keys := FlatMap(key, events);
      if key(e) == [] {
        assert keys + key(e) == keys;
      } else {
        var k := key(e)[0];
        assert key(e) == [k];
        assert (keys + [k])[..|keys|] == keys;
        SeenIs(key, name, events, k);
        FirstSeenIs(keys);
        assert FirstSeen(keys) + [] == FirstSeen(keys);
      }
    }

    lemma {:induction false} FirstSeenOrdered(key: T -> seq<string>, name: string -> string, events: seq<T>)
      requires forall e :: Fits(key, name, e)
      ensures Ordered(events, FirstSeen(FlatMap(key, events)))
    {
      if events != [] {
        var front, e := events[..|events| - 1], events[|events| - 1];
        assert events == front + [e];
        FirstSeenOrdered(key, name, front);
        FirstSeenSnoc(key, name, front, e);
        var before, after := FirstSeen(FlatMap(key, front)), FirstSeen(FlatMap(key, events));
        forall a, b | 0 <= a < b < |after|
          ensures Before(events, after[a], after[b])
        {
          assert after[a] == before[a];
          if b < |before| {
            assert after[b] == before[b];
            BeforeGrows(front, e, before[a], before[b]);
          } else {
            SeenIs(key, name, front, before[a]);
            BeforeNew(front, e, before[a], after[b]);
          }
        }
      }
    }
  }

  // The keys among these that are counted too often.
  ghost function Excess(keys: seq<string>, among: seq<string>, max: real): seq<string> {
    if among == [] then []
    else
      var key := among[|among| - 1];
      Excess(keys, among[..|among| - 1], max) + (if Occurrences(keys, key) as real > max then [key] else [])
  }

  lemma {:induction false} ExcessShown(keys: seq<string>, among: seq<string>, max: real, name: string -> string)
    ensures var found := Excess(keys, among, max);
            && |TooMany(keys, among, max, name)| == |found|
            && forall a :: 0 <= a < |found| ==>
                 TooMany(keys, among, max, name)[a]
                 == Evidence(Some(name(found[a])), Occurrences(keys, found[a]) as real, max)
  {
    if among != [] {
      ExcessShown(keys, among[..|among| - 1], max, name);
    }
  }

  lemma {:induction false} ExcessIs(keys: seq<string>, among: seq<string>, max: real, k: string)
    ensures k in Excess(keys, among, max) <==> k in among && Occurrences(keys, k) as real > max
  {
    if among != [] {
      ExcessIs(keys, among[..|among| - 1], max, k);
      assert among == among[..|among| - 1] + [among[|among| - 1]];
    }
  }

  lemma {:induction false} ExcessOrdered<T>(keyed: Keyed<T>, events: seq<T>, keys: seq<string>, among: seq<string>,
        max: real)
    requires keyed.Ordered(events, among)
    ensures keyed.Ordered(events, Excess(keys, among, max))
  {
    if among != [] {
      var front, last := among[..|among| - 1], among[|among| - 1];
      assert keyed.Ordered(events, front) by {
        forall a, b | 0 <= a < b < |front|
          ensures keyed.Before(events, front[a], front[b])
        {
          assert keyed.Before(events, among[a], among[b]);
        }
      }
      ExcessOrdered(keyed, events, keys, front, max);
      var found := Excess(keys, front, max);
      forall a | 0 <= a < |found|
        ensures keyed.Before(events, found[a], last)
      {
        ExcessIs(keys, front, max, found[a]);
        var p :| 0 <= p < |front| && front[p] == found[a];
        assert among[p] == found[a];
        assert keyed.Before(events, among[p], among[|among| - 1]);
      }
    }
  }

  lemma {:induction false} CountedShows<T>(keyed: Keyed<T>, key: T -> seq<string>, name: string -> string,
        events: seq<T>, max: real, found: Status)
    returns (keys: seq<string>)
    requires forall e :: keyed.Fits(key, name, e)
    ensures var v := Repetition(FlatMap(key, events), max, name, found);
            && keyed.Shows(events, max, keys, v.evidence)
            && v.status == if keys == [] then Closed else found
  {
    hide Occurrences, FirstSeen, keyed.Number, keyed.Before, keyed.Seen;
    var all := FlatMap(key, events);
    var among := FirstSeen(all);
    keys := Excess(all, among, max);
    keyed.FirstSeenOrdered(key, name, events);
    ExcessOrdered(keyed, events, all, among, max);
    ExcessShown(all, among, max, name);
    forall k
      ensures k in keys <==> keyed.Seen(events, k) && keyed.Number(events, k) as real > max
    {
      ExcessIs(all, among, max, k);
      keyed.SeenIs(key, name, events, k);
      keyed.NumberIs(key, name, events, k);
    }
    forall a, i | 0 <= a < |keys| && 0 <= i < |events| && keyed.has(events[i], keys[a])
      ensures TooMany(all, among, max, name)[a]
           == Evidence(Some(keyed.shown(events[i])), keyed.Number(events, keys[a]) as real, max)
    {
      keyed.NumberIs(key, name, events, keys[a]);
      assert keyed.Fits(key, name, events[i]);
    }
  }

  function Tool<A>(e: Event<A>): string {
    if e.tool.Some? then e.tool.value.0 else ""
  }

  function Parent<A>(e: Event<A>): string {
    if e.parentId.Some? then e.parentId.value else ""
  }

  ghost function ByTool<A>(): Keyed<Event<A>> {
    Keyed((e: Event<A>, k: string) => e.tool.Some? && k == e.tool.value.0, Tool)
  }

  ghost function ByCall<A>(hash: (string, A) -> Digest): Keyed<Event<A>> {
    Keyed((e: Event<A>, k: string) =>
            e.tool.Some? && k == e.tool.value.0 + ":" + hash(e.tool.value.0, e.tool.value.1), Tool)
  }

  ghost function ByParent<A>(): Keyed<Event<A>> {
    Keyed((e: Event<A>, k: string) => e.parentId == Some(k) && k != "", Parent)
  }

  // Repeated tools: opens with one entry for each label that more tool calls have than allowed.
  lemma {:induction false} SameToolByEvents<A>(hash: (string, A) -> Digest, events: seq<Event<A>>, max: real)
    returns (keys: seq<string>)
    ensures var v := Evaluate(hash, SameToolRepetition, events, max);
            ByTool().Shows(events, max, keys, v.evidence) && v.status == if keys == [] then Closed else Open
  {
    keys := CountedShows(ByTool(), ToolKey<A>, Same, events, max, Open);
  }

  // Repeated arguments: opens with one entry, under its label, for each pair of label and digest that more
  // tool calls have than allowed.
  lemma {:induction false} SameArgsByEvents<A>(hash: (string, A) -> Digest, events: seq<Event<A>>, max: real)
    returns (keys: seq<string>)
    ensures var v := Evaluate(hash, SameArgsRepetition, events, max);
            ByCall(hash).Shows(events, max, keys, v.evidence) && v.status == if keys == [] then Closed else Open
  {
    forall e: Event<A>
      ensures ByCall(hash).Fits(ArgsKey(hash), LabelOf, e)
    {
      if e.tool.Some? {
        var call := e.tool.value;
        assert LabelOf(call.0 + ":" + hash(call.0, call.1)) == call.0;
      }
    }
    keys := CountedShows(ByCall(hash), ArgsKey(hash), LabelOf, events, max, Open);
  }

  // Wide branches: warns with one entry for each parent id that more events have than allowed.
  lemma {:induction false} WidthByEvents<A>(hash: (string, A) -> Digest, events: seq<Event<A>>, max: real)
    returns (keys: seq<string>)
    ensures var v := Evaluate(hash, Width, events, max);
            ByParent().Shows(events, max, keys, v.evidence) && v.status == if keys == [] then Closed else Warn
  {
    keys := CountedShows(ByParent(), ParentKey<A>, Same, events, max, Warn);
  }

  // ---- The other rules ----

  // Too many calls of a model: opens exactly if no event succeeded and more events than allowed are such calls.
  lemma {:induction false} RunawayByEvents<A>(hash: (string, A) -> Digest, events: seq<Event<A>>, max: real)
    ensures var v, calls := Evaluate(hash, Runaway, events, max), Count((e: Event<A>) => e.llm, events) as real;
            if (forall i :: 0 <= i < |events| ==> !events[i].succeeded) && calls > max
            then v == Verdict(Open, [Evidence(None, calls, max)])
            else v == Verdict(Closed, [])
  {
    CountZero(Succeeded<A>, events);
    CountSame(IsLlm<A>, (e: Event<A>) => e.llm, events);
  }

  lemma {:induction false} CountSame<T>(p: T -> bool, q: T -> bool, s: seq<T>)
    requires forall x :: p(x) == q(x)
    ensures Count(p, s) == Count(q, s)
  {
    if s != [] {
      CountSame(p, q, s[..|s| - 1]);
    }
  }

  // A number is what the iterations amount to: how many events are of an iteration, or the number one of them carries,
  // whichever is greatest.
  ghost predicate IsPeak<A>(events: seq<Event<A>>, n: real) {
    var iterations := Count((e: Event<A>) => e.iteration.Some? || e.looped, events) as real;
    && n >= iterations
    && (forall i :: 0 <= i < |events| && events[i].iteration.Some? ==> n >= events[i].iteration.value)
    && (n == iterations || exists i :: 0 <= i < |events| && events[i].iteration == Some(n))
  }

  // Loops: opens exactly if that number exceeds the limit, and shows it.
  lemma {:induction false} LoopByEvents<A>(hash: (string, A) -> Digest, events: seq<Event<A>>, max: real)
    returns (n: real)
    ensures IsPeak(events, n)
    ensures Evaluate(hash, LoopIterations, events, max)
         == if n > max then Verdict(Open, [Evidence(None, n, max)]) else Verdict(Closed, [])
  {
    n := Peak(events);
    var start, numbers := Count(IsIteration, events) as real, FlatMap(IterationOf, events);
    CountSame(IsIteration<A>, (e: Event<A>) => e.iteration.Some? || e.looped, events);
    GreatestIs(start, numbers);
    FlatMapMember(IterationOf, events, n);
    forall i | 0 <= i < |events| && events[i].iteration.Some?
      ensures n >= events[i].iteration.value
    {
      FlatMapMember(IterationOf, events, events[i].iteration.value);
      assert events[i].iteration.value in numbers;
    }
  }

  // A number is the greatest attempt recorded, or 0 if none is.
  ghost predicate IsLastAttempt<A>(events: seq<Event<A>>, n: real) {
    if forall i :: 0 <= i < |events| ==> events[i].attempt.None? then n == 0.0
    else
      && (forall i :: 0 <= i < |events| && events[i].attempt.Some? ==> n >= events[i].attempt.value)
      && (exists i :: 0 <= i < |events| && events[i].attempt == Some(n))
  }

  // Retries: opens exactly if that number exceeds the limit, and shows it.
  lemma {:induction false} RetriesByEvents<A>(hash: (string, A) -> Digest, events: seq<Event<A>>, max: real)
    returns (n: real)
    ensures IsLastAttempt(events, n)
    ensures Evaluate(hash, Retries, events, max)
         == if n > max then Verdict(Open, [Evidence(None, n, max)]) else Verdict(Closed, [])
  {
    n := MaxAttempt(events);
    var attempts := FlatMap(AttemptOf, events);
    FlatMapMember(AttemptOf, events, n);
    if attempts != [] {
      GreatestIs(attempts[0], attempts);
      FlatMapMember(AttemptOf, events, attempts[0]);
    }
    forall i | 0 <= i < |events| && events[i].attempt.Some?
      ensures n >= events[i].attempt.value && attempts != []
    {
      FlatMapMember(AttemptOf, events, events[i].attempt.value);
      assert events[i].attempt.value in attempts;
    }
  }

  // A tool call that took longer than allowed.
  predicate TooSlow<A>(e: Event<A>, max: real) {
    e.tool.Some? && e.durationMs.Some? && e.durationMs.value > max
  }

  // Slow tool calls: warns with one entry for each of them, in the order of the events.
  lemma {:induction false} TimeoutByEvents<A>(hash: (string, A) -> Digest, events: seq<Event<A>>, max: real)
    ensures var v := Evaluate(hash, Timeout, events, max);
            var slow := (e: Event<A>) => TooSlow(e, max);
            && |v.evidence| == Count(slow, events)
            && v.status == (if v.evidence == [] then Closed else Warn)
            && forall i :: 0 <= i < |events| && slow(events[i]) ==>
                 && Count(slow, events[..i]) < |v.evidence|
                 && v.evidence[Count(slow, events[..i])]
                    == Evidence(Some(events[i].tool.value.0), events[i].durationMs.value, max)
  {
    if events != [] {
      var front, e := events[..|events| - 1], events[|events| - 1];
      TimeoutByEvents(hash, front, max);
      assert forall i :: 0 <= i < |front| ==> front[..i] == events[..i];
    }
  }

  // ---- All selected rules ----

  // The selected rules that have a limit are evaluated in the order selected, each under its own limit.
  lemma {:induction false} ResultsByRule<A>(hash: (string, A) -> Digest, events: seq<Event<A>>, selected: seq<Rule>,
        limits: map<Rule, real>)
    ensures var results := Results(hash, events, selected, limits);
            var limited := (rule: Rule) => rule in limits;
            && |results| == Count(limited, selected)
            && forall i :: 0 <= i < |selected| && selected[i] in limits ==>
                 && Count(limited, selected[..i]) < |results|
                 && results[Count(limited, selected[..i])] == Evaluate(hash, selected[i], events, limits[selected[i]])
  {
    hide Evaluate;
    if selected != [] {
      var front := selected[..|selected| - 1];
      ResultsByRule(hash, events, front, limits);
      assert forall i :: 0 <= i < |front| ==> front[..i] == selected[..i];
    }
  }
}
