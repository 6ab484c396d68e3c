// What the circuit verdicts mean and how they change when events are added or reordered.
module CircuitLaws {
  import opened Wrappers
  import opened Counting
  import opened Circuits

  // ---- Counting maps and multisets ----

  lemma {:induction false} OccurrencesAreMultiplicity(keys: seq<string>, key: string)
    ensures Occurrences(keys, key) == multiset(keys)[key]
  {
    if keys != [] {
      OccurrencesAreMultiplicity(keys[..|keys| - 1], key);
      assert keys == keys[..|keys| - 1] + [keys[|keys| - 1]];
    }
  }

  lemma {:induction false} TooManyMember(keys: seq<string>, among: seq<string>, max: real, name: string -> string,
        e: Evidence)
    ensures e in TooMany(keys, among, max, name) <==>
            exists k :: k in among && multiset(keys)[k] as real > max
                          && e == Evidence(Some(name(k)), multiset(keys)[k] as real, max)
  {
    if among != [] {
      var front, key := among[..|among| - 1], among[|among| - 1];
      TooManyMember(keys, front, max, name, e);
      OccurrencesAreMultiplicity(keys, key);
      assert among == front + [key];
    }
  }

  // A repetition verdict is closed exactly if no key is more numerous than allowed, and its evidence is those that are.
  lemma {:induction false} RepetitionMeans(keys: seq<string>, max: real, name: string -> string, found: Status,
        e: Evidence)
    requires found != Closed
    ensures var v := Repetition(keys, max, name, found);
            && (v.status == Closed <==> forall k :: k in keys ==> multiset(keys)[k] as real <= max)
            && (v.status != Closed ==> v.status == found)
            && (e in v.evidence <==>
                exists k :: k in keys && multiset(keys)[k] as real > max
                              && e == Evidence(Some(name(k)), multiset(keys)[k] as real, max))
  {
    FirstSeenIs(keys);
    var all := TooMany(keys, FirstSeen(keys), max, name);
    TooManyMember(keys, FirstSeen(keys), max, name, e);
    forall k | k in keys && multiset(keys)[k] as real > max
      ensures all != []
    {
      TooManyMember(keys, FirstSeen(keys), max, name, Evidence(Some(name(k)), multiset(keys)[k] as real, max));
    }
    if all != [] {
      TooManyMember(keys, FirstSeen(keys), max, name, all[0]);
    }
  }

  ghost function Total(keys: seq<string>, among: seq<string>): nat {
    if among == [] then 0 else Total(keys, among[..|among| - 1]) + Occurrences(keys, among[|among| - 1])
  }

  lemma {:induction false} TotalSnoc(keys: seq<string>, key: string, among: seq<string>)
    requires forall i, j :: 0 <= i < j < |among| ==> among[i] != among[j]
    ensures Total(keys + [key], among) == Total(keys, among) + (if key in among then 1 else 0)
  {
    if among != [] {
      var front, last := among[..|among| - 1], among[|among| - 1];
      TotalSnoc(keys, key, front);
      CountSnoc(Is(last), keys, key);
      assert among == front + [last];
    }
  }

  lemma {:induction false} TotalOfNewKey(keys: seq<string>, key: string)
    requires key !in keys
    ensures Total(keys + [key], FirstSeen(keys) + [key]) == Total(keys + [key], FirstSeen(keys)) + 1
  {
    assert (FirstSeen(keys) + [key])[..|FirstSeen(keys)|] == FirstSeen(keys);
    NoOccurrence(keys, key);
    CountSnoc(Is(key), keys, key);
  }

  // The counts add up to the number of events counted.
  lemma {:induction false} CountsAddUp(keys: seq<string>)
    ensures Total(keys, FirstSeen(keys)) == |keys|
  {
    hide Total, Occurrences;
    if keys == [] {
      NoTotal();
    } else {
      var front, key := keys[..|keys| - 1], keys[|keys| - 1];
      CountsAddUp(front);
      FirstSeenIs(front);
      assert keys == front + [key];
      TotalSnoc(front, key, FirstSeen(front));
      if key !in front {
        TotalOfNewKey(front, key);
      } else {
        assert FirstSeen(keys) == FirstSeen(front);
      }
    }
  }

  lemma {:induction false} NoTotal()
    ensures Total([], FirstSeen([])) == 0
  {
  }

  // ---- Same arguments and same tool ----

  lemma {:induction false} CallsOfLabel<A>(hash: (string, A) -> Digest, events: seq<Event<A>>, key: string)
    ensures Occurrences(FlatMap(ArgsKey(hash), events), key) <= Occurrences(FlatMap(ToolKey, events), LabelOf(key))
  {
    if events != [] {
      var front, e := events[..|events| - 1], events[|events| - 1];
      CallsOfLabel(hash, front, key);
      if e.tool.Some? {
        var toolName := e.tool.value.0;
        var full := toolName + ":" + hash(toolName, e.tool.value.1);
        assert LabelOf(full) == toolName;
        CountSnoc(Is(key), FlatMap(ArgsKey(hash), front), full);
        CountSnoc(Is(LabelOf(key)), FlatMap(ToolKey, front), toolName);
      } else {
        assert FlatMap(ArgsKey(hash), events) == FlatMap(ArgsKey(hash), front)
            && FlatMap(ToolKey, events) == FlatMap(ToolKey, front);
      }
    }
  }

  // Even if different arguments share a digest: where the rule on arguments opens, so does the rule on tools.
  lemma {:induction false} SameArgsImpliesSameTool<A>(hash: (string, A) -> Digest, events: seq<Event<A>>,
        maxRepeats: real)
    requires SameArgs(hash, events, maxRepeats).status == Open
    ensures SameTool(events, maxRepeats).status == Open
  {
    var keys, tools := FlatMap(ArgsKey(hash), events), FlatMap(ToolKey, events);
    RepetitionMeans(keys, maxRepeats, LabelOf, Open, Evidence(None, 0.0, 0.0));
    RepetitionMeans(tools, maxRepeats, Same, Open, Evidence(None, 0.0, 0.0));
    var k :| k in keys && multiset(keys)[k] as real > maxRepeats;
    OccurrencesAreMultiplicity(keys, k);
    OccurrencesAreMultiplicity(tools, LabelOf(k));
    CallsOfLabel(hash, events, k);
    NoOccurrence(keys, k);
    NoOccurrence(tools, LabelOf(k));
    assert LabelOf(k) in tools && multiset(tools)[LabelOf(k)] as real > maxRepeats;
  }

  // ---- More events ----

  lemma {:induction false} RepetitionGrows<T>(key: T -> seq<string>, a: seq<T>, b: seq<T>, max: real,
        name: string -> string, found: Status)
    requires found != Closed && Repetition(FlatMap(key, a), max, name, found).status != Closed
    ensures Repetition(FlatMap(key, a + b), max, name, found).status == found
  {
    FlatMapConcat(key, a, b);
    var none := Evidence(None, 0.0, 0.0);
    var ka, kab := FlatMap(key, a), FlatMap(key, a + b);
    RepetitionMeans(ka, max, name, found, none);
    RepetitionMeans(kab, max, name, found, none);
    var k :| k in ka && multiset(ka)[k] as real > max;
    assert k in kab && multiset(kab)[k] >= multiset(ka)[k];
  }

  lemma {:induction false} GreatestIs(start: real, s: seq<real>)
    ensures Greatest(start, s) == start || Greatest(start, s) in s
    ensures forall i :: 0 <= i < |s| ==> s[i] <= Greatest(start, s)
  {
    if s != [] {
      GreatestIs(start, s[..|s| - 1]);
    }
  }

  lemma {:induction false} GreatestGrows(start: real, more: real, a: seq<real>, b: seq<real>)
    requires start <= more
    ensures Greatest(start, a) <= Greatest(more, a + b)
  {
    GreatestIs(start, a);
    GreatestIs(more, a + b);
    if Greatest(start, a) in a {
      var i :| 0 <= i < |a| && a[i] == Greatest(start, a);
      assert (a + b)[i] == a[i];
    }
  }

  lemma {:induction false} GreatestExceeds(start: real, s: seq<real>, max: real)
    ensures Greatest(start, s) > max <==> start > max || exists v :: v in s && v > max
  {
    GreatestIs(start, s);
    if v :| v in s && v > max {
      var i :| 0 <= i < |s| && s[i] == v;
    }
  }

  // The loop rule opens exactly if there are too many iteration events or one of them has too great a number.
  lemma {:induction false} LoopVerdictMeans<A>(events: seq<Event<A>>, max: real)
    ensures MaxLoopIterations(events, max).status == Open <==>
            || Count(IsIteration, events) as real > max
            || exists i :: 0 <= i < |events| && events[i].iteration.Some? && events[i].iteration.value > max
  {
    var numbers := FlatMap(IterationOf, events);
    GreatestExceeds(Count(IsIteration, events) as real, numbers, max);
    forall i | 0 <= i < |events| && events[i].iteration.Some?
      ensures events[i].iteration.value in numbers
    {
      FlatMapMember(IterationOf, events, events[i].iteration.value);
    }
    if v :| v in numbers && v > max {
      FlatMapMember(IterationOf, events, v);
    }
  }

  // The retry rule opens exactly if some attempt has too great a number, or there is none and the limit is negative.
  lemma {:induction false} RetryVerdictMeans<A>(events: seq<Event<A>>, max: real)
    ensures MaxRetries(events, max).status == Open <==>
            || (exists i :: 0 <= i < |events| && events[i].attempt.Some? && events[i].attempt.value > max)
            || (max < 0.0 && forall i :: 0 <= i < |events| ==> events[i].attempt.None?)
  {
    var attempts := FlatMap(AttemptOf, events);
    forall i | 0 <= i < |events| && events[i].attempt.Some?
      ensures events[i].attempt.value in attempts
    {
      FlatMapMember(AttemptOf, events, events[i].attempt.value);
    }
    if attempts != [] {
      GreatestExceeds(attempts[0], attempts, max);
      FlatMapMember(AttemptOf, events, attempts[0]);
      if v :| v in attempts && v > max {
        FlatMapMember(AttemptOf, events, v);
      }
    }
  }

  // The timeout rule warns exactly if some tool call took too long.
  lemma {:induction false} TimeoutVerdictMeans<A>(events: seq<Event<A>>, max: real)
    ensures ToolTimeout(events, max).status == Warn <==>
            exists i :: 0 <= i < |events| && events[i].tool.Some? && events[i].durationMs.Some?
                          && events[i].durationMs.value > max
  {
    var found := FlatMap(SlowCall<A>(max), events);
    if found != [] {
      FlatMapMember(SlowCall<A>(max), events, found[0]);
    }
    forall i | 0 <= i < |events| && SlowCall<A>(max)(events[i]) != []
      ensures found != []
    {
      FlatMapMember(SlowCall<A>(max), events, SlowCall<A>(max)(events[i])[0]);
    }
  }

  // The peak counts the iteration events and dominates every iteration number; it only grows.
  lemma {:induction false} PeakGrows<A>(a: seq<Event<A>>, b: seq<Event<A>>)
    ensures Peak(a) <= Peak(a + b)
  {
    CountConcat(IsIteration, a, b);
    FlatMapConcat(IterationOf, a, b);
    GreatestGrows(Count(IsIteration, a) as real, Count(IsIteration, a + b) as real,
                  FlatMap(IterationOf, a), FlatMap(IterationOf, b));
  }

  lemma {:induction false} AttemptsGrow<A>(a: seq<Event<A>>, b: seq<Event<A>>)
    requires FlatMap(AttemptOf, a) != []
    ensures MaxAttempt(a) <= MaxAttempt(a + b)
  {
    FlatMapConcat(AttemptOf, a, b);
    var s, t := FlatMap(AttemptOf, a), FlatMap(AttemptOf, b);
    assert (s + t)[0] == s[0];
    GreatestGrows(s[0], s[0], s, t);
  }

  function Attempt<A>(number: real): Event<A> {
    Event(None, false, None, false, Some(number), None, None, false)
  }

  lemma {:induction false} OneAttempt<A>(events: seq<Event<A>>, number: real)
    requires FlatMap(AttemptOf, events) == [number]
    ensures MaxAttempt(events) == number
  {
    assert [number][..0] == [];
    assert Greatest(number, []) == number;
  }

  // A retry verdict on no attempts at all is about the number 0. With a negative limit it is open, and one negative
  // attempt closes it. In every other case more events never close it.
  lemma {:induction false} RetriesStayOpen<A>(a: seq<Event<A>>, maxRetries: real)
    ensures (forall b: seq<Event<A>> :: MaxRetries(a, maxRetries).status == Open ==>
              MaxRetries(a + b, maxRetries).status == Open)
       <==> maxRetries >= 0.0 || FlatMap(AttemptOf, a) != []
  {
    if maxRetries >= 0.0 || FlatMap(AttemptOf, a) != [] {
      forall b: seq<Event<A>> | MaxRetries(a, maxRetries).status == Open
        ensures MaxRetries(a + b, maxRetries).status == Open
      {
        AttemptsGrow(a, b);
      }
    } else {
      var one := Attempt<A>(maxRetries);
      FlatMapOne(AttemptOf<A>, one);
      FlatMapConcat(AttemptOf, a, [one]);
      OneAttempt(a + [one], maxRetries);
      assert MaxRetries(a, maxRetries).status == Open;
      assert MaxRetries(a + [one], maxRetries).status == Closed;
    }
  }

  // Without the condition it fails: limit -1, no attempts, then an attempt numbered -5.
  lemma {:induction false} RetriesCanClose<A>()
    ensures MaxRetries<A>([], -1.0).status == Open
    ensures MaxRetries<A>([Attempt(-5.0)], -1.0).status == Closed
  {
    FlatMapOne(AttemptOf<A>, Attempt(-5.0));
    OneAttempt<A>([Attempt(-5.0)], -5.0);
  }

  // A runaway verdict stays open exactly while no event succeeds.
  lemma {:induction false} RunawayStaysOpen<A>(a: seq<Event<A>>, b: seq<Event<A>>, maxLlmCalls: real)
    requires RunawayLlmLoop(a, maxLlmCalls).status == Open
    ensures RunawayLlmLoop(a + b, maxLlmCalls).status == Open <==> forall i :: 0 <= i < |b| ==> !b[i].succeeded
  {
    CountConcat(Succeeded, a, b);
    CountConcat(IsLlm, a, b);
    CountZero(Succeeded, b);
  }

  lemma {:induction false} CountZero<T>(p: T -> bool, s: seq<T>)
    ensures Count(p, s) == 0 <==> forall i :: 0 <= i < |s| ==> !p(s[i])
  {
    if s != [] {
      CountZero(p, s[..|s| - 1]);
    }
  }

  // The rules whose findings more events cannot take back.
  predicate Lasting<A>(rule: Rule, events: seq<Event<A>>, max: real) {
    match rule
    case Runaway => false
    case Retries => max >= 0.0 || FlatMap(AttemptOf, events) != []
    case _ => true
  }

  lemma {:induction false} FindingsLast<A>(hash: (string, A) -> Digest, rule: Rule, a: seq<Event<A>>, b: seq<Event<A>>,
        max: real)
    requires Lasting(rule, a, max) && Evaluate(hash, rule, a, max).status != Closed
    ensures Evaluate(hash, rule, a + b, max).status == Evaluate(hash, rule, a, max).status
  {
    match rule
    case SameToolRepetition => RepetitionGrows(ToolKey<A>, a, b, max, Same, Open);
    case SameArgsRepetition => RepetitionGrows(ArgsKey(hash), a, b, max, LabelOf, Open);
    case Width => RepetitionGrows(ParentKey<A>, a, b, max, Same, Warn);
    case LoopIterations => PeakGrows(a, b);
    case Retries => RetriesStayOpen(a, max);
    case Timeout => FlatMapConcat(SlowCall<A>(max), a, b);
  }

  lemma {:induction false} ResultFor<A>(hash: (string, A) -> Digest, events: seq<Event<A>>, selected: seq<Rule>,
        limits: map<Rule, real>)
    ensures AllHold(Results(hash, events, selected, limits)) <==>
            forall i :: 0 <= i < |selected| && selected[i] in limits ==>
              Evaluate(hash, selected[i], events, limits[selected[i]]).status != Open
  {
    if selected != [] {
      var front, rule := selected[..|selected| - 1], selected[|selected| - 1];
      ResultFor(hash, events, front, limits);
      var before := Results(hash, events, front, limits);
      assert forall i :: 0 <= i < |front| ==> selected[i] == front[i];
      assert AllHold(before + (if rule in limits then [Evaluate(hash, rule, events, limits[rule])] else [])) <==>
        AllHold(before) && (rule in limits ==> Evaluate(hash, rule, events, limits[rule]).status != Open) by {
        AllHoldSnoc(before, Evaluate(hash, rule, events, if rule in limits then limits[rule] else 0.0));
        assert before + [] == before;
      }
    }
  }

  lemma {:induction false} AllHoldSnoc(results: seq<Verdict>, v: Verdict)
    ensures AllHold(results + [v]) <==> AllHold(results) && v.status != Open
  {
    var longer := results + [v];
    assert longer[|results|] == v && forall i :: 0 <= i < |results| ==> longer[i] == results[i];
  }

  // A run that is not ok because of a lasting rule is not ok with more events either.
  lemma {:induction false} NotOkLasts<A>(hash: (string, A) -> Digest, a: seq<Event<A>>, b: seq<Event<A>>,
        selected: seq<Rule>, limits: map<Rule, real>)
    requires !AllHold(Results(hash, a, selected, limits))
    requires forall i :: 0 <= i < |selected| && selected[i] in limits ==> Lasting(selected[i], a, limits[selected[i]])
    ensures !AllHold(Results(hash, a + b, selected, limits))
  {
    ResultFor(hash, a, selected, limits);
    ResultFor(hash, a + b, selected, limits);
    var i :| 0 <= i < |selected| && selected[i] in limits
        && Evaluate(hash, selected[i], a, limits[selected[i]]).status == Open;
    FindingsLast(hash, selected[i], a, b, limits[selected[i]]);
  }
}
