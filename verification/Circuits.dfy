// Circuit breakers: verdicts on a run from counts over its events.
module Circuits {
  import opened Wrappers
  import opened Counting

  // An event as the rules see it. `tool` is the label of a tool call with its arguments; `iteration` and `attempt` are
  // the numbers its attributes give; `looped` says that its name speaks of a loop.
  datatype Event<A> = Event(tool: Option<(string, A)>, llm: bool, iteration: Option<real>, looped: bool,
                            attempt: Option<real>, durationMs: Option<real>, parentId: Option<string>, succeeded: bool)

  datatype Evidence = Evidence(name: Option<string>, count: real, threshold: real)

  datatype Status = Closed | Open | Warn

  datatype Verdict = Verdict(status: Status, evidence: seq<Evidence>)

  function Judge(evidence: seq<Evidence>, found: Status): Verdict {
    if evidence == [] then Verdict(Closed, []) else Verdict(found, evidence)
  }

  // ---- Counting keys ----

  // A Map from key to count; `order` is insertion order.
  datatype Counts = Counts(order: seq<string>, counts: map<string, nat>) {
    function Bump(key: string): Counts {
      Counts(if key in counts then order else order + [key],
             counts[key := (if key in counts then counts[key] else 0) + 1])
    }
  }

  function Is(key: string): string -> bool {
    (k: string) => k == key
  }

  function Occurrences(keys: seq<string>, key: string): nat {
    Count(Is(key), keys)
  }

  function FirstSeen(keys: seq<string>): seq<string> {
    if keys == [] then []
    else
      var front, key := keys[..|keys| - 1], keys[|keys| - 1];
      FirstSeen(front) + (if key in front then [] else [key])
  }

  ghost predicate CountsOf(c: Counts, keys: seq<string>) {
    && c.order == FirstSeen(keys)
    && (forall k :: k in c.counts <==> k in keys)
    && (forall k :: k in c.counts ==> c.counts[k] == Occurrences(keys, k))
  }

  lemma {:induction false} BumpCounts(c: Counts, keys: seq<string>, key: string)
    requires CountsOf(c, keys)
    ensures CountsOf(c.Bump(key), keys + [key])
  {
    var longer := keys + [key];
    assert longer[..|keys|] == keys;
    forall k
      ensures Occurrences(longer, k) == Occurrences(keys, k) + (if k == key then 1 else 0)
    {
      CountSnoc(Is(k), keys, key);
    }
    if key !in keys {
      NoOccurrence(keys, key);
    }
  }

  lemma {:induction false} NoOccurrence(keys: seq<string>, key: string)
    ensures Occurrences(keys, key) > 0 <==> key in keys
  {
    if keys != [] {
      NoOccurrence(keys[..|keys| - 1], key);
      assert keys == keys[..|keys| - 1] + [keys[|keys| - 1]];
    }
  }

  lemma {:induction false} FirstSeenIs(keys: seq<string>)
    ensures forall k :: k in FirstSeen(keys) <==> k in keys
    ensures forall i, j :: 0 <= i < j < |FirstSeen(keys)| ==> FirstSeen(keys)[i] != FirstSeen(keys)[j]
  {
    if keys != [] {
      FirstSeenIs(keys[..|keys| - 1]);
      assert keys == keys[..|keys| - 1] + [keys[|keys| - 1]];
    }
  }

  // The keys counted more often than allowed, in the order first seen; `name` is what the evidence calls a key.
  function TooMany(keys: seq<string>, among: seq<string>, max: real, name: string -> string): seq<Evidence> {
    if among == [] then []
    else
      var key := among[|among| - 1];
      TooMany(keys, among[..|among| - 1], max, name)
      + (if Occurrences(keys, key) as real > max
         then [Evidence(Some(name(key)), Occurrences(keys, key) as real, max)]
         else [])
  }

  function Repetition(keys: seq<string>, max: real, name: string -> string, found: Status): Verdict {
    Judge(TooMany(keys, FirstSeen(keys), max, name), found)
  }

  method JudgeCounts(c: Counts, ghost keys: seq<string>, max: real, name: string -> string,
        found: Status) returns (v: Verdict)
    requires CountsOf(c, keys)
    ensures v == Repetition(keys, max, name, found)
  {
    hide Occurrences, FirstSeen;
    var evidence: seq<Evidence> := [];
    FirstSeenIs(keys);
    for i := 0 to |c.order|
      invariant evidence == TooMany(keys, c.order[..i], max, name)
    {
      assert c.order[..i + 1][..i] == c.order[..i];
      var key := c.order[i];
      assert key in FirstSeen(keys);
      if c.counts[key] as real > max {
        evidence := evidence + [Evidence(Some(name(key)), c.counts[key] as real, max)];
      }
    }
    assert c.order[..|c.order|] == c.order;
    v := Judge(evidence, found);
  }

  // ---- The rules ----

  function ToolKey<A>(e: Event<A>): seq<string> {
    if e.tool.Some? then [e.tool.value.0] else []
  }

  // A digest of the tool and its arguments, 16 hexadecimal digits; two different calls may share it.
  type Digest = s: string | |s| == 16 witness "0000000000000000"

  function ArgsKey<A>(hash: (string, A) -> Digest): Event<A> -> seq<string> {
    (e: Event<A>) => if e.tool.Some? then [e.tool.value.0 + ":" + hash(e.tool.value.0, e.tool.value.1)] else []
  }

  // The label at the front of a key.
  function LabelOf(key: string): string {
    if |key| >= 17 then key[..|key| - 17] else key
  }

  function Same(key: string): string {
    key
  }

  function ParentKey<A>(e: Event<A>): seq<string> {
    if e.parentId.Some? && e.parentId.value != "" then [e.parentId.value] else []
  }

  function SameTool<A>(events: seq<Event<A>>, maxRepeats: real): Verdict {
    Repetition(FlatMap(ToolKey, events), maxRepeats, Same, Open)
  }

  function SameArgs<A>(hash: (string, A) -> Digest, events: seq<Event<A>>, maxRepeats: real): Verdict {
    Repetition(FlatMap(ArgsKey(hash), events), maxRepeats, LabelOf, Open)
  }

  function BranchWidth<A>(events: seq<Event<A>>, maxWidth: real): Verdict {
    Repetition(FlatMap(ParentKey, events), maxWidth, Same, Warn)
  }

  method EvaluateSameToolRepetition<A>(events: seq<Event<A>>, maxRepeats: real) returns (v: Verdict)
    ensures v == SameTool(events, maxRepeats)
  {
    var counts := Counts([], map[]);
    ghost var keys: seq<string> := [];
    for i := 0 to |events|
      invariant keys == FlatMap(ToolKey, events[..i]) && CountsOf(counts, keys)
    {
      assert events[..i + 1] == events[..i] + [events[i]];
      FlatMapSnoc(ToolKey<A>, events[..i], events[i]);
      if events[i].tool.Some? {
        BumpCounts(counts, keys, events[i].tool.value.0);
        counts := counts.Bump(events[i].tool.value.0);
        keys := keys + [events[i].tool.value.0];
      }
    }
    assert events[..|events|] == events;
    v := JudgeCounts(counts, keys, maxRepeats, Same, Open);
  }

  method EvaluateSameArgsRepetition<A>(hash: (string, A) -> Digest, events: seq<Event<A>>, maxRepeats: real)
    returns (v: Verdict)
    ensures v == SameArgs(hash, events, maxRepeats)
  {
    var counts := Counts([], map[]);
    ghost var keys: seq<string> := [];
    for i := 0 to |events|
      invariant keys == FlatMap(ArgsKey(hash), events[..i]) && CountsOf(counts, keys)
    {
      assert events[..i + 1] == events[..i] + [events[i]];
      FlatMapSnoc(ArgsKey(hash), events[..i], events[i]);
      if events[i].tool.Some? {
        var toolName := events[i].tool.value.0;
        var key := toolName + ":" + hash(toolName, events[i].tool.value.1);
        BumpCounts(counts, keys, key);
        counts := counts.Bump(key);
        keys := keys + [key];
      }
    }
    assert events[..|events|] == events;
    v := JudgeCounts(counts, keys, maxRepeats, LabelOf, Open);
  }

  method EvaluateExcessiveBranchWidth<A>(events: seq<Event<A>>, maxWidth: real) returns (v: Verdict)
    ensures v == BranchWidth(events, maxWidth)
  {
    var children := Counts([], map[]);
    ghost var keys: seq<string> := [];
    for i := 0 to |events|
      invariant keys == FlatMap(ParentKey, events[..i]) && CountsOf(children, keys)
    {
      assert events[..i + 1] == events[..i] + [events[i]];
      FlatMapSnoc(ParentKey<A>, events[..i], events[i]);
      var parentId := events[i].parentId;
      if parentId.None? || parentId.value == "" {
        continue;
      }
      BumpCounts(children, keys, parentId.value);
      children := children.Bump(parentId.value);
      keys := keys + [parentId.value];
    }
    assert events[..|events|] == events;
    v := JudgeCounts(children, keys, maxWidth, Same, Warn);
  }

  // The rules below are filter and reduce expressions.
  predicate IsIteration<A>(e: Event<A>) {
    e.iteration.Some? || e.looped
  }

  predicate IsLlm<A>(e: Event<A>) {
    e.llm
  }

  predicate Succeeded<A>(e: Event<A>) {
    e.succeeded
  }

  function IterationOf<A>(e: Event<A>): seq<real> {
    if e.iteration.Some? then [e.iteration.value] else []
  }

  function AttemptOf<A>(e: Event<A>): seq<real> {
    if e.attempt.Some? then [e.attempt.value] else []
  }

  function SlowCall<A>(maxDurationMs: real): Event<A> -> seq<Evidence> {
    (e: Event<A>) =>
      if e.tool.Some? && e.durationMs.Some? && e.durationMs.value > maxDurationMs
      then [Evidence(Some(e.tool.value.0), e.durationMs.value, maxDurationMs)]
      else []
  }

  // The greatest of a start value and the elements.
  function Greatest(start: real, s: seq<real>): (r: real)
    ensures r >= start
  {
    if s == [] then start
    else
      var front := Greatest(start, s[..|s| - 1]);
      if front < s[|s| - 1] then s[|s| - 1] else front
  }

  function Peak<A>(events: seq<Event<A>>): real {
    Greatest(Count(IsIteration, events) as real, FlatMap(IterationOf, events))
  }

  function MaxAttempt<A>(events: seq<Event<A>>): real {
    var attempts := FlatMap(AttemptOf, events);
    if attempts == [] then 0.0 else Greatest(attempts[0], attempts)
  }

  function Exceeds(seen: real, max: real): Verdict {
    if seen <= max then Verdict(Closed, []) else Verdict(Open, [Evidence(None, seen, max)])
  }

  function MaxLoopIterations<A>(events: seq<Event<A>>, maxIterations: real): Verdict {
    Exceeds(Peak(events), maxIterations)
  }

  function MaxRetries<A>(events: seq<Event<A>>, maxRetries: real): Verdict {
    Exceeds(MaxAttempt(events), maxRetries)
  }

  function ToolTimeout<A>(events: seq<Event<A>>, maxDurationMs: real): Verdict {
    Judge(FlatMap(SlowCall(maxDurationMs), events), Warn)
  }

  function RunawayLlmLoop<A>(events: seq<Event<A>>, maxLlmCalls: real): Verdict {
    if Count(Succeeded, events) > 0 then Verdict(Closed, []) else Exceeds(Count(IsLlm, events) as real, maxLlmCalls)
  }

  datatype Rule = SameToolRepetition | SameArgsRepetition | LoopIterations | Retries | Timeout | Runaway | Width

  function Evaluate<A>(hash: (string, A) -> Digest, rule: Rule, events: seq<Event<A>>, max: real): Verdict {
    match rule
    case SameToolRepetition => SameTool(events, max)
    case SameArgsRepetition => SameArgs(hash, events, max)
    case LoopIterations => MaxLoopIterations(events, max)
    case Retries => MaxRetries(events, max)
    case Timeout => ToolTimeout(events, max)
    case Runaway => RunawayLlmLoop(events, max)
    case Width => BranchWidth(events, max)
  }

  // Rules without a limit are skipped.
  function Results<A>(hash: (string, A) -> Digest, events: seq<Event<A>>, selected: seq<Rule>,
        limits: map<Rule, real>): seq<Verdict> {
    if selected == [] then []
    else
      var rule := selected[|selected| - 1];
      Results(hash, events, selected[..|selected| - 1], limits)
      + (if rule in limits then [Evaluate(hash, rule, events, limits[rule])] else [])
  }

  predicate AllHold(results: seq<Verdict>) {
    forall i :: 0 <= i < |results| ==> results[i].status != Open
  }

  method RunRule<A>(hash: (string, A) -> Digest, rule: Rule, events: seq<Event<A>>, max: real) returns (v: Verdict)
    ensures v == Evaluate(hash, rule, events, max)
  {
    match rule {
      case SameToolRepetition => v := EvaluateSameToolRepetition(events, max);
      case SameArgsRepetition => v := EvaluateSameArgsRepetition(hash, events, max);
      case LoopIterations => v := MaxLoopIterations(events, max);
      case Retries => v := MaxRetries(events, max);
      case Timeout => v := ToolTimeout(events, max);
      case Runaway => v := RunawayLlmLoop(events, max);
      case Width => v := EvaluateExcessiveBranchWidth(events, max);
    }
  }

  method RunCircuits<A>(hash: (string, A) -> Digest, events: seq<Event<A>>, selected: seq<Rule>,
        limits: map<Rule, real>)
    returns (ok: bool, results: seq<Verdict>)
    ensures results == Results(hash, events, selected, limits)
    ensures ok <==> AllHold(results)
  {
    results := [];
    for i := 0 to |selected|
      invariant results == Results(hash, events, selected[..i], limits)
    {
      assert selected[..i + 1][..i] == selected[..i];
      if selected[i] in limits {
        var v := RunRule(hash, selected[i], events, limits[selected[i]]);
        results := results + [v];
      }
    }
    assert selected[..|selected|] == selected;
    ok := AllHold(results);
  }
}
