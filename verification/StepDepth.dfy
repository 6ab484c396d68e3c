// The iterative, memoised, cycle-cutting depth walk shared by the timeline and the run summary.
module StepDepth {
  import opened Wrappers
  import opened ParentGraph

  const ROOT_STEP_DEPTH: nat := 0
  const MAX_DEPTH: nat := 1000

  // The depth a reader reports: the length of the parent chain, cut off at the cap.
  ghost function CappedDepth<Id(!new)>(g: Graph<Id>, id: Id): nat {
    Min(MAX_DEPTH, Depth(g, id))
  }

  // A cache is correct when it holds right answers only and, with a step, all of its ancestors.
  ghost predicate CacheCorrect<Id(!new)>(g: Graph<Id>, cache: map<Id, nat>) {
    && (forall id :: id in cache ==> id in g && cache[id] == CappedDepth(g, id))
    && (forall id :: id in cache && Up(g, id).Some? ==> Up(g, id).value in cache)
  }

  // From a cached step the whole ancestor chain is cached.
  lemma {:induction false} ChainCached<Id(!new)>(g: Graph<Id>, cache: map<Id, nat>, id: Id, k: nat)
    requires CacheCorrect(g, cache)
    requires id in cache
    requires Ancestor(g, id, k).Some?
    ensures Ancestor(g, id, k).value in cache
  {
    if k > 0 {
      ChainCached(g, cache, Up(g, id).value, k - 1);
    }
  }

  // A step that is not cached but whose parent is cached cannot lie on a cycle.
  lemma {:induction false} BelowCacheAcyclic<Id(!new)>(g: Graph<Id>, cache: map<Id, nat>, id: Id)
    requires CacheCorrect(g, cache)
    requires id !in cache && Up(g, id).Some? && Up(g, id).value in cache
    ensures Depth(g, id) == 1 + Depth(g, Up(g, id).value)
  {
    if OnCycle(g, id) {
      var k: nat :| ReturnsIn(g, id, k);
      assert Ancestor(g, id, k) == Ancestor(g, Up(g, id).value, k - 1);
      ChainCached(g, cache, Up(g, id).value, k - 1);
    }
    DepthLaw(g, id);
  }

  lemma {:induction false} TailFresh<Id(!new)>(g: Graph<Id>, cache: map<Id, nat>, ancestry: seq<Id>, next: Id,
        start: nat)
    requires Walked(g, cache, ancestry, next) && start <= |ancestry|
    ensures forall id :: id in ancestry[start..] ==> id !in cache
  {
  }

  function Following<Id>(ancestry: seq<Id>, next: Id, i: nat): Id
    requires i < |ancestry|
  {
    if i + 1 < |ancestry| then ancestry[i + 1] else next
  }

  // The walk visits steps that are not cached, each the parent of the one before; `next` comes after them.
  ghost predicate Walked<Id(!new)>(g: Graph<Id>, cache: map<Id, nat>, ancestry: seq<Id>, next: Id) {
    && (forall i :: 0 <= i < |ancestry| ==> ancestry[i] in g && ancestry[i] !in cache)
    && (forall i, j :: 0 <= i < j < |ancestry| ==> ancestry[i] != ancestry[j])
    && (forall i :: 0 <= i < |ancestry| ==>
          Up(g, ancestry[i]) == Some(Following(ancestry, next, i)))
  }

  lemma {:induction false} WalkedAncestor<Id(!new)>(g: Graph<Id>, cache: map<Id, nat>, ancestry: seq<Id>, next: Id,
        i: nat, k: nat)
    requires Walked(g, cache, ancestry, next)
    requires i + k <= |ancestry| && i < |ancestry|
    ensures Ancestor(g, ancestry[i], k) == Some(if i + k < |ancestry| then ancestry[i + k] else next)
    decreases k
  {
    if k > 0 {
      if i + 1 < |ancestry| {
        WalkedAncestor(g, cache, ancestry, next, i + 1, k - 1);
      } else {
        assert Up(g, ancestry[i]) == Some(next);
        assert Ancestor(g, next, 0) == Some(next);
      }
    }
  }

  ghost predicate Indexed<Id(!new)>(ancestry: seq<Id>, indexes: map<Id, nat>) {
    && (forall i :: 0 <= i < |ancestry| ==> ancestry[i] in indexes)
    && (forall id :: id in indexes ==> indexes[id] < |ancestry| && ancestry[indexes[id]] == id)
  }

  lemma {:induction false} WalkedPush<Id(!new)>(g: Graph<Id>, cache: map<Id, nat>, ancestry: seq<Id>,
        indexes: map<Id, nat>, id: Id)
    requires Walked(g, cache, ancestry, id) && Indexed(ancestry, indexes)
    requires id in g && id !in cache && id !in indexes && Up(g, id).Some?
    ensures Walked(g, cache, ancestry + [id], Up(g, id).value)
    ensures Indexed(ancestry + [id], indexes[id := |ancestry|])
  {
    var longer := ancestry + [id];
    forall i | 0 <= i < |longer|
      ensures longer[i] in g && longer[i] !in cache
      ensures Up(g, longer[i]) == Some(Following(longer, Up(g, id).value, i))
    {
      if i < |ancestry| {
        assert Following(longer, Up(g, id).value, i) == Following(ancestry, id, i);
      }
    }
  }

  lemma {:induction false} RootCached<Id(!new)>(g: Graph<Id>, cache: map<Id, nat>, ancestry: seq<Id>,
        indexes: map<Id, nat>, id: Id)
    requires CacheCorrect(g, cache) && Walked(g, cache, ancestry, id) && Indexed(ancestry, indexes)
    requires id in g && id !in indexes && Up(g, id).None?
    ensures CacheCorrect(g, cache[id := ROOT_STEP_DEPTH])
    ensures Walked(g, cache[id := ROOT_STEP_DEPTH], ancestry, id)
  {
    DepthLaw(g, id);
  }

  // When the walk meets a step it has already visited, everything from that step on is a cycle.
  lemma {:induction false} WalkedCycle<Id(!new)>(g: Graph<Id>, cache: map<Id, nat>, ancestry: seq<Id>, next: Id,
        start: nat, i: nat)
    requires Walked(g, cache, ancestry, next)
    requires start <= i < |ancestry| && ancestry[start] == next
    ensures Depth(g, ancestry[i]) == 0
  {
    WalkedAncestor(g, cache, ancestry, next, i, |ancestry| - i);
    WalkedAncestor(g, cache, ancestry, next, start, i - start);
    AncestorAdd(g, ancestry[i], |ancestry| - i, i - start);
    assert ReturnsIn(g, ancestry[i], |ancestry| - start);
    DepthLaw(g, ancestry[i]);
  }

  lemma {:induction false} NotLater<T>(s: seq<T>, n: nat, i: nat)
    requires i < n <= |s| && forall j :: n <= j < |s| ==> s[j] != s[i]
    ensures s[i] !in s[n..]
  {
    assert forall k :: 0 <= k < |s[n..]| ==> s[n..][k] == s[n + k];
  }

  // Caching only visited steps from index n on leaves the first n of them still to be resolved.
  lemma {:induction false} WalkedPrefix<Id(!new)>(g: Graph<Id>, cache: map<Id, nat>, cache': map<Id, nat>,
        ancestry: seq<Id>, next: Id, n: nat)
    requires Walked(g, cache, ancestry, next) && n < |ancestry|
    requires forall id :: id in cache' && id !in cache ==> id in ancestry[n..]
    ensures Walked(g, cache', ancestry[..n], ancestry[n])
  {
    var front := ancestry[..n];
    forall i | 0 <= i < n
      ensures front[i] in g && front[i] !in cache'
      ensures Up(g, front[i]) == Some(Following(front, ancestry[n], i))
    {
      assert Following(front, ancestry[n], i) == Following(ancestry, next, i);
      NotLater(ancestry, n, i);
    }
  }

  // One level of the way back: the last unresolved step is one deeper than its cached parent, up to the cap.
  lemma {:induction false} UnwindStep<Id(!new)>(g: Graph<Id>, cache: map<Id, nat>, ancestry: seq<Id>, next: Id, n: nat)
    requires CacheCorrect(g, cache)
    requires n < |ancestry| && Walked(g, cache, ancestry[..n + 1], next) && next in cache
    ensures CacheCorrect(g, cache[ancestry[n] := Min(MAX_DEPTH, cache[next] + 1)])
    ensures Walked(g, cache[ancestry[n] := Min(MAX_DEPTH, cache[next] + 1)], ancestry[..n], ancestry[n])
  {
    var front, id := ancestry[..n + 1], ancestry[n];
    var cache' := cache[id := Min(MAX_DEPTH, cache[next] + 1)];
    assert front[n] == id && Up(g, id) == Some(Following(front, next, n));
    BelowCacheAcyclic(g, cache, id);
    assert front[n..] == [id];
    WalkedPrefix(g, cache, cache', front, next, n);
    assert front[..n] == ancestry[..n];
  }

  lemma {:induction false} CycleStep<Id(!new)>(g: Graph<Id>, cache: map<Id, nat>, ancestry: seq<Id>, current: Id,
        start: nat, i: nat)
    requires Walked(g, cache, ancestry, current)
    requires start <= i < |ancestry| && ancestry[start] == current
    ensures ancestry[i] in g && CappedDepth(g, ancestry[i]) == ROOT_STEP_DEPTH
    ensures Up(g, ancestry[i]).Some? && Up(g, ancestry[i]).value in ancestry[start..]
  {
    WalkedCycle(g, cache, ancestry, current, start, i);
    var tail := ancestry[start..];
    assert Up(g, ancestry[i]) == Some(Following(ancestry, current, i));
    assert tail[0] == current;
    assert i + 1 < |ancestry| ==> tail[i + 1 - start] == ancestry[i + 1];
  }

  // Giving depth zero to everything from the repeated step on keeps the cache correct.
  lemma {:induction false} CycleCut<Id(!new)>(g: Graph<Id>, cache: map<Id, nat>, cache': map<Id, nat>,
        ancestry: seq<Id>, current: Id, start: nat)
    requires CacheCorrect(g, cache) && Walked(g, cache, ancestry, current)
    requires start < |ancestry| && ancestry[start] == current
    requires forall id :: id in cache' <==> id in cache || id in ancestry[start..]
    requires forall id :: id in cache' ==> cache'[id] == if id in cache then cache[id] else ROOT_STEP_DEPTH
    ensures CacheCorrect(g, cache')
    ensures Walked(g, cache', ancestry[..start], current)
  {
    hide Walked, CappedDepth;
    forall id | id in cache'
      ensures id in g && cache'[id] == CappedDepth(g, id)
      ensures Up(g, id).Some? ==> Up(g, id).value in cache'
    {
      if id !in cache {
        var tail := ancestry[start..];
        var k :| 0 <= k < |tail| && tail[k] == id;
        CycleStep(g, cache, ancestry, current, start, start + k);
      }
    }
    WalkedPrefix(g, cache, cache', ancestry, current, start);
  }

  // Steps and the depths found so far. `parents` gives each recorded step its parent link.
  class DepthResolver<Id(==, !new)> {
    const parents: Graph<Id>
    var depthCache: map<Id, nat>

    constructor (parents: Graph<Id>)
      ensures this.parents == parents && depthCache == map[]
      ensures CacheCorrect(parents, depthCache)
    {
      this.parents := parents;
      depthCache := map[];
    }

    // Returns what the cache holds for the step after the walk: nothing exactly for a step never recorded.
    method Resolve(stepId: Id) returns (depth: Option<nat>)
      requires CacheCorrect(parents, depthCache)
      modifies this`depthCache
      ensures CacheCorrect(parents, depthCache)
      ensures forall id :: id in old(depthCache) ==> id in depthCache
      ensures depth == if stepId in parents then Some(CappedDepth(parents, stepId)) else None
      ensures stepId in parents ==> depth == Some(Min(1000, Depth(parents, stepId)))
    {
      if stepId in depthCache {
        return Some(depthCache[stepId]);
      }
      var ancestry: seq<Id> := [];
      var ancestryIndexes: map<Id, nat> := map[];
      var currentStepId := stepId;
      var resolvedDepth: Option<nat> := None;

      while resolvedDepth.None?
        invariant CacheCorrect(parents, depthCache)
        invariant forall id :: id in old(depthCache) ==> id in depthCache
        invariant Walked(parents, depthCache, ancestry, currentStepId)
        invariant resolvedDepth.None? ==> Indexed(ancestry, ancestryIndexes) && stepId !in depthCache
        invariant stepId in depthCache || stepId == (ancestry + [currentStepId])[0]
        invariant stepId in parents <==> currentStepId in parents
        invariant stepId !in parents ==> ancestry == []
        invariant resolvedDepth.Some? && stepId in parents ==>
                    currentStepId in depthCache && depthCache[currentStepId] == resolvedDepth.value
        decreases if resolvedDepth.None? then |parents| - |ancestry| + 1 else 0
      {
        DistinctFits(ancestry, parents.Keys);
        if currentStepId in depthCache {
          resolvedDepth := Some(depthCache[currentStepId]);
          continue;
        }
        if currentStepId in ancestryIndexes {
          var cycleStart := ancestryIndexes[currentStepId];
          CutCycle(ancestry, currentStepId, cycleStart);
          ancestry := ancestry[..cycleStart];
          resolvedDepth := Some(ROOT_STEP_DEPTH);
          continue;
        }
        if currentStepId !in parents {
          resolvedDepth := Some(ROOT_STEP_DEPTH);
          continue;
        }
        var parentStepId := Up(parents, currentStepId);
        if parentStepId.None? {
          RootCached(parents, depthCache, ancestry, ancestryIndexes, currentStepId);
          depthCache := depthCache[currentStepId := ROOT_STEP_DEPTH];
          resolvedDepth := Some(ROOT_STEP_DEPTH);
          continue;
        }
        WalkedPush(parents, depthCache, ancestry, ancestryIndexes, currentStepId);
        ancestryIndexes := ancestryIndexes[currentStepId := |ancestry|];
        ancestry := ancestry + [currentStepId];
        currentStepId := parentStepId.value;
      }

      Unwind(ancestry, currentStepId, resolvedDepth.value);
      depth := if stepId in depthCache then Some(depthCache[stepId]) else None;
    }

    // Gives every step of the cycle that starts at index `cycleStart` depth zero.
    method CutCycle(ancestry: seq<Id>, current: Id, cycleStart: nat)
      requires CacheCorrect(parents, depthCache)
      requires Walked(parents, depthCache, ancestry, current)
      requires cycleStart < |ancestry| && ancestry[cycleStart] == current
      modifies this`depthCache
      ensures CacheCorrect(parents, depthCache)
      ensures forall id :: id in depthCache <==> id in old(depthCache) || id in ancestry[cycleStart..]
      ensures Walked(parents, depthCache, ancestry[..cycleStart], current)
      ensures current in depthCache && depthCache[current] == ROOT_STEP_DEPTH
    {
      hide Walked, CacheCorrect;
      var i := cycleStart;
      ghost var tail := ancestry[cycleStart..];
      TailFresh(parents, depthCache, ancestry, current, cycleStart);
      while i < |ancestry|
        invariant cycleStart <= i <= |ancestry|
        invariant forall id :: id in depthCache <==> id in old(depthCache) || id in tail[..i - cycleStart]
        invariant forall id :: id in depthCache ==>
                    depthCache[id] == if id in old(depthCache) then old(depthCache)[id] else ROOT_STEP_DEPTH
      {
        assert tail[i - cycleStart] == ancestry[i];
        assert tail[..i - cycleStart + 1] == tail[..i - cycleStart] + [tail[i - cycleStart]];
        depthCache := depthCache[ancestry[i] := ROOT_STEP_DEPTH];
        i := i + 1;
      }
      assert tail[..i - cycleStart] == tail && tail[0] == current;
      CycleCut(parents, old(depthCache), depthCache, ancestry, current, cycleStart);
    }

    // Walks back down from the resolved step, one level at a time.
    method Unwind(ancestry: seq<Id>, resolved: Id, resolvedDepth: nat)
      requires CacheCorrect(parents, depthCache)
      requires Walked(parents, depthCache, ancestry, resolved)
      requires ancestry != [] ==> resolved in depthCache && depthCache[resolved] == resolvedDepth
      modifies this`depthCache
      ensures CacheCorrect(parents, depthCache)
      ensures forall id :: id in old(depthCache) ==> id in depthCache
      ensures ancestry != [] ==> ancestry[0] in depthCache
      ensures ancestry == [] ==> depthCache == old(depthCache)
    {
      var i := |ancestry|;
      var d := resolvedDepth;
      ghost var next := resolved;
      assert ancestry[..i] == ancestry;
      while i > 0
        invariant 0 <= i <= |ancestry|
        invariant CacheCorrect(parents, depthCache)
        invariant forall id :: id in old(depthCache) ==> id in depthCache
        invariant Walked(parents, depthCache, ancestry[..i], next)
        invariant ancestry != [] ==> next in depthCache && depthCache[next] == d
        invariant next == if i < |ancestry| then ancestry[i] else resolved
        invariant i == |ancestry| ==> depthCache == old(depthCache)
      {
        i := i - 1;
        UnwindStep(parents, depthCache, ancestry, next, i);
        d := Min(MAX_DEPTH, d + 1);
        depthCache := depthCache[ancestry[i] := d];
        next := ancestry[i];
      }
    }
  }
}
