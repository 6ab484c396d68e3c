// The focus on slow steps: which entries of the timeline are marked.
module SlowFocus {
  import opened Wrappers
  import opened ParentGraph
  import opened StepDepth
  import opened StableSort
  import opened Trace
  import opened Timeline
  import opened RunSummary

  ghost predicate DistinctIds(es: seq<Entry>) {
    forall i, j :: 0 <= i < j < |es| ==> es[i].stepId != es[j].stepId
  }

  ghost function Ids(es: seq<Entry>): set<string> {
    set i | 0 <= i < |es| :: es[i].stepId
  }

  lemma {:induction false} IdsSnoc(es: seq<Entry>, e: Entry)
    ensures Ids(es + [e]) == Ids(es) + {e.stepId}
    ensures DistinctIds(es + [e]) <==> DistinctIds(es) && e.stepId !in Ids(es)
  {
    var longer := es + [e];
    assert forall i :: 0 <= i < |es| ==> longer[i] == es[i];
    assert longer[|es|] == e;
    forall i | 0 <= i < |es|
      ensures es[i].stepId in Ids(longer)
    {
      assert longer[i].stepId == es[i].stepId;
    }
    assert Ids(longer) == Ids(es) + {e.stepId};
    if e.stepId in Ids(es) {
      var i :| 0 <= i < |es| && es[i].stepId == e.stepId;
      assert longer[i].stepId == longer[|es|].stepId;
    }
  }

  lemma {:induction false} DistinctIsCounted(es: seq<Entry>)
    ensures |Ids(es)| <= |es|
    ensures DistinctIds(es) <==> |Ids(es)| == |es|
  {
    if es != [] {
      var front, last := es[..|es| - 1], es[|es| - 1];
      DistinctIsCounted(front);
      IdsSnoc(front, last);
      assert es == front + [last];
      assert last.stepId in Ids(front) ==> Ids(es) == Ids(front);
    }
  }

  lemma {:induction false} DistinctPermuted(a: seq<Entry>, b: seq<Entry>)
    requires multiset(a) == multiset(b) && DistinctIds(a)
    ensures DistinctIds(b) && Ids(a) == Ids(b) && |a| == |b|
  {
    assert |multiset(a)| == |a| && |multiset(b)| == |b|;
    forall i | 0 <= i < |a|
      ensures a[i].stepId in Ids(b)
    {
      assert a[i] in multiset(b);
    }
    forall i | 0 <= i < |b|
      ensures b[i].stepId in Ids(a)
    {
      assert b[i] in multiset(a);
    }
    assert Ids(a) == Ids(b);
    DistinctIsCounted(a);
    DistinctIsCounted(b);
  }

  lemma {:induction false} TimedIs(es: seq<Entry>)
    requires DistinctIds(es)
    ensures DistinctIds(Timed(es)) && Ids(Timed(es)) <= Ids(es)
    ensures forall e :: e in Timed(es) <==> e in es && e.durationMs.Some?
  {
    if es != [] {
      var front, last := es[..|es| - 1], es[|es| - 1];
      TimedIs(front);
      assert es == front + [last];
      forall i | 0 <= i < |Timed(front)|
        ensures Timed(front)[i].stepId != last.stepId
      {
        assert Timed(front)[i] in front;
      }
      assert Ids(front) <= Ids(es) by {
        assert forall i :: 0 <= i < |front| ==> es[i] == front[i];
      }
      assert last.stepId in Ids(es);
    }
  }

  lemma {:induction false} TimedCount(es: seq<Entry>, marked: seq<Entry>)
    requires |es| == |marked| && forall i :: 0 <= i < |es| ==> marked[i].durationMs == es[i].durationMs
    ensures |Timed(es)| == |Timed(marked)|
  {
    if es != [] {
      TimedCount(es[..|es| - 1], marked[..|es| - 1]);
    }
  }

  ghost function Flagged(es: seq<Entry>): set<string> {
    set i | 0 <= i < |es| && es[i].slow :: es[i].stepId
  }

  function Top(es: seq<Entry>, topN: nat): seq<Entry> {
    Slice(Ranked(es), topN)
  }

  lemma {:induction false} TopIds(es: seq<Entry>, topN: nat)
    requires DistinctIds(es)
    ensures DistinctIds(Ranked(es)) && |Ranked(es)| == |Timed(es)|
    ensures SlowIds(es, topN) == Ids(Top(es, topN)) && |SlowIds(es, topN)| == Min(topN, |Timed(es)|)
  {
    TimedIs(es);
    SortIs(DurationKey, Timed(es));
    DistinctPermuted(Timed(es), Ranked(es));
    DistinctIsCounted(Top(es, topN));
  }

  // The entries ranked are those with a duration, and those at the top have the greatest durations.
  lemma {:induction false} TopEntries(es: seq<Entry>, topN: nat, e: Entry)
    requires DistinctIds(es) && e in es
    ensures e in Top(es, topN) ==> e.durationMs.Some?
    ensures e.durationMs.Some? && e !in Top(es, topN) ==> forall t :: t in Top(es, topN) ==>
              DurationKey(t) <= DurationKey(e)
  {
    var timed, ranked := Timed(es), Ranked(es);
    TimedIs(es);
    SortIs(DurationKey, timed);
    var n := Min(topN, |timed|);
    TopOfSorted(DurationKey, timed, n);
    assert Top(es, topN) == ranked[..n];
    assert e in multiset(timed) <==> e in timed;
  }

  // An entry with the id of a top entry is that entry.
  lemma {:induction false} TopById(es: seq<Entry>, topN: nat, e: Entry)
    requires DistinctIds(es) && e in es
    ensures e.stepId in SlowIds(es, topN) <==> e in Top(es, topN)
  {
    TopIds(es, topN);
    if e.stepId in SlowIds(es, topN) {
      var top := Top(es, topN);
      var k :| 0 <= k < |top| && top[k].stepId == e.stepId;
      SortIs(DurationKey, Timed(es));
      assert Ranked(es)[k] in multiset(Timed(es));
      TimedIs(es);
      assert top[k] in es;
    }
  }

  lemma {:induction false} TopInEntries(es: seq<Entry>, topN: nat)
    requires DistinctIds(es)
    ensures SlowIds(es, topN) <= Ids(es)
  {
    TopIds(es, topN);
    TimedIs(es);
    SortIs(DurationKey, Timed(es));
    DistinctPermuted(Timed(es), Ranked(es));
  }

  lemma {:induction false} EntriesDistinct(events: seq<TraceEvent>)
    ensures DistinctIds(Sort(StartKey, EntriesOf(Load(events), RunStart(events))))
  {
    var raw := EntriesOf(Load(events), RunStart(events));
    SortIs(StartKey, raw);
    DistinctPermuted(raw, Sort(StartKey, raw));
  }

  lemma {:induction false} MarkedEntry(es: seq<Entry>, topN: nat, i: nat)
    requires i < |es| && DistinctIds(es) && !es[i].slow
    ensures var e := MarkSlow(es, topN)[i];
            && e == es[i].(slow := e.slow) && (e.slow <==> es[i] in Top(es, topN)) && (e.slow
                <==> e.stepId in SlowIds(es, topN))
  {
    TopById(es, topN, es[i]);
  }

  lemma {:induction false} FlaggedAre(es: seq<Entry>, topN: nat)
    requires DistinctIds(es) && forall i :: 0 <= i < |es| ==> !es[i].slow
    ensures Flagged(MarkSlow(es, topN)) == SlowIds(es, topN)
  {
    var marked := MarkSlow(es, topN);
    TopInEntries(es, topN);
    forall i | 0 <= i < |es|
      ensures marked[i].stepId == es[i].stepId && (marked[i].slow <==> es[i].stepId in SlowIds(es, topN))
    {
      MarkedEntry(es, topN, i);
    }
  }

  lemma {:induction false} SortedEntries(events: seq<TraceEvent>)
    ensures var sorted := Sort(StartKey, EntriesOf(Load(events), RunStart(events)));
            DistinctIds(sorted) && forall i :: 0 <= i < |sorted| ==> !sorted[i].slow
  {
    var raw := EntriesOf(Load(events), RunStart(events));
    var sorted := Sort(StartKey, raw);
    EntriesDistinct(events);
    SortIs(StartKey, raw);
    assert forall e :: e in raw ==> !e.slow;
    hide Sort, Load, EntriesOf;
    forall i | 0 <= i < |sorted|
      ensures !sorted[i].slow
    {
      assert sorted[i] in multiset(raw);
    }
  }

  // With the focus on the topN slowest steps exactly that many entries are marked, or all that have a
  // duration if there are fewer.
  lemma {:induction false} AsManyAsAsked(events: seq<TraceEvent>, topN: nat)
    ensures var es := TimelineEntries(events, Some(topN)); |Flagged(es)| == Min(topN, |Timed(es)|)
  {
    var sorted := Sort(StartKey, EntriesOf(Load(events), RunStart(events)));
    SortedEntries(events);
    FlaggedAre(sorted, topN);
    TopIds(sorted, topN);
    TimedCount(sorted, MarkSlow(sorted, topN));
  }

  // Marked entries have a duration, and no unmarked entry took longer than a marked one.
  lemma {:induction false} SlowestAreMarked(events: seq<TraceEvent>, topN: nat, i: nat, j: nat)
    requires var es := TimelineEntries(events, Some(topN)); i < |es| && j < |es| && es[i].slow
    ensures var es := TimelineEntries(events, Some(topN));
            && es[i].durationMs.Some?
            && (!es[j].slow && es[j].durationMs.Some? ==> es[i].durationMs.value >= es[j].durationMs.value)
  {
    var sorted := Sort(StartKey, EntriesOf(Load(events), RunStart(events)));
    SortedEntries(events);
    MarkedEntry(sorted, topN, i);
    MarkedEntry(sorted, topN, j);
    TopEntries(sorted, topN, sorted[i]);
    TopEntries(sorted, topN, sorted[j]);
  }
}
