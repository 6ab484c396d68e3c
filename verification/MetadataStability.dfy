// When bounding a value of the heap a second time changes nothing.
module MetadataStability {
  import opened Wrappers
  import opened Json
  import opened MetadataBounds
  import opened MetadataLaws
  import opened MetadataPrepare

  // ---- The condition, along the walk ----

  // Cutting the string to n code units leaves it alone: it is short enough, or looks as if it had been cut there.
  predicate FitsIn(s: Str, n: nat) {
    (0 < n && |s| <= n) || (|s| == n + 1 && s[n..] == ELLIPSIS)
  }

  // The failure marker of a record stays as it is below the depth limit if its reason is short enough.
  predicate FailureStays(l: Limits, depth: nat) {
    depth < MAX_DEPTH && FitsIn(Ascii("metadataEnumerationFailed"), l.maxMetadataValueLength)
  }

  // Every array looked into, the first time an object is met, has at most 51 items, and every marker that takes the
  // place of a value is short enough to be kept as a string. What is dropped because reading it threw does not matter.
  ghost predicate Stays(h: Heap, l: Limits, preview: bool, v: Value, seen: set<nat>, depth: nat)
    requires Closed(h) && ValueIn(h, v) && depth <= MAX_DEPTH + 1
    decreases MAX_DEPTH + 1 - depth, 1, 0
  {
    depth > MAX_DEPTH ||
    match v
    case BigInt(digits) => FitsIn(digits + Ascii("n"), MaxLength(preview, l))
    case Function => FitsIn(Ascii("[Function]"), MaxLength(preview, l))
    case Symbol => FitsIn(Ascii("[Symbol]"), MaxLength(preview, l))
    case NonFinite(text) => FitsIn(text, MaxLength(preview, l))
    case Ref(r) =>
      if r in seen then FitsIn(Ascii("[Circular]"), MaxLength(preview, l))
      else
        (match h[r]
         case BrokenArr => true
         case BrokenRec => FailureStays(l, depth)
         case Arr(items) => |items| <= MAX_ITEMS + 1
             && ItemsStay(h, l, items[..Min(MAX_ITEMS, |items|)], seen + {r}, depth + 1)
         case Rec(entries) =>
           if BoundEntries(h, l, entries, seen + {r}, depth + 1).value.None? then FailureStays(l, depth)
           else EntriesStay(h, l, entries, seen + {r}, depth + 1))
    case _ => true
  }

  ghost predicate ItemsStay(h: Heap, l: Limits, items: seq<Value>, seen: set<nat>, depth: nat)
    requires Closed(h) && (forall i :: 0 <= i < |items| ==> ValueIn(h, items[i])) && depth <= MAX_DEPTH + 1
    decreases MAX_DEPTH + 1 - depth, 2, |items|
  {
    items == [] ||
    (&& Stays(h, l, false, items[0], seen, depth)
     && ItemsStay(h, l, items[1..], Bound(h, l, false, items[0], seen, depth).seen, depth))
  }

  ghost predicate EntriesStay(h: Heap, l: Limits, entries: seq<(Str, Value)>, seen: set<nat>, depth: nat)
    requires Closed(h) && (forall i :: 0 <= i < |entries| ==> ValueIn(h, entries[i].1)) && depth <= MAX_DEPTH + 1
    decreases MAX_DEPTH + 1 - depth, 2, |entries|
  {
    entries == [] ||
    var preview := IsPreviewKey(entries[0].0);
    && (entries[0].0 != PROTO ==> Stays(h, l, preview, entries[0].1, seen, depth))
    && EntriesStay(h, l, entries[1..], Bound(h, l, preview, entries[0].1, seen, depth).seen, depth)
  }

  // ---- It is exact ----

  lemma {:induction false} StringStays(s: Str, n: nat)
    ensures TruncateString(s, n) == s <==> FitsIn(s, n)
  {
    if n == 0 && TruncateString(s, n) == s {
      assert s[0..] == s;
    }
    if n > 0 && |s| > n {
      var cut := s[..n] + ELLIPSIS;
      if cut == s {
        assert s[n..] == ELLIPSIS;
      }
      if |s| == n + 1 && s[n..] == ELLIPSIS {
        assert s == s[..n] + s[n..];
      }
    }
    if n == 0 && |s| == 1 && s[0..] == ELLIPSIS {
      assert s == s[0..];
    }
  }

  // What bounding makes of it stays as it is when bounded again.
  ghost predicate Stable(l: Limits, preview: bool, j: Json, depth: nat)
    requires depth <= MAX_DEPTH + 1
  {
    BoundTree(l, preview, j, depth) == j
  }

  lemma {:induction false} FailureStable(l: Limits, preview: bool, depth: nat)
    requires depth <= MAX_DEPTH
    ensures Stable(l, preview, EnumerationFailed(), depth) <==> FailureStays(l, depth)
  {
    hide Ascii, IsPreviewKey, TruncateString, TreeFields, EnumerationFailed, FitsIn;
    var reason := Ascii("metadataEnumerationFailed");
    FailureTwice(l, preview, depth);
    StringStays(reason, l.maxMetadataValueLength);
    if depth < MAX_DEPTH {
      assert BoundTree(l, false, JBool(true), depth + 1) == JBool(true);
      assert BoundTree(l, false, JStr(reason), depth + 1) == JStr(TruncateString(reason, l.maxMetadataValueLength));
    } else {
      assert BoundTree(l, false, JBool(true), depth + 1) == MaxDepthMark();
    }
  }

  // The two fields of the failure marker, bounded.
  lemma {:induction false} FailureTwice(l: Limits, preview: bool, depth: nat)
    requires depth <= MAX_DEPTH
    ensures var flag, reason := BoundTree(l, false, JBool(true), depth + 1),
                                BoundTree(l, false, JStr(Ascii("metadataEnumerationFailed")), depth + 1);
            BoundTree(l, preview, EnumerationFailed(), depth) == EnumerationFailed()
            <==> flag == JBool(true) && reason == JStr(Ascii("metadataEnumerationFailed"))
  {
    FailureKeys();
    ShortKey(Ascii("reason"));
    hide Ascii, IsPreviewKey, BoundTree, TreeFields;
    PairTwice(l, preview, Ascii("truncated"), Ascii("reason"), Ascii("metadataEnumerationFailed"), depth);
  }

  lemma {:induction false} PairTwice(l: Limits, preview: bool, k0: Str, k1: Str, reason: Str, depth: nat)
    requires depth <= MAX_DEPTH && k0 != PROTO && k1 != PROTO && !IsPreviewKey(k1)
    ensures var flag, text := BoundTree(l, false, JBool(true), depth + 1), BoundTree(l, false, JStr(reason), depth + 1);
            var pair := JObj([Field(k0, JBool(true)), Field(k1, JStr(reason))]);
            BoundTree(l, preview, pair, depth) == pair <==> flag == JBool(true) && text == JStr(reason)
  {
    var fs := [Field(k0, JBool(true)), Field(k1, JStr(reason))];
    FlagAnywhere(l, IsPreviewKey(k0), depth + 1);
    ObjectBound(l, preview, fs, depth);
    hide IsPreviewKey, TreeFields, BoundTree;
    TwoFields(l, fs, depth + 1);
    var again := TreeFields(l, fs, depth + 1);
    assert again == fs <==> again[0] == fs[0] && again[1] == fs[1];
  }

  lemma {:induction false} ObjectBound(l: Limits, preview: bool, fs: seq<Field>, depth: nat)
    requires depth <= MAX_DEPTH
    ensures BoundTree(l, preview, JObj(fs), depth) == JObj(TreeFields(l, fs, depth + 1))
  {
  }

  lemma {:induction false} FlagAnywhere(l: Limits, preview: bool, depth: nat)
    requires depth <= MAX_DEPTH + 1
    ensures BoundTree(l, preview, JBool(true), depth) == BoundTree(l, false, JBool(true), depth)
  {
  }

  lemma {:induction false} FailureKeys()
    ensures Ascii("truncated") != PROTO && Ascii("reason") != PROTO
  {
    assert |PROTO| == 9 && PROTO[0] == 95 && Ascii("truncated")[0] == 116 && |Ascii("reason")| == 6;
  }

  lemma {:induction false} TwoFields(l: Limits, fs: seq<Field>, depth: nat)
    requires depth <= MAX_DEPTH + 1 && |fs| == 2 && fs[0].key != PROTO && fs[1].key != PROTO
    ensures TreeFields(l, fs, depth) == [Field(fs[0].key, BoundTree(l, IsPreviewKey(fs[0].key), fs[0].value, depth)),
                                         Field(fs[1].key, BoundTree(l, IsPreviewKey(fs[1].key), fs[1].value, depth))]
  {
    assert fs[1..][0] == fs[1] && fs[1..][1..] == [];
    assert TreeFields(l, fs[1..], depth)
           == [Field(fs[1].key, BoundTree(l, IsPreviewKey(fs[1].key), fs[1].value, depth))];
  }

  lemma {:induction false} ShortKey(key: Str)
    requires |key| < 7
    ensures !IsPreviewKey(key)
  {
    if key != [] {
      ShortKey(key[1..]);
    }
  }

  lemma {:induction false} StableExactly(h: Heap, l: Limits, preview: bool, v: Value, seen: set<nat>, depth: nat)
    requires Closed(h) && ValueIn(h, v) && depth <= MAX_DEPTH + 1
    requires Bound(h, l, preview, v, seen, depth).value.Some?
    ensures Stable(l, preview, Bound(h, l, preview, v, seen, depth).value.value, depth)
            <==> Stays(h, l, preview, v, seen, depth)
    decreases MAX_DEPTH + 1 - depth, 1, 0
  {
    hide Stable, Stays;
    if depth <= MAX_DEPTH && v.Ref? && v.r !in seen {
      match h[v.r]
      case Arr(items) =>
        ItemsStableExactly(h, l, items[..Min(MAX_ITEMS, |items|)], seen + {v.r}, depth + 1);
        ArrayStable(h, l, preview, v.r, seen, depth);
      case Rec(entries) =>
        if BoundEntries(h, l, entries, seen + {v.r}, depth + 1).value.Some? {
          EntriesStableExactly(h, l, entries, seen + {v.r}, depth + 1);
        }
        RecordStable(h, l, preview, v.r, seen, depth);
      case BrokenRec => RecordStable(h, l, preview, v.r, seen, depth);
    } else {
      LeafStable(h, l, preview, v, seen, depth);
    }
  }

  lemma {:induction false} LeafStable(h: Heap, l: Limits, preview: bool, v: Value, seen: set<nat>, depth: nat)
    requires Closed(h) && ValueIn(h, v) && depth <= MAX_DEPTH + 1
    requires depth > MAX_DEPTH || !v.Ref? || v.r in seen
    ensures Bound(h, l, preview, v, seen, depth).value.Some?
    ensures Stable(l, preview, Bound(h, l, preview, v, seen, depth).value.value, depth)
            <==> Stays(h, l, preview, v, seen, depth)
  {
    var once := Bound(h, l, preview, v, seen, depth).value.value;
    var n := MaxLength(preview, l);
    if depth <= MAX_DEPTH && once.JStr? {
      StringStays(once.s, n);
      if v.Text? {
        TruncateCompose(v.s, n, n);
      }
    }
  }

  lemma {:induction false} ArrayStable(h: Heap, l: Limits, preview: bool, r: nat, seen: set<nat>, depth: nat)
    requires Closed(h) && r in h && h[r].Arr? && r !in seen && depth <= MAX_DEPTH
    requires var out := BoundItems(h, l, h[r].items[..Min(MAX_ITEMS, |h[r].items|)], seen + {r}, depth + 1);
             && out.value.Some?
             && (TreeItems(l, out.value.value, depth + 1) == out.value.value
                 <==> ItemsStay(h, l, h[r].items[..Min(MAX_ITEMS, |h[r].items|)], seen + {r}, depth + 1))
    ensures Bound(h, l, preview, Ref(r), seen, depth).value.Some?
    ensures Stable(l, preview, Bound(h, l, preview, Ref(r), seen, depth).value.value, depth)
            <==> Stays(h, l, preview, Ref(r), seen, depth)
  {
    hide BoundItems, ItemsStay, TreeItems;
    var items := h[r].items;
    var js := BoundItems(h, l, items[..Min(MAX_ITEMS, |items|)], seen + {r}, depth + 1).value.value;
    ArrayTwice(l, preview, js, |items|, depth);
  }

  // An array with its marker is bounded to itself exactly if its items are and the marker counts no more than one.
  lemma {:induction false} ArrayTwice(l: Limits, preview: bool, js: seq<Json>, length: nat, depth: nat)
    requires |js| == Min(MAX_ITEMS, length) && depth <= MAX_DEPTH
    ensures BoundTree(l, preview, JArr(js + More(length)), depth) == JArr(js + More(length))
            <==> length <= MAX_ITEMS + 1 && TreeItems(l, js, depth + 1) == js
  {
    var once := js + More(length);
    assert once[..Min(MAX_ITEMS, |once|)] == js;
    hide TreeItems, MoreMark;
    var again := TreeItems(l, js, depth + 1) + More(|once|);
    assert BoundTree(l, preview, JArr(once), depth) == JArr(again);
    if again == once {
      assert again[..|js|] == TreeItems(l, js, depth + 1) && once[..|js|] == js;
      if length > MAX_ITEMS + 1 {
        assert again[MAX_ITEMS] == MoreMark(1) && once[MAX_ITEMS] == MoreMark(length - MAX_ITEMS);
        MarksDiffer(length - MAX_ITEMS);
      }
    }
  }

  lemma {:induction false} RecordStable(h: Heap, l: Limits, preview: bool, r: nat, seen: set<nat>, depth: nat)
    requires Closed(h) && r in h && (h[r].Rec? || h[r].BrokenRec?) && r !in seen && depth <= MAX_DEPTH
    requires h[r].Rec? ==>
               var out := BoundEntries(h, l, h[r].entries, seen + {r}, depth + 1);
               out.value.Some? ==> (TreeFields(l, out.value.value, depth + 1) == out.value.value
                                    <==> EntriesStay(h, l, h[r].entries, seen + {r}, depth + 1))
    ensures Bound(h, l, preview, Ref(r), seen, depth).value.Some?
    ensures Stable(l, preview, Bound(h, l, preview, Ref(r), seen, depth).value.value, depth)
            <==> Stays(h, l, preview, Ref(r), seen, depth)
  {
    FailureStable(l, preview, depth);
  }

  lemma {:induction false} ItemsStableExactly(h: Heap, l: Limits, items: seq<Value>, seen: set<nat>, depth: nat)
    requires Closed(h) && (forall i :: 0 <= i < |items| ==> ValueIn(h, items[i])) && depth <= MAX_DEPTH + 1
    requires BoundItems(h, l, items, seen, depth).value.Some?
    ensures var js := BoundItems(h, l, items, seen, depth).value.value;
            TreeItems(l, js, depth) == js <==> ItemsStay(h, l, items, seen, depth)
    decreases MAX_DEPTH + 1 - depth, 2, |items|
  {
    if items != [] {
      var first := Bound(h, l, false, items[0], seen, depth);
      var rest := BoundItems(h, l, items[1..], first.seen, depth);
      StableExactly(h, l, false, items[0], seen, depth);
      ItemsStableExactly(h, l, items[1..], first.seen, depth);
      hide Bound, Stays, BoundTree;
      var js := [first.value.value] + rest.value.value;
      assert js[1..] == rest.value.value;
      var again := [BoundTree(l, false, js[0], depth)] + TreeItems(l, js[1..], depth);
      assert again == js <==> again[0] == js[0] && again[1..] == js[1..] by {
        assert js == [js[0]] + js[1..] && again == [again[0]] + again[1..];
      }
    }
  }

  lemma {:induction false} EntriesStableExactly(h: Heap, l: Limits, entries: seq<(Str, Value)>, seen: set<nat>,
        depth: nat)
    requires Closed(h) && (forall i :: 0 <= i < |entries| ==> ValueIn(h, entries[i].1)) && depth <= MAX_DEPTH + 1
    requires BoundEntries(h, l, entries, seen, depth).value.Some?
    ensures var fs := BoundEntries(h, l, entries, seen, depth).value.value;
            TreeFields(l, fs, depth) == fs <==> EntriesStay(h, l, entries, seen, depth)
    decreases MAX_DEPTH + 1 - depth, 2, |entries|
  {
    if entries != [] {
      var key := entries[0].0;
      var first := Bound(h, l, IsPreviewKey(key), entries[0].1, seen, depth);
      var rest := BoundEntries(h, l, entries[1..], first.seen, depth);
      StableExactly(h, l, IsPreviewKey(key), entries[0].1, seen, depth);
      EntriesStableExactly(h, l, entries[1..], first.seen, depth);
      if key != PROTO {
        FirstField(l, Field(key, first.value.value), rest.value.value, depth);
      }
    }
  }

  lemma {:induction false} FirstField(l: Limits, f: Field, rest: seq<Field>, depth: nat)
    requires depth <= MAX_DEPTH + 1 && f.key != PROTO
    ensures TreeFields(l, [f] + rest, depth) == [f] + rest
            <==> Stable(l, IsPreviewKey(f.key), f.value, depth) && TreeFields(l, rest, depth) == rest
  {
    var all := [f] + rest;
    assert all[1..] == rest;
    var again := [Field(f.key, BoundTree(l, IsPreviewKey(f.key), f.value, depth))] + TreeFields(l, rest, depth);
    assert TreeFields(l, all, depth) == again;
    if again == all {
      assert again[0] == all[0] && again[1..] == all[1..];
    }
  }

  // ---- Bounding twice ----

  // The result laid out in a heap again, in objects of its own, is bounded to itself exactly under that condition.
  lemma {:induction false} BoundTwiceExactly(h: Heap, l: Limits, preview: bool, v: Value, h': Heap, again: Value,
        refs: set<nat>)
    requires Closed(h) && ValueIn(h, v) && Bound(h, l, preview, v, {}, 0).value.Some?
    requires Closed(h') && ValueIn(h', again) && Holds(h', again, Bound(h, l, preview, v, {}, 0).value.value, refs)
    ensures Bound(h', l, preview, again, {}, 0).value == Bound(h, l, preview, v, {}, 0).value
            <==> Stays(h, l, preview, v, {}, 0)
  {
    var once := Bound(h, l, preview, v, {}, 0).value.value;
    StableExactly(h, l, preview, v, {}, 0);
    BoundOnTree(h', l, preview, again, once, refs, {}, 0);
  }

  // ---- Where it fails ----

  function Nulls(n: nat): (r: seq<Value>)
    ensures |r| == n && forall i :: 0 <= i < n ==> r[i] == Null
  {
    if n == 0 then [] else [Null] + Nulls(n - 1)
  }

  function NoValues(n: nat): (r: seq<Json>)
    ensures |r| == n && forall i :: 0 <= i < n ==> r[i] == JNull
  {
    if n == 0 then [] else [JNull] + NoValues(n - 1)
  }

  // An array of 52 items, what bounding makes of it, and that laid out in a heap again.
  const Long: Heap := map[0 := Arr(Nulls(52))]
  const LongOnce: Json := JArr(NoValues(50) + [MoreMark(2)])
  const Relaid: Heap := map[0 := Arr(Nulls(50) + [Text(MoreMark(2).s)])]

  // The array becomes one of 51 items, and the marker at its end then counts one dropped item instead of two.
  lemma {:induction false} BoundTwiceDiffers(l: Limits)
    ensures Closed(Long) && Bound(Long, l, false, Ref(0), {}, 0).value == Some(LongOnce)
    ensures Closed(Relaid) && Holds(Relaid, Ref(0), LongOnce, {0})
    ensures Bound(Relaid, l, false, Ref(0), {}, 0).value != Some(LongOnce)
  {
    hide Stays;
    LongBound(l);
    RelaidHolds();
    LongNotStays(l);
    BoundTwiceExactly(Long, l, false, Ref(0), Relaid, Ref(0), {0});
  }

  lemma {:induction false} LongNotStays(l: Limits)
    ensures Closed(Long) && !Stays(Long, l, false, Ref(0), {}, 0)
  {
    hide Nulls;
  }

  lemma {:induction false} LongBound(l: Limits)
    ensures Closed(Long) && Bound(Long, l, false, Ref(0), {}, 0).value == Some(LongOnce)
  {
    hide Nulls, NoValues, MoreMark;
    assert Nulls(52)[..50] == Nulls(50);
    var seen: set<nat> := {};
    NullsBound(Long, l, 50, seen + {0}, 1);
    assert More(52) == [MoreMark(2)];
  }

  lemma {:induction false} RelaidHolds()
    ensures Closed(Relaid) && Holds(Relaid, Ref(0), LongOnce, {0})
  {
    hide Nulls, NoValues, MoreMark;
    MarkIsString(2);
    var refs: set<nat> := {0};
    assert refs - {0} == {};
    LastHolds(Relaid, MoreMark(2).s);
    HoldsNulls(Relaid, 50, [Text(MoreMark(2).s)], [MoreMark(2)]);
  }

  lemma {:induction false} MarkIsString(n: nat)
    ensures MoreMark(n).JStr?
  {
  }

  lemma {:induction false} LastHolds(h: Heap, s: Str)
    ensures HoldsItems(h, [Text(s)], [JStr(s)], {})
  {
    var own: set<nat> := {};
    assert Holds(h, [Text(s)][0], [JStr(s)][0], own) && HoldsItems(h, [Text(s)][1..], [JStr(s)][1..], own - own);
  }

  lemma {:induction false} NullsBound(h: Heap, l: Limits, n: nat, seen: set<nat>, depth: nat)
    requires Closed(h) && depth <= MAX_DEPTH
    ensures BoundItems(h, l, Nulls(n), seen, depth) == Bounded(Some(NoValues(n)), seen)
    decreases n
  {
    if n > 0 {
      NullsBound(h, l, n - 1, seen, depth);
      assert Nulls(n)[1..] == Nulls(n - 1);
    }
  }

  lemma {:induction false} HoldsNulls(h: Heap, n: nat, vs: seq<Value>, js: seq<Json>)
    requires HoldsItems(h, vs, js, {})
    ensures HoldsItems(h, Nulls(n) + vs, NoValues(n) + js, {})
    decreases n
  {
    if n > 0 {
      HoldsNulls(h, n - 1, vs, js);
      NullHolds(h, Nulls(n - 1) + vs, NoValues(n - 1) + js);
      assert Nulls(n) + vs == [Null] + (Nulls(n - 1) + vs) && NoValues(n) + js == [JNull] + (NoValues(n - 1) + js);
    } else {
      assert Nulls(0) + vs == vs && NoValues(0) + js == js;
    }
  }

  lemma {:induction false} NullHolds(h: Heap, vs: seq<Value>, js: seq<Json>)
    requires HoldsItems(h, vs, js, {})
    ensures HoldsItems(h, [Null] + vs, [JNull] + js, {})
  {
    var own: set<nat> := {};
    var us, ks := [Null] + vs, [JNull] + js;
    assert us[1..] == vs && ks[1..] == js && own - own == {};
    assert Holds(h, us[0], ks[0], own) && HoldsItems(h, us[1..], ks[1..], own - own);
  }
}
