// What bounded metadata holds of the value it was made from.
module MetadataContent {
  import opened Wrappers
  import opened Json
  import opened MetadataBounds
  import opened MetadataLaws
  import opened MetadataPrepare

  // ---- Leaves ----

  // r is s if s has at most n code units, and else the first n of them and an ellipsis; with n = 0 the ellipsis alone.
  ghost predicate CutTo(s: Str, n: nat, r: Str) {
    if n > 0 && |s| <= n then r == s
    else |s| >= n && |r| == n + 1 && r[n] == 0x2026 && forall i :: 0 <= i < n ==> r[i] == s[i]
  }

  // Some seven letters in a row spell "preview", in any case.
  ghost predicate ContainsPreview(key: Str) {
    exists i :: 0 <= i <= |key| - 7 && SpellsPreview(key, i)
  }

  ghost predicate SpellsPreview(key: Str, i: nat)
    requires i + 7 <= |key|
  {
    forall k :: 0 <= k < 7 ==> key[i + k] == Ascii("preview")[k] || key[i + k] == Ascii("PREVIEW")[k]
  }

  function Limit(preview: bool, l: Limits): nat {
    if preview then l.maxPreviewLength else l.maxMetadataValueLength
  }

  // What is shown of a value that is not an object.
  ghost predicate ShowsLeaf(l: Limits, preview: bool, v: Value, j: Json)
    requires !v.Ref?
  {
    match v
    case Undefined => j == JNull
    case Null => j == JNull
    case Bool(b) => j == JBool(b)
    case Num(text) => j == JNum(text)
    case NonFinite(text) => j == JStr(text)
    case Text(s) => j.JStr? && CutTo(s, Limit(preview, l), j.s)
    case BigInt(digits) => j == JStr(digits + Ascii("n"))
    case Function => j == JStr(Ascii("[Function]"))
    case Symbol => j == JStr(Ascii("[Symbol]"))
  }

  // ---- Objects ----

  // What bounding goes through in an array or a record, in order, each with whether it stands under a preview key.
  ghost function Parts(o: Obj): (parts: seq<(bool, Value)>)
    requires o.Arr? || o.Rec?
    ensures o.Arr? ==> |parts| == Min(50, |o.items|) && forall i :: 0 <= i < |parts| ==> parts[i] == (false, o.items[i])
    ensures o.Rec? ==> |parts| == |o.entries| && forall i :: 0 <= i < |parts| ==>
                         parts[i] == (ContainsPreview(o.entries[i].0), o.entries[i].1)
  {
    if o.Arr? then seq(Min(50, |o.items|), i requires 0 <= i < Min(50, |o.items|) => (false, o.items[i]))
    else seq(|o.entries|, i requires 0 <= i < |o.entries| => (ContainsPreview(o.entries[i].0), o.entries[i].1))
  }

  ghost predicate PartsIn(h: Heap, parts: seq<(bool, Value)>) {
    forall i :: 0 <= i < |parts| ==> ValueIn(h, parts[i].1)
  }

  // The properties of the bounded record: the keys of the entries in order, without __proto__.
  function OwnFields(keys: seq<Str>, js: seq<Json>): seq<Field>
    requires |keys| == |js|
  {
    if keys == [] then []
    else (if keys[0] == Ascii("__proto__") then [] else [Field(keys[0], js[0])]) + OwnFields(keys[1..], js[1..])
  }

  function EntryKeys(entries: seq<(Str, Value)>): (keys: seq<Str>)
    ensures |keys| == |entries|
  {
    seq(|entries|, i requires 0 <= i < |entries| => entries[i].0)
  }

  function FieldKeys(fields: seq<Field>): (keys: seq<Str>)
    ensures |keys| == |fields|
  {
    seq(|fields|, i requires 0 <= i < |fields| => fields[i].key)
  }

  function Items(js: seq<Json>, length: nat): seq<Json> {
    if length > 50 then js + [JStr([0x2026] + Ascii("(+") + Decimal(length - 50) + Ascii(" more)"))] else js
  }

  function Failure(): Json {
    JObj([Field(Ascii("truncated"), JBool(true)), Field(Ascii("reason"), JStr(Ascii("metadataEnumerationFailed")))])
  }

  // The parts are shown one after the other; between[i] are the objects met before the i-th.
  ghost predicate ShowsAll(h: Heap, l: Limits, parts: seq<(bool, Value)>, between: seq<set<nat>>, depth: nat,
        js: seq<Json>)
    requires Closed(h) && PartsIn(h, parts) && depth <= 33
    decreases 33 - depth, 1
  {
    && |between| == |parts| + 1 && |js| == |parts|
    && forall i :: 0 <= i < |parts| ==>
         Shows(h, l, parts[i].0, parts[i].1, between[i], depth, js[i], between[i + 1])
  }

  // The first parts are shown, and reading the next one throws.
  ghost predicate Breaks(h: Heap, l: Limits, parts: seq<(bool, Value)>, between: seq<set<nat>>, depth: nat,
        js: seq<Json>, after: set<nat>)
    requires Closed(h) && PartsIn(h, parts) && depth <= 33
    decreases 33 - depth, 2
  {
    && |js| < |parts| && |between| == |js| + 1
    && ShowsAll(h, l, parts[..|js|], between, depth, js)
    && Throws(h, l, parts[|js|].1, between[|js|], depth, after)
  }

  ghost predicate PartsShown(h: Heap, l: Limits, parts: seq<(bool, Value)>, start: set<nat>, depth: nat, js: seq<Json>,
        after: set<nat>)
    requires Closed(h) && PartsIn(h, parts) && depth <= 33
    decreases 33 - depth, 3
  {
    exists between ::
      && |between| == |js| + 1 && ShowsAll(h, l, parts, between, depth, js)
      && between[0] == start && between[|js|] == after
  }

  ghost predicate PartsBreak(h: Heap, l: Limits, parts: seq<(bool, Value)>, start: set<nat>, depth: nat,
        after: set<nat>)
    requires Closed(h) && PartsIn(h, parts) && depth <= 33
    decreases 33 - depth, 3
  {
    exists between, js :: |between| > 0 && Breaks(h, l, parts, between, depth, js, after) && between[0] == start
  }

  // j is what is recorded of v: `seen` are the objects met before, `after` those met by then, v's own included.
  ghost predicate Shows(h: Heap, l: Limits, preview: bool, v: Value, seen: set<nat>, depth: nat, j: Json,
        after: set<nat>)
    requires Closed(h) && ValueIn(h, v) && depth <= 33
    decreases 33 - depth, 0
  {
    if depth == 33 then j == JStr(Ascii("[MaxDepth]")) && after == seen
    else if !v.Ref? then ShowsLeaf(l, preview, v, j) && after == seen
    else if v.r in seen then j == JStr(Ascii("[Circular]")) && after == seen
    else
      match h[v.r]
      case Arr(items) =>
        exists js ::
          PartsShown(h, l, Parts(h[v.r]), seen + {v.r}, depth + 1, js, after) && j == JArr(Items(js, |items|))
      case Rec(entries) =>
        || (exists js ::
              && PartsShown(h, l, Parts(h[v.r]), seen + {v.r}, depth + 1, js, after)
              && |js| == |entries| && j == JObj(OwnFields(EntryKeys(entries), js)))
        || (PartsBreak(h, l, Parts(h[v.r]), seen + {v.r}, depth + 1, after) && j == Failure())
      case BrokenRec => j == Failure() && after == seen + {v.r}
      case BrokenArr => false
  }

  // Reading v throws: it is an array that throws, or one with an item that does.
  ghost predicate Throws(h: Heap, l: Limits, v: Value, seen: set<nat>, depth: nat, after: set<nat>)
    requires Closed(h) && ValueIn(h, v) && depth <= 33
    decreases 33 - depth, 0
  {
    && depth < 33 && v.Ref? && v.r !in seen
    && match h[v.r]
       case BrokenArr => after == seen + {v.r}
       case Arr(_) => PartsBreak(h, l, Parts(h[v.r]), seen + {v.r}, depth + 1, after)
       case _ => false
  }

  // ---- Bounding the parts ----

  ghost function BoundParts(h: Heap, l: Limits, parts: seq<(bool, Value)>, seen: set<nat>, depth: nat)
    : Bounded<seq<Json>>
    requires Closed(h) && PartsIn(h, parts) && depth <= 33
  {
    if parts == [] then Bounded(Some([]), seen)
    else
      var first := Bound(h, l, parts[0].0, parts[0].1, seen, depth);
      if first.value.None? then Bounded(None, first.seen)
      else
        var rest := BoundParts(h, l, parts[1..], first.seen, depth);
        if rest.value.None? then Bounded(None, rest.seen)
        else Bounded(Some([first.value.value] + rest.value.value), rest.seen)
  }

  lemma {:induction false} ItemsAreParts(h: Heap, l: Limits, items: seq<Value>, parts: seq<(bool, Value)>,
        seen: set<nat>, depth: nat)
    requires Closed(h) && PartsIn(h, parts) && depth <= 33 && |items| == |parts|
    requires forall i :: 0 <= i < |items| ==> parts[i] == (false, items[i])
    ensures BoundItems(h, l, items, seen, depth) == BoundParts(h, l, parts, seen, depth)
    decreases |items|
  {
    assert forall i :: 0 <= i < |items| ==> ValueIn(h, items[i]) by {
      assert forall i :: 0 <= i < |items| ==> parts[i].1 == items[i];
    }
    if items != [] {
      assert forall i :: 0 <= i < |items| - 1 ==> parts[1..][i] == parts[i + 1] && items[1..][i] == items[i + 1];
      ItemsAreParts(h, l, items[1..], parts[1..], Bound(h, l, false, items[0], seen, depth).seen, depth);
    }
  }

  lemma {:induction false} EntriesAreParts(h: Heap, l: Limits, entries: seq<(Str, Value)>, parts: seq<(bool, Value)>,
        seen: set<nat>, depth: nat)
    requires Closed(h) && PartsIn(h, parts) && depth <= 33 && |entries| == |parts|
    requires forall i :: 0 <= i < |entries| ==> parts[i] == (ContainsPreview(entries[i].0), entries[i].1)
    requires forall i :: 0 <= i < |entries| ==> ValueIn(h, entries[i].1)
    ensures var out, all := BoundEntries(h, l, entries, seen, depth), BoundParts(h, l, parts, seen, depth);
            && out.seen == all.seen && (out.value.None? <==> all.value.None?)
            && (all.value.Some? ==> |all.value.value| == |entries|
                                    && out.value == Some(OwnFields(EntryKeys(entries), all.value.value)))
    decreases |entries|
  {
    if entries != [] {
      PreviewKeyIs(entries[0].0);
      assert forall i :: 0 <= i < |entries| - 1 ==> parts[1..][i] == parts[i + 1] && entries[1..][i] == entries[i + 1];
      var first := Bound(h, l, IsPreviewKey(entries[0].0), entries[0].1, seen, depth);
      EntriesAreParts(h, l, entries[1..], parts[1..], first.seen, depth);
      var rest := BoundParts(h, l, parts[1..], first.seen, depth);
      if first.value.Some? && rest.value.Some? {
        var keys := EntryKeys(entries[1..]);
        assert ([first.value.value] + rest.value.value)[1..] == rest.value.value;
        assert EntryKeys(entries)[1..] == keys;
        assert [] + OwnFields(keys, rest.value.value) == OwnFields(keys, rest.value.value);
      }
    }
  }

  lemma {:induction false} StartsAt(key: Str)
    ensures StartsWithPreview(key) <==> |key| >= 7 && SpellsPreview(key, 0)
  {
    assert |Ascii("preview")| == 7 == |Ascii("PREVIEW")|;
    if |key| >= 7 {
      forall k | 0 <= k < 7
        ensures Lower(key[k]) == Ascii("preview")[k] <==>
                  key[k] == Ascii("preview")[k] || key[k] == Ascii("PREVIEW")[k]
      {
      }
    }
  }

  lemma {:induction false} PreviewKeyIs(key: Str)
    ensures IsPreviewKey(key) <==> ContainsPreview(key)
  {
    if key != [] {
      var rest := key[1..];
      PreviewKeyIs(rest);
      StartsAt(key);
      assert forall i :: 0 <= i <= |rest| - 7 ==> (SpellsPreview(rest, i) <==> SpellsPreview(key, i + 1)) by {
        forall i | 0 <= i <= |rest| - 7
          ensures SpellsPreview(rest, i) <==> SpellsPreview(key, i + 1)
        {
          assert forall k :: i <= k < i + 7 ==> rest[k] == key[k + 1];
        }
      }
      if ContainsPreview(key) {
        var i :| 0 <= i <= |key| - 7 && SpellsPreview(key, i);
        assert i > 0 ==> SpellsPreview(rest, i - 1);
      }
    }
  }

  // ---- The relation and the walk ----

  // The parts bounded one after the other are shown, or reading one of them throws.
  lemma {:induction false} PartsTold(h: Heap, l: Limits, parts: seq<(bool, Value)>, seen: set<nat>, depth: nat)
    returns (between: seq<set<nat>>, js: seq<Json>)
    requires Closed(h) && PartsIn(h, parts) && depth <= 33
    ensures var out := BoundParts(h, l, parts, seen, depth);
            && |between| > 0 && between[0] == seen
            && (out.value.Some? ==> js == out.value.value && ShowsAll(h, l, parts, between, depth, js)
                                    && between[|js|] == out.seen)
            && (out.value.None? ==> Breaks(h, l, parts, between, depth, js, out.seen))
    decreases 33 - depth, 2, |parts|
  {
    between, js := [seen], [];
    if parts != [] {
      var first := Bound(h, l, parts[0].0, parts[0].1, seen, depth);
      if first.value.None? {
        ShowsExactly(h, l, parts[0].0, parts[0].1, seen, depth, JNull, first.seen);
        assert ShowsAll(h, l, parts[..0], between, depth, js);
      } else {
        ShowsExactly(h, l, parts[0].0, parts[0].1, seen, depth, first.value.value, first.seen);
        assert PartsIn(h, parts[1..]);
        var later, rest := PartsTold(h, l, parts[1..], first.seen, depth);
        between, js := [seen] + later, [first.value.value] + rest;
        if BoundParts(h, l, parts[1..], first.seen, depth).value.Some? {
          OneMoreShown(h, l, parts, later, depth, rest, seen, first.value.value);
        } else {
          assert parts[1..][..|rest|] == parts[..|js|][1..];
          OneMoreShown(h, l, parts[..|js|], later, depth, rest, seen, first.value.value);
        }
      }
    }
  }

  lemma {:induction false} OneMoreShown(h: Heap, l: Limits, parts: seq<(bool, Value)>, later: seq<set<nat>>, depth: nat,
        rest: seq<Json>, seen: set<nat>, first: Json)
    requires Closed(h) && PartsIn(h, parts) && depth <= 33 && parts != [] && PartsIn(h, parts[1..])
    requires ShowsAll(h, l, parts[1..], later, depth, rest)
    requires Shows(h, l, parts[0].0, parts[0].1, seen, depth, first, later[0])
    ensures ShowsAll(h, l, parts, [seen] + later, depth, [first] + rest)
  {
    hide Shows;
    var between, js := [seen] + later, [first] + rest;
    forall i | 0 <= i < |parts|
      ensures Shows(h, l, parts[i].0, parts[i].1, between[i], depth, js[i], between[i + 1])
    {
      if i > 0 {
        assert parts[1..][i - 1] == parts[i] && between[i] == later[i - 1] && js[i] == rest[i - 1]
            && between[i + 1] == later[i];
      }
    }
  }

  lemma {:induction false} PartsFollow(h: Heap, l: Limits, parts: seq<(bool, Value)>, between: seq<set<nat>>,
        depth: nat, js: seq<Json>)
    requires Closed(h) && PartsIn(h, parts) && depth <= 33 && ShowsAll(h, l, parts, between, depth, js)
    ensures BoundParts(h, l, parts, between[0], depth) == Bounded(Some(js), between[|js|])
    decreases 33 - depth, 2, |parts|
  {
    if parts != [] {
      assert Shows(h, l, parts[0].0, parts[0].1, between[0], depth, js[0], between[1]);
      ShowsExactly(h, l, parts[0].0, parts[0].1, between[0], depth, js[0], between[1]);
      OneLessShown(h, l, parts, between, depth, js);
      PartsFollow(h, l, parts[1..], between[1..], depth, js[1..]);
      assert between[1..][|js| - 1] == between[|js|];
      assert js == [js[0]] + js[1..];
    } else {
      assert js == [];
    }
  }

  lemma {:induction false} OneLessShown(h: Heap, l: Limits, parts: seq<(bool, Value)>, between: seq<set<nat>>,
        depth: nat, js: seq<Json>)
    requires Closed(h) && PartsIn(h, parts) && depth <= 33 && parts != [] && ShowsAll(h, l, parts, between, depth, js)
    ensures PartsIn(h, parts[1..]) && ShowsAll(h, l, parts[1..], between[1..], depth, js[1..])
  {
    hide Shows;
    forall i | 0 <= i < |parts| - 1
      ensures Shows(h, l, parts[1..][i].0, parts[1..][i].1, between[1..][i], depth, js[1..][i], between[1..][i + 1])
    {
      assert Shows(h, l, parts[i + 1].0, parts[i + 1].1, between[i + 1], depth, js[i + 1], between[i + 2]);
    }
  }

  lemma {:induction false} PartsStop(h: Heap, l: Limits, parts: seq<(bool, Value)>, between: seq<set<nat>>, depth: nat,
        js: seq<Json>, after: set<nat>)
    requires Closed(h) && PartsIn(h, parts) && depth <= 33 && Breaks(h, l, parts, between, depth, js, after)
    ensures BoundParts(h, l, parts, between[0], depth) == Bounded(None, after)
    decreases 33 - depth, 2, |parts|
  {
    if js == [] {
      ShowsExactly(h, l, parts[0].0, parts[0].1, between[0], depth, JNull, after);
    } else {
      var front := parts[..|js|];
      assert Shows(h, l, front[0].0, front[0].1, between[0], depth, js[0], between[1]);
      ShowsExactly(h, l, parts[0].0, parts[0].1, between[0], depth, js[0], between[1]);
      OneLessShown(h, l, front, between, depth, js);
      assert front[1..] == parts[1..][..|js| - 1] && PartsIn(h, parts[1..]);
      assert parts[1..][|js| - 1] == parts[|js|] && between[1..][|js| - 1] == between[|js|];
      PartsStop(h, l, parts[1..], between[1..], depth, js[1..], after);
    }
  }

  lemma {:induction false} BreakingPart(h: Heap, l: Limits, parts: seq<(bool, Value)>, seen: set<nat>, depth: nat,
        after: set<nat>)
    returns (between: seq<set<nat>>, js: seq<Json>)
    requires Closed(h) && PartsIn(h, parts) && depth <= 33 && PartsBreak(h, l, parts, seen, depth, after)
    ensures Breaks(h, l, parts, between, depth, js, after) && between[0] == seen
  {
    between, js :| |between| > 0 && Breaks(h, l, parts, between, depth, js, after) && between[0] == seen;
  }

  // The parts of an object, as bounding goes through them.
  lemma {:induction false} PartsExactly(h: Heap, l: Limits, parts: seq<(bool, Value)>, seen: set<nat>, depth: nat)
    requires Closed(h) && PartsIn(h, parts) && depth <= 33
    ensures forall js, after :: PartsShown(h, l, parts, seen, depth, js, after)
                                <==> BoundParts(h, l, parts, seen, depth) == Bounded(Some(js), after)
    ensures forall after :: PartsBreak(h, l, parts, seen, depth, after)
                            <==> BoundParts(h, l, parts, seen, depth) == Bounded(None, after)
    decreases 33 - depth, 3
  {
    hide BoundParts, ShowsAll, Breaks;
    var between, told := PartsTold(h, l, parts, seen, depth);
    forall js, after | PartsShown(h, l, parts, seen, depth, js, after)
      ensures BoundParts(h, l, parts, seen, depth) == Bounded(Some(js), after)
    {
      var b :| |b| == |js| + 1 && ShowsAll(h, l, parts, b, depth, js) && b[0] == seen && b[|js|] == after;
      PartsFollow(h, l, parts, b, depth, js);
    }
    forall after | PartsBreak(h, l, parts, seen, depth, after)
      ensures BoundParts(h, l, parts, seen, depth) == Bounded(None, after)
    {
      var b, js := BreakingPart(h, l, parts, seen, depth, after);
      PartsStop(h, l, parts, b, depth, js, after);
    }
  }

  lemma {:induction false} CutExactly(s: Str, n: nat, r: Str)
    ensures CutTo(s, n, r) <==> r == TruncateString(s, n)
  {
    if CutTo(s, n, r) && !(n > 0 && |s| <= n) {
      assert r == s[..n] + [0x2026];
    }
  }

  lemma {:induction false} LeafExactly(h: Heap, l: Limits, preview: bool, v: Value, seen: set<nat>, depth: nat, j: Json)
    requires Closed(h) && depth <= 32 && !v.Ref?
    ensures ShowsLeaf(l, preview, v, j) <==> Bound(h, l, preview, v, seen, depth) == Bounded(Some(j), seen)
  {
    if v.Text? && j.JStr? {
      CutExactly(v.s, Limit(preview, l), j.s);
    }
  }

  // What becomes of an array, and of a record, by what becomes of its parts.
  lemma {:induction false} ArrayIs(h: Heap, l: Limits, preview: bool, r: nat, seen: set<nat>, depth: nat)
    requires Closed(h) && r in h && h[r].Arr? && r !in seen && depth <= 32 && PartsIn(h, Parts(h[r]))
    ensures var out := BoundParts(h, l, Parts(h[r]), seen + {r}, depth + 1);
            Bound(h, l, preview, Ref(r), seen, depth)
            == if out.value.Some? then Bounded(Some(JArr(Items(out.value.value, |h[r].items|))), out.seen)
               else Bounded(None, out.seen)
  {
    hide BoundParts;
    ItemsAreParts(h, l, h[r].items[..Min(MAX_ITEMS, |h[r].items|)], Parts(h[r]), seen + {r}, depth + 1);
    assert forall js: seq<Json> :: Items(js, |h[r].items|) == js + More(|h[r].items|);
  }

  lemma {:induction false} RecordIs(h: Heap, l: Limits, preview: bool, r: nat, seen: set<nat>, depth: nat)
    requires Closed(h) && r in h && h[r].Rec? && r !in seen && depth <= 32 && PartsIn(h, Parts(h[r]))
    ensures var out := BoundParts(h, l, Parts(h[r]), seen + {r}, depth + 1);
            && (out.value.Some? ==> |out.value.value| == |h[r].entries|)
            && Bound(h, l, preview, Ref(r), seen, depth)
               == Bounded(Some(if out.value.Some? then JObj(OwnFields(EntryKeys(h[r].entries), out.value.value))
                               else Failure()),
                          out.seen)
  {
    hide BoundParts, OwnFields;
    EntriesAreParts(h, l, h[r].entries, Parts(h[r]), seen + {r}, depth + 1);
  }

  lemma {:induction false} ArrayExactly(h: Heap, l: Limits, preview: bool, r: nat, seen: set<nat>, depth: nat, j: Json,
        after: set<nat>)
    requires Closed(h) && r in h && h[r].Arr? && r !in seen && depth <= 32 && PartsIn(h, Parts(h[r]))
    ensures Shows(h, l, preview, Ref(r), seen, depth, j, after)
            <==> Bound(h, l, preview, Ref(r), seen, depth) == Bounded(Some(j), after)
    ensures Throws(h, l, Ref(r), seen, depth, after)
            <==> Bound(h, l, preview, Ref(r), seen, depth) == Bounded(None, after)
    decreases 33 - depth, 0
  {
    hide PartsShown, PartsBreak, BoundParts, Bound, Items;
    var parts := Parts(h[r]);
    var out := BoundParts(h, l, parts, seen + {r}, depth + 1);
    ArrayIs(h, l, preview, r, seen, depth);
    PartsExactly(h, l, parts, seen + {r}, depth + 1);
    if out.value.Some? {
      assert PartsShown(h, l, parts, seen + {r}, depth + 1, out.value.value, out.seen);
    } else {
      assert PartsBreak(h, l, parts, seen + {r}, depth + 1, out.seen);
    }
    if Shows(h, l, preview, Ref(r), seen, depth, j, after) {
      var js :| PartsShown(h, l, parts, seen + {r}, depth + 1, js, after) && j == JArr(Items(js, |h[r].items|));
      assert out == Bounded(Some(js), after);
    }
  }

  lemma {:induction false} RecordExactly(h: Heap, l: Limits, preview: bool, r: nat, seen: set<nat>, depth: nat, j: Json,
        after: set<nat>)
    requires Closed(h) && r in h && h[r].Rec? && r !in seen && depth <= 32 && PartsIn(h, Parts(h[r]))
    ensures Shows(h, l, preview, Ref(r), seen, depth, j, after)
            <==> Bound(h, l, preview, Ref(r), seen, depth) == Bounded(Some(j), after)
    ensures Bound(h, l, preview, Ref(r), seen, depth).value.Some?
    decreases 33 - depth, 0
  {
    hide PartsShown, PartsBreak, BoundParts, Bound, OwnFields, Failure;
    var entries, parts := h[r].entries, Parts(h[r]);
    var out := BoundParts(h, l, parts, seen + {r}, depth + 1);
    RecordIs(h, l, preview, r, seen, depth);
    PartsExactly(h, l, parts, seen + {r}, depth + 1);
    if out.value.Some? {
      assert PartsShown(h, l, parts, seen + {r}, depth + 1, out.value.value, out.seen);
    } else {
      assert PartsBreak(h, l, parts, seen + {r}, depth + 1, out.seen);
    }
    if PartsBreak(h, l, parts, seen + {r}, depth + 1, after) {
      assert out == Bounded(None, after);
    } else if Shows(h, l, preview, Ref(r), seen, depth, j, after) {
      var js :| PartsShown(h, l, parts, seen + {r}, depth + 1, js, after) && |js| == |entries|
                && j == JObj(OwnFields(EntryKeys(entries), js));
      assert out == Bounded(Some(js), after);
    }
  }

  // j is recorded of v, and these objects have been met by then, exactly if bounding says so; the same for throwing.
  lemma {:induction false} ShowsExactly(h: Heap, l: Limits, preview: bool, v: Value, seen: set<nat>, depth: nat,
        j: Json, after: set<nat>)
    requires Closed(h) && ValueIn(h, v) && depth <= 33
    ensures Shows(h, l, preview, v, seen, depth, j, after)
            <==> Bound(h, l, preview, v, seen, depth) == Bounded(Some(j), after)
    ensures Throws(h, l, v, seen, depth, after) <==> Bound(h, l, preview, v, seen, depth) == Bounded(None, after)
    decreases 33 - depth, 1
  {
    hide PartsShown, PartsBreak, ShowsLeaf, BoundItems, BoundEntries, Parts, Items, OwnFields;
    if depth < 33 && !v.Ref? {
      LeafExactly(h, l, preview, v, seen, depth, j);
    } else if depth < 33 && v.r !in seen && (h[v.r].Arr? || h[v.r].Rec?) {
      assert PartsIn(h, Parts(h[v.r]));
      if h[v.r].Arr? {
        ArrayExactly(h, l, preview, v.r, seen, depth, j, after);
      } else {
        RecordExactly(h, l, preview, v.r, seen, depth, j, after);
      }
    }
  }

  // ---- Trees, and the whole preparation ----

  // What a second bounding leaves of a tree: strings cut, long arrays cut, __proto__ dropped, nothing else changed.
  ghost predicate Trimmed(l: Limits, preview: bool, j: Json, depth: nat, r: Json)
    requires depth <= 33
    decreases 33 - depth, 0
  {
    if depth == 33 then r == JStr(Ascii("[MaxDepth]"))
    else
      match j
      case JStr(s) => r.JStr? && CutTo(s, Limit(preview, l), r.s)
      case JArr(items) =>
        exists js ::
          AllItemsTrimmed(l, items[..Min(50, |items|)], depth + 1, js) && r == JArr(Items(js, |items|))
      case JObj(fields) =>
        exists js ::
          |js| == |fields| && AllFieldsTrimmed(l, fields, depth + 1, js) && r == JObj(OwnFields(FieldKeys(fields), js))
      case _ => r == j
  }

  ghost predicate AllItemsTrimmed(l: Limits, items: seq<Json>, depth: nat, js: seq<Json>)
    requires depth <= 33
    decreases 33 - depth, 1
  {
    |js| == |items| && forall i :: 0 <= i < |js| ==> Trimmed(l, false, items[i], depth, js[i])
  }

  ghost predicate AllFieldsTrimmed(l: Limits, fields: seq<Field>, depth: nat, js: seq<Json>)
    requires depth <= 33
    decreases 33 - depth, 1
  {
    && |js| == |fields|
    && forall i :: 0 <= i < |js| ==> Trimmed(l, ContainsPreview(fields[i].key), fields[i].value, depth, js[i])
  }

  lemma {:induction false} ItemsTrimmed(l: Limits, items: seq<Json>, depth: nat, js: seq<Json>)
    requires depth <= 33 && |js| == |items|
    ensures js == TreeItems(l, items, depth)
       <==> forall i :: 0 <= i < |js| ==> js[i] == BoundTree(l, false, items[i], depth)
  {
    forall i | 0 <= i < |items|
      ensures TreeItems(l, items, depth)[i] == BoundTree(l, false, items[i], depth)
    {
      TreeItemsAt(l, items, depth, i);
    }
  }

  function Values(l: Limits, fields: seq<Field>, depth: nat): (js: seq<Json>)
    requires depth <= 33
    ensures |js| == |fields|
  {
    seq(|fields|, i requires 0 <= i < |fields| => BoundTree(l, IsPreviewKey(fields[i].key), fields[i].value, depth))
  }

  lemma {:induction false} FieldsAre(l: Limits, fields: seq<Field>, depth: nat)
    requires depth <= 33
    ensures TreeFields(l, fields, depth) == OwnFields(FieldKeys(fields), Values(l, fields, depth))
  {
    if fields != [] {
      FieldsAre(l, fields[1..], depth);
      assert FieldKeys(fields)[1..] == FieldKeys(fields[1..]);
      assert Values(l, fields, depth)[1..] == Values(l, fields[1..], depth);
    }
  }

  // A tree is trimmed to r exactly if bounding it says so.
  lemma {:induction false} TrimmedExactly(l: Limits, preview: bool, j: Json, depth: nat, r: Json)
    requires depth <= 33
    ensures Trimmed(l, preview, j, depth, r) <==> r == BoundTree(l, preview, j, depth)
    decreases 33 - depth, 1
  {
    if depth < 33 {
      match j
      case JStr(s) =>
        if r.JStr? {
          CutExactly(s, Limit(preview, l), r.s);
        }
      case JArr(items) => ArrayTrimmed(l, preview, items, depth, r);
      case JObj(fields) => RecordTrimmed(l, preview, fields, depth, r);
      case _ =>
    }
  }

  lemma {:induction false} ItemsExactly(l: Limits, items: seq<Json>, depth: nat, js: seq<Json>)
    requires depth <= 33
    ensures AllItemsTrimmed(l, items, depth, js) <==> js == TreeItems(l, items, depth)
    decreases 33 - depth, 2
  {
    if |js| == |items| {
      forall i | 0 <= i < |js|
        ensures Trimmed(l, false, items[i], depth, js[i]) <==> js[i] == BoundTree(l, false, items[i], depth)
      {
        TrimmedExactly(l, false, items[i], depth, js[i]);
      }
      hide Trimmed, BoundTree;
      ItemsTrimmed(l, items, depth, js);
    }
  }

  lemma {:induction false} FieldsExactly(l: Limits, fields: seq<Field>, depth: nat, js: seq<Json>)
    requires depth <= 33
    ensures AllFieldsTrimmed(l, fields, depth, js) <==> js == Values(l, fields, depth)
    decreases 33 - depth, 2
  {
    if |js| == |fields| {
      forall i | 0 <= i < |js|
        ensures Trimmed(l, ContainsPreview(fields[i].key), fields[i].value, depth, js[i])
                <==> js[i] == Values(l, fields, depth)[i]
      {
        PreviewKeyIs(fields[i].key);
        TrimmedExactly(l, ContainsPreview(fields[i].key), fields[i].value, depth, js[i]);
      }
    }
  }

  lemma {:induction false} ArrayTrimmed(l: Limits, preview: bool, items: seq<Json>, depth: nat, r: Json)
    requires depth <= 32
    ensures Trimmed(l, preview, JArr(items), depth, r) <==> r == BoundTree(l, preview, JArr(items), depth)
    decreases 33 - depth, 0
  {
    hide AllItemsTrimmed, TreeItems;
    var kept := items[..Min(50, |items|)];
    var all := TreeItems(l, kept, depth + 1);
    ItemsExactly(l, kept, depth + 1, all);
    assert all + [] == all;
    assert BoundTree(l, preview, JArr(items), depth) == JArr(Items(all, |items|));
    if Trimmed(l, preview, JArr(items), depth, r) {
      var js :| AllItemsTrimmed(l, kept, depth + 1, js) && r == JArr(Items(js, |items|));
      ItemsExactly(l, kept, depth + 1, js);
    }
  }

  lemma {:induction false} RecordTrimmed(l: Limits, preview: bool, fields: seq<Field>, depth: nat, r: Json)
    requires depth <= 32
    ensures Trimmed(l, preview, JObj(fields), depth, r) <==> r == BoundTree(l, preview, JObj(fields), depth)
    decreases 33 - depth, 0
  {
    hide AllFieldsTrimmed, Values, OwnFields;
    var all := Values(l, fields, depth + 1);
    FieldsExactly(l, fields, depth + 1, all);
    FieldsAre(l, fields, depth + 1);
    assert BoundTree(l, preview, JObj(fields), depth) == JObj(OwnFields(FieldKeys(fields), all));
    if Trimmed(l, preview, JObj(fields), depth, r) {
      var js :| |js| == |fields| && AllFieldsTrimmed(l, fields, depth + 1, js)
                && r == JObj(OwnFields(FieldKeys(fields), js));
      FieldsExactly(l, fields, depth + 1, js);
    }
  }

  // What is prepared of a record: what is recorded of it, redacted, and trimmed once more. A record never throws.
  lemma {:induction false} PreparedContent(h: Heap, l: Limits, metadata: Value, redact: seq<Field> -> seq<Field>)
    returns (fields: seq<Field>, after: set<nat>)
    requires Closed(h) && ValueIn(h, metadata) && IsRecord(h, metadata)
    ensures Shows(h, l, false, metadata, {}, 0, JObj(fields), after)
    ensures Trimmed(l, false, JObj(redact(fields)), 0, PrepareMetadata(h, l, metadata, redact))
  {
    var out := Bound(h, l, false, metadata, {}, 0);
    RecordsNeverThrow(h, l, metadata.r, {});
    fields, after := out.value.value.fields, out.seen;
    ShowsExactly(h, l, false, metadata, {}, 0, JObj(fields), after);
    TrimmedExactly(l, false, JObj(redact(fields)), 0, PrepareMetadata(h, l, metadata, redact));
  }

  lemma {:induction false} NotARecord(h: Heap, l: Limits, v: Value)
    requires Closed(h) && ValueIn(h, v) && !IsRecord(h, v)
    ensures var out := Bound(h, l, false, v, {}, 0).value;
            out.Some? ==> !out.value.JObj?
  {
    hide BoundItems, BoundEntries;
  }

  // Anything else: reading it throws, or it counts as a record without entries.
  lemma {:induction false} PreparedOtherwise(h: Heap, l: Limits, metadata: Value, redact: seq<Field> -> seq<Field>)
    requires Closed(h) && ValueIn(h, metadata) && !IsRecord(h, metadata)
    ensures if exists after :: Throws(h, l, metadata, {}, 0, after) then
              PrepareMetadata(h, l, metadata, redact)
              == JObj([Field(Ascii("truncated"), JBool(true)),
                       Field(Ascii("reason"), JStr(Ascii("metadataPreparationFailed")))])
            else Trimmed(l, false, JObj(redact([])), 0, PrepareMetadata(h, l, metadata, redact))
  {
    hide Bound, BoundTree, Shows, Throws, Trimmed;
    NotARecord(h, l, metadata);
    var out := Bound(h, l, false, metadata, {}, 0);
    forall after
      ensures Throws(h, l, metadata, {}, 0, after) <==> out == Bounded(None, after)
    {
      ShowsExactly(h, l, false, metadata, {}, 0, JNull, after);
    }
    if out.value.None? {
      assert Throws(h, l, metadata, {}, 0, out.seen);
    }
    TrimmedExactly(l, false, JObj(redact([])), 0, PrepareMetadata(h, l, metadata, redact));
  }
}
