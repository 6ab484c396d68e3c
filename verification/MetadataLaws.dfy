// What bounding guarantees, and when doing it again changes nothing.
module MetadataLaws {
  import opened Wrappers
  import opened Json
  import opened MetadataBounds

  // ---- Shape ----

  // At most k levels of arrays and objects, at most 51 items in an array, and no __proto__ property.
  ghost predicate Shape(j: Json, k: nat)
    decreases j
  {
    match j
    case JArr(items) => k > 0 && |items| <= MAX_ITEMS + 1 && forall i :: 0 <= i < |items| ==> Shape(items[i], k - 1)
    case JObj(fields) =>
      k > 0 && forall i :: 0 <= i < |fields| ==> fields[i].key != PROTO && Shape(fields[i].value, k - 1)
    case _ => true
  }

  lemma {:induction false} FailureShape(k: nat)
    ensures k > 0 ==> Shape(EnumerationFailed(), k)
  {
    assert |Ascii("truncated")| == 9 && |PROTO| == 9 && Ascii("truncated")[0] == 116 && PROTO[0] == 95;
    assert |Ascii("reason")| == 6;
  }

  ghost predicate AllShape(js: seq<Json>, k: nat) {
    forall i :: 0 <= i < |js| ==> Shape(js[i], k)
  }

  lemma {:induction false} ArrayShape(js: seq<Json>, length: nat, k: nat)
    requires |js| == Min(MAX_ITEMS, length) && AllShape(js, k)
    ensures Shape(JArr(js + More(length)), k + 1)
  {
    var all := js + More(length);
    forall i | 0 <= i < |all|
      ensures Shape(all[i], k)
    {
      if i >= |js| {
        assert all[i] == MoreMark(length - MAX_ITEMS);
      }
    }
  }

  lemma {:induction false} ArrayRefShape(h: Heap, l: Limits, preview: bool, r: nat, seen: set<nat>, depth: nat, k: nat)
    requires Closed(h) && r in h && h[r].Arr? && r !in seen && k > 0 && depth + k == MAX_DEPTH + 1
    requires var out := BoundItems(h, l, h[r].items[..Min(MAX_ITEMS, |h[r].items|)], seen + {r}, depth + 1);
             out.value.Some? ==> AllShape(out.value.value, k - 1)
    ensures var out := Bound(h, l, preview, Ref(r), seen, depth);
            out.value.Some? ==> Shape(out.value.value, k)
  {
    var out := BoundItems(h, l, h[r].items[..Min(MAX_ITEMS, |h[r].items|)], seen + {r}, depth + 1);
    if out.value.Some? {
      ArrayShape(out.value.value, |h[r].items|, k - 1);
    }
  }

  lemma {:induction false} RecordRefShape(h: Heap, l: Limits, preview: bool, r: nat, seen: set<nat>, depth: nat, k: nat)
    requires Closed(h) && r in h && (h[r].Rec? || h[r].BrokenRec?) && r !in seen && k > 0 && depth + k == MAX_DEPTH + 1
    requires h[r].Rec? ==>
               var out := BoundEntries(h, l, h[r].entries, seen + {r}, depth + 1);
               out.value.Some? ==> FieldsShape(out.value.value, k - 1)
    ensures var out := Bound(h, l, preview, Ref(r), seen, depth);
            out.value.Some? ==> Shape(out.value.value, k)
  {
    FailureShape(k);
  }

  // Whatever the heap looks like, shared and cyclic parts included, the bounded value has this shape.
  lemma {:induction false} BoundShape(h: Heap, l: Limits, preview: bool, v: Value, seen: set<nat>, depth: nat, k: nat)
    requires Closed(h) && ValueIn(h, v) && depth + k == MAX_DEPTH + 1
    ensures var out := Bound(h, l, preview, v, seen, depth);
            out.value.Some? ==> Shape(out.value.value, k)
    decreases MAX_DEPTH + 1 - depth, 1, 0
  {
    hide Bound, BoundItems, BoundEntries, Shape;
    if depth <= MAX_DEPTH && v.Ref? && v.r !in seen {
      match h[v.r]
      case Arr(items) =>
        ItemsShape(h, l, items[..Min(MAX_ITEMS, |items|)], seen + {v.r}, depth + 1, k - 1);
        ArrayRefShape(h, l, preview, v.r, seen, depth, k);
      case Rec(entries) =>
        EntriesShape(h, l, entries, seen + {v.r}, depth + 1, k - 1);
        RecordRefShape(h, l, preview, v.r, seen, depth, k);
      case BrokenRec => RecordRefShape(h, l, preview, v.r, seen, depth, k);
      case BrokenArr => ThrownShape(h, l, preview, v.r, seen, depth);
    } else {
      LeafShape(h, l, preview, v, seen, depth, k);
    }
  }

  lemma {:induction false} ThrownShape(h: Heap, l: Limits, preview: bool, r: nat, seen: set<nat>, depth: nat)
    requires Closed(h) && r in h && h[r].BrokenArr? && r !in seen && depth <= MAX_DEPTH
    ensures Bound(h, l, preview, Ref(r), seen, depth).value.None?
  {
  }

  lemma {:induction false} LeafShape(h: Heap, l: Limits, preview: bool, v: Value, seen: set<nat>, depth: nat, k: nat)
    requires Closed(h) && ValueIn(h, v) && depth + k == MAX_DEPTH + 1
    requires depth > MAX_DEPTH || !v.Ref? || v.r in seen
    ensures var out := Bound(h, l, preview, v, seen, depth);
            out.value.Some? && Shape(out.value.value, k)
  {
  }

  lemma {:induction false} ItemsShape(h: Heap, l: Limits, items: seq<Value>, seen: set<nat>, depth: nat, k: nat)
    requires Closed(h) && (forall i :: 0 <= i < |items| ==> ValueIn(h, items[i])) && depth + k == MAX_DEPTH + 1
    ensures var out := BoundItems(h, l, items, seen, depth);
            out.value.Some? ==> AllShape(out.value.value, k)
    decreases MAX_DEPTH + 1 - depth, 2, |items|
  {
    if items != [] {
      BoundShape(h, l, false, items[0], seen, depth, k);
      ItemsShape(h, l, items[1..], Bound(h, l, false, items[0], seen, depth).seen, depth, k);
    }
  }

  lemma {:induction false} EntriesShape(h: Heap, l: Limits, entries: seq<(Str, Value)>, seen: set<nat>, depth: nat,
        k: nat)
    requires Closed(h) && (forall i :: 0 <= i < |entries| ==> ValueIn(h, entries[i].1)) && depth + k == MAX_DEPTH + 1
    ensures var out := BoundEntries(h, l, entries, seen, depth);
            out.value.Some? ==> FieldsShape(out.value.value, k)
    decreases MAX_DEPTH + 1 - depth, 2, |entries|
  {
    if entries != [] {
      BoundShape(h, l, IsPreviewKey(entries[0].0), entries[0].1, seen, depth, k);
      var first := Bound(h, l, IsPreviewKey(entries[0].0), entries[0].1, seen, depth);
      EntriesShape(h, l, entries[1..], first.seen, depth, k);
    }
  }

  // A record never throws: its own catch turns a failure anywhere below it into the failure marker.
  lemma {:induction false} RecordsNeverThrow(h: Heap, l: Limits, r: nat, seen: set<nat>)
    requires Closed(h) && r in h && (h[r].Rec? || h[r].BrokenRec?)
    ensures Bound(h, l, false, Ref(r), seen, 0).value.Some?
    ensures r !in seen ==> Bound(h, l, false, Ref(r), seen, 0).value.value.JObj?
  {
  }

  // ---- Repetition ----

  // No array that bounding looks into has more than 51 items.
  ghost predicate Narrow(j: Json, depth: nat)
    requires depth <= MAX_DEPTH + 1
    decreases MAX_DEPTH + 1 - depth
  {
    depth > MAX_DEPTH ||
    match j
    case JArr(items) => |items| <= MAX_ITEMS + 1 && forall i :: 0 <= i < Min(MAX_ITEMS, |items|) ==>
          Narrow(items[i], depth + 1)
    case JObj(fields) => forall i :: 0 <= i < |fields| && fields[i].key != PROTO ==> Narrow(fields[i].value, depth + 1)
    case _ => true
  }

  lemma {:induction false} TreeItemsAt(l: Limits, items: seq<Json>, depth: nat, i: nat)
    requires depth <= MAX_DEPTH + 1 && i < |items|
    ensures TreeItems(l, items, depth)[i] == BoundTree(l, false, items[i], depth)
  {
    if i > 0 {
      TreeItemsAt(l, items[1..], depth, i - 1);
    }
  }

  // Bounding a tree whose arrays hold at most 51 items changes nothing when repeated.
  lemma {:induction false} NarrowStable(l: Limits, preview: bool, j: Json, depth: nat)
    requires depth <= MAX_DEPTH + 1 && Narrow(j, depth)
    ensures BoundTree(l, preview, BoundTree(l, preview, j, depth), depth) == BoundTree(l, preview, j, depth)
    decreases MAX_DEPTH + 1 - depth, 1, 0
  {
    if depth <= MAX_DEPTH {
      match j
      case JStr(s) => TruncateCompose(s, MaxLength(preview, l), MaxLength(preview, l));
      case JArr(items) =>
        var kept := items[..Min(MAX_ITEMS, |items|)];
        var once := TreeItems(l, kept, depth + 1);
        NarrowItems(l, kept, depth + 1);
        assert (once + More(|items|))[..|once|] == once;
        assert |once + More(|items|)| == |items|;
      case JObj(fields) => NarrowFields(l, fields, depth + 1);
      case _ =>
    }
  }

  lemma {:induction false} NarrowItems(l: Limits, items: seq<Json>, depth: nat)
    requires depth <= MAX_DEPTH + 1 && forall i :: 0 <= i < |items| ==> Narrow(items[i], depth)
    ensures TreeItems(l, TreeItems(l, items, depth), depth) == TreeItems(l, items, depth)
    decreases MAX_DEPTH + 1 - depth, 2, |items|
  {
    if items != [] {
      NarrowStable(l, false, items[0], depth);
      NarrowItems(l, items[1..], depth);
      assert TreeItems(l, items, depth)[1..] == TreeItems(l, items[1..], depth);
    }
  }

  lemma {:induction false} NarrowFields(l: Limits, fields: seq<Field>, depth: nat)
    requires depth <= MAX_DEPTH + 1 && forall i :: 0 <= i < |fields| && fields[i].key != PROTO ==>
               Narrow(fields[i].value, depth)
    ensures TreeFields(l, TreeFields(l, fields, depth), depth) == TreeFields(l, fields, depth)
    decreases MAX_DEPTH + 1 - depth, 2, |fields|
  {
    if fields != [] {
      NarrowFields(l, fields[1..], depth);
      if fields[0].key != PROTO {
        NarrowStable(l, IsPreviewKey(fields[0].key), fields[0].value, depth);
        assert TreeFields(l, fields, depth)[1..] == TreeFields(l, fields[1..], depth);
      } else {
        assert [] + TreeFields(l, fields[1..], depth) == TreeFields(l, fields[1..], depth);
      }
    }
  }

  lemma {:induction false} ShapeNarrow(j: Json, depth: nat)
    requires depth <= MAX_DEPTH + 1 && Shape(j, MAX_DEPTH + 1 - depth)
    ensures Narrow(j, depth)
    decreases MAX_DEPTH + 1 - depth
  {
    if depth <= MAX_DEPTH {
      match j
      case JArr(items) =>
        forall i | 0 <= i < |items| ensures Narrow(items[i], depth + 1) { ShapeNarrow(items[i], depth + 1); }
      case JObj(fields) =>
        forall i | 0 <= i < |fields|
          ensures Narrow(fields[i].value, depth + 1)
        {
          ShapeNarrow(fields[i].value, depth + 1);
        }
      case _ =>
    }
  }

  lemma {:induction false} TreeShape(l: Limits, preview: bool, j: Json, depth: nat)
    requires depth <= MAX_DEPTH + 1
    ensures Shape(BoundTree(l, preview, j, depth), MAX_DEPTH + 1 - depth)
    decreases MAX_DEPTH + 1 - depth, 1, 0
  {
    if depth <= MAX_DEPTH {
      match j
      case JArr(items) =>
        var kept := items[..Min(MAX_ITEMS, |items|)];
        TreeItemsShape(l, kept, depth + 1);
        ArrayShape(TreeItems(l, kept, depth + 1), |items|, MAX_DEPTH + 1 - (depth + 1));
      case JObj(fields) =>
        TreeFieldsShape(l, fields, depth + 1);
        assert BoundTree(l, preview, j, depth).fields == TreeFields(l, fields, depth + 1);
      case _ =>
    }
  }

  lemma {:induction false} TreeItemsShape(l: Limits, items: seq<Json>, depth: nat)
    requires depth <= MAX_DEPTH + 1
    ensures AllShape(TreeItems(l, items, depth), MAX_DEPTH + 1 - depth)
    decreases MAX_DEPTH + 1 - depth, 2, |items|
  {
    if items != [] {
      TreeShape(l, false, items[0], depth);
      TreeItemsShape(l, items[1..], depth);
    }
  }

  ghost predicate FieldsShape(fs: seq<Field>, k: nat) {
    forall i :: 0 <= i < |fs| ==> fs[i].key != PROTO && Shape(fs[i].value, k)
  }

  lemma {:induction false} TreeFieldsShape(l: Limits, fields: seq<Field>, depth: nat)
    requires depth <= MAX_DEPTH + 1
    ensures FieldsShape(TreeFields(l, fields, depth), MAX_DEPTH + 1 - depth)
    decreases MAX_DEPTH + 1 - depth, 2, |fields|
  {
    if fields != [] {
      TreeShape(l, IsPreviewKey(fields[0].key), fields[0].value, depth);
      TreeFieldsShape(l, fields[1..], depth);
      var key, value := fields[0].key, fields[0].value;
      var first := if key == PROTO then [] else [Field(key, BoundTree(l, IsPreviewKey(key), value, depth))];
      FieldsShapeConcat(first, TreeFields(l, fields[1..], depth), MAX_DEPTH + 1 - depth);
    }
  }

  lemma {:induction false} FieldsShapeConcat(a: seq<Field>, b: seq<Field>, k: nat)
    requires FieldsShape(a, k) && FieldsShape(b, k)
    ensures FieldsShape(a + b, k)
  {
  }

  lemma {:induction false} MarksDiffer(n: nat)
    requires n != 1
    ensures MoreMark(n) != MoreMark(1)
  {
    var a, b := ELLIPSIS + Ascii("(+") + Decimal(n) + Ascii(" more)"), ELLIPSIS + Ascii("(+") + Decimal(1)
        + Ascii(" more)");
    if n < 10 {
      assert a[3] == Decimal(n)[0] && b[3] == Decimal(1)[0];
    }
  }

  // It changes nothing exactly when every array it looks into has at most 51 items.
  lemma {:induction false} StableNarrow(l: Limits, preview: bool, j: Json, depth: nat)
    requires depth <= MAX_DEPTH + 1
    ensures BoundTree(l, preview, BoundTree(l, preview, j, depth), depth) == BoundTree(l, preview, j, depth)
            <==> Narrow(j, depth)
    decreases MAX_DEPTH + 1 - depth, 1, 0
  {
    if Narrow(j, depth) {
      NarrowStable(l, preview, j, depth);
    } else {
      match j
      case JArr(items) => WideItemsChange(l, preview, items, depth);
      case JObj(fields) =>
        if TreeFields(l, TreeFields(l, fields, depth + 1), depth + 1) == TreeFields(l, fields, depth + 1) {
          StableFields(l, fields, depth + 1);
        }
    }
  }

  lemma {:induction false} WideItemsChange(l: Limits, preview: bool, items: seq<Json>, depth: nat)
    requires depth <= MAX_DEPTH && !Narrow(JArr(items), depth)
    ensures var once := BoundTree(l, preview, JArr(items), depth); BoundTree(l, preview, once, depth) != once
    decreases MAX_DEPTH + 1 - depth, 0, 0
  {
    if |items| > MAX_ITEMS + 1 {
      LongItemsChange(l, preview, items, depth);
    } else {
      var i :| 0 <= i < Min(MAX_ITEMS, |items|) && !Narrow(items[i], depth + 1);
      StableNarrow(l, false, items[i], depth + 1);
      ItemChanges(l, preview, items, depth, i);
    }
  }

  // The marker of an array of more than 51 items is itself replaced.
  lemma {:induction false} LongItemsChange(l: Limits, preview: bool, items: seq<Json>, depth: nat)
    requires depth <= MAX_DEPTH && |items| > MAX_ITEMS + 1
    ensures var once := BoundTree(l, preview, JArr(items), depth); BoundTree(l, preview, once, depth) != once
  {
    var once := BoundTree(l, preview, JArr(items), depth).items;
    assert |once| == MAX_ITEMS + 1 && once[MAX_ITEMS] == MoreMark(|items| - MAX_ITEMS);
    assert BoundTree(l, preview, JArr(once), depth).items[MAX_ITEMS] == MoreMark(1);
    MarksDiffer(|items| - MAX_ITEMS);
  }

  // A kept item that changes changes the array.
  lemma {:induction false} ItemChanges(l: Limits, preview: bool, items: seq<Json>, depth: nat, i: nat)
    requires depth <= MAX_DEPTH && i < Min(MAX_ITEMS, |items|)
    requires BoundTree(l, false, BoundTree(l, false, items[i], depth + 1), depth
             + 1) != BoundTree(l, false, items[i], depth + 1)
    ensures var once := BoundTree(l, preview, JArr(items), depth); BoundTree(l, preview, once, depth) != once
  {
    var kept := items[..Min(MAX_ITEMS, |items|)];
    var once := BoundTree(l, preview, JArr(items), depth).items;
    TreeItemsAt(l, kept, depth + 1, i);
    TreeItemsAt(l, once[..Min(MAX_ITEMS, |once|)], depth + 1, i);
  }

  lemma {:induction false} StableFields(l: Limits, fields: seq<Field>, depth: nat)
    requires depth <= MAX_DEPTH + 1
    requires TreeFields(l, TreeFields(l, fields, depth), depth) == TreeFields(l, fields, depth)
    ensures forall i :: 0 <= i < |fields| && fields[i].key != PROTO ==> Narrow(fields[i].value, depth)
    decreases MAX_DEPTH + 1 - depth, 2, |fields|
  {
    if fields != [] {
      var rest := TreeFields(l, fields[1..], depth);
      if fields[0].key == PROTO {
        assert TreeFields(l, fields, depth) == rest;
      } else {
        var f := Field(fields[0].key, BoundTree(l, IsPreviewKey(fields[0].key), fields[0].value, depth));
        assert TreeFields(l, fields, depth) == [f] + rest;
        KeptField(l, f, rest, depth);
        StableNarrow(l, IsPreviewKey(fields[0].key), fields[0].value, depth);
      }
      StableFields(l, fields[1..], depth);
      assert forall i :: 1 <= i < |fields| ==> fields[i] == fields[1..][i - 1];
    }
  }

  lemma {:induction false} KeptField(l: Limits, f: Field, rest: seq<Field>, depth: nat)
    requires depth <= MAX_DEPTH + 1 && f.key != PROTO
    requires TreeFields(l, [f] + rest, depth) == [f] + rest
    ensures BoundTree(l, IsPreviewKey(f.key), f.value, depth) == f.value && TreeFields(l, rest, depth) == rest
  {
    var all := [f] + rest;
    assert all[1..] == rest;
    var twice := [Field(f.key, BoundTree(l, IsPreviewKey(f.key), f.value, depth))] + TreeFields(l, rest, depth);
    assert TreeFields(l, all, depth) == twice;
    assert twice[0] == all[0] && twice[1..] == all[1..];
  }
}
