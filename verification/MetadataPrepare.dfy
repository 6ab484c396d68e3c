// Preparation of metadata for the disk: bound, redact, bound again.
module MetadataPrepare {
  import opened Wrappers
  import opened Json
  import opened MetadataBounds
  import opened MetadataLaws

  // ---- A tree laid out in the heap ----

  // The value v is the tree j, made of exactly the objects in refs, none of them used twice.
  ghost predicate Holds(h: Heap, v: Value, j: Json, refs: set<nat>)
    decreases j, 0
  {
    match j
    case JNull => v == Null && refs == {}
    case JBool(b) => v == Bool(b) && refs == {}
    case JNum(text) => v == Num(text) && refs == {}
    case JStr(s) => v == Text(s) && refs == {}
    case JArr(items) =>
      && v.Ref? && v.r in refs && v.r in h && h[v.r].Arr?
      && HoldsItems(h, h[v.r].items, items, refs - {v.r})
    case JObj(fields) =>
      && v.Ref? && v.r in refs && v.r in h && h[v.r].Rec?
      && HoldsFields(h, h[v.r].entries, fields, refs - {v.r})
  }

  ghost predicate HoldsItems(h: Heap, vs: seq<Value>, js: seq<Json>, refs: set<nat>)
    decreases js, 1
  {
    if js == [] then vs == []
    else
      && vs != []
      && exists own :: own <= refs && Holds(h, vs[0], js[0], own) && HoldsItems(h, vs[1..], js[1..], refs - own)
  }

  ghost predicate HoldsFields(h: Heap, es: seq<(Str, Value)>, fs: seq<Field>, refs: set<nat>)
    decreases fs, 1
  {
    if fs == [] then es == []
    else
      && es != [] && es[0].0 == fs[0].key
      && exists own ::
           own <= refs && Holds(h, es[0].1, fs[0].value, own) && HoldsFields(h, es[1..], fs[1..], refs - own)
  }

  // On a tree of fresh objects the walk with its set of seen objects never meets one twice: it is bounding on trees.
  lemma {:induction false} BoundOnTree(h: Heap, l: Limits, preview: bool, v: Value, j: Json, refs: set<nat>,
        seen: set<nat>, depth: nat)
    requires Closed(h) && ValueIn(h, v) && depth <= MAX_DEPTH + 1
    requires Holds(h, v, j, refs) && refs !! seen
    ensures var out := Bound(h, l, preview, v, seen, depth);
            out.value == Some(BoundTree(l, preview, j, depth)) && out.seen <= seen + refs
    decreases MAX_DEPTH + 1 - depth, 1, 0
  {
    if depth <= MAX_DEPTH {
      match j
      case JArr(items) =>
        ItemsOnTree(h, l, h[v.r].items, items, refs - {v.r}, seen + {v.r}, depth + 1, Min(MAX_ITEMS, |items|));
        ItemsLength(h, h[v.r].items, items, refs - {v.r});
      case JObj(fields) =>
        FieldsOnTree(h, l, h[v.r].entries, fields, refs - {v.r}, seen + {v.r}, depth + 1);
      case _ =>
    }
  }

  lemma {:induction false} ItemsLength(h: Heap, vs: seq<Value>, js: seq<Json>, refs: set<nat>)
    requires HoldsItems(h, vs, js, refs)
    ensures |vs| == |js|
    decreases |js|
  {
    if js != [] {
      var own :| own <= refs && Holds(h, vs[0], js[0], own) && HoldsItems(h, vs[1..], js[1..], refs - own);
      ItemsLength(h, vs[1..], js[1..], refs - own);
    }
  }

  lemma {:induction false} ItemsOnTree(h: Heap, l: Limits, vs: seq<Value>, js: seq<Json>, refs: set<nat>,
        seen: set<nat>, depth: nat, n: nat)
    requires Closed(h) && (forall i :: 0 <= i < |vs| ==> ValueIn(h, vs[i])) && depth <= MAX_DEPTH + 1
    requires HoldsItems(h, vs, js, refs) && refs !! seen && n <= |js|
    ensures |vs| == |js|
    ensures var out := BoundItems(h, l, vs[..n], seen, depth);
            out.value == Some(TreeItems(l, js[..n], depth)) && out.seen <= seen + refs
    decreases MAX_DEPTH + 1 - depth, 2, n
  {
    ItemsLength(h, vs, js, refs);
    if n > 0 {
      var own :| own <= refs && Holds(h, vs[0], js[0], own) && HoldsItems(h, vs[1..], js[1..], refs - own);
      BoundOnTree(h, l, false, vs[0], js[0], own, seen, depth);
      var mid := Bound(h, l, false, vs[0], seen, depth).seen;
      ItemsOnTree(h, l, vs[1..], js[1..], refs - own, mid, depth, n - 1);
      assert vs[..n][1..] == vs[1..][..n - 1] && js[..n][1..] == js[1..][..n - 1];
    }
  }

  lemma {:induction false} FieldsOnTree(h: Heap, l: Limits, es: seq<(Str, Value)>, fs: seq<Field>, refs: set<nat>,
        seen: set<nat>, depth: nat)
    requires Closed(h) && (forall i :: 0 <= i < |es| ==> ValueIn(h, es[i].1)) && depth <= MAX_DEPTH + 1
    requires HoldsFields(h, es, fs, refs) && refs !! seen
    ensures var out := BoundEntries(h, l, es, seen, depth);
            out.value == Some(TreeFields(l, fs, depth)) && out.seen <= seen + refs
    decreases MAX_DEPTH + 1 - depth, 2, |fs|
  {
    if fs != [] {
      var own :| own <= refs && Holds(h, es[0].1, fs[0].value, own) && HoldsFields(h, es[1..], fs[1..], refs - own);
      var preview := IsPreviewKey(es[0].0);
      BoundOnTree(h, l, preview, es[0].1, fs[0].value, own, seen, depth);
      FieldsOnTree(h, l, es[1..], fs[1..], refs - own, Bound(h, l, preview, es[0].1, seen, depth).seen, depth);
      EntryOnTree(h, l, es, fs, seen, depth);
    }
  }

  lemma {:induction false} EntryOnTree(h: Heap, l: Limits, es: seq<(Str, Value)>, fs: seq<Field>, seen: set<nat>,
        depth: nat)
    requires Closed(h) && (forall i :: 0 <= i < |es| ==> ValueIn(h, es[i].1)) && depth <= MAX_DEPTH + 1
    requires es != [] && fs != [] && es[0].0 == fs[0].key
    requires Bound(h, l, IsPreviewKey(es[0].0), es[0].1, seen, depth).value
             == Some(BoundTree(l, IsPreviewKey(fs[0].key), fs[0].value, depth))
    requires var mid := Bound(h, l, IsPreviewKey(es[0].0), es[0].1, seen, depth).seen;
             BoundEntries(h, l, es[1..], mid, depth).value == Some(TreeFields(l, fs[1..], depth))
    ensures var mid := Bound(h, l, IsPreviewKey(es[0].0), es[0].1, seen, depth).seen;
            && BoundEntries(h, l, es, seen, depth).value == Some(TreeFields(l, fs, depth))
            && BoundEntries(h, l, es, seen, depth).seen == BoundEntries(h, l, es[1..], mid, depth).seen
  {
    if es[0].0 == PROTO {
      assert [] + TreeFields(l, fs[1..], depth) == TreeFields(l, fs[1..], depth);
    }
  }

  // ---- prepareMetadataForDisk ----

  function PreparationFailed(): Json {
    JObj([Field(Ascii("truncated"), JBool(true)), Field(Ascii("reason"), JStr(Ascii("metadataPreparationFailed")))])
  }

  // `redact` stands for the redactor, which copies the record; without redaction it changes nothing. Both bounded
  // values are trees of fresh objects, so the second pass is bounding on trees.
  function PrepareMetadata(h: Heap, l: Limits, metadata: Value, redact: seq<Field> -> seq<Field>): Json
    requires Closed(h) && ValueIn(h, metadata)
  {
    var preBounded := Bound(h, l, false, metadata, {}, 0);
    if preBounded.value.None? then PreparationFailed()
    else
      var record := if preBounded.value.value.JObj? then preBounded.value.value.fields else [];
      BoundTree(l, false, JObj(redact(record)), 0)
  }

  predicate IsRecord(h: Heap, v: Value)
    requires ValueIn(h, v)
  {
    v.Ref? && (h[v.r].Rec? || h[v.r].BrokenRec?)
  }

  // Prepared metadata is a finite record of bounded nesting and width, whatever the input and the redactor.
  lemma {:induction false} PreparedShape(h: Heap, l: Limits, metadata: Value, redact: seq<Field> -> seq<Field>)
    requires Closed(h) && ValueIn(h, metadata) && IsRecord(h, metadata)
    ensures PrepareMetadata(h, l, metadata, redact).JObj?
    ensures Shape(PrepareMetadata(h, l, metadata, redact), MAX_DEPTH + 1)
  {
    RecordsNeverThrow(h, l, metadata.r, {});
    TreeShape(l, false, JObj(redact(Bound(h, l, false, metadata, {}, 0).value.value.fields)), 0);
  }

  lemma {:induction false} RecordStays(l: Limits, j: Json)
    requires j.JObj?
    ensures BoundTree(l, false, j, 0).JObj?
  {
  }

  // With redaction off, preparing prepared metadata again changes nothing: bounding stabilises after two passes.
  lemma {:induction false} PrepareIdempotent(h: Heap, l: Limits, metadata: Value, redact: seq<Field> -> seq<Field>,
        h': Heap, again: Value, refs: set<nat>)
    requires Closed(h) && ValueIn(h, metadata) && IsRecord(h, metadata)
    requires forall fs :: redact(fs) == fs
    requires Closed(h') && ValueIn(h', again) && Holds(h', again, PrepareMetadata(h, l, metadata, redact), refs)
    ensures PrepareMetadata(h', l, again, redact) == PrepareMetadata(h, l, metadata, redact)
  {
    hide Bound, BoundTree, Holds, Closed, Shape, Narrow;
    var once, twice := Bound(h, l, false, metadata, {}, 0).value, PrepareMetadata(h, l, metadata, redact);
    RecordsNeverThrow(h, l, metadata.r, {});
    assert twice == BoundTree(l, false, once.value, 0);
    ThreeIsTwo(h, l, false, metadata);
    BoundOnTree(h', l, false, again, twice, refs, {}, 0);
    RecordStays(l, once.value);
  }

  // Bounding any value three times is bounding it twice.
  lemma {:induction false} ThreeIsTwo(h: Heap, l: Limits, preview: bool, v: Value)
    requires Closed(h) && ValueIn(h, v)
    requires Bound(h, l, preview, v, {}, 0).value.Some?
    ensures var once := Bound(h, l, preview, v, {}, 0).value.value;
            var twice := BoundTree(l, preview, once, 0);
            BoundTree(l, preview, twice, 0) == twice
  {
    BoundShape(h, l, preview, v, {}, 0, MAX_DEPTH + 1);
    ShapeNarrow(Bound(h, l, preview, v, {}, 0).value.value, 0);
    NarrowStable(l, preview, Bound(h, l, preview, v, {}, 0).value.value, 0);
  }
}
