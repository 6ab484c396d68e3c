// Bounding of metadata before it reaches the disk.
module MetadataBounds {
  import opened Wrappers
  import opened Json

  const MAX_DEPTH: nat := 32
  const MAX_ITEMS: nat := 50

  datatype Limits = Limits(maxMetadataValueLength: nat, maxPreviewLength: nat)

  // ---- Strings ----

  function TruncateString(value: Str, maxLen: nat): Str {
    if maxLen == 0 then ELLIPSIS
    else if |value| <= maxLen then value
    else value[..maxLen] + ELLIPSIS
  }

  // Cutting twice is cutting once at the smaller length.
  lemma {:induction false} TruncateCompose(value: Str, n: nat, m: nat)
    ensures TruncateString(TruncateString(value, n), m) == TruncateString(value, Min(n, m))
  {
    if n > 0 && m > 0 && |value| > n {
      assert TruncateString(value, n)[..Min(n, m)] == value[..Min(n, m)];
    }
  }

  function Lower(c: CodeUnit): CodeUnit {
    if 65 <= c <= 90 then c + 32 else c
  }

  predicate StartsWithPreview(key: Str) {
    |key| >= 7 && forall i :: 0 <= i < 7 ==> Lower(key[i]) == Ascii("preview")[i]
  }

  // The key contains "preview" in any case; no letter outside ASCII lower-cases to one of these letters.
  predicate IsPreviewKey(key: Str) {
    key != [] && (StartsWithPreview(key) || IsPreviewKey(key[1..]))
  }

  function MaxLength(preview: bool, l: Limits): nat {
    if preview then l.maxPreviewLength else l.maxMetadataValueLength
  }

  // ---- Values in the heap ----

  datatype Value =
    | Undefined
    | Null
    | Bool(b: bool)
    | Num(text: Str)
    | NonFinite(text: Str)
    | Text(s: Str)
    | BigInt(digits: Str)
    | Function
    | Symbol
    | Ref(r: nat)

  // Arrays and records may be shared and may contain themselves. A broken one throws when it is read.
  datatype Obj = Arr(items: seq<Value>) | Rec(entries: seq<(Str, Value)>) | BrokenArr | BrokenRec

  type Heap = map<nat, Obj>

  ghost predicate ValueIn(h: Heap, v: Value) {
    v.Ref? ==> v.r in h
  }

  ghost predicate Closed(h: Heap) {
    forall r :: r in h ==>
      && (h[r].Arr? ==> forall i :: 0 <= i < |h[r].items| ==> ValueIn(h, h[r].items[i]))
      && (h[r].Rec? ==> forall i :: 0 <= i < |h[r].entries| ==> ValueIn(h, h[r].entries[i].1))
  }

  function MaxDepthMark(): Json { JStr(Ascii("[MaxDepth]")) }
  function FunctionMark(): Json { JStr(Ascii("[Function]")) }
  function SymbolMark(): Json { JStr(Ascii("[Symbol]")) }
  function CircularMark(): Json { JStr(Ascii("[Circular]")) }

  // The marker pushed after the items that are kept of a long array.
  function MoreMark(dropped: nat): Json {
    JStr(ELLIPSIS + Ascii("(+") + Decimal(dropped) + Ascii(" more)"))
  }

  function EnumerationFailed(): Json {
    JObj([Field(Ascii("truncated"), JBool(true)), Field(Ascii("reason"), JStr(Ascii("metadataEnumerationFailed")))])
  }

  const PROTO: Str := Ascii("__proto__")

  // ---- Bounding a heap value ----

  // The bounded value, or None when reading threw, and the objects seen by then.
  datatype Bounded<T> = Bounded(value: Option<T>, seen: set<nat>)

  // Keys of array items are decimal numbers and never preview keys.
  function Bound(h: Heap, l: Limits, preview: bool, v: Value, seen: set<nat>, depth: nat): Bounded<Json>
    requires Closed(h) && ValueIn(h, v) && depth <= MAX_DEPTH + 1
    decreases MAX_DEPTH + 1 - depth, 1, 0
  {
    if depth > MAX_DEPTH then Bounded(Some(MaxDepthMark()), seen)
    else
      match v
      case BigInt(digits) => Bounded(Some(JStr(digits + Ascii("n"))), seen)
      case Function => Bounded(Some(FunctionMark()), seen)
      case Symbol => Bounded(Some(SymbolMark()), seen)
      case NonFinite(text) => Bounded(Some(JStr(text)), seen)
      case Undefined => Bounded(Some(JNull), seen)
      case Null => Bounded(Some(JNull), seen)
      case Bool(b) => Bounded(Some(JBool(b)), seen)
      case Num(text) => Bounded(Some(JNum(text)), seen)
      case Text(s) => Bounded(Some(JStr(TruncateString(s, MaxLength(preview, l)))), seen)
      case Ref(r) =>
        if r in seen then Bounded(Some(CircularMark()), seen)
        else
          match h[r]
          case BrokenArr => Bounded(None, seen + {r})
          case BrokenRec => Bounded(Some(EnumerationFailed()), seen + {r})
          case Arr(items) =>
            var kept := items[..Min(MAX_ITEMS, |items|)];
            var out := BoundItems(h, l, kept, seen + {r}, depth + 1);
            (match out.value
             case None => Bounded(None, out.seen)
             case Some(js) => Bounded(Some(JArr(js + More(|items|))), out.seen))
          case Rec(entries) =>
            var out := BoundEntries(h, l, entries, seen + {r}, depth + 1);
            (match out.value
             case None => Bounded(Some(EnumerationFailed()), out.seen)
             case Some(fs) => Bounded(Some(JObj(fs)), out.seen))
  }

  function More(length: nat): seq<Json> {
    if length > MAX_ITEMS then [MoreMark(length - MAX_ITEMS)] else []
  }

  function BoundItems(h: Heap, l: Limits, items: seq<Value>, seen: set<nat>, depth: nat): (out: Bounded<seq<Json>>)
    requires Closed(h) && (forall i :: 0 <= i < |items| ==> ValueIn(h, items[i])) && depth <= MAX_DEPTH + 1
    ensures out.value.Some? ==> |out.value.value| == |items|
    decreases MAX_DEPTH + 1 - depth, 2, |items|
  {
    if items == [] then Bounded(Some([]), seen)
    else
      var first := Bound(h, l, false, items[0], seen, depth);
      if first.value.None? then Bounded(None, first.seen)
      else
        var rest := BoundItems(h, l, items[1..], first.seen, depth);
        if rest.value.None? then Bounded(None, rest.seen)
        else Bounded(Some([first.value.value] + rest.value.value), rest.seen)
  }

  // Assigning to the key __proto__ creates no own property, so that entry is lost.
  function BoundEntries(h: Heap, l: Limits, entries: seq<(Str, Value)>, seen: set<nat>, depth: nat): Bounded<seq<Field>>
    requires Closed(h) && (forall i :: 0 <= i < |entries| ==> ValueIn(h, entries[i].1)) && depth <= MAX_DEPTH + 1
    decreases MAX_DEPTH + 1 - depth, 2, |entries|
  {
    if entries == [] then Bounded(Some([]), seen)
    else
      var first := Bound(h, l, IsPreviewKey(entries[0].0), entries[0].1, seen, depth);
      if first.value.None? then Bounded(None, first.seen)
      else
        var rest := BoundEntries(h, l, entries[1..], first.seen, depth);
        if rest.value.None? then Bounded(None, rest.seen)
        else if entries[0].0 == PROTO then rest
        else Bounded(Some([Field(entries[0].0, first.value.value)] + rest.value.value), rest.seen)
  }

  // ---- Bounding a tree ----

  // What bounding makes of a tree of fresh objects, such as an earlier result.
  function BoundTree(l: Limits, preview: bool, j: Json, depth: nat): Json
    requires depth <= MAX_DEPTH + 1
    decreases MAX_DEPTH + 1 - depth, 1, 0
  {
    if depth > MAX_DEPTH then MaxDepthMark()
    else
      match j
      case JStr(s) => JStr(TruncateString(s, MaxLength(preview, l)))
      case JArr(items) => JArr(TreeItems(l, items[..Min(MAX_ITEMS, |items|)], depth + 1) + More(|items|))
      case JObj(fields) => JObj(TreeFields(l, fields, depth + 1))
      case _ => j
  }

  function TreeItems(l: Limits, items: seq<Json>, depth: nat): (r: seq<Json>)
    requires depth <= MAX_DEPTH + 1
    ensures |r| == |items|
    decreases MAX_DEPTH + 1 - depth, 2, |items|
  {
    if items == [] then [] else [BoundTree(l, false, items[0], depth)] + TreeItems(l, items[1..], depth)
  }

  function TreeFields(l: Limits, fields: seq<Field>, depth: nat): seq<Field>
    requires depth <= MAX_DEPTH + 1
    decreases MAX_DEPTH + 1 - depth, 2, |fields|
  {
    if fields == [] then []
    else
      (if fields[0].key == PROTO then []
       else [Field(fields[0].key, BoundTree(l, IsPreviewKey(fields[0].key), fields[0].value, depth))])
      + TreeFields(l, fields[1..], depth)
  }
}
