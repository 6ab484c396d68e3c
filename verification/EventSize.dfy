// Final size bounds on rows before they are written.
module EventSize {
  import opened Wrappers
  import opened Json
  import opened MetadataBounds
  import MetadataContent

  // ---- Trace rows and the size-reduction ladder ----

  datatype EventKind = StartRow | CompletionRow | OutcomeRow

  datatype ErrorInfo = ErrorInfo(message: Str, stack: Option<Str>)

  // The fixed fields of a row, its metadata (start rows only) and its error (completion rows only).
  datatype Event = Event(kind: EventKind, fields: seq<Field>, metadata: Option<Json>, error: Option<ErrorInfo>)

  function ErrorJson(e: ErrorInfo): Json {
    JObj([Field(Ascii("message"), JStr(e.message))]
         + (if e.stack.Some? then [Field(Ascii("stack"), JStr(e.stack.value))] else []))
  }

  // JSON.stringify of the row; the order of properties does not matter to its size.
  function EventJson(e: Event): Json {
    JObj(e.fields
         + (if e.kind.StartRow? && e.metadata.Some? then [Field(Ascii("metadata"), e.metadata.value)] else [])
         + (if e.kind.CompletionRow? && e.error.Some? then [Field(Ascii("error"), ErrorJson(e.error.value))] else []))
  }

  function EventBytes(e: Event): nat {
    Bytes(EventJson(e))
  }

  // Only shrinks limits that are large enough: a length below 32, or a preview length below 16, grows to that floor.
  function ShrinkMetadataLimits(l: Limits, divisor: nat): Limits
    requires divisor > 0
  {
    Limits(Max(32, l.maxMetadataValueLength / divisor), Max(16, l.maxPreviewLength / divisor))
  }

  lemma {:induction false} ShrinkShrinks(l: Limits, divisor: nat)
    requires divisor >= 2
    ensures ShrinkMetadataLimits(l, divisor).maxMetadataValueLength <= l.maxMetadataValueLength
            <==> l.maxMetadataValueLength >= 32
    ensures ShrinkMetadataLimits(l, divisor).maxPreviewLength <= l.maxPreviewLength <==> l.maxPreviewLength >= 16
  {
    assert l.maxMetadataValueLength / divisor <= l.maxMetadataValueLength;
    assert l.maxPreviewLength / divisor <= l.maxPreviewLength;
  }

  function Marker(originalApproxBytes: nat): Json {
    JObj([Field(Ascii("truncated"), JBool(true)), Field(Ascii("reason"), JStr(Ascii("maxEventBytes"))),
          Field(Ascii("originalApproxBytes"), JNum(Decimal(originalApproxBytes)))])
  }

  function WithMetadata(e: Event, metadata: Json): Event {
    if e.kind.StartRow? then e.(metadata := Some(metadata)) else e
  }

  function TruncateErrorStack(e: Event, maxLen: nat): Event {
    if e.kind.CompletionRow? && e.error.Some? && e.error.value.stack.Some? && e.error.value.stack.value != [] then
      e.(error := Some(e.error.value.(stack := Some(TruncateString(e.error.value.stack.value, maxLen)))))
    else e
  }

  function HasMetadata(e: Event): bool {
    e.kind.StartRow? && e.metadata.Some?
  }

  // The row without its metadata.
  function Bare(e: Event): Event {
    if e.kind.StartRow? then e.(metadata := None) else e
  }

  // The metadata tried in turn: as prepared, with the limits at a half, a quarter and a tenth, and the marker.
  function Candidates(e: Event, l: Limits, prepare: Limits -> Json): seq<Json> {
    [prepare(l), prepare(ShrinkMetadataLimits(l, 2)), prepare(ShrinkMetadataLimits(l, 4)),
     prepare(ShrinkMetadataLimits(l, 10)), Marker(EventBytes(WithMetadata(e, prepare(l))))]
  }

  ghost predicate NoLarger(a: Limits, b: Limits) {
    a.maxMetadataValueLength <= b.maxMetadataValueLength && a.maxPreviewLength <= b.maxPreviewLength
  }

  // Each rung of the ladder prepares the metadata under limits no larger than the rung before it. The first is the
  // exception, for limits below the floors.
  lemma {:induction false} LadderDescends(e: Event, l: Limits, prepare: Limits -> Json)
    returns (half: Limits, quarter: Limits, tenth: Limits)
    ensures NoLarger(tenth, quarter) && NoLarger(quarter, half)
    ensures NoLarger(half, l) <==> l.maxMetadataValueLength >= 32 && l.maxPreviewLength >= 16
    ensures 2 * half.maxMetadataValueLength <= Max(64, l.maxMetadataValueLength)
    ensures 4 * quarter.maxMetadataValueLength <= Max(128, l.maxMetadataValueLength)
    ensures 10 * tenth.maxMetadataValueLength <= Max(320, l.maxMetadataValueLength)
    ensures Candidates(e, l, prepare)[..4] == [prepare(l), prepare(half), prepare(quarter), prepare(tenth)]
  {
    half, quarter := ShrinkMetadataLimits(l, 2), ShrinkMetadataLimits(l, 4);
    tenth := ShrinkMetadataLimits(l, 10);
    ShrinkShrinks(l, 2);
  }

  // The first candidate with which the row fits, or no metadata if none does.
  ghost predicate FirstFitting(e: Event, candidates: seq<Json>, maxEventBytes: nat, r: Event) {
    || (exists k :: 0 <= k < |candidates| && r == WithMetadata(e, candidates[k]) && EventBytes(r) <= maxEventBytes
          && forall j :: 0 <= j < k ==> EventBytes(WithMetadata(e, candidates[j])) > maxEventBytes)
    || (r == Bare(e) && forall j :: 0 <= j < |candidates| ==>
        EventBytes(WithMetadata(e, candidates[j])) > maxEventBytes)
  }

  // What the ladder may change: the metadata of a start row, and the stack of a completion row's error.
  ghost predicate SameButCut(e: Event, r: Event, maxStack: nat) {
    && r.kind == e.kind && r.fields == e.fields
    && (!(e.kind.StartRow? && e.metadata.Some?) ==> r.metadata == e.metadata)
    && (r.error == e.error
        || (e.kind.CompletionRow? && e.error.Some? && r.error.Some? && r.error.value.message == e.error.value.message
            && e.error.value.stack.Some? && r.error.value.stack.Some?
            && MetadataContent.CutTo(e.error.value.stack.value, maxStack, r.error.value.stack.value)))
  }

  lemma {:induction false} StackCut(e: Event, maxStack: nat)
    ensures SameButCut(e, TruncateErrorStack(e, maxStack), maxStack)
  {
    if e.error.Some? && e.error.value.stack.Some? {
      var s := e.error.value.stack.value;
      MetadataContent.CutExactly(s, maxStack, TruncateString(s, maxStack));
    }
  }

  // `prepare` stands for redacting and bounding the row's raw metadata under given limits; the row's
  // error is already redacted.
  method PrepareTraceEventForDisk(event: Event, l: Limits, maxEventBytes: nat,
        prepare: Limits -> Json) returns (working: Event)
    ensures !HasMetadata(event) && EventBytes(event) <= maxEventBytes ==> working == event
    ensures HasMetadata(event) ==> FirstFitting(event, Candidates(event, l, prepare), maxEventBytes, working)
    // Start rows: only the metadata changes, and the result fits exactly if the row fits without metadata.
    ensures event.kind.StartRow? ==> Bare(working) == Bare(event)
    ensures event.kind.StartRow? ==>
              (EventBytes(working) <= maxEventBytes <==> EventBytes(Bare(event)) <= maxEventBytes)
    // Completion rows: only the error's stack changes, and the result fits exactly if the row fits as it
    // is or with the stack cut.
    ensures event.kind.CompletionRow? ==>
              working == event || working == TruncateErrorStack(event, Min(l.maxMetadataValueLength, 500))
    ensures event.kind.CompletionRow? ==>
              (EventBytes(working) <= maxEventBytes <==>
               EventBytes(event) <= maxEventBytes
               || EventBytes(TruncateErrorStack(event, Min(l.maxMetadataValueLength, 500))) <= maxEventBytes)
    ensures event.kind.OutcomeRow? ==> working == event
    // Whatever is cut: kind, fields and the error's message stay, and the stack is kept or cut.
    ensures SameButCut(event, working, Min(l.maxMetadataValueLength, 500))
  {
    hide EventJson, EventBytes;
    StackCut(event, Min(l.maxMetadataValueLength, 500));
    working := event;
    var raw := HasMetadata(event);
    if raw {
      working := WithMetadata(working, prepare(l));
    }
    var bytes := EventBytes(working);
    BareSmaller(working);
    ghost var candidates := Candidates(event, l, prepare);
    assert raw ==> working == WithMetadata(event, candidates[0]);
    if bytes <= maxEventBytes {
      return;
    }
    if raw {
      var divisors := [2, 4, 10];
      for i := 0 to 3
        invariant working.kind == event.kind && Bare(working) == Bare(event) && HasMetadata(working)
        invariant forall j :: 0 <= j <= i ==> EventBytes(WithMetadata(event, candidates[j])) > maxEventBytes
      {
        var tighter := ShrinkMetadataLimits(l, divisors[i]);
        working := WithMetadata(working, prepare(tighter));
        BareSmaller(working);
        assert working == WithMetadata(event, candidates[i + 1]);
        if EventBytes(working) <= maxEventBytes {
          return;
        }
      }
      working := WithMetadata(working, Marker(bytes));
      BareSmaller(working);
      assert working == WithMetadata(event, candidates[4]);
      if EventBytes(working) <= maxEventBytes {
        return;
      }
    }
    working := TruncateErrorStack(working, Min(l.maxMetadataValueLength, 500));
    if EventBytes(working) <= maxEventBytes {
      return;
    }
    if HasMetadata(working) {
      working := WithMetadata(working, Marker(bytes));
      if EventBytes(working) <= maxEventBytes {
        return;
      }
      working := working.(metadata := None);
    }
  }

  lemma {:induction false} BareSmaller(e: Event)
    ensures EventBytes(Bare(e)) <= EventBytes(e)
  {
    if HasMetadata(e) {
      var m := [Field(Ascii("metadata"), e.metadata.value)];
      FieldsConcat(e.fields, m);
      assert EventJson(e) == JObj(e.fields + m) by {
        assert e.fields + m + [] == e.fields + m;
      }
      assert EventJson(Bare(e)) == JObj(e.fields) by {
        assert e.fields + [] + [] == e.fields;
      }
    }
  }

  // ---- Persisted events: minimal and tiny forms ----

  datatype SchemaVersion = V02 | V10
  datatype InspectKind =
    RUN | AGENT | LLM | TOOL | CHAIN | RETRIEVER | DECISION | RESULT | ERROR | LOGIC | LOG | OUTCOME
  datatype Confidence = Explicit | Correlated | Heuristic | UnknownConfidence
  datatype SourceType = Manual | JsonLog | Log4js | Adapter | AiSdkSource | Otel
  datatype PersistedStatus = StatusRunning | StatusOk | StatusError | StatusUnknown

  datatype Source = Source(sourceType: SourceType, name: Option<Str>, version: Option<Str>)

  // `rest` holds the remaining optional properties.
  datatype Persisted = Persisted(schemaVersion: SchemaVersion, eventId: Str, runId: Str, kind: InspectKind, name: Str,
                                 status: Option<PersistedStatus>, timestamp: Str, confidence: Confidence,
                                 source: Source, rest: seq<Field>)

  function VersionText(v: SchemaVersion): Str {
    if v == V02 then Ascii("0.2") else Ascii("1.0")
  }

  function KindText(k: InspectKind): Str {
    match k
    case RUN => Ascii("RUN")
    case AGENT => Ascii("AGENT")
    case LLM => Ascii("LLM")
    case TOOL => Ascii("TOOL")
    case CHAIN => Ascii("CHAIN")
    case RETRIEVER => Ascii("RETRIEVER")
    case DECISION => Ascii("DECISION")
    case RESULT => Ascii("RESULT")
    case ERROR => Ascii("ERROR")
    case LOGIC => Ascii("LOGIC")
    case LOG => Ascii("LOG")
    case OUTCOME => Ascii("OUTCOME")
  }

  function ConfidenceText(c: Confidence): Str {
    match c
    case Explicit => Ascii("explicit")
    case Correlated => Ascii("correlated")
    case Heuristic => Ascii("heuristic")
    case UnknownConfidence => Ascii("unknown")
  }

  function SourceText(s: SourceType): Str {
    match s
    case Manual => Ascii("manual")
    case JsonLog => Ascii("json-log")
    case Log4js => Ascii("log4js")
    case Adapter => Ascii("adapter")
    case AiSdkSource => Ascii("ai-sdk")
    case Otel => Ascii("otel")
  }

  function StatusText(s: PersistedStatus): Str {
    match s
    case StatusRunning => Ascii("running")
    case StatusOk => Ascii("ok")
    case StatusError => Ascii("error")
    case StatusUnknown => Ascii("unknown")
  }

  function SourceJson(s: Source): Json {
    JObj([Field(Ascii("type"), JStr(SourceText(s.sourceType)))]
         + (if s.name.Some? then [Field(Ascii("name"), JStr(s.name.value))] else [])
         + (if s.version.Some? then [Field(Ascii("version"), JStr(s.version.value))] else []))
  }

  function FixedFields(p: Persisted): seq<Field> {
    [Field(Ascii("schemaVersion"), JStr(VersionText(p.schemaVersion))),
     Field(Ascii("eventId"), JStr(p.eventId)),
     Field(Ascii("runId"), JStr(p.runId)),
     Field(Ascii("kind"), JStr(KindText(p.kind))),
     Field(Ascii("name"), JStr(p.name)),
     Field(Ascii("timestamp"), JStr(p.timestamp)),
     Field(Ascii("confidence"), JStr(ConfidenceText(p.confidence))),
     Field(Ascii("source"), SourceJson(p.source))]
    + (if p.status.Some? then [Field(Ascii("status"), JStr(StatusText(p.status.value)))] else [])
  }

  function PersistedJson(p: Persisted): Json {
    JObj(FixedFields(p) + p.rest)
  }

  function PersistedBytes(p: Persisted): nat {
    Bytes(PersistedJson(p))
  }

  // What the runtime guard demands beyond the types: non-empty identifiers.
  predicate IsPersisted(p: Persisted) {
    p.eventId != [] && p.runId != [] && p.name != [] && p.timestamp != []
  }

  function Cut(s: Option<Str>, n: nat): Option<Str> {
    if s.Some? then Some(TruncateString(s.value, n)) else None
  }

  function MinimalPersisted(p: Persisted, maxEventBytes: nat, originalApproxBytes: nat): Persisted {
    Persisted(p.schemaVersion, TruncateString(p.eventId, 128), TruncateString(p.runId, 128), p.kind,
              TruncateString(p.name, 128), p.status, TruncateString(p.timestamp, 128), p.confidence,
              Source(p.source.sourceType, Cut(p.source.name, 128), Cut(p.source.version, 128)),
              [Field(Ascii("attributes"),
                     JObj([Field(Ascii("truncated"), JBool(true)),
                           Field(Ascii("reason"), JStr(Ascii("maxEventBytes"))),
                           Field(Ascii("originalApproxBytes"), JNum(Decimal(originalApproxBytes))),
                           Field(Ascii("maxEventBytes"), JNum(Decimal(maxEventBytes)))]))])
  }

  function TinyAttributes(): Json {
    JObj([Field(Ascii("truncated"), JBool(true)), Field(Ascii("reason"), JStr(Ascii("maxEventBytes")))])
  }

  function TinyPersisted(p: Persisted): Persisted {
    Persisted(p.schemaVersion, TruncateString(p.eventId, 32), TruncateString(p.runId, 32), p.kind,
              TruncateString(p.name, 32), None, TruncateString(p.timestamp, 32), p.confidence,
              Source(p.source.sourceType, None, None), [Field(Ascii("attributes"), TinyAttributes())])
  }

  function EnforcePersistedSize(p: Persisted, maxEventBytes: nat): Option<Persisted> {
    var bytes := PersistedBytes(p);
    if bytes <= maxEventBytes then Some(p)
    else
      var minimal := MinimalPersisted(p, maxEventBytes, bytes);
      if PersistedBytes(minimal) <= maxEventBytes then Some(minimal)
      else
        var tiny := TinyPersisted(p);
        if IsPersisted(tiny) then Some(tiny) else None
  }

  // No tiny form is larger than this, whatever it was cut from.
  const TINY_BYTES: nat := 1002

  lemma {:induction false} CutBytes(s: Str)
    ensures StrBytes(TruncateString(s, 32)) <= 200
  {
    EscapedBound(TruncateString(s, 32));
  }

  ghost predicate PlainText(s: string) {
    forall i :: 0 <= i < |s| ==> 32 <= s[i] as int < 127 && s[i] != '\"' && s[i] != '\\'
  }

  lemma {:induction false} AsciiBytes(s: string)
    requires PlainText(s)
    ensures StrBytes(Ascii(s)) == 2 + |s|
  {
    PlainBytes(Ascii(s));
  }

  // A property with a key of plain characters and a value of at most n bytes, in front of others of at most m bytes.
  lemma {:induction false} PropertyBytes(key: string, value: Json, n: nat, rest: seq<Field>, m: nat)
    requires StrBytes(Ascii(key)) == 2 + |key|
    requires Bytes(value) <= n && FieldsBytes(rest) <= m
    ensures FieldsBytes([Field(Ascii(key), value)] + rest) <= |key| + 4 + n + m
  {
    FieldsCons(Field(Ascii(key), value), rest);
  }

  lemma {:induction false} FirstKeyBytes()
    ensures StrBytes(Ascii("schemaVersion")) == 15
    ensures StrBytes(Ascii("eventId")) == 9
    ensures StrBytes(Ascii("runId")) == 7
    ensures StrBytes(Ascii("kind")) == 6
  {
    hide EscapedBytes, Ascii;
    AsciiBytes("schemaVersion");
    AsciiBytes("eventId");
    AsciiBytes("runId");
    AsciiBytes("kind");
  }

  lemma {:induction false} LastKeyBytes()
    ensures StrBytes(Ascii("name")) == 6
    ensures StrBytes(Ascii("timestamp")) == 11
    ensures StrBytes(Ascii("confidence")) == 12
    ensures StrBytes(Ascii("source")) == 8
    ensures StrBytes(Ascii("attributes")) == 12
  {
    hide EscapedBytes, Ascii;
    AsciiBytes("name");
    AsciiBytes("timestamp");
    AsciiBytes("confidence");
    AsciiBytes("source");
    AsciiBytes("attributes");
  }

  lemma {:induction false} VersionBytes(v: SchemaVersion)
    ensures StrBytes(VersionText(v)) <= 5
  {
    AsciiBytes("0.2");
    AsciiBytes("1.0");
  }

  lemma {:induction false} KindBytes(k: InspectKind)
    ensures StrBytes(KindText(k)) <= 11
  {
    match k
    case RUN => AsciiBytes("RUN");
    case AGENT => AsciiBytes("AGENT");
    case LLM => AsciiBytes("LLM");
    case TOOL => AsciiBytes("TOOL");
    case CHAIN => AsciiBytes("CHAIN");
    case RETRIEVER => AsciiBytes("RETRIEVER");
    case DECISION => AsciiBytes("DECISION");
    case RESULT => AsciiBytes("RESULT");
    case ERROR => AsciiBytes("ERROR");
    case LOGIC => AsciiBytes("LOGIC");
    case LOG => AsciiBytes("LOG");
    case OUTCOME => AsciiBytes("OUTCOME");
  }

  lemma {:induction false} ConfidenceBytes(c: Confidence)
    ensures StrBytes(ConfidenceText(c)) <= 12
  {
    match c
    case Explicit => AsciiBytes("explicit");
    case Correlated => AsciiBytes("correlated");
    case Heuristic => AsciiBytes("heuristic");
    case UnknownConfidence => AsciiBytes("unknown");
  }

  lemma {:induction false} SourceBytes(s: SourceType)
    ensures StrBytes(SourceText(s)) <= 10
  {
    match s
    case Manual => AsciiBytes("manual");
    case JsonLog => AsciiBytes("json-log");
    case Log4js => AsciiBytes("log4js");
    case Adapter => AsciiBytes("adapter");
    case AiSdkSource => AsciiBytes("ai-sdk");
    case Otel => AsciiBytes("otel");
  }

  lemma {:induction false} TinySourceBytes(s: SourceType)
    ensures Bytes(SourceJson(Source(s, None, None))) <= 20
  {
    hide EscapedBytes, Ascii;
    AsciiBytes("type");
    SourceBytes(s);
    PropertyBytes("type", JStr(SourceText(s)), 10, [], 0);
    var f := [Field(Ascii("type"), JStr(SourceText(s)))];
    assert f + [] + [] == f && f + [] == f;
  }

  lemma {:induction false} TinyAttributesBytes()
    ensures Bytes(TinyAttributes()) <= 48
  {
    hide EscapedBytes, Ascii;
    AsciiBytes("maxEventBytes");
    AsciiBytes("reason");
    AsciiBytes("truncated");
    var reason := Field(Ascii("reason"), JStr(Ascii("maxEventBytes")));
    PropertyBytes("reason", reason.value, 15, [], 0);
    assert [reason] + [] == [reason];
    PropertyBytes("truncated", JBool(true), 4, [reason], 25);
    assert [Field(Ascii("truncated"), JBool(true)), reason] == [Field(Ascii("truncated"), JBool(true))] + [reason];
  }

  function TinyTail(p: Persisted): seq<Field> {
    [Field(Ascii("name"), JStr(TruncateString(p.name, 32)))]
    + ([Field(Ascii("timestamp"), JStr(TruncateString(p.timestamp, 32)))]
       + ([Field(Ascii("confidence"), JStr(ConfidenceText(p.confidence)))]
          + ([Field(Ascii("source"), SourceJson(Source(p.source.sourceType, None, None)))]
             + [Field(Ascii("attributes"), TinyAttributes())])))
  }

  lemma {:induction false} TinyTailBytes(p: Persisted)
    ensures FieldsBytes(TinyTail(p)) <= 539
  {
    hide EscapedBytes, Ascii;
    LastKeyBytes();
    TinyAttributesBytes();
    var attributes := [Field(Ascii("attributes"), TinyAttributes())];
    PropertyBytes("attributes", TinyAttributes(), 48, [], 0);
    assert attributes + [] == attributes;
    TinySourceBytes(p.source.sourceType);
    var source := SourceJson(Source(p.source.sourceType, None, None));
    PropertyBytes("source", source, 20, attributes, 62);
    var fromSource := [Field(Ascii("source"), source)] + attributes;
    ConfidenceBytes(p.confidence);
    var confidence := JStr(ConfidenceText(p.confidence));
    PropertyBytes("confidence", confidence, 12, fromSource, 92);
    var fromConfidence := [Field(Ascii("confidence"), confidence)] + fromSource;
    CutBytes(p.timestamp);
    var timestamp := JStr(TruncateString(p.timestamp, 32));
    PropertyBytes("timestamp", timestamp, 200, fromConfidence, 118);
    CutBytes(p.name);
    PropertyBytes("name", JStr(TruncateString(p.name, 32)), 200,
                  [Field(Ascii("timestamp"), timestamp)] + fromConfidence, 331);
  }

  lemma {:induction false} TinyBound(p: Persisted)
    ensures PersistedBytes(TinyPersisted(p)) <= TINY_BYTES
  {
    hide EscapedBytes, Ascii, FieldsBytes, KindText, VersionText, TinyTail;
    FirstKeyBytes();
    TinyTailBytes(p);
    var tail := TinyTail(p);
    KindBytes(p.kind);
    var kind := JStr(KindText(p.kind));
    PropertyBytes("kind", kind, 11, tail, 539);
    var fromKind := [Field(Ascii("kind"), kind)] + tail;
    CutBytes(p.runId);
    var runId := JStr(TruncateString(p.runId, 32));
    PropertyBytes("runId", runId, 200, fromKind, 558);
    var fromRunId := [Field(Ascii("runId"), runId)] + fromKind;
    CutBytes(p.eventId);
    var eventId := JStr(TruncateString(p.eventId, 32));
    PropertyBytes("eventId", eventId, 200, fromRunId, 767);
    VersionBytes(p.schemaVersion);
    var version := JStr(VersionText(p.schemaVersion));
    var fromEventId := [Field(Ascii("eventId"), eventId)] + fromRunId;
    PropertyBytes("schemaVersion", version, 5, fromEventId, 978);
    TinyFields(p);
  }

  lemma {:induction false} TinyFields(p: Persisted)
    ensures PersistedJson(TinyPersisted(p)) ==
            JObj([Field(Ascii("schemaVersion"), JStr(VersionText(p.schemaVersion)))]
                 + ([Field(Ascii("eventId"), JStr(TruncateString(p.eventId, 32)))]
                    + ([Field(Ascii("runId"), JStr(TruncateString(p.runId, 32)))]
                       + ([Field(Ascii("kind"), JStr(KindText(p.kind)))] + TinyTail(p)))))
  {
    hide EscapedBytes, Ascii, FieldsBytes, KindText, VersionText, ConfidenceText, SourceText, TruncateString,
         TinyAttributes;
  }

  // Enforcement always returns a valid event if a valid event was given: the event itself if it fits, else the minimal
  // form if that fits, else the tiny form; so every budget of at least TINY_BYTES is met.
  lemma {:induction false} EnforcedSize(p: Persisted, maxEventBytes: nat)
    requires IsPersisted(p)
    ensures var r := EnforcePersistedSize(p, maxEventBytes);
            && r.Some? && IsPersisted(r.value)
            && (PersistedBytes(p) <= maxEventBytes ==> r.value == p)
            && (PersistedBytes(p) > maxEventBytes ==>
                  var minimal := MinimalPersisted(p, maxEventBytes, PersistedBytes(p));
                  if PersistedBytes(minimal) <= maxEventBytes then r.value == minimal
                  else r.value == TinyPersisted(p) && PersistedBytes(r.value) <= TINY_BYTES)
            && (maxEventBytes >= TINY_BYTES ==> PersistedBytes(r.value) <= maxEventBytes)
  {
    TinyBound(p);
  }

  // Whatever form is chosen names the same event: kind, versions, confidence and source type are kept, and the texts
  // agree as far as 32 code units.
  lemma {:induction false} EnforcedKeepsIdentity(p: Persisted, maxEventBytes: nat)
    ensures var r := EnforcePersistedSize(p, maxEventBytes);
            r.Some? ==>
              && (r.value.schemaVersion, r.value.kind, r.value.confidence) == (p.schemaVersion, p.kind, p.confidence)
              && r.value.source.sourceType == p.source.sourceType
              && TruncateString(r.value.eventId, 32) == TruncateString(p.eventId, 32)
              && TruncateString(r.value.runId, 32) == TruncateString(p.runId, 32)
              && TruncateString(r.value.name, 32) == TruncateString(p.name, 32)
              && TruncateString(r.value.timestamp, 32) == TruncateString(p.timestamp, 32)
  {
    hide PersistedBytes, TruncateString;
    SameWhenCut(p.eventId);
    SameWhenCut(p.runId);
    SameWhenCut(p.name);
    SameWhenCut(p.timestamp);
  }

  ghost predicate OptionCut(s: Option<Str>, n: nat, r: Option<Str>) {
    if s.None? then r.None? else r.Some? && MetadataContent.CutTo(s.value, n, r.value)
  }

  // The minimal form: every text cut at 128 code units, all enumerations kept, and attributes that say what was done.
  lemma {:induction false} MinimalByFields(p: Persisted, maxEventBytes: nat, bytes: nat)
    ensures var m := MinimalPersisted(p, maxEventBytes, bytes);
            && (m.schemaVersion, m.kind, m.status, m.confidence) == (p.schemaVersion, p.kind, p.status, p.confidence)
            && MetadataContent.CutTo(p.eventId, 128, m.eventId) && MetadataContent.CutTo(p.runId, 128, m.runId)
            && MetadataContent.CutTo(p.name, 128, m.name) && MetadataContent.CutTo(p.timestamp, 128, m.timestamp)
            && m.source.sourceType == p.source.sourceType
            && OptionCut(p.source.name, 128, m.source.name) && OptionCut(p.source.version, 128, m.source.version)
            && m.rest == [Field(Ascii("attributes"),
                                JObj([Field(Ascii("truncated"), JBool(true)),
                                      Field(Ascii("reason"), JStr(Ascii("maxEventBytes"))),
                                      Field(Ascii("originalApproxBytes"), JNum(Decimal(bytes))),
                                      Field(Ascii("maxEventBytes"), JNum(Decimal(maxEventBytes)))]))]
  {
    hide Decimal, Ascii, TruncateString, MetadataContent.CutTo;
    var m := MinimalPersisted(p, maxEventBytes, bytes);
    MetadataContent.CutExactly(p.eventId, 128, m.eventId);
    MetadataContent.CutExactly(p.runId, 128, m.runId);
    MetadataContent.CutExactly(p.name, 128, m.name);
    MetadataContent.CutExactly(p.timestamp, 128, m.timestamp);
    if p.source.name.Some? {
      MetadataContent.CutExactly(p.source.name.value, 128, m.source.name.value);
    }
    if p.source.version.Some? {
      MetadataContent.CutExactly(p.source.version.value, 128, m.source.version.value);
    }
  }

  // The tiny form: every text cut at 32 code units, no status, and nothing of the source but its type.
  lemma {:induction false} TinyByFields(p: Persisted)
    ensures var t := TinyPersisted(p);
            && (t.schemaVersion, t.kind, t.status, t.confidence) == (p.schemaVersion, p.kind, None, p.confidence)
            && MetadataContent.CutTo(p.eventId, 32, t.eventId) && MetadataContent.CutTo(p.runId, 32, t.runId)
            && MetadataContent.CutTo(p.name, 32, t.name) && MetadataContent.CutTo(p.timestamp, 32, t.timestamp)
            && t.source == Source(p.source.sourceType, None, None)
            && t.rest == [Field(Ascii("attributes"), JObj([Field(Ascii("truncated"), JBool(true)),
                                                           Field(Ascii("reason"), JStr(Ascii("maxEventBytes")))]))]
  {
    hide Ascii, TruncateString, MetadataContent.CutTo;
    var t := TinyPersisted(p);
    MetadataContent.CutExactly(p.eventId, 32, t.eventId);
    MetadataContent.CutExactly(p.runId, 32, t.runId);
    MetadataContent.CutExactly(p.name, 32, t.name);
    MetadataContent.CutExactly(p.timestamp, 32, t.timestamp);
  }

  lemma {:induction false} SameWhenCut(s: Str)
    ensures TruncateString(TruncateString(s, 128), 32) == TruncateString(s, 32)
    ensures TruncateString(TruncateString(s, 32), 32) == TruncateString(s, 32)
  {
    TruncateCompose(s, 128, 32);
    TruncateCompose(s, 32, 32);
  }

  // ---- Enforcing twice ----

  lemma {:induction false} LongerRest(p: Persisted, rest: seq<Field>, more: seq<Field>)
    requires p.rest == [Field(Ascii("attributes"), JObj(rest))]
    ensures PersistedBytes(p) <= PersistedBytes(p.(rest := [Field(Ascii("attributes"), JObj(rest + more))]))
  {
    hide EscapedBytes, Ascii, FieldsBytes;
    var q := p.(rest := [Field(Ascii("attributes"), JObj(rest + more))]);
    var fixed := FixedFields(p);
    FieldsConcat(rest, more);
    FieldsConcat(fixed, p.rest);
    FieldsConcat(fixed, q.rest);
    OneField(p.rest[0]);
    OneField(q.rest[0]);
  }

  lemma {:induction false} OneField(f: Field)
    ensures FieldsBytes([f]) == StrBytes(f.key) + 1 + Bytes(f.value)
  {
  }

  lemma {:induction false} CutsOfCut(s: Str)
    ensures TruncateString(TruncateString(s, 32), 128) == TruncateString(s, 32)
    ensures TruncateString(TruncateString(s, 32), 32) == TruncateString(s, 32)
  {
    TruncateCompose(s, 32, 128);
    TruncateCompose(s, 32, 32);
  }

  // The minimal form of a tiny form is it with more attributes, and its tiny form is it.
  lemma {:induction false} FormsOfTiny(p: Persisted, maxEventBytes: nat, bytes: nat)
    ensures var tiny := TinyPersisted(p);
            && TinyPersisted(tiny) == tiny
            && PersistedBytes(tiny) <= PersistedBytes(MinimalPersisted(tiny, maxEventBytes, bytes))
  {
    var tiny := TinyPersisted(p);
    CutsOfCut(p.eventId);
    CutsOfCut(p.runId);
    CutsOfCut(p.name);
    CutsOfCut(p.timestamp);
    hide TruncateString, PersistedBytes, Ascii;
    var more := [Field(Ascii("originalApproxBytes"), JNum(Decimal(bytes))), Field(Ascii("maxEventBytes"),
        JNum(Decimal(maxEventBytes)))];
    LongerRest(tiny, TinyAttributes().fields, more);
    assert MinimalPersisted(tiny, maxEventBytes, bytes).rest[0].value.fields == TinyAttributes().fields + more;
    assert MinimalPersisted(tiny, maxEventBytes, bytes)
        == tiny.(rest := [Field(Ascii("attributes"), JObj(TinyAttributes().fields + more))]);
  }

  // A row prepared twice under one budget is the row prepared once.
  lemma {:induction false} EnforcedTwice(p: Persisted, maxEventBytes: nat)
    ensures var r := EnforcePersistedSize(p, maxEventBytes);
            r.Some? ==> EnforcePersistedSize(r.value, maxEventBytes) == r
  {
    hide PersistedBytes, TinyPersisted, MinimalPersisted, IsPersisted;
    FormsOfTiny(p, maxEventBytes, PersistedBytes(TinyPersisted(p)));
  }
}
