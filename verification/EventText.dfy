// The JSON of an event tells the event: nothing that is kept of it is lost or exchanged on the way to the disk.
module EventText {
  import opened Wrappers
  import opened Json
  import opened EventSize

  // ---- Enumerations ----

  lemma {:induction false} AsciiTells(s: string, t: string)
    requires PlainText(s) && PlainText(t) && Ascii(s) == Ascii(t)
    ensures s == t
  {
    forall i | 0 <= i < |s|
      ensures s[i] == t[i]
    {
      assert Ascii(s)[i] == s[i] as int && Ascii(t)[i] == t[i] as int;
    }
  }

  function KindName(k: InspectKind): (name: string)
    ensures PlainText(name) && KindText(k) == Ascii(name)
  {
    match k
    case RUN => "RUN"
    case AGENT => "AGENT"
    case LLM => "LLM"
    case TOOL => "TOOL"
    case CHAIN => "CHAIN"
    case RETRIEVER => "RETRIEVER"
    case DECISION => "DECISION"
    case RESULT => "RESULT"
    case ERROR => "ERROR"
    case LOGIC => "LOGIC"
    case LOG => "LOG"
    case OUTCOME => "OUTCOME"
  }

  lemma {:induction false} KindTold(a: InspectKind, b: InspectKind)
    requires KindText(a) == KindText(b)
    ensures a == b
  {
    hide Ascii, KindText;
    AsciiTells(KindName(a), KindName(b));
    var s, t := KindName(a), KindName(b);
    assert s[0] == t[0] && s[1] == t[1] && |s| == |t|;
  }

  function ConfidenceName(c: Confidence): (name: string)
    ensures PlainText(name) && ConfidenceText(c) == Ascii(name)
  {
    match c
    case Explicit => "explicit"
    case Correlated => "correlated"
    case Heuristic => "heuristic"
    case UnknownConfidence => "unknown"
  }

  lemma {:induction false} ConfidenceTold(a: Confidence, b: Confidence)
    requires ConfidenceText(a) == ConfidenceText(b)
    ensures a == b
  {
    hide Ascii, ConfidenceText;
    AsciiTells(ConfidenceName(a), ConfidenceName(b));
    assert ConfidenceName(a)[0] == ConfidenceName(b)[0];
  }

  function SourceName(s: SourceType): (name: string)
    ensures PlainText(name) && SourceText(s) == Ascii(name)
  {
    match s
    case Manual => "manual"
    case JsonLog => "json-log"
    case Log4js => "log4js"
    case Adapter => "adapter"
    case AiSdkSource => "ai-sdk"
    case Otel => "otel"
  }

  lemma {:induction false} SourceTypeTold(a: SourceType, b: SourceType)
    requires SourceText(a) == SourceText(b)
    ensures a == b
  {
    hide Ascii, SourceText;
    AsciiTells(SourceName(a), SourceName(b));
    assert SourceName(a)[1] == SourceName(b)[1];
    assert SourceName(a)[0] == SourceName(b)[0];
  }

  function StatusName(s: PersistedStatus): (name: string)
    ensures PlainText(name) && StatusText(s) == Ascii(name)
  {
    match s
    case StatusRunning => "running"
    case StatusOk => "ok"
    case StatusError => "error"
    case StatusUnknown => "unknown"
  }

  lemma {:induction false} StatusTold(a: PersistedStatus, b: PersistedStatus)
    requires StatusText(a) == StatusText(b)
    ensures a == b
  {
    hide Ascii, StatusText;
    AsciiTells(StatusName(a), StatusName(b));
    assert StatusName(a)[0] == StatusName(b)[0];
  }

  lemma {:induction false} VersionTold(a: SchemaVersion, b: SchemaVersion)
    requires VersionText(a) == VersionText(b)
    ensures a == b
  {
    assert Ascii("0.2")[0] == 48 && Ascii("1.0")[0] == 49;
  }

  // ---- Persisted events ----

  lemma {:induction false} NameIsNotVersion()
    ensures Ascii("name") != Ascii("version")
  {
    assert |Ascii("name")| != |Ascii("version")|;
  }

  lemma {:induction false} SourceTold(a: Source, b: Source)
    requires SourceJson(a) == SourceJson(b)
    ensures a == b
  {
    hide Ascii, SourceText;
    NameIsNotVersion();
    var s, t := SourceJson(a).fields, SourceJson(b).fields;
    assert s[0].value == t[0].value;
    SourceTypeTold(a.sourceType, b.sourceType);
    assert |s| > 1 ==> s[1] == t[1];
    assert |s| > 2 ==> s[2] == t[2];
  }

  // Only the property of this name is written under it.
  ghost predicate Unused(key: string, fields: seq<Field>) {
    forall i :: 0 <= i < |fields| ==> fields[i].key != Ascii(key)
  }

  lemma {:induction false} FixedTold(p: Persisted, q: Persisted)
    requires FixedFields(p) == FixedFields(q)
    ensures p == q.(rest := p.rest)
  {
    hide Ascii, SourceJson, VersionText, KindText, ConfidenceText, StatusText;
    var s, t := FixedFields(p), FixedFields(q);
    assert s[0].value == t[0].value && s[1].value == t[1].value && s[2].value == t[2].value && s[3].value == t[3].value;
    assert s[4].value == t[4].value && s[5].value == t[5].value && s[6].value == t[6].value && s[7].value == t[7].value;
    VersionTold(p.schemaVersion, q.schemaVersion);
    KindTold(p.kind, q.kind);
    ConfidenceTold(p.confidence, q.confidence);
    SourceTold(p.source, q.source);
    if p.status.Some? {
      assert s[8].value == t[8].value;
      StatusTold(p.status.value, q.status.value);
    }
  }

  lemma {:induction false} StatusPlace(p: Persisted)
    requires Unused("status", p.rest)
    ensures var all := PersistedJson(p).fields;
            p.status.Some? <==> |all| > 8 && all[8].key == Ascii("status")
  {
    hide Ascii, SourceJson, VersionText, KindText, ConfidenceText, StatusText;
    var all := FixedFields(p) + p.rest;
    assert p.status.None? && |all| > 8 ==> all[8] == p.rest[0];
  }

  // Two events with the same JSON are the same event, if no further property is called "status".
  lemma {:induction false} PersistedTold(p: Persisted, q: Persisted)
    requires Unused("status", p.rest) && Unused("status", q.rest)
    requires PersistedJson(p) == PersistedJson(q)
    ensures p == q
  {
    hide Ascii, SourceJson, VersionText, KindText, ConfidenceText, StatusText;
    var s, t := FixedFields(p), FixedFields(q);
    var all := s + p.rest;
    assert all == t + q.rest;
    StatusPlace(p);
    StatusPlace(q);
    assert |s| == |t|;
    assert s == all[..|s|] && t == all[..|t|];
    assert p.rest == all[|s|..] && q.rest == all[|t|..];
    FixedTold(p, q);
  }

  // ---- Trace rows ----

  // A row as it is written: metadata on start rows, an error on completion rows, under names of their own.
  ghost predicate Written(e: Event) {
    && (e.metadata.Some? ==> e.kind.StartRow?) && (e.error.Some? ==> e.kind.CompletionRow?)
    && Unused("metadata", e.fields) && Unused("error", e.fields)
  }

  lemma {:induction false} ErrorTold(a: ErrorInfo, b: ErrorInfo)
    requires ErrorJson(a) == ErrorJson(b)
    ensures a == b
  {
    hide Ascii;
    var s, t := ErrorJson(a).fields, ErrorJson(b).fields;
    assert s[0] == t[0];
    assert |s| > 1 ==> s[1] == t[1];
  }

  // The further property of a row comes right behind its fixed fields.
  lemma {:induction false} FurtherPlace(e: Event)
    requires Written(e)
    ensures var all := EventJson(e).fields;
            && |e.fields| <= |all| && e.fields == all[..|e.fields|]
            && (forall i :: 0 <= i < |e.fields| ==> all[i].key !in {Ascii("metadata"), Ascii("error")})
            && (|all| > |e.fields| ==> all[|e.fields|].key in {Ascii("metadata"), Ascii("error")})
  {
    hide Ascii, ErrorJson;
    var all := EventJson(e).fields;
    assert forall i :: 0 <= i < |e.fields| ==> all[i] == e.fields[i];
  }

  // Two rows of a kind with the same JSON are the same row.
  lemma {:induction false} EventTold(e: Event, f: Event)
    requires Written(e) && Written(f) && e.kind == f.kind
    requires EventJson(e) == EventJson(f)
    ensures e == f
  {
    hide Ascii, ErrorJson;
    var all, other := EventJson(e).fields, EventJson(f).fields;
    var n, m := |e.fields|, |f.fields|;
    FurtherPlace(e);
    FurtherPlace(f);
    assert n == m;
    assert |all| > n ==> all[n] == other[n];
    if e.error.Some? {
      ErrorTold(e.error.value, f.error.value);
    }
  }
}
