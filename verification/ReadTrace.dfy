// Parsing a trace file: one pass over its lines.
module ReadTrace {
  import opened Wrappers
  import opened Json
  import opened Lines

  datatype Version = V01 | V02 | V10

  datatype FileFormat = Empty | Only(version: Version) | Mixed

  // What JSON parsing and validation make of a trimmed line that is not empty: E are trace events, P persisted events.
  datatype Kind<E, P> =
    | NotJson
    | NoVersion
    | Legacy(event: E)
    | Persisted(ten: bool, persisted: P)
    | Malformed(version: Version)

  datatype Line<E, P> = Blank | Text(kind: Kind<E, P>)

  datatype Row<E, P> = LegacyRow(event: E, sourceLine: nat) | PersistedRow(ten: bool, persisted: P, sourceLine: nat)

  datatype Parsed<E, P> = Parsed(format: FileFormat, sourceEventCount: nat, events: seq<E>, persisted: seq<P>,
                                 rows: seq<Row<E, P>>)

  datatype Warning = BadJson | BadVersion | BadEvent(version: Version) | MixedFile

  // How lines are read, and how a persisted event is turned into trace events.
  datatype Reader<!E, !P> = Reader(classify: Str -> Kind<E, P>, normalise: P -> seq<E>)

  // ---- What the lines contribute ----

  datatype NumberedLine<E, P> = NumberedLine(line: Line<E, P>, number: nat)

  function ReadLine<E, P>(r: Reader<E, P>, line: Str): Line<E, P> {
    if Trim(line) == [] then Blank else Text(r.classify(Trim(line)))
  }

  function ReadLines<E, P>(r: Reader<E, P>, lines: seq<Str>, first: nat): seq<NumberedLine<E, P>> {
    if lines == [] then []
    else ReadLines(r, Front(lines), first) + [NumberedLine(ReadLine(r, Last(lines)), first + |lines| - 1)]
  }

  function RowOf<E, P>(l: NumberedLine<E, P>): seq<Row<E, P>> {
    match l.line
    case Text(Legacy(e)) => [LegacyRow(e, l.number)]
    case Text(Persisted(ten, p)) => [PersistedRow(ten, p, l.number)]
    case _ => []
  }

  function PersistedVersion(ten: bool): Version {
    if ten then V10 else V02
  }

  function VersionOf<E, P>(l: NumberedLine<E, P>): seq<Version> {
    match l.line
    case Text(Legacy(_)) => [V01]
    case Text(Persisted(ten, _)) => [PersistedVersion(ten)]
    case Text(Malformed(v)) => [v]
    case _ => []
  }

  function WarningOf<E, P>(l: NumberedLine<E, P>): seq<Warning> {
    match l.line
    case Text(NotJson) => [BadJson]
    case Text(NoVersion) => [BadVersion]
    case Text(Malformed(v)) => [BadEvent(v)]
    case _ => []
  }

  // The persisted events and the trace events are determined by the rows.
  function PersistedOf<E, P>(row: Row<E, P>): seq<P> {
    if row.PersistedRow? then [row.persisted] else []
  }

  function EventsOf<E, P>(r: Reader<E, P>): Row<E, P> -> seq<E> {
    (row: Row<E, P>) => if row.PersistedRow? then r.normalise(row.persisted) else [row.event]
  }

  function FormatOf(versions: set<Version>): FileFormat {
    if |versions| > 1 then Mixed
    else if V01 in versions then Only(V01)
    else if V02 in versions then Only(V02)
    else if V10 in versions then Only(V10)
    else Empty
  }

  function AsSet<T>(s: seq<T>): set<T> {
    set x | x in s
  }

  function ParseLines<E, P>(r: Reader<E, P>, lines: seq<NumberedLine<E, P>>): Parsed<E, P> {
    var rows := FlatMap(RowOf, lines);
    Parsed(FormatOf(AsSet(FlatMap(VersionOf, lines))), |rows|, FlatMap(EventsOf(r), rows), FlatMap(PersistedOf, rows),
           rows)
  }

  function Parse<E, P>(r: Reader<E, P>, raw: Str): Parsed<E, P> {
    ParseLines(r, ReadLines(r, Split(raw), 1))
  }

  function Warnings<E, P>(r: Reader<E, P>, raw: Str): seq<Warning> {
    FlatMap(WarningOf, ReadLines(r, Split(raw), 1))
  }

  lemma {:induction false} LineSnoc<E, P>(lines: seq<NumberedLine<E, P>>, l: NumberedLine<E, P>)
    ensures FlatMap(RowOf, lines + [l]) == FlatMap(RowOf, lines) + RowOf(l)
    ensures FlatMap(VersionOf, lines + [l]) == FlatMap(VersionOf, lines) + VersionOf(l)
    ensures FlatMap(WarningOf, lines + [l]) == FlatMap(WarningOf, lines) + WarningOf(l)
  {
    FlatMapSnoc(RowOf, lines, l);
    FlatMapSnoc(VersionOf, lines, l);
    FlatMapSnoc(WarningOf, lines, l);
  }

  lemma {:induction false} RowSnoc<E, P>(r: Reader<E, P>, rows: seq<Row<E, P>>, row: Row<E, P>)
    ensures FlatMap(EventsOf(r), rows + [row]) == FlatMap(EventsOf(r), rows) + EventsOf(r)(row)
    ensures FlatMap(PersistedOf, rows + [row]) == FlatMap(PersistedOf, rows) + PersistedOf(row)
  {
    FlatMapSnoc(EventsOf(r), rows, row);
    FlatMapSnoc(PersistedOf, rows, row);
  }

  // What the loop has gathered from the lines read so far; the three flags say which versions were seen.
  ghost predicate HasRead<E, P>(r: Reader<E, P>, read: seq<NumberedLine<E, P>>, rows: seq<Row<E, P>>, events: seq<E>,
        persisted: seq<P>, warnings: seq<Warning>, saw01: bool, saw02: bool, saw10: bool)
  {
    var versions := FlatMap(VersionOf, read);
    && rows == FlatMap(RowOf, read) && warnings == FlatMap(WarningOf, read)
    && events == FlatMap(EventsOf(r), rows) && persisted == FlatMap(PersistedOf, rows)
    && saw01 == (V01 in versions) && saw02 == (V02 in versions) && saw10 == (V10 in versions)
  }

  lemma {:induction false} TakesNothing<E, P>(r: Reader<E, P>, read: seq<NumberedLine<E, P>>, l: NumberedLine<E, P>,
        rows: seq<Row<E, P>>, events: seq<E>, persisted: seq<P>, warnings: seq<Warning>, saw01: bool, saw02: bool,
        saw10: bool)
    requires HasRead(r, read, rows, events, persisted, warnings, saw01, saw02, saw10)
    requires RowOf(l) == [] && VersionOf(l) == []
    ensures HasRead(r, read + [l], rows, events, persisted, warnings + WarningOf(l), saw01, saw02, saw10)
  {
    LineSnoc(read, l);
  }

  lemma {:induction false} TakesMalformed<E, P>(r: Reader<E, P>, read: seq<NumberedLine<E, P>>, l: NumberedLine<E, P>,
        rows: seq<Row<E, P>>, events: seq<E>, persisted: seq<P>, warnings: seq<Warning>, saw01: bool, saw02: bool,
        saw10: bool)
    requires HasRead(r, read, rows, events, persisted, warnings, saw01, saw02, saw10)
    requires l.line.Text? && l.line.kind.Malformed?
    ensures var v := l.line.kind.version;
            HasRead(r, read + [l], rows, events, persisted, warnings + [BadEvent(v)],
                    saw01 || v == V01, saw02 || v == V02, saw10 || v == V10)
  {
    LineSnoc(read, l);
  }

  lemma {:induction false} TakesRow<E, P>(r: Reader<E, P>, read: seq<NumberedLine<E, P>>, l: NumberedLine<E, P>,
        rows: seq<Row<E, P>>, events: seq<E>, persisted: seq<P>, warnings: seq<Warning>, saw01: bool, saw02: bool,
        saw10: bool)
    requires HasRead(r, read, rows, events, persisted, warnings, saw01, saw02, saw10)
    requires l.line.Text? && (l.line.kind.Legacy? || l.line.kind.Persisted?)
    ensures RowOf(l) != []
    ensures var row := RowOf(l)[0];
            HasRead(r, read + [l], rows + [row], events + EventsOf(r)(row), persisted + PersistedOf(row), warnings,
                    saw01 || V01 in VersionOf(l), saw02 || V02 in VersionOf(l), saw10 || V10 in VersionOf(l))
  {
    LineSnoc(read, l);
    RowSnoc(r, rows, RowOf(l)[0]);
  }

  lemma {:induction false} ReadNext<E, P>(r: Reader<E, P>, lines: seq<Str>, i: nat)
    requires i < |lines|
    ensures ReadLines(r, lines[..i + 1], 1)
            == ReadLines(r, lines[..i], 1) + [NumberedLine(ReadLine(r, lines[i]), i + 1)]
  {
    assert Front(lines[..i + 1]) == lines[..i];
  }

  method ParseTraceJsonl<E, P>(r: Reader<E, P>, raw: Str) returns (result: Parsed<E, P>, warnings: seq<Warning>)
    ensures result == Parse(r, raw)
    ensures warnings == Warnings(r, raw) + (if result.format.Mixed? then [MixedFile] else [])
  {
    var persisted: seq<P>, events: seq<E>, rows: seq<Row<E, P>> := [], [], [];
    var sourceEventCount, lineNumber := 0, 0;
    var saw01, saw02, saw10 := false, false, false;
    warnings := [];
    var lines := Split(raw);
    ghost var read: seq<NumberedLine<E, P>> := [];
    for i := 0 to |lines|
      invariant lineNumber == i && sourceEventCount == |rows|
      invariant read == ReadLines(r, lines[..i], 1)
      invariant HasRead(r, read, rows, events, persisted, warnings, saw01, saw02, saw10)
    {
      hide HasRead, ReadLines;
      lineNumber := lineNumber + 1;
      ghost var l := NumberedLine(ReadLine(r, lines[i]), lineNumber);
      ReadNext(r, lines, i);
      ghost var before := read;
      read := read + [l];
      var trimmed := Trim(lines[i]);
      if trimmed == [] {
        TakesNothing(r, before, l, rows, events, persisted, warnings, saw01, saw02, saw10);
        assert warnings + [] == warnings;
        continue;
      }
      match r.classify(trimmed) {
        case NotJson =>
          TakesNothing(r, before, l, rows, events, persisted, warnings, saw01, saw02, saw10);
          warnings := warnings + [BadJson];
        case NoVersion =>
          TakesNothing(r, before, l, rows, events, persisted, warnings, saw01, saw02, saw10);
          warnings := warnings + [BadVersion];
        case Legacy(e) =>
          TakesRow(r, before, l, rows, events, persisted, warnings, saw01, saw02, saw10);
          assert persisted + [] == persisted;
          saw01 := true;
          sourceEventCount := sourceEventCount + 1;
          events := events + [e];
          rows := rows + [LegacyRow(e, lineNumber)];
        case Persisted(ten, p) =>
          TakesRow(r, before, l, rows, events, persisted, warnings, saw01, saw02, saw10);
          if ten {
            saw10 := true;
          } else {
            saw02 := true;
          }
          sourceEventCount := sourceEventCount + 1;
          persisted := persisted + [p];
          rows := rows + [PersistedRow(ten, p, lineNumber)];
          events := events + r.normalise(p);
        case Malformed(v) =>
          TakesMalformed(r, before, l, rows, events, persisted, warnings, saw01, saw02, saw10);
          if v == V01 {
            saw01 := true;
          } else if v == V02 {
            saw02 := true;
          } else {
            saw10 := true;
          }
          warnings := warnings + [BadEvent(v)];
      }
    }
    assert lines[..|lines|] == lines;
    var seenFormats := (if saw01 then 1 else 0) + (if saw02 then 1 else 0) + (if saw10 then 1 else 0);
    CountVersions(AsSet(FlatMap(VersionOf, read)));
    if seenFormats > 1 {
      warnings := warnings + [MixedFile];
    }
    var format := Empty;
    if seenFormats > 1 {
      format := Mixed;
    } else if saw01 {
      format := Only(V01);
    } else if saw02 {
      format := Only(V02);
    } else if saw10 {
      format := Only(V10);
    }
    result := Parsed(format, sourceEventCount, events, persisted, rows);
  }

  lemma {:induction false} Without(s: set<Version>, v: Version)
    ensures |s| == (if v in s then 1 else 0) + |s - {v}|
  {
    if v in s {
      assert s == s - {v} + {v};
    } else {
      assert s == s - {v};
    }
  }

  lemma {:induction false} CountVersions(s: set<Version>)
    ensures |s| == (if V01 in s then 1 else 0) + (if V02 in s then 1 else 0) + (if V10 in s then 1 else 0)
  {
    var s1 := s - {V01};
    var s2 := s1 - {V02};
    Without(s, V01);
    Without(s1, V02);
    Without(s2, V10);
    forall v | v in s2
      ensures v in {V10}
    {
      assert v.V01? || v.V02? || v.V10?;
    }
    assert s2 - {V10} == {};
  }

  // ---- Parsing texts put one after the other ----

  // A row moved down the file.
  function Moved<E, P>(offset: nat): Row<E, P> -> seq<Row<E, P>> {
    (row: Row<E, P>) => [row.(sourceLine := row.sourceLine + offset)]
  }

  // The least upper bound of two formats where Empty lies below every version and Mixed above.
  function Join(a: FileFormat, b: FileFormat): FileFormat {
    if a.Empty? then b else if b.Empty? || a == b then a else Mixed
  }

  lemma {:induction false} JoinIsLeastUpperBound(a: FileFormat, b: FileFormat, c: FileFormat)
    ensures Join(a, a) == a && Join(a, b) == Join(b, a) && Join(Join(a, b), c) == Join(a, Join(b, c))
    ensures Join(a, Join(a, b)) == Join(a, b)
    ensures Join(a, c) == c && Join(b, c) == c ==> Join(Join(a, b), c) == c
  {
  }

  lemma {:induction false} FormatOfUnion(a: set<Version>, b: set<Version>)
    ensures FormatOf(a + b) == Join(FormatOf(a), FormatOf(b))
  {
    CountVersions(a);
    CountVersions(b);
    CountVersions(a + b);
  }

  lemma {:induction false} ReadConcat<E, P>(r: Reader<E, P>, a: seq<Str>, b: seq<Str>, first: nat)
    ensures ReadLines(r, a + b, first) == ReadLines(r, a, first) + ReadLines(r, b, first + |a|)
    decreases |b|
  {
    if b == [] {
      assert a + b == a;
    } else {
      ReadConcat(r, a, Front(b), first);
      assert Front(a + b) == a + Front(b);
    }
  }

  // A carriage return left at the end of a line is white space.
  lemma {:induction false} StrippedLine<E, P>(r: Reader<E, P>, lines: seq<Str>)
    requires |lines| > 0
    ensures ReadLines(r, Front(lines) + [StripCR(Last(lines))], 1) == ReadLines(r, lines, 1)
  {
    TrimStripCR(Last(lines));
    assert Front(Front(lines) + [StripCR(Last(lines))]) == Front(lines);
  }

  lemma {:induction false} ReadJoined<E, P>(r: Reader<E, P>, a: Str, b: Str)
    ensures ReadLines(r, Split(a + [LF] + b), 1) == ReadLines(r, Split(a), 1) + ReadLines(r, Split(b), 1 + |Split(a)|)
  {
    var stripped := Front(Split(a)) + [StripCR(Last(Split(a)))];
    SplitJoined(a, b);
    StrippedLine(r, Split(a));
    ReadConcat(r, stripped, Split(b), 1);
  }

  lemma {:induction false} MovedLine<E, P>(line: Line<E, P>, number: nat, offset: nat)
    ensures RowOf(NumberedLine(line, number + offset)) == FlatMap(Moved(offset), RowOf(NumberedLine(line, number)))
    ensures VersionOf(NumberedLine(line, number + offset)) == VersionOf(NumberedLine(line, number))
    ensures WarningOf(NumberedLine(line, number + offset)) == WarningOf(NumberedLine(line, number))
  {
    var rows := RowOf(NumberedLine(line, number));
    if rows != [] {
      FlatMapOne(Moved<E, P>(offset), rows[0]);
      assert rows == [rows[0]];
    }
  }

  lemma {:induction false} MovedSnoc<E, P>(lines: seq<NumberedLine<E, P>>, moved: seq<NumberedLine<E, P>>,
        line: Line<E, P>, n: nat, offset: nat)
    requires FlatMap(RowOf, moved) == FlatMap(Moved(offset), FlatMap(RowOf, lines))
    ensures FlatMap(RowOf, moved + [NumberedLine(line, n + offset)])
         == FlatMap(Moved(offset), FlatMap(RowOf, lines + [NumberedLine(line, n)]))
  {
    MovedLine(line, n, offset);
    FlatMapSnoc(RowOf, lines, NumberedLine(line, n));
    FlatMapSnoc(RowOf, moved, NumberedLine(line, n + offset));
    FlatMapConcat(Moved<E, P>(offset), FlatMap(RowOf, lines), RowOf(NumberedLine(line, n)));
  }

  lemma {:induction false} NoRows<E, P>(offset: nat)
    ensures FlatMap(RowOf<E, P>, []) == [] && FlatMap(Moved<E, P>(offset), []) == []
  {
  }

  // Numbering lines from further down moves their rows and changes nothing else.
  lemma {:induction false} MovedLines<E, P>(r: Reader<E, P>, lines: seq<Str>, first: nat, offset: nat)
    ensures FlatMap(RowOf, ReadLines(r, lines, first + offset))
            == FlatMap(Moved(offset), FlatMap(RowOf, ReadLines(r, lines, first)))
    decreases |lines|
  {
    hide FlatMap, RowOf, Trim;
    if lines == [] {
      NoRows<E, P>(offset);
    } else {
      var front, line, n := Front(lines), ReadLine(r, Last(lines)), first + |lines| - 1;
      MovedLines(r, front, first, offset);
      MovedSnoc(ReadLines(r, front, first), ReadLines(r, front, first + offset), line, n, offset);
      assert first + offset + |lines| - 1 == n + offset;
    }
  }

  lemma {:induction false} MovedFindings<E, P>(r: Reader<E, P>, lines: seq<Str>, first: nat, offset: nat)
    ensures FlatMap(VersionOf, ReadLines(r, lines, first + offset)) == FlatMap(VersionOf, ReadLines(r, lines, first))
    ensures FlatMap(WarningOf, ReadLines(r, lines, first + offset)) == FlatMap(WarningOf, ReadLines(r, lines, first))
    decreases |lines|
  {
    if lines != [] {
      var front, line, n := Front(lines), ReadLine(r, Last(lines)), first + |lines| - 1;
      MovedFindings(r, front, first, offset);
      MovedLine(line, n, offset);
      LineSnoc(ReadLines(r, front, first), NumberedLine(line, n));
      LineSnoc(ReadLines(r, front, first + offset), NumberedLine(line, n + offset));
    }
  }

  lemma {:induction false} MovedRows<E, P>(r: Reader<E, P>, rows: seq<Row<E, P>>, offset: nat)
    ensures |FlatMap(Moved(offset), rows)| == |rows|
    ensures FlatMap(EventsOf(r), FlatMap(Moved(offset), rows)) == FlatMap(EventsOf(r), rows)
    ensures FlatMap(PersistedOf, FlatMap(Moved(offset), rows)) == FlatMap(PersistedOf, rows)
    decreases |rows|
  {
    if rows != [] {
      var front, row := Front(rows), Last(rows);
      MovedRows(r, front, offset);
      var moved := row.(sourceLine := row.sourceLine + offset);
      assert rows == front + [row];
      FlatMapSnoc(Moved<E, P>(offset), front, row);
      RowSnoc(r, front, row);
      RowSnoc(r, FlatMap(Moved(offset), front), moved);
    }
  }

  lemma {:induction false} ParseLinesConcat<E, P>(r: Reader<E, P>, a: seq<NumberedLine<E, P>>,
        b: seq<NumberedLine<E, P>>)
    ensures var x, y, whole := ParseLines(r, a), ParseLines(r, b), ParseLines(r, a + b);
            && whole.rows == x.rows + y.rows && whole.events == x.events + y.events
            && whole.persisted == x.persisted + y.persisted
            && whole.sourceEventCount == x.sourceEventCount + y.sourceEventCount
            && whole.format == Join(x.format, y.format)
  {
    FlatMapConcat(RowOf, a, b);
    FlatMapConcat(VersionOf, a, b);
    var x, y := FlatMap(RowOf, a), FlatMap(RowOf, b);
    FlatMapConcat(EventsOf(r), x, y);
    FlatMapConcat(PersistedOf, x, y);
    var s, t := FlatMap(VersionOf, a), FlatMap(VersionOf, b);
    assert AsSet(s + t) == AsSet(s) + AsSet(t);
    FormatOfUnion(AsSet(s), AsSet(t));
  }

  // Parsing one text after another: rows, events, persisted events and warnings are appended,
  // counts added, formats joined.
  lemma {:induction false} ParseJoined<E, P>(r: Reader<E, P>, a: Str, b: Str)
    ensures var x, y, whole := Parse(r, a), Parse(r, b), Parse(r, a + [LF] + b);
            && whole.rows == x.rows + FlatMap(Moved(|Split(a)|), y.rows)
            && whole.events == x.events + y.events
            && whole.persisted == x.persisted + y.persisted
            && whole.sourceEventCount == x.sourceEventCount + y.sourceEventCount
            && whole.format == Join(x.format, y.format)
    ensures Warnings(r, a + [LF] + b) == Warnings(r, a) + Warnings(r, b)
  {
    hide FlatMap, ReadLines, Split, Join, FormatOf;
    var n := |Split(a)|;
    var first, second, moved := ReadLines(r, Split(a), 1), ReadLines(r, Split(b), 1), ReadLines(r, Split(b), 1 + n);
    ReadJoined(r, a, b);
    ParseLinesConcat(r, first, moved);
    FlatMapConcat(WarningOf, first, moved);
    MovedLines(r, Split(b), 1, n);
    MovedFindings(r, Split(b), 1, n);
    MovedRows(r, FlatMap(RowOf, second), n);
  }

  lemma {:induction false} ReadLinesAt<E, P>(r: Reader<E, P>, lines: seq<Str>, first: nat)
    ensures |ReadLines(r, lines, first)| == |lines|
    ensures forall i :: 0 <= i < |lines| ==>
              ReadLines(r, lines, first)[i] == NumberedLine(ReadLine(r, lines[i]), first + i)
    decreases |lines|
  {
    if lines != [] {
      ReadLinesAt(r, Front(lines), first);
    }
  }

  lemma {:induction false} RowNumber<E, P>(l: NumberedLine<E, P>, row: Row<E, P>)
    ensures row in RowOf(l) <==> RowOf(l) == [row]
    ensures row in RowOf(l) ==> row.sourceLine == l.number
  {
  }

  // The rows are exactly the lines that read as events, each with the number of its line.
  lemma {:induction false} RowsAreLines<E, P>(r: Reader<E, P>, raw: Str, row: Row<E, P>)
    ensures row in Parse(r, raw).rows <==>
            1 <= row.sourceLine <= |Split(raw)| && ReadsAs(r, Split(raw)[row.sourceLine - 1], row)
  {
    RowsOfLines(r, Split(raw), row);
  }

  ghost predicate ReadsAs<E, P>(r: Reader<E, P>, line: Str, row: Row<E, P>) {
    RowOf(NumberedLine(ReadLine(r, line), row.sourceLine)) == [row]
  }

  lemma {:induction false} RowsOfLines<E, P>(r: Reader<E, P>, raw: seq<Str>, row: Row<E, P>)
    ensures row in FlatMap(RowOf, ReadLines(r, raw, 1)) <==>
            1 <= row.sourceLine <= |raw| && ReadsAs(r, raw[row.sourceLine - 1], row)
  {
    hide Trim, FlatMap, ReadLines;
    var lines := ReadLines(r, raw, 1);
    ReadLinesAt(r, raw, 1);
    FlatMapMember(RowOf, lines, row);
    if row in FlatMap(RowOf, lines) {
      var i :| 0 <= i < |lines| && row in RowOf(lines[i]);
      RowNumber(lines[i], row);
    } else if 1 <= row.sourceLine <= |raw| {
      RowNumber(lines[row.sourceLine - 1], row);
    }
  }

  // ---- One line ----

  // What a file of one line comes to: nothing, a warning, or one row with its version and its events.
  ghost predicate OneLineGives<E, P>(r: Reader<E, P>, line: Str, x: Parsed<E, P>, warnings: seq<Warning>) {
    if Trim(line) == [] then x == Parsed(Empty, 0, [], [], []) && warnings == []
    else
      match r.classify(Trim(line))
      case NotJson => x == Parsed(Empty, 0, [], [], []) && warnings == [BadJson]
      case NoVersion => x == Parsed(Empty, 0, [], [], []) && warnings == [BadVersion]
      case Malformed(v) => x == Parsed(Only(v), 0, [], [], []) && warnings == [BadEvent(v)]
      case Legacy(e) => x == Parsed(Only(V01), 1, [e], [], [LegacyRow(e, 1)]) && warnings == []
      case Persisted(ten, p) =>
        && x == Parsed(Only(if ten then V10 else V02), 1, r.normalise(p), [p], [PersistedRow(ten, p, 1)])
        && warnings == []
  }

  lemma {:induction false} OneVersion(v: Version)
    ensures FormatOf(AsSet([v])) == Only(v) && FormatOf(AsSet([])) == Empty
  {
    CountVersions(AsSet([v]));
    CountVersions(AsSet([]));
  }

  // Together with how texts are joined this determines what every file comes to.
  lemma {:induction false} OneLine<E, P>(r: Reader<E, P>, line: Str)
    requires NoLF(line)
    ensures OneLineGives(r, line, Parse(r, line), Warnings(r, line))
  {
    SplitNoLF(line);
    var l := NumberedLine(ReadLine(r, line), 1);
    assert Front([line]) == [];
    assert ReadLines(r, [line], 1) == [l];
    FlatMapOne(RowOf<E, P>, l);
    FlatMapOne(VersionOf<E, P>, l);
    FlatMapOne(WarningOf<E, P>, l);
    NothingRead(r);
    if RowOf(l) != [] {
      var row := RowOf(l)[0];
      assert RowOf(l) == [row];
      FlatMapOne(EventsOf(r), row);
      FlatMapOne(PersistedOf<E, P>, row);
    }
    if VersionOf(l) != [] {
      OneVersion(VersionOf(l)[0]);
      assert VersionOf(l) == [VersionOf(l)[0]];
    } else {
      OneVersion(V01);
    }
  }

  lemma {:induction false} NothingRead<E, P>(r: Reader<E, P>)
    ensures FlatMap(EventsOf(r), []) == [] && FlatMap(PersistedOf<E, P>, []) == []
  {
  }
}
