// A log of JSON values, one text and a line feed each: written as UTF-8 bytes, split into lines and read again.
module JsonLog {
  import opened Wrappers
  import opened Json
  import opened Lines
  import opened Utf8
  import opened JsonText
  import opened JsonRead

  function Log(js: seq<Json>): seq<Point>
    requires forall i :: 0 <= i < |js| ==> Sound(js[i])
  {
    if js == [] then [] else Log(Front(js)) + Stringify(Last(js)) + [LF]
  }

  // ---- A text is one line ----

  // No control character, so no line end.
  predicate Printed(s: seq<nat>) {
    forall i :: 0 <= i < |s| ==> s[i] >= 32
  }

  lemma {:induction false} UnitsPrinted(s: Str)
    ensures Printed(WriteUnits(s))
    decreases |s|
  {
    if s == [] {
    } else if Pair(s) {
      UnitsPrinted(s[2..]);
    } else {
      UnitsPrinted(s[1..]);
    }
  }

  lemma {:induction false} StringifyPrinted(j: Json)
    requires Sound(j)
    ensures Printed(Stringify(j))
    decreases j
  {
    match j
    case JStr(s) => UnitsPrinted(s);
    case JArr(items) => ItemsPrinted(items);
    case JObj(fields) => FieldsPrinted(fields);
    case _ =>
  }

  lemma {:induction false} ItemsPrinted(items: seq<Json>)
    requires forall i :: 0 <= i < |items| ==> Sound(items[i])
    ensures Printed(WriteItems(items))
    decreases items
  {
    if items != [] {
      StringifyPrinted(items[0]);
      ItemsPrinted(items[1..]);
    }
  }

  lemma {:induction false} FieldsPrinted(fields: seq<Field>)
    requires forall i :: 0 <= i < |fields| ==> Sound(fields[i].value)
    ensures Printed(WriteFields(fields))
    decreases fields
  {
    if fields != [] {
      UnitsPrinted(fields[0].key);
      StringifyPrinted(fields[0].value);
      FieldsPrinted(fields[1..]);
    }
  }

  lemma {:induction false} TextPrinted(points: seq<Point>)
    requires Printed(points)
    ensures Printed(Text(points))
  {
    if points != [] {
      TextPrinted(points[..|points| - 1]);
    }
  }

  // ---- A text has no white space around it ----

  // A visible character of ASCII.
  predicate Visible(c: nat) {
    32 < c < 127
  }

  lemma {:induction false} EndsVisible(j: Json)
    requires Sound(j)
    ensures var w := Stringify(j);
            w != [] && Visible(w[0]) && Visible(w[|w| - 1])
  {
  }

  lemma {:induction false} VisibleIsNoSpace(c: nat)
    requires Visible(c)
    ensures !IsSpaceCode(c)
  {
  }

  lemma {:induction false} TextStarts(points: seq<Point>)
    requires points != [] && Visible(points[0])
    ensures Text(points) != [] && Text(points)[0] == points[0]
  {
    hide Text;
    TextConcat([points[0]], points[1..]);
    assert points == [points[0]] + points[1..];
    TextOne(points[0]);
  }

  lemma {:induction false} TextStops(points: seq<Point>)
    requires points != [] && Visible(points[|points| - 1])
    ensures Text(points) != [] && Text(points)[|Text(points)| - 1] == points[|points| - 1]
  {
  }

  lemma {:induction false} TextIsTrimmed(j: Json)
    requires Sound(j)
    ensures Written(j) != [] && Trim(Written(j)) == Written(j)
  {
    hide Text, Stringify, Visible, IsSpaceCode;
    EndsVisible(j);
    var w := Stringify(j);
    TextStarts(w);
    TextStops(w);
    VisibleIsNoSpace(w[0]);
    VisibleIsNoSpace(w[|w| - 1]);
  }

  // ---- The log's lines ----

  lemma {:induction false} TextIsLine(j: Json)
    requires Sound(j)
    ensures Split(Written(j) + [LF]) == [Written(j), []]
  {
    hide Text, Stringify, Split;
    StringifyPrinted(j);
    TextPrinted(Stringify(j));
    var w := Written(j);
    SplitAtLF(w, []);
    assert w + [LF] + [] == w + [LF];
    SplitNoLF([]);
  }

  lemma {:induction false} LogSplits(js: seq<Json>)
    requires forall i :: 0 <= i < |js| ==> Sound(js[i])
    ensures var lines := Split(Text(Log(js)));
            |lines| == |js| + 1 && Last(lines) == [] && forall i :: 0 <= i < |js| ==> lines[i] == Written(js[i])
  {
    hide Text, Stringify, Split;
    if js == [] {
      NoText();
      SplitNoLF([]);
    } else {
      var front, j := Front(js), Last(js);
      LogSplits(front);
      TextConcat(Log(front) + Stringify(j), [LF]);
      TextConcat(Log(front), Stringify(j));
      TextLow([LF]);
      var before := Text(Log(front));
      assert Text(Log(js)) == before + (Written(j) + [LF]);
      SplitAppend(before, Written(j) + [LF]);
      assert [] + (Written(j) + [LF]) == Written(j) + [LF];
      TextIsLine(j);
    }
  }

  // Whatever values are written to a log: its bytes decode to a text that has one line for each of them, in order, and
  // an empty piece at the end; trimmed or not, each line is read back as the value written, whole.
  lemma {:induction false} LogReadsBack(js: seq<Json>, k: nat)
    requires forall i :: 0 <= i < |js| ==> Sound(js[i])
    ensures var lines := Split(DecodeAll(Encode(Log(js))));
            && |lines| == |js| + 1
            && Last(lines) == []
            && (k < |js| ==> Trim(lines[k]) == lines[k] && ReadValue(lines[k]) == Some(Got(js[k], [])))
  {
    hide Text, Stringify, Split, Encode, Decode, ReadValue, Trim, Log;
    RoundTrip(Log(js));
    assert DecodeAll(Encode(Log(js))) == Text(Log(js)) + [];
    assert Text(Log(js)) + [] == Text(Log(js));
    LogSplits(js);
    if k < |js| {
      TextIsTrimmed(js[k]);
      ValueBack(js[k], []);
      assert Written(js[k]) + [] == Written(js[k]);
    }
  }
}
