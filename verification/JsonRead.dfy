// Reading the texts of JSON values (sections 2 to 7 of RFC 8259, without white space between tokens).
module JsonRead {
  import opened Wrappers
  import opened Json
  import opened Lines
  import opened Utf8
  import opened JsonText

  // ---- Reading ----

  datatype Got<T> = Got(value: T, rest: Str)

  function HexValue(c: CodeUnit): Option<nat> {
    if 48 <= c <= 57 then Some(c - 48)
    else if 97 <= c <= 102 then Some(c - 87)
    else if 65 <= c <= 70 then Some(c - 55)
    else None
  }

  // The code unit of four hexadecimal digits.
  function ReadHex(s: Str): (r: Option<CodeUnit>)
    requires |s| >= 4
  {
    var a, b, c, d := HexValue(s[0]), HexValue(s[1]), HexValue(s[2]), HexValue(s[3]);
    if a.Some? && b.Some? && c.Some? && d.Some? && HexBound(a.value, b.value, c.value, d.value) then
      Some(a.value * 0x1000 + b.value * 0x100 + c.value * 16 + d.value)
    else None
  }

  predicate HexBound(a: nat, b: nat, c: nat, d: nat) {
    a < 16 && b < 16 && c < 16 && d < 16
  }

  function Unescape(c: CodeUnit): Option<CodeUnit> {
    if c in {34, 47, 92} then Some(c)
    else if c == 98 then Some(8)
    else if c == 102 then Some(12)
    else if c == 110 then Some(10)
    else if c == 114 then Some(13)
    else if c == 116 then Some(9)
    else None
  }

  function Behind(c: CodeUnit, got: Option<Got<Str>>): Option<Got<Str>> {
    if got.Some? then Some(Got([c] + got.value.value, got.value.rest)) else None
  }

  // The string that starts behind its opening quote.
  function ReadStr(s: Str): (r: Option<Got<Str>>)
    ensures r.Some? ==> |r.value.rest| < |s|
    decreases |s|
  {
    if s == [] then None
    else if s[0] == QUOTE then Some(Got([], s[1..]))
    else if s[0] == BACKSLASH then
      if |s| >= 6 && s[1] == 117 then
        if ReadHex(s[2..6]).Some? then Behind(ReadHex(s[2..6]).value, ReadStr(s[6..])) else None
      else if |s| >= 2 && Unescape(s[1]).Some? then Behind(Unescape(s[1]).value, ReadStr(s[2..]))
      else None
    else if s[0] < 32 then None
    else Behind(s[0], ReadStr(s[1..]))
  }

  function NumberLength(s: Str): (n: nat)
    ensures n <= |s|
    decreases |s|
  {
    if s == [] || !InNumber(s[0]) then 0 else 1 + NumberLength(s[1..])
  }

  function ReadWord(s: Str): Option<Got<Json>> {
    if |s| >= 4 && s[..4] == NULL then Some(Got(JNull, s[4..]))
    else if |s| >= 4 && s[..4] == TRUE then Some(Got(JBool(true), s[4..]))
    else if |s| >= 5 && s[..5] == FALSE then Some(Got(JBool(false), s[5..]))
    else None
  }

  function ReadValue(s: Str): (r: Option<Got<Json>>)
    ensures r.Some? ==> |r.value.rest| < |s|
    decreases |s|, 1
  {
    if s == [] then None
    else if s[0] == QUOTE then
      var text := ReadStr(s[1..]);
      if text.Some? then Some(Got(JStr(text.value.value), text.value.rest)) else None
    else if s[0] == 91 then
      if |s| > 1 && s[1] == 93 then Some(Got(JArr([]), s[2..]))
      else
        var items := ReadItems(s[1..]);
        if items.Some? then Some(Got(JArr(items.value.value), items.value.rest)) else None
    else if s[0] == 123 then
      if |s| > 1 && s[1] == 125 then Some(Got(JObj([]), s[2..]))
      else
        var fields := ReadFields(s[1..]);
        if fields.Some? then Some(Got(JObj(fields.value.value), fields.value.rest)) else None
    else if InNumber(s[0]) then Some(Got(JNum(s[..NumberLength(s)]), s[NumberLength(s)..]))
    else ReadWord(s)
  }

  // At least one item, up to the closing bracket.
  function ReadItems(s: Str): (r: Option<Got<seq<Json>>>)
    ensures r.Some? ==> |r.value.rest| < |s|
    decreases |s|, 2
  {
    var first := ReadValue(s);
    if first.None? || first.value.rest == [] then None
    else
      var item, rest := first.value.value, first.value.rest;
      if rest[0] == 93 then Some(Got([item], rest[1..]))
      else if rest[0] == 44 then
        var more := ReadItems(rest[1..]);
        if more.Some? then Some(Got([item] + more.value.value, more.value.rest)) else None
      else None
  }

  // A key, the colon and a value.
  function ReadField(s: Str): (r: Option<Got<Field>>)
    ensures r.Some? ==> |r.value.rest| < |s|
    decreases |s|, 2
  {
    if s == [] || s[0] != QUOTE then None
    else
      var key := ReadStr(s[1..]);
      if key.None? || key.value.rest == [] || key.value.rest[0] != 58 then None
      else
        var value := ReadValue(key.value.rest[1..]);
        if value.Some? then Some(Got(Field(key.value.value, value.value.value), value.value.rest)) else None
  }

  function ReadFields(s: Str): (r: Option<Got<seq<Field>>>)
    ensures r.Some? ==> |r.value.rest| < |s|
    decreases |s|, 3
  {
    var first := ReadField(s);
    if first.None? || first.value.rest == [] then None
    else
      var field, rest := first.value.value, first.value.rest;
      if rest[0] == 125 then Some(Got([field], rest[1..]))
      else if rest[0] == 44 then
        var more := ReadFields(rest[1..]);
        if more.Some? then Some(Got([field] + more.value.value, more.value.rest)) else None
      else None
  }

  // ---- The texts as code units ----

  lemma {:induction false} TextConcat(a: seq<Point>, b: seq<Point>)
    ensures Text(a + b) == Text(a) + Text(b)
    decreases |b|
  {
    if b == [] {
      assert a + b == a;
    } else {
      var front, last := b[..|b| - 1], b[|b| - 1];
      assert (a + b)[..|a + b| - 1] == a + front;
      TextConcat(a, front);
      assert Text(a) + Text(front) + Units(last) == Text(a) + (Text(front) + Units(last));
    }
  }

  lemma {:induction false} NoText()
    ensures Text([]) == []
  {
  }

  lemma {:induction false} TextOne(p: Point)
    ensures Text([p]) == Units(p)
  {
    assert Text([p]) == Text([p][..0]) + Units(p);
  }

  lemma {:induction false} TextLow(s: seq<Point>)
    requires forall i :: 0 <= i < |s| ==> s[i] < 0x10000
    ensures |Text(s)| == |s| && forall i :: 0 <= i < |s| ==> Text(s)[i] == s[i]
  {
    if s != [] {
      TextLow(s[..|s| - 1]);
    }
  }

  // ---- Strings ----

  lemma {:induction false} HexBack(n: nat)
    requires n < 16
    ensures HexValue(HexDigit(n)) == Some(n)
  {
  }

  lemma {:induction false} HexDigits(c: CodeUnit)
    ensures c / 0x1000 < 16 && c / 0x100 % 16 < 16
    ensures c == c / 0x1000 * 0x1000 + c / 0x100 % 16 * 0x100 + c / 16 % 16 * 16 + c % 16
  {
    var a, b := c / 16, c / 0x100;
    assert a / 16 == b && b / 16 == c / 0x1000;
  }

  lemma {:induction false} HexUnitBack(c: CodeUnit, s: Str)
    requires |s| >= 6 && s[0] == BACKSLASH && s[1] == 117
    requires s[2] == HexDigit(c / 0x1000) && s[3] == HexDigit(c / 0x100 % 16)
    requires s[4] == HexDigit(c / 16 % 16) && s[5] == HexDigit(c % 16)
    ensures ReadStr(s) == Behind(c, ReadStr(s[6..]))
  {
    HexDigits(c);
    HexBack(c / 0x1000);
    HexBack(c / 0x100 % 16);
    HexBack(c / 16 % 16);
    HexBack(c % 16);
    hide HexValue, HexDigit;
    assert ReadHex(s[2..6]) == Some(c);
  }

  // An escape or a plain unit is read back, whatever follows.
  lemma {:induction false} UnitBack(c: CodeUnit, tail: Str)
    ensures ReadStr(Text(WriteUnit(c)) + tail) == Behind(c, ReadStr(tail))
  {
    hide Text, HexDigit, HexValue, ReadHex;
    var w := WriteUnit(c);
    TextLow(w);
    var s := Text(w) + tail;
    assert s[|w|..] == tail;
    if |w| == 6 {
      HexUnitBack(c, s);
    }
  }

  lemma {:induction false} PairBack(high: CodeUnit, low: CodeUnit, tail: Str)
    requires High(high) && Low(low)
    ensures ReadStr([high, low] + tail) == Behind(high, Behind(low, ReadStr(tail)))
  {
    var s := [high, low] + tail;
    assert s[1..] == [low] + tail && s[1..][1..] == tail;
  }

  lemma {:induction false} StrBack(s: Str, rest: Str)
    ensures ReadStr(Text(WriteUnits(s)) + [QUOTE] + rest) == Some(Got(s, rest))
    decreases |s|
  {
    hide Text, WriteUnit;
    var end := [QUOTE] + rest;
    assert end[1..] == rest;
    if s == [] {
      TextLow([]);
      assert Text([]) + [QUOTE] + rest == end;
    } else if Pair(s) {
      var p, more := Joined(s[0], s[1]), WriteUnits(s[2..]);
      StrBack(s[2..], rest);
      TextConcat([p], more);
      TextOne(p);
      var tail := Text(more) + [QUOTE] + rest;
      assert Text([p] + more) + [QUOTE] + rest == [s[0], s[1]] + tail;
      PairBack(s[0], s[1], tail);
      assert s == [s[0]] + ([s[1]] + s[2..]);
    } else {
      var more := WriteUnits(s[1..]);
      StrBack(s[1..], rest);
      TextConcat(WriteUnit(s[0]), more);
      var tail := Text(more) + [QUOTE] + rest;
      assert Text(WriteUnit(s[0]) + more) + [QUOTE] + rest == Text(WriteUnit(s[0])) + tail;
      UnitBack(s[0], tail);
      assert s == [s[0]] + s[1..];
    }
  }

  // ---- Values ----

  // Nothing that could belong to a number before it.
  predicate Ends(rest: Str) {
    rest == [] || !InNumber(rest[0])
  }

  function Written(j: Json): Str
    requires Sound(j)
  {
    Text(Stringify(j))
  }

  lemma {:induction false} NumberBack(text: Str, rest: Str)
    requires forall i :: 0 <= i < |text| ==> InNumber(text[i])
    requires Ends(rest)
    ensures NumberLength(text + rest) == |text|
    decreases |text|
  {
    if text == [] {
      assert text + rest == rest;
    } else {
      assert (text + rest)[1..] == text[1..] + rest;
      NumberBack(text[1..], rest);
    }
  }

  lemma {:induction false} WordBack(j: Json, rest: Str)
    requires j.JNull? || j.JBool? || j.JNum?
    requires Sound(j) && Ends(rest)
    ensures ReadValue(Written(j) + rest) == Some(Got(j, rest))
  {
    hide Text;
    TextLow(Stringify(j));
    var w := Written(j);
    var s := w + rest;
    assert s[|w|..] == rest && s[..|w|] == w;
    match j {
      case JNum(text) =>
        assert w == text;
        NumberBack(text, rest);
        assert InNumber(s[0]);
      case JNull => assert w == NULL;
      case JBool(b) => assert w == if b then TRUE else FALSE;
    }
  }

  lemma {:induction false} QuotedBack(s: Str, rest: Str)
    ensures Text(WriteStr(s)) + rest == [QUOTE] + (Text(WriteUnits(s)) + [QUOTE] + rest)
    ensures ReadStr((Text(WriteStr(s)) + rest)[1..]) == Some(Got(s, rest))
  {
    hide Text;
    TextConcat([QUOTE] + WriteUnits(s), [QUOTE]);
    TextConcat([QUOTE], WriteUnits(s));
    TextLow([QUOTE]);
    assert Text(WriteStr(s)) + rest == [QUOTE] + (Text(WriteUnits(s)) + [QUOTE] + rest);
    StrBack(s, rest);
  }

  lemma {:induction false} Bracketed(open: Point, middle: seq<Point>, close: Point, rest: Str)
    requires open < 0x80 && close < 0x80
    ensures Text([open] + middle + [close]) + rest == [open] + (Text(middle) + [close] + rest)
  {
    hide Text;
    TextConcat([open] + middle, [close]);
    TextConcat([open], middle);
    TextLow([open]);
    TextLow([close]);
  }

  // The first unit of a value's text tells it from the end of a list.
  lemma {:induction false} FirstUnit(j: Json)
    requires Sound(j)
    ensures Written(j) != [] && Written(j)[0] !in {44, 58, 93, 125}
  {
    var w := Stringify(j);
    assert w == [w[0]] + w[1..];
    TextConcat([w[0]], w[1..]);
    TextLow([w[0]]);
  }

  // Any value's text is read back as this value, and what follows is left.
  lemma {:induction false} ValueBack(j: Json, rest: Str)
    requires Sound(j) && Ends(rest)
    ensures ReadValue(Written(j) + rest) == Some(Got(j, rest))
    decreases j, 0
  {
    hide Text, WriteStr, WriteItems, WriteFields, ReadStr, ReadItems, ReadFields;
    match j {
      case JStr(s) => QuotedBack(s, rest);
      case JArr(items) =>
        Bracketed(91, WriteItems(items), 93, rest);
        ArrayBack(items, rest);
      case JObj(fields) =>
        Bracketed(123, WriteFields(fields), 125, rest);
        ObjectBack(fields, rest);
      case _ => WordBack(j, rest);
    }
  }

  lemma {:induction false} ArrayBack(items: seq<Json>, rest: Str)
    requires Sound(JArr(items))
    ensures ReadValue([91] + (Text(WriteItems(items)) + [93] + rest)) == Some(Got(JArr(items), rest))
    decreases items, 1
  {
    hide Text, ReadItems, ReadStr, ReadFields;
    var s := [91] + (Text(WriteItems(items)) + [93] + rest);
    if items == [] {
      NoText();
      assert s == [91, 93] + rest;
      assert s[2..] == rest;
    } else {
      ItemsBack(items, rest);
      ItemsStart(items);
      assert s[1] == Text(WriteItems(items))[0];
      assert s[1..] == Text(WriteItems(items)) + [93] + rest;
    }
  }

  lemma {:induction false} ItemsStart(items: seq<Json>)
    requires items != [] && Sound(JArr(items))
    ensures Text(WriteItems(items)) != [] && Text(WriteItems(items))[0] !in {44, 58, 93, 125}
  {
    hide Text, Stringify;
    FirstUnit(items[0]);
    var comma: seq<Point> := if |items| > 1 then [44] else [];
    TextConcat(Stringify(items[0]) + comma, WriteItems(items[1..]));
    TextConcat(Stringify(items[0]), comma);
  }

  lemma {:induction false} ItemsBack(items: seq<Json>, rest: Str)
    requires items != [] && Sound(JArr(items))
    ensures ReadItems(Text(WriteItems(items)) + [93] + rest) == Some(Got(items, rest))
    decreases items, 0
  {
    hide Text, Stringify, ReadValue;
    var item, more := items[0], items[1..];
    var tail := Text(WriteItems(more)) + [93] + rest;
    ItemsSplit(items, [93] + rest);
    assert Text(WriteItems(items)) + [93] + rest == Text(WriteItems(items)) + ([93] + rest);
    if more == [] {
      NoText();
      assert [] + (Text([]) + ([93] + rest)) == [93] + rest;
      ValueBack(item, [93] + rest);
      assert ([93] + rest)[1..] == rest;
      assert items == [item];
    } else {
      ItemsBack(more, rest);
      ValueBack(item, [44] + tail);
      assert ([44] + tail)[1..] == tail;
      assert tail == Text(WriteItems(more)) + ([93] + rest);
      assert items == [item] + more;
    }
  }

  lemma {:induction false} ItemsSplit(items: seq<Json>, end: Str)
    requires items != [] && Sound(JArr(items))
    ensures Text(WriteItems(items)) + end
         == Written(items[0]) + ((if |items| > 1 then [44] else []) + (Text(WriteItems(items[1..])) + end))
  {
    hide Text, Stringify;
    var comma: seq<Point> := if |items| > 1 then [44] else [];
    TextConcat(Stringify(items[0]) + comma, WriteItems(items[1..]));
    TextConcat(Stringify(items[0]), comma);
    TextLow(comma);
  }

  lemma {:induction false} ObjectBack(fields: seq<Field>, rest: Str)
    requires Sound(JObj(fields))
    ensures ReadValue([123] + (Text(WriteFields(fields)) + [125] + rest)) == Some(Got(JObj(fields), rest))
    decreases fields, 2
  {
    hide Text, ReadFields, ReadStr, ReadItems;
    var s := [123] + (Text(WriteFields(fields)) + [125] + rest);
    if fields == [] {
      NoText();
      assert s == [123, 125] + rest;
      assert s[2..] == rest;
    } else {
      FieldsBack(fields, rest);
      FieldsSplit(fields, [125] + rest);
      var f := fields[0];
      QuotedBack(f.key, []);
      assert Text(WriteStr(f.key)) + [] == Text(WriteStr(f.key));
      assert s[1..] == Text(WriteFields(fields)) + ([125] + rest);
      assert s[1] == QUOTE;
      assert s[1..] == Text(WriteFields(fields)) + [125] + rest;
    }
  }

  lemma {:induction false} FieldsSplit(fields: seq<Field>, end: Str)
    requires fields != [] && Sound(JObj(fields))
    ensures Text(WriteFields(fields)) + end
         == Text(WriteStr(fields[0].key))
            + ([58] + (Written(fields[0].value)
                       + ((if |fields| > 1 then [44] else []) + (Text(WriteFields(fields[1..])) + end))))
  {
    hide Text, Stringify, WriteStr;
    var comma: seq<Point> := if |fields| > 1 then [44] else [];
    var f, rest := fields[0], WriteFields(fields[1..]);
    TextConcat(WriteStr(f.key) + [58] + Stringify(f.value) + comma, rest);
    TextConcat(WriteStr(f.key) + [58] + Stringify(f.value), comma);
    TextConcat(WriteStr(f.key) + [58], Stringify(f.value));
    TextConcat(WriteStr(f.key), [58]);
    TextLow(comma);
    TextLow([58]);
  }

  lemma {:induction false} FieldBack(f: Field, rest: Str)
    requires Sound(f.value) && Ends(rest)
    ensures ReadField(Text(WriteStr(f.key)) + ([58] + (Written(f.value) + rest))) == Some(Got(f, rest))
    decreases f, 0
  {
    hide Text, Stringify, WriteStr, ReadStr, ReadValue;
    var tail := [58] + (Written(f.value) + rest);
    QuotedBack(f.key, tail);
    assert tail[1..] == Written(f.value) + rest;
    ValueBack(f.value, rest);
  }

  lemma {:induction false} FieldsBack(fields: seq<Field>, rest: Str)
    requires fields != [] && Sound(JObj(fields))
    ensures ReadFields(Text(WriteFields(fields)) + [125] + rest) == Some(Got(fields, rest))
    decreases fields, 0
  {
    hide Text, Stringify, ReadField, WriteStr;
    var f, more := fields[0], fields[1..];
    var tail := Text(WriteFields(more)) + [125] + rest;
    FieldsSplit(fields, [125] + rest);
    assert Text(WriteFields(fields)) + [125] + rest == Text(WriteFields(fields)) + ([125] + rest);
    if more == [] {
      NoText();
      assert [] + (Text([]) + ([125] + rest)) == [125] + rest;
      FieldBack(f, [125] + rest);
      assert ([125] + rest)[1..] == rest;
      assert fields == [f];
    } else {
      FieldsBack(more, rest);
      FieldBack(f, [44] + tail);
      assert ([44] + tail)[1..] == tail;
      assert tail == Text(WriteFields(more)) + ([125] + rest);
      assert fields == [f] + more;
    }
  }
}
