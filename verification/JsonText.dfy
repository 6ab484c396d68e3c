// The text of a JSON value as JSON.stringify writes it (sections 2 to 7 of RFC 8259), and its size.
module JsonText {
  import opened Wrappers
  import opened Json
  import opened Lines
  import opened Utf8

  const QUOTE: CodeUnit := 34
  const BACKSLASH: CodeUnit := 92

  // ---- Writing ----

  function HexDigit(n: nat): (c: Point)
    requires n < 16
    ensures 48 <= c < 128
  {
    if n < 10 then 48 + n else 87 + n
  }

  // The letter of the escapes for control characters that have one.
  function Letter(c: CodeUnit): Option<Point> {
    if c == 8 then Some(98)
    else if c == 9 then Some(116)
    else if c == 10 then Some(110)
    else if c == 12 then Some(102)
    else if c == 13 then Some(114)
    else None
  }

  function WriteUnit(c: CodeUnit): seq<Point> {
    if c == QUOTE || c == BACKSLASH then [BACKSLASH, c]
    else if Letter(c).Some? then [BACKSLASH, Letter(c).value]
    else if c < 32 || High(c) || Low(c) then
      [BACKSLASH, 117, HexDigit(c / 0x1000), HexDigit(c / 0x100 % 16), HexDigit(c / 16 % 16), HexDigit(c % 16)]
    else [c]
  }

  predicate Pair(s: Str) {
    |s| > 1 && High(s[0]) && Low(s[1])
  }

  // The code point of a surrogate pair.
  function Joined(high: nat, low: nat): (p: Point)
    requires 0xD800 <= high < 0xDC00 && 0xDC00 <= low < 0xE000
    ensures 0x10000 <= p && Units(p) == [high, low]
  {
    0x10000 + (high - 0xD800) * 0x400 + (low - 0xDC00)
  }

  function WriteUnits(s: Str): seq<Point> {
    if s == [] then []
    else if Pair(s) then [Joined(s[0], s[1])] + WriteUnits(s[2..])
    else WriteUnit(s[0]) + WriteUnits(s[1..])
  }

  function WriteStr(s: Str): seq<Point> {
    [QUOTE] + WriteUnits(s) + [QUOTE]
  }

  // The characters numbers are written with: digits, signs, the point and the exponent.
  predicate InNumber(c: CodeUnit) {
    48 <= c <= 57 || c in {43, 45, 46, 69, 101}
  }

  predicate IsNumber(text: Str) {
    text != [] && forall i :: 0 <= i < |text| ==> InNumber(text[i])
  }

  // Its numbers are numbers.
  predicate Sound(j: Json)
    decreases j
  {
    match j
    case JNum(text) => IsNumber(text)
    case JArr(items) => forall i :: 0 <= i < |items| ==> Sound(items[i])
    case JObj(fields) => forall i :: 0 <= i < |fields| ==> Sound(fields[i].value)
    case _ => true
  }

  const NULL: Str := [110, 117, 108, 108]
  const TRUE: Str := [116, 114, 117, 101]
  const FALSE: Str := [102, 97, 108, 115, 101]

  function Digits(text: Str): seq<Point>
    requires IsNumber(text)
  {
    seq(|text|, i requires 0 <= i < |text| => text[i])
  }

  function Stringify(j: Json): seq<Point>
    requires Sound(j)
    decreases j
  {
    match j
    case JNull => [110, 117, 108, 108]
    case JBool(b) => if b then [116, 114, 117, 101] else [102, 97, 108, 115, 101]
    case JNum(text) => Digits(text)
    case JStr(s) => WriteStr(s)
    case JArr(items) => [91] + WriteItems(items) + [93]
    case JObj(fields) => [123] + WriteFields(fields) + [125]
  }

  function WriteItems(items: seq<Json>): seq<Point>
    requires forall i :: 0 <= i < |items| ==> Sound(items[i])
    decreases items
  {
    if items == [] then [] else Stringify(items[0]) + (if |items| > 1 then [44] else []) + WriteItems(items[1..])
  }

  function WriteFields(fields: seq<Field>): seq<Point>
    requires forall i :: 0 <= i < |fields| ==> Sound(fields[i].value)
    decreases fields
  {
    if fields == [] then []
    else
      WriteStr(fields[0].key) + [58] + Stringify(fields[0].value) + (if |fields| > 1 then [44] else [])
      + WriteFields(fields[1..])
  }

  // ---- Size ----

  function Size(points: seq<Point>): nat {
    |Encode(points)|
  }

  lemma {:induction false} SizeConcat(a: seq<Point>, b: seq<Point>)
    ensures Size(a + b) == Size(a) + Size(b)
    decreases |b|
  {
    if b == [] {
      assert a + b == a;
    } else {
      assert (a + b)[..|a + b| - 1] == a + b[..|b| - 1];
      SizeConcat(a, b[..|b| - 1]);
    }
  }

  lemma {:induction false} SizeOne(p: Point)
    ensures Size([p]) == |EncodePoint(p)|
  {
    assert Encode([p]) == Encode([p][..0]) + EncodePoint(p);
  }

  lemma {:induction false} SizeAscii(s: seq<Point>)
    requires forall i :: 0 <= i < |s| ==> s[i] < 0x80
    ensures Size(s) == |s|
  {
    if s != [] {
      SizeAscii(s[..|s| - 1]);
    }
  }

  lemma {:induction false} SizeUnit(c: CodeUnit)
    ensures Size(WriteUnit(c)) == UnitBytes(c)
  {
    hide Encode;
    var w := WriteUnit(c);
    if |w| == 1 {
      SizeOne(c);
    } else {
      SizeAscii(w);
    }
  }

  lemma {:induction false} SizeUnits(s: Str)
    ensures Size(WriteUnits(s)) == EscapedBytes(s)
    decreases |s|
  {
    hide Size;
    if s == [] {
      SizeAscii([]);
    } else if Pair(s) {
      SizeConcat([Joined(s[0], s[1])], WriteUnits(s[2..]));
      SizeOne(Joined(s[0], s[1]));
      SizeUnits(s[2..]);
    } else {
      SizeConcat(WriteUnit(s[0]), WriteUnits(s[1..]));
      SizeUnit(s[0]);
      SizeUnits(s[1..]);
    }
  }

  lemma {:induction false} SizeStr(s: Str)
    ensures Size(WriteStr(s)) == StrBytes(s)
  {
    hide Size;
    SizeConcat([QUOTE] + WriteUnits(s), [QUOTE]);
    SizeConcat([QUOTE], WriteUnits(s));
    SizeAscii([QUOTE]);
    SizeUnits(s);
  }

  // The size the limits on events are about is the number of bytes of the text.
  lemma {:induction false} SizeIs(j: Json)
    requires Sound(j)
    ensures |Encode(Stringify(j))| == Bytes(j)
    decreases j, 0
  {
    hide Encode, WriteUnits, WriteStr;
    match j
    case JStr(s) => SizeStr(s);
    case JArr(items) =>
      SizeItems(items);
      SizeBetween(91, WriteItems(items), 93);
    case JObj(fields) =>
      SizeFields(fields);
      SizeBetween(123, WriteFields(fields), 125);
    case _ => SizeAscii(Stringify(j));
  }

  lemma {:induction false} SizeBetween(open: Point, middle: seq<Point>, close: Point)
    requires open < 0x80 && close < 0x80
    ensures Size([open] + middle + [close]) == 2 + Size(middle)
  {
    hide Size;
    SizeConcat([open] + middle, [close]);
    SizeConcat([open], middle);
    SizeAscii([open]);
    SizeAscii([close]);
  }

  lemma {:induction false} SizeItems(items: seq<Json>)
    requires forall i :: 0 <= i < |items| ==> Sound(items[i])
    ensures Size(WriteItems(items)) == ItemsBytes(items)
    decreases items
  {
    hide Size;
    if items == [] {
      SizeAscii([]);
    } else {
      var comma: seq<Point> := if |items| > 1 then [44] else [];
      var first, rest := Stringify(items[0]), WriteItems(items[1..]);
      SizeConcat(first + comma, rest);
      SizeConcat(first, comma);
      SizeAscii(comma);
      SizeOf(items[0]);
      SizeItems(items[1..]);
    }
  }

  lemma {:induction false} SizeOf(j: Json)
    requires Sound(j)
    ensures Size(Stringify(j)) == Bytes(j)
    decreases j, 1
  {
    SizeIs(j);
  }

  lemma {:induction false} SizeFields(fields: seq<Field>)
    requires forall i :: 0 <= i < |fields| ==> Sound(fields[i].value)
    ensures Size(WriteFields(fields)) == FieldsBytes(fields)
    decreases fields
  {
    hide Size;
    if fields == [] {
      SizeAscii([]);
    } else {
      var comma: seq<Point> := if |fields| > 1 then [44] else [];
      var key, value, rest := WriteStr(fields[0].key), Stringify(fields[0].value), WriteFields(fields[1..]);
      SizeConcat(key + [58] + value + comma, rest);
      SizeConcat(key + [58] + value, comma);
      SizeConcat(key + [58], value);
      SizeConcat(key, [58]);
      SizeAscii(comma);
      SizeAscii([58]);
      SizeStr(fields[0].key);
      SizeOf(fields[0].value);
      SizeFields(fields[1..]);
    }
  }
}
