// JSON values as JSON.stringify writes them, and the size of the text in UTF-8 bytes.
module Json {

  // A UTF-16 code unit, the unit JavaScript strings are cut and measured in.
  type CodeUnit = c: nat | c < 0x10000

  type Str = seq<CodeUnit>

  datatype Json =
    | JNull
    | JBool(b: bool)
    | JNum(text: Str)
    | JStr(s: Str)
    | JArr(items: seq<Json>)
    | JObj(fields: seq<Field>)

  datatype Field = Field(key: Str, value: Json)

  function Ascii(s: string): (r: Str)
    ensures |r| == |s|
  {
    seq(|s|, i requires 0 <= i < |s| => if s[i] as int < 128 then s[i] as int else 0)
  }

  // The ellipsis, U+2026.
  const ELLIPSIS: Str := [0x2026]

  function Decimal(n: nat): (r: Str)
    ensures |r| > 0
    ensures n >= 10 ==> |r| > 1
  {
    if n < 10 then [48 + n] else Decimal(n / 10) + [48 + n % 10]
  }

  function Value(digits: Str): int {
    if digits == [] then 0 else Value(digits[..|digits| - 1]) * 10 + (digits[|digits| - 1] as int - 48)
  }

  // The digits of a number, without a leading zero, tell the number.
  lemma {:induction false} DecimalTells(n: nat)
    ensures Value(Decimal(n)) == n
    ensures forall i :: 0 <= i < |Decimal(n)| ==> 48 <= Decimal(n)[i] <= 57
    ensures n > 0 ==> Decimal(n)[0] != 48
  {
    if n < 10 {
      assert Value([48 + n]) == Value([]) * 10 + n;
    } else {
      DecimalTells(n / 10);
      assert Decimal(n)[..|Decimal(n)| - 1] == Decimal(n / 10);
    }
  }

  predicate High(c: CodeUnit) {
    0xD800 <= c < 0xDC00
  }

  predicate Low(c: CodeUnit) {
    0xDC00 <= c < 0xE000
  }

  // Bytes of one code unit inside a JSON string: short escapes, \u escapes for other control characters and for
  // surrogates without a partner, and UTF-8 otherwise (section 7 of RFC 8259, section 3 of RFC 3629).
  function UnitBytes(c: CodeUnit): nat {
    if c == 34 || c == 92 || 8 <= c <= 10 || c == 12 || c == 13 then 2
    else if c < 32 then 6
    else if c < 0x80 then 1
    else if c < 0x800 then 2
    else if High(c) || Low(c) then 6
    else 3
  }

  function EscapedBytes(s: Str): nat {
    if s == [] then 0
    else if |s| > 1 && High(s[0]) && Low(s[1]) then 4 + EscapedBytes(s[2..])
    else UnitBytes(s[0]) + EscapedBytes(s[1..])
  }

  lemma {:induction false} EscapedBound(s: Str)
    ensures EscapedBytes(s) <= 6 * |s|
  {
    if s != [] {
      EscapedBound(s[1..]);
      if |s| > 1 {
        EscapedBound(s[2..]);
      }
    }
  }

  // Printable ASCII other than the quote and the backslash is written as it is.
  predicate Plain(c: CodeUnit) {
    32 <= c < 127 && c != 34 && c != 92
  }

  lemma {:induction false} PlainBytes(s: Str)
    requires forall i :: 0 <= i < |s| ==> Plain(s[i])
    ensures EscapedBytes(s) == |s|
  {
    if s != [] {
      PlainBytes(s[1..]);
    }
  }

  function StrBytes(s: Str): nat {
    2 + EscapedBytes(s)
  }

  function Bytes(j: Json): nat
    decreases j
  {
    match j
    case JNull => 4
    case JBool(b) => if b then 4 else 5
    case JNum(text) => |text|
    case JStr(s) => StrBytes(s)
    case JArr(items) => 2 + ItemsBytes(items)
    case JObj(fields) => 2 + FieldsBytes(fields)
  }

  function ItemsBytes(items: seq<Json>): nat
    decreases items
  {
    if items == [] then 0
    else Bytes(items[0]) + (if |items| > 1 then 1 else 0) + ItemsBytes(items[1..])
  }

  function FieldsBytes(fields: seq<Field>): nat
    decreases fields
  {
    if fields == [] then 0
    else
      StrBytes(fields[0].key) + 1 + Bytes(fields[0].value) + (if |fields| > 1 then 1 else 0) + FieldsBytes(fields[1..])
  }

  function Comma(left: nat, right: nat): nat {
    if left > 0 && right > 0 then 1 else 0
  }

  lemma {:induction false} FieldsConcat(a: seq<Field>, b: seq<Field>)
    ensures FieldsBytes(a + b) == FieldsBytes(a) + FieldsBytes(b) + Comma(|a|, |b|)
  {
    if a == [] {
      assert a + b == b;
    } else {
      assert (a + b)[1..] == a[1..] + b;
      FieldsConcat(a[1..], b);
    }
  }

  lemma {:induction false} FieldsCons(f: Field, rest: seq<Field>)
    ensures FieldsBytes([f] + rest) == StrBytes(f.key) + 1 + Bytes(f.value) + Comma(1, |rest|) + FieldsBytes(rest)
  {
    assert ([f] + rest)[1..] == rest;
  }
}
