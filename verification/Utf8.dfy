// UTF-8 text read piece by piece (section 3 of RFC 3629): a decoder that keeps an unfinished sequence between pieces,
// and the encoding it inverts.
module Utf8 {
  import opened Json

  type Octet = b: nat | b < 0x100

  const REPLACEMENT: CodeUnit := 0xFFFD

  // The sequence being read: its value so far, how many bytes are missing, and the range its next byte must lie in.
  datatype DecoderState = DecoderState(value: nat, missing: nat, low: nat, high: nat)

  predicate IsDecoder(d: DecoderState) {
    && d.missing <= 3
    && (d.missing == 3 ==> d.value <= 4 && (d.value == 4 ==> d.high <= 0x8F))
    && (d.missing == 2 ==> d.value <= 0x10F)
    && (d.missing == 1 ==> d.value <= 0x43FF)
    && 0x80 <= d.low && d.high <= 0xBF
  }

  const Ready: DecoderState := DecoderState(0, 0, 0x80, 0xBF)

  type Decoder = d: DecoderState | IsDecoder(d) witness DecoderState(0, 0, 0x80, 0xBF)

  datatype Decoded = Decoded(units: Str, decoder: Decoder)

  // The UTF-16 form of a code point.
  function Units(point: nat): Str
    requires point < 0x110000
  {
    if point < 0x10000 then [point] else [0xD800 + (point - 0x10000) / 0x400, 0xDC00 + (point - 0x10000) % 0x400]
  }

  function Begin(b: Octet): Decoded {
    if b < 0x80 then Decoded([b], Ready)
    else if 0xC2 <= b <= 0xDF then Decoded([], DecoderState(b - 0xC0, 1, 0x80, 0xBF))
    else if 0xE0 <= b <= 0xEF then
      Decoded([], DecoderState(b - 0xE0, 2, if b == 0xE0 then 0xA0 else 0x80, if b == 0xED then 0x9F else 0xBF))
    else if 0xF0 <= b <= 0xF4 then
      Decoded([], DecoderState(b - 0xF0, 3, if b == 0xF0 then 0x90 else 0x80, if b == 0xF4 then 0x8F else 0xBF))
    else Decoded([REPLACEMENT], Ready)
  }

  // A byte that cannot continue the sequence replaces what was read of it by U+FFFD and begins anew.
  function Read(d: Decoder, b: Octet): Decoded {
    if d.missing == 0 then Begin(b)
    else if !(d.low <= b <= d.high) then Decoded([REPLACEMENT] + Begin(b).units, Begin(b).decoder)
    else
      var value := d.value * 64 + (b - 0x80);
      if d.missing == 1 then Decoded(Units(value), Ready)
      else Decoded([], DecoderState(value, d.missing - 1, 0x80, 0xBF))
  }

  function Then(first: Decoded, second: Decoded): Decoded {
    Decoded(first.units + second.units, second.decoder)
  }

  function Decode(d: Decoder, bytes: seq<Octet>): Decoded
    decreases |bytes|
  {
    if bytes == [] then Decoded([], d) else Then(Read(d, bytes[0]), Decode(Read(d, bytes[0]).decoder, bytes[1..]))
  }

  // The end of the input inside a sequence counts as one more U+FFFD.
  function Flush(d: Decoder): Str {
    if d.missing > 0 then [REPLACEMENT] else []
  }

  function DecodeAll(bytes: seq<Octet>): Str {
    Decode(Ready, bytes).units + Flush(Decode(Ready, bytes).decoder)
  }

  lemma {:induction false} ThenAssociates(a: Decoded, b: Decoded, c: Decoded)
    ensures Then(a, Then(b, c)) == Then(Then(a, b), c)
  {
    assert a.units + (b.units + c.units) == a.units + b.units + c.units;
  }

  // Reading in pieces is reading at once.
  lemma {:induction false} DecodePieces(d: Decoder, a: seq<Octet>, b: seq<Octet>)
    ensures Decode(d, a + b) == Then(Decode(d, a), Decode(Decode(d, a).decoder, b))
    decreases |a|
  {
    if a == [] {
      assert a + b == b;
    } else {
      assert (a + b)[0] == a[0] && (a + b)[1..] == a[1..] + b;
      var first := Read(d, a[0]);
      DecodePieces(first.decoder, a[1..], b);
      ThenAssociates(first, Decode(first.decoder, a[1..]), Decode(Decode(first.decoder, a[1..]).decoder, b));
    }
  }

  // A code point that is not a surrogate.
  type Point = p: nat | p < 0xD800 || 0xE000 <= p < 0x110000

  function EncodePoint(p: Point): seq<Octet> {
    if p < 0x80 then [p]
    else if p < 0x800 then [0xC0 + p / 0x40, 0x80 + p % 0x40]
    else if p < 0x10000 then [0xE0 + p / 0x1000, 0x80 + p / 0x40 % 0x40, 0x80 + p % 0x40]
    else [0xF0 + p / 0x40000, 0x80 + p / 0x1000 % 0x40, 0x80 + p / 0x40 % 0x40, 0x80 + p % 0x40]
  }

  function Encode(points: seq<Point>): seq<Octet> {
    if points == [] then [] else Encode(points[..|points| - 1]) + EncodePoint(points[|points| - 1])
  }

  function Text(points: seq<Point>): Str {
    if points == [] then [] else Text(points[..|points| - 1]) + Units(points[|points| - 1])
  }

  lemma {:induction false} DecodeOne(d: Decoder, b: Octet)
    ensures Decode(d, [b]) == Read(d, b)
  {
    assert Decode(Read(d, b).decoder, [b][1..]) == Decoded([], Read(d, b).decoder);
  }

  lemma {:induction false} DecodeNext(bytes: seq<Octet>, b: Octet, before: Decoder)
    requires Decode(Ready, bytes) == Decoded([], before)
    ensures Decode(Ready, bytes + [b]) == Read(before, b)
  {
    DecodePieces(Ready, bytes, [b]);
    DecodeOne(before, b);
  }

  // Three bytes of a sequence, by the values they carry.
  lemma {:induction false} ReadThree(a: nat, b: nat, c: nat)
    requires a < 16 && b < 64 && c < 64 && (a == 0 ==> b >= 32) && (a == 13 ==> b < 32)
    ensures Decode(Ready, [0xE0 + a, 0x80 + b, 0x80 + c]) == Decoded(Units(a * 4096 + b * 64 + c), Ready)
  {
    hide Decode;
    var d0 := Begin(0xE0 + a).decoder;
    var d1 := DecoderState(a * 64 + b, 1, 0x80, 0xBF);
    DecodeOne(Ready, 0xE0 + a);
    DecodeNext([0xE0 + a], 0x80 + b, d0);
    assert Read(d0, 0x80 + b) == Decoded([], d1);
    DecodeNext([0xE0 + a] + [0x80 + b], 0x80 + c, d1);
    assert [0xE0 + a, 0x80 + b, 0x80 + c] == [0xE0 + a] + [0x80 + b] + [0x80 + c];
  }

  lemma {:induction false} ReadFour(a: nat, b: nat, c: nat, d: nat)
    requires a < 5 && b < 64 && c < 64 && d < 64 && (a == 0 ==> b >= 16) && (a == 4 ==> b < 16)
    ensures Decode(Ready, [0xF0 + a, 0x80 + b, 0x80 + c, 0x80 + d])
            == Decoded(Units(a * 0x40000 + b * 4096 + c * 64 + d), Ready)
  {
    hide Decode;
    var d0 := Begin(0xF0 + a).decoder;
    var d1 := DecoderState(a * 64 + b, 2, 0x80, 0xBF);
    var d2 := DecoderState(a * 4096 + b * 64 + c, 1, 0x80, 0xBF);
    DecodeOne(Ready, 0xF0 + a);
    DecodeNext([0xF0 + a], 0x80 + b, d0);
    assert Read(d0, 0x80 + b) == Decoded([], d1);
    DecodeNext([0xF0 + a] + [0x80 + b], 0x80 + c, d1);
    assert Read(d1, 0x80 + c) == Decoded([], d2);
    DecodeNext([0xF0 + a] + [0x80 + b] + [0x80 + c], 0x80 + d, d2);
    assert [0xF0 + a, 0x80 + b, 0x80 + c, 0x80 + d] == [0xF0 + a] + [0x80 + b] + [0x80 + c] + [0x80 + d];
  }

  lemma {:induction false} ReadOne(a: nat)
    requires a < 0x80
    ensures Decode(Ready, [a]) == Decoded(Units(a), Ready)
  {
    DecodeOne(Ready, a);
  }

  lemma {:induction false} ReadTwo(a: nat, b: nat)
    requires 2 <= a < 32 && b < 64
    ensures Decode(Ready, [0xC0 + a, 0x80 + b]) == Decoded(Units(a * 64 + b), Ready)
  {
    DecodeOne(Ready, 0xC0 + a);
    DecodeNext([0xC0 + a], 0x80 + b, Begin(0xC0 + a).decoder);
    assert [0xC0 + a, 0x80 + b] == [0xC0 + a] + [0x80 + b];
  }

  lemma {:induction false} Digits(p: nat)
    ensures p == p / 0x1000 * 0x1000 + p / 0x40 % 0x40 * 0x40 + p % 0x40
    ensures p == p / 0x40000 * 0x40000 + p / 0x1000 % 0x40 * 0x1000 + p / 0x40 % 0x40 * 0x40 + p % 0x40
  {
    var q, r := p / 0x40, p / 0x1000;
    assert p == q * 0x40 + p % 0x40;
    assert q / 0x40 == r && q == r * 0x40 + q % 0x40;
    assert r / 0x40 == p / 0x40000 && r == p / 0x40000 * 0x40 + r % 0x40;
  }

  lemma {:induction false} PointRoundTrip(p: Point)
    ensures Decode(Ready, EncodePoint(p)) == Decoded(Units(p), Ready)
  {
    hide Decode, Read, Begin, Units;
    if p < 0x80 {
      ReadOne(p);
    } else if p < 0x800 {
      ReadTwo(p / 0x40, p % 0x40);
    } else if p < 0x10000 {
      Digits(p);
      ReadThree(p / 0x1000, p / 0x40 % 0x40, p % 0x40);
    } else {
      Digits(p);
      ReadFour(p / 0x40000, p / 0x1000 % 0x40, p / 0x40 % 0x40, p % 0x40);
    }
  }

  // Text written in UTF-8 is read back exactly, with nothing left over.
  lemma {:induction false} RoundTrip(points: seq<Point>)
    ensures Decode(Ready, Encode(points)) == Decoded(Text(points), Ready)
  {
    if points != [] {
      var front, last := points[..|points| - 1], points[|points| - 1];
      RoundTrip(front);
      DecodePieces(Ready, Encode(front), EncodePoint(last));
      PointRoundTrip(last);
    }
  }
}
