// What the decoder makes of bytes that are not UTF-8 (section 3.9 of the Unicode standard, maximal subparts): what was
// read of a code point that cannot go on is replaced as a whole, and the byte that cannot go on is read anew.
module Utf8Errors {
  import opened Json
  import opened Utf8

  // The bytes are those of a code point.
  ghost predicate Whole(bytes: seq<Octet>) {
    exists p: Point :: EncodePoint(p) == bytes
  }

  // The bytes begin those of a code point and more are to come.
  ghost predicate Unfinished(bytes: seq<Octet>) {
    exists p: Point :: |bytes| < |EncodePoint(p)| && EncodePoint(p)[..|bytes|] == bytes
  }

  // ---- The same by ranges of bytes ----

  predicate Second(lead: Octet, b: Octet) {
    && 0x80 <= b <= 0xBF
    && (lead == 0xE0 ==> b >= 0xA0) && (lead == 0xED ==> b <= 0x9F)
    && (lead == 0xF0 ==> b >= 0x90) && (lead == 0xF4 ==> b <= 0x8F)
  }

  predicate Further(b: Octet) {
    0x80 <= b <= 0xBF
  }

  predicate InRange(s: seq<Octet>) {
    || (|s| == 1 && s[0] < 0x80)
    || (|s| == 2 && 0xC2 <= s[0] <= 0xDF && Further(s[1]))
    || (|s| == 3 && 0xE0 <= s[0] <= 0xEF && Second(s[0], s[1]) && Further(s[2]))
    || (|s| == 4 && 0xF0 <= s[0] <= 0xF4 && Second(s[0], s[1]) && Further(s[2]) && Further(s[3]))
  }

  predicate MayGoOn(s: seq<Octet>) {
    || s == []
    || (|s| == 1 && 0xC2 <= s[0] <= 0xF4)
    || (|s| == 2 && 0xE0 <= s[0] <= 0xF4 && Second(s[0], s[1]))
    || (|s| == 3 && 0xF0 <= s[0] <= 0xF4 && Second(s[0], s[1]) && Further(s[2]))
  }

  lemma {:induction false} EncodedInRange(p: Point)
    ensures InRange(EncodePoint(p))
  {
    Digits(p);
  }

  lemma {:induction false} LastSix(q: nat, b: nat)
    requires b < 64
    ensures (q * 64 + b) / 64 == q && (q * 64 + b) % 64 == b
  {
  }

  lemma {:induction false} TwelveBits(p: nat)
    ensures p / 0x1000 == p / 64 / 64
  {
  }

  lemma {:induction false} TwoBytes(a: nat, b: nat)
    requires 2 <= a < 32 && b < 64
    ensures a * 64 + b < 0x800 && EncodePoint(a * 64 + b) == [0xC0 + a, 0x80 + b]
  {
    LastSix(a, b);
  }

  lemma {:induction false} ThreeBytes(a: nat, b: nat, c: nat)
    requires a < 16 && b < 64 && c < 64 && (a == 0 ==> b >= 32) && (a == 13 ==> b < 32)
    ensures var p := a * 4096 + b * 64 + c;
            (p < 0xD800 || 0xE000 <= p < 0x10000) && EncodePoint(p) == [0xE0 + a, 0x80 + b, 0x80 + c]
  {
    var q := a * 64 + b;
    var p := q * 64 + c;
    assert p == a * 4096 + b * 64 + c;
    LastSix(q, c);
    LastSix(a, b);
    TwelveBits(p);
    assert 0x800 <= p && (p < 0xD800 || 0xE000 <= p < 0x10000);
  }

  lemma {:induction false} FourBytes(a: nat, b: nat, c: nat, d: nat)
    requires a < 5 && b < 64 && c < 64 && d < 64 && (a == 0 ==> b >= 16) && (a == 4 ==> b < 16)
    ensures var p := a * 0x40000 + b * 4096 + c * 64 + d;
            0x10000 <= p < 0x110000 && EncodePoint(p) == [0xF0 + a, 0x80 + b, 0x80 + c, 0x80 + d]
  {
    var r := a * 64 + b;
    var q := r * 64 + c;
    var p := q * 64 + d;
    assert p == a * 0x40000 + b * 4096 + c * 64 + d;
    LastSix(q, d);
    LastSix(r, c);
    LastSix(a, b);
    TwelveBits(p);
    assert p / 0x40000 == p / 0x1000 / 64;
    assert 0x10000 <= p < 0x110000;
  }

  lemma {:induction false} OneByte(p: Point)
    requires p < 0x80
    ensures EncodePoint(p) == [p]
  {
  }

  // A code point whose bytes begin so.
  lemma {:induction false} Completed(s: seq<Octet>) returns (p: Point)
    requires InRange(s) || MayGoOn(s)
    ensures |s| <= |EncodePoint(p)| && EncodePoint(p)[..|s|] == s
    ensures |s| == |EncodePoint(p)| <==> InRange(s)
  {
    hide EncodePoint;
    if s == [] || s[0] < 0x80 {
      p := if s == [] then 0 else s[0];
      OneByte(p);
    } else if s[0] <= 0xDF {
      var a: nat, b: nat := s[0] - 0xC0, if |s| > 1 then s[1] - 0x80 else 0;
      TwoBytes(a, b);
      p := a * 64 + b;
    } else if s[0] <= 0xEF {
      var a: nat, b: nat := s[0] - 0xE0, if |s| > 1 then s[1] - 0x80 else if s[0] == 0xE0 then 32 else 0;
      var c: nat := if |s| > 2 then s[2] - 0x80 else 0;
      ThreeBytes(a, b, c);
      p := a * 4096 + b * 64 + c;
    } else {
      var a: nat, b: nat := s[0] - 0xF0, if |s| > 1 then s[1] - 0x80 else if s[0] == 0xF0 then 16 else 0;
      var c: nat, d: nat := if |s| > 2 then s[2] - 0x80 else 0, if |s| > 3 then s[3] - 0x80 else 0;
      FourBytes(a, b, c, d);
      p := a * 0x40000 + b * 4096 + c * 64 + d;
    }
  }

  lemma {:induction false} WholeIs(s: seq<Octet>)
    ensures Whole(s) <==> InRange(s)
  {
    hide EncodePoint;
    if InRange(s) {
      var p := Completed(s);
      assert EncodePoint(p) == s;
    }
    if p: Point :| EncodePoint(p) == s {
      EncodedInRange(p);
    }
  }

  lemma {:induction false} UnfinishedIs(s: seq<Octet>)
    ensures Unfinished(s) <==> MayGoOn(s)
  {
    hide EncodePoint;
    if MayGoOn(s) {
      var p := Completed(s);
    }
    if p: Point :| |s| < |EncodePoint(p)| && EncodePoint(p)[..|s|] == s {
      EncodedInRange(p);
      var all := EncodePoint(p);
      assert forall i :: 0 <= i < |s| ==> s[i] == all[i];
    }
  }

  // ---- The decoder ----

  // The decoder's state inside a code point.
  function StateOf(s: seq<Octet>): Decoder
    requires MayGoOn(s)
  {
    if s == [] then Ready
    else if |s| == 1 then Begin(s[0]).decoder
    else
      var a: nat, b: nat := s[0] % 16, s[1] - 0x80;
      if |s| == 3 then DecoderState(a * 4096 + b * 64 + (s[2] - 0x80), 1, 0x80, 0xBF)
      else DecoderState(a * 64 + b, if s[0] <= 0xEF then 1 else 2, 0x80, 0xBF)
  }

  lemma {:induction false} OneMore(s: seq<Octet>, b: Octet)
    requires MayGoOn(s) && MayGoOn(s + [b])
    ensures Read(StateOf(s), b) == Decoded([], StateOf(s + [b]))
  {
  }

  lemma {:induction false} Waiting(s: seq<Octet>)
    requires MayGoOn(s)
    ensures Decode(Ready, s) == Decoded([], StateOf(s))
    decreases |s|
  {
    if s != [] {
      var front, b := s[..|s| - 1], s[|s| - 1];
      assert s == front + [b];
      Waiting(front);
      OneMore(front, b);
      DecodeNext(front, b, StateOf(front));
    }
  }

  lemma {:induction false} CannotGoOn(s: seq<Octet>, b: Octet)
    requires MayGoOn(s) && !MayGoOn(s + [b]) && !InRange(s + [b])
    ensures Read(StateOf(s), b) == Decoded([REPLACEMENT] + (if s == [] then [] else Begin(b).units), Begin(b).decoder)
  {
    if s == [] {
      assert [REPLACEMENT] + [] == [REPLACEMENT];
    }
  }

  // Inside a code point nothing is delivered yet, and the end of the input counts as one U+FFFD. The byte that
  // completes it delivers it. A byte that neither completes nor continues it delivers one U+FFFD for all of it, and is
  // then read as if nothing had come before; alone it is itself one U+FFFD.
  lemma {:induction false} ReadsOn(s: seq<Octet>, b: Octet)
    requires Unfinished(s)
    ensures Decode(Ready, s).units == [] && Flush(Decode(Ready, s).decoder) == if s == [] then [] else [REPLACEMENT]
    ensures forall p: Point :: EncodePoint(p) == s + [b] ==> Decode(Ready, s + [b]) == Decoded(Units(p), Ready)
    ensures !Whole(s + [b]) && !Unfinished(s + [b]) ==>
              Decode(Ready, s + [b])
              == if s == [] then Decoded([REPLACEMENT], Ready)
                 else Then(Decoded([REPLACEMENT], Ready), Decode(Ready, [b]))
  {
    hide Decode, Read, Begin, EncodePoint, MayGoOn, InRange, StateOf;
    UnfinishedIs(s);
    UnfinishedIs(s + [b]);
    WholeIs(s + [b]);
    Waiting(s);
    InsideMisses(s);
    forall p: Point | EncodePoint(p) == s + [b]
      ensures Decode(Ready, s + [b]) == Decoded(Units(p), Ready)
    {
      PointRoundTrip(p);
    }
    if !Whole(s + [b]) && !Unfinished(s + [b]) {
      DecodeNext(s, b, StateOf(s));
      CannotGoOn(s, b);
      ReadAnew(s, b);
    }
  }

  lemma {:induction false} InsideMisses(s: seq<Octet>)
    requires MayGoOn(s)
    ensures StateOf(s).missing > 0 <==> s != []
  {
  }

  lemma {:induction false} ReadAnew(s: seq<Octet>, b: Octet)
    requires MayGoOn(s) && !MayGoOn(s + [b]) && !InRange(s + [b])
    ensures Decode(Ready, [b]) == Begin(b)
    ensures s == [] ==> Begin(b) == Decoded([REPLACEMENT], Ready)
  {
    DecodeOne(Ready, b);
    if s == [] {
      assert s + [b] == [b];
    }
  }
}
