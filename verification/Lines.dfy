// Splitting text at line ends, and the white space around a line.
module Lines {
  import opened Json

  const LF: CodeUnit := 10
  const CR: CodeUnit := 13

  // White space as String.prototype.trim removes it.
  predicate IsSpaceCode(c: int) {
    c in {9, 10, 11, 12, 13, 32, 0xA0, 0x1680, 0x2028, 0x2029, 0x202F, 0x205F, 0x3000, 0xFEFF} || 0x2000 <= c <= 0x200A
  }

  function TrimStart(s: Str): Str {
    if s != [] && IsSpaceCode(s[0]) then TrimStart(s[1..]) else s
  }

  function TrimEnd(s: Str): Str {
    if s != [] && IsSpaceCode(s[|s| - 1]) then TrimEnd(s[..|s| - 1]) else s
  }

  function Trim(s: Str): Str {
    TrimStart(TrimEnd(s))
  }

  // A line feed, with the carriage return right before it if there is one, ends a line: the text is cut at the leftmost
  // line end, and the rest is cut in the same way.
  function Split(s: Str): (lines: seq<Str>)
    ensures |lines| > 0
    decreases |s|
  {
    if s == [] then [[]]
    else if s[0] == LF then [[]] + Split(s[1..])
    else if s[0] == CR && |s| > 1 && s[1] == LF then [[]] + Split(s[2..])
    else Prepend(s[0], Split(s[1..]))
  }

  function Prepend(c: CodeUnit, lines: seq<Str>): seq<Str>
    requires |lines| > 0
  {
    [[c] + lines[0]] + lines[1..]
  }

  function Front<T>(s: seq<T>): seq<T>
    requires |s| > 0
  {
    s[..|s| - 1]
  }

  function Last<T>(s: seq<T>): T
    requires |s| > 0
  {
    s[|s| - 1]
  }

  function StripCR(s: Str): Str {
    if s != [] && Last(s) == CR then Front(s) else s
  }

  ghost predicate NoLF(s: Str) {
    forall i :: 0 <= i < |s| ==> s[i] != LF
  }

  lemma {:induction false} SplitNoLF(s: Str)
    requires NoLF(s)
    ensures Split(s) == [s]
    decreases |s|
  {
    if s != [] {
      SplitNoLF(s[1..]);
      assert [s[0]] + s[1..] == s;
    }
  }

  // No piece contains a line feed.
  lemma {:induction false} PiecesHaveNoLF(s: Str)
    ensures forall i :: 0 <= i < |Split(s)| ==> NoLF(Split(s)[i])
    decreases |s|
  {
    if s == [] {
    } else if s[0] == LF {
      PiecesHaveNoLF(s[1..]);
    } else if s[0] == CR && |s| > 1 && s[1] == LF {
      PiecesHaveNoLF(s[2..]);
    } else {
      PiecesHaveNoLF(s[1..]);
    }
  }

  // A text with one piece only is that piece.
  lemma {:induction false} OnePiece(s: Str)
    ensures |Split(s)| == 1 ==> Split(s) == [s]
    decreases |s|
  {
    if s != [] && s[0] != LF && !(s[0] == CR && |s| > 1 && s[1] == LF) {
      OnePiece(s[1..]);
      assert [s[0]] + s[1..] == s;
    }
  }

  // Text appended to a list of pieces continues the last one.
  function Continue(pieces: seq<Str>, b: Str): seq<Str>
    requires |pieces| > 0
  {
    Front(pieces) + Split(Last(pieces) + b)
  }

  lemma {:induction false} ContinueBehind(first: Str, pieces: seq<Str>, b: Str)
    requires |pieces| > 0
    ensures Continue([first] + pieces, b) == [first] + Continue(pieces, b)
  {
    assert Front([first] + pieces) == [first] + Front(pieces);
    assert Last([first] + pieces) == Last(pieces);
  }

  lemma {:induction false} ContinuePrepended(c: CodeUnit, pieces: seq<Str>, b: Str)
    requires |pieces| > 1
    ensures Continue(Prepend(c, pieces), b) == Prepend(c, Continue(pieces, b))
  {
    assert Front(Prepend(c, pieces)) == [[c] + pieces[0]] + Front(pieces)[1..];
    assert Last(Prepend(c, pieces)) == Last(pieces);
    assert Continue(pieces, b)[0] == pieces[0];
    assert Continue(pieces, b)[1..] == Front(pieces)[1..] + Split(Last(pieces) + b);
  }

  // More text only ever changes the last piece.
  lemma {:induction false} SplitAppend(a: Str, b: Str)
    ensures Split(a + b) == Continue(Split(a), b)
    decreases |a|
  {
    if |Split(a)| == 1 {
      OnePiece(a);
    } else if a[0] == LF {
      SplitAppend(a[1..], b);
      assert (a + b)[1..] == a[1..] + b;
      ContinueBehind([], Split(a[1..]), b);
    } else if a[0] == CR && |a| > 1 && a[1] == LF {
      SplitAppend(a[2..], b);
      assert (a + b)[2..] == a[2..] + b;
      ContinueBehind([], Split(a[2..]), b);
    } else {
      assert a[1..] != [];
      SplitAppend(a[1..], b);
      assert (a + b)[1..] == a[1..] + b;
      ContinuePrepended(a[0], Split(a[1..]), b);
    }
  }

  // A line feed ends the piece before it.
  lemma {:induction false} SplitAtLF(a: Str, b: Str)
    requires NoLF(a)
    ensures Split(a + [LF] + b) == [StripCR(a)] + Split(b)
    decreases |a|
  {
    var s := a + [LF] + b;
    if a == [] {
      assert s[1..] == b;
    } else if a == [CR] {
      assert s[2..] == b;
    } else {
      assert s[1..] == a[1..] + [LF] + b;
      SplitAtLF(a[1..], b);
      assert StripCR(a) == [a[0]] + StripCR(a[1..]);
    }
  }

  // Splitting two texts joined by a line feed.
  lemma {:induction false} SplitJoined(a: Str, b: Str)
    ensures Split(a + [LF] + b) == Front(Split(a)) + [StripCR(Last(Split(a)))] + Split(b)
  {
    PiecesHaveNoLF(a);
    assert a + [LF] + b == a + ([LF] + b);
    SplitAppend(a, [LF] + b);
    assert Last(Split(a)) + ([LF] + b) == Last(Split(a)) + [LF] + b;
    SplitAtLF(Last(Split(a)), b);
  }

  lemma {:induction false} TrimStripCR(s: Str)
    ensures Trim(StripCR(s)) == Trim(s)
  {
  }

  ghost predicate AllSpace(s: Str) {
    forall i :: 0 <= i < |s| ==> IsSpaceCode(s[i])
  }

  lemma {:induction false} TrimStartIs(s: Str) returns (space: Str)
    ensures AllSpace(space) && s == space + TrimStart(s) && (TrimStart(s) != [] ==> !IsSpaceCode(TrimStart(s)[0]))
  {
    space := [];
    if s != [] && IsSpaceCode(s[0]) {
      var rest := TrimStartIs(s[1..]);
      space := [s[0]] + rest;
      assert s == [s[0]] + s[1..];
    }
  }

  lemma {:induction false} TrimEndIs(s: Str) returns (space: Str)
    ensures AllSpace(space) && s == TrimEnd(s) + space && (TrimEnd(s) != [] ==> !IsSpaceCode(Last(TrimEnd(s))))
  {
    space := [];
    if s != [] && IsSpaceCode(s[|s| - 1]) {
      var rest := TrimEndIs(s[..|s| - 1]);
      space := rest + [s[|s| - 1]];
      assert s == s[..|s| - 1] + [s[|s| - 1]];
    }
  }

  // Trimming takes white space off both ends, and all of it.
  lemma {:induction false} TrimIs(s: Str) returns (before: Str, after: Str)
    ensures AllSpace(before) && AllSpace(after) && s == before + Trim(s) + after
    ensures Trim(s) != [] ==> !IsSpaceCode(Trim(s)[0]) && !IsSpaceCode(Last(Trim(s)))
  {
    after := TrimEndIs(s);
    before := TrimStartIs(TrimEnd(s));
    if Trim(s) != [] {
      assert Last(TrimEnd(s)) == Last(Trim(s));
    }
  }
}
