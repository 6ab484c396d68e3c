// Following a growing file line by line, against reading it at once.
module Tail {
  import opened Wrappers
  import opened Json
  import opened Lines
  import opened Utf8

  // One call of the line callback.
  datatype Emitted = Emitted(line: Str, number: nat)

  // What one round of the polling loop meets: the size reported, the bytes in the file when it is read, and how many of
  // those asked for the read delivers at most. The stat may throw, and so may the open or the read of a file that grew.
  datatype Poll = StatFails | ReadFails(size: nat) | Sees(size: nat, content: seq<Octet>, limit: nat)

  function Chunk(p: Poll, pos: nat): seq<Octet> {
    if !p.Sees? || pos >= Min(p.size, |p.content|) then []
    else p.content[pos..Min(pos + p.limit, Min(p.size, |p.content|))]
  }

  function Numbered(lines: seq<Str>, first: nat): seq<Emitted> {
    if lines == [] then [] else Numbered(Front(lines), first) + [Emitted(Last(lines), first + |lines| - 1)]
  }

  // ---- The bytes read ----

  // The bytes read from one position on, up to the next truncation noticed.
  datatype Session = Session(base: nat, bytes: seq<Octet>) {
    function Pos(): nat {
      base + |bytes|
    }

    // The lines complete in these bytes, and the rest.
    function Lines(): seq<Str> {
      Front(Split(Decode(Ready, bytes).units))
    }

    function Rest(): Str {
      Last(Split(Decode(Ready, bytes).units))
    }
  }

  function AfterStat(sessions: seq<Session>, p: Poll): (seen: seq<Session>)
    requires |sessions| > 0
    ensures |seen| > 0
  {
    if !p.StatFails? && p.size < Last(sessions).Pos() then sessions + [Session(0, [])] else sessions
  }

  function AfterRead(sessions: seq<Session>, chunk: seq<Octet>): seq<Session>
    requires |sessions| > 0
  {
    Front(sessions) + [Session(Last(sessions).base, Last(sessions).bytes + chunk)]
  }

  function AfterPoll(sessions: seq<Session>, p: Poll): seq<Session>
    requires |sessions| > 0
  {
    var seen := AfterStat(sessions, p);
    AfterRead(seen, Chunk(p, Last(seen).Pos()))
  }

  function Sessions(size: nat, polls: seq<Poll>): (sessions: seq<Session>)
    ensures |sessions| > 0
  {
    if polls == [] then [Session(size, [])] else AfterPoll(Sessions(size, Front(polls)), Last(polls))
  }

  // The round throws: at once, or because there is something to read and it cannot be read.
  predicate Breaks(sessions: seq<Session>, p: Poll)
    requires |sessions| > 0
  {
    p.StatFails? || (p.ReadFails? && p.size > Last(AfterStat(sessions, p)).Pos())
  }

  // The number of rounds before the first that throws.
  function RoundsDone(size: nat, polls: seq<Poll>): (n: nat)
    ensures n <= |polls|
  {
    if polls == [] then 0
    else
      var n := RoundsDone(size, Front(polls));
      if n == |polls| - 1 && !Breaks(Sessions(size, Front(polls)), Last(polls)) then |polls| else n
  }

  function Delivered(sessions: seq<Session>): seq<Emitted> {
    if sessions == [] then [] else Delivered(Front(sessions)) + Numbered(Last(sessions).Lines(), 1)
  }

  // A round that throws ends the count, whatever comes after it.
  lemma {:induction false} RoundsDoneAt(size: nat, polls: seq<Poll>, n: nat)
    requires n < |polls| && RoundsDone(size, polls[..n]) == n && Breaks(Sessions(size, polls[..n]), polls[n])
    ensures RoundsDone(size, polls) == n
    decreases |polls|
  {
    hide Sessions, Breaks;
    if n < |polls| - 1 {
      assert Front(polls)[..n] == polls[..n];
      RoundsDoneAt(size, Front(polls), n);
    } else {
      assert Front(polls) == polls[..n];
    }
  }

  lemma {:induction false} NumberedConcat(a: seq<Str>, b: seq<Str>, first: nat)
    ensures Numbered(a + b, first) == Numbered(a, first) + Numbered(b, first + |a|)
    decreases |b|
  {
    if b == [] {
      assert a + b == a;
    } else {
      assert Front(a + b) == a + Front(b);
      NumberedConcat(a, Front(b), first);
    }
  }

  // A chunk ends pieces of the carry and itself, whatever came before.
  lemma {:induction false} ChunkSplits(s: Session, chunk: seq<Octet>)
    ensures var decoded := Decode(Decode(Ready, s.bytes).decoder, chunk);
            var parts := Split(s.Rest() + decoded.units);
            var next := Session(s.base, s.bytes + chunk);
            && next.Lines() == s.Lines() + Front(parts) && next.Rest() == Last(parts)
            && Decode(Ready, next.bytes).decoder == decoded.decoder
            && Numbered(next.Lines(), 1) == Numbered(s.Lines(), 1) + Numbered(Front(parts), 1 + |s.Lines()|)
  {
    var decoded := Decode(Decode(Ready, s.bytes).decoder, chunk);
    DecodePieces(Ready, s.bytes, chunk);
    SplitAppend(Decode(Ready, s.bytes).units, decoded.units);
    NumberedConcat(s.Lines(), Front(Split(s.Rest() + decoded.units)), 1);
  }

  // The loop's variables hold what the bytes read so far determine.
  ghost predicate Follows(sessions: seq<Session>, emitted: seq<Emitted>, pos: nat, lineNumber: nat, carry: Str,
        decoder: Decoder)
    requires |sessions| > 0
  {
    var last := Last(sessions);
    && emitted == Delivered(sessions) && pos == last.Pos() && lineNumber == |last.Lines()| && carry == last.Rest()
    && decoder == Decode(Ready, last.bytes).decoder
  }

  lemma {:induction false} RestartFollows(sessions: seq<Session>, emitted: seq<Emitted>)
    requires |sessions| > 0 && emitted == Delivered(sessions)
    ensures Follows(sessions + [Session(0, [])], emitted, 0, 0, [], Ready)
  {
    var next := sessions + [Session(0, [])];
    assert Front(next) == sessions;
    assert Split([]) == [[]];
    assert Numbered([], 1) == [];
  }

  lemma {:induction false} DeliveredLast(sessions: seq<Session>, s: Session)
    ensures Delivered(sessions + [s]) == Delivered(sessions) + Numbered(s.Lines(), 1)
  {
    assert Front(sessions + [s]) == sessions;
  }

  lemma {:induction false} ChunkDelivered(sessions: seq<Session>, s: Session, chunk: seq<Octet>, parts: seq<Str>)
    requires parts == Split(s.Rest() + Decode(Decode(Ready, s.bytes).decoder, chunk).units)
    ensures Delivered(sessions + [Session(s.base, s.bytes + chunk)])
         == Delivered(sessions + [s]) + Numbered(Front(parts), |s.Lines()| + 1)
  {
    ChunkSplits(s, chunk);
    DeliveredLast(sessions, s);
    DeliveredLast(sessions, Session(s.base, s.bytes + chunk));
  }

  lemma {:induction false} ChunkFollows(sessions: seq<Session>, emitted: seq<Emitted>, pos: nat, lineNumber: nat,
        carry: Str, decoder: Decoder, chunk: seq<Octet>, parts: seq<Str>)
    requires |sessions| > 0 && Follows(sessions, emitted, pos, lineNumber, carry, decoder)
    requires parts == Split(carry + Decode(decoder, chunk).units)
    ensures Follows(AfterRead(sessions, chunk), emitted + Numbered(Front(parts), lineNumber + 1), pos + |chunk|,
                    lineNumber + |parts| - 1, Last(parts), Decode(decoder, chunk).decoder)
  {
    var front, last := Front(sessions), Last(sessions);
    assert sessions == front + [last];
    ChunkSplits(last, chunk);
    ChunkDelivered(front, last, chunk, parts);
  }

  lemma {:induction false} EmptyChunk(sessions: seq<Session>)
    requires |sessions| > 0
    ensures AfterRead(sessions, []) == sessions
  {
    assert Last(sessions).bytes + [] == Last(sessions).bytes;
  }

  method EmitAll(parts: seq<Str>, lineNumber: nat) returns (emitted: seq<Emitted>)
    ensures emitted == Numbered(parts, lineNumber + 1)
  {
    emitted := [];
    for i := 0 to |parts|
      invariant emitted == Numbered(parts[..i], lineNumber + 1)
    {
      assert Front(parts[..i + 1]) == parts[..i];
      emitted := emitted + [Emitted(parts[i], lineNumber + i + 1)];
    }
    assert parts[..|parts|] == parts;
  }

  // One round: notice a truncation, read what is new, deliver the lines it completes.
  method Round(p: Poll, pos0: nat, lineNumber0: nat, carry0: Str, decoder0: Decoder, ghost sessions: seq<Session>,
        ghost emitted: seq<Emitted>)
    returns (lines: seq<Emitted>, pos: nat, lineNumber: nat, carry: Str, decoder: Decoder)
    requires |sessions| > 0 && Follows(sessions, emitted, pos0, lineNumber0, carry0, decoder0) && !Breaks(sessions, p)
    ensures Follows(AfterPoll(sessions, p), emitted + lines, pos, lineNumber, carry, decoder)
  {
    lines, pos, lineNumber, carry, decoder := [], pos0, lineNumber0, carry0, decoder0;
    if p.size < pos {
      RestartFollows(sessions, emitted);
      pos, carry, lineNumber, decoder := 0, [], 0, Ready;
    }
    ghost var seen := AfterStat(sessions, p);
    if p.size > pos {
      var chunk := Chunk(p, pos);
      var decoded := Decode(decoder, chunk);
      var parts := Split(carry + decoded.units);
      ChunkFollows(seen, emitted, pos, lineNumber, carry, decoder, chunk, parts);
      lines := EmitAll(Front(parts), lineNumber);
      decoder, pos, carry, lineNumber := decoded.decoder, pos + |chunk|, Last(parts), lineNumber + |parts| - 1;
    } else {
      EmptyChunk(seen);
      assert emitted + [] == emitted;
    }
  }

  lemma {:induction false} NextRound(size: nat, polls: seq<Poll>, n: nat)
    requires n < |polls| && RoundsDone(size, polls[..n]) == n && !Breaks(Sessions(size, polls[..n]), polls[n])
    ensures Sessions(size, polls[..n + 1]) == AfterPoll(Sessions(size, polls[..n]), polls[n])
    ensures RoundsDone(size, polls[..n + 1]) == n + 1
  {
    hide AfterPoll, Breaks;
    var longer := polls[..n + 1];
    assert longer == polls[..n] + [polls[n]];
    assert Front(longer) == polls[..n];
  }

  lemma {:induction false} StartFollows(size: nat)
    ensures Follows(Sessions(size, []), [], size, 0, [], Ready)
  {
    var sessions := Sessions(size, []);
    assert Front(sessions) == [];
    assert Split([]) == [[]];
    assert Numbered([], 1) == [];
  }

  // The round throws from this position.
  predicate Throws(p: Poll, pos: nat) {
    p.StatFails? || (p.ReadFails? && p.size > (if p.size < pos then 0 else pos))
  }

  lemma {:induction false} BreaksFrom(p: Poll, sessions: seq<Session>, emitted: seq<Emitted>, pos: nat, lineNumber: nat,
        carry: Str, decoder: Decoder)
    requires |sessions| > 0 && Follows(sessions, emitted, pos, lineNumber, carry, decoder)
    ensures Breaks(sessions, p) <==> Throws(p, pos)
  {
  }

  // The polling loop, from the file size at its start: it fails with the first round that throws, with
  // what was delivered before.
  method FollowFile(size: nat, polls: seq<Poll>)
    returns (emitted: seq<Emitted>, failed: bool, pos: nat, lineNumber: nat, carry: Str)
    ensures failed <==> RoundsDone(size, polls) < |polls|
    ensures var sessions := Sessions(size, polls[..RoundsDone(size, polls)]);
            && emitted == Delivered(sessions)
            && pos == Last(sessions).Pos()
            && lineNumber == |Last(sessions).Lines()|
            && carry == Last(sessions).Rest()
  {
    emitted, failed, pos, lineNumber, carry := [], false, size, 0, [];
    var decoder: Decoder := Ready;
    ghost var sessions := Sessions(size, []);
    StartFollows(size);
    var i := 0;
    while i < |polls|
      invariant 0 <= i <= |polls| && !failed
      invariant RoundsDone(size, polls[..i]) == i && sessions == Sessions(size, polls[..i])
      invariant Follows(sessions, emitted, pos, lineNumber, carry, decoder)
    {
      hide Sessions, AfterPoll, Follows, Breaks, RoundsDone, Delivered;
      BreaksFrom(polls[i], sessions, emitted, pos, lineNumber, carry, decoder);
      if Throws(polls[i], pos) {
        RoundsDoneAt(size, polls, i);
        failed := true;
        break;
      }
      var lines;
      lines, pos, lineNumber, carry, decoder := Round(polls[i], pos, lineNumber, carry, decoder, sessions, emitted);
      emitted := emitted + lines;
      sessions := AfterPoll(sessions, polls[i]);
      NextRound(size, polls, i);
      i := i + 1;
    }
    if !failed {
      assert polls[..i] == polls;
    }
  }

  // Reading at once: every piece is a line, the last one too.
  method ReadFileOnce(bytes: seq<Octet>) returns (emitted: seq<Emitted>)
    ensures emitted == Numbered(Split(DecodeAll(bytes)), 1)
  {
    var lines := Split(DecodeAll(bytes));
    emitted := EmitAll(lines, 0);
  }

  // ---- What following a file means ----

  // A truncation is noticed when the reported size is below the position reached.
  predicate Truncated(size: nat, polls: seq<Poll>, i: nat)
    requires i < |polls|
  {
    !polls[i].StatFails? && polls[i].size < Last(Sessions(size, polls[..i])).Pos()
  }

  // The round that noticed the last truncation, or 0 with none, and the position reading went on from.
  function Since(size: nat, polls: seq<Poll>): (since: nat)
    ensures since <= |polls|
  {
    if polls == [] then 0
    else if Truncated(size, polls, |polls| - 1) then |polls| - 1
    else Since(size, Front(polls))
  }

  // Since then the file has only grown, into content.
  ghost predicate GrewInto(size: nat, polls: seq<Poll>, content: seq<Octet>) {
    && (forall i :: Since(size, polls) <= i < |polls| && polls[i].Sees? ==> polls[i].content <= content)
    && (Last(Sessions(size, polls)).base <= |content|)
  }

  lemma {:induction false} GrewBefore(size: nat, polls: seq<Poll>, content: seq<Octet>)
    requires GrewInto(size, polls, content)
    requires polls != [] && !Truncated(size, polls, |polls| - 1)
    ensures GrewInto(size, Front(polls), content)
  {
    forall i | Since(size, Front(polls)) <= i < |polls| - 1 && polls[i].Sees?
      ensures Front(polls)[i].content <= content
    {
      assert polls[i].content <= content;
    }
  }

  // The bytes of the current session are those of the file from its base up to the position reached.
  lemma {:induction false} ReadsTheFile(size: nat, polls: seq<Poll>, content: seq<Octet>)
    requires GrewInto(size, polls, content)
    ensures var s := Last(Sessions(size, polls));
            s.Pos() <= |content| && s.bytes == content[s.base..s.Pos()]
    decreases |polls|
  {
    if polls != [] {
      var front, p := Front(polls), Last(polls);
      if !Truncated(size, polls, |polls| - 1) {
        GrewBefore(size, polls, content);
        ReadsTheFile(size, front, content);
      }
      SinceNext(size, polls);
      hide Sessions, Since, Decode, Split;
      ChunkIsNext(Last(AfterStat(Sessions(size, front), p)), p, content);
    }
  }

  lemma {:induction false} SinceNext(size: nat, polls: seq<Poll>)
    requires polls != []
    ensures Sessions(size, polls) == AfterPoll(Sessions(size, Front(polls)), Last(polls))
    ensures Truncated(size, polls, |polls| - 1) <==>
              !Last(polls).StatFails? && Last(polls).size < Last(Sessions(size, Front(polls))).Pos()
    ensures Since(size, polls) < |polls|
  {
    assert Front(polls) == polls[..|polls| - 1];
  }

  lemma {:induction false} ChunkIsNext(s: Session, p: Poll, content: seq<Octet>)
    requires p.Sees? ==> p.content <= content
    requires s.Pos() <= |content| && s.bytes == content[s.base..s.Pos()]
    ensures var chunk := Chunk(p, s.Pos());
            s.Pos() + |chunk| <= |content| && s.bytes + chunk == content[s.base..s.Pos() + |chunk|]
  {
    var chunk := Chunk(p, s.Pos());
    if chunk != [] {
      assert p.content == content[..|p.content|];
      assert chunk == content[s.Pos()..s.Pos() + |chunk|];
    }
  }

  // Lines delivered stay as they are whatever is read next: following never runs ahead of the text.
  lemma {:induction false} LinesOnlyGrow(s: Session, more: seq<Octet>)
    ensures s.Lines() <= Session(s.base, s.bytes + more).Lines()
  {
    ChunkSplits(s, more);
  }

  lemma {:induction false} FlushAddsNoLine(s: Session)
    ensures var all := Split(DecodeAll(s.bytes));
            Front(all) == s.Lines() && Last(all) == s.Rest() + Flush(Decode(Ready, s.bytes).decoder)
  {
    var decoded := Decode(Ready, s.bytes);
    var flushed := Flush(decoded.decoder);
    SplitAppend(decoded.units, flushed);
    PiecesHaveNoLF(decoded.units);
    SplitNoLF(s.Rest() + flushed);
  }

  // Once a file read from its beginning has been read to its end, the lines of this session are those of reading it at
  // once, all but the last; and the last is what the loop carries, plus U+FFFD if the file ends inside a sequence.
  lemma {:induction false} FollowingIsReadingOnce(size: nat, polls: seq<Poll>, content: seq<Octet>)
    requires GrewInto(size, polls, content)
    requires Last(Sessions(size, polls)).base == 0 && Last(Sessions(size, polls)).Pos() == |content|
    ensures var s := Last(Sessions(size, polls));
            var once := Split(DecodeAll(content));
            s.Lines() == Front(once) && s.Rest() + Flush(Decode(Ready, content).decoder) == Last(once)
  {
    ReadsTheFile(size, polls, content);
    var s := Last(Sessions(size, polls));
    assert content[0..|content|] == content;
    FlushAddsNoLine(s);
  }

  lemma {:induction false} PartOfText(s: Session, rest: seq<Octet>, text: seq<Point>)
    requires s.bytes + rest == Encode(text)
    ensures s.Lines() <= Split(Text(text))
    ensures rest == [] ==> s.Lines() + [s.Rest()] == Split(Text(text))
  {
    RoundTrip(text);
    LinesOnlyGrow(s, rest);
    if rest == [] {
      assert s.bytes == Encode(text);
    }
  }

  // A file of text written in UTF-8: whatever the chunks, the lines followed are the text's own, never one that is not
  // there, and all but the unfinished one at the end.
  lemma {:induction false} FollowsWrittenText(size: nat, polls: seq<Poll>, text: seq<Point>)
    requires GrewInto(size, polls, Encode(text))
    requires Last(Sessions(size, polls)).base == 0
    ensures var s := Last(Sessions(size, polls));
            && s.Lines() <= Split(Text(text))
            && (s.Pos() == |Encode(text)| ==> s.Lines() + [s.Rest()] == Split(Text(text)))
  {
    hide Sessions, Since, GrewInto, Decode, Split, Encode;
    var content := Encode(text);
    ReadsTheFile(size, polls, content);
    var s := Last(Sessions(size, polls));
    var rest := content[s.Pos()..];
    assert s.bytes == content[..s.Pos()];
    assert s.bytes + rest == content;
    PartOfText(s, rest, text);
  }

  // In every session the lines are numbered from 1 without gaps.
  lemma {:induction false} NumberedFromOne(lines: seq<Str>, first: nat, i: nat)
    requires i < |lines|
    ensures |Numbered(lines, first)| == |lines| && Numbered(lines, first)[i] == Emitted(lines[i], first + i)
  {
    if |lines| > 1 {
      NumberedFromOne(Front(lines), first, if i < |lines| - 1 then i else 0);
    }
  }
}
