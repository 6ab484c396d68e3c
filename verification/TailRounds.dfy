// What each round of following a file adds, and that a file that stops growing is read to its end.
module TailRounds {
  import opened Wrappers
  import opened Json
  import opened Lines
  import opened Utf8
  import opened Tail

  // The position before the k-th round.
  ghost function PosBefore(size: nat, polls: seq<Poll>, k: nat): nat
    requires k <= |polls|
  {
    Last(Sessions(size, polls[..k])).Pos()
  }

  // A round starts over, from position 0, exactly when it sees a file shorter than the position reached.
  predicate StartsOver(p: Poll, pos: nat) {
    (p.Sees? || p.ReadFails?) && p.size < pos
  }

  // One round: what was read before stays; the first new byte is the one at the position; as many are read as the file
  // has, the stat reported and the read delivers, so at least one if these three allow one.
  lemma {:induction false} RoundReads(sessions: seq<Session>, p: Poll)
    requires |sessions| > 0
    ensures var pos, next := Last(sessions).Pos(), AfterPoll(sessions, p);
            var start := if StartsOver(p, pos) then Session(0, []) else Last(sessions);
            var read := Last(next).Pos() - start.Pos();
            && Front(next) == (if StartsOver(p, pos) then sessions else Front(sessions))
            && Last(next).base == start.base
            && 0 <= read
            && (p.StatFails? || p.ReadFails? ==> read == 0)
            && (p.Sees? ==>
                && read <= p.limit
                && (read > 0 ==> start.Pos() + read <= p.size && start.Pos() + read <= |p.content|)
                && (read == p.limit || p.size <= start.Pos() + read || |p.content| <= start.Pos() + read)
                && (read > 0 ==> Last(next).bytes == start.bytes + p.content[start.Pos()..start.Pos() + read])
                && (read == 0 ==> Last(next).bytes == start.bytes))
  {
    var seen := AfterStat(sessions, p);
    var s := Last(seen);
    var chunk := Chunk(p, s.Pos());
    assert s.bytes + [] == s.bytes;
    assert AfterPoll(sessions, p) == Front(seen) + [Session(s.base, s.bytes + chunk)];
    assert Front(AfterPoll(sessions, p)) == Front(seen);
    assert StartsOver(p, Last(sessions).Pos()) ==> Front(seen) == sessions;
  }

  lemma {:induction false} BasesStay(sessions: seq<Session>, p: Poll, i: nat)
    requires |sessions| > 0 && i < |AfterPoll(sessions, p)|
    ensures |sessions| <= |AfterPoll(sessions, p)|
    ensures AfterPoll(sessions, p)[i].base == if i < |sessions| then sessions[i].base else 0
  {
  }

  // Following starts at the end of the file, and after a truncation at its beginning.
  lemma {:induction false} StartsAtEnd(size: nat, polls: seq<Poll>, i: nat)
    requires i < |Sessions(size, polls)|
    ensures Sessions(size, polls)[i].base == if i == 0 then size else 0
    ensures polls == [] ==> Sessions(size, polls) == [Session(size, [])]
    decreases |polls|
  {
    hide AfterPoll;
    if polls != [] {
      var before := Sessions(size, Front(polls));
      BasesStay(before, Last(polls), i);
      if i < |before| {
        StartsAtEnd(size, Front(polls), i);
      }
    }
  }

  // A round throws exactly when its stat does, or when the file it sees cannot be read though it has another size than
  // the position reached and is not empty.
  predicate CannotGoOn(p: Poll, pos: nat) {
    p.StatFails? || (p.ReadFails? && p.size != 0 && p.size != pos)
  }

  lemma {:induction false} BreaksIs(sessions: seq<Session>, p: Poll)
    requires |sessions| > 0
    ensures Breaks(sessions, p) <==> CannotGoOn(p, Last(sessions).Pos())
  {
  }

  // The k-th round would throw.
  ghost predicate ThrowsAt(size: nat, polls: seq<Poll>, k: nat)
    requires k < |polls|
  {
    CannotGoOn(polls[k], PosBefore(size, polls, k))
  }

  lemma {:induction false} FrontThrows(size: nat, polls: seq<Poll>, k: nat)
    requires k < |polls| - 1
    ensures ThrowsAt(size, Front(polls), k) <==> ThrowsAt(size, polls, k)
  {
    assert Front(polls)[..k] == polls[..k];
  }

  lemma {:induction false} LastBreaks(size: nat, polls: seq<Poll>)
    requires polls != []
    ensures Breaks(Sessions(size, Front(polls)), Last(polls)) <==> ThrowsAt(size, polls, |polls| - 1)
  {
    assert Front(polls) == polls[..|polls| - 1];
    BreaksIs(Sessions(size, Front(polls)), Last(polls));
  }

  // The loop ends with the first round that throws and with no other.
  lemma {:induction false} EndsWithFirst(size: nat, polls: seq<Poll>, k: nat)
    requires k < |polls| && k <= RoundsDone(size, polls)
    ensures ThrowsAt(size, polls, k) <==> k == RoundsDone(size, polls)
    decreases |polls|
  {
    hide Sessions, Breaks, ThrowsAt;
    LastBreaks(size, polls);
    if k < |polls| - 1 {
      FrontThrows(size, polls, k);
      EndsWithFirst(size, Front(polls), k);
    }
  }

  // ---- Delivery ----

  // Sessions deliver one after the other, each the lines of its bytes numbered from 1.
  lemma {:induction false} DeliveredInOrder(a: seq<Session>, b: seq<Session>)
    ensures Delivered(a + b) == Delivered(a) + Delivered(b)
    decreases |b|
  {
    hide Numbered, Split, Decode;
    if b == [] {
      assert a + b == a;
    } else {
      assert Front(a + b) == a + Front(b);
      DeliveredInOrder(a, Front(b));
      var first, middle, last := Delivered(a), Delivered(Front(b)), Numbered(Last(b).Lines(), 1);
      assert first + middle + last == first + (middle + last);
    }
  }

  lemma {:induction false} DeliveredOnce(s: Session, k: nat)
    requires k < |s.Lines()|
    ensures |Delivered([s])| == |s.Lines()| && Delivered([s])[k] == Emitted(s.Lines()[k], k + 1)
  {
    hide Decode, Split;
    assert Front([s]) == [];
    assert Delivered([s]) == Numbered(s.Lines(), 1);
    NumberedFromOne(s.Lines(), 1, k);
  }

  // ---- Progress ----

  // A round that sees the whole file, and whose read delivers something.
  predicate SeesAll(p: Poll, content: seq<Octet>) {
    p.Sees? && p.size == |content| && p.content == content && p.limit > 0
  }

  lemma {:induction false} OneCloser(sessions: seq<Session>, p: Poll, content: seq<Octet>)
    requires |sessions| > 0 && SeesAll(p, content) && Last(sessions).Pos() <= |content|
    ensures var pos, next := Last(sessions).Pos(), Last(AfterPoll(sessions, p)).Pos();
            next <= |content| && (pos < |content| ==> pos < next) && (pos == |content| ==> next == pos)
  {
    hide AfterPoll;
    RoundReads(sessions, p);
  }

  // Once the file has stopped growing every round comes closer to its end: with as many rounds as bytes were missing,
  // and with any more, it is reached.
  lemma {:induction false} CatchesUp(size: nat, polls: seq<Poll>, content: seq<Octet>, k: nat)
    requires k <= |polls| && PosBefore(size, polls, k) <= |content|
    requires forall i :: k <= i < |polls| ==> SeesAll(polls[i], content)
    ensures var pos := PosBefore(size, polls, |polls|);
            && pos <= |content|
            && (pos == |content| || pos >= PosBefore(size, polls, k) + |polls| - k)
    decreases |polls|
  {
    hide AfterPoll;
    assert polls[..|polls|] == polls;
    if k < |polls| {
      var front := Front(polls);
      assert front[..k] == polls[..k] && front[..|front|] == front;
      CatchesUp(size, front, content, k);
      assert SeesAll(polls[|polls| - 1], content);
      OneCloser(Sessions(size, front), Last(polls), content);
    }
  }
}
