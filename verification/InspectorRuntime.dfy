// The gate between an inspector and its writer, with its error counter.
module InspectorRuntime {
  import opened Wrappers
  import opened Trace

  // What a call meets: `prepared` is the row after preparation, none if it is refused; `fault` the message
  // of what the writer throws.
  datatype Op<E> =
    | Write(prepared: Option<E>, fault: Option<string>)
    | Flush(fault: Option<string>)
    | Close(fault: Option<string>)

  function NormalizeError(message: string): string {
    if IsBlank(message) then "Unknown inspector runtime error" else message
  }

  class Runtime<E(==)> {
    const enabled: bool
    const hasWriter: bool
    var closed: bool
    var instrumentationErrors: nat
    var lastInstrumentationError: Option<string>
    // What the writer has accepted, and how often it was closed.
    ghost var delivered: seq<E>
    ghost var closings: nat
    // The calls so far.
    ghost var history: seq<Op<E>>

    ghost predicate Valid()
      reads this
    {
      && closed == (Closings(history) > 0)
      && closings == (if hasWriter && closed then 1 else 0)
      && delivered == Delivered(enabled && hasWriter, history)
      && instrumentationErrors == |Faults(enabled, hasWriter, history)|
      && lastInstrumentationError == LastFault(Faults(enabled, hasWriter, history))
    }

    constructor (enabled: bool, hasWriter: bool)
      ensures Valid() && history == [] && this.enabled == enabled && this.hasWriter == hasWriter
    {
      this.enabled := enabled;
      this.hasWriter := hasWriter;
      closed := false;
      instrumentationErrors := 0;
      lastInstrumentationError := None;
      delivered := [];
      closings := 0;
      history := [];
    }

    method RecordInstrumentationError(message: string)
      modifies this
      ensures instrumentationErrors == old(instrumentationErrors) + 1
      ensures lastInstrumentationError == Some(NormalizeError(message))
      ensures unchanged(this`closed, this`delivered, this`closings, this`history)
    {
      instrumentationErrors := instrumentationErrors + 1;
      lastInstrumentationError := Some(NormalizeError(message));
    }

    method DoWrite(prepared: Option<E>, fault: Option<string>)
      requires Valid()
      modifies this
      ensures Valid() && history == old(history) + [Write(prepared, fault)]
    {
      HistorySnoc(enabled, hasWriter, history, Write(prepared, fault));
      history := history + [Write(prepared, fault)];
      if !enabled || closed || !hasWriter {
        return;
      }
      if prepared.None? {
        RecordInstrumentationError("Invalid persisted inspect event");
        return;
      }
      if fault.Some? {
        RecordInstrumentationError(fault.value);
      } else {
        delivered := delivered + [prepared.value];
      }
    }

    method DoFlush(fault: Option<string>)
      requires Valid()
      modifies this
      ensures Valid() && history == old(history) + [Flush(fault)]
    {
      HistorySnoc(enabled, hasWriter, history, Op<E>.Flush(fault));
      history := history + [Flush(fault)];
      if !hasWriter {
        return;
      }
      if fault.Some? {
        RecordInstrumentationError(fault.value);
      }
    }

    method DoClose(fault: Option<string>)
      requires Valid()
      modifies this
      ensures Valid() && history == old(history) + [Close(fault)]
    {
      HistorySnoc(enabled, hasWriter, history, Op<E>.Close(fault));
      history := history + [Close(fault)];
      if closed {
        return;
      }
      if hasWriter {
        closings := closings + 1;
        if fault.Some? {
          RecordInstrumentationError(fault.value);
        }
      }
      closed := true;
    }
  }

  // ---- What a history of calls comes to ----

  function Closings<E>(history: seq<Op<E>>): nat {
    if history == [] then 0
    else Closings(history[..|history| - 1]) + (if history[|history| - 1].Close? then 1 else 0)
  }

  // The rows of the writes before the first close that were valid and that the writer took.
  function Delivered<E>(live: bool, history: seq<Op<E>>): seq<E> {
    if history == [] then []
    else
      var front, op := history[..|history| - 1], history[|history| - 1];
      Delivered(live, front)
      + (if live && Closings(front) == 0 && op.Write? && op.prepared.Some? && op.fault.None? then [op.prepared.value]
         else [])
  }

  // The messages of the errors met by one call, after `earlier` closes.
  function FaultOf<E>(enabled: bool, hasWriter: bool, earlier: nat, op: Op<E>): seq<string> {
    if !hasWriter then []
    else
      match op
      case Write(prepared, fault) =>
        if !enabled || earlier > 0 then []
        else if prepared.None? then [NormalizeError("Invalid persisted inspect event")]
        else if fault.Some? then [NormalizeError(fault.value)]
        else []
      case Flush(fault) => if fault.Some? then [NormalizeError(fault.value)] else []
      case Close(fault) => if earlier == 0 && fault.Some? then [NormalizeError(fault.value)] else []
  }

  function Faults<E>(enabled: bool, hasWriter: bool, history: seq<Op<E>>): seq<string> {
    if history == [] then []
    else
      var front := history[..|history| - 1];
      Faults(enabled, hasWriter, front) + FaultOf(enabled, hasWriter, Closings(front), history[|history| - 1])
  }

  function LastFault(faults: seq<string>): Option<string> {
    if faults == [] then None else Some(faults[|faults| - 1])
  }

  lemma {:induction false} HistorySnoc<E>(enabled: bool, hasWriter: bool, history: seq<Op<E>>, op: Op<E>)
    ensures var longer := history + [op];
            && Closings(longer) == Closings(history) + (if op.Close? then 1 else 0)
            && Delivered(enabled && hasWriter, longer) == Delivered(enabled && hasWriter, history)
               + (if enabled && hasWriter && Closings(history) == 0
                     && op.Write? && op.prepared.Some? && op.fault.None?
                  then [op.prepared.value] else [])
            && Faults(enabled, hasWriter, longer)
                == Faults(enabled, hasWriter, history) + FaultOf(enabled, hasWriter, Closings(history), op)
  {
    assert (history + [op])[..|history|] == history;
  }

  // ---- Conservation ----

  // Writes before the first close; those of them that were refused or failed; flushes that failed;
  // whether the first close failed.
  function OpenWrites<E>(history: seq<Op<E>>): nat {
    if history == [] then 0
    else
      var front, op := history[..|history| - 1], history[|history| - 1];
      OpenWrites(front) + (if Closings(front) == 0 && op.Write? then 1 else 0)
  }

  function LostWrites<E>(history: seq<Op<E>>): nat {
    if history == [] then 0
    else
      var front, op := history[..|history| - 1], history[|history| - 1];
      LostWrites(front) + (if Closings(front) == 0 && op.Write? && (op.prepared.None? || op.fault.Some?) then 1 else 0)
  }

  function FailedFlushes<E>(history: seq<Op<E>>): nat {
    if history == [] then 0
    else
      var op := history[|history| - 1];
      FailedFlushes(history[..|history| - 1]) + (if op.Flush? && op.fault.Some? then 1 else 0)
  }

  predicate CloseFailed<E>(history: seq<Op<E>>) {
    exists i :: 0 <= i < |history| && history[i].Close? && history[i].fault.Some? && Closings(history[..i]) == 0
  }

  // Whatever the calls: each write before the first close ends in a row delivered or in one error, never both and never
  // neither, and the errors counted are those, the failed flushes and a failed first close.
  lemma {:induction false} WritesConserved<E>(enabled: bool, hasWriter: bool, history: seq<Op<E>>)
    ensures enabled && hasWriter ==> |Delivered(true, history)| + LostWrites(history) == OpenWrites(history)
    ensures |Faults(enabled, hasWriter, history)| ==
            if !hasWriter then 0
            else
              (if enabled then LostWrites(history) else 0) + FailedFlushes(history)
              + (if CloseFailed(history) then 1 else 0)
  {
    if history != [] {
      var front, op := history[..|history| - 1], history[|history| - 1];
      WritesConserved(enabled, hasWriter, front);
      CloseFailedSnoc(history);
    }
  }

  lemma {:induction false} CloseFailedSnoc<E>(history: seq<Op<E>>)
    requires history != []
    ensures var front, op := history[..|history| - 1], history[|history| - 1];
            && (CloseFailed(history) <==> CloseFailed(front) || (op.Close? && op.fault.Some? && Closings(front) == 0))
            && !(CloseFailed(front) && Closings(front) == 0)
  {
    var front, n := history[..|history| - 1], |history| - 1;
    forall i | 0 <= i < n
      ensures front[..i] == history[..i] && front[i] == history[i]
    {
    }
    if CloseFailed(history) {
      var i :| 0 <= i < |history| && history[i].Close? && history[i].fault.Some? && Closings(history[..i]) == 0;
      assert i < n ==> front[i].Close? && front[i].fault.Some? && Closings(front[..i]) == 0;
      assert i == n ==> history[..i] == front;
    }
    if CloseFailed(front) {
      var i :| 0 <= i < n && front[i].Close? && front[i].fault.Some? && Closings(front[..i]) == 0;
      assert history[i].Close? && history[i].fault.Some? && Closings(history[..i]) == 0;
      ClosedIn(front, i);
    }
    if history[n].Close? && history[n].fault.Some? && Closings(front) == 0 {
      assert Closings(history[..n]) == 0;
    }
  }

  lemma {:induction false} ClosedIn<E>(history: seq<Op<E>>, i: nat)
    requires i < |history| && history[i].Close?
    ensures Closings(history) > 0
  {
    if i < |history| - 1 {
      ClosedIn(history[..|history| - 1], i);
    }
  }

  // After a close nothing more is delivered, whatever is called.
  lemma {:induction false} NothingAfterClose<E>(live: bool, before: seq<Op<E>>, fault: Option<string>,
        after: seq<Op<E>>)
    ensures Closings(before + [Close(fault)] + after) > 0
    ensures Delivered(live, before + [Close(fault)] + after) == Delivered(live, before)
    decreases |after|
  {
    var all := before + [Close(fault)] + after;
    if after == [] {
      assert all[..|before|] == before;
    } else {
      var front := after[..|after| - 1];
      NothingAfterClose(live, before, fault, front);
      assert all[..|all| - 1] == before + [Close(fault)] + front;
    }
  }

  // ---- Call by call ----

  predicate StillOpen<E>(history: seq<Op<E>>, k: nat)
    requires k <= |history|
  {
    forall i :: 0 <= i < k ==> !history[i].Close?
  }

  // The k-th call hands a row to the writer, and the writer takes it.
  predicate Takes<E>(history: seq<Op<E>>, k: nat)
    requires k < |history|
  {
    StillOpen(history, k) && history[k].Write? && history[k].prepared.Some? && history[k].fault.None?
  }

  function TakenBefore<E>(history: seq<Op<E>>, k: nat): nat
    requires k <= |history|
  {
    if k == 0 then 0 else TakenBefore(history, k - 1) + (if Takes(history, k - 1) then 1 else 0)
  }

  lemma {:induction false} OpenIs<E>(history: seq<Op<E>>)
    ensures Closings(history) == 0 <==> StillOpen(history, |history|)
  {
    if history != [] {
      var front := history[..|history| - 1];
      OpenIs(front);
      assert forall i :: 0 <= i < |front| ==> front[i] == history[i];
    }
  }

  lemma {:induction false} TakenInFront<E>(history: seq<Op<E>>, k: nat)
    requires history != [] && k < |history|
    ensures TakenBefore(history[..|history| - 1], k) == TakenBefore(history, k)
  {
    if k > 0 {
      TakenInFront(history, k - 1);
      var front := history[..|history| - 1];
      assert forall i :: 0 <= i < k ==> front[i] == history[i];
    }
  }

  // The rows delivered are those of the calls that hand one over before any close, in the order of the calls.
  lemma {:induction false} DeliveredByCalls<E>(history: seq<Op<E>>, k: nat)
    requires k < |history|
    ensures |Delivered(true, history)| == TakenBefore(history, |history|)
    ensures Takes(history, k) ==>
              && TakenBefore(history, k) < |Delivered(true, history)|
              && Delivered(true, history)[TakenBefore(history, k)] == history[k].prepared.value
    ensures Delivered(false, history) == []
  {
    var n := |history| - 1;
    var front := history[..n];
    TakenInFront(history, k);
    TakenInFront(history, n);
    OpenIs(front);
    assert forall i :: 0 <= i < n ==> front[i] == history[i];
    if k < n {
      DeliveredByCalls(front, k);
      assert Takes(front, k) <==> Takes(history, k);
    } else if n > 0 {
      DeliveredByCalls(front, 0);
    }
  }

  // The k-th call meets an error with this message.
  predicate Fails<E>(enabled: bool, history: seq<Op<E>>, k: nat, message: string)
    requires k < |history|
  {
    match history[k]
    case Write(prepared, fault) =>
      enabled && StillOpen(history, k)
      && if prepared.None? then message == "Invalid persisted inspect event" else fault == Some(message)
    case Flush(fault) => fault == Some(message)
    case Close(fault) => StillOpen(history, k) && fault == Some(message)
  }

  ghost predicate Quiet<E>(enabled: bool, history: seq<Op<E>>, k: nat)
    requires k < |history|
  {
    forall message :: !Fails(enabled, history, k, message)
  }

  // The error remembered is the last one met, under its message or, for a blank one, under a fixed text.
  lemma {:induction false} LastErrorByCalls<E>(enabled: bool, history: seq<Op<E>>, k: nat, message: string)
    requires k < |history| && Fails(enabled, history, k, message)
    requires forall i :: k < i < |history| ==> Quiet(enabled, history, i)
    ensures LastFault(Faults(enabled, true, history))
         == Some(if IsBlank(message) then "Unknown inspector runtime error" else message)
  {
    var n := |history| - 1;
    var front := history[..n];
    OpenIs(front);
    assert forall i :: 0 <= i < n ==> front[i] == history[i];
    if k < n {
      forall i | k < i < n
        ensures Quiet(enabled, front, i)
      {
        assert Quiet(enabled, history, i);
        assert forall m :: Fails(enabled, front, i, m) ==> Fails(enabled, history, i, m);
      }
      LastErrorByCalls(enabled, front, k, message);
      NoFault(enabled, history);
    }
  }

  lemma {:induction false} NoFault<E>(enabled: bool, history: seq<Op<E>>)
    requires history != [] && Quiet(enabled, history, |history| - 1)
    ensures Faults(enabled, true, history) == Faults(enabled, true, history[..|history| - 1])
  {
    var n := |history| - 1;
    var front := history[..n];
    OpenIs(front);
    assert forall i :: 0 <= i < n ==> front[i] == history[i];
    assert !Fails(enabled, history, n, "Invalid persisted inspect event");
    var fault := history[n].fault;
    assert fault.Some? ==> !Fails(enabled, history, n, fault.value);
  }
}
