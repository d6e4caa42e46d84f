/**
 The outgoing queue of the control channel and the non-blocking writer it drains into.

 A writer is an arbitrary sequence of answers, one for each call: it may take part of what it is offered, take
 nothing because it would block or was interrupted, report that it is closed, or fail.
 */
module OutboundModel {
  import opened Bytes

  const CAPACITY := 524288
  const FLUSH_BYTES := 65536
  const FLUSH_CALLS := 128
  const STALL := 3000

  /** What the writer does with one call; `Take(n)` accepts at most `n` of the bytes it is offered. */
  datatype Answer = Take(n: nat) | WouldBlock(now: nat) | Interrupted | Fail

  datatype Writer = Writer(answers: nat -> Answer, calls: nat, written: seq<byte>)

  datatype OutError = Backlog | Closed | Stalled | Broken

  datatype Queue = Queue(records: seq<seq<byte>>, offset: nat, bytes: nat, stalledSince: Option<nat>)

  /** Partly written records at the front still owe what is beyond `offset`. */
  predicate QueueOk(q: Queue) {
    && q.bytes <= CAPACITY
    && (if q.records == [] then q.offset == 0 else q.offset == 0 || q.offset < |q.records[0]|)
    && q.bytes + q.offset == |Concat(q.records)|
  }

  /** The bytes that are accepted but not yet written. */
  function Queued(q: Queue): seq<byte>
    requires QueueOk(q)
  {
    Concat(q.records)[q.offset..]
  }

  const EMPTY := Queue([], 0, 0, None)

  lemma EmptyOk()
    ensures QueueOk(EMPTY) && Queued(EMPTY) == []
  {
  }

  // ----- push

  function Push(q: Queue, wire: seq<byte>): (Queue, Option<OutError>) {
    if q.bytes + |wire| > CAPACITY then (q, Some(Backlog))
    else (q.(records := q.records + [wire], bytes := q.bytes + |wire|), None)
  }

  lemma FrontOffset(records: seq<seq<byte>>, offset: nat)
    requires records != [] && offset <= |records[0]|
    ensures Concat(records) == records[0] + Concat(records[1..]) && offset <= |Concat(records)|
  {
  }

  lemma PushOk(q: Queue, wire: seq<byte>)
    requires QueueOk(q)
    ensures QueueOk(Push(q, wire).0)
    ensures Push(q, wire).1.None? ==> Queued(Push(q, wire).0) == Queued(q) + wire
    ensures Push(q, wire).1.Some? ==> Push(q, wire).0 == q
    ensures Push(q, wire).1.None? <==> |Queued(q)| + |wire| <= CAPACITY
  {
    ConcatAppend(q.records, wire);
    if q.records != [] {
      FrontOffset(q.records, q.offset);
      assert (q.records + [wire])[0] == q.records[0];
    }
    assert (Concat(q.records) + wire)[q.offset..] == Concat(q.records)[q.offset..] + wire;
  }

  // ----- flush

  /** What one call offers the writer: the rest of the front record, within the budget. */
  function Offer(q: Queue, budget: nat): seq<byte>
    requires QueueOk(q) && q.records != []
  {
    FrontOffset(q.records, q.offset);
    q.records[0][q.offset..q.offset + Min(budget, |q.records[0]| - q.offset)]
  }

  function Called(w: Writer, taken: seq<byte>): Writer {
    w.(calls := w.calls + 1, written := w.written + taken)
  }

  /** The queue after the writer took `n` bytes. */
  function Advance(q: Queue, n: nat): Queue
    requires QueueOk(q) && q.records != [] && n <= |q.records[0]| - q.offset && n <= q.bytes
  {
    if q.offset + n == |q.records[0]| then Queue(q.records[1..], 0, q.bytes - n, None)
    else Queue(q.records, q.offset + n, q.bytes - n, None)
  }

  lemma AdvanceOk(q: Queue, n: nat)
    requires QueueOk(q) && q.records != [] && 0 < n <= |q.records[0]| - q.offset
    ensures n <= q.bytes && QueueOk(Advance(q, n))
    ensures Queued(q) == q.records[0][q.offset..q.offset + n] + Queued(Advance(q, n))
  {
    FrontOffset(q.records, q.offset);
    var f, rest := Concat(q.records), Concat(q.records[1..]);
    assert f[q.offset..] == f[q.offset..q.offset + n] + f[q.offset + n..];
    assert f[q.offset..q.offset + n] == q.records[0][q.offset..q.offset + n];
    if q.offset + n == |q.records[0]| {
      assert f[q.offset + n..] == rest == rest[0..];
    }
  }

  datatype Flushed = Flushed(q: Queue, w: Writer, error: Option<OutError>)

  function FlushFrom(q: Queue, w: Writer, budget: nat, attempts: nat): Flushed
    requires QueueOk(q) && budget > 0
    decreases attempts
  {
    if q.records == [] || attempts == 0 then Flushed(q, w, None)
    else
      match w.answers(w.calls)
      case Take(n) =>
        var offer := Offer(q, budget);
        var n := Min(n, |offer|);
        if n == 0 then Flushed(q, Called(w, []), Some(Closed))
        else
          AdvanceOk(q, n);
          var q, w := Advance(q, n), Called(w, offer[..n]);
          if budget == n then Flushed(q, w, None) else FlushFrom(q, w, budget - n, attempts - 1)
      case WouldBlock(now) =>
        var began := if q.stalledSince.Some? then q.stalledSince.value else now;
        Flushed(q.(stalledSince := Some(began)), Called(w, []),
                if SatSub(now, began) < STALL then None else Some(Stalled))
      case Interrupted => FlushFrom(q, Called(w, []), budget, attempts - 1)
      case Fail => Flushed(q, Called(w, []), Some(Broken))
  }

  lemma FlushTake(q: Queue, w: Writer, budget: nat, attempts: nat, n: nat)
    requires QueueOk(q) && budget > 0 && q.records != [] && attempts > 0
    requires w.answers(w.calls).Take? && n == Min(w.answers(w.calls).n, |Offer(q, budget)|)
    ensures n == 0 ==> FlushFrom(q, w, budget, attempts) == Flushed(q, Called(w, []), Some(Closed))
    ensures n > 0 ==>
      && n <= q.bytes && n <= budget && QueueOk(Advance(q, n))
      && (var p, v := Advance(q, n), Called(w, Offer(q, budget)[..n]);
          FlushFrom(q, w, budget, attempts)
            == if n == budget then Flushed(p, v, None) else FlushFrom(p, v, budget - n, attempts - 1))
  {
    hide QueueOk, Advance;
    QueueFront(q);
    if n > 0 {
      AdvanceOk(q, n);
    }
  }

  lemma FlushEnds(q: Queue, w: Writer, budget: nat, attempts: nat)
    requires QueueOk(q) && budget > 0 && (q.records == [] || attempts == 0)
    ensures FlushFrom(q, w, budget, attempts) == Flushed(q, w, None)
  {
  }

  /** `began.elapsed()` is past the limit, or the flush waits. */
  lemma FlushOther(q: Queue, w: Writer, budget: nat, attempts: nat)
    requires QueueOk(q) && budget > 0 && q.records != [] && attempts > 0 && !w.answers(w.calls).Take?
    ensures match w.answers(w.calls)
            case WouldBlock(now) =>
              var began := if q.stalledSince.Some? then q.stalledSince.value else now;
              FlushFrom(q, w, budget, attempts) == Flushed(q.(stalledSince := Some(began)), Called(w, []),
                                                           if SatSub(now, began) < STALL then None else Some(Stalled))
            case Interrupted =>
              FlushFrom(q, w, budget, attempts) == FlushFrom(q, Called(w, []), budget, attempts - 1)
            case _ =>
              FlushFrom(q, w, budget, attempts) == Flushed(q, Called(w, []), Some(Broken))
  {
    hide QueueOk;
  }

  function Flush(q: Queue, w: Writer): Flushed
    requires QueueOk(q)
  {
    FlushFrom(q, w, FLUSH_BYTES, FLUSH_CALLS)
  }

  lemma TakenIsQueued(q: Queue, w: Writer, budget: nat, n: nat)
    requires QueueOk(q) && q.records != [] && 0 < n <= |Offer(q, budget)|
    ensures n <= q.bytes && QueueOk(Advance(q, n))
    ensures var v := Called(w, Offer(q, budget)[..n]); v.written + Queued(Advance(q, n)) == w.written + Queued(q)
  {
    hide QueueOk, Queued, Advance;
    FrontOffset(q.records, q.offset) by { QueueFront(q); }
    QueueFront(q);
    AdvanceOk(q, n);
    var taken := Offer(q, budget)[..n];
    assert taken == q.records[0][q.offset..q.offset + n];
    assert w.written + taken + Queued(Advance(q, n)) == w.written + (taken + Queued(Advance(q, n)));
  }

  lemma QueueFront(q: Queue)
    requires QueueOk(q) && q.records != []
    ensures q.offset <= |q.records[0]| && q.bytes <= CAPACITY
  {
  }

  /** One flush: nothing is lost or reordered, and it stays inside its two budgets. */
  lemma {:induction false} FlushConserves(q: Queue, w: Writer, budget: nat, attempts: nat)
    requires QueueOk(q) && budget > 0
    ensures var f := FlushFrom(q, w, budget, attempts);
            && QueueOk(f.q) && f.w.answers == w.answers
            && w.written <= f.w.written && f.w.written + Queued(f.q) == w.written + Queued(q)
            && |f.w.written| <= |w.written| + budget && w.calls <= f.w.calls <= w.calls + attempts
    decreases attempts
  {
    if q.records != [] && attempts > 0 {
      var answer := w.answers(w.calls);
      if answer.Take? {
        var n := Min(answer.n, |Offer(q, budget)|);
        if n > 0 {
          TakenIsQueued(q, w, budget, n);
          var v := Called(w, Offer(q, budget)[..n]);
          if budget != n {
            FlushConserves(Advance(q, n), v, budget - n, attempts - 1);
          }
        } else {
          assert w.written + [] == w.written;
        }
      } else if answer.Interrupted? {
        assert w.written + [] == w.written;
        FlushConserves(q, Called(w, []), budget, attempts - 1);
      } else {
        assert w.written + [] == w.written;
      }
    }
  }

  // ----- whole runs

  datatype Action = Queueing(wire: seq<byte>) | Flushing

  function Act(q: Queue, w: Writer, a: Action): Flushed
    requires QueueOk(q)
  {
    match a
    case Queueing(wire) => var (q, e) := Push(q, wire); Flushed(q, w, e)
    case Flushing => Flush(q, w)
  }

  lemma ActOk(q: Queue, w: Writer, a: Action)
    requires QueueOk(q)
    ensures var f := Act(q, w, a);
            && QueueOk(f.q) && f.w.answers == w.answers && w.written <= f.w.written
            && f.w.written + Queued(f.q)
               == w.written + Queued(q) + (if a.Queueing? && f.error.None? then a.wire else [])
  {
    hide Push, FlushFrom, Queued, QueueOk;
    match a
    case Queueing(wire) =>
      PushOk(q, wire);
      var p := Push(q, wire).0;
      assert w.written + (Queued(q) + wire) == w.written + Queued(q) + wire;
      assert w.written + Queued(q) + [] == w.written + Queued(q);
    case Flushing =>
      FlushConserves(q, w, FLUSH_BYTES, FLUSH_CALLS);
      assert w.written + Queued(q) + [] == w.written + Queued(q);
  }

  /** Any interleaving of pushes and flushes, each continuing after whatever the last one reported. */
  function RunQueue(q: Queue, w: Writer, actions: seq<Action>): (Queue, Writer)
    requires QueueOk(q)
    decreases |actions|
  {
    if actions == [] then (q, w)
    else
      ActOk(q, w, actions[0]);
      var f := Act(q, w, actions[0]);
      RunQueue(f.q, f.w, actions[1..])
  }

  /** Everything the queue accepted on the way. */
  function Accepted(q: Queue, w: Writer, actions: seq<Action>): seq<byte>
    requires QueueOk(q)
    decreases |actions|
  {
    if actions == [] then []
    else
      ActOk(q, w, actions[0]);
      var f := Act(q, w, actions[0]);
      (if actions[0].Queueing? && f.error.None? then actions[0].wire else []) + Accepted(f.q, f.w, actions[1..])
  }

  /** Bytes written followed by bytes still queued are always exactly what was accepted, in order. */
  lemma {:induction false} RunConserves(q: Queue, w: Writer, actions: seq<Action>)
    requires QueueOk(q)
    ensures var (p, v) := RunQueue(q, w, actions);
            && QueueOk(p) && p.bytes == |Queued(p)| <= CAPACITY && w.written <= v.written
            && v.written + Queued(p) == w.written + Queued(q) + Accepted(q, w, actions)
    decreases |actions|
  {
    hide Act;
    if actions == [] {
      assert w.written + Queued(q) + [] == w.written + Queued(q);
    } else {
      ActOk(q, w, actions[0]);
      var f := Act(q, w, actions[0]);
      RunConserves(f.q, f.w, actions[1..]);
      var one := if actions[0].Queueing? && f.error.None? then actions[0].wire else [];
      var rest := Accepted(f.q, f.w, actions[1..]);
      assert w.written + Queued(q) + one + rest == w.written + Queued(q) + (one + rest);
    }
  }

  // ----- why a flush stops

  predicate NoEmptyRecord(q: Queue) {
    forall i :: 0 <= i < |q.records| ==> |q.records[i]| > 0
  }

  /**
   With no empty record queued, "closed" is reported only by a writer that took nothing of a nonempty offer, and a
   flush that reports no error emptied the queue, used up one of its budgets, or was told to wait.
   */
  lemma {:induction false} FlushStops(q: Queue, w: Writer, budget: nat, attempts: nat)
    requires QueueOk(q) && NoEmptyRecord(q) && budget > 0
    ensures var f := FlushFrom(q, w, budget, attempts);
            && NoEmptyRecord(f.q)
            && (f.error == Some(Closed) ==> f.w.calls > 0 && f.w.answers(f.w.calls - 1) == Take(0) && f.q.records != [])
            && (f.error == Some(Broken) ==> f.w.calls > 0 && f.w.answers(f.w.calls - 1) == Fail)
            && (f.error.None? ==> || f.q.records == [] || |f.w.written| == |w.written| + budget
                                  || f.w.calls == w.calls + attempts
                                  || (f.w.calls > 0 && f.w.answers(f.w.calls - 1).WouldBlock?))
    decreases attempts
  {
    hide FlushFrom;
    if q.records == [] || attempts == 0 {
      FlushEnds(q, w, budget, attempts);
    } else if w.answers(w.calls).Take? {
      var n := Min(w.answers(w.calls).n, |Offer(q, budget)|);
      FlushTake(q, w, budget, attempts, n);
      if n > 0 && budget != n {
        FlushStops(Advance(q, n), Called(w, Offer(q, budget)[..n]), budget - n, attempts - 1);
      }
    } else {
      FlushOther(q, w, budget, attempts);
      if w.answers(w.calls).Interrupted? {
        FlushStops(q, Called(w, []), budget, attempts - 1);
      }
    }
  }

  /** A willing writer is reported as closed before it took anything exactly when the front record is empty. */
  lemma EmptyRecordReadsAsClosed(q: Queue, w: Writer)
    requires QueueOk(q) && q.records != [] && w.answers(w.calls).Take? && w.answers(w.calls).n > 0
    ensures Flush(q, w).error == Some(Closed) && Flush(q, w).w.written == w.written <==> q.records[0] == []
  {
    if q.records[0] != [] {
      var n := Min(w.answers(w.calls).n, |Offer(q, FLUSH_BYTES)|);
      AdvanceOk(q, n);
      var v := Called(w, Offer(q, FLUSH_BYTES)[..n]);
      if n != FLUSH_BYTES {
        FlushConserves(Advance(q, n), v, FLUSH_BYTES - n, FLUSH_CALLS - 1);
      }
    }
  }

  // ----- stalls

  /** `since` was the first time the writer said it would block after it last took anything. */
  predicate StallKnown(q: Queue, w: Writer) {
    q.stalledSince.Some? ==>
      exists i :: 0 <= i < w.calls && w.answers(i) == WouldBlock(q.stalledSince.value)
                  && forall j :: i < j < w.calls ==> !w.answers(j).Take?
  }

  lemma {:induction false} FlushStall(q: Queue, w: Writer, budget: nat, attempts: nat)
    requires QueueOk(q) && budget > 0 && StallKnown(q, w)
    ensures var f := FlushFrom(q, w, budget, attempts);
            && (f.error != Some(Closed) ==> StallKnown(f.q, f.w))
            && (f.error == Some(Stalled) ==>
                  && f.q.stalledSince.Some? && f.w.calls > 0 && f.w.answers(f.w.calls - 1).WouldBlock?
                  && f.w.answers(f.w.calls - 1).now >= f.q.stalledSince.value + STALL)
    decreases attempts
  {
    hide QueueOk;
    if q.records != [] && attempts > 0 {
      var answer := w.answers(w.calls);
      if answer.Take? {
        var n := Min(answer.n, |Offer(q, budget)|);
        if n > 0 {
          QueueFront(q);
          AdvanceOk(q, n);
          if budget != n {
            FlushStall(Advance(q, n), Called(w, Offer(q, budget)[..n]), budget - n, attempts - 1);
          }
        }
      } else if answer.Interrupted? {
        StallLater(q, w, q, []);
        FlushStall(q, Called(w, []), budget, attempts - 1);
      } else if answer.WouldBlock? {
        var p := q.(stalledSince := Some(if q.stalledSince.Some? then q.stalledSince.value else answer.now));
        StallLater(q, w, p, []);
      } else {
        StallLater(q, w, q, []);
      }
    }
  }

  lemma StallLater(q: Queue, w: Writer, p: Queue, taken: seq<byte>)
    requires StallKnown(q, w) && !w.answers(w.calls).Take?
    requires p.stalledSince == q.stalledSince
             || (q.stalledSince.None? && w.answers(w.calls).WouldBlock?
                 && p.stalledSince == Some(w.answers(w.calls).now))
    ensures StallKnown(p, Called(w, taken))
  {
    var v := Called(w, taken);
    if q.stalledSince.Some? {
      var i :| 0 <= i < w.calls && w.answers(i) == WouldBlock(q.stalledSince.value)
               && forall j :: i < j < w.calls ==> !w.answers(j).Take?;
      assert v.answers(i) == WouldBlock(p.stalledSince.value);
    } else if p.stalledSince.Some? {
      assert v.answers(w.calls) == WouldBlock(p.stalledSince.value);
    }
  }

  // ----- a writer that keeps up

  /** Every call takes at least a whole budget. */
  ghost predicate Eager(answers: nat -> Answer) {
    forall k: nat :: answers(k).Take? && answers(k).n >= FLUSH_BYTES
  }

  lemma EagerTakes(answers: nat -> Answer, k: nat)
    requires Eager(answers)
    ensures answers(k).Take? && answers(k).n >= FLUSH_BYTES
  {
  }

  /** The queue that holds just one record. */
  function OneRecord(wire: seq<byte>): Queue {
    Queue([wire], 0, |wire|, None)
  }

  lemma ConcatOne(wire: seq<byte>)
    ensures Concat([wire]) == wire
  {
    ConcatAppend([], wire);
    hide Concat;
    assert Concat([]) == [] by { ConcatNone(); }
    assert [] + [wire] == [wire];
    assert [] + wire == wire;
  }

  lemma ConcatNone()
    ensures Concat([]) == []
  {
  }

  lemma OneRecordPushed(wire: seq<byte>)
    requires 0 < |wire| < FLUSH_BYTES
    ensures Push(EMPTY, wire).0 == OneRecord(wire) && Push(EMPTY, wire).1 == None
  {
    assert EMPTY.records + [wire] == [wire];
  }

  lemma OneRecordOk(wire: seq<byte>)
    requires 0 < |wire| < FLUSH_BYTES
    ensures QueueOk(OneRecord(wire))
  {
    hide Concat;
    ConcatOne(wire);
  }

  lemma OneRecordGoes(wire: seq<byte>)
    requires 0 < |wire| < FLUSH_BYTES && QueueOk(OneRecord(wire))
    ensures Offer(OneRecord(wire), FLUSH_BYTES) == wire
    ensures Advance(OneRecord(wire), |wire|) == EMPTY
  {
    hide QueueOk;
    assert [wire][1..] == [] && wire[0..|wire|] == wire;
  }

  /** One flush is then enough for any record. */
  lemma EagerFlush(w: Writer, wire: seq<byte>)
    requires Eager(w.answers) && 0 < |wire| < FLUSH_BYTES
    ensures QueueOk(OneRecord(wire)) && Push(EMPTY, wire) == (OneRecord(wire), None)
    ensures Flush(OneRecord(wire), w) == Flushed(EMPTY, Called(w, wire), None)
  {
    hide QueueOk, FlushFrom, Push, Offer, Advance, Eager;
    EmptyOk();
    OneRecordPushed(wire);
    OneRecordOk(wire);
    OneRecordGoes(wire);
    EagerTakes(w.answers, w.calls);
    FlushTake(OneRecord(wire), w, FLUSH_BYTES, FLUSH_CALLS, |wire|);
    assert wire[..|wire|] == wire;
    FlushEnds(EMPTY, Called(w, wire), FLUSH_BYTES - |wire|, FLUSH_CALLS - 1);
  }
}
