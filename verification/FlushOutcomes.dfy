/** How a flush ends, from the writer's own answers: when it waits, when it has waited too long, and when it stops. */
module FlushOutcomes {
  import opened Bytes
  import opened OutboundModel

  /** Since when the writer has been blocked after `n` calls: the first refusal after it last took anything. */
  function BlockedSince(answers: nat -> Answer, n: nat): Option<nat> {
    if n == 0 then None
    else
      match answers(n - 1)
      case Take(_) => None
      case WouldBlock(now) => if BlockedSince(answers, n - 1).Some? then BlockedSince(answers, n - 1) else Some(now)
      case _ => BlockedSince(answers, n - 1)
  }

  /** The queue knows since when its writer has been blocked. */
  predicate Tracks(q: Queue, w: Writer) {
    q.stalledSince == BlockedSince(w.answers, w.calls)
  }

  /** The error that a flush reports when this was the answer to its last call. */
  predicate Reports(error: Option<OutError>, w: Writer)
    requires w.calls > 0
  {
    match w.answers(w.calls - 1)
    case Take(n) => error == if n == 0 then Some(Closed) else None
    case WouldBlock(now) =>
      var since := BlockedSince(w.answers, w.calls);
      since.Some? && error == if now >= since.value + 3000 then Some(Stalled) else None
    case Interrupted => error == None
    case Fail => error == Some(Broken)
  }

  /** Every answer of a flush but its last one let it go on. */
  predicate WentOn(answers: nat -> Answer, from: nat, to: nat) {
    forall i :: from <= i < to ==> answers(i).Interrupted? || (answers(i).Take? && answers(i).n > 0)
  }

  lemma WentOnFrom(answers: nat -> Answer, from: nat, to: nat)
    requires WentOn(answers, from + 1, to)
    requires answers(from).Interrupted? || (answers(from).Take? && answers(from).n > 0)
    ensures WentOn(answers, from, to)
  {
  }

  /** Until 3000 ms after the first refusal a blocked flush waits, then it is an error; other answers decide at once. */
  lemma {:induction false} FlushReports(q: Queue, w: Writer, budget: nat, attempts: nat)
    requires QueueOk(q) && NoEmptyRecord(q) && budget > 0 && Tracks(q, w)
    ensures var f := FlushFrom(q, w, budget, attempts);
            && f.w.answers == w.answers && w.calls <= f.w.calls
            && (f.error != Some(Closed) ==> Tracks(f.q, f.w))
            && (f.w.calls == w.calls ==> f.error.None?)
            && (f.w.calls > w.calls ==> Reports(f.error, f.w) && WentOn(w.answers, w.calls, f.w.calls - 1))
    decreases attempts
  {
    hide FlushFrom, QueueOk, Offer, Advance;
    if q.records == [] || attempts == 0 {
      FlushEnds(q, w, budget, attempts);
    } else if w.answers(w.calls).Take? {
      var n := Min(w.answers(w.calls).n, |Offer(q, budget)|);
      FlushTake(q, w, budget, attempts, n);
      OfferNonempty(q, budget);
      if n > 0 && budget != n {
        var p, v := Advance(q, n), Called(w, Offer(q, budget)[..n]);
        AdvanceKeeps(q, n);
        FlushReports(p, v, budget - n, attempts - 1);
        var f := FlushFrom(p, v, budget - n, attempts - 1);
        if f.w.calls > v.calls {
          WentOnFrom(w.answers, w.calls, f.w.calls - 1);
        }
      } else if n > 0 {
        AdvanceKeeps(q, n);
      }
    } else {
      FlushOther(q, w, budget, attempts);
      if w.answers(w.calls).Interrupted? {
        var v := Called(w, []);
        FlushReports(q, v, budget, attempts - 1);
        var f := FlushFrom(q, v, budget, attempts - 1);
        if f.w.calls > v.calls {
          WentOnFrom(w.answers, w.calls, f.w.calls - 1);
        }
      }
    }
  }

  lemma OfferNonempty(q: Queue, budget: nat)
    requires QueueOk(q) && NoEmptyRecord(q) && q.records != [] && budget > 0
    ensures 0 < |Offer(q, budget)| <= budget && q.offset + |Offer(q, budget)| <= |q.records[0]|
  {
  }

  lemma AdvanceKeeps(q: Queue, n: nat)
    requires QueueOk(q) && NoEmptyRecord(q) && q.records != [] && n <= |q.records[0]| - q.offset && n <= q.bytes
    ensures NoEmptyRecord(Advance(q, n)) && Advance(q, n).stalledSince == None
  {
    hide QueueOk;
    var p := Advance(q, n);
    forall i | 0 <= i < |p.records| ensures |p.records[i]| > 0 {
      assert p.records[i] == q.records[i] || p.records[i] == q.records[i + 1];
    }
  }

  /**
   One flush of a queue without empty records: at most 64 KiB in at most 128 calls. The writer's last answer decides its
   error, and without one it has emptied the queue, used up one of the two, or been told to wait.
   */
  lemma FlushVerdict(q: Queue, w: Writer)
    requires QueueOk(q) && NoEmptyRecord(q) && Tracks(q, w)
    ensures var f := Flush(q, w);
            && QueueOk(f.q) && NoEmptyRecord(f.q) && (f.error != Some(Closed) ==> Tracks(f.q, f.w))
            && w.calls <= f.w.calls <= w.calls + 128 && |w.written| <= |f.w.written| <= |w.written| + 65536
            && (f.w.calls == w.calls ==> f.error.None?)
            && (f.w.calls > w.calls ==> Reports(f.error, f.w) && WentOn(w.answers, w.calls, f.w.calls - 1))
            && (f.error.None? ==>
                  || f.q.records == [] || |f.w.written| == |w.written| + 65536 || f.w.calls == w.calls + 128
                  || (f.w.calls > 0 && w.answers(f.w.calls - 1).WouldBlock?))
  {
    hide FlushFrom, QueueOk, NoEmptyRecord, Tracks, Reports, WentOn, Queued;
    FlushReports(q, w, FLUSH_BYTES, FLUSH_CALLS);
    FlushConserves(q, w, FLUSH_BYTES, FLUSH_CALLS);
    FlushStops(q, w, FLUSH_BYTES, FLUSH_CALLS);
  }

  /** A new queue is right about a writer that has not been called, and pushing a record changes nothing about that. */
  lemma TracksFromTheStart(q: Queue, w: Writer, wire: seq<byte>)
    ensures w.calls == 0 ==> Tracks(EMPTY, w)
    ensures Tracks(q, w) ==> Tracks(Push(q, wire).0, w)
  {
  }
}
