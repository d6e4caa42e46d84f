/** The outgoing queue as the object of the source: a queue of records that a budgeted loop drains in place. */
module Outbound {
  import opened Bytes
  import opened OutboundModel

  class Sink {
    const answers: nat -> Answer
    var calls: nat
    var written: seq<byte>

    function Model(): Writer
      reads this
    {
      Writer(answers, calls, written)
    }

    constructor (answers: nat -> Answer)
      ensures Model() == Writer(answers, 0, [])
    {
      this.answers := answers;
      calls, written := 0, [];
    }

    /** One call: some front part of the offer is taken, or none. */
    method Write(offer: seq<byte>) returns (answer: Answer)
      modifies this
      ensures answer ==
                 if old(answers(calls)).Take? then Take(Min(old(answers(calls)).n, |offer|)) else old(answers(calls))
      ensures Model() == Called(old(Model()), if answer.Take? then offer[..answer.n] else [])
    {
      answer := answers(calls);
      calls := calls + 1;
      if answer.Take? {
        answer := Take(Min(answer.n, |offer|));
        written := written + offer[..answer.n];
      } else {
        assert written + [] == written;
      }
    }
  }

  class Outbound {
    var records: seq<seq<byte>>
    var offset: nat
    var bytes: nat
    var stalledSince: Option<nat>

    function Model(): Queue
      reads this
    {
      Queue(records, offset, bytes, stalledSince)
    }

    ghost predicate Valid()
      reads this
    {
      QueueOk(Model())
    }

    constructor ()
      ensures Valid() && Model() == EMPTY
    {
      records, offset, bytes, stalledSince := [], 0, 0, None;
    }

    method Push(wire: seq<byte>) returns (error: Option<OutError>)
      requires Valid()
      modifies this
      ensures Valid() && (Model(), error) == OutboundModel.Push(old(Model()), wire)
      ensures error.None? ==> Queued(Model()) == old(Queued(Model())) + wire
    {
      PushOk(Model(), wire);
      if bytes + |wire| > CAPACITY {
        return Some(Backlog);
      }
      bytes := bytes + |wire|;
      records := records + [wire];
      return None;
    }

    /** Accounts for bytes the writer took from the front record. */
    method Took(n: nat)
      requires Valid() && records != [] && 0 < n <= |records[0]| - offset
      modifies this
      ensures n <= old(bytes) && QueueOk(old(Model())) && Model() == Advance(old(Model()), n) && Valid()
    {
      AdvanceOk(Model(), n);
      stalledSince := None;
      offset := offset + n;
      bytes := bytes - n;
      if offset == |records[0]| {
        records := records[1..];
        offset := 0;
      }
    }

    method Flush(writer: Sink) returns (error: Option<OutError>)
      requires Valid()
      modifies this, writer
      ensures Valid()
      ensures Flushed(Model(), writer.Model(), error) == OutboundModel.Flush(old(Model()), old(writer.Model()))
      ensures writer.written + Queued(Model()) == old(writer.written + Queued(Model()))
    {
      hide QueueOk, Queued, FlushFrom, Advance;
      ghost var all := FlushFrom(Model(), writer.Model(), FLUSH_BYTES, FLUSH_CALLS);
      FlushConserves(Model(), writer.Model(), FLUSH_BYTES, FLUSH_CALLS);
      var budget, attempts := FLUSH_BYTES, FLUSH_CALLS;
      while records != [] && attempts != 0
        invariant 0 < budget && 0 <= attempts && Valid()
        invariant all == FlushFrom(Model(), writer.Model(), budget, attempts)
        decreases attempts
      {
        ghost var q, w := Model(), writer.Model();
        QueueFront(q);
        var offer := records[0][offset..offset + Min(budget, |records[0]| - offset)];
        var answer := writer.Write(offer);
        if answer.Take? {
          var n := answer.n;
          FlushTake(q, w, budget, attempts, n);
          if n == 0 {
            return Some(Closed);
          }
          Took(n);
          budget := budget - n;
          if budget == 0 {
            return None;
          }
        } else {
          FlushOther(q, w, budget, attempts);
          if answer.WouldBlock? {
            ghost var began := if stalledSince.Some? then stalledSince.value else answer.now;
            if stalledSince.None? {
              stalledSince := Some(answer.now);
            }
            StallTimeOnly(q, began);
            return if SatSub(answer.now, stalledSince.value) >= STALL then Some(Stalled) else None;
          }
          if answer.Fail? {
            return Some(Broken);
          }
        }
        attempts := attempts - 1;
      }
      FlushEnds(Model(), writer.Model(), budget, attempts);
      return None;
    }
  }

  lemma StallTimeOnly(q: Queue, began: nat)
    requires QueueOk(q)
    ensures QueueOk(q.(stalledSince := Some(began)))
  {
  }
}
