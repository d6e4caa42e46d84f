/** What arrives at one end of the control channel, over every run of both ends. */
module ControlTheorems {
  import opened Bytes
  import opened RecordModel
  import opened OutboundModel
  import opened FileMessages
  import opened ControlModel
  import opened FileTransfer
  import opened TransferModel

  // ----- parts of one poll

  lemma {:induction false} CollectIsAppend(pending: seq<byte>, incoming: seq<Read>, turns: nat)
    ensures var r := Collect(pending, incoming, turns);
            && r.pending == pending + r.arrived && |r.arrived| <= turns * READ_BYTES
            && (r.error.Some? ==> r.error.value in {TcpClosed, TcpFailed, Overflow})
            && (r.error == Some(Overflow) ==> |r.pending| > PENDING)
    decreases turns
  {
    assert pending + [] == pending;
    if turns > 0 && incoming != [] {
      var first := incoming[0];
      if first.Again? {
        CollectIsAppend(pending, incoming[1..], turns - 1);
      } else if first.Chunk? {
        var bytes := first.bytes[..Min(READ_BYTES, |first.bytes|)];
        if bytes != [] && |pending + bytes| <= PENDING {
          CollectIsAppend(pending + bytes, incoming[1..], turns - 1);
          var more := Collect(pending + bytes, incoming[1..], turns - 1).arrived;
          assert pending + bytes + more == pending + (bytes + more);
        }
      }
    }
  }

  /** Sending one body leaves the receiving half alone. */
  ghost predicate Receives(n: Conn, m: Conn) {
    && ConnOk(m) && m.records.decIv == n.records.decIv && m.records.decSeq == n.records.decSeq
    && m.records.failed == n.records.failed && m.pending == n.pending
  }

  lemma InspectedReceives(c: Ciphers, n: Conn, reply: Reply)
    requires ConnOk(n) && !n.records.failed
    ensures var o := Inspected(c, n, reply);
            && Receives(n, o.conn) && o.conn.decoder == n.decoder && o.conn.files == n.files
            && o.arrived == [] && o.messages == [] && o.others == []
            && (o.error.Some? ==> LocalError(o.error.value))
  {
    hide Send, QueueOk, StateOk;
    if reply.Allow? && reply.send.Some? {
      SendKeepsReceiving(c, n, reply.send.value);
    }
  }

  /**
   Splitting opened bodies is feeding them: the same messages and control bodies in order, or the decoder's error, or
   an error of this end; and what is sent on the way does not disturb what is received.
   */
  lemma {:induction false} SortIsFeed(c: Ciphers, inspect: Inspection, n: Conn, k: nat, bodies: seq<seq<byte>>)
    requires ConnOk(n) && !n.records.failed
    ensures var o := Sort(c, inspect, n, k, bodies); var i := FeedAll(n.decoder, bodies);
            && Receives(n, o.conn) && o.messages == [] && o.arrived == []
            && match o.error
               case None =>
                 o.conn.files == n.files + i.messages && i == Inbox(o.conn.decoder, i.messages, o.others, None)
               case Some(e) => if e.Files? then i.error == Some(e.file) else LocalError(e)
    decreases |bodies|
  {
    hide Feed, Inspected, QueueOk, StateOk, FeedAll;
    FeedAllNone();
    if bodies == [] {
      assert n.files + [] == n.files;
    } else {
      FeedAllFirst(n.decoder, bodies);
      var f := Feed(n.decoder, bodies[0]);
      if f.result.Success? {
        var (messages, other) := f.result.value;
        var m := n.(decoder := f.pending, files := n.files + messages);
        if |n.files| + |messages| <= FILE_BACKLOG {
          var rest := FeedAll(f.pending, bodies[1..]).messages;
          assert n.files + messages + rest == n.files + (messages + rest);
          if other.None? {
            SortIsFeed(c, inspect, m, k, bodies[1..]);
            assert forall o: seq<seq<byte>> :: [] + o == o;
          } else {
            InspectedReceives(c, m, inspect(k, other.value));
            var o := Inspected(c, m, inspect(k, other.value));
            if o.error.None? {
              SortIsFeed(c, inspect, o.conn, k + 1, bodies[1..]);
            }
          }
        }
      }
    }
  }

  lemma FeedAllNone()
    ensures forall p :: FeedAll(p, []) == Inbox(p, [], [], None)
  {
  }

  lemma FeedAllFirst(pending: seq<byte>, bodies: seq<seq<byte>>)
    requires bodies != []
    ensures var f := Feed(pending, bodies[0]);
            FeedAll(pending, bodies)
              == if f.result.Failure? then Inbox(f.pending, [], [], Some(f.result.error))
                 else
                   var other, i := f.result.value.1, FeedAll(f.pending, bodies[1..]);
                   i.(messages := f.result.value.0 + i.messages,
                      others := (if other.Some? then [other.value] else []) + i.others)
  {
    hide Feed;
  }

  lemma {:induction false} FeedAllJoin(pending: seq<byte>, a: seq<seq<byte>>, b: seq<seq<byte>>)
    ensures var i := FeedAll(pending, a); var all := FeedAll(pending, a + b);
            && i.messages <= all.messages && i.others <= all.others
            && (i.error.Some? ==> all == i)
            && (i.error.None? ==> var j := FeedAll(i.pending, b);
                                  all == Inbox(j.pending, i.messages + j.messages, i.others + j.others, j.error))
    decreases |a|
  {
    hide Feed, FeedAll;
    assert forall p :: FeedAll(p, []) == Inbox(p, [], [], None) by { FeedAllNone(); }
    if a == [] {
      assert a + b == b;
      var j := FeedAll(pending, b);
      assert [] + j.messages == j.messages && [] + j.others == j.others;
    } else {
      assert (a + b)[1..] == a[1..] + b && (a + b)[0] == a[0];
      var f := Feed(pending, a[0]);
      FeedAllFirst(pending, a);
      FeedAllFirst(pending, a + b);
      if f.result.Success? {
        FeedAllJoin(f.pending, a[1..], b);
        var i := FeedAll(f.pending, a[1..]);
        var j := FeedAll(i.pending, b);
        var (m, other) := f.result.value;
        var o := if other.Some? then [other.value] else [];
        assert m + (i.messages + j.messages) == m + i.messages + j.messages;
        assert o + (i.others + j.others) == o + i.others + j.others;
        PrefixUnder(m, i.messages, FeedAll(f.pending, a[1..] + b).messages);
        PrefixUnder(o, i.others, FeedAll(f.pending, a[1..] + b).others);
      }
    }
  }

  lemma PrefixUnder<T>(a: seq<T>, x: seq<T>, y: seq<T>)
    requires x <= y
    ensures a + x <= a + y
  {
  }

  // ----- how far the receiver has come

  /**
   `x` has arrived from the stream of `bodies`; the first `k` of them are opened and split into what was handed out
   and what waits, the record layers are in step, and what is pending is a strict part of the next record.
   */
  ghost predicate Caught(c: Ciphers, a: RecordState, bodies: seq<seq<byte>>, n: Conn, x: seq<byte>,
                         taken: seq<Message>, others: seq<seq<byte>>, k: nat)
    requires Encryptable(a, bodies)
  {
    && k <= |bodies| && ConnOk(n) && x <= Stream(c, a, bodies)
    && (var t := Sent(c, a, bodies[..k]);
        && Encryptable(t, bodies[k..]) && InStep(t, n.records) && PartOfRecord(c, t, bodies[k..], n.pending)
        && n.pending + Stream(c, a, bodies)[|x|..] == Stream(c, t, bodies[k..]))
    && FeedAll([], bodies[..k]) == Inbox(n.decoder, taken + n.files, others, None)
  }

  lemma RecordSize(c: Ciphers, s: RecordState, body: seq<byte>)
    requires CiphersOk(c) && StateOk(s) && |body| <= MAX_BODY
    ensures |Record(c, s.encIv, s.encSeq, body)| == 2 + PaddedSize(|body|) <= 2 + MAX_RECORD
  {
    hide CbcEncrypt, Plain, PaddedSize, CiphersOk;
    PlainParts(c, s.encSeq, body);
    SizeFits(|body|);
    CbcInverse(c, s.encIv, Plain(c, s.encSeq, body));
  }

  lemma PendingSmall(c: Ciphers, s: RecordState, bodies: seq<seq<byte>>, x: seq<byte>)
    requires CiphersOk(c) && Encryptable(s, bodies) && PartOfRecord(c, s, bodies, x)
    ensures |x| <= 2 + MAX_RECORD
  {
    hide Record;
    if x != [] {
      RecordSize(c, s, bodies[0]);
    }
  }

  lemma Cut(pending: seq<byte>, arrived: seq<byte>, all: seq<byte>, x: seq<byte>)
    requires x + arrived <= all
    ensures pending + arrived <= pending + all[|x|..]
    ensures (pending + all[|x|..])[|pending + arrived|..] == all[|x + arrived|..]
  {
    assert all[|x|..] == arrived + all[|x + arrived|..];
  }

  /** The record layer of the receiver takes exactly the next bodies out of what has arrived. */
  lemma DrainCatches(c: Ciphers, a: RecordState, bodies: seq<seq<byte>>, n: Conn, x: seq<byte>, arrived: seq<byte>,
                     taken: seq<Message>, others: seq<seq<byte>>, k: nat) returns (j: nat)
    requires CiphersOk(c) && Encryptable(a, bodies) && Caught(c, a, bodies, n, x, taken, others, k)
    requires x + arrived <= Stream(c, a, bodies)
    ensures k + j <= |bodies|
    ensures var d := Drain(c, n.records, n.pending + arrived); var t := Sent(c, a, bodies[..k + j]);
            && d.bodies == Success(bodies[k..k + j]) && StateOk(d.state) && Encryptable(t, bodies[k + j..])
            && InStep(t, d.state) && PartOfRecord(c, t, bodies[k + j..], d.rest)
            && d.rest + Stream(c, a, bodies)[|x + arrived|..] == Stream(c, t, bodies[k + j..])
  {
    hide Drain, Record, Encrypt, CiphersOk, Stream, PartOfRecord, QueueOk;
    var t, all := Sent(c, a, bodies[..k]), Stream(c, a, bodies);
    Cut(n.pending, arrived, all, x);
    j := DrainPrefix(c, t, n.records, bodies[k..], n.pending + arrived);
    SentSplit(c, a, bodies, k, j);
    assert bodies[k..][..j] == bodies[k..k + j] && bodies[k..][j..] == bodies[k + j..];
  }

  lemma FeedNext(bodies: seq<seq<byte>>, k: nat, j: nat)
    requires k + j <= |bodies| && FeedAll([], bodies).error.None?
    ensures var i := FeedAll([], bodies[..k]); var m := FeedAll(i.pending, bodies[k..k + j]);
            && i.error.None? && m.error.None?
            && FeedAll([], bodies[..k + j]) == Inbox(m.pending, i.messages + m.messages, i.others + m.others, None)
  {
    hide FeedAll;
    assert bodies == bodies[..k] + bodies[k..] == bodies[..k + j] + bodies[k + j..];
    FeedAllJoin([], bodies[..k], bodies[k..]);
    FeedAllJoin([], bodies[..k + j], bodies[k + j..]);
    assert bodies[..k + j] == bodies[..k] + bodies[k..k + j];
    FeedAllJoin([], bodies[..k], bodies[k..k + j]);
  }

  /** An error of this end: its socket, its limits, its own sends or a refused body, and not one of the encoding. */
  predicate LocalError(e: ConnError) {
    e.Output? || e == TcpClosed || e == TcpFailed || e == Flood || e == Refused || e == NotFile
    || e == Records(SequenceExhausted) || e == Records(RecordError.TooLarge)
  }

  lemma ReceiveCatches(c: Ciphers, inspect: Inspection, a: RecordState, bodies: seq<seq<byte>>, n: Conn, x: seq<byte>,
                       incoming: seq<Read>, taken: seq<Message>, others: seq<seq<byte>>, k: nat) returns (next: nat)
    requires CiphersOk(c) && Encryptable(a, bodies) && Caught(c, a, bodies, n, x, taken, others, k)
    requires FeedAll([], bodies).error.None? && x + Receive(c, inspect, n, incoming).arrived <= Stream(c, a, bodies)
    ensures var o := Receive(c, inspect, n, incoming);
            && (o.error.Some? ==> LocalError(o.error.value) && o.messages == [] && o.others == [])
            && (o.error.None? ==>
                  o.messages == [] && Caught(c, a, bodies, o.conn, x + o.arrived, taken, others + o.others, next))
  {
    hide Drain, Record, Encrypt, CiphersOk, Stream, PartOfRecord, QueueOk, Sort, Collect, FeedAll, StateOk, Sent,
      InStep;
    next := k;
    Unfailed(c, a, bodies, n, x, taken, others, k);
    var r := Collect(n.pending, incoming, READS);
    CollectIsAppend(n.pending, incoming, READS);
    PendingSmall(c, Sent(c, a, bodies[..k]), bodies[k..], n.pending);
    if r.error.None? {
      var d := Drain(c, n.records, r.pending);
      var m := n.(records := d.state, pending := d.rest);
      DrainKeeps(c, n.records, r.pending);
      ReceiveArrives(c, inspect, n, incoming);
      var j := DrainCatches(c, a, bodies, n, x, r.arrived, taken, others, k);
      FeedNext(bodies, k, j);
      next := k + j;
      SortIsFeed(c, inspect, m, 0, bodies[k..next]);
      var i := FeedAll(n.decoder, bodies[k..next]);
      assert taken + n.files + i.messages == taken + (n.files + i.messages);
      var o := Sort(c, inspect, m, 0, bodies[k..next]);
      if o.error.None? {
        var q := m.(decoder := o.conn.decoder, files := o.conn.files);
        assert Caught(c, a, bodies, q, x + r.arrived, taken, others + o.others, next);
        CaughtKept(c, a, bodies, q, o.conn, x + r.arrived, taken, others + o.others, next);
      }
    }
  }

  lemma ReceiveArrives(c: Ciphers, inspect: Inspection, n: Conn, incoming: seq<Read>)
    requires ConnOk(n)
    ensures Receive(c, inspect, n, incoming).arrived == Collect(n.pending, incoming, READS).arrived
  {
    hide Drain, Sort, Collect, QueueOk, StateOk;
  }

  /** Sending, flushing and taking messages do not disturb what was caught. */
  lemma CaughtKept(c: Ciphers, a: RecordState, bodies: seq<seq<byte>>, n: Conn, m: Conn, x: seq<byte>,
                   taken: seq<Message>, others: seq<seq<byte>>, k: nat)
    requires Encryptable(a, bodies) && Caught(c, a, bodies, n, x, taken, others, k) && ConnOk(m)
    requires m.records.decIv == n.records.decIv && m.records.decSeq == n.records.decSeq
    requires m.records.failed == n.records.failed
    requires m.pending == n.pending && m.decoder == n.decoder && m.files == n.files
    ensures Caught(c, a, bodies, m, x, taken, others, k)
  {
    hide PartOfRecord, Stream, Sent, FeedAll, QueueOk, StateOk, Encryptable;
  }

  lemma CaughtTaken(c: Ciphers, a: RecordState, bodies: seq<seq<byte>>, n: Conn, x: seq<byte>,
                    taken: seq<Message>, others: seq<seq<byte>>, k: nat)
    requires Encryptable(a, bodies) && Caught(c, a, bodies, n, x, taken, others, k)
    ensures Caught(c, a, bodies, n.(files := []), x, taken + n.files, others, k)
  {
    hide PartOfRecord, Stream, Sent, FeedAll, QueueOk, StateOk, Encryptable;
    assert taken + n.files + [] == taken + n.files;
  }

  lemma SendsAsOk(c: Ciphers, n: Conn, o: Outcome)
    requires ConnOk(n) && SendsAs(c, n, o)
    ensures ConnOk(o.conn)
  {
    hide Stream, Sent, QueueOk, StateOk, Encryptable, Queued;
  }

  lemma SendKeepsReceiving(c: Ciphers, n: Conn, body: seq<byte>)
    requires ConnOk(n) && !n.records.failed
    ensures var o := Send(c, n, body); var m := o.conn;
            && ConnOk(m) && o.arrived == [] && o.messages == [] && o.others == []
            && m.records.decIv == n.records.decIv && m.records.decSeq == n.records.decSeq
            && m.records.failed == n.records.failed
            && m.pending == n.pending && m.decoder == n.decoder && m.files == n.files
            && (o.error.Some? ==> LocalError(o.error.value))
  {
    hide Ciphertext, Record, Chained, Push, FlushFrom;
    SendOk(c, n, body);
  }

  lemma FlushKeepsReceiving(n: Conn)
    requires ConnOk(n)
    ensures var (m, e) := Flushes(n);
            && ConnOk(m) && m.records == n.records && m.pending == n.pending && m.decoder == n.decoder
            && m.files == n.files
            && (e.Some? ==> LocalError(e.value))
  {
    hide FlushFrom, QueueOk, Queued;
    FlushConserves(n.queue, n.writer, FLUSH_BYTES, FLUSH_CALLS);
  }

  lemma Unfailed(c: Ciphers, a: RecordState, bodies: seq<seq<byte>>, n: Conn, x: seq<byte>,
                 taken: seq<Message>, others: seq<seq<byte>>, k: nat)
    requires Encryptable(a, bodies) && Caught(c, a, bodies, n, x, taken, others, k)
    ensures ConnOk(n) && !n.records.failed && x + [] == x && others + [] == others && taken + [] == taken
  {
    hide PartOfRecord, Stream, Sent, FeedAll, QueueOk, StateOk, Encryptable;
  }

  lemma PollInCatches(c: Ciphers, inspect: Inspection, a: RecordState, bodies: seq<seq<byte>>, n: Conn, x: seq<byte>,
                      incoming: seq<Read>, taken: seq<Message>, others: seq<seq<byte>>, k: nat) returns (next: nat)
    requires CiphersOk(c) && Encryptable(a, bodies) && ConnOk(n) && Caught(c, a, bodies, n, x, taken, others, k)
    requires FeedAll([], bodies).error.None? && x + PollIn(c, inspect, n, incoming).arrived <= Stream(c, a, bodies)
    ensures var o := PollIn(c, inspect, n, incoming);
            && o.messages == []
            && (o.error.Some? ==> LocalError(o.error.value) && o.others == [])
            && (o.error.None? ==> Caught(c, a, bodies, o.conn, x + o.arrived, taken, others + o.others, next))
  {
    hide Caught, CiphersOk, Encryptable, Receive, Flushes, Stream, FeedAll, QueueOk, StateOk;
    next := k;
    FlushKeepsReceiving(n);
    var m := Flushes(n).0;
    CaughtKept(c, a, bodies, n, m, x, taken, others, k);
    if Flushes(n).1.None? {
      next := ReceiveCatches(c, inspect, a, bodies, m, x, incoming, taken, others, k);
    }
  }

  lemma DoCatches(c: Ciphers, a: RecordState, bodies: seq<seq<byte>>, n: Conn, x: seq<byte>,
                  step: Step, taken: seq<Message>, others: seq<seq<byte>>, k: nat) returns (next: nat)
    requires CiphersOk(c) && Encryptable(a, bodies) && ConnOk(n) && Caught(c, a, bodies, n, x, taken, others, k)
    requires FeedAll([], bodies).error.None? && x + Do(c, n, step).arrived <= Stream(c, a, bodies)
    ensures var o := Do(c, n, step);
            && (o.error.Some? ==> LocalError(o.error.value) && o.messages == [] && o.others == [])
            && (o.error.None? ==>
                  Caught(c, a, bodies, o.conn, x + o.arrived, taken + o.messages, others + o.others, next))
  {
    hide Caught, CiphersOk, Encryptable, Send, PollIn, Stream, FeedAll, QueueOk, StateOk;
    next := k;
    Unfailed(c, a, bodies, n, x, taken, others, k);
    match step
    case SendBody(body) =>
      SendKeepsReceiving(c, n, body);
      CaughtKept(c, a, bodies, n, Send(c, n, body).conn, x, taken, others, k);
    case SendFileBody(body) =>
      SendKeepsReceiving(c, n, body);
      CaughtKept(c, a, bodies, n, Send(c, n, body).conn, x, taken, others, k);
    case PollOnce(incoming, inspect, offer) =>
      next := PollInCatches(c, inspect, a, bodies, n, x, incoming, taken, others, k);
      var o := PollIn(c, inspect, n, incoming);
      if o.error.None? && offer.Some? {
        PollInOk(c, inspect, n, incoming);
        Unfailed(c, a, bodies, o.conn, x + o.arrived, taken, others + o.others, next);
        SendKeepsReceiving(c, o.conn, offer.value);
        CaughtKept(c, a, bodies, o.conn, Send(c, o.conn, offer.value).conn,
                   x + o.arrived, taken, others + o.others, next);
      }
    case TakeFiles =>
      CaughtTaken(c, a, bodies, n, x, taken, others, k);
  }

  lemma CaughtIsPrefix(c: Ciphers, a: RecordState, bodies: seq<seq<byte>>, n: Conn, x: seq<byte>,
                       taken: seq<Message>, others: seq<seq<byte>>, k: nat)
    requires Encryptable(a, bodies) && Caught(c, a, bodies, n, x, taken, others, k)
    ensures taken <= FeedAll([], bodies).messages && others <= FeedAll([], bodies).others
  {
    hide PartOfRecord, Stream, Sent, FeedAll, QueueOk, StateOk, Encryptable;
    assert bodies == bodies[..k] + bodies[k..];
    FeedAllJoin([], bodies[..k], bodies[k..]);
  }

  /**
   Over every run of the receiving end: what is handed out is always a beginning of what was sent, no error is ever
   blamed on the stream, and while no error stops the run, everything complete has been handed out or waits.
   */
  lemma {:induction false} RunCatches(c: Ciphers, a: RecordState, bodies: seq<seq<byte>>, n: Conn,
                                      x: seq<byte>, steps: seq<Step>, taken: seq<Message>,
                                      others: seq<seq<byte>>, k: nat)
    returns (next: nat)
    requires CiphersOk(c) && Encryptable(a, bodies) && ConnOk(n) && Caught(c, a, bodies, n, x, taken, others, k)
    requires FeedAll([], bodies).error.None? && x + Run(c, n, steps).arrived <= Stream(c, a, bodies)
    ensures var o := Run(c, n, steps); var all := FeedAll([], bodies);
            && taken + o.messages <= all.messages && others + o.others <= all.others
            && (o.error.Some? ==> LocalError(o.error.value))
            && (o.error.None? ==>
                  Caught(c, a, bodies, o.conn, x + o.arrived, taken + o.messages, others + o.others, next))
    decreases |steps|
  {
    hide Caught, CiphersOk, Encryptable, Do, Stream, FeedAll, QueueOk, StateOk;
    next := k;
    Unfailed(c, a, bodies, n, x, taken, others, k);
    CaughtIsPrefix(c, a, bodies, n, x, taken, others, k);
    if steps != [] {
      var o := Do(c, n, steps[0]);
      DoOk(c, n, steps[0]);
      if o.error.None? {
        var r := Run(c, o.conn, steps[1..]);
        Rejoin(x, o.arrived, r.arrived);
        Rejoin(taken, o.messages, r.messages);
        Rejoin(others, o.others, r.others);
        Beginning(x + o.arrived, r.arrived, Stream(c, a, bodies));
        next := DoCatches(c, a, bodies, n, x, steps[0], taken, others, k);
        next := RunCatches(c, a, bodies, o.conn, x + o.arrived, steps[1..],
                           taken + o.messages, others + o.others, next);
      } else {
        next := DoCatches(c, a, bodies, n, x, steps[0], taken, others, k);
      }
    }
  }

  lemma Rejoin<T>(a: seq<T>, b: seq<T>, d: seq<T>)
    ensures a + (b + d) == a + b + d
  {
  }

  lemma Beginning<T>(a: seq<T>, b: seq<T>, all: seq<T>)
    requires a + b <= all
    ensures a <= all
  {
    assert (a + b)[..|a|] == a;
  }

  // ----- both ends

  lemma FreshCaught(c: Ciphers, iv: seq<byte>, answers: nat -> Answer, a: RecordState, bodies: seq<seq<byte>>)
    requires |iv| == BLOCK && Encryptable(a, bodies) && a.encIv == iv && a.encSeq == 0
    ensures Caught(c, a, bodies, Fresh(iv, answers), [], [], [], 0)
  {
    hide Stream, Encryptable, QueueOk, StateOk, PartOfRecord;
    FreshOk(iv, answers);
    var all := Stream(c, a, bodies);
    assert bodies[..0] == [] && bodies[0..] == bodies && [] + all[0..] == all && [] <= all;
    assert PartOfRecord(c, a, bodies, []) by { NoPart(c, a, bodies); }
    assert FeedAll([], []) == Inbox([], [], [], None);
    assert Sent(c, a, []) == a by { SentNone(c, a, bodies); }
  }

  lemma NoPart(c: Ciphers, a: RecordState, bodies: seq<seq<byte>>)
    requires Encryptable(a, bodies)
    ensures PartOfRecord(c, a, bodies, [])
  {
  }

  lemma SentNone(c: Ciphers, a: RecordState, bodies: seq<seq<byte>>)
    requires Encryptable(a, bodies)
    ensures StateOk(a) && Sent(c, a, []) == a
  {
  }

  lemma CaughtAll(c: Ciphers, a: RecordState, bodies: seq<seq<byte>>, n: Conn, x: seq<byte>,
                  taken: seq<Message>, others: seq<seq<byte>>, k: nat)
    requires CiphersOk(c) && Encryptable(a, bodies) && Caught(c, a, bodies, n, x, taken, others, k)
    requires x == Stream(c, a, bodies)
    ensures k == |bodies| && n.pending == []
    ensures FeedAll([], bodies) == Inbox(n.decoder, taken + n.files, others, None)
  {
    hide Record, Encrypt, CiphersOk, Sent, FeedAll, QueueOk, Stream;
    var t := Sent(c, a, bodies[..k]);
    assert n.pending + [] == n.pending;
    if k < |bodies| {
      StreamStarts(c, t, bodies[k..]);
      RecordNonempty(c, t, bodies[k..][0]);
    }
    assert bodies[..|bodies|] == bodies;
    assert PartOfRecord(c, t, bodies[k..], n.pending);
  }

  lemma RecordNonempty(c: Ciphers, s: RecordState, body: seq<byte>)
    requires StateOk(s) && |body| <= MAX_BODY
    ensures |Record(c, s.encIv, s.encSeq, body)| >= 2
  {
    hide Ciphertext;
  }

  lemma FreshOk(iv: seq<byte>, answers: nat -> Answer)
    requires |iv| == BLOCK
    ensures ConnOk(Fresh(iv, answers)) && Pipe(Fresh(iv, answers)) == []
  {
    hide QueueOk, Queued;
    EmptyOk();
  }

  /** One end: how its socket answers, and what is done with it. */
  datatype End = End(answers: nat -> Answer, steps: seq<Step>)

  function Play(c: Ciphers, iv: seq<byte>, e: End): Outcome
    requires |iv| == BLOCK
  {
    FreshOk(iv, e.answers);
    Run(c, Fresh(iv, e.answers), e.steps)
  }

  /** Everything this end has queued for the other, written or not. */
  lemma PlaySends(c: Ciphers, iv: seq<byte>, e: End) returns (a: RecordState)
    requires |iv| == BLOCK
    ensures var o := Play(c, iv, e);
            && QueueOk(o.conn.queue) && Encryptable(a, o.sent) && a.encIv == iv && a.encSeq == 0
            && Pipe(o.conn) == Stream(c, a, o.sent) && o.conn.writer.written <= Pipe(o.conn)
  {
    hide Run, Stream, Sent, Encryptable, QueueOk, Queued, StateOk;
    FreshOk(iv, e.answers);
    var n := Fresh(iv, e.answers);
    RunSends(c, n, e.steps);
    a := SendSide(n.records);
    assert [] + Stream(c, a, Play(c, iv, e).sent) == Stream(c, a, Play(c, iv, e).sent);
  }

  /**
   Two ends with the same keys, any run of each, any writer and any chunks: if what arrives is a beginning of what the
   other end queued, then what is handed out is a beginning of what its bodies mean; and if all of it arrives without
   error, exactly all of it is handed out or waits, in order, with nothing left over in the record layer.
   */
  lemma Delivered(c: Ciphers, iv: seq<byte>, here: End, there: End)
    requires CiphersOk(c) && |iv| == BLOCK && QueueOk(Play(c, iv, here).conn.queue)
    requires Play(c, iv, there).arrived <= Pipe(Play(c, iv, here).conn)
    requires FeedAll([], Play(c, iv, here).sent).error.None?
    ensures var meant := FeedAll([], Play(c, iv, here).sent); var to := Play(c, iv, there);
            && to.messages <= meant.messages && to.others <= meant.others
            && (to.error.Some? ==> LocalError(to.error.value))
            && (to.error.None? && to.arrived == Pipe(Play(c, iv, here).conn) ==>
                  to.conn.pending == []
                  && meant == Inbox(to.conn.decoder, to.messages + to.conn.files, to.others, None))
  {
    hide CiphersOk, Run, FeedAll, Stream, Caught, Sent, Encryptable, QueueOk, Queued, Pipe;
    var from, to := Play(c, iv, here), Play(c, iv, there);
    var a := PlaySends(c, iv, here);
    FreshOk(iv, there.answers);
    FreshCaught(c, iv, there.answers, a, from.sent);
    EmptyLeft(to.arrived);
    EmptyLeft(to.messages);
    EmptyLeft(to.others);
    var k := RunCatches(c, a, from.sent, Fresh(iv, there.answers), [], there.steps, [], [], 0);
    if to.error.None? && to.arrived == Pipe(from.conn) {
      CaughtAll(c, a, from.sent, to.conn, to.arrived, to.messages, to.others, k);
    }
  }

  lemma EmptyLeft<T>(a: seq<T>)
    ensures [] + a == a
  {
  }

  /**
   A whole upload through the encrypted channel: if one end sends the messages of an upload as its bodies and all of
   it arrives, a download at the other end publishes exactly the bytes of the file.
   */
  lemma FileArrives(c: Ciphers, iv: seq<byte>, here: End, there: End,
                    rule: NameRule, id: u32, path: seq<byte>, name: seq<byte>, src: Source)
    requires CiphersOk(c) && |iv| == BLOCK && QueueOk(Play(c, iv, here).conn.queue)
    requires Play(c, iv, there).error.None? && Play(c, iv, there).arrived == Pipe(Play(c, iv, here).conn)
    requires UploadMessages(rule, id, path, name, src, true).error.None?
    requires var fs := UploadMessages(rule, id, path, name, src, true).messages;
             Sendables(fs) && Play(c, iv, here).sent == AsBodies(fs)
    ensures var to := Play(c, iv, there); var received := to.messages + to.conn.files;
            && received != [] && to.others == [] && to.conn.decoder == [] && to.conn.pending == []
            && src.size <= |src.content| && Download(rule, NOTHING, received[1..]) == Success(src.content[..src.size])
  {
    hide Play, FeedAll, UploadMessages, Download, CiphersOk, Wires, Wire, QueueOk, Pipe, Sendable, Receivable;
    var fs := UploadMessages(rule, id, path, name, src, true).messages;
    AsBodiesJoined(fs);
    assert Wires(fs) + [] == Wires(fs);
    FeedRoundTrip(fs, [], AsBodies(fs));
    Delivered(c, iv, here, there);
    UploadDownloads(rule, id, path, name, src, true);
    assert Messages(fs)[1..] == Messages(fs[1..]);
  }

  // ----- a writer that keeps up

  lemma Encrypts(c: Ciphers, s: RecordState, body: seq<byte>)
    requires CiphersOk(c) && StateOk(s) && !s.failed && s.encSeq < MAX_SEQUENCE && |body| <= MAX_BODY
    ensures var (t, r) := Encrypt(c, s, body);
            && StateOk(t) && !t.failed && t.encSeq == s.encSeq + 1 && r.Success? && 0 < |r.value| < FLUSH_BYTES
  {
    hide CiphersOk, Record, Ciphertext, Chained;
    RecordSize(c, s, body);
    RecordNonempty(c, s, body);
  }

  lemma EagerSend(c: Ciphers, n: Conn, body: seq<byte>)
    requires CiphersOk(c) && ConnOk(n) && n.queue == EMPTY && Eager(n.writer.answers)
    requires !n.records.failed && n.records.encSeq < MAX_SEQUENCE && |body| <= MAX_BODY
    ensures var o := Send(c, n, body);
            && o.error.None? && o.sent == [body] && ConnOk(o.conn) && o.conn.queue == EMPTY
            && !o.conn.records.failed && o.conn.records.encSeq == n.records.encSeq + 1
            && o.conn.writer.answers == n.writer.answers
  {
    hide CiphersOk, StateOk, QueueOk, Encrypt, Push, FlushFrom, Eager;
    Encrypts(c, n.records, body);
    EagerFlush(n.writer, Encrypt(c, n.records, body).1.value);
    EmptyOk();
  }

  lemma RunNone(c: Ciphers, n: Conn)
    requires ConnOk(n)
    ensures Run(c, n, []) == Outcome(n, None, [], [], [], [])
  {
  }

  lemma RunStep(c: Ciphers, n: Conn, steps: seq<Step>)
    requires ConnOk(n) && steps != [] && steps[0].SendBody?
    requires var o := Send(c, n, steps[0].body); o.error.None? && ConnOk(o.conn)
    ensures var o := Send(c, n, steps[0].body); var r := Run(c, o.conn, steps[1..]);
            && Run(c, n, steps).error == r.error && Run(c, n, steps).conn == r.conn
            && Run(c, n, steps).sent == o.sent + r.sent
  {
    hide Send, ConnOk;
  }

  function Sends(bodies: seq<seq<byte>>): (steps: seq<Step>)
    ensures |steps| == |bodies|
  {
    if bodies == [] then [] else [SendBody(bodies[0])] + Sends(bodies[1..])
  }

  lemma SendsParts(bodies: seq<seq<byte>>)
    ensures bodies != [] ==> Sends(bodies)[0] == SendBody(bodies[0]) && Sends(bodies)[1..] == Sends(bodies[1..])
  {
  }

  /** With a writer that keeps up, every allowed body is sent at once: no error, nothing queued, in order. */
  lemma {:induction false} EagerSends(c: Ciphers, n: Conn, bodies: seq<seq<byte>>)
    requires CiphersOk(c) && ConnOk(n) && n.queue == EMPTY && Eager(n.writer.answers) && Encryptable(n.records, bodies)
    ensures var o := Run(c, n, Sends(bodies));
            o.error.None? && o.conn.queue == EMPTY && o.sent == bodies
    decreases |bodies|
  {
    hide CiphersOk, Send, StateOk, QueueOk, Eager, Run, Encryptable, Sends, Encrypt;
    if bodies == [] {
      assert Sends(bodies) == [];
      RunNone(c, n);
    } else {
      SendsParts(bodies);
      FirstBody(n.records, bodies);
      EagerSend(c, n, bodies[0]);
      BodiesLeft(n.records, Send(c, n, bodies[0]).conn.records, bodies);
      RunStep(c, n, Sends(bodies));
      EagerSends(c, Send(c, n, bodies[0]).conn, bodies[1..]);
      assert [bodies[0]] + bodies[1..] == bodies;
    }
  }

  lemma FirstBody(s: RecordState, bodies: seq<seq<byte>>)
    requires Encryptable(s, bodies) && bodies != []
    ensures !s.failed && s.encSeq < MAX_SEQUENCE && |bodies[0]| <= MAX_BODY
  {
  }

  lemma BodiesLeft(s: RecordState, t: RecordState, bodies: seq<seq<byte>>)
    requires Encryptable(s, bodies) && bodies != [] && StateOk(t) && !t.failed && t.encSeq == s.encSeq + 1
    ensures Encryptable(t, bodies[1..])
  {
  }
}
