/** What one send and one poll of the control channel do: what goes out, in which order, and what is read. */
module ControlSteps {
  import opened Bytes
  import opened RecordModel
  import opened OutboundModel
  import opened FileMessages
  import opened ControlModel
  import opened ControlTheorems

  // ----- sending

  /** The channel takes a body of this size now: it is usable, and the record fits behind what is queued. */
  predicate Takes(n: Conn, body: seq<byte>) {
    && !n.records.failed && n.records.encSeq < 0xFFFF_FFFF && |body| <= 65498
    && n.queue.bytes + 2 + PaddedSize(|body|) <= 512 * 1024
  }

  /** A body is sent exactly if the channel takes it: its record then follows all that was written and queued before. */
  lemma SendIff(c: Ciphers, n: Conn, body: seq<byte>)
    requires CiphersOk(c) && ConnOk(n)
    ensures var o := Send(c, n, body);
            && ConnOk(o.conn) && o.sent == (if Takes(n, body) then [body] else [])
            && (!Takes(n, body) ==> o.error.Some? && Pipe(o.conn) == Pipe(n) && o.conn.writer == n.writer)
            && (Takes(n, body) ==>
                  |body| <= MAX_BODY && StateOk(n.records)
                  && Pipe(o.conn) == Pipe(n) + Record(c, n.records.encIv, n.records.encSeq, body))
  {
    hide CiphersOk, Record, Ciphertext, Chained, FlushFrom, QueueOk, Queued, PaddedSize;
    SendOk(c, n, body);
    SendsAsOk(c, n, Send(c, n, body));
    if !n.records.failed && n.records.encSeq < 0xFFFF_FFFF && |body| <= 65498 {
      RecordSize(c, n.records, body);
      PushOk(n.queue, Record(c, n.records.encIv, n.records.encSeq, body));
      SendOne(c, n.records, body);
    }
  }

  /** Bulk data starts with the mark of file messages, and yields without a trace while more than 64 KiB are queued. */
  lemma SendFileIff(c: Ciphers, n: Conn, body: seq<byte>)
    requires CiphersOk(c) && ConnOk(n)
    ensures var o := SendFile(c, n, body);
            var file, room := body != [] && body[0] == 0x22, n.queue.bytes <= 65536;
            && o.sent == (if file && room && Takes(n, body) then [body] else [])
            && (!file ==> o.error == Some(NotFile) && o.conn == n) && (file && !room ==> o.error.None? && o.conn == n)
            && (file && room && !Takes(n, body) ==> o.error.Some? && Pipe(o.conn) == Pipe(n))
            && (file && room && Takes(n, body) ==>
                  |body| <= MAX_BODY && StateOk(n.records) && ConnOk(o.conn)
                  && Pipe(o.conn) == Pipe(n) + Record(c, n.records.encIv, n.records.encSeq, body))
  {
    hide CiphersOk, Record, Send, QueueOk, Queued, PaddedSize, StateOk;
    SendIff(c, n, body);
  }

  /** With at most 64 KiB queued there is room for any body. */
  lemma RoomForOne(n: Conn, body: seq<byte>)
    requires n.queue.bytes <= 65536 && |body| <= 65498 && !n.records.failed && n.records.encSeq < 0xFFFF_FFFF
    ensures Takes(n, body)
  {
  }

  // ----- reading

  function Chunks(cs: seq<seq<byte>>): seq<Read> {
    if cs == [] then [] else [Chunk(cs[0])] + Chunks(cs[1..])
  }

  predicate Small(cs: seq<seq<byte>>) {
    forall b <- cs :: 0 < |b| <= 8192
  }

  /** What ends the reading: nothing for now, the end of the stream, or a broken socket. */
  function Ending(r: Read): Option<ConnError> {
    match r
    case Chunk(_) => Some(TcpClosed)
    case Gone => Some(TcpFailed)
    case _ => None
  }

  predicate Ends(r: Read) {
    r.NotReady? || r.Gone? || (r.Chunk? && r.bytes == [])
  }

  /** Up to eight reads are appended in order; what comes before the eighth and ends the reading decides its result. */
  lemma {:induction false} CollectReads(pending: seq<byte>, cs: seq<seq<byte>>, last: Read, more: seq<Read>, turns: nat)
    requires Small(cs) && Ends(last) && |pending| + 8192 * turns <= 4194304
    ensures var r := Collect(pending, Chunks(cs) + [last] + more, turns);
            && r.arrived == Concat(if |cs| < turns then cs else cs[..turns])
            && r.error == if |cs| < turns then Ending(last) else None
    decreases |cs|
  {
    hide Collect, Ending, Concat;
    if cs == [] {
      assert Chunks([]) + [last] + more == [last] + more;
      CollectEnds(pending, last, more, turns);
      NothingJoined();
    } else if turns == 0 {
      NoTurns(pending, Chunks(cs) + [last] + more);
      NothingJoined();
    } else {
      var b, rest := cs[0], Chunks(cs[1..]) + [last] + more;
      assert b in cs && Chunks(cs) + [last] + more == [Chunk(b)] + rest;
      CollectStep(pending, b, rest, turns);
      CollectReads(pending + b, cs[1..], last, more, turns - 1);
      assert |cs| >= turns ==> cs[..turns] == [b] + cs[1..][..turns - 1];
      ConcatOf(b, if |cs[1..]| < turns - 1 then cs[1..] else cs[1..][..turns - 1]);
      assert [b] + cs[1..] == cs;
    }
  }

  lemma NothingJoined()
    ensures Concat([]) == []
  {
  }

  lemma NoTurns(pending: seq<byte>, incoming: seq<Read>)
    ensures Collect(pending, incoming, 0) == Collected(pending, [], None)
  {
  }

  lemma CollectEnds(pending: seq<byte>, last: Read, more: seq<Read>, turns: nat)
    requires Ends(last)
    ensures var r := Collect(pending, [last] + more, turns);
            r.arrived == [] && r.error == if turns > 0 then Ending(last) else None
  {
    assert ([last] + more)[0] == last;
  }

  lemma CollectStep(pending: seq<byte>, b: seq<byte>, rest: seq<Read>, turns: nat)
    requires 0 < |b| <= 8192 && turns > 0 && |pending| + |b| <= 4194304
    ensures var r, s := Collect(pending, [Chunk(b)] + rest, turns), Collect(pending + b, rest, turns - 1);
            r.arrived == b + s.arrived && r.error == s.error
  {
    assert b[..|b|] == b && ([Chunk(b)] + rest)[1..] == rest;
  }

  lemma ConcatOf(b: seq<byte>, rest: seq<seq<byte>>)
    ensures Concat([b] + rest) == b + Concat(rest)
  {
    assert ([b] + rest)[1..] == rest;
  }

  /** An interrupted read counts, and changes nothing else. */
  lemma CollectAgain(pending: seq<byte>, more: seq<Read>, turns: nat)
    requires turns > 0
    ensures Collect(pending, [Again] + more, turns) == Collect(pending, more, turns - 1)
  {
    assert ([Again] + more)[1..] == more;
  }

  /** More than 4 MiB that are no complete record end the connection. */
  lemma CollectOverflows(pending: seq<byte>, b: seq<byte>, more: seq<Read>, turns: nat)
    requires turns > 0 && 0 < |b| <= 8192 && |pending| + |b| > 4194304
    ensures Collect(pending, [Chunk(b)] + more, turns).error == Some(Overflow)
  {
    assert b[..|b|] == b;
  }

  // ----- one poll

  /** The bodies that are sent in answer to these control bodies, in order. */
  function Answers(inspect: Inspection, k: nat, others: seq<seq<byte>>): seq<seq<byte>>
    decreases |others|
  {
    if others == [] then []
    else
      var reply := inspect(k, others[0]);
      (if reply.Allow? && reply.send.Some? then [reply.send.value] else []) + Answers(inspect, k + 1, others[1..])
  }

  lemma InspectedSends(c: Ciphers, n: Conn, reply: Reply)
    requires CiphersOk(c) && ConnOk(n) && Inspected(c, n, reply).error.None?
    ensures reply.Allow? && Inspected(c, n, reply).sent == if reply.send.Some? then [reply.send.value] else []
    ensures ConnOk(Inspected(c, n, reply).conn)
  {
    hide Send, QueueOk, StateOk, PaddedSize, CiphersOk;
    if reply.Allow? && reply.send.Some? {
      SendIff(c, n, reply.send.value);
    }
  }

  /** Each control body is answered as it is met, and each of them is handed out. */
  lemma {:induction false} SortAnswers(c: Ciphers, inspect: Inspection, n: Conn, k: nat, bodies: seq<seq<byte>>)
    requires CiphersOk(c) && ConnOk(n) && Sort(c, inspect, n, k, bodies).error.None?
    ensures var o := Sort(c, inspect, n, k, bodies); o.sent == Answers(inspect, k, o.others)
    decreases |bodies|
  {
    hide Feed, Inspected, QueueOk, StateOk, CiphersOk;
    if bodies != [] {
      var f := Feed(n.decoder, bodies[0]);
      var m, other := n.(decoder := f.pending, files := n.files + f.result.value.0), f.result.value.1;
      if other.None? {
        SortAnswers(c, inspect, m, k, bodies[1..]);
      } else {
        var o := Inspected(c, m, inspect(k, other.value));
        InspectedSends(c, m, inspect(k, other.value));
        SortAnswers(c, inspect, o.conn, k + 1, bodies[1..]);
        var rest := Sort(c, inspect, o.conn, k + 1, bodies[1..]).others;
        assert ([other.value] + rest)[1..] == rest;
      }
    }
  }

  /**
   One poll: first what is queued is flushed, and an error there ends it with nothing read; what it reads is then opened
   and split; every control body is answered in order, and the media offer follows last when it is due.
   */
  lemma PollInOrder(c: Ciphers, inspect: Inspection, n: Conn, incoming: seq<Read>, offer: Option<seq<byte>>)
    requires CiphersOk(c) && ConnOk(n)
    ensures var f, o := Flush(n.queue, n.writer), Poll(c, inspect, n, incoming, offer);
            && (f.error.Some? ==> o.error == Some(Output(f.error.value)) && o.arrived == [] && o.sent == []
                                  && o.conn == n.(queue := f.q, writer := f.w))
            && (f.error.None? ==> o.arrived == Collect(n.pending, incoming, 8).arrived)
            && (o.error.None? ==>
                  o.sent == Answers(inspect, 0, o.others) + if offer.Some? then [offer.value] else [])
            && (o.error.None? && o.sent == [] ==> o.conn.queue == f.q && o.conn.writer == f.w)
  {
    hide CiphersOk, Send, FlushFrom, Receive, QueueOk, StateOk, PaddedSize, Collect, Answers;
    FlushConserves(n.queue, n.writer, FLUSH_BYTES, FLUSH_CALLS);
    var (m, e) := Flushes(n);
    if e.None? {
      ReceiveArrives(c, inspect, m, incoming);
      ReceiveAnswers(c, inspect, m, incoming);
      PollInOk(c, inspect, n, incoming);
      var o := PollIn(c, inspect, n, incoming);
      if o.error.None? && offer.Some? {
        SendIff(c, o.conn, offer.value);
      }
      assert Answers(inspect, 0, o.others) + [] == Answers(inspect, 0, o.others);
    }
  }

  lemma ReceiveAnswers(c: Ciphers, inspect: Inspection, n: Conn, incoming: seq<Read>)
    requires CiphersOk(c) && ConnOk(n)
    ensures var o := Receive(c, inspect, n, incoming);
            o.error.None? ==> o.sent == Answers(inspect, 0, o.others)
                              && (o.sent == [] ==> o.conn.queue == n.queue && o.conn.writer == n.writer)
  {
    hide CiphersOk, Drain, Sort, QueueOk, StateOk, Collect, Answers;
    var m := n.(pending := Collect(n.pending, incoming, READS).pending);
    DrainKeeps(c, m.records, m.pending);
    var d := Drain(c, m.records, m.pending);
    if Collect(n.pending, incoming, READS).error.None? && d.bodies.Success? {
      var q := m.(records := d.state, pending := d.rest);
      if Sort(c, inspect, q, 0, d.bodies.value).error.None? {
        SortAnswers(c, inspect, q, 0, d.bodies.value);
        SortQuiet(c, inspect, q, 0, d.bodies.value);
      }
    }
  }

  lemma {:induction false} SortQuiet(c: Ciphers, inspect: Inspection, n: Conn, k: nat, bodies: seq<seq<byte>>)
    requires CiphersOk(c) && ConnOk(n) && Sort(c, inspect, n, k, bodies).error.None?
    ensures var o := Sort(c, inspect, n, k, bodies);
            o.sent == [] ==> o.conn.queue == n.queue && o.conn.writer == n.writer
    decreases |bodies|
  {
    hide Feed, QueueOk, StateOk, CiphersOk, Send, PaddedSize;
    if bodies != [] {
      var f := Feed(n.decoder, bodies[0]);
      var m, other := n.(decoder := f.pending, files := n.files + f.result.value.0), f.result.value.1;
      if other.None? {
        SortQuiet(c, inspect, m, k, bodies[1..]);
      } else {
        InspectedSends(c, m, inspect(k, other.value));
        SortQuiet(c, inspect, Inspected(c, m, inspect(k, other.value)).conn, k + 1, bodies[1..]);
      }
    }
  }
}
