/**
 One end of the control channel: records are encrypted, queued and written on the way out; on the way in, bytes
 are collected, opened, and split into file messages and other control bodies.

 Interpreting the other control bodies is a parameter that may refuse one; a run stops at its first error, as the
 connection does.
 */
module ControlModel {
  import opened Bytes
  import opened RecordModel
  import opened OutboundModel
  import opened FileMessages

  const READ_BYTES := 8192
  const READS := 8
  const PENDING := 4194304
  const FILE_BACKLOG := 256
  const YIELD := 65536

  datatype Read = Chunk(bytes: seq<byte>) | NotReady | Again | Gone

  datatype Conn = Conn(records: RecordState, queue: Queue, writer: Writer, pending: seq<byte>, decoder: seq<byte>,
                       files: seq<Message>)

  datatype ConnError =
      Records(record: RecordError) | Output(output: OutError) | Files(file: FileError)
    | NotFile | TcpClosed | TcpFailed | Overflow | Flood | Refused

  /** What interpreting a control body comes to: the connection refuses it, or goes on and may send one body. */
  datatype Reply = Deny | Allow(send: Option<seq<byte>>)

  /** The answers of one poll: `inspect(k, body)` is what its control body number `k` comes to. */
  type Inspection = (nat, seq<byte>) -> Reply

  predicate ConnOk(n: Conn) {
    StateOk(n.records) && QueueOk(n.queue)
  }

  /** What one step did besides changing the connection: bodies queued, bytes read, and what was handed out. */
  datatype Outcome = Outcome(conn: Conn, error: Option<ConnError>, sent: seq<seq<byte>>, arrived: seq<byte>,
                             messages: seq<Message>, others: seq<seq<byte>>)

  function Failed(n: Conn, e: ConnError): Outcome {
    Outcome(n, Some(e), [], [], [], [])
  }

  // ----- sending

  function Flushes(n: Conn): (Conn, Option<ConnError>)
    requires ConnOk(n)
  {
    var f := Flush(n.queue, n.writer);
    (n.(queue := f.q, writer := f.w), if f.error.Some? then Some(Output(f.error.value)) else None)
  }

  function Send(c: Ciphers, n: Conn, body: seq<byte>): Outcome
    requires ConnOk(n)
  {
    match Encrypt(c, n.records, body)
    case (s, Failure(e)) => Failed(n.(records := s), Records(e))
    case (s, Success(wire)) =>
      var n := n.(records := s);
      var (q, full) := Push(n.queue, wire);
      if full.Some? then Failed(n, Output(full.value))
      else
        StepsOk(c, n.records, body);
        PushOk(n.queue, wire);
        var f := Flush(q, n.writer);
        var error := if f.error.Some? then Some(Output(f.error.value)) else None;
        Outcome(n.(queue := f.q, writer := f.w), error, [body], [], [], [])
  }

  /** Bulk data yields, before anything is encrypted, while too much is still queued. */
  function SendFile(c: Ciphers, n: Conn, body: seq<byte>): Outcome
    requires ConnOk(n)
  {
    if body == [] || body[0] != MARK then Failed(n, NotFile)
    else if n.queue.bytes > YIELD then Outcome(n, None, [], [], [], [])
    else Send(c, n, body)
  }

  // ----- receiving

  datatype Collected = Collected(pending: seq<byte>, arrived: seq<byte>, error: Option<ConnError>)

  /** At most eight reads of at most 8192 bytes each. */
  function Collect(pending: seq<byte>, incoming: seq<Read>, turns: nat): Collected
    decreases turns
  {
    if turns == 0 || incoming == [] then Collected(pending, [], None)
    else
      match incoming[0]
      case NotReady => Collected(pending, [], None)
      case Again => Collect(pending, incoming[1..], turns - 1)
      case Gone => Collected(pending, [], Some(TcpFailed))
      case Chunk(bytes) =>
        var bytes := bytes[..Min(READ_BYTES, |bytes|)];
        if bytes == [] then Collected(pending, [], Some(TcpClosed))
        else if |pending + bytes| > PENDING then Collected(pending + bytes, bytes, Some(Overflow))
        else
          var r := Collect(pending + bytes, incoming[1..], turns - 1);
          r.(arrived := bytes + r.arrived)
  }

  /** Splits the opened bodies into file messages and other control bodies, and acts on the latter. */
  function Sort(c: Ciphers, inspect: Inspection, n: Conn, k: nat, bodies: seq<seq<byte>>): Outcome
    requires ConnOk(n)
    decreases |bodies|
  {
    if bodies == [] then Outcome(n, None, [], [], [], [])
    else
      var f := Feed(n.decoder, bodies[0]);
      var m := n.(decoder := f.pending);
      if f.result.Failure? then Failed(m, Files(f.result.error))
      else if |n.files| + |f.result.value.0| > FILE_BACKLOG then Failed(m, Flood)
      else
        var p, other := m.(files := n.files + f.result.value.0), f.result.value.1;
        if other.None? then Sort(c, inspect, p, k, bodies[1..])
        else
          var o := Inspected(c, p, inspect(k, other.value));
          if o.error.Some? || !ConnOk(o.conn) then o
          else
            var r := Sort(c, inspect, o.conn, k + 1, bodies[1..]);
            r.(sent := o.sent + r.sent, others := [other.value] + r.others)
  }

  function Inspected(c: Ciphers, n: Conn, reply: Reply): Outcome
    requires ConnOk(n)
  {
    if reply.Deny? then Failed(n, Refused)
    else if reply.send.None? then Outcome(n, None, [], [], [], [])
    else Send(c, n, reply.send.value)
  }

  function Receive(c: Ciphers, inspect: Inspection, n: Conn, incoming: seq<Read>): Outcome
    requires ConnOk(n)
  {
    var r := Collect(n.pending, incoming, READS);
    var m := n.(pending := r.pending);
    if r.error.Some? then Outcome(m, r.error, [], r.arrived, [], [])
    else
      var d := Drain(c, m.records, m.pending);
      var n := m.(records := d.state, pending := d.rest);
      match d.bodies
      case Failure(e) => Outcome(n, Some(Records(e)), [], r.arrived, [], [])
      case Success(bodies) =>
        DrainKeeps(c, m.records, m.pending);
        var o := Sort(c, inspect, n, 0, bodies);
        o.(arrived := r.arrived, others := if o.error.Some? then [] else o.others)
  }

  function PollIn(c: Ciphers, inspect: Inspection, n: Conn, incoming: seq<Read>): Outcome
    requires ConnOk(n)
  {
    var (m, e) := Flushes(n);
    FlushConserves(n.queue, n.writer, FLUSH_BYTES, FLUSH_CALLS);
    if e.Some? then Failed(m, e.value) else Receive(c, inspect, m, incoming)
  }

  /** One poll; when a layout change is due for it, the media offer is sent again at the end. */
  function Poll(c: Ciphers, inspect: Inspection, n: Conn, incoming: seq<Read>, offer: Option<seq<byte>>): Outcome
    requires ConnOk(n)
  {
    var o := PollIn(c, inspect, n, incoming);
    if o.error.Some? || offer.None? then o
    else
      PollInOk(c, inspect, n, incoming);
      var p := Send(c, o.conn, offer.value);
      p.(sent := o.sent + p.sent, arrived := o.arrived, others := if p.error.Some? then [] else o.others)
  }

  // ----- whole runs

  datatype Step =
    | SendBody(body: seq<byte>)
    | SendFileBody(body: seq<byte>)
    | PollOnce(incoming: seq<Read>, inspect: Inspection, offer: Option<seq<byte>>)
    | TakeFiles

  function Do(c: Ciphers, n: Conn, step: Step): Outcome
    requires ConnOk(n)
  {
    match step
    case SendBody(body) => Send(c, n, body)
    case SendFileBody(body) => SendFile(c, n, body)
    case PollOnce(incoming, inspect, offer) => Poll(c, inspect, n, incoming, offer)
    case TakeFiles => Outcome(n.(files := []), None, [], [], n.files, [])
  }

  function Run(c: Ciphers, n: Conn, steps: seq<Step>): Outcome
    requires ConnOk(n)
    decreases |steps|
  {
    if steps == [] then Outcome(n, None, [], [], [], [])
    else
      var o := Do(c, n, steps[0]);
      if o.error.Some? || !ConnOk(o.conn) then o
      else
        var r := Run(c, o.conn, steps[1..]);
        Outcome(r.conn, r.error, o.sent + r.sent, o.arrived + r.arrived, o.messages + r.messages, o.others + r.others)
  }

  function Fresh(iv: seq<byte>, answers: nat -> Answer): Conn {
    Conn(RecordState(iv, iv, 0, 0, false), EMPTY, OutboundModel.Writer(answers, 0, []), [], [], [])
  }

  // ----- what leaves one end

  /** The sending half of a record layer. */
  function SendSide(s: RecordState): RecordState {
    RecordState(s.encIv, Zeros(BLOCK), s.encSeq, 0, false)
  }

  function Pipe(n: Conn): seq<byte>
    requires QueueOk(n.queue)
  {
    n.writer.written + Queued(n.queue)
  }

  lemma {:induction false} DrainKeeps(c: Ciphers, s: RecordState, pending: seq<byte>)
    requires StateOk(s)
    ensures var d := Drain(c, s, pending);
            && StateOk(d.state) && SendSide(d.state) == SendSide(s)
            && (d.bodies.Success? && !s.failed ==> !d.state.failed)
    decreases |pending|
  {
    hide CbcDecrypt, Chained, Hashed, U16;
    if |pending| >= 2 {
      var n := U16(pending[0], pending[1]);
      if n >= MIN_RECORD && n % BLOCK == 0 && 2 + n <= |pending| {
        StepsOk(c, s, pending[2..2 + n]);
        DecryptKeeps(c, s, pending[2..2 + n]);
        hide Decrypt;
        DrainKeeps(c, Decrypt(c, s, pending[2..2 + n]).0, pending[2 + n..]);
      }
    }
  }

  lemma DecryptKeeps(c: Ciphers, s: RecordState, ct: seq<byte>)
    requires StateOk(s)
    ensures SendSide(Decrypt(c, s, ct).0) == SendSide(s)
    ensures Decrypt(c, s, ct).1.Success? ==> !Decrypt(c, s, ct).0.failed && !s.failed
  {
    hide CbcDecrypt, Chained, Hashed, U16;
  }

  /** What every step keeps on the way out. */
  ghost predicate SendsAs(c: Ciphers, n: Conn, o: Outcome)
    requires ConnOk(n)
  {
    && ConnOk(o.conn) && Encryptable(SendSide(n.records), o.sent)
    && n.writer.written <= o.conn.writer.written
    && Pipe(o.conn) == Pipe(n) + Stream(c, SendSide(n.records), o.sent)
    && (o.error.None? ==> SendSide(o.conn.records) == Sent(c, SendSide(n.records), o.sent))
    && (o.error.None? && !n.records.failed ==> !o.conn.records.failed)
  }

  lemma SendNothing(c: Ciphers, n: Conn)
    requires ConnOk(n)
    ensures Encryptable(SendSide(n.records), []) && Pipe(n) == Pipe(n) + Stream(c, SendSide(n.records), [])
    ensures Sent(c, SendSide(n.records), []) == SendSide(n.records)
  {
    hide QueueOk, Queued;
  }

  lemma SendOne(c: Ciphers, s: RecordState, body: seq<byte>)
    requires StateOk(s) && Encrypt(c, s, body).1.Success?
    ensures Encryptable(SendSide(s), [body]) && !s.failed && !Encrypt(c, s, body).0.failed
    ensures Stream(c, SendSide(s), [body]) == Encrypt(c, s, body).1.value
    ensures Sent(c, SendSide(s), [body]) == SendSide(Encrypt(c, s, body).0) && StateOk(Encrypt(c, s, body).0)
  {
    hide Record, Ciphertext, Chained;
    var t := SendSide(s);
    assert [body][1..] == [] && [body][0] == body;
    var wire := Encrypt(c, s, body).1.value;
    assert wire + [] == wire;
    StepsOk(c, t, body);
    assert Stream(c, t, [body]) == Record(c, t.encIv, t.encSeq, body) + Stream(c, Encrypt(c, t, body).0, []);
  }

  lemma SendOk(c: Ciphers, n: Conn, body: seq<byte>)
    requires ConnOk(n)
    ensures SendsAs(c, n, Send(c, n, body))
  {
    hide Encrypt, Stream, Sent, Queued, QueueOk, StateOk, Push, FlushFrom, Encryptable, SendSide;
    SendNothing(c, n);
    StepsOk(c, n.records, body);
    EncryptFails(c, n.records, body);
    var (s, r) := Encrypt(c, n.records, body);
    if r.Success? {
      SendOne(c, n.records, body);
      PushOk(n.queue, r.value);
      var (q, full) := Push(n.queue, r.value);
      if full.None? {
        FlushConserves(q, n.writer, FLUSH_BYTES, FLUSH_CALLS);
        assert n.writer.written + (Queued(n.queue) + r.value) == n.writer.written + Queued(n.queue) + r.value;
      }
    }
  }

  lemma EncryptFails(c: Ciphers, s: RecordState, body: seq<byte>)
    requires StateOk(s)
    ensures Encrypt(c, s, body).1.Failure? ==> Encrypt(c, s, body).0 == s
  {
  }

  lemma InspectedOk(c: Ciphers, n: Conn, reply: Reply)
    requires ConnOk(n)
    ensures SendsAs(c, n, Inspected(c, n, reply))
  {
    hide Stream, Sent, QueueOk, StateOk, Encryptable, SendSide, Send, Queued;
    SendNothing(c, n);
    if reply.Allow? && reply.send.Some? {
      SendOk(c, n, reply.send.value);
    }
  }

  /** One thing after another: what was sent is joined. */
  lemma SendsJoin(c: Ciphers, n: Conn, o: Outcome, p: Outcome, all: Outcome)
    requires ConnOk(n) && SendsAs(c, n, o) && o.error.None? && SendsAs(c, o.conn, p)
    requires all.conn == p.conn && all.error == p.error && all.sent == o.sent + p.sent
    ensures SendsAs(c, n, all)
  {
    hide Stream, Sent, QueueOk, StateOk, Encryptable, SendSide, Queued;
    SendSideOk(o.conn.records);
    StreamJoin(c, SendSide(n.records), o.sent, p.sent);
    var a, b := Stream(c, SendSide(n.records), o.sent), Stream(c, SendSide(o.conn.records), p.sent);
    assert Pipe(n) + a + b == Pipe(n) + (a + b);
  }

  /** Only what the receiving half knows has changed. */
  lemma SendsFrom(c: Ciphers, n: Conn, m: Conn, o: Outcome)
    requires ConnOk(n) && ConnOk(m) && SendsAs(c, m, o) && m.queue == n.queue && m.writer == n.writer
    requires SendSide(m.records) == SendSide(n.records) && (!n.records.failed ==> !m.records.failed)
    ensures SendsAs(c, n, o)
  {
    hide Stream, Sent, QueueOk, StateOk, Encryptable, SendSide, Queued;
  }

  lemma {:induction false} SortOk(c: Ciphers, inspect: Inspection, n: Conn, k: nat, bodies: seq<seq<byte>>)
    requires ConnOk(n)
    ensures SendsAs(c, n, Sort(c, inspect, n, k, bodies))
    decreases |bodies|
  {
    hide Stream, Sent, QueueOk, StateOk, Encryptable, SendSide, Inspected, Queued, Feed, Pipe;
    SendNothing(c, n);
    if bodies != [] {
      var f := Feed(n.decoder, bodies[0]);
      if f.result.Success? && |n.files| + |f.result.value.0| <= FILE_BACKLOG {
        var m, other := n.(decoder := f.pending, files := n.files + f.result.value.0), f.result.value.1;
        SamePipe(n, m);
        if other.None? {
          SortOk(c, inspect, m, k, bodies[1..]);
          SendsFrom(c, n, m, Sort(c, inspect, m, k, bodies[1..]));
        } else {
          var o := Inspected(c, m, inspect(k, other.value));
          InspectedOk(c, m, inspect(k, other.value));
          SendsFrom(c, n, m, o);
          if o.error.None? {
            SortOk(c, inspect, o.conn, k + 1, bodies[1..]);
            SendsJoin(c, n, o, Sort(c, inspect, o.conn, k + 1, bodies[1..]), Sort(c, inspect, n, k, bodies));
          }
        }
      } else {
        SamePipe(n, Sort(c, inspect, n, k, bodies).conn);
      }
    }
  }

  lemma ReceiveOk(c: Ciphers, inspect: Inspection, n: Conn, incoming: seq<Read>)
    requires ConnOk(n)
    ensures SendsAs(c, n, Receive(c, inspect, n, incoming))
  {
    hide Stream, Sent, QueueOk, StateOk, Encryptable, SendSide, Drain, Collect, Sort, Pipe;
    SendNothing(c, n);
    var m := n.(pending := Collect(n.pending, incoming, READS).pending);
    DrainKeeps(c, m.records, m.pending);
    SamePipe(n, m);
    var d := Drain(c, m.records, m.pending);
    var drained := m.(records := d.state, pending := d.rest);
    SamePipe(n, drained);
    if Collect(n.pending, incoming, READS).error.None? && d.bodies.Success? {
      SortOk(c, inspect, drained, 0, d.bodies.value);
      SendsFrom(c, n, drained, Sort(c, inspect, drained, 0, d.bodies.value));
    }
  }

  lemma SamePipe(n: Conn, m: Conn)
    requires QueueOk(n.queue) && m.queue == n.queue && m.writer == n.writer
    ensures Pipe(m) == Pipe(n)
  {
  }

  lemma PollInOk(c: Ciphers, inspect: Inspection, n: Conn, incoming: seq<Read>)
    requires ConnOk(n)
    ensures ConnOk(PollIn(c, inspect, n, incoming).conn)
    ensures SendsAs(c, n, PollIn(c, inspect, n, incoming))
  {
    hide Stream, Sent, QueueOk, StateOk, Encryptable, SendSide, Receive, FlushFrom, Queued;
    FlushConserves(n.queue, n.writer, FLUSH_BYTES, FLUSH_CALLS);
    var m := Flushes(n).0;
    SendNothing(c, n);
    ReceiveOk(c, inspect, m, incoming);
  }

  lemma PollOk(c: Ciphers, inspect: Inspection, n: Conn, incoming: seq<Read>, offer: Option<seq<byte>>)
    requires ConnOk(n)
    ensures SendsAs(c, n, Poll(c, inspect, n, incoming, offer))
  {
    hide Stream, Sent, QueueOk, StateOk, Encryptable, SendSide, PollIn, Send, Pipe;
    PollInOk(c, inspect, n, incoming);
    var o := PollIn(c, inspect, n, incoming);
    if o.error.None? && offer.Some? {
      SendOk(c, o.conn, offer.value);
      SendsJoin(c, n, o, Send(c, o.conn, offer.value), Poll(c, inspect, n, incoming, offer));
    }
  }

  lemma DoOk(c: Ciphers, n: Conn, step: Step)
    requires ConnOk(n)
    ensures SendsAs(c, n, Do(c, n, step))
  {
    hide Stream, Sent, QueueOk, StateOk, Encryptable, SendSide, Send, Poll, Queued;
    SendNothing(c, n);
    match step
    case SendBody(body) => SendOk(c, n, body);
    case SendFileBody(body) => SendOk(c, n, body);
    case PollOnce(incoming, inspect, offer) => PollOk(c, inspect, n, incoming, offer);
    case TakeFiles =>
  }

  lemma {:induction false} StreamJoin(c: Ciphers, s: RecordState, a: seq<seq<byte>>, b: seq<seq<byte>>)
    requires Encryptable(s, a) && StateOk(Sent(c, s, a)) && Encryptable(Sent(c, s, a), b)
    ensures Encryptable(s, a + b) && Stream(c, s, a + b) == Stream(c, s, a) + Stream(c, Sent(c, s, a), b)
    ensures Sent(c, s, a + b) == Sent(c, Sent(c, s, a), b)
    decreases |a|
  {
    hide Encrypt, Record;
    if a == [] {
      assert a + b == b && [] + Stream(c, s, b) == Stream(c, s, b);
    } else {
      EncryptAdvances(c, s, a);
      var t := Encrypt(c, s, a[0]).0;
      StreamJoin(c, t, a[1..], b);
      assert (a + b)[1..] == a[1..] + b && (a + b)[0] == a[0];
      EncryptableCons(c, s, a + b);
      var r := Record(c, s.encIv, s.encSeq, a[0]);
      assert r + (Stream(c, t, a[1..]) + Stream(c, Sent(c, t, a[1..]), b))
          == r + Stream(c, t, a[1..]) + Stream(c, Sent(c, t, a[1..]), b);
    }
  }

  lemma EncryptAdvances(c: Ciphers, s: RecordState, a: seq<seq<byte>>)
    requires Encryptable(s, a) && a != []
    ensures |a[0]| <= MAX_BODY && s.encSeq < MAX_SEQUENCE && Encryptable(Encrypt(c, s, a[0]).0, a[1..])
  {
    StepsOk(c, s, a[0]);
  }

  lemma EncryptableCons(c: Ciphers, s: RecordState, a: seq<seq<byte>>)
    requires StateOk(s) && !s.failed && s.encSeq < MAX_SEQUENCE && a != [] && |a[0]| <= MAX_BODY
    requires Encryptable(Encrypt(c, s, a[0]).0, a[1..])
    ensures Encryptable(s, a)
  {
    hide Chained, Ciphertext, Record;
    forall i | 0 <= i < |a| ensures |a[i]| <= MAX_BODY {
      if i > 0 {
        assert a[i] == a[1..][i - 1];
      }
    }
  }

  /**
   Over every run of one end, whatever its writer does: bytes written and bytes still queued together are exactly
   the record stream of the bodies that were queued, in order.
   */
  lemma {:induction false} RunSends(c: Ciphers, n: Conn, steps: seq<Step>)
    requires ConnOk(n) && !n.records.failed
    ensures SendsAs(c, n, Run(c, n, steps))
    decreases |steps|
  {
    hide Do, Stream, Sent, QueueOk, StateOk, Encryptable, SendSide, Queued;
    SendNothing(c, n);
    if steps != [] {
      DoOk(c, n, steps[0]);
      var o := Do(c, n, steps[0]);
      if o.error.None? {
        RunSends(c, o.conn, steps[1..]);
        SendsJoin(c, n, o, Run(c, o.conn, steps[1..]), Run(c, n, steps));
      }
    }
  }

  lemma SendSideOk(s: RecordState)
    requires StateOk(s)
    ensures StateOk(SendSide(s))
  {
  }
}
