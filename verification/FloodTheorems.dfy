/**
 How many file messages one poll may bring: exactly when the limit of 256 ends a run, and receivers that never reach it.
 */
module FloodTheorems {
  import opened Bytes
  import opened RecordModel
  import opened OutboundModel
  import opened FileMessages
  import opened ControlModel
  import opened ControlTheorems
  import opened FileTransfer
  import opened TransferModel

  /** Control bodies are neither refused nor answered. */
  ghost predicate Silent(inspect: Inspection) {
    forall k: nat, body: seq<byte> :: inspect(k, body) == Allow(None)
  }

  lemma SilentAt(inspect: Inspection, k: nat, body: seq<byte>)
    requires Silent(inspect)
    ensures inspect(k, body) == Allow(None)
  {
  }

  // ----- one poll

  /** Splitting bodies fails exactly when the messages that wait and those that the bodies complete are too many. */
  lemma {:induction false} SortFloods(c: Ciphers, inspect: Inspection, n: Conn, k: nat, bodies: seq<seq<byte>>)
    requires ConnOk(n) && Silent(inspect) && |n.files| <= 256 && FeedAll(n.decoder, bodies).error.None?
    ensures var o := Sort(c, inspect, n, k, bodies); var count := |n.files| + |FeedAll(n.decoder, bodies).messages|;
            && o.error == (if count > 256 then Some(Flood) else None)
            && o.conn.queue == n.queue && (o.error.None? ==> |o.conn.files| == count)
    decreases |bodies|
  {
    hide Feed, QueueOk, StateOk, FeedAll, Silent;
    FeedAllNone();
    if bodies != [] {
      FeedAllFirst(n.decoder, bodies);
      var f := Feed(n.decoder, bodies[0]);
      var (messages, other) := f.result.value;
      var m := n.(decoder := f.pending, files := n.files + messages);
      if |n.files| + |messages| <= 256 {
        if other.None? {
          SortFloods(c, inspect, m, k, bodies[1..]);
        } else {
          SilentAt(inspect, k, other.value);
          assert Inspected(c, m, inspect(k, other.value)).conn == m;
          SortFloods(c, inspect, m, k + 1, bodies[1..]);
        }
      }
    }
  }

  lemma InspectedNeverFloods(c: Ciphers, n: Conn, reply: Reply)
    requires ConnOk(n)
    ensures Inspected(c, n, reply).error != Some(Flood)
  {
    hide Encrypt, FlushFrom, Push, QueueOk, StateOk;
  }

  /** Whatever control bodies come to, it is only so many messages that flood. */
  lemma {:induction false} FloodNeedsMany(c: Ciphers, inspect: Inspection, n: Conn, k: nat, bodies: seq<seq<byte>>)
    requires ConnOk(n) && !n.records.failed && Sort(c, inspect, n, k, bodies).error == Some(Flood)
    ensures |n.files| + |FeedAll(n.decoder, bodies).messages| > 256
    decreases |bodies|
  {
    hide Feed, QueueOk, StateOk, FeedAll, Inspected;
    FeedAllFirst(n.decoder, bodies);
    var f := Feed(n.decoder, bodies[0]);
    if f.result.Success? {
      var (messages, other) := f.result.value;
      var m := n.(decoder := f.pending, files := n.files + messages);
      if |n.files| + |messages| <= 256 {
        if other.None? {
          FloodNeedsMany(c, inspect, m, k, bodies[1..]);
        } else {
          InspectedNeverFloods(c, m, inspect(k, other.value));
          InspectedReceives(c, m, inspect(k, other.value));
          FloodNeedsMany(c, inspect, Inspected(c, m, inspect(k, other.value)).conn, k + 1, bodies[1..]);
        }
      }
    }
  }

  /** Bytes, or nothing for now. */
  predicate Readable(incoming: seq<Read>) {
    forall r <- incoming :: r.NotReady? || r.Again? || (r.Chunk? && r.bytes != [])
  }

  lemma {:induction false} CollectReadable(pending: seq<byte>, incoming: seq<Read>, turns: nat)
    requires Readable(incoming) && |pending| + turns * READ_BYTES <= PENDING
    ensures Collect(pending, incoming, turns).error.None?
    decreases turns
  {
    if turns > 0 && incoming != [] {
      assert incoming[0] in incoming;
      if incoming[0].Again? {
        CollectReadable(pending, incoming[1..], turns - 1);
      } else if incoming[0].Chunk? {
        var bytes := incoming[0].bytes[..Min(READ_BYTES, |incoming[0].bytes|)];
        CollectReadable(pending + bytes, incoming[1..], turns - 1);
      }
    }
  }

  /** The file messages that the bytes of a poll complete. */
  function Completed(c: Ciphers, n: Conn, incoming: seq<Read>): nat
    requires ConnOk(n)
  {
    var d := Drain(c, n.records, Collect(n.pending, incoming, READS).pending);
    if d.bodies.Failure? then 0 else |FeedAll(n.decoder, d.bodies.value).messages|
  }

  /** The messages that wait and those that the poll completes are at most 256. */
  predicate Roomy(c: Ciphers, n: Conn, step: Step)
    requires ConnOk(n)
  {
    step.PollOnce? ==> |n.files| + Completed(c, n, step.incoming) <= 256
  }

  /** The messages are taken, or a poll reads what there is and only receives. */
  ghost predicate Calm(step: Step) {
    step.TakeFiles? || (step.PollOnce? && Readable(step.incoming) && Silent(step.inspect) && step.offer.None?)
  }

  lemma NothingToFlush(n: Conn)
    requires ConnOk(n) && n.queue == EMPTY
    ensures Flushes(n).0 == n && Flushes(n).1.None?
  {
    hide QueueOk, StateOk, FlushFrom;
    FlushEnds(n.queue, n.writer, FLUSH_BYTES, FLUSH_CALLS);
  }

  /** A step of a receiver that sends nothing fails exactly when it floods. */
  lemma CalmStep(c: Ciphers, a: RecordState, bodies: seq<seq<byte>>, n: Conn, x: seq<byte>, step: Step,
                 taken: seq<Message>, others: seq<seq<byte>>, k: nat)
    requires CiphersOk(c) && Encryptable(a, bodies) && Caught(c, a, bodies, n, x, taken, others, k) && ConnOk(n)
    requires FeedAll([], bodies).error.None? && x + Do(c, n, step).arrived <= Stream(c, a, bodies)
    requires n.queue == EMPTY && |n.files| <= 256 && Calm(step)
    ensures var o := Do(c, n, step);
            && o.error == (if Roomy(c, n, step) then None else Some(Flood))
            && (o.error.None? ==> o.conn.queue == EMPTY && |o.conn.files| <= 256)
  {
    hide Drain, CiphersOk, Stream, PartOfRecord, QueueOk, Sort, Collect, FeedAll, StateOk, Sent, InStep, Silent,
      Flushes, Readable;
    if step.PollOnce? {
      NothingToFlush(n);
      var r := Collect(n.pending, step.incoming, READS);
      CollectIsAppend(n.pending, step.incoming, READS);
      PendingSmall(c, Sent(c, a, bodies[..k]), bodies[k..], n.pending);
      CollectReadable(n.pending, step.incoming, READS);
      var d := Drain(c, n.records, r.pending);
      DrainKeeps(c, n.records, r.pending);
      ReceiveArrives(c, step.inspect, n, step.incoming);
      var j := DrainCatches(c, a, bodies, n, x, r.arrived, taken, others, k);
      FeedNext(bodies, k, j);
      SortFloods(c, step.inspect, n.(records := d.state, pending := d.rest), 0, bodies[k..k + j]);
    }
  }

  // ----- whole runs

  /** Every poll of the run is roomy. */
  predicate RoomyRun(c: Ciphers, n: Conn, steps: seq<Step>)
    requires ConnOk(n)
    decreases |steps|
  {
    steps == [] ||
    (&& Roomy(c, n, steps[0])
     && (ConnOk(Do(c, n, steps[0]).conn) ==> RoomyRun(c, Do(c, n, steps[0]).conn, steps[1..])))
  }

  /** A receiver that sends nothing runs without error exactly when all of its polls are roomy; otherwise it floods. */
  lemma {:induction false} CalmRun(c: Ciphers, a: RecordState, bodies: seq<seq<byte>>, n: Conn, x: seq<byte>,
                                   steps: seq<Step>, taken: seq<Message>, others: seq<seq<byte>>, k: nat)
    requires CiphersOk(c) && Encryptable(a, bodies) && ConnOk(n) && Caught(c, a, bodies, n, x, taken, others, k)
    requires FeedAll([], bodies).error.None? && x + Run(c, n, steps).arrived <= Stream(c, a, bodies)
    requires n.queue == EMPTY && |n.files| <= 256 && forall s <- steps :: Calm(s)
    ensures Run(c, n, steps).error == if RoomyRun(c, n, steps) then None else Some(Flood)
    decreases |steps|
  {
    hide Caught, CiphersOk, Encryptable, Do, Stream, FeedAll, QueueOk, StateOk, Calm, Roomy;
    if steps != [] {
      var o := Do(c, n, steps[0]);
      DoOk(c, n, steps[0]);
      assert Calm(steps[0]);
      FirstArrives(c, a, bodies, n, x, steps);
      CalmStep(c, a, bodies, n, x, steps[0], taken, others, k);
      if o.error.None? {
        var r := Run(c, o.conn, steps[1..]);
        Rejoin(x, o.arrived, r.arrived);
        var next := DoCatches(c, a, bodies, n, x, steps[0], taken, others, k);
        CalmRun(c, a, bodies, o.conn, x + o.arrived, steps[1..], taken + o.messages, others + o.others, next);
      }
    }
  }

  lemma FirstArrives(c: Ciphers, a: RecordState, bodies: seq<seq<byte>>, n: Conn, x: seq<byte>, steps: seq<Step>)
    requires ConnOk(n) && steps != [] && Encryptable(a, bodies) && x + Run(c, n, steps).arrived <= Stream(c, a, bodies)
    ensures x + Do(c, n, steps[0]).arrived <= Stream(c, a, bodies)
  {
    hide Do, Stream, QueueOk, StateOk, Encryptable;
    var o := Do(c, n, steps[0]);
    if o.error.None? && ConnOk(o.conn) {
      var r := Run(c, o.conn, steps[1..]);
      Rejoin(x, o.arrived, r.arrived);
      Beginning(x + o.arrived, r.arrived, Stream(c, a, bodies));
    }
  }

  /** Two ends: if the receiver only polls and takes its messages, it fails exactly when a poll brings too many. */
  lemma CalmEnd(c: Ciphers, iv: seq<byte>, here: End, there: End)
    requires CiphersOk(c) && |iv| == BLOCK && QueueOk(Play(c, iv, here).conn.queue)
    requires Play(c, iv, there).arrived <= Pipe(Play(c, iv, here).conn) && forall s <- there.steps :: Calm(s)
    requires FeedAll([], Play(c, iv, here).sent).error.None? && ConnOk(Fresh(iv, there.answers))
    ensures Play(c, iv, there).error
         == if RoomyRun(c, Fresh(iv, there.answers), there.steps) then None else Some(Flood)
  {
    hide CiphersOk, Run, FeedAll, Stream, Caught, Sent, Encryptable, QueueOk, Queued, Pipe, RoomyRun, Calm;
    var from := Play(c, iv, here);
    var a := PlaySends(c, iv, here);
    FreshCaught(c, iv, there.answers, a, from.sent);
    EmptyLeft(Play(c, iv, there).arrived);
    CalmRun(c, a, from.sent, Fresh(iv, there.answers), [], there.steps, [], [], 0);
  }

  // ----- how many messages fit one poll

  /** A record of any file message has at least 50 bytes; one of a one-byte data message has exactly 50. */
  lemma {:induction false} StreamLength(c: Ciphers, s: RecordState, bodies: seq<seq<byte>>)
    requires CiphersOk(c) && Encryptable(s, bodies) && forall b <- bodies :: |b| >= HEADER
    ensures |Stream(c, s, bodies)| >= 50 * |bodies|
    ensures (forall b <- bodies :: |b| == HEADER + 1) ==> |Stream(c, s, bodies)| == 50 * |bodies|
    decreases |bodies|
  {
    hide CiphersOk, Record, Encrypt;
    if bodies != [] {
      assert bodies[0] in bodies;
      RecordSize(c, s, bodies[0]);
      StepsOk(c, s, bodies[0]);
      EncryptableRest(c, s, bodies);
      StreamLength(c, Encrypt(c, s, bodies[0]).0, bodies[1..]);
    }
  }

  lemma EncryptableRest(c: Ciphers, s: RecordState, bodies: seq<seq<byte>>)
    requires Encryptable(s, bodies) && bodies != []
    ensures Encryptable(Encrypt(c, s, bodies[0]).0, bodies[1..])
  {
    hide Ciphertext, Record;
    StepsOk(c, s, bodies[0]);
  }

  /** With at most 12,800 more bytes, at most 256 records of file messages are complete. */
  lemma FewRecords(c: Ciphers, t: RecordState, bodies: seq<seq<byte>>, pending: seq<byte>, arrived: seq<byte>, j: nat,
                   rest: seq<byte>)
    requires CiphersOk(c) && Encryptable(t, bodies) && (forall b <- bodies :: |b| >= HEADER) && j <= |bodies|
    requires PartOfRecord(c, t, bodies, pending) && Encryptable(t, bodies[..j])
    requires |pending| + |arrived| == |Stream(c, t, bodies[..j])| + |rest| && |arrived| <= 12800
    ensures j <= 256
  {
    hide CiphersOk, Record, Encrypt;
    if j > 0 {
      var first := bodies[..j];
      assert first[0] == bodies[0];
      EncryptableRest(c, t, first);
      forall b | b in first[1..] ensures |b| >= HEADER {
        assert b in bodies;
      }
      StreamLength(c, Encrypt(c, t, first[0]).0, first[1..]);
      RecordNonempty(c, t, bodies[0]);
    }
  }

  /** What a poll opens is what was pending and arrived, but for the rest. */
  lemma OpenedLength(c: Ciphers, a: RecordState, bodies: seq<seq<byte>>, t: RecordState, pending: seq<byte>,
                     x: seq<byte>, arrived: seq<byte>, k: nat, j: nat, rest: seq<byte>)
    requires Encryptable(a, bodies) && k + j <= |bodies| && t == Sent(c, a, bodies[..k])
    requires Encryptable(t, bodies[k..]) && x + arrived <= Stream(c, a, bodies)
    requires pending + Stream(c, a, bodies)[|x|..] == Stream(c, t, bodies[k..])
    requires StateOk(a) && Encryptable(Sent(c, a, bodies[..k + j]), bodies[k + j..])
    requires rest + Stream(c, a, bodies)[|x + arrived|..] == Stream(c, Sent(c, a, bodies[..k + j]), bodies[k + j..])
    ensures Encryptable(t, bodies[k..][..j])
    ensures |pending| + |arrived| == |Stream(c, t, bodies[k..][..j])| + |rest|
  {
    hide Encrypt, Record;
    var next := bodies[k..][..j];
    SentSplit(c, a, bodies, k, j);
    SentOk(c, t, bodies[k..], j);
    hide Stream, Sent;
    assert bodies[k..] == next + bodies[k + j..];
    StreamJoin(c, t, next, bodies[k + j..]);
  }

  lemma MessageBodies(fs: seq<Framed>)
    requires Sendables(fs)
    ensures forall b <- AsBodies(fs) :: |b| >= HEADER
    ensures FeedAll([], AsBodies(fs)) == Inbox([], Messages(fs), [], None)
  {
    hide Wire;
    forall i | 0 <= i < |fs| ensures |AsBodies(fs)[i]| >= HEADER {
      WireFields(fs[i]);
    }
    AsBodiesJoined(fs);
    assert Wires(fs) + [] == Wires(fs);
    FeedRoundTrip(fs, [], AsBodies(fs));
  }

  lemma BodiesPart(fs: seq<Framed>, k: nat, j: nat)
    requires Sendables(fs) && k + j <= |fs|
    ensures Sendables(fs[..k]) && AsBodies(fs[..k]) == AsBodies(fs)[..k]
    ensures Sendables(fs[k..k + j]) && AsBodies(fs[k..k + j]) == AsBodies(fs)[k..k + j]
  {
    hide Wire, Sendable;
  }

  lemma CompletesEach(c: Ciphers, a: RecordState, fs: seq<Framed>, n: Conn, x: seq<byte>, taken: seq<Message>,
                      others: seq<seq<byte>>, k: nat, j: nat)
    requires Sendables(fs) && Encryptable(a, AsBodies(fs)) && Caught(c, a, AsBodies(fs), n, x, taken, others, k)
    requires k + j <= |fs|
    ensures |FeedAll(n.decoder, AsBodies(fs)[k..k + j]).messages| == j
  {
    hide Stream, PartOfRecord, FeedAll, Sent, InStep, Wire, Sendable, Encryptable, QueueOk, StateOk, AsBodies;
    BodiesPart(fs, k, j);
    MessageBodies(fs[..k]);
    MessageBodies(fs[k..k + j]);
  }

  lemma OpensFew(c: Ciphers, a: RecordState, bodies: seq<seq<byte>>, n: Conn, x: seq<byte>, arrived: seq<byte>,
                 taken: seq<Message>, others: seq<seq<byte>>, k: nat) returns (j: nat)
    requires CiphersOk(c) && Encryptable(a, bodies) && Caught(c, a, bodies, n, x, taken, others, k)
    requires x + arrived <= Stream(c, a, bodies) && |arrived| <= 12800
    requires forall b <- bodies :: |b| >= HEADER
    ensures k + j <= |bodies| && j <= 256
    ensures Drain(c, n.records, n.pending + arrived).bodies == Success(bodies[k..k + j])
  {
    hide Drain, CiphersOk, Stream, PartOfRecord, FeedAll, Sent, InStep, Encryptable, QueueOk;
    var t := Sent(c, a, bodies[..k]) by { EncryptableOk(a, bodies); }
    j := DrainCatches(c, a, bodies, n, x, arrived, taken, others, k);
    EncryptableOk(a, bodies);
    var d := Drain(c, n.records, n.pending + arrived);
    OpenedLength(c, a, bodies, t, n.pending, x, arrived, k, j, d.rest);
    forall b | b in bodies[k..] ensures |b| >= HEADER {
      assert b in bodies;
    }
    FewRecords(c, t, bodies[k..], n.pending, arrived, j, d.rest);
  }

  lemma EncryptableOk(s: RecordState, bodies: seq<seq<byte>>)
    requires Encryptable(s, bodies)
    ensures StateOk(s)
  {
  }

  /** When every body holds one file message, a poll of at most 12,800 bytes completes at most 256. */
  lemma FewComplete(c: Ciphers, a: RecordState, fs: seq<Framed>, n: Conn, x: seq<byte>, incoming: seq<Read>,
                    taken: seq<Message>, others: seq<seq<byte>>, k: nat)
    requires CiphersOk(c) && Sendables(fs) && Encryptable(a, AsBodies(fs)) && ConnOk(n)
    requires Caught(c, a, AsBodies(fs), n, x, taken, others, k)
    requires var arrived := Collect(n.pending, incoming, READS).arrived;
             x + arrived <= Stream(c, a, AsBodies(fs)) && |arrived| <= 12800
    ensures Completed(c, n, incoming) <= 256
  {
    hide Drain, CiphersOk, Stream, Caught, Collect, FeedAll, Sendable, Encryptable, QueueOk, StateOk, AsBodies;
    CollectIsAppend(n.pending, incoming, READS);
    MessageBodies(fs);
    var j := OpensFew(c, a, AsBodies(fs), n, x, Collect(n.pending, incoming, READS).arrived, taken, others, k);
    CompletesEach(c, a, fs, n, x, taken, others, k, j);
  }

  // ----- a receiver that keeps up

  /** After every read of at most 8192 bytes the messages are taken. */
  function Fetching(chunks: seq<seq<byte>>, inspect: Inspection): seq<Step> {
    if chunks == [] then []
    else [PollOnce([Chunk(chunks[0])], inspect, None), TakeFiles] + Fetching(chunks[1..], inspect)
  }

  predicate Reads(chunks: seq<seq<byte>>) {
    forall b <- chunks :: 0 < |b| <= READ_BYTES
  }

  lemma OneRead(pending: seq<byte>, chunk: seq<byte>)
    requires 0 < |chunk| <= READ_BYTES && |pending| + READ_BYTES <= PENDING
    ensures Collect(pending, [Chunk(chunk)], READS).arrived == chunk && Readable([Chunk(chunk)])
  {
    assert chunk[..|chunk|] == chunk && chunk + [] == chunk && [Chunk(chunk)][1..] == [];
    assert Collect(pending + chunk, [], READS - 1) == Collected(pending + chunk, [], None);
  }

  lemma CaughtPending(c: Ciphers, a: RecordState, bodies: seq<seq<byte>>, n: Conn, x: seq<byte>, taken: seq<Message>,
                      others: seq<seq<byte>>, k: nat)
    requires CiphersOk(c) && Encryptable(a, bodies) && Caught(c, a, bodies, n, x, taken, others, k)
    ensures |n.pending| <= 2 + MAX_RECORD
  {
    hide CiphersOk, Stream, PartOfRecord, FeedAll, Sent, InStep, QueueOk;
    PendingSmall(c, Sent(c, a, bodies[..k]), bodies[k..], n.pending);
  }

  lemma PollArrives(c: Ciphers, n: Conn, incoming: seq<Read>, inspect: Inspection)
    requires ConnOk(n) && n.queue == EMPTY
    ensures Do(c, n, PollOnce(incoming, inspect, None)).arrived == Collect(n.pending, incoming, READS).arrived
  {
    hide Receive, Flushes, QueueOk, StateOk, Collect;
    NothingToFlush(n);
    ReceiveArrives(c, inspect, n, incoming);
  }

  /** One read, and the messages are taken. */
  ghost predicate Fetched(c: Ciphers, a: RecordState, bodies: seq<seq<byte>>, o: Outcome, x: seq<byte>,
                          taken: seq<Message>, others: seq<seq<byte>>, k: nat)
  {
    && o.error.None? && ConnOk(o.conn) && o.conn.queue == EMPTY && Encryptable(a, bodies)
    && Caught(c, a, bodies, o.conn.(files := []), x, taken + o.messages + o.conn.files, others + o.others, k)
  }

  lemma FetchStep(c: Ciphers, a: RecordState, fs: seq<Framed>, n: Conn, x: seq<byte>, chunk: seq<byte>,
                  inspect: Inspection, taken: seq<Message>, others: seq<seq<byte>>, k: nat, o: Outcome)
    returns (next: nat)
    requires Sendables(fs) && Encryptable(a, AsBodies(fs)) && x + chunk <= Stream(c, a, AsBodies(fs))
    requires CiphersOk(c) && ConnOk(n) && o == Do(c, n, PollOnce([Chunk(chunk)], inspect, None))
    requires Caught(c, a, AsBodies(fs), n, x, taken, others, k)
    requires n.queue == EMPTY && n.files == [] && Silent(inspect) && 0 < |chunk| <= READ_BYTES
    ensures Fetched(c, a, AsBodies(fs), o, x + chunk, taken, others, next) && o.arrived == chunk
  {
    hide CiphersOk, Stream, Caught, Collect, FeedAll, Sendables, Encryptable, ConnOk, AsBodies, Do, Completed, Roomy,
      Calm, Silent, Readable, SendsAs;
    var bodies, step := AsBodies(fs), PollOnce([Chunk(chunk)], inspect, None);
    CaughtPending(c, a, bodies, n, x, taken, others, k);
    OneRead(n.pending, chunk);
    PollArrives(c, n, [Chunk(chunk)], inspect);
    MessageBodies(fs);
    FewComplete(c, a, fs, n, x, [Chunk(chunk)], taken, others, k);
    StepIsRoomy(c, n, [Chunk(chunk)], inspect);
    CalmStep(c, a, bodies, n, x, step, taken, others, k);
    next := DoCatches(c, a, bodies, n, x, step, taken, others, k);
    CaughtTaken(c, a, bodies, o.conn, x + chunk, taken + o.messages, others + o.others, next);
    DoOk(c, n, step);
    SendsAsOk(c, n, o);
  }

  lemma StepIsRoomy(c: Ciphers, n: Conn, incoming: seq<Read>, inspect: Inspection)
    requires ConnOk(n) && n.files == [] && Completed(c, n, incoming) <= 256
    requires Readable(incoming) && Silent(inspect)
    ensures var step := PollOnce(incoming, inspect, None); Roomy(c, n, step) && Calm(step) && |n.files| <= 256
  {
    hide Completed, Readable, Silent, QueueOk, StateOk;
  }

  lemma FetchParts(c: Ciphers, n: Conn, chunks: seq<seq<byte>>, inspect: Inspection)
    requires ConnOk(n) && chunks != []
    requires var o := Do(c, n, PollOnce([Chunk(chunks[0])], inspect, None)); o.error.None? && ConnOk(o.conn)
    ensures var o := Do(c, n, PollOnce([Chunk(chunks[0])], inspect, None));
            && ConnOk(o.conn.(files := []))
            && var r := Run(c, o.conn.(files := []), Fetching(chunks[1..], inspect));
               && Run(c, n, Fetching(chunks, inspect)).error == r.error
               && Run(c, n, Fetching(chunks, inspect)).arrived == o.arrived + r.arrived
  {
    hide QueueOk, StateOk, Poll;
    var s, rest := PollOnce([Chunk(chunks[0])], inspect, None), Fetching(chunks[1..], inspect);
    var o := Do(c, n, s);
    assert Fetching(chunks, inspect) == [s, TakeFiles] + rest;
    assert ([s, TakeFiles] + rest)[1..] == [TakeFiles] + rest && ([TakeFiles] + rest)[1..] == rest;
    var q := Run(c, o.conn, [TakeFiles] + rest);
    var r := Run(c, o.conn.(files := []), rest);
    assert q.error == r.error && q.arrived == [] + r.arrived;
  }

  /** A receiver that keeps up gets everything, without an error. */
  lemma {:induction false} FetchRun(c: Ciphers, a: RecordState, fs: seq<Framed>, n: Conn, x: seq<byte>,
                                    chunks: seq<seq<byte>>, inspect: Inspection, taken: seq<Message>,
                                    others: seq<seq<byte>>, k: nat)
    requires CiphersOk(c) && Sendables(fs) && Encryptable(a, AsBodies(fs)) && ConnOk(n)
    requires Caught(c, a, AsBodies(fs), n, x, taken, others, k) && n.queue == EMPTY && n.files == []
    requires Silent(inspect) && Reads(chunks) && x + Concat(chunks) == Stream(c, a, AsBodies(fs))
    ensures Run(c, n, Fetching(chunks, inspect)).error.None?
    ensures Run(c, n, Fetching(chunks, inspect)).arrived == Concat(chunks)
    decreases |chunks|
  {
    hide Caught, CiphersOk, Encryptable, Do, Stream, Sendable, QueueOk, StateOk, AsBodies, Silent;
    if chunks != [] {
      var chunk := chunks[0];
      assert chunk in chunks;
      assert x + chunk + Concat(chunks[1..]) == x + Concat(chunks);
      var o := Do(c, n, PollOnce([Chunk(chunk)], inspect, None));
      var next := FetchStep(c, a, fs, n, x, chunk, inspect, taken, others, k, o);
      FetchParts(c, n, chunks, inspect);
      ConnSame(o.conn);
      FetchRun(c, a, fs, o.conn.(files := []), x + chunk, chunks[1..], inspect, taken + o.messages + o.conn.files,
               others + o.others, next);
    }
  }

  lemma ConnSame(n: Conn)
    requires ConnOk(n)
    ensures ConnOk(n.(files := []))
  {
    hide QueueOk, StateOk;
  }

  /** An upload sent at once, in one body per message. */
  function Uploading(answers: nat -> Answer, fs: seq<Framed>): End
    requires Sendables(fs)
  {
    End(answers, Sends(AsBodies(fs)))
  }

  lemma FreshSender(iv: seq<byte>, answers: nat -> Answer, fs: seq<Framed>)
    requires |iv| == BLOCK && Sendables(fs) && |fs| <= MAX_SEQUENCE
    ensures var n := Fresh(iv, answers); ConnOk(n) && n.queue == EMPTY && Encryptable(n.records, AsBodies(fs))
    ensures Fresh(iv, answers).writer.answers == answers
  {
    hide QueueOk, Wire;
    FreshOk(iv, answers);
    AsBodiesJoined(fs);
  }

  lemma UploadingSends(c: Ciphers, iv: seq<byte>, answers: nat -> Answer, fs: seq<Framed>)
    requires CiphersOk(c) && |iv| == BLOCK && Eager(answers) && Sendables(fs) && |fs| <= MAX_SEQUENCE
    ensures var o := Play(c, iv, Uploading(answers, fs));
            o.error.None? && o.sent == AsBodies(fs) && o.conn.queue == EMPTY && QueueOk(o.conn.queue)
  {
    hide CiphersOk, Run, Fresh, Sends, ConnOk, Encryptable, Eager, AsBodies, Sendables, QueueOk;
    FreshSender(iv, answers, fs);
    EagerSends(c, Fresh(iv, answers), AsBodies(fs));
    EmptyOk();
  }

  lemma FetchingReceives(c: Ciphers, iv: seq<byte>, here: End, fs: seq<Framed>, answers: nat -> Answer,
                         chunks: seq<seq<byte>>, inspect: Inspection)
    requires CiphersOk(c) && |iv| == BLOCK && Sendables(fs) && Play(c, iv, here).sent == AsBodies(fs)
    requires Silent(inspect) && Reads(chunks) && QueueOk(Play(c, iv, here).conn.queue)
    requires Concat(chunks) == Pipe(Play(c, iv, here).conn)
    ensures var to := Play(c, iv, End(answers, Fetching(chunks, inspect)));
            to.error.None? && to.arrived == Concat(chunks)
  {
    hide CiphersOk, Run, Sends, Encryptable, AsBodies, Sendables, QueueOk, Stream, Caught, Silent, Pipe, Reads,
      Fetching;
    var a := PlaySends(c, iv, here);
    FreshCaught(c, iv, answers, a, AsBodies(fs));
    FreshOk(iv, answers);
    EmptyLeft(Concat(chunks));
    FetchRun(c, a, fs, Fresh(iv, answers), [], chunks, inspect, [], [], 0);
  }

  /**
   A whole upload through the encrypted channel, with no error assumed away: if the sender's writer keeps up and the
   receiver takes its messages after every read, both ends run without error and the download publishes the file.
   */
  lemma FileArrivesInTime(c: Ciphers, iv: seq<byte>, eager: nat -> Answer, answers: nat -> Answer, rule: NameRule,
                          id: u32, path: seq<byte>, name: seq<byte>, src: Source, chunks: seq<seq<byte>>,
                          inspect: Inspection)
    requires CiphersOk(c) && |iv| == BLOCK && Eager(eager) && Silent(inspect) && Reads(chunks)
    requires UploadMessages(rule, id, path, name, src, true).error.None?
    requires var fs := UploadMessages(rule, id, path, name, src, true).messages;
             && Sendables(fs) && |fs| <= MAX_SEQUENCE
             && var here := Play(c, iv, Uploading(eager, fs)).conn;
                QueueOk(here.queue) && Concat(chunks) == Pipe(here)
    ensures var fs := UploadMessages(rule, id, path, name, src, true).messages;
            var from, to := Play(c, iv, Uploading(eager, fs)), Play(c, iv, End(answers, Fetching(chunks, inspect)));
            && from.error.None? && to.error.None? && src.size <= |src.content|
            && var received := to.messages + to.conn.files;
               received != [] && Download(rule, NOTHING, received[1..]) == Success(src.content[..src.size])
  {
    hide Play, UploadMessages, Download, CiphersOk, QueueOk, Pipe, Sendables, AsBodies, Silent, Reads, Fetching, Eager,
      Uploading;
    var fs := UploadMessages(rule, id, path, name, src, true).messages;
    UploadingSends(c, iv, eager, fs);
    FetchingReceives(c, iv, Uploading(eager, fs), fs, answers, chunks, inspect);
    FileArrives(c, iv, Uploading(eager, fs), End(answers, Fetching(chunks, inspect)), rule, id, path, name, src);
  }

  // ----- a poll that brings too many

  /** 257 data messages of one byte each. */
  function Many(): (fs: seq<Framed>)
    ensures |fs| == 257 && Sendables(fs)
  {
    seq(257, _ => DataMessage(1, [0]))
  }

  lemma ManyBytes()
    ensures forall b <- AsBodies(Many()) :: |b| == HEADER + 1
  {
    forall i | 0 <= i < 257 ensures |AsBodies(Many())[i]| == HEADER + 1 {
      assert Many()[i] == DataMessage(1, [0]);
      WireFields(Many()[i]);
    }
  }

  lemma RunOne(c: Ciphers, n: Conn, s: Step)
    requires ConnOk(n)
    ensures var o, r := Do(c, n, s), Run(c, n, [s]);
            r.error == o.error && r.conn == o.conn && r.messages == o.messages && r.arrived == o.arrived
  {
    hide Do, QueueOk, StateOk;
    assert [s][1..] == [];
  }

  lemma TwoReads(a: seq<byte>, b: seq<byte>)
    requires 0 < |a| <= READ_BYTES && 0 < |b| <= READ_BYTES
    ensures Collect([], [Chunk(a), Chunk(b)], READS).arrived == a + b && Readable([Chunk(a), Chunk(b)])
  {
    assert a[..|a|] == a && b[..|b|] == b && [Chunk(a), Chunk(b)][1..] == [Chunk(b)] && b + [] == b && [] + a == a;
    assert [Chunk(b)][1..] == [];
    assert Collect(a + b, [], READS - 2) == Collected(a + b, [], None);
    assert Collect(a, [Chunk(b)], READS - 1).arrived == b;
  }

  lemma PollHandsNone(c: Ciphers, n: Conn, incoming: seq<Read>, inspect: Inspection)
    requires ConnOk(n) && !n.records.failed && n.queue == EMPTY && n.files == []
    ensures Do(c, n, PollOnce(incoming, inspect, None)).messages == []
  {
    hide QueueOk, StateOk, Collect, Drain, Sort, Flushes;
    NothingToFlush(n);
    var m := n.(pending := Collect(n.pending, incoming, READS).pending);
    var d := Drain(c, m.records, m.pending);
    DrainKeeps(c, m.records, m.pending);
    if d.bodies.Success? {
      SortIsFeed(c, inspect, m.(records := d.state, pending := d.rest), 0, d.bodies.value);
    }
  }

  /** Two reads of these bytes, all in one poll. */
  function Gulp(p: seq<byte>, inspect: Inspection): Step
    requires |p| > READ_BYTES
  {
    PollOnce([Chunk(p[..READ_BYTES]), Chunk(p[READ_BYTES..])], inspect, None)
  }

  lemma ManyLength(c: Ciphers, iv: seq<byte>, eager: nat -> Answer)
    requires CiphersOk(c) && |iv| == BLOCK && Eager(eager)
    ensures var from := Play(c, iv, Uploading(eager, Many()));
            QueueOk(from.conn.queue) && |Pipe(from.conn)| == 12850 && from.sent == AsBodies(Many())
  {
    hide CiphersOk, Play, Encryptable, AsBodies, Many, QueueOk, Stream, Pipe, Sendables, Uploading, Eager, BLOCK;
    UploadingSends(c, iv, eager, Many());
    var a := PlaySends(c, iv, Uploading(eager, Many()));
    ManyBytes();
    StreamLength(c, a, AsBodies(Many()));
  }

  /** If the poll did not fail, what it took in would fit, and be all of it. */
  lemma GulpTakesAll(c: Ciphers, iv: seq<byte>, here: End, answers: nat -> Answer, inspect: Inspection, p: seq<byte>)
    requires CiphersOk(c) && |iv| == BLOCK && QueueOk(Play(c, iv, here).conn.queue) && Silent(inspect)
    requires p == Pipe(Play(c, iv, here).conn) && READ_BYTES < |p| <= 2 * READ_BYTES
    requires FeedAll([], Play(c, iv, here).sent).error.None?
    ensures var to := Play(c, iv, End(answers, [Gulp(p, inspect)]));
            && (to.error.None? || to.error == Some(Flood))
            && (to.error.None? ==> |FeedAll([], Play(c, iv, here).sent).messages| <= 256)
  {
    hide CiphersOk, FeedAll, Stream, Caught, Encryptable, QueueOk, Pipe, Do, RoomyRun, Collect, Silent;
    var there, n, step := End(answers, [Gulp(p, inspect)]), Fresh(iv, answers), Gulp(p, inspect);
    FreshOk(iv, answers);
    assert p[..READ_BYTES] + p[READ_BYTES..] == p;
    TwoReads(p[..READ_BYTES], p[READ_BYTES..]);
    RunOne(c, n, step);
    PollArrives(c, n, step.incoming, inspect);
    CalmEnd(c, iv, here, there);
    Delivered(c, iv, here, there);
    PollHandsNone(c, n, step.incoming, inspect);
    var a := PlaySends(c, iv, here);
    FreshCaught(c, iv, answers, a, Play(c, iv, here).sent);
    EmptyLeft(p);
    CalmStep(c, a, Play(c, iv, here).sent, n, [], step, [], [], 0);
  }

  /** 12,850 bytes in one poll: the receiver drops the connection, although every byte is as it should be. */
  lemma FloodInput(c: Ciphers, iv: seq<byte>, eager: nat -> Answer, answers: nat -> Answer, inspect: Inspection)
    requires CiphersOk(c) && |iv| == BLOCK && Eager(eager) && Silent(inspect)
    ensures var from := Play(c, iv, Uploading(eager, Many()));
            && from.error.None? && QueueOk(from.conn.queue) && |Pipe(from.conn)| == 12850
            && Play(c, iv, End(answers, [Gulp(Pipe(from.conn), inspect)])).error == Some(Flood)
  {
    hide CiphersOk, Play, AsBodies, Many, QueueOk, Pipe, Sendables, Uploading, Eager, Gulp, Silent, FeedAll, BLOCK;
    var from := Play(c, iv, Uploading(eager, Many()));
    UploadingSends(c, iv, eager, Many());
    ManyLength(c, iv, eager);
    MessageBodies(Many());
    GulpTakesAll(c, iv, Uploading(eager, Many()), answers, inspect, Pipe(from.conn));
  }
}
