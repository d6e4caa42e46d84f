/** The transfer worker as the object of the source: its queues, its local files, and the two message loops. */
module Transfer {
  import opened Bytes
  import opened FileMessages
  import opened FileTransfer
  import opened TransferModel

  function DownloadResult(rule: NameRule, id: u32, path: seq<byte>, taken: bool, replies: seq<Message>)
    : Result<seq<byte>, TransferError>
  {
    match Request(id, path, false)
    case Failure(e) => Failure(Protocol(e))
    case Success(_) => if taken then Failure(Exists) else Download(rule, NOTHING, replies)
  }

  class SourceFile {
    const source: Source
    var position: nat
    var calls: nat

    ghost predicate Valid()
      reads this
    {
      position <= source.size && position <= |source.content|
    }

    constructor (source: Source)
      ensures Valid() && this.source == source && position == 0 && calls == 0
    {
      this.source := source;
      position, calls := 0, 0;
    }

    /** At most `limit` bytes from the current position; none at the end of the file. */
    method Read(limit: nat) returns (bytes: seq<byte>)
      requires Valid() && limit == Min(CHUNK_BYTES, source.size - position)
      modifies this
      ensures Valid() && calls == old(calls) + 1 && |bytes| == ReadSize(source, old(position), old(calls))
      ensures position == old(position) + |bytes| && bytes == source.content[old(position)..position]
    {
      var n := Min(source.cuts(calls), Min(limit, |source.content| - position));
      bytes := source.content[position..position + n];
      position := position + n;
      calls := calls + 1;
    }
  }

  /**
   Which operations of a job are stopped: a check, a send, a wait for a reply, a read or a write of a file, each by
   cancellation, a closed session, a time limit or an input/output error.
   */
  type Stops = nat -> bool

  ghost predicate Undisturbed(stops: Stops) {
    forall k: nat :: !stops(k)
  }

  class Worker {
    const rule: NameRule
    const stops: Stops
    var outgoing: seq<seq<byte>>
    var incoming: seq<Message>
    var files: map<seq<byte>, seq<byte>>
    var op: nat

    constructor (rule: NameRule, stops: Stops, incoming: seq<Message>, files: map<seq<byte>, seq<byte>>)
      ensures this.rule == rule && this.stops == stops && op == 0
      ensures outgoing == [] && this.incoming == incoming && this.files == files
    {
      this.rule := rule;
      this.stops := stops;
      this.incoming := incoming;
      this.files := files;
      outgoing := [];
      op := 0;
    }

    /** One operation that may be stopped. */
    method Proceed() returns (ok: bool)
      modifies this`op
      ensures ok == !stops(old(op)) && op == old(op) + 1
    {
      ok := !stops(op);
      op := op + 1;
    }

    method Send(f: Framed) returns (ok: bool)
      requires Sendable(f)
      modifies this`outgoing, this`op
      ensures outgoing == if ok then old(outgoing) + [Wire(f)] else old(outgoing)
      ensures ok == !stops(old(op)) && op == old(op) + 1
      ensures Undisturbed(stops) ==> ok
    {
      ok := Proceed();
      if ok {
        outgoing := outgoing + [Wire(f)];
      }
    }

    /** The next reply, if there is one and the wait is not stopped. */
    method Receive() returns (ok: bool, m: Option<Message>)
      modifies this`incoming, this`op
      ensures Undisturbed(stops) ==> ok
      ensures !ok || old(incoming) == [] ==> m.None? && incoming == old(incoming)
      ensures ok && old(incoming) != [] ==> m == Some(old(incoming)[0]) && incoming == old(incoming)[1..]
    {
      ok := Proceed();
      if !ok || incoming == [] {
        return ok, None;
      }
      m := Some(incoming[0]);
      incoming := incoming[1..];
    }

    /** Reads the file piece by piece and sends every piece; when stopped, it has sent a beginning of that. */
    method SendData(id: u32, src: Source) returns (error: Option<TransferError>, ghost data: seq<Framed>)
      requires id != 0
      modifies this`outgoing, this`op
      ensures Sendables(data) && outgoing == old(outgoing) + AsBodies(data)
      ensures data <= UploadData(id, src, 0, 0).messages
      ensures error == Some(Interrupted) || Outgoing(data, error) == UploadData(id, src, 0, 0)
      ensures Undisturbed(stops) ==> error != Some(Interrupted)
    {
      hide UploadData, Wire, ReadSize, Sendable, Sendables, AsBodies, Then;
      UploadDataCarries(id, src, 0, 0);
      var file := new SourceFile(src);
      data := [];
      ThenNothing(UploadData(id, src, 0, 0));
      SentNothing(outgoing);
      while file.position < src.size
        invariant file.Valid() && file.source == src && fresh(file)
        invariant UploadData(id, src, 0, 0) == Then(data, UploadData(id, src, file.position, file.calls))
        invariant Sendables(data) && outgoing == old(outgoing) + AsBodies(data)
        decreases src.size - file.position
      {
        UploadStep(id, src, file.position, file.calls);
        ThenPrefix(data, UploadData(id, src, file.position, file.calls));
        var ok := Proceed();
        if !ok {
          return Some(Interrupted), data;
        }
        var bytes := file.Read(Min(CHUNK_BYTES, src.size - file.position));
        if bytes == [] {
          ThenEmpty(data, Shorter);
          return Some(Shorter), data;
        }
        var message := DataMessage(id, bytes);
        DataSendable(id, bytes);
        ok := Send(message);
        if !ok {
          return Some(Interrupted), data;
        }
        SentMore(old(outgoing), data, message);
        ThenTwice(data, [message], UploadData(id, src, file.position, file.calls));
        data := data + [message];
      }
      UploadDone(id, src, file.calls);
      ThenFinished(data);
      return None, data;
    }

    /** Sends the three messages that open an upload, or a beginning of them. */
    method SendOpening(request: Framed, info: Framed, item: Framed) returns (ok: bool, ghost sent: seq<Framed>)
      requires Sendable(request) && Sendable(info) && Sendable(item)
      modifies this`outgoing, this`op
      ensures Sendables(sent) && outgoing == old(outgoing) + AsBodies(sent) && sent <= [request, info, item]
      ensures ok ==> sent == [request, info, item]
      ensures Undisturbed(stops) ==> ok
    {
      hide Wire, Sendable;
      sent := [];
      assert outgoing + AsBodies([]) == outgoing;
      ok := Send(request);
      if !ok {
        return;
      }
      BodiesAppend(sent, request);
      sent := sent + [request];
      ok := Send(info);
      if !ok {
        return;
      }
      BodiesAppend(sent, info);
      sent := sent + [info];
      ok := Send(item);
      if ok {
        BodiesAppend(sent, item);
        sent := sent + [item];
      }
    }

    /**
     Unless it is stopped, an upload sends exactly its messages, and succeeds only when the other side confirms; when
     stopped, it has sent a beginning of them.
     */
    method Upload(id: u32, path: seq<byte>, name: seq<byte>, src: Source, allowed: bool)
      returns (error: Option<TransferError>, ghost sent: seq<Framed>)
      modifies this`outgoing, this`incoming, this`op
      ensures Sendables(sent) && outgoing == old(outgoing) + AsBodies(sent)
      ensures sent <= UploadMessages(rule, id, path, name, src, allowed).messages
      ensures var all := UploadMessages(rule, id, path, name, src, allowed);
              || error == Some(Interrupted)
              || (sent == all.messages
                  && error == UploadError(all, if old(incoming) == [] then None else Some(old(incoming)[0])))
      ensures Undisturbed(stops) ==> error != Some(Interrupted)
      ensures error.None? ==>
                old(incoming) != [] && old(incoming)[0].kind == END && old(incoming)[0].argument == 0
                && old(incoming)[0].payload == []
    {
      hide UploadData, Request, UploadMetadata, Wire, Sendable, Receivable;
      UploadDataCarries(id, src, 0, 0);
      sent := [];
      assert outgoing + AsBodies([]) == outgoing;
      if !allowed {
        return Some(NotAllowed), sent;
      }
      if src.size > MAX_FILE_BYTES {
        return Some(Protocol(FileTooLarge)), sent;
      }
      var request := Request(id, path, true);
      if request.Failure? {
        return Some(Protocol(request.error)), sent;
      }
      var metadata := UploadMetadata(rule, id, name, src.size);
      if metadata.Failure? {
        return Some(Protocol(metadata.error)), sent;
      }
      OpeningSendable(rule, id, path, name, src.size);
      ghost var opening := [request.value] + metadata.value;
      ghost var data := UploadData(id, src, 0, 0);
      ghost var all := UploadMessages(rule, id, path, name, src, allowed);
      assert opening == [request.value, metadata.value[0], metadata.value[1]];
      assert opening <= opening + data.messages <= all.messages;
      var ok := Proceed();
      if !ok {
        return Some(Interrupted), sent;
      }
      ok, sent := SendOpening(request.value, metadata.value[0], metadata.value[1]);
      if !ok {
        return Some(Interrupted), sent;
      }
      ghost var pieces;
      error, pieces := SendData(id, src);
      BodiesJoin(opening, pieces);
      assert outgoing == old(outgoing) + AsBodies(opening + pieces);
      sent := opening + pieces;
      if error.Some? {
        return error, sent;
      }
      if !src.stable {
        return Some(Changed), sent;
      }
      EndSendable(id);
      ok := Send(EndMessage(id));
      if !ok {
        return Some(Interrupted), sent;
      }
      BodiesAppend(sent, EndMessage(id));
      sent := sent + [EndMessage(id)];
      assert opening + data.messages + [EndMessage(id)] == opening + (data.messages + [EndMessage(id)]);
      var reply;
      ok, reply := Receive();
      if !ok {
        return Some(Interrupted), sent;
      }
      if reply.None? {
        return Some(Lost), sent;
      }
      if reply.value.kind != END || reply.value.argument != 0 || reply.value.payload != [] {
        return Some(Unconfirmed), sent;
      }
      return None, sent;
    }

    /**
     A file appears only when the download is complete, with exactly its bytes, and never over an existing one, even
     one that somebody else puts there meanwhile; and unless it is stopped, it appears whenever it should.
     */
    method Download(id: u32, path: seq<byte>, destination: seq<byte>, intruder: Option<seq<byte>>)
      returns (error: Option<TransferError>)
      modifies this
      ensures var r := DownloadResult(rule, id, path, destination in old(files), old(incoming));
              && (error.None? ==>
                    r.Success? && intruder.None? && destination !in old(files)
                    && files == old(files)[destination := r.value])
              && (error.Some? ==>
                    || files == old(files)
                    || (intruder.Some? && destination !in old(files)
                        && files == old(files)[destination := intruder.value]))
              && (Undisturbed(stops) ==>
                    error == if r.Failure? then Some(r.error) else if intruder.Some? then Some(Exists) else None)
      ensures var asked := Absolute(path) && id != 0 && destination !in old(files)
                           && !stops(old(op)) && !stops(old(op) + 1);
              outgoing == if asked then old(outgoing) + [RequestBytes(id, path, 1)] else old(outgoing)
    {
      hide Accept, Request, Wire, RequestBytes, Absolute;
      RequestIff(id, path, false);
      var request := Request(id, path, false);
      if request.Failure? {
        return Some(Protocol(request.error));
      }
      if destination in files {
        return Some(Exists);
      }
      var ok := Proceed();
      if !ok {
        return Some(Interrupted);
      }
      OpeningSendable(rule, id, path, [], 0);
      ok := Send(request.value);
      if !ok {
        return Some(Interrupted);
      }
      var p := NOTHING;
      while true
        invariant TransferModel.Download(rule, NOTHING, old(incoming)) == TransferModel.Download(rule, p, incoming)
        invariant files == old(files) && outgoing == old(outgoing) + [RequestBytes(id, path, 1)]
        decreases |incoming|
      {
        var m;
        ok, m := Receive();
        if !ok {
          return Some(Interrupted);
        }
        if m.None? {
          return Some(Lost);
        }
        var accepted := Accept(rule, p, m.value);
        if accepted.Failure? {
          return Some(accepted.error);
        }
        if accepted.value.Complete? {
          break;
        }
        ok := Proceed();
        if !ok {
          return Some(Interrupted);
        }
        p := accepted.value.progress;
      }
      ok := Proceed();
      if intruder.Some? {
        files := files[destination := intruder.value];
      }
      if !ok {
        return Some(Interrupted);
      }
      if destination in files {
        return Some(Exists);
      }
      files := files[destination := p.staged];
      return None;
    }
  }

  lemma ThenNothing(s: Outgoing)
    ensures Then([], s) == s
  {
    assert [] + s.messages == s.messages;
  }

  lemma ThenTwice(a: seq<Framed>, b: seq<Framed>, s: Outgoing)
    ensures Then(a, Then(b, s)) == Then(a + b, s)
  {
    assert a + (b + s.messages) == a + b + s.messages;
  }

  lemma ThenPrefix(a: seq<Framed>, s: Outgoing)
    ensures a <= Then(a, s).messages
  {
  }

  lemma ThenEmpty(a: seq<Framed>, e: TransferError)
    ensures Then(a, Outgoing([], Some(e))) == Outgoing(a, Some(e))
  {
    assert a + [] == a;
  }

  lemma ThenFinished(a: seq<Framed>)
    ensures Then(a, Outgoing([], None)) == Outgoing(a, None)
  {
    assert a + [] == a;
  }

  lemma UploadStep(id: u32, src: Source, done: nat, i: nat)
    requires done < src.size && done <= |src.content|
    ensures var n := ReadSize(src, done, i);
            && (n == 0 ==> UploadData(id, src, done, i) == Outgoing([], Some(Shorter)))
            && (n > 0 ==> UploadData(id, src, done, i)
                            == Then([DataMessage(id, src.content[done..done + n])],
                                    UploadData(id, src, done + n, i + 1)))
  {
    hide ReadSize;
  }

  lemma UploadDone(id: u32, src: Source, i: nat)
    requires src.size <= |src.content|
    ensures UploadData(id, src, src.size, i) == Outgoing([], None)
  {
  }

  lemma OpeningSendable(rule: NameRule, id: u32, path: seq<byte>, name: seq<byte>, size: nat)
    ensures forall upload :: Request(id, path, upload).Success? ==> id != 0 && Sendable(Request(id, path, upload).value)
    ensures var m := UploadMetadata(rule, id, name, size);
            m.Success? ==> |m.value| == 2 && Sendable(m.value[0]) && Sendable(m.value[1])
  {
    hide Parts;
    if UploadMetadata(rule, id, name, size).Success? {
      MetadataAnnouncesSize(rule, id, name, size);
    }
  }

  lemma EndSendable(id: u32)
    requires id != 0
    ensures Sendable(EndMessage(id))
  {
  }

  lemma SentNothing(out: seq<seq<byte>>)
    ensures Sendables([]) && out + AsBodies([]) == out
  {
  }

  lemma SentMore(out: seq<seq<byte>>, fs: seq<Framed>, f: Framed)
    requires Sendables(fs) && Sendable(f)
    ensures Sendables(fs + [f]) && out + AsBodies(fs) + [Wire(f)] == out + AsBodies(fs + [f])
  {
    hide Wire, Sendable;
    BodiesAppend(fs, f);
  }

  lemma DataSendable(id: u32, bytes: seq<byte>)
    requires id != 0 && |bytes| <= CHUNK_BYTES
    ensures Sendable(DataMessage(id, bytes))
  {
  }

  lemma BodiesJoin(a: seq<Framed>, b: seq<Framed>)
    requires Sendables(a) && Sendables(b)
    ensures Sendables(a + b)
    ensures forall out: seq<seq<byte>> :: out + AsBodies(a) + AsBodies(b) == out + AsBodies(a + b)
  {
    hide Wire, Sendable;
    assert AsBodies(a + b) == AsBodies(a) + AsBodies(b);
  }
}
