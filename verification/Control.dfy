/** The control connection as the object of the source, over its record layer, output queue, socket and decoder. */
module Control {
  import opened Bytes
  import opened RecordModel
  import opened OutboundModel
  import opened FileMessages
  import opened ControlModel
  import RecordLayer
  import Outbound
  import FileTransfer

  class Connection {
    const c: Ciphers
    const layer: RecordLayer.Layer
    const outbound: Outbound.Outbound
    const tcp: Outbound.Sink
    const fileDecoder: FileTransfer.Decoder
    var pending: seq<byte>
    var files: seq<Message>

    function Model(): Conn
      reads this, layer, outbound, tcp, fileDecoder
    {
      Conn(layer.Model(), outbound.Model(), tcp.Model(), pending, fileDecoder.pending, files)
    }

    ghost predicate Valid()
      reads this, layer, outbound, tcp, fileDecoder
    {
      layer.Valid() && layer.c == c && outbound.Valid()
    }

    constructor (c: Ciphers, iv: seq<byte>, answers: nat -> Answer)
      requires CiphersOk(c) && |iv| == BLOCK
      ensures Valid() && this.c == c && Model() == Fresh(iv, answers)
      ensures fresh(layer) && fresh(outbound) && fresh(tcp) && fresh(fileDecoder)
    {
      hide CiphersOk, QueueOk, StateOk;
      this.c := c;
      layer := new RecordLayer.Layer(c, iv);
      outbound := new Outbound.Outbound();
      tcp := new Outbound.Sink(answers);
      fileDecoder := new FileTransfer.Decoder();
      pending := [];
      files := [];
    }

    method WriteRecord(wire: seq<byte>) returns (error: Option<OutError>)
      requires Valid()
      modifies outbound, tcp
      ensures Valid() && outbound.Valid()
      ensures QueueOk(old(outbound.Model()))
      ensures var (q, full) := Push(old(outbound.Model()), wire);
              QueueOk(q) &&
              if full.Some? then error == full && outbound.Model() == q && tcp.Model() == old(tcp.Model())
              else Flushed(outbound.Model(), tcp.Model(), error) == Flush(q, old(tcp.Model()))
    {
      hide QueueOk, FlushFrom;
      error := outbound.Push(wire);
      if error.None? {
        error := outbound.Flush(tcp);
      }
    }

    method Send(body: seq<byte>) returns (error: Option<ConnError>)
      requires Valid()
      modifies layer, outbound, tcp
      ensures Valid() && ConnOk(old(Model())) && Model() == ControlModel.Send(c, old(Model()), body).conn
      ensures error == ControlModel.Send(c, old(Model()), body).error
    {
      hide QueueOk, FlushFrom, Encrypt, Push, CiphersOk, StateOk;
      var wire := layer.Encrypt(body);
      if wire.Failure? {
        return Some(Records(wire.error));
      }
      PushOk(outbound.Model(), wire.value);
      var written := WriteRecord(wire.value);
      return if written.Some? then Some(Output(written.value)) else None;
    }

    /** False when bulk output must yield; nothing is encrypted then. */
    method TrySendFile(body: seq<byte>) returns (r: Result<bool, ConnError>)
      requires Valid()
      modifies layer, outbound, tcp
      ensures Valid() && ConnOk(old(Model())) && Model() == ControlModel.SendFile(c, old(Model()), body).conn
      ensures var o := ControlModel.SendFile(c, old(Model()), body);
              if o.error.Some? then r == Failure(o.error.value) else r == Success(old(outbound.bytes) <= YIELD)
    {
      hide QueueOk, ControlModel.Send, CiphersOk, StateOk;
      if body == [] || body[0] != MARK {
        return Failure(NotFile);
      }
      if outbound.bytes > YIELD {
        return Success(false);
      }
      var error := Send(body);
      return if error.Some? then Failure(error.value) else Success(true);
    }

    method TakeFiles() returns (taken: seq<Message>)
      requires Valid()
      modifies this`files
      ensures Valid() && taken == old(files) && Model() == old(Model()).(files := [])
    {
      taken := files;
      files := [];
    }

    /** At most eight reads, appended to what is pending. */
    method ReadSocket(incoming: seq<Read>) returns (error: Option<ConnError>, ghost arrived: seq<byte>)
      requires Valid()
      modifies this`pending
      ensures Valid() && Collected(pending, arrived, error) == Collect(old(pending), incoming, READS)
    {
      hide CiphersOk, QueueOk, StateOk, Collect;
      arrived := [];
      var turn := 0;
      ghost var all := Collect(pending, incoming, READS);
      assert [] + all.arrived == all.arrived && incoming[0..] == incoming;
      while turn < READS && turn < |incoming|
        invariant turn <= READS && turn <= |incoming|
        invariant Continues(all, arrived, Collect(pending, incoming[turn..], READS - turn))
      {
        CollectStep(pending, incoming[turn..], READS - turn);
        assert incoming[turn..][1..] == incoming[turn + 1..];
        var read := incoming[turn];
        if read.NotReady? {
          ContinuesEnd(all, arrived, pending, None);
          return None, arrived;
        }
        if read.Gone? {
          ContinuesEnd(all, arrived, pending, Some(TcpFailed));
          return Some(TcpFailed), arrived;
        }
        if read.Chunk? {
          var bytes := read.bytes[..Min(READ_BYTES, |read.bytes|)];
          if bytes == [] {
            ContinuesEnd(all, arrived, pending, Some(TcpClosed));
            return Some(TcpClosed), arrived;
          }
          pending := pending + bytes;
          ghost var before := arrived;
          arrived := arrived + bytes;
          if |pending| > PENDING {
            return Some(Overflow), arrived;
          }
          ContinuesOn(all, before, bytes, Collect(pending, incoming[turn + 1..], READS - turn - 1));
        }
        turn := turn + 1;
      }
      CollectStops(pending, incoming[turn..], READS - turn);
      ContinuesEnd(all, arrived, pending, None);
      return None, arrived;
    }

    /** What interpreting a control body asks for: at most one body is sent. */
    method Obey(reply: Reply) returns (error: Option<ConnError>)
      requires Valid()
      modifies layer, outbound, tcp
      ensures Valid() && ConnOk(old(Model()))
      ensures Model() == Inspected(c, old(Model()), reply).conn && error == Inspected(c, old(Model()), reply).error
    {
      hide QueueOk, ControlModel.Send, CiphersOk, StateOk;
      if reply.Deny? {
        return Some(Refused);
      }
      if reply.send.Some? {
        error := Send(reply.send.value);
        return;
      }
      return None;
    }

    /** Splits every opened body into file messages and other control bodies, and acts on the latter. */
    method SortBodies(bodies: seq<seq<byte>>, inspect: Inspection)
      returns (others: seq<seq<byte>>, error: Option<ConnError>)
      requires Valid()
      modifies this`files, layer, outbound, tcp, fileDecoder
      ensures Valid() && ConnOk(old(Model()))
      ensures var o := Sort(c, inspect, old(Model()), 0, bodies);
              Model() == o.conn && error == o.error && (error.None? ==> others == o.others)
    {
      hide CiphersOk, QueueOk, StateOk, FileMessages.Feed, Inspected, Sort;
      others := [];
      var i := 0;
      ghost var all := Sort(c, inspect, Model(), 0, bodies);
      assert bodies[0..] == bodies && [] + all.others == all.others;
      while i < |bodies|
        invariant 0 <= i <= |bodies| && Valid() && ConnOk(Model())
        invariant SameOutcome(all, Sort(c, inspect, Model(), |others|, bodies[i..]), others)
      {
        ghost var n := Model();
        assert bodies[i..][1..] == bodies[i + 1..];
        SortStep(c, inspect, n, |others|, bodies[i..]);
        var r := fileDecoder.Feed(bodies[i]);
        if r.Failure? {
          return others, Some(Files(r.error));
        }
        var (messages, other) := r.value;
        if |files| + |messages| > FILE_BACKLOG {
          return others, Some(Flood);
        }
        files := files + messages;
        if other.Some? {
          error := Obey(inspect(|others|, other.value));
          if error.Some? {
            return others, error;
          }
          ghost var rest := Sort(c, inspect, Model(), |others| + 1, bodies[i + 1..]).others;
          assert others + ([other.value] + rest) == others + [other.value] + rest;
          others := others + [other.value];
        }
        i := i + 1;
      }
      SortNone(c, inspect, Model(), |others|, bodies[i..]);
      assert others + [] == others;
      return others, None;
    }

    /** Flush, read, drain and split. */
    method PollIn(incoming: seq<Read>, inspect: Inspection) returns (r: Result<seq<seq<byte>>, ConnError>)
      requires Valid()
      modifies this, layer, outbound, tcp, fileDecoder
      ensures Valid() && ConnOk(old(Model()))
      ensures var o := ControlModel.PollIn(c, inspect, old(Model()), incoming);
              Model() == o.conn && r == if o.error.Some? then Failure(o.error.value) else Success(o.others)
    {
      hide CiphersOk, QueueOk, StateOk, FlushFrom, Collect, Drain, Sort;
      var flushed := outbound.Flush(tcp);
      if flushed.Some? {
        return Failure(Output(flushed.value));
      }
      ghost var arrived;
      var error;
      error, arrived := ReadSocket(incoming);
      if error.Some? {
        return Failure(error.value);
      }
      var rest, bodies := layer.DrainRecords(pending);
      pending := rest;
      if bodies.Failure? {
        return Failure(Records(bodies.error));
      }
      var others;
      others, error := SortBodies(bodies.value, inspect);
      return if error.Some? then Failure(error.value) else Success(others);
    }

    /** One poll, with the media offer sent again at the end when that is due. */
    method Poll(incoming: seq<Read>, inspect: Inspection, offer: Option<seq<byte>>)
      returns (r: Result<seq<seq<byte>>, ConnError>)
      requires Valid()
      modifies this, layer, outbound, tcp, fileDecoder
      ensures Valid() && ConnOk(old(Model()))
      ensures var o := ControlModel.Poll(c, inspect, old(Model()), incoming, offer);
              Model() == o.conn && r == if o.error.Some? then Failure(o.error.value) else Success(o.others)
    {
      hide CiphersOk, QueueOk, StateOk, ControlModel.PollIn, ControlModel.Send;
      r := PollIn(incoming, inspect);
      if r.Success? && offer.Some? {
        var error := Send(offer.value);
        if error.Some? {
          return Failure(error.value);
        }
      }
    }
  }

  predicate Continues(all: Collected, arrived: seq<byte>, rest: Collected) {
    all == rest.(arrived := arrived + rest.arrived)
  }

  lemma ContinuesEnd(all: Collected, arrived: seq<byte>, pending: seq<byte>, error: Option<ConnError>)
    requires Continues(all, arrived, Collected(pending, [], error))
    ensures all == Collected(pending, arrived, error)
  {
    assert arrived + [] == arrived;
  }

  lemma ContinuesOn(all: Collected, arrived: seq<byte>, bytes: seq<byte>, rest: Collected)
    requires Continues(all, arrived, rest.(arrived := bytes + rest.arrived))
    ensures Continues(all, arrived + bytes, rest)
  {
    assert arrived + (bytes + rest.arrived) == arrived + bytes + rest.arrived;
  }

  lemma CollectStep(pending: seq<byte>, incoming: seq<Read>, turns: nat)
    requires turns > 0 && incoming != []
    ensures match incoming[0]
            case NotReady => Collect(pending, incoming, turns) == Collected(pending, [], None)
            case Again => Collect(pending, incoming, turns) == Collect(pending, incoming[1..], turns - 1)
            case Gone => Collect(pending, incoming, turns) == Collected(pending, [], Some(TcpFailed))
            case Chunk(bytes) =>
              var bytes := bytes[..Min(READ_BYTES, |bytes|)];
              if bytes == [] then Collect(pending, incoming, turns) == Collected(pending, [], Some(TcpClosed))
              else if |pending + bytes| > PENDING then
                Collect(pending, incoming, turns) == Collected(pending + bytes, bytes, Some(Overflow))
              else
                var r := Collect(pending + bytes, incoming[1..], turns - 1);
                Collect(pending, incoming, turns) == r.(arrived := bytes + r.arrived)
  {
  }

  lemma CollectStops(pending: seq<byte>, incoming: seq<Read>, turns: nat)
    requires turns == 0 || incoming == []
    ensures Collect(pending, incoming, turns) == Collected(pending, [], None)
  {
  }

  ghost predicate SameOutcome(all: Outcome, rest: Outcome, others: seq<seq<byte>>) {
    all.conn == rest.conn && all.error == rest.error && (all.error.None? ==> all.others == others + rest.others)
  }

  lemma SortNone(c: Ciphers, inspect: Inspection, n: Conn, k: nat, bodies: seq<seq<byte>>)
    requires ConnOk(n) && bodies == []
    ensures Sort(c, inspect, n, k, bodies) == Outcome(n, None, [], [], [], [])
  {
  }

  lemma SortStep(c: Ciphers, inspect: Inspection, n: Conn, k: nat, bodies: seq<seq<byte>>)
    requires ConnOk(n) && bodies != []
    ensures var f := FileMessages.Feed(n.decoder, bodies[0]);
            var m := n.(decoder := f.pending); var all := Sort(c, inspect, n, k, bodies);
            if f.result.Failure? then all == Failed(m, Files(f.result.error))
            else if |n.files| + |f.result.value.0| > FILE_BACKLOG then all == Failed(m, Flood)
            else
              var p, other := m.(files := n.files + f.result.value.0), f.result.value.1;
              if other.None? then all == Sort(c, inspect, p, k, bodies[1..])
              else
                var o := Inspected(c, p, inspect(k, other.value));
                ConnOk(o.conn) &&
                if o.error.Some? then all == o
                else
                  var r := Sort(c, inspect, o.conn, k + 1, bodies[1..]);
                  all == r.(sent := o.sent + r.sent, others := [other.value] + r.others)
  {
    hide FileMessages.Feed, Inspected, QueueOk, StateOk;
    var f := FileMessages.Feed(n.decoder, bodies[0]);
    if f.result.Success? && f.result.value.1.Some? {
      InspectedOk(c, n.(decoder := f.pending, files := n.files + f.result.value.0), inspect(k, f.result.value.1.value));
    }
  }
}
