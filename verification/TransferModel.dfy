/**
 One upload and one download as message loops, and what each of them promises.

 Uploading reads the local file in pieces whose sizes are arbitrary; downloading stages bytes until the other side
 confirms completion.
 */
module TransferModel {
  import opened Bytes
  import opened FileMessages
  import opened FileTransfer

  datatype TransferError =
      Protocol(error: FileError) | NotAllowed | Shorter | Changed | Lost | Unconfirmed
    | MultipleFiles | MissingSize | SizeChanged | ChunkLength | TooMuch | Rejected | Incomplete | Unsupported
    | Exists | Interrupted

  // ----- upload

  /** The local file: its size when opened, what reads return and how much each may return, and the final check. */
  datatype Source = Source(size: nat, content: seq<byte>, cuts: nat -> nat, stable: bool)

  datatype Outgoing = Outgoing(messages: seq<Framed>, error: Option<TransferError>)

  function Then(messages: seq<Framed>, s: Outgoing): Outgoing {
    s.(messages := messages + s.messages)
  }

  /** How much the read number `i` returns at this position. */
  function ReadSize(src: Source, done: nat, i: nat): (n: nat)
    requires done <= src.size && done <= |src.content|
    ensures n <= CHUNK_BYTES && n <= src.size - done && n <= |src.content| - done
  {
    Min(src.cuts(i), Min(Min(CHUNK_BYTES, src.size - done), |src.content| - done))
  }

  function UploadData(id: u32, src: Source, done: nat, i: nat): Outgoing
    requires done <= src.size && done <= |src.content|
    decreases src.size - done
  {
    if done == src.size then Outgoing([], None)
    else
      var n := ReadSize(src, done, i);
      if n == 0 then Outgoing([], Some(Shorter))
      else Then([DataMessage(id, src.content[done..done + n])], UploadData(id, src, done + n, i + 1))
  }

  /** Everything an upload puts on the wire, up to the message that ends it. */
  function UploadMessages(rule: NameRule, id: u32, path: seq<byte>, name: seq<byte>, src: Source, allowed: bool)
    : Outgoing
  {
    if !allowed then Outgoing([], Some(NotAllowed))
    else if src.size > MAX_FILE_BYTES then Outgoing([], Some(Protocol(FileTooLarge)))
    else
      match Request(id, path, true)
      case Failure(e) => Outgoing([], Some(Protocol(e)))
      case Success(request) =>
        match UploadMetadata(rule, id, name, src.size)
        case Failure(e) => Outgoing([], Some(Protocol(e)))
        case Success(metadata) =>
          var data := UploadData(id, src, 0, 0);
          Then([request] + metadata,
               if data.error.Some? then data
               else if !src.stable then data.(error := Some(Changed))
               else Outgoing(data.messages + [EndMessage(id)], None))
  }

  predicate Confirms(m: Message) {
    m.kind == END && m.argument == 0 && m.payload == []
  }

  /** The result of an upload: sending everything is not enough, the other side must confirm. */
  function UploadError(sent: Outgoing, reply: Option<Message>): Option<TransferError> {
    if sent.error.Some? then sent.error
    else if reply.None? then Some(Lost)
    else if !Confirms(reply.value) then Some(Unconfirmed)
    else None
  }

  // ----- download

  datatype Progress = Progress(staged: seq<byte>, total: Option<nat>, sawItem: bool)

  const NOTHING := Progress([], None, false)

  datatype Accepted = More(progress: Progress) | Complete

  function Accept(rule: NameRule, p: Progress, m: Message): Result<Accepted, TransferError> {
    if m.kind == ITEM_INFO || m.kind == NEW_ITEM then
      if m.kind == NEW_ITEM && (p.sawItem || p.staged != []) then Failure(MultipleFiles)
      else
        match AnnouncedSize(rule, m)
        case Failure(e) => Failure(Protocol(e))
        case Success(None) => Failure(MissingSize)
        case Success(Some(size)) =>
          if (p.total.Some? && p.total.value != size) || |p.staged| > size then Failure(SizeChanged)
          else Success(More(Progress(p.staged, Some(size), p.sawItem || m.kind == NEW_ITEM)))
    else if m.kind == DATA then
      if m.argument != |m.payload| then Failure(ChunkLength)
      else
        var staged := p.staged + m.payload;
        if |staged| > MAX_FILE_BYTES || (p.total.Some? && |staged| > p.total.value) then Failure(TooMuch)
        else Success(More(p.(staged := staged)))
    else if m.kind == END then
      if m.argument != 0 || m.payload != [] then Failure(Rejected)
      else if p.total == Some(|p.staged|) && p.sawItem then Success(Complete)
      else Failure(Incomplete)
    else Failure(Unsupported)
  }

  /** Consumes replies until the file is complete; the value is the content that is then published. */
  function Download(rule: NameRule, p: Progress, replies: seq<Message>): Result<seq<byte>, TransferError>
    decreases |replies|
  {
    if replies == [] then Failure(Lost)
    else
      match Accept(rule, p, replies[0])
      case Failure(e) => Failure(e)
      case Success(Complete) => Success(p.staged)
      case Success(More(next)) => Download(rule, next, replies[1..])
  }

  // ----- exactly which replies publish a file

  function Carried(m: Message): seq<byte> {
    if m.kind == DATA then m.payload else []
  }

  /** The file bytes that these messages carry. */
  function Payloads(ms: seq<Message>): seq<byte> {
    if ms == [] then [] else Carried(ms[0]) + Payloads(ms[1..])
  }

  /** A message that may stand before the end of a file of this size. */
  predicate Fits(rule: NameRule, m: Message, size: nat) {
    if m.kind == DATA then m.argument == |m.payload|
    else (m.kind == ITEM_INFO || m.kind == NEW_ITEM) && AnnouncedSize(rule, m) == Success(Some(size))
  }

  /**
   `replies[k]` completes a file: everything before it is metadata announcing exactly the size of all the data, or
   data; and the one item message, at `item`, comes before any byte.
   */
  predicate Completes(rule: NameRule, replies: seq<Message>, item: nat, k: nat) {
    && item < k < |replies| && Confirms(replies[k])
    && |Payloads(replies[..k])| <= MAX_FILE_BYTES
    && (forall i :: 0 <= i < k ==> Fits(rule, replies[i], |Payloads(replies[..k])|))
    && (forall i :: 0 <= i < k ==> (replies[i].kind == NEW_ITEM <==> i == item))
    && Payloads(replies[..item]) == []
  }

  /** The same, for what remains once some of the file has been staged. */
  predicate Remaining(rule: NameRule, p: Progress, replies: seq<Message>, item: Option<nat>, k: nat) {
    var size := |p.staged| + |Payloads(replies[..Min(k, |replies|)])|;
    && k < |replies| && Confirms(replies[k]) && size <= MAX_FILE_BYTES
    && (p.total.Some? ==> p.total.value == size)
    && (forall i :: 0 <= i < k ==> Fits(rule, replies[i], size))
    && (forall i :: 0 <= i < k ==> (replies[i].kind == NEW_ITEM <==> item == Some(i)))
    && (p.sawItem <==> item.None?)
    && (item.Some? ==> item.value < k && p.staged == [] && Payloads(replies[..item.value]) == [])
  }

  predicate ProgressOk(p: Progress) {
    p.sawItem ==> p.total.Some?
  }

  function Earlier(item: Option<nat>): Option<nat> {
    if item.Some? && item.value > 0 then Some(item.value - 1) else None
  }

  lemma PayloadsHead(replies: seq<Message>, k: nat)
    requires 0 < k <= |replies|
    ensures Payloads(replies[..k]) == Carried(replies[0]) + Payloads(replies[1..][..k - 1])
  {
    assert replies[..k][1..] == replies[1..][..k - 1];
  }

  lemma AcceptsFitting(rule: NameRule, p: Progress, m: Message, size: nat)
    requires ProgressOk(p) && Fits(rule, m, size) && (p.total.Some? ==> p.total.value == size)
    requires |p.staged + Carried(m)| <= size <= MAX_FILE_BYTES && (m.kind == NEW_ITEM ==> !p.sawItem && p.staged == [])
    ensures var r := Accept(rule, p, m);
            && r.Success? && r.value.More? && ProgressOk(r.value.progress)
            && r.value.progress.staged == p.staged + Carried(m)
            && (r.value.progress.total.Some? ==> r.value.progress.total.value == size)
            && r.value.progress.sawItem == (p.sawItem || m.kind == NEW_ITEM)
  {
    hide AnnouncedSize;
    assert p.staged + [] == p.staged;
  }

  lemma RemainingStep(rule: NameRule, p: Progress, replies: seq<Message>, item: Option<nat>, k: nat)
    requires ProgressOk(p) && Remaining(rule, p, replies, item, k) && k > 0
    ensures var r := Accept(rule, p, replies[0]);
            && r.Success? && r.value.More? && ProgressOk(r.value.progress)
            && Remaining(rule, r.value.progress, replies[1..], Earlier(item), k - 1)
            && r.value.progress.staged + Payloads(replies[1..][..k - 1]) == p.staged + Payloads(replies[..k])
  {
    hide AnnouncedSize, Accept, Payloads, Fits, ProgressOk, Carried;
    PayloadsHead(replies, k);
    var rest, m := replies[1..], replies[0];
    var size := |p.staged| + |Payloads(replies[..k])|;
    assert Fits(rule, m, size);
    assert p.staged + (Carried(m) + Payloads(rest[..k - 1])) == p.staged + Carried(m) + Payloads(rest[..k - 1]);
    AcceptsFitting(rule, p, m, size);
    forall i | 0 <= i < k - 1
      ensures Fits(rule, rest[i], size) && (rest[i].kind == NEW_ITEM <==> Earlier(item) == Some(i))
    {
      assert rest[i] == replies[i + 1];
    }
    ItemAfter(replies, item);
    assert m.kind == NEW_ITEM <==> item == Some(0);
  }

  lemma ItemAfter(replies: seq<Message>, item: Option<nat>)
    requires item.Some? ==> item.value < |replies| && Payloads(replies[..item.value]) == []
    ensures item.Some? && item.value > 0 ==> Carried(replies[0]) == [] && Payloads(replies[1..][..item.value - 1]) == []
  {
    if item.Some? && item.value > 0 {
      PayloadsHead(replies, item.value);
    }
  }

  /** A complete file is published with exactly the bytes its data messages carry. */
  lemma {:induction false} RemainingDownloads(rule: NameRule, p: Progress, replies: seq<Message>,
                                              item: Option<nat>, k: nat)
    requires ProgressOk(p) && Remaining(rule, p, replies, item, k)
    ensures Download(rule, p, replies) == Success(p.staged + Payloads(replies[..k]))
    decreases k
  {
    if k == 0 {
      assert Payloads(replies[..0]) == [] && p.staged + [] == p.staged;
    } else {
      RemainingStep(rule, p, replies, item, k);
      hide Accept, Remaining;
      RemainingDownloads(rule, Accept(rule, p, replies[0]).value.progress, replies[1..], Earlier(item), k - 1);
    }
  }

  lemma AcceptMeans(rule: NameRule, p: Progress, m: Message)
    requires ProgressOk(p) && Accept(rule, p, m).Success? && Accept(rule, p, m).value.More?
    ensures var q := Accept(rule, p, m).value.progress;
            && ProgressOk(q)
            && q.staged == p.staged + Carried(m)
            && (p.total.Some? ==> q.total == p.total)
            && (m.kind == DATA ==> m.argument == |m.payload| && q.total == p.total && q.sawItem == p.sawItem)
            && (m.kind != DATA ==> (m.kind == ITEM_INFO || m.kind == NEW_ITEM) && q.total.Some?
                                   && AnnouncedSize(rule, m) == Success(q.total))
            && q.sawItem == (p.sawItem || m.kind == NEW_ITEM)
            && (m.kind == NEW_ITEM ==> !p.sawItem && p.staged == [])
            && (|p.staged| <= MAX_FILE_BYTES ==> |q.staged| <= MAX_FILE_BYTES)
  {
    hide AnnouncedSize;
    assert p.staged + [] == p.staged;
  }

  function Later(item: Option<nat>, here: bool): Option<nat> {
    if here then Some(0) else if item.Some? then Some(item.value + 1) else None
  }

  lemma FitsHere(rule: NameRule, p: Progress, q: Progress, m: Message, size: nat)
    requires Accept(rule, p, m) == Success(More(q)) && ProgressOk(p) && (q.total.Some? ==> q.total.value == size)
    ensures Fits(rule, m, size) && (p.total.Some? ==> p.total.value == size)
  {
    hide AnnouncedSize, Accept;
    AcceptMeans(rule, p, m);
  }

  lemma ItemClause(p: Progress, q: Progress, replies: seq<Message>, item: Option<nat>, k: nat)
    requires replies != [] && k < |replies|
    requires q.staged == p.staged + Carried(replies[0]) && q.sawItem == (p.sawItem || replies[0].kind == NEW_ITEM)
    requires replies[0].kind == NEW_ITEM ==> !p.sawItem && p.staged == []
    requires q.sawItem <==> item.None?
    requires item.Some? ==> item.value < k && q.staged == [] && Payloads(replies[1..][..item.value]) == []
    ensures var at := Later(item, replies[0].kind == NEW_ITEM);
            && (p.sawItem <==> at.None?)
            && (at.Some? ==> at.value < k + 1 && p.staged == [] && Payloads(replies[..at.value]) == [])
  {
    hide Payloads, Carried;
    ItemBefore(replies, item);
    EmptyParts(p.staged, Carried(replies[0]));
  }

  /** The first reply and what follows it fit one size. */
  lemma FitsFromHere(rule: NameRule, p: Progress, q: Progress, replies: seq<Message>, item: Option<nat>, k: nat,
                     size: nat)
    requires ProgressOk(p) && replies != [] && Accept(rule, p, replies[0]) == Success(More(q)) && k < |replies| - 1
    requires q.total.Some? ==> q.total.value == size
    requires forall i :: 0 <= i < k ==> Fits(rule, replies[1..][i], size)
    requires forall i :: 0 <= i < k ==> (replies[1..][i].kind == NEW_ITEM <==> item == Some(i))
    requires q.sawItem <==> item.None?
    requires replies[0].kind == NEW_ITEM ==> q.sawItem
    ensures forall i :: 0 <= i < k + 1 ==> Fits(rule, replies[i], size)
    ensures forall i :: 0 <= i < k + 1 ==>
              (replies[i].kind == NEW_ITEM <==> Later(item, replies[0].kind == NEW_ITEM) == Some(i))
  {
    hide AnnouncedSize, Accept, Fits, ProgressOk;
    FitsHere(rule, p, q, replies[0], size);
    forall i | 0 < i < k + 1 ensures replies[i] == replies[1..][i - 1] {
    }
  }

  lemma RemainingBack(rule: NameRule, p: Progress, replies: seq<Message>, item: Option<nat>, k: nat)
    requires ProgressOk(p) && |p.staged| <= MAX_FILE_BYTES && replies != []
    requires Accept(rule, p, replies[0]).Success? && Accept(rule, p, replies[0]).value.More?
    requires Remaining(rule, Accept(rule, p, replies[0]).value.progress, replies[1..], item, k)
    ensures Remaining(rule, p, replies, Later(item, replies[0].kind == NEW_ITEM), k + 1)
    ensures p.staged + Payloads(replies[..k + 1])
         == Accept(rule, p, replies[0]).value.progress.staged + Payloads(replies[1..][..k])
  {
    hide AnnouncedSize, Accept, Fits, Payloads, Carried, ProgressOk, Later;
    var rest, m := replies[1..], replies[0];
    AcceptMeans(rule, p, m);
    PayloadsHead(replies, k + 1);
    var q := Accept(rule, p, m).value.progress;
    var size := |p.staged| + |Payloads(replies[..k + 1])|;
    assert p.staged + (Carried(m) + Payloads(rest[..k])) == q.staged + Payloads(rest[..k]);
    FitsHere(rule, p, q, m, size);
    FitsFromHere(rule, p, q, replies, item, k, size);
    ItemClause(p, q, replies, item, k);
  }

  lemma EmptyParts(a: seq<byte>, b: seq<byte>)
    ensures a + b == [] <==> a == [] && b == []
  {
  }

  lemma ItemBefore(replies: seq<Message>, item: Option<nat>)
    requires replies != []
    requires item.Some? ==> item.value + 1 < |replies| && Payloads(replies[1..][..item.value]) == []
    ensures Payloads(replies[..0]) == []
    ensures item.Some? ==> Payloads(replies[..item.value + 1]) == Carried(replies[0])
  {
    if item.Some? {
      PayloadsHead(replies, item.value + 1);
      assert Carried(replies[0]) + [] == Carried(replies[0]);
    }
  }

  lemma {:induction false} DownloadMeansRemaining(rule: NameRule, p: Progress, replies: seq<Message>)
    returns (item: Option<nat>, k: nat)
    requires ProgressOk(p) && |p.staged| <= MAX_FILE_BYTES && Download(rule, p, replies).Success?
    ensures Remaining(rule, p, replies, item, k)
    decreases |replies|
  {
    hide Remaining, Accept;
    var r := Accept(rule, p, replies[0]);
    if r.value.Complete? {
      item, k := None, 0;
      CompleteNow(rule, p, replies);
    } else {
      AcceptMeans(rule, p, replies[0]);
      var rest, j := DownloadMeansRemaining(rule, r.value.progress, replies[1..]);
      RemainingBack(rule, p, replies, rest, j);
      item, k := Later(rest, replies[0].kind == NEW_ITEM), j + 1;
    }
  }

  lemma CompleteNow(rule: NameRule, p: Progress, replies: seq<Message>)
    requires replies != [] && Accept(rule, p, replies[0]) == Success(Complete) && |p.staged| <= MAX_FILE_BYTES
    ensures Remaining(rule, p, replies, None, 0)
  {
    hide AnnouncedSize, Fits;
    assert Payloads(replies[..0]) == [];
  }

  /** Whatever is published was announced at its exact size by every metadata message, and is the data received. */
  lemma PublishedMeans(rule: NameRule, replies: seq<Message>) returns (item: nat, k: nat)
    requires Download(rule, NOTHING, replies).Success?
    ensures Completes(rule, replies, item, k)
    ensures Download(rule, NOTHING, replies) == Success(Payloads(replies[..k]))
  {
    hide Download, AnnouncedSize, Fits;
    var at, j := DownloadMeansRemaining(rule, NOTHING, replies);
    RemainingDownloads(rule, NOTHING, replies, at, j);
    item, k := at.value, j;
    assert [] + Payloads(replies[..k]) == Payloads(replies[..k]);
  }

  /** Conversely every complete file is published. Together: a download succeeds exactly on complete files. */
  lemma CompletePublishes(rule: NameRule, replies: seq<Message>, item: nat, k: nat)
    requires Completes(rule, replies, item, k)
    ensures Download(rule, NOTHING, replies) == Success(Payloads(replies[..k]))
  {
    hide Download, AnnouncedSize, Fits;
    RemainingDownloads(rule, NOTHING, replies, Some(item), k);
    assert [] + Payloads(replies[..k]) == Payloads(replies[..k]);
  }

  // ----- upload meets download

  predicate AllData(id: u32, fs: seq<Framed>) {
    forall i :: 0 <= i < |fs| ==>
      fs[i].message.kind == DATA && fs[i].message.argument == |fs[i].message.payload| <= CHUNK_BYTES
      && fs[i].message.session == id && fs[i].subtype == 0
  }

  lemma PayloadsNothing()
    ensures Payloads(Messages([])) == []
  {
  }

  lemma PayloadsOne(f: Framed, rest: seq<Framed>)
    requires f.message.kind == DATA
    ensures Payloads(Messages([f] + rest)) == f.message.payload + Payloads(Messages(rest))
  {
    assert Messages([f] + rest)[1..] == Messages(rest);
  }

  /** However the reads are cut, the data messages carry the file from this position to its announced size. */
  lemma {:induction false} UploadDataCarries(id: u32, src: Source, done: nat, i: nat)
    requires done <= src.size && done <= |src.content|
    ensures var s := UploadData(id, src, done, i);
            && AllData(id, s.messages)
            && (s.error.None? ==>
                  src.size <= |src.content| && Payloads(Messages(s.messages)) == src.content[done..src.size])
            && s.error in {None, Some(Shorter)}
    decreases src.size - done
  {
    hide Payloads, Messages, ReadSize;
    assert Payloads(Messages([])) == [] by { PayloadsNothing(); }
    if done < src.size {
      var n := ReadSize(src, done, i);
      if n > 0 {
        UploadDataCarries(id, src, done + n, i + 1);
        var m, rest := DataMessage(id, src.content[done..done + n]), UploadData(id, src, done + n, i + 1).messages;
        PayloadsOne(m, rest);
        if UploadData(id, src, done + n, i + 1).error.None? {
          assert src.content[done..src.size] == src.content[done..done + n] + src.content[done + n..src.size];
        }
      }
    } else {
      assert src.content[done..src.size] == [];
    }
  }

  /** An upload that is not cut short by its own file never fails. */
  lemma {:induction false} UploadDataSucceeds(id: u32, src: Source, done: nat, i: nat)
    requires done <= src.size <= |src.content| && forall j: nat :: src.cuts(j) > 0
    ensures UploadData(id, src, done, i).error.None?
    decreases src.size - done
  {
    if done < src.size {
      UploadDataSucceeds(id, src, done + ReadSize(src, done, i), i + 1);
    }
  }

  lemma OpeningSucceeds(rule: NameRule, id: u32, path: seq<byte>, name: seq<byte>, size: nat)
    requires id != 0 && ValidPath(path) && ValidName(rule, name) && size <= MAX_FILE_BYTES
    ensures Request(id, path, true).Success? && UploadMetadata(rule, id, name, size).Success?
  {
    hide Parts, RequestMessage, InfoMessage, ItemMessage;
  }

  /** An upload of a file that stays as it was sends everything, whatever pieces its reads return. */
  lemma UploadSucceeds(rule: NameRule, id: u32, path: seq<byte>, name: seq<byte>, src: Source)
    requires id != 0 && ValidPath(path) && ValidName(rule, name)
    requires src.size <= MAX_FILE_BYTES && src.size <= |src.content| && src.stable && forall j: nat :: src.cuts(j) > 0
    ensures UploadMessages(rule, id, path, name, src, true).error.None?
  {
    hide UploadData, ValidPath, ValidName, Request, UploadMetadata;
    UploadDataSucceeds(id, src, 0, 0);
    OpeningSucceeds(rule, id, path, name, src.size);
  }

  lemma {:induction false} PayloadsAppend(a: seq<Message>, b: seq<Message>)
    ensures Payloads(a + b) == Payloads(a) + Payloads(b)
  {
    hide Carried;
    if a == [] {
      assert a + b == b;
      assert Payloads([]) == [] && [] + Payloads(b) == Payloads(b);
    } else {
      PayloadsAppend(a[1..], b);
      assert (a + b)[1..] == a[1..] + b;
      var head := Carried(a[0]);
      assert head + (Payloads(a[1..]) + Payloads(b)) == head + Payloads(a[1..]) + Payloads(b);
    }
  }

  lemma OpeningMessages(rule: NameRule, id: u32, path: seq<byte>, name: seq<byte>, size: nat)
    ensures var r := Request(id, path, true);
            r.Success? ==> ValidPath(path) && |path| <= 4096 && id != 0 && r.value == RequestMessage(id, path, true)
    ensures var m := UploadMetadata(rule, id, name, size);
            m.Success? ==>
              size <= MAX_FILE_BYTES && |name| <= 255 && m.value == [InfoMessage(id, size), ItemMessage(id, name, size)]
  {
    hide InfoMessage, ItemMessage, RequestMessage, Parts;
  }

  lemma UploadShape(rule: NameRule, id: u32, path: seq<byte>, name: seq<byte>, src: Source, allowed: bool)
    returns (data: seq<Framed>)
    requires UploadMessages(rule, id, path, name, src, allowed).error.None?
    ensures ValidPath(path) && |path| <= 4096 && id != 0 && src.size <= MAX_FILE_BYTES && src.size <= |src.content|
    ensures |name| <= 255
    ensures AllData(id, data) && Payloads(Messages(data)) == src.content[..src.size]
    ensures UploadMetadata(rule, id, name, src.size)
            == Success([InfoMessage(id, src.size), ItemMessage(id, name, src.size)])
    ensures UploadMessages(rule, id, path, name, src, allowed).messages
         == [RequestMessage(id, path, true), InfoMessage(id, src.size), ItemMessage(id, name, src.size)]
            + data + [EndMessage(id)]
  {
    hide ValidPath, InfoMessage, ItemMessage, EndMessage, RequestMessage, UploadData, AllData, Payloads, Messages,
      Request, UploadMetadata;
    UploadDataCarries(id, src, 0, 0);
    OpeningMessages(rule, id, path, name, src.size);
    data := UploadData(id, src, 0, 0).messages;
    var r, i, n, e := RequestMessage(id, path, true), InfoMessage(id, src.size),
                      ItemMessage(id, name, src.size), EndMessage(id);
    assert ([r] + [i, n]) + (data + [e]) == [r, i, n] + data + [e];
    assert src.content[0..src.size] == src.content[..src.size];
  }

  /**
   Everything an upload sends after its request is accepted by a download, which publishes the same bytes, for every
   file and every way its reads are cut. And every message of it can be sent as one control body.
   */
  lemma UploadDownloads(rule: NameRule, id: u32, path: seq<byte>, name: seq<byte>, src: Source, allowed: bool)
    requires UploadMessages(rule, id, path, name, src, allowed).error.None?
    ensures var fs := UploadMessages(rule, id, path, name, src, allowed).messages;
            && Sendables(fs)
            && |fs| > 0 && src.size <= |src.content|
            && Download(rule, NOTHING, Messages(fs[1..])) == Success(src.content[..src.size])
  {
    hide UploadMessages, ValidPath, InfoMessage, ItemMessage, RequestMessage, AnnouncedSize, Payloads, Download,
      Completes,
         Sendable, UploadMetadata;
    var data := UploadShape(rule, id, path, name, src, allowed);
    var fs := UploadMessages(rule, id, path, name, src, allowed).messages;
    MetadataAnnouncesSize(rule, id, name, src.size);
    UploadSendable(rule, id, path, name, src, data);
    var i, n, e := InfoMessage(id, src.size), ItemMessage(id, name, src.size), EndMessage(id);
    var ms := Messages(fs[1..]);
    assert fs[1..] == [i, n] + data + [e];
    assert ms == [i.message, n.message] + Messages(data) + [e.message];
    UploadCompletes(rule, i.message, n.message, Messages(data), e.message, src.size);
    CompletePublishes(rule, ms, 1, |ms| - 1);
    assert ms[..|ms| - 1] == [i.message, n.message] + Messages(data);
    DataOnly(i.message, n.message, Messages(data));
  }

  lemma DataOnly(i: Message, n: Message, data: seq<Message>)
    requires i.kind == ITEM_INFO && n.kind == NEW_ITEM
    ensures Payloads([i, n] + data) == Payloads(data)
    ensures Payloads([i]) == []
  {
    assert [i, n] == [i] + [n];
    assert [i][1..] == [] && [n][1..] == [];
    PayloadsAppend([i] + [n], data);
    PayloadsAppend([i], [n]);
    assert [] + Payloads(data) == Payloads(data);
  }

  lemma UploadCompletes(rule: NameRule, i: Message, n: Message, data: seq<Message>, e: Message, size: nat)
    requires i.kind == ITEM_INFO && n.kind == NEW_ITEM && Confirms(e)
    requires AnnouncedSize(rule, i) == Success(Some(size)) && AnnouncedSize(rule, n) == Success(Some(size))
    requires |Payloads(data)| == size <= MAX_FILE_BYTES
    requires forall j :: 0 <= j < |data| ==> data[j].kind == DATA && data[j].argument == |data[j].payload|
    ensures Completes(rule, [i, n] + data + [e], 1, 2 + |data|)
  {
    hide AnnouncedSize, Payloads;
    var ms := [i, n] + data + [e];
    DataOnly(i, n, data);
    assert ms[..2 + |data|] == [i, n] + data && ms[..1] == [i];
    forall j | 0 <= j < 2 + |data|
      ensures Fits(rule, ms[j], size) && (ms[j].kind == NEW_ITEM <==> j == 1)
    {
      if j >= 2 {
        assert ms[j] == data[j - 2];
      }
    }
  }

  lemma FrameSendable(id: u32, path: seq<byte>, fs: seq<Framed>)
    requires id != 0 && |path| <= 4096 && AllData(id, fs)
    ensures Sendable(RequestMessage(id, path, true)) && Sendable(EndMessage(id))
    ensures Sendables(fs)
  {
    hide BE16, BE32;
  }

  lemma UploadSendable(rule: NameRule, id: u32, path: seq<byte>, name: seq<byte>, src: Source, data: seq<Framed>)
    requires id != 0 && |path| <= 4096 && AllData(id, data) && src.size <= MAX_FILE_BYTES && |name| <= 255
    requires UploadMetadata(rule, id, name, src.size)
             == Success([InfoMessage(id, src.size), ItemMessage(id, name, src.size)])
    ensures var fs := [RequestMessage(id, path, true), InfoMessage(id, src.size), ItemMessage(id, name, src.size)]
                      + data + [EndMessage(id)];
            Sendables(fs)
  {
    hide Sendable, InfoMessage, ItemMessage, RequestMessage, EndMessage, UploadMetadata, AllData, AnnouncedSize;
    MetadataAnnouncesSize(rule, id, name, src.size);
    FrameSendable(id, path, data);
  }

  /**
   An upload on the wire: the request that offers the path, two metadata messages that announce the size, the second
   with the name, the data, and an empty end message; all under the same session.
   */
  lemma UploadOnTheWire(rule: NameRule, id: u32, path: seq<byte>, name: seq<byte>, src: Source, allowed: bool)
    requires UploadMessages(rule, id, path, name, src, allowed).error.None?
    ensures allowed && Absolute(path) && id != 0 && src.stable && 1 <= |name| <= 255 && src.size <= 0xFFFF_FFFF
    ensures var fs := UploadMessages(rule, id, path, name, src, allowed).messages;
            && |fs| >= 4 && |fs[0].message.payload| <= 4096 + 6 && Wire(fs[0]) == RequestBytes(id, path, 2)
            && AnnouncedSize(rule, fs[1].message) == AnnouncedSize(rule, fs[2].message) == Success(Some(src.size))
            && |fs[2].message.payload| >= 100 && fs[2].message.payload[100..] == name
            && (forall i :: 0 <= i < |fs| ==> fs[i].message.session == id)
            && fs[|fs| - 1].message == Message(END, id, 0, [])
  {
    hide UploadData, Request, Wire, RequestBytes, AnnouncedSize, InfoPayload, ItemPayload, AllData, Payloads;
    var data := UploadShape(rule, id, path, name, src, allowed);
    RequestIff(id, path, true);
    MetadataAnnouncesSize(rule, id, name, src.size);
    ItemSlices(name, src.size);
    UploadAllowed(rule, id, path, name, src, allowed);
    SameSession(id, data);
  }

  /** Whatever comes of an upload, the first thing it sends is the request that offers the path. */
  lemma UploadBegins(rule: NameRule, id: u32, path: seq<byte>, name: seq<byte>, src: Source, allowed: bool)
    ensures var fs := UploadMessages(rule, id, path, name, src, allowed).messages;
            fs != [] ==> Absolute(path) && |fs[0].message.payload| <= MAX_MESSAGE_BYTES - HEADER
                         && Wire(fs[0]) == RequestBytes(id, path, 2)
  {
    hide UploadData, Request, Wire, RequestBytes, UploadMetadata, Absolute;
    UploadDataCarries(id, src, 0, 0);
    RequestIff(id, path, true);
    RequestSize(id, path, true);
  }

  lemma RequestSize(id: u32, path: seq<byte>, upload: bool)
    ensures Request(id, path, upload).Success? ==> |Request(id, path, upload).value.message.payload| <= 4096 + 6
  {
    hide Parts;
  }

  lemma SameSession(id: u32, data: seq<Framed>)
    requires AllData(id, data)
    ensures forall i :: 0 <= i < |data| ==> data[i].message.session == id
  {
  }

  lemma UploadAllowed(rule: NameRule, id: u32, path: seq<byte>, name: seq<byte>, src: Source, allowed: bool)
    requires UploadMessages(rule, id, path, name, src, allowed).error.None?
    ensures allowed && src.stable && src.size <= 0xFFFF_FFFF && Request(id, path, true).Success?
    ensures 1 <= |name| <= 255 && Request(id, path, true).value == RequestMessage(id, path, true)
  {
    hide UploadData, ValidPath;
    UploadDataCarries(id, src, 0, 0);
  }

  /**
   An upload that fails for a reason of its own, the file that changed or turned out shorter among them, never sends the
   end: no receiver publishes any part of it.
   */
  lemma FailedUploadIsNotPublished(rule: NameRule, id: u32, path: seq<byte>, name: seq<byte>, src: Source,
                                   allowed: bool, sent: seq<Framed>)
    requires var all := UploadMessages(rule, id, path, name, src, allowed); all.error.Some? && sent <= all.messages
    ensures forall f <- sent :: f.message.kind != END
    ensures forall i :: 0 <= i <= |sent| ==> Download(rule, NOTHING, Messages(sent[i..])).Failure?
  {
    hide Download, AnnouncedSize, UploadData, Parts, InfoPayload, ItemPayload;
    UploadDataCarries(id, src, 0, 0);
    var all := UploadMessages(rule, id, path, name, src, allowed);
    NoEndInData(id, UploadData(id, src, 0, 0).messages);
    forall i | 0 <= i <= |sent| ensures Download(rule, NOTHING, Messages(sent[i..])).Failure? {
      NoEndNoFile(rule, NOTHING, Messages(sent[i..]));
    }
  }

  lemma NoEndInData(id: u32, data: seq<Framed>)
    requires AllData(id, data)
    ensures forall f <- data :: f.message.kind != END
  {
  }

  lemma {:induction false} NoEndNoFile(rule: NameRule, p: Progress, replies: seq<Message>)
    requires forall m <- replies :: m.kind != END
    ensures Download(rule, p, replies).Failure?
    decreases |replies|
  {
    hide AnnouncedSize;
    if replies != [] {
      var r := Accept(rule, p, replies[0]);
      if r.Success? {
        NoEndNoFile(rule, r.value.progress, replies[1..]);
      }
    }
  }
}
