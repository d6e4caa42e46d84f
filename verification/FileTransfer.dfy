/**
 File metadata in native messages, and the decoder as the object of the source.

 Which names are acceptable beyond their length is the parameter `rule`.
 */
module FileTransfer {
  import opened Bytes
  import opened FileMessages

  type NameRule = seq<byte> -> bool

  predicate ValidName(rule: NameRule, name: seq<byte>) {
    0 < |name| <= 255 && rule(name)
  }

  const REGULAR: u16 := 0x81A4

  /** Bits 12 and up of a mode select the kind of file; 8 is a regular one. */
  predicate RegularMode(mode: u16) {
    mode / 4096 == 8
  }

  // ----- requests

  const SLASH: byte := 47
  const DOT: byte := 46

  /** The parts of a path between slashes. */
  function Parts(path: seq<byte>): (parts: seq<seq<byte>>)
    ensures |parts| > 0
  {
    if path == [] then [[]]
    else
      var rest := Parts(path[1..]);
      if path[0] == SLASH then [[]] + rest else [[path[0]] + rest[0]] + rest[1..]
  }

  predicate ValidPath(path: seq<byte>) {
    && path != [] && path[0] == SLASH && 0 !in path && |path| <= 4096
    && [DOT, DOT] !in Parts(path)
  }

  /** A component `..` begins at `i`. */
  predicate UpAt(path: seq<byte>, i: nat) {
    && i + 2 <= |path| && path[i] == DOT && path[i + 1] == DOT
    && (i == 0 || path[i - 1] == SLASH) && (i + 2 == |path| || path[i + 2] == SLASH)
  }

  /** The length of the first component. */
  function First(path: seq<byte>): (k: nat)
    ensures k <= |path| && (k < |path| ==> path[k] == SLASH) && forall i :: 0 <= i < k ==> path[i] != SLASH
  {
    if path == [] || path[0] == SLASH then 0 else 1 + First(path[1..])
  }

  lemma {:induction false} PartsSplit(path: seq<byte>)
    ensures var k := First(path);
            Parts(path) == [path[..k]] + if k < |path| then Parts(path[k + 1..]) else []
  {
    if path != [] && path[0] != SLASH {
      PartsSplit(path[1..]);
      var k := First(path[1..]);
      assert path[..k + 1] == [path[0]] + path[1..][..k];
      assert k < |path[1..]| ==> path[1..][k + 1..] == path[k + 2..];
    }
  }

  lemma UpInRest(path: seq<byte>, k: nat, i: nat)
    requires k < |path| && path[k] == SLASH
    ensures UpAt(path[k + 1..], i) <==> UpAt(path, k + 1 + i)
  {
    var rest := path[k + 1..];
    assert forall j :: 0 <= j < |rest| ==> rest[j] == path[k + 1 + j];
  }

  /** A path has a component `..` exactly where one begins. */
  lemma {:induction false} UpIff(path: seq<byte>)
    ensures [DOT, DOT] in Parts(path) <==> exists i :: 0 <= i < |path| && UpAt(path, i)
    decreases |path|
  {
    hide Parts;
    var k := First(path);
    PartsSplit(path);
    assert path[..k] == [DOT, DOT] <==> UpAt(path, 0) by {
      if path[..k] == [DOT, DOT] {
        assert path[0] == path[..k][0] && path[1] == path[..k][1];
      }
    }
    if k < |path| {
      var rest := path[k + 1..];
      UpIff(rest);
      if i :| 0 <= i < |path| && UpAt(path, i) && i > k {
        UpInRest(path, k, i - k - 1);
        assert UpAt(rest, i - k - 1);
      }
      if i :| 0 <= i < |rest| && UpAt(rest, i) {
        UpInRest(path, k, i);
        assert UpAt(path, k + 1 + i);
      }
    }
    NoneWithin(path);
  }

  lemma NoneWithin(path: seq<byte>)
    ensures forall i :: 0 < i <= First(path) ==> !UpAt(path, i)
  {
  }

  /** An absolute path of at most 4096 bytes, without a zero and without a component `..`. */
  predicate Absolute(path: seq<byte>) {
    && 1 <= |path| <= 4096 && path[0] == 47 && 0 !in path
    && forall i :: 0 <= i < |path| ==> !UpAt(path, i)
  }

  /** Exactly such paths can be asked for, under any session but 0, and the request is the one listed below. */
  lemma RequestIff(session: u32, path: seq<byte>, upload: bool)
    ensures Request(session, path, upload).Success? <==> Absolute(path) && session != 0
    ensures Request(session, path, upload).Success? ==>
              |path| <= 4096
              && Wire(Request(session, path, upload).value) == RequestBytes(session, path, if upload then 2 else 1)
  {
    hide Parts, UpAt, RequestBytes, Wire, RequestMessage;
    UpIff(path);
    if |path| <= 4096 {
      RequestLayout(session, path, upload);
    }
  }

  function RequestMessage(session: u32, path: seq<byte>, upload: bool): Framed
    requires |path| <= 4096
  {
    Framed(2, Message(if upload then 2 else 1, session, 1, BE32(4) + BE16(|path|) + path))
  }

  function Request(session: u32, path: seq<byte>, upload: bool): Result<Framed, FileError> {
    if !ValidPath(path) then Failure(InvalidPath)
    else if session == 0 then Failure(InvalidId)
    else Success(RequestMessage(session, path, upload))
  }

  /** A request byte by byte, as the wire format lists it: `kind` 1 asks for a file, 2 offers one. */
  function RequestBytes(session: u32, path: seq<byte>, kind: byte): seq<byte>
    requires |path| <= 4096
  {
    [0x22, 2, 0, 0, (18 + |path|) / 256, (18 + |path|) % 256, 0, 1, 0, kind,
     session / 0x100_0000, session / 0x1_0000 % 256, session / 256 % 256, session % 256,
     0, 0, 0, 1, 0, 0, 0, 4, |path| / 256, |path| % 256] + path
  }

  /** Every byte of every request. */
  lemma RequestLayout(session: u32, path: seq<byte>, upload: bool)
    requires |path| <= 4096
    ensures Wire(RequestMessage(session, path, upload)) == RequestBytes(session, path, if upload then 2 else 1)
  {
    hide BE32, BE16;
    Spelled32(18 + |path|);
    SmallSize(18 + |path|);
    Spelled32(session);
    Spelled32(1);
    Spelled32(4);
    Spelled16(1);
    Spelled16(if upload then 2 else 1);
    Spelled16(|path|);
    LayoutParts(BE32(18 + |path|), BE16(if upload then 2 else 1), BE32(session), BE16(|path|), path,
                (18 + |path|) / 256, (18 + |path|) % 256, if upload then 2 else 1,
                session / 0x100_0000, session / 0x1_0000 % 256, session / 256 % 256, session % 256,
                |path| / 256, |path| % 256);
  }

  lemma LayoutParts(l: seq<byte>, k: seq<byte>, s: seq<byte>, n: seq<byte>, path: seq<byte>,
                    l2: byte, l3: byte, k1: byte, s0: byte, s1: byte, s2: byte, s3: byte, n0: byte, n1: byte)
    requires l == [0, 0, l2, l3] && k == [0, k1] && s == [s0, s1, s2, s3] && n == [n0, n1]
    ensures [0x22, 2] + l + [0, 1] + k + s + [0, 0, 0, 1] + ([0, 0, 0, 4] + n + path)
         == [0x22, 2, 0, 0, l2, l3, 0, 1, 0, k1, s0, s1, s2, s3, 0, 0, 0, 1, 0, 0, 0, 4, n0, n1] + path
  {
  }

  lemma SmallSize(n: nat)
    requires n < 0x1_0000
    ensures n / 0x100_0000 == 0 && n / 0x1_0000 % 256 == 0 && n / 256 % 256 == n / 256
  {
  }

  // ----- metadata

  function InfoPayload(size: u32): seq<byte> {
    Zeros(8) + BE32(size) + Zeros(4) + BE32(size) + Zeros(4) + BE32(1) + Zeros(20)
  }

  function ItemPayload(name: seq<byte>, size: u32): seq<byte>
    requires |name| <= 255
  {
    Zeros(42) + BE32(size) + Zeros(44) + BE16(REGULAR) + Zeros(4) + BE16(|name|) + Zeros(2) + name
  }

  function InfoMessage(session: u32, size: u32): Framed {
    Framed(0, Message(ITEM_INFO, session, 1, InfoPayload(size)))
  }

  function ItemMessage(session: u32, name: seq<byte>, size: u32): Framed
    requires |name| <= 255
  {
    Framed(0, Message(NEW_ITEM, session, 0x0100_0000, ItemPayload(name, size)))
  }

  function UploadMetadata(rule: NameRule, session: u32, name: seq<byte>, size: nat): Result<seq<Framed>, FileError> {
    if !ValidName(rule, name) then Failure(InvalidName)
    else if size > MAX_FILE_BYTES then Failure(FileTooLarge)
    else if session == 0 then Failure(InvalidId)
    else Success([InfoMessage(session, size), ItemMessage(session, name, size)])
  }

  function DataMessage(session: u32, bytes: seq<byte>): Framed
    requires |bytes| <= CHUNK_BYTES
  {
    Framed(0, Message(DATA, session, |bytes|, bytes))
  }

  function EndMessage(session: u32): Framed {
    Framed(0, Message(END, session, 0, []))
  }

  function Word(s: seq<byte>, at: nat): u32
    requires at + 4 <= |s|
  {
    U32(s[at], s[at + 1], s[at + 2], s[at + 3])
  }

  function Half(s: seq<byte>, at: nat): u16
    requires at + 2 <= |s|
  {
    U16(s[at], s[at + 1])
  }

  /** The size a metadata message announces; messages of another kind announce none. */
  function AnnouncedSize(rule: NameRule, m: Message): Result<Option<nat>, FileError> {
    var p := m.payload;
    if m.kind == ITEM_INFO then
      if |p| != 48 then Failure(Layout)
      else if Word(p, 24) != 1 then Failure(Count)
      else if p[8..12] != p[16..20] then Failure(SizesDisagree)
      else Success(Some(Word(p, 8)))
    else if m.kind == NEW_ITEM then
      if |p| < 100 then Failure(Layout)
      else if !RegularMode(Half(p, 90)) then Failure(NotRegular)
      else if 100 + Half(p, 96) != |p| then Failure(NameLength)
      else if !ValidName(rule, p[100..]) then Failure(InvalidName)
      else Success(Some(Word(p, 42)))
    else Success(None)
  }

  /** The fields of a file-info payload are those that a writer gives it for `n` bytes; the rest is free. */
  predicate InfoFor(p: seq<byte>, n: u32) {
    && |p| == 48
    && var w := InfoPayload(n); p[8..12] == w[8..12] && p[16..20] == w[16..20] && p[24..28] == w[24..28]
  }

  /** The same for an item payload, of whatever regular mode, with the name that follows it. */
  predicate ItemFor(rule: NameRule, p: seq<byte>, n: u32) {
    && |p| >= 100 && ValidName(rule, p[100..])
    && var w := ItemPayload(p[100..], n); p[42..46] == w[42..46] && p[96..98] == w[96..98] && p[90] / 16 == w[90] / 16
  }

  lemma WordIs(s: seq<byte>, at: nat, n: u32)
    requires at + 4 <= |s|
    ensures Word(s, at) == n <==> s[at..at + 4] == BE32(n)
  {
    hide U32, BE32;
    Quarters(s[at], s[at + 1], s[at + 2], s[at + 3]);
    assert s[at..at + 4] == [s[at], s[at + 1], s[at + 2], s[at + 3]];
    if s[at..at + 4] == BE32(n) {
      assert s[at] == BE32(n)[0] && s[at + 1] == BE32(n)[1] && s[at + 2] == BE32(n)[2] && s[at + 3] == BE32(n)[3];
    }
  }

  lemma HalfIs(s: seq<byte>, at: nat, n: u16)
    requires at + 2 <= |s|
    ensures Half(s, at) == n <==> s[at..at + 2] == BE16(n)
  {
    hide U16, BE16;
    Halves(s[at], s[at + 1]);
    assert s[at..at + 2] == [s[at], s[at + 1]];
    if s[at..at + 2] == BE16(n) {
      assert s[at] == BE16(n)[0] && s[at + 1] == BE16(n)[1];
    }
  }

  lemma ModeIs(s: seq<byte>, at: nat)
    requires at + 2 <= |s|
    ensures RegularMode(Half(s, at)) <==> s[at] / 16 == 8
  {
    hide Value;
    ValueOfTwo(s[at], s[at + 1]);
  }

  lemma InfoSlices(n: u32)
    ensures var w := InfoPayload(n); |w| == 48 && w[8..12] == w[16..20] == BE32(n) && w[24..28] == BE32(1)
  {
    hide BE32;
  }

  lemma ItemSlices(name: seq<byte>, n: u32)
    requires |name| <= 255
    ensures var w := ItemPayload(name, n);
            && |w| == 100 + |name| && w[100..] == name
            && w[42..46] == BE32(n) && w[96..98] == BE16(|name|) && w[90] / 16 == 8
  {
    hide BE32, BE16;
    var w := ItemPayload(name, n);
    Spelled16(REGULAR);
    assert w[90] == BE16(REGULAR)[0];
  }

  /**
   A message announces `n` bytes exactly if its fields are those that an upload of `n` bytes would write; link and
   folder metadata, several files, and lengths that do not fit announce nothing.
   */
  lemma Announces(rule: NameRule, m: Message, n: u32)
    ensures AnnouncedSize(rule, m) == Success(Some(n)) <==>
              || (m.kind == ITEM_INFO && InfoFor(m.payload, n))
              || (m.kind == NEW_ITEM && ItemFor(rule, m.payload, n))
  {
    hide Word, Half, BE32, BE16, InfoPayload, ItemPayload, RegularMode;
    var p := m.payload;
    InfoSlices(n);
    if m.kind == ITEM_INFO && |p| == 48 {
      WordIs(p, 8, n);
      WordIs(p, 24, 1);
    } else if m.kind == NEW_ITEM && |p| >= 100 && ValidName(rule, p[100..]) {
      ItemSlices(p[100..], n);
      WordIs(p, 42, n);
      HalfIs(p, 96, |p| - 100);
      ModeIs(p, 90);
    }
  }

  /** Both metadata messages of an upload can be sent, and both announce the size they were made for. */
  lemma MetadataAnnouncesSize(rule: NameRule, session: u32, name: seq<byte>, size: nat)
    requires UploadMetadata(rule, session, name, size).Success?
    ensures var fs := UploadMetadata(rule, session, name, size).value;
            && |fs| == 2 && Sendable(fs[0]) && Sendable(fs[1])
            && fs[0].message.kind == ITEM_INFO && fs[1].message.kind == NEW_ITEM
            && AnnouncedSize(rule, fs[0].message) == Success(Some(size))
            && AnnouncedSize(rule, fs[1].message) == Success(Some(size))
  {
    hide InfoPayload, ItemPayload, AnnouncedSize;
    var fs := UploadMetadata(rule, session, name, size).value;
    InfoSlices(size);
    ItemSlices(name, size);
    Announces(rule, fs[0].message, size);
    Announces(rule, fs[1].message, size);
  }

  // ----- the decoder

  class Decoder {
    var pending: seq<byte>

    constructor ()
      ensures pending == []
    {
      pending := [];
    }

    method Feed(body: seq<byte>) returns (r: Result<(seq<Message>, Option<seq<byte>>), FileError>)
      modifies this
      ensures Fed(pending, r) == FileMessages.Feed(old(pending), body)
    {
      hide Scan, U32, U16;
      if pending == [] && (body == [] || body[0] != MARK) {
        return Success(([], Some(body)));
      }
      if |pending| + |body| > BACKLOG {
        return Failure(Backlog);
      }
      pending := pending + body;
      var messages: seq<Message> := [];
      var used := 0;
      ghost var all := Scan(pending);
      BeforeNone(all);
      assert pending[0..] == pending;
      while true
        invariant used <= |pending| && pending == old(pending) + body
        invariant all == Scan(pending) == Before(messages, Scan(pending[used..]))
        decreases |pending| - used
      {
        var rest := pending[used..];
        ScanCases(rest);
        BeforeSuccess(messages, Scan(rest));
        assert messages + [] == messages;
        if rest == [] {
          pending := [];
          return Success((messages, None));
        }
        if rest[0] != MARK {
          pending := [];
          return Success((messages, Some(rest)));
        }
        if |rest| < 6 {
          break;
        }
        if rest[1] !in {0, 2} {
          return Failure(BadSubtype);
        }
        var len := U32(rest[2], rest[3], rest[4], rest[5]);
        if !(12 <= len <= MAX_MESSAGE_BYTES - 6) {
          return Failure(BadLength);
        }
        if |rest| < 6 + len {
          break;
        }
        if U16(rest[6], rest[7]) != 1 {
          return Failure(BadVersion);
        }
        var message := Message(U16(rest[8], rest[9]), U32(rest[10], rest[11], rest[12], rest[13]),
                               U32(rest[14], rest[15], rest[16], rest[17]), rest[18..6 + len]);
        BeforeBoth(messages, [message], Scan(rest[6 + len..]));
        assert pending[used + (6 + len)..] == rest[6 + len..];
        messages := messages + [message];
        used := used + (6 + len);
      }
      pending := pending[used..];
      return Success((messages, None));
    }
  }

  /** One turn of the scan, case by case. */
  lemma ScanCases(s: seq<byte>)
    ensures s == [] ==> Scan(s) == Success(Scanned([], [], None))
    ensures s != [] && s[0] != MARK ==> Scan(s) == Success(Scanned([], [], Some(s)))
    ensures s != [] && s[0] == MARK && |s| < 6 ==> Scan(s) == Success(Scanned([], s, None))
    ensures |s| >= 6 && s[0] == MARK && s[1] !in {0, 2} ==> Scan(s) == Failure(BadSubtype)
    ensures |s| >= 6 && s[0] == MARK && s[1] in {0, 2} ==>
      var len := U32(s[2], s[3], s[4], s[5]);
      if !(12 <= len <= MAX_MESSAGE_BYTES - 6) then Scan(s) == Failure(BadLength)
      else if |s| < 6 + len then Scan(s) == Success(Scanned([], s, None))
      else if U16(s[6], s[7]) != 1 then Scan(s) == Failure(BadVersion)
      else Scan(s) == Before([Fields(s, len)], Scan(s[6 + len..]))
  {
    hide U32, U16, Before;
  }
}
