/**
 The native file messages of the control channel: framing, metadata, and reassembly from record bodies.

 A name is accepted by a predicate on its bytes that is a parameter; only its length is interpreted here.
 */
module FileMessages {
  import opened Bytes

  const CHUNK_BYTES := 32768
  const MAX_MESSAGE_BYTES := 1048576
  const MAX_FILE_BYTES := 0xFFFF_FFFF
  const BACKLOG := MAX_MESSAGE_BYTES + 65520
  const HEADER := 18
  const MARK: byte := 0x22
  const ITEM_INFO: u16 := 100
  const NEW_ITEM: u16 := 101
  const DATA: u16 := 102
  const END: u16 := 104

  datatype Message = Message(kind: u16, session: u32, argument: u32, payload: seq<byte>)

  /** A message with the subtype byte it travels under. */
  datatype Framed = Framed(subtype: byte, message: Message)

  datatype FileError =
      InvalidId | TooLarge | InvalidPath | InvalidName | FileTooLarge | Backlog | BadSubtype | BadLength | BadVersion
    | Layout | Count | SizesDisagree | NotRegular | NameLength

  // ----- encoding

  function Wire(f: Framed): seq<byte>
    requires |f.message.payload| <= MAX_MESSAGE_BYTES - HEADER
  {
    var m := f.message;
    [MARK, f.subtype] + BE32(12 + |m.payload|) + BE16(1) + BE16(m.kind) + BE32(m.session) + BE32(m.argument) + m.payload
  }

  /** What a sender may put on the wire as one control body. */
  predicate Sendable(f: Framed) {
    f.subtype in {0, 2} && f.message.session != 0 && |f.message.payload| <= MAX_BODY - HEADER
  }

  predicate Sendables(fs: seq<Framed>) {
    forall i :: 0 <= i < |fs| ==> Sendable(fs[i])
  }

  /** What a receiver takes apart; messages longer than one body arrive in several. */
  predicate Receivable(f: Framed) {
    f.subtype in {0, 2} && |f.message.payload| <= MAX_MESSAGE_BYTES - HEADER
  }

  function Encode(f: Framed): Result<seq<byte>, FileError> {
    if f.message.session == 0 then Failure(InvalidId)
    else if |f.message.payload| > MAX_BODY - HEADER then Failure(TooLarge)
    else Success(Wire(f))
  }

  // ----- scanning

  /** The fields of a complete message of the given length at the front of `s`. */
  function Fields(s: seq<byte>, len: nat): Message
    requires 12 <= len && 6 + len <= |s|
  {
    Message(U16(s[8], s[9]), U32(s[10], s[11], s[12], s[13]), U32(s[14], s[15], s[16], s[17]), s[18..6 + len])
  }

  datatype Scanned = Scanned(messages: seq<Message>, rest: seq<byte>, other: Option<seq<byte>>)

  function Before(messages: seq<Message>, r: Result<Scanned, FileError>): Result<Scanned, FileError> {
    match r
    case Failure(e) => Failure(e)
    case Success(s) => Success(s.(messages := messages + s.messages))
  }

  /** Takes complete messages off the front; control data of another kind ends the scan. */
  function Scan(s: seq<byte>): Result<Scanned, FileError>
    decreases |s|
  {
    if s == [] then Success(Scanned([], [], None))
    else if s[0] != MARK then Success(Scanned([], [], Some(s)))
    else if |s| < 6 then Success(Scanned([], s, None))
    else if s[1] !in {0, 2} then Failure(BadSubtype)
    else
      var len := U32(s[2], s[3], s[4], s[5]);
      if !(12 <= len <= MAX_MESSAGE_BYTES - 6) then Failure(BadLength)
      else if |s| < 6 + len then Success(Scanned([], s, None))
      else if U16(s[6], s[7]) != 1 then Failure(BadVersion)
      else Before([Fields(s, len)], Scan(s[6 + len..]))
  }

  datatype Fed = Fed(pending: seq<byte>, result: Result<(seq<Message>, Option<seq<byte>>), FileError>)

  function Feed(pending: seq<byte>, body: seq<byte>): Fed {
    if pending == [] && (body == [] || body[0] != MARK) then Fed([], Success(([], Some(body))))
    else if |pending| + |body| > BACKLOG then Fed(pending, Failure(Backlog))
    else
      match Scan(pending + body)
      case Success(s) => Fed(s.rest, Success((s.messages, s.other)))
      case Failure(e) => Fed(pending + body, Failure(e))
  }

  lemma BeforeBoth(a: seq<Message>, b: seq<Message>, r: Result<Scanned, FileError>)
    ensures Before(a, Before(b, r)) == Before(a + b, r)
  {
    if r.Success? {
      assert a + (b + r.value.messages) == a + b + r.value.messages;
    }
  }

  lemma BeforeNone(r: Result<Scanned, FileError>)
    ensures Before([], r) == r
  {
    if r.Success? {
      assert [] + r.value.messages == r.value.messages;
    }
  }

  /** What stays pending is an unfinished message: it starts with the mark and is shorter than the largest message. */
  predicate Unfinished(pending: seq<byte>) {
    |pending| < MAX_MESSAGE_BYTES && (pending == [] || pending[0] == MARK)
  }

  lemma {:induction false} ScanLeavesUnfinished(s: seq<byte>)
    ensures Scan(s).Success? ==>
              Unfinished(Scan(s).value.rest) && (Scan(s).value.other.Some? ==> Scan(s).value.rest == [])
    decreases |s|
  {
    if |s| >= 6 {
      var len := U32(s[2], s[3], s[4], s[5]);
      if 6 + len <= |s| {
        ScanLeavesUnfinished(s[6 + len..]);
      }
    }
  }

  function FeedState(pending: seq<byte>, bodies: seq<seq<byte>>): Fed
    decreases |bodies|
  {
    if bodies == [] then Fed(pending, Success(([], None)))
    else
      var f := Feed(pending, bodies[0]);
      if f.result.Failure? then f else FeedState(f.pending, bodies[1..])
  }

  /** Whatever arrives in bodies of at most a record, the backlog guard never fires. */
  lemma {:induction false} BacklogNeverFires(pending: seq<byte>, bodies: seq<seq<byte>>)
    requires Unfinished(pending) && forall i :: 0 <= i < |bodies| ==> |bodies[i]| <= MAX_BODY
    ensures var f := FeedState(pending, bodies);
            f.result != Failure(Backlog) && (f.result.Success? ==> Unfinished(f.pending))
    decreases |bodies|
  {
    if bodies != [] {
      ScanLeavesUnfinished(pending + bodies[0]);
      NoBacklogError(pending + bodies[0]);
      var f := Feed(pending, bodies[0]);
      if f.result.Success? {
        BacklogNeverFires(f.pending, bodies[1..]);
      }
    }
  }

  lemma {:induction false} NoBacklogError(s: seq<byte>)
    ensures Scan(s) != Failure(Backlog)
    decreases |s|
  {
    if |s| >= 6 {
      var len := U32(s[2], s[3], s[4], s[5]);
      if 6 + len <= |s| {
        NoBacklogError(s[6 + len..]);
      }
    }
  }

  // ----- scanning is insensitive to where the bytes are cut

  function Length(s: seq<byte>): nat
    requires |s| >= 6
  {
    6 + U32(s[2], s[3], s[4], s[5])
  }

  /** A complete message stands at the front. */
  predicate Front(s: seq<byte>) {
    && |s| >= 6 && s[0] == MARK && s[1] in {0, 2} && 18 <= Length(s) <= MAX_MESSAGE_BYTES && Length(s) <= |s|
    && U16(s[6], s[7]) == 1
  }

  lemma FrontSize(s: seq<byte>)
    requires Front(s)
    ensures |s| >= 18 && 18 <= Length(s) <= |s|
  {
  }

  lemma ScanFront(s: seq<byte>)
    requires Front(s)
    ensures Scan(s) == Before([Fields(s, Length(s) - 6)], Scan(s[Length(s)..]))
  {
  }

  lemma ScanNotFront(s: seq<byte>)
    requires !Front(s)
    ensures Scan(s).Failure? || Scan(s).value in {Scanned([], s, None), Scanned([], [], Some(s))}
    ensures Scan(s).Success? && Scan(s).value.other.Some? <==> s != [] && s[0] != MARK
  {
    hide U32, U16;
  }

  lemma FrontStays(a: seq<byte>, b: seq<byte>)
    requires Front(a)
    ensures var s := a + b;
            && Front(s) && Length(s) == Length(a) && Fields(s, Length(a) - 6) == Fields(a, Length(a) - 6)
            && s[Length(a)..] == a[Length(a)..] + b
  {
    hide U32, U16;
    assert (a + b)[18..Length(a)] == a[18..Length(a)];
  }

  lemma BeforeSuccess(m: seq<Message>, r: Result<Scanned, FileError>)
    ensures Before(m, r).Success? <==> r.Success?
    ensures r.Success? ==> Before(m, r).value == Scanned(m + r.value.messages, r.value.rest, r.value.other)
    ensures r.Failure? ==> Before(m, r) == r
  {
  }

  /** Scanning more bytes continues where the scan of fewer stopped. */
  lemma {:induction false} ScanResumes(a: seq<byte>, b: seq<byte>)
    requires Scan(a).Success? && Scan(a).value.other.None?
    ensures Scan(a + b) == Before(Scan(a).value.messages, Scan(Scan(a).value.rest + b))
    decreases |a|
  {
    hide Scan, Before, Front, Fields, Length;
    if Front(a) {
      FrontSize(a);
      ScanFront(a);
      FrontStays(a, b);
      FrontSize(a + b);
      ScanFront(a + b);
      var m, tail := [Fields(a, Length(a) - 6)], a[Length(a)..];
      BeforeSuccess(m, Scan(tail));
      ScanResumes(tail, b);
      BeforeBoth(m, Scan(tail).value.messages, Scan(Scan(tail).value.rest + b));
    } else {
      ScanNotFront(a);
      BeforeNone(Scan(a + b));
    }
  }

  /** An error already present in fewer bytes stays the same error with more. */
  lemma {:induction false} ScanFails(a: seq<byte>, b: seq<byte>)
    requires Scan(a).Failure?
    ensures Scan(a + b) == Scan(a)
    decreases |a|
  {
    if Front(a) {
      hide Scan, Before, Front, Fields, Length;
      FrontSize(a);
      ScanFront(a);
      FrontStays(a, b);
      FrontSize(a + b);
      ScanFront(a + b);
      var m, tail := [Fields(a, Length(a) - 6)], a[Length(a)..];
      BeforeSuccess(m, Scan(tail));
      ScanFails(tail, b);
    } else {
      hide U32, U16;
      assert Scan(a).Failure?;
      assert |a| >= 6 && (a + b)[..6] == a[..6];
    }
  }

  /** Once other control data was met, more bytes only make it longer. */
  lemma {:induction false} ScanEnded(a: seq<byte>, b: seq<byte>)
    requires Scan(a).Success? && Scan(a).value.other.Some?
    ensures Scan(a + b).Success? && Scan(a + b).value.other.Some?
    decreases |a|
  {
    hide Scan, Before, Front, Fields, Length;
    if Front(a) {
      FrontSize(a);
      ScanFront(a);
      FrontStays(a, b);
      FrontSize(a + b);
      ScanFront(a + b);
      var m, tail := [Fields(a, Length(a) - 6)], a[Length(a)..];
      BeforeSuccess(m, Scan(tail));
      ScanEnded(tail, b);
      BeforeSuccess(m, Scan(tail + b));
    } else {
      ScanNotFront(a);
      NotMarked(a + b);
    }
  }

  lemma NotMarked(s: seq<byte>)
    requires s != [] && s[0] != MARK
    ensures Scan(s) == Success(Scanned([], [], Some(s)))
  {
  }

  // ----- scanning inverts encoding

  function Wires(fs: seq<Framed>): seq<byte>
    requires forall i :: 0 <= i < |fs| ==> Receivable(fs[i])
  {
    if fs == [] then []
    else
      assert Receivable(fs[0]);
      Wire(fs[0]) + Wires(fs[1..])
  }

  function Messages(fs: seq<Framed>): (ms: seq<Message>)
    ensures |ms| == |fs| && forall i :: 0 <= i < |fs| ==> ms[i] == fs[i].message
  {
    seq(|fs|, i requires 0 <= i < |fs| => fs[i].message)
  }

  lemma WireFields(f: Framed)
    requires Receivable(f)
    ensures var w := Wire(f); var len := 12 + |f.message.payload|;
            && |w| == 6 + len && w[0] == MARK && w[1] == f.subtype && U32(w[2], w[3], w[4], w[5]) == len
            && U16(w[6], w[7]) == 1 && Fields(w, len) == f.message
  {
    hide U32, U16, BE32, BE16;
    var w, m := Wire(f), f.message;
    var l, v, k, s, a := BE32(12 + |m.payload|), BE16(1), BE16(m.kind), BE32(m.session), BE32(m.argument);
    assert w == [MARK, f.subtype] + l + v + k + s + a + m.payload;
    assert w[2] == l[0] && w[3] == l[1] && w[4] == l[2] && w[5] == l[3] && w[6] == v[0] && w[7] == v[1];
    assert w[8] == k[0] && w[9] == k[1] && w[10] == s[0] && w[11] == s[1] && w[12] == s[2] && w[13] == s[3];
    assert w[14] == a[0] && w[15] == a[1] && w[16] == a[2] && w[17] == a[3];
    assert w[18..6 + (12 + |m.payload|)] == m.payload;
  }

  lemma ScanOne(f: Framed, y: seq<byte>)
    requires Receivable(f)
    ensures Scan(Wire(f) + y) == Before([f.message], Scan(y))
  {
    hide Wire, U32, U16, Before, Scan, Fields;
    WireFields(f);
    var w := Wire(f);
    assert Front(w) && Length(w) == |w|;
    FrontStays(w, y);
    ScanFront(w + y);
    assert w[|w|..] + y == y;
  }

  /** What a sender can encode fits one control body, and a receiver reads exactly it from there. */
  lemma EncodedIsRead(f: Framed)
    ensures Encode(f).Success? <==> f.message.session != 0 && |f.message.payload| <= MAX_BODY - HEADER
    ensures Encode(f).Success? && f.subtype in {0, 2} ==>
      |Encode(f).value| <= MAX_BODY && Scan(Encode(f).value) == Success(Scanned([f.message], [], None))
  {
    hide Scan, Fields, U32, U16;
    if Encode(f).Success? && f.subtype in {0, 2} {
      WireFields(f);
      ScanOne(f, []);
      ScanNothing();
      assert Wire(f) + [] == Wire(f) && [f.message] + [] == [f.message];
    }
  }

  /** A control body that is not a file message, or nothing. */
  predicate Control(t: seq<byte>) {
    t == [] || t[0] != MARK
  }

  function Trailing(t: seq<byte>): Option<seq<byte>> {
    if t == [] then None else Some(t)
  }

  /** Scanning a stream of messages, with or without other control data behind it, gives back exactly the messages. */
  lemma {:induction false} ScanInverts(fs: seq<Framed>, t: seq<byte>)
    requires (forall i :: 0 <= i < |fs| ==> Receivable(fs[i])) && Control(t)
    ensures Scan(Wires(fs) + t) == Success(Scanned(Messages(fs), [], Trailing(t)))
  {
    hide Wire, Scan;
    if fs == [] {
      assert [] + t == t;
      ScanControl(t);
    } else {
      ScanInverts(fs[1..], t);
      assert Wires(fs) + t == Wire(fs[0]) + (Wires(fs[1..]) + t);
      ScanOne(fs[0], Wires(fs[1..]) + t);
      assert [fs[0].message] + Messages(fs[1..]) == Messages(fs);
    }
  }

  lemma ScanControl(t: seq<byte>)
    requires Control(t)
    ensures Scan(t) == Success(Scanned([], [], Trailing(t)))
  {
  }

  lemma ScanShort(f: Framed, x: seq<byte>)
    requires Receivable(f) && x < Wire(f)
    ensures Scan(x) == Success(Scanned([], x, None))
  {
    hide Wire, U32, U16;
    WireFields(f);
  }

  /** Scanning part of a stream gives its complete messages, and leaves a strict part of the next one. */
  lemma {:induction false} ScanPrefix(fs: seq<Framed>, x: seq<byte>) returns (k: nat)
    requires (forall i :: 0 <= i < |fs| ==> Receivable(fs[i])) && x <= Wires(fs)
    ensures k <= |fs| && Scan(x).Success? && Scan(x).value.messages == Messages(fs[..k]) && Scan(x).value.other.None?
    ensures Scan(x).value.rest == [] || (k < |fs| && Scan(x).value.rest < Wire(fs[k]))
    ensures x == Wires(fs[..k]) + Scan(x).value.rest
  {
    hide Wire, Scan;
    assert fs[..0] == [];
    assert Scan([]) == Success(Scanned([], [], None)) by { ScanNothing(); }
    if fs == [] {
      k := 0;
    } else {
      var w, rest := Wire(fs[0]), Wires(fs[1..]);
      if |x| < |w| {
        k := 0;
        assert x == (w + rest)[..|x|] == w[..|x|];
        ScanShort(fs[0], x);
        assert [] + x == x;
      } else {
        var y := x[|w|..];
        assert x == w + y && y == rest[..|y|];
        var j := ScanPrefix(fs[1..], y);
        k := j + 1;
        ScanOne(fs[0], y);
        assert fs[..k][1..] == fs[1..][..j] && fs[1..][..j] == fs[1..k];
        assert [fs[0].message] + Messages(fs[1..][..j]) == Messages(fs[..k]);
        assert w + (Wires(fs[1..][..j]) + Scan(y).value.rest) == (w + Wires(fs[1..][..j])) + Scan(y).value.rest;
      }
    }
  }

  lemma ScanNothing()
    ensures Scan([]) == Success(Scanned([], [], None))
  {
  }

  // ----- encoding inverts scanning

  lemma WireBack(s: seq<byte>)
    requires Front(s)
    ensures 18 <= Length(s) <= |s|
    ensures var f := Framed(s[1], Fields(s, Length(s) - 6)); Receivable(f) && Wire(f) == s[..Length(s)]
  {
    hide U32, U16, BE32, BE16;
    var len := Length(s) - 6;
    Halves(s[6], s[7]);
    Halves(s[8], s[9]);
    Quarters(s[2], s[3], s[4], s[5]);
    Quarters(s[10], s[11], s[12], s[13]);
    Quarters(s[14], s[15], s[16], s[17]);
    var w := Wire(Framed(s[1], Fields(s, len)));
    assert w == [MARK, s[1]] + [s[2], s[3], s[4], s[5]] + [s[6], s[7]] + [s[8], s[9]]
                + [s[10], s[11], s[12], s[13]] + [s[14], s[15], s[16], s[17]] + s[18..6 + len];
  }

  lemma ReceivableSize(f: Framed)
    requires Receivable(f)
    ensures |f.message.payload| <= MAX_MESSAGE_BYTES - HEADER
  {
  }

  /** Nothing else scans: whatever is accepted is the encoding of the messages returned, and of what is left over. */
  lemma {:induction false} ScanIsExact(s: seq<byte>) returns (fs: seq<Framed>)
    requires Scan(s).Success?
    ensures forall i :: 0 <= i < |fs| ==> Receivable(fs[i])
    ensures Scan(s).value.messages == Messages(fs)
    ensures s == Wires(fs) + Scan(s).value.rest + (if Scan(s).value.other.Some? then Scan(s).value.other.value else [])
    decreases |s|
  {
    hide Scan, Wire, Before, Front, Fields, Length, Receivable;
    if Front(s) {
      FrontSize(s);
      ScanFront(s);
      WireBack(s);
      var f, tail := Framed(s[1], Fields(s, Length(s) - 6)), s[Length(s)..];
      BeforeSuccess([f.message], Scan(tail));
      var more := ScanIsExact(tail);
      fs := [f] + more;
      assert fs[1..] == more;
      ReceivableSize(f);
      assert s == Wire(f) + tail;
      assert [f.message] + Messages(more) == Messages(fs);
    } else {
      fs := [];
      ScanNotFront(s);
      assert [] + s == s && s + [] == s;
    }
  }

  // ----- feeding bodies

  /** What a whole sequence of bodies yields: all messages in order and every other control body in order. */
  datatype Inbox = Inbox(pending: seq<byte>, messages: seq<Message>, others: seq<seq<byte>>, error: Option<FileError>)

  function FeedAll(pending: seq<byte>, bodies: seq<seq<byte>>): Inbox
    decreases |bodies|
  {
    if bodies == [] then Inbox(pending, [], [], None)
    else
      var f := Feed(pending, bodies[0]);
      if f.result.Failure? then Inbox(f.pending, [], [], Some(f.result.error))
      else
        var other, i := f.result.value.1, FeedAll(f.pending, bodies[1..]);
        i.(messages := f.result.value.0 + i.messages, others := (if other.Some? then [other.value] else []) + i.others)
  }

  predicate BodySizes(bodies: seq<seq<byte>>) {
    forall i :: 0 <= i < |bodies| ==> 0 < |bodies[i]| <= MAX_BODY
  }

  lemma FeedIsScan(pending: seq<byte>, body: seq<byte>)
    requires Unfinished(pending) && 0 < |body| <= MAX_BODY
    ensures var f := Feed(pending, body);
            match Scan(pending + body)
            case Success(s) => f == Fed(s.rest, Success((s.messages, s.other))) && Unfinished(s.rest)
            case Failure(e) => f.result == Failure(e)
  {
    if pending == [] && body[0] != MARK {
      assert pending + body == body;
    } else {
      hide Scan;
      ScanLeavesUnfinished(pending + body);
    }
  }

  /**
   For every way of cutting one byte string into nonempty bodies, feeding them is scanning the string, error for
   error, provided no control data ends a scan before the last body.
   */
  lemma {:induction false} FeedAllIsScan(pending: seq<byte>, bodies: seq<seq<byte>>)
    requires Unfinished(pending) && BodySizes(bodies) && bodies != []
    requires var x := pending + Concat(bodies[..|bodies| - 1]); Scan(x).Success? ==> Scan(x).value.other.None?
    ensures var i := FeedAll(pending, bodies);
            match Scan(pending + Concat(bodies))
            case Failure(e) => i.error == Some(e)
            case Success(s) =>
              i == Inbox(s.rest, s.messages, if s.other.Some? then [s.other.value] else [], None) && Unfinished(s.rest)
    decreases |bodies|
  {
    hide Scan, Feed, Before;
    var x, init := pending + bodies[0], bodies[..|bodies| - 1];
    FeedIsScan(pending, bodies[0]);
    var rest := Concat(bodies[1..]);
    assert pending + Concat(bodies) == x + rest;
    if |bodies| == 1 {
      assert rest == [] && x + [] == x;
      FeedAllLast(pending, bodies);
    } else {
      assert init[0] == bodies[0] && init[1..] == bodies[1..][..|bodies| - 2];
      var more := Concat(init[1..]);
      assert pending + Concat(init) == x + more;
      if Scan(x).Failure? {
        ScanFails(x, rest);
      } else {
        var s := Scan(x).value;
        if s.other.Some? {
          ScanEnded(x, more);
        }
        ScanResumes(x, more);
        BeforeSuccess(s.messages, Scan(s.rest + more));
        FeedAllIsScan(s.rest, bodies[1..]);
        ScanResumes(x, rest);
        BeforeSuccess(s.messages, Scan(s.rest + rest));
        assert forall others: seq<seq<byte>> :: [] + others == others;
      }
    }
  }

  lemma FeedAllLast(pending: seq<byte>, bodies: seq<seq<byte>>)
    requires |bodies| == 1
    ensures var f := Feed(pending, bodies[0]);
            FeedAll(pending, bodies)
              == if f.result.Failure? then Inbox(f.pending, [], [], Some(f.result.error))
                 else
                   var other := f.result.value.1;
                   Inbox(f.pending, f.result.value.0, if other.Some? then [other.value] else [], None)
  {
    hide Feed;
    assert bodies[1..] == [];
  }

  // ----- the round trip

  lemma ConcatInit(bodies: seq<seq<byte>>)
    requires bodies != []
    ensures Concat(bodies) == Concat(bodies[..|bodies| - 1]) + bodies[|bodies| - 1]
  {
    ConcatAppend(bodies[..|bodies| - 1], bodies[|bodies| - 1]);
    assert bodies[..|bodies| - 1] + [bodies[|bodies| - 1]] == bodies;
  }

  /**
   A stream of messages cut into nonempty bodies in any way gives the same messages; control data behind it that
   lies inside one body is returned intact, and nothing stays pending.
   */
  lemma FeedRoundTrip(fs: seq<Framed>, t: seq<byte>, bodies: seq<seq<byte>>)
    requires (forall i :: 0 <= i < |fs| ==> Receivable(fs[i])) && Control(t) && BodySizes(bodies)
    requires Concat(bodies) == Wires(fs) + t
    requires t != [] ==> bodies != [] && |t| <= |bodies[|bodies| - 1]|
    ensures FeedAll([], bodies) == Inbox([], Messages(fs), if t == [] then [] else [t], None)
  {
    hide Scan, Wires;
    assert Wires([]) == [] by { WiresNothing(); }
    if bodies == [] {
      assert t == [] && Wires(fs) == [];
      if fs != [] {
        WiresNonempty(fs);
      }
    } else {
      ConcatInit(bodies);
      var x, last := Concat(bodies[..|bodies| - 1]), bodies[|bodies| - 1];
      assert x == (Wires(fs) + t)[..|x|] == Wires(fs)[..|x|];
      var k := ScanPrefix(fs, x);
      assert [] + x == x && [] + Concat(bodies) == Concat(bodies);
      ScanInverts(fs, t);
      FeedAllIsScan([], bodies);
    }
  }

  lemma WiresNothing()
    ensures Wires([]) == []
  {
  }

  lemma WiresNonempty(fs: seq<Framed>)
    requires fs != [] && forall i :: 0 <= i < |fs| ==> Receivable(fs[i])
    ensures |Wires(fs)| > 0
  {
  }

  /** Part of a stream, in any bodies: the complete messages so far, and a strict part of the next one pending. */
  lemma FeedPrefix(fs: seq<Framed>, bodies: seq<seq<byte>>) returns (k: nat)
    requires (forall i :: 0 <= i < |fs| ==> Receivable(fs[i])) && BodySizes(bodies) && Concat(bodies) <= Wires(fs)
    ensures k <= |fs|
    ensures var i := FeedAll([], bodies);
            && i.messages == Messages(fs[..k]) && i.others == [] && i.error.None?
            && (i.pending == [] || (k < |fs| && i.pending < Wire(fs[k])))
            && Concat(bodies) == Wires(fs[..k]) + i.pending
  {
    hide Scan, Wires, Wire;
    k := ScanPrefix(fs, Concat(bodies));
    if bodies == [] {
      assert Scan([]) == Success(Scanned([], [], None)) by { ScanNothing(); }
    } else {
      ConcatInit(bodies);
      var x := Concat(bodies[..|bodies| - 1]);
      assert x == Wires(fs)[..|x|];
      var j := ScanPrefix(fs, x);
      assert [] + x == x && [] + Concat(bodies) == Concat(bodies);
      FeedAllIsScan([], bodies);
    }
  }

  // ----- one body for each message

  /** Messages as the control bodies that are queued for sending. */
  function AsBodies(fs: seq<Framed>): (bodies: seq<seq<byte>>)
    requires Sendables(fs)
    ensures |bodies| == |fs|
  {
    seq(|fs|, i requires 0 <= i < |fs| => assert Sendable(fs[i]); Wire(fs[i]))
  }

  lemma BodiesAppend(fs: seq<Framed>, f: Framed)
    requires Sendables(fs) && Sendable(f)
    ensures Sendables(fs + [f])
    ensures AsBodies(fs + [f]) == AsBodies(fs) + [Wire(f)]
  {
    hide Wire;
  }

  lemma {:induction false} AsBodiesJoined(fs: seq<Framed>)
    requires Sendables(fs)
    ensures BodySizes(AsBodies(fs)) && (forall i :: 0 <= i < |fs| ==> Receivable(fs[i]))
    ensures Concat(AsBodies(fs)) == Wires(fs)
  {
    hide Wire;
    forall i | 0 <= i < |fs| ensures Receivable(fs[i]) && 0 < |AsBodies(fs)[i]| <= MAX_BODY {
      WireFields(fs[i]);
    }
    if fs != [] {
      AsBodiesJoined(fs[1..]);
      assert AsBodies(fs)[1..] == AsBodies(fs[1..]);
    }
  }
}
