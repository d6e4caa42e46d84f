/**
 The encrypted record layer of the control channel: length, body, padding and a hash over the sequence
 number, chained by CBC across records in each direction.

 The block cipher and the hash are parameters; of the cipher only "decrypt undoes encrypt" is used.
 */
module RecordModel {
  import opened Bytes

  datatype Ciphers = Ciphers(enc: seq<byte> -> seq<byte>, dec: seq<byte> -> seq<byte>, hash: seq<byte> -> seq<byte>)

  ghost predicate CiphersOk(c: Ciphers) {
    && (forall b :: |b| == 16 ==> |c.enc(b)| == 16 && c.dec(c.enc(b)) == b)
    && (forall b :: |b| == 16 ==> |c.dec(b)| == 16)
    && forall m :: |c.hash(m)| == HASH
  }

  const BLOCK := 16
  const HASH := 20
  const MIN_RECORD := 32
  const MAX_RECORD := 65520
  const MAX_SEQUENCE := 0xFFFF_FFFF

  datatype RecordError =
    Unusable | SequenceExhausted | TooLarge | InvalidLength | AuthenticationFailed | InvalidInnerLength

  datatype RecordState = RecordState(encIv: seq<byte>, decIv: seq<byte>, encSeq: nat, decSeq: nat, failed: bool)

  predicate StateOk(s: RecordState) {
    |s.encIv| == |s.decIv| == BLOCK && s.encSeq <= MAX_SEQUENCE && s.decSeq <= MAX_SEQUENCE
  }

  // ----- chaining

  function CbcEncrypt(c: Ciphers, iv: seq<byte>, p: seq<byte>): seq<byte>
    requires |iv| == BLOCK
    decreases |p|
  {
    if |p| < BLOCK then []
    else
      var b := c.enc(XorAll(p[..BLOCK], iv));
      if |b| != BLOCK then [] else b + CbcEncrypt(c, b, p[BLOCK..])
  }

  function CbcDecrypt(c: Ciphers, iv: seq<byte>, ct: seq<byte>): seq<byte>
    requires |iv| == BLOCK
    decreases |ct|
  {
    if |ct| < BLOCK then []
    else
      var b := c.dec(ct[..BLOCK]);
      if |b| != BLOCK then [] else XorAll(b, iv) + CbcDecrypt(c, ct[..BLOCK], ct[BLOCK..])
  }

  /** The chaining value after these whole blocks: the last one. */
  function Chained(iv: seq<byte>, ct: seq<byte>): (r: seq<byte>)
    requires |iv| == BLOCK
    ensures |r| == BLOCK
    decreases |ct|
  {
    if |ct| < BLOCK then iv else Chained(ct[..BLOCK], ct[BLOCK..])
  }

  lemma XorAllCancel(a: seq<byte>, b: seq<byte>)
    requires |a| == |b|
    ensures XorAll(XorAll(a, b), b) == a
  {
  }

  lemma {:induction false} CbcInverse(c: Ciphers, iv: seq<byte>, p: seq<byte>)
    requires CiphersOk(c) && |iv| == BLOCK && |p| % BLOCK == 0
    ensures |CbcEncrypt(c, iv, p)| == |p| && CbcDecrypt(c, iv, CbcEncrypt(c, iv, p)) == p
    decreases |p|
  {
    if |p| >= BLOCK {
      var x := XorAll(p[..BLOCK], iv);
      var b := c.enc(x);
      CbcInverse(c, b, p[BLOCK..]);
      var rest := CbcEncrypt(c, b, p[BLOCK..]);
      var ct := b + rest;
      assert ct[..BLOCK] == b && ct[BLOCK..] == rest;
      XorAllCancel(p[..BLOCK], iv);
      assert p == p[..BLOCK] + p[BLOCK..];
    }
  }

  lemma {:induction false} CbcDecryptSize(c: Ciphers, iv: seq<byte>, ct: seq<byte>)
    requires CiphersOk(c) && |iv| == BLOCK && |ct| % BLOCK == 0
    ensures |CbcDecrypt(c, iv, ct)| == |ct|
    decreases |ct|
  {
    if |ct| >= BLOCK {
      CbcDecryptSize(c, ct[..BLOCK], ct[BLOCK..]);
    }
  }

  // ----- one record

  /** `(2 + len + 20 + 15) & !15`. */
  function PaddedSize(len: nat): (size: nat)
    ensures size % BLOCK == 0 && 2 + len + HASH <= size < 2 + len + HASH + BLOCK
  {
    (2 + len + HASH + 15) / BLOCK * BLOCK
  }

  /** The length field of a record always fits, and no record is empty. */
  lemma SizeFits(len: nat)
    requires len <= MAX_BODY
    ensures MIN_RECORD <= PaddedSize(len) <= MAX_RECORD
  {
  }

  function Hashed(c: Ciphers, number: nat, covered: seq<byte>): seq<byte>
    requires number <= MAX_SEQUENCE
  {
    c.hash(BE32(number) + covered)
  }

  function Covered(body: seq<byte>): (p: seq<byte>)
    requires |body| <= MAX_BODY
    ensures |p| == PaddedSize(|body|) - HASH
  {
    BE16(|body|) + body + Zeros(PaddedSize(|body|) - HASH - 2 - |body|)
  }

  function Plain(c: Ciphers, number: nat, body: seq<byte>): seq<byte>
    requires |body| <= MAX_BODY && number <= MAX_SEQUENCE
  {
    Covered(body) + Hashed(c, number, Covered(body))
  }

  function Ciphertext(c: Ciphers, iv: seq<byte>, number: nat, body: seq<byte>): seq<byte>
    requires |iv| == BLOCK && |body| <= MAX_BODY && number <= MAX_SEQUENCE
  {
    CbcEncrypt(c, iv, Plain(c, number, body))
  }

  function Record(c: Ciphers, iv: seq<byte>, number: nat, body: seq<byte>): seq<byte>
    requires |iv| == BLOCK && |body| <= MAX_BODY && number <= MAX_SEQUENCE
  {
    SizeFits(|body|);
    BE16(PaddedSize(|body|)) + Ciphertext(c, iv, number, body)
  }

  function Encrypt(c: Ciphers, s: RecordState, body: seq<byte>): (RecordState, Result<seq<byte>, RecordError>)
    requires StateOk(s)
  {
    if s.failed then (s, Failure(Unusable))
    else if s.encSeq >= MAX_SEQUENCE then (s, Failure(SequenceExhausted))
    else if |body| > MAX_BODY then (s, Failure(TooLarge))
    else
      (s.(encIv := Chained(s.encIv, Ciphertext(c, s.encIv, s.encSeq, body)), encSeq := s.encSeq + 1),
       Success(Record(c, s.encIv, s.encSeq, body)))
  }

  /** Verification happens with the channel already marked as failed; only success clears the mark. */
  function Decrypt(c: Ciphers, s: RecordState, ct: seq<byte>): (RecordState, Result<seq<byte>, RecordError>)
    requires StateOk(s)
  {
    if s.failed then (s, Failure(Unusable))
    else if s.decSeq >= MAX_SEQUENCE then (s, Failure(SequenceExhausted))
    else if !(MIN_RECORD <= |ct| <= MAX_RECORD && |ct| % BLOCK == 0) then (s, Failure(InvalidLength))
    else
      var p := CbcDecrypt(c, s.decIv, ct);
      var s := s.(decIv := Chained(s.decIv, ct), failed := true);
      if |p| < MIN_RECORD then (s, Failure(AuthenticationFailed))
      else
        var end := |p| - HASH;
        if Hashed(c, s.decSeq, p[..end]) != p[end..] then (s, Failure(AuthenticationFailed))
        else
          var len := U16(p[0], p[1]);
          if len > end - 2 then (s, Failure(InvalidInnerLength))
          else (s.(decSeq := s.decSeq + 1, failed := false), Success(p[2..2 + len]))
  }

  lemma StepsOk(c: Ciphers, s: RecordState, bytes: seq<byte>)
    requires StateOk(s)
    ensures StateOk(Encrypt(c, s, bytes).0) && StateOk(Decrypt(c, s, bytes).0)
  {
  }

  /** The direction `a` writes is in step with the direction `b` reads. */
  predicate InStep(a: RecordState, b: RecordState) {
    a.encIv == b.decIv && a.encSeq == b.decSeq && !b.failed
  }

  lemma PlainParts(c: Ciphers, number: nat, body: seq<byte>)
    requires CiphersOk(c) && |body| <= MAX_BODY && number <= MAX_SEQUENCE
    ensures var p := Plain(c, number, body); var end := |p| - HASH;
            && |p| == PaddedSize(|body|) && p[..end] == Covered(body) && p[end..] == Hashed(c, number, Covered(body))
            && U16(p[0], p[1]) == |body| && 2 + |body| <= end && p[2..2 + |body|] == body
  {
    hide BE16, U16;
    var n, z := BE16(|body|), Zeros(PaddedSize(|body|) - HASH - 2 - |body|);
    var p := Plain(c, number, body);
    assert p == n + body + z + Hashed(c, number, Covered(body));
    assert p[0] == n[0] && p[1] == n[1];
    assert U16(n[0], n[1]) == |body|;
  }

  /** A record that was encrypted in step decrypts to its body, and leaves both sides in step. */
  lemma RecordRoundTrip(c: Ciphers, a: RecordState, b: RecordState, body: seq<byte>)
    requires CiphersOk(c) && StateOk(a) && StateOk(b) && InStep(a, b)
    requires a.encSeq < MAX_SEQUENCE && |body| <= MAX_BODY
    ensures var ct := Ciphertext(c, a.encIv, a.encSeq, body);
            && |ct| == PaddedSize(|body|)
            && Decrypt(c, b, ct) == (b.(decIv := Chained(b.decIv, ct), decSeq := b.decSeq + 1), Success(body))
  {
    hide CbcEncrypt, CbcDecrypt, Plain, Hashed, U16, PaddedSize, Covered, CiphersOk, Chained;
    PlainParts(c, a.encSeq, body);
    SizeFits(|body|);
    CbcInverse(c, a.encIv, Plain(c, a.encSeq, body));
  }

  // ----- failures

  /** The channel becomes unusable exactly when a well-sized record does not verify. */
  lemma FailsIff(c: Ciphers, s: RecordState, ct: seq<byte>)
    requires StateOk(s) && !s.failed
    ensures Decrypt(c, s, ct).0.failed <==>
              && Decrypt(c, s, ct).1.Failure?
              && Decrypt(c, s, ct).1.error in {AuthenticationFailed, InvalidInnerLength}
    ensures Decrypt(c, s, ct).1.Failure? && !Decrypt(c, s, ct).0.failed ==> Decrypt(c, s, ct).0 == s
  {
    hide CbcDecrypt, Hashed, Chained;
  }

  datatype Request = Seal(body: seq<byte>) | Open(ct: seq<byte>)

  function Perform(c: Ciphers, s: RecordState, r: Request): (RecordState, Result<seq<byte>, RecordError>)
    requires StateOk(s)
  {
    match r
    case Seal(body) => Encrypt(c, s, body)
    case Open(ct) => Decrypt(c, s, ct)
  }

  function PerformAll(c: Ciphers, s: RecordState, rs: seq<Request>): RecordState
    requires StateOk(s)
    decreases |rs|
  {
    if rs == [] then s
    else
      StepsOk(c, s, if rs[0].Seal? then rs[0].body else rs[0].ct);
      PerformAll(c, Perform(c, s, rs[0]).0, rs[1..])
  }

  /** After one failure nothing is sent or opened any more, in either direction, whatever is tried. */
  lemma {:induction false} FailureIsFinal(c: Ciphers, s: RecordState, rs: seq<Request>, r: Request)
    requires StateOk(s) && s.failed
    ensures PerformAll(c, s, rs) == s && Perform(c, PerformAll(c, s, rs), r) == (s, Failure(Unusable))
    decreases |rs|
  {
    if rs != [] {
      FailureIsFinal(c, s, rs[1..], r);
    }
  }

  // ----- draining a byte stream

  datatype Drained = Drained(state: RecordState, rest: seq<byte>, bodies: Result<seq<seq<byte>>, RecordError>)

  /** Takes every complete record off the front of `pending`. */
  function Drain(c: Ciphers, s: RecordState, pending: seq<byte>): Drained
    requires StateOk(s)
    decreases |pending|
  {
    if |pending| < 2 then Drained(s, pending, Success([]))
    else
      var n := U16(pending[0], pending[1]);
      if n < MIN_RECORD || n % BLOCK != 0 then Drained(s, pending, Failure(InvalidLength))
      else if |pending| < 2 + n then Drained(s, pending, Success([]))
      else
        StepsOk(c, s, pending[2..2 + n]);
        match Decrypt(c, s, pending[2..2 + n])
        case (t, Failure(e)) => Drained(t, pending, Failure(e))
        case (t, Success(body)) =>
          var d := Drain(c, t, pending[2 + n..]);
          match d.bodies
          case Failure(e) => Drained(d.state, pending, Failure(e))
          case Success(bodies) => Drained(d.state, d.rest, Success([body] + bodies))
  }

  /** The sender's state after these bodies. */
  function Sent(c: Ciphers, s: RecordState, bodies: seq<seq<byte>>): RecordState
    requires StateOk(s)
    decreases |bodies|
  {
    if bodies == [] then s
    else
      StepsOk(c, s, bodies[0]);
      Sent(c, Encrypt(c, s, bodies[0]).0, bodies[1..])
  }

  predicate Encryptable(s: RecordState, bodies: seq<seq<byte>>) {
    && StateOk(s) && !s.failed && s.encSeq + |bodies| <= MAX_SEQUENCE
    && forall i :: 0 <= i < |bodies| ==> |bodies[i]| <= MAX_BODY
  }

  /** The bytes on the wire for these bodies. */
  function Stream(c: Ciphers, s: RecordState, bodies: seq<seq<byte>>): seq<byte>
    requires Encryptable(s, bodies)
    decreases |bodies|
  {
    if bodies == [] then []
    else
      StepsOk(c, s, bodies[0]);
      Record(c, s.encIv, s.encSeq, bodies[0]) + Stream(c, Encrypt(c, s, bodies[0]).0, bodies[1..])
  }

  /** `x` is part of the first record of the stream, but not all of it. */
  predicate PartOfRecord(c: Ciphers, s: RecordState, bodies: seq<seq<byte>>, x: seq<byte>)
    requires Encryptable(s, bodies)
  {
    x == [] || (bodies != [] && x < Record(c, s.encIv, s.encSeq, bodies[0]))
  }

  function ReadSide(b: RecordState, a: RecordState): RecordState {
    b.(decIv := a.encIv, decSeq := a.encSeq)
  }

  lemma SentOk(c: Ciphers, s: RecordState, bodies: seq<seq<byte>>, k: nat)
    requires Encryptable(s, bodies) && k <= |bodies|
    ensures Encryptable(Sent(c, s, bodies[..k]), bodies[k..])
    decreases k
  {
    if k > 0 {
      StepsOk(c, s, bodies[0]);
      var t := Encrypt(c, s, bodies[0]).0;
      SentOk(c, t, bodies[1..], k - 1);
      assert bodies[..k][1..] == bodies[1..][..k - 1];
      assert bodies[1..][k - 1..] == bodies[k..];
    } else {
      assert bodies[0..] == bodies;
    }
  }

  /** The record of the first body is opened by a receiver in step. */
  lemma RecordHead(c: Ciphers, a: RecordState, b: RecordState, bodies: seq<seq<byte>>)
    requires CiphersOk(c) && Encryptable(a, bodies) && StateOk(b) && InStep(a, b) && bodies != []
    ensures var r := Record(c, a.encIv, a.encSeq, bodies[0]); var n := PaddedSize(|bodies[0]|);
            var t := Encrypt(c, a, bodies[0]).0;
            && |r| == 2 + n && U16(r[0], r[1]) == n && MIN_RECORD <= n && n % BLOCK == 0
            && Decrypt(c, b, r[2..]) == (ReadSide(b, t), Success(bodies[0]))
            && StateOk(ReadSide(b, t)) && InStep(t, ReadSide(b, t)) && Encryptable(t, bodies[1..])
  {
    hide Ciphertext, Decrypt, CiphersOk, PaddedSize, BE16, U16, Chained;
    RecordRoundTrip(c, a, b, bodies[0]);
    SizeFits(|bodies[0]|);
    StepsOk(c, a, bodies[0]);
    var h, ct := BE16(PaddedSize(|bodies[0]|)), Ciphertext(c, a.encIv, a.encSeq, bodies[0]);
    var r := Record(c, a.encIv, a.encSeq, bodies[0]);
    assert r[0] == h[0] && r[1] == h[1] && r[2..] == ct;
  }

  lemma DrainShort(c: Ciphers, b: RecordState, r: seq<byte>, x: seq<byte>)
    requires StateOk(b) && |r| >= 2 && x < r
    requires |r| == 2 + U16(r[0], r[1]) && |r| - 2 >= MIN_RECORD && (|r| - 2) % BLOCK == 0
    ensures Drain(c, b, x) == Drained(b, x, Success([]))
  {
    if |x| >= 2 {
      assert x[0] == r[0] && x[1] == r[1];
    }
  }

  lemma DrainLong(c: Ciphers, b: RecordState, t: RecordState, r: seq<byte>, body: seq<byte>, y: seq<byte>)
    requires StateOk(b) && StateOk(t) && |r| >= 2
    requires |r| == 2 + U16(r[0], r[1]) && |r| - 2 >= MIN_RECORD && (|r| - 2) % BLOCK == 0
    requires Decrypt(c, b, r[2..]) == (t, Success(body)) && Drain(c, t, y).bodies.Success?
    ensures var d := Drain(c, t, y); Drain(c, b, r + y) == Drained(d.state, d.rest, Success([body] + d.bodies.value))
  {
    hide Decrypt;
    var x := r + y;
    assert x[0] == r[0] && x[1] == r[1] && x[2..|r|] == r[2..] && x[|r|..] == y;
  }

  /**
   Draining any part of a stream gives back the bodies of its complete records in order; what stays pending is
   part of the next record, and both sides have moved on together.
   */
  lemma {:induction false} DrainPrefix(c: Ciphers, a: RecordState, b: RecordState, bodies: seq<seq<byte>>, x: seq<byte>)
    returns (k: nat)
    requires CiphersOk(c) && Encryptable(a, bodies) && StateOk(b) && InStep(a, b) && x <= Stream(c, a, bodies)
    ensures k <= |bodies| && StateOk(a) && Encryptable(Sent(c, a, bodies[..k]), bodies[k..])
    ensures var d := Drain(c, b, x); var t := Sent(c, a, bodies[..k]);
            && d.bodies == Success(bodies[..k]) && d.state == ReadSide(b, t) && StateOk(d.state) && InStep(t, d.state)
            && PartOfRecord(c, t, bodies[k..], d.rest)
            && d.rest + Stream(c, a, bodies)[|x|..] == Stream(c, t, bodies[k..])
    decreases |bodies|
  {
    hide Decrypt, Encrypt, Record, CiphersOk, Drain;
    assert bodies[..0] == [] && bodies[0..] == bodies;
    if bodies == [] {
      k := 0;
      assert x == [];
      assert Drain(c, b, []) == Drained(b, [], Success([])) by { DrainNothing(c, b); }
    } else {
      RecordHead(c, a, b, bodies);
      var r, t := Record(c, a.encIv, a.encSeq, bodies[0]), Encrypt(c, a, bodies[0]).0;
      var rest := Stream(c, t, bodies[1..]);
      assert Stream(c, a, bodies) == r + rest;
      if |x| < |r| {
        k := 0;
        assert x == (r + rest)[..|x|] == r[..|x|];
        DrainShort(c, b, r, x);
      } else {
        var y := x[|r|..];
        assert x == (r + rest)[..|x|] == r + rest[..|y|];
        assert y == rest[..|y|];
        var j := DrainPrefix(c, t, ReadSide(b, t), bodies[1..], y);
        k := j + 1;
        DrainLong(c, b, ReadSide(b, t), r, bodies[0], y);
        assert bodies[..k][1..] == bodies[1..][..j] && bodies[..k][0] == bodies[0] && bodies[1..][j..] == bodies[k..];
        assert [bodies[0]] + bodies[1..][..j] == bodies[..k];
        assert (r + rest)[|x|..] == rest[|y|..];
      }
    }
  }

  lemma DrainNothing(c: Ciphers, b: RecordState)
    requires StateOk(b)
    ensures Drain(c, b, []) == Drained(b, [], Success([]))
  {
  }

  // ----- arbitrary chunks

  /** Each chunk is appended to what is pending, and everything complete is drained at once. */
  function DrainChunks(c: Ciphers, s: RecordState, pending: seq<byte>, chunks: seq<seq<byte>>): Drained
    requires StateOk(s)
    decreases |chunks|
  {
    if chunks == [] then Drained(s, pending, Success([]))
    else
      var d := Drain(c, s, pending + chunks[0]);
      if d.bodies.Failure? || !StateOk(d.state) then d
      else
        var e := DrainChunks(c, d.state, d.rest, chunks[1..]);
        match e.bodies
        case Failure(_) => e
        case Success(bodies) => e.(bodies := Success(d.bodies.value + bodies))
  }

  /** However a stream is cut into chunks, its bodies come out in order; at most part of one record stays pending. */
  lemma {:induction false} ChunksPrefix(c: Ciphers, a: RecordState, b: RecordState, bodies: seq<seq<byte>>,
                                        pending: seq<byte>, chunks: seq<seq<byte>>) returns (k: nat)
    requires CiphersOk(c) && Encryptable(a, bodies) && StateOk(b) && InStep(a, b)
    requires PartOfRecord(c, a, bodies, pending) && pending + Concat(chunks) <= Stream(c, a, bodies)
    ensures k <= |bodies| && StateOk(a) && Encryptable(Sent(c, a, bodies[..k]), bodies[k..])
    ensures var d := DrainChunks(c, b, pending, chunks); var t := Sent(c, a, bodies[..k]);
            && d.bodies == Success(bodies[..k]) && d.state == ReadSide(b, t) && StateOk(d.state) && InStep(t, d.state)
            && PartOfRecord(c, t, bodies[k..], d.rest)
            && d.rest + Stream(c, a, bodies)[|pending + Concat(chunks)|..] == Stream(c, t, bodies[k..])
    decreases |chunks|
  {
    hide Drain, Record, Encrypt, CiphersOk, Stream;
    var all := Stream(c, a, bodies);
    assert bodies[..0] == [] && bodies[0..] == bodies;
    if chunks == [] {
      k := 0;
      assert pending + [] == pending;
      assert pending + all[|pending|..] == all;
    } else {
      var x, more := pending + chunks[0], Concat(chunks[1..]);
      assert pending + Concat(chunks) == x + more;
      assert x == all[..|x|];
      var i := DrainPrefix(c, a, b, bodies, x);
      var d, t := Drain(c, b, x), Sent(c, a, bodies[..i]);
      assert all[|x|..] == more + all[|x + more|..];
      assert d.rest + more <= d.rest + all[|x|..];
      var j := ChunksPrefix(c, t, d.state, bodies[i..], d.rest, chunks[1..]);
      k := i + j;
      SentSplit(c, a, bodies, i, j);
      assert bodies[..i] + bodies[i..][..j] == bodies[..k] && bodies[i..][j..] == bodies[k..];
      assert (d.rest + all[|x|..])[|d.rest + more|..] == all[|x + more|..];
    }
  }

  lemma {:induction false} SentSplit(c: Ciphers, s: RecordState, bodies: seq<seq<byte>>, i: nat, j: nat)
    requires StateOk(s) && i + j <= |bodies| && StateOk(Sent(c, s, bodies[..i]))
    ensures Sent(c, Sent(c, s, bodies[..i]), bodies[i..][..j]) == Sent(c, s, bodies[..i + j])
    decreases i
  {
    hide Encrypt;
    if i == 0 {
      assert bodies[..0] == [] && bodies[0..] == bodies;
    } else {
      StepsOk(c, s, bodies[0]);
      assert bodies[..i][1..] == bodies[1..][..i - 1] && bodies[..i + j][1..] == bodies[1..][..i + j - 1];
      assert bodies[i..] == bodies[1..][i - 1..];
      SentSplit(c, Encrypt(c, s, bodies[0]).0, bodies[1..], i - 1, j);
    }
  }

  lemma StreamStarts(c: Ciphers, s: RecordState, bodies: seq<seq<byte>>)
    requires Encryptable(s, bodies) && bodies != []
    ensures |Stream(c, s, bodies)| >= |Record(c, s.encIv, s.encSeq, bodies[0])|
  {
    hide Record, Encrypt;
  }

  /** The whole stream, in any chunks: exactly the bodies, nothing pending, and both sides in step. */
  lemma StreamRoundTrip(c: Ciphers, a: RecordState, b: RecordState, bodies: seq<seq<byte>>, chunks: seq<seq<byte>>)
    requires CiphersOk(c) && Encryptable(a, bodies) && StateOk(b) && InStep(a, b)
    requires Concat(chunks) == Stream(c, a, bodies)
    ensures StateOk(a)
    ensures DrainChunks(c, b, [], chunks) == Drained(ReadSide(b, Sent(c, a, bodies)), [], Success(bodies))
  {
    hide Drain, Record, Encrypt, CiphersOk, Sent, DrainChunks;
    assert [] + Concat(chunks) == Concat(chunks);
    var k := ChunksPrefix(c, a, b, bodies, [], chunks);
    var d, t := DrainChunks(c, b, [], chunks), Sent(c, a, bodies[..k]);
    assert d.rest + [] == d.rest;
    if k < |bodies| {
      RecordHead(c, t, d.state, bodies[k..]);
      StreamStarts(c, t, bodies[k..]);
    }
    assert bodies[..|bodies|] == bodies;
  }
}
