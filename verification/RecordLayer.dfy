/**
 The record layer as the object of the source: chaining values, sequence numbers and the failure mark change
 in place with every record, and blocks are enciphered in place in their buffer.
 */
module RecordLayer {
  import opened Bytes
  import opened RecordModel

  lemma CbcEncryptStep(c: Ciphers, iv: seq<byte>, p: seq<byte>, o: nat)
    requires CiphersOk(c) && |iv| == BLOCK && o + BLOCK <= |p|
    ensures var b := c.enc(XorAll(p[o..o + BLOCK], iv));
            && |b| == BLOCK
            && CbcEncrypt(c, iv, p[o..]) == b + CbcEncrypt(c, b, p[o + BLOCK..])
            && Chained(iv, CbcEncrypt(c, iv, p[o..])) == Chained(b, CbcEncrypt(c, b, p[o + BLOCK..]))
  {
    var b := c.enc(XorAll(p[o..o + BLOCK], iv));
    var rest := CbcEncrypt(c, b, p[o + BLOCK..]);
    assert p[o..][..BLOCK] == p[o..o + BLOCK] && p[o..][BLOCK..] == p[o + BLOCK..];
    assert (b + rest)[..BLOCK] == b && (b + rest)[BLOCK..] == rest;
  }

  lemma CbcDecryptStep(c: Ciphers, iv: seq<byte>, ct: seq<byte>, o: nat)
    requires CiphersOk(c) && |iv| == BLOCK && o + BLOCK <= |ct|
    ensures var next := ct[o..o + BLOCK];
            && |c.dec(next)| == BLOCK
            && CbcDecrypt(c, iv, ct[o..]) == XorAll(c.dec(next), iv) + CbcDecrypt(c, next, ct[o + BLOCK..])
            && Chained(iv, ct[o..]) == Chained(next, ct[o + BLOCK..])
  {
    assert ct[o..][..BLOCK] == ct[o..o + BLOCK] && ct[o..][BLOCK..] == ct[o + BLOCK..];
  }

  // ----- the buffer while `o` bytes are done

  lemma Whole(s: seq<byte>)
    ensures s[0..] == s && [] + s == s
  {
  }

  lemma BlockAt(p: seq<byte>, done: seq<byte>, plain: seq<byte>, o: nat)
    requires |done| == o && o + BLOCK <= |plain| && p == done + plain[o..]
    ensures |p| == |plain| && p[o..o + BLOCK] == plain[o..o + BLOCK]
  {
  }

  lemma Replaced(p: seq<byte>, done: seq<byte>, plain: seq<byte>, o: nat, b: seq<byte>)
    requires |done| == o && o + BLOCK <= |plain| && p == done + plain[o..] && |b| == BLOCK
    ensures |p| == |plain| && p[..o] + b + p[o + BLOCK..] == (done + b) + plain[o + BLOCK..]
  {
    assert p[..o] == done;
    assert p[o + BLOCK..] == plain[o + BLOCK..];
  }

  lemma Joined(a: seq<byte>, b: seq<byte>, rest: seq<byte>)
    ensures a + (b + rest) == (a + b) + rest
  {
  }

  lemma AllDone(p: seq<byte>, done: seq<byte>, plain: seq<byte>)
    requires |done| == |plain| && p == done + plain[|done|..]
    ensures plain[|done|..] == [] && p == done && done + [] == done
  {
  }

  method PutBlock(p: array<byte>, o: nat, b: seq<byte>)
    requires |b| == BLOCK && o + BLOCK <= p.Length
    modifies p
    ensures p[..] == old(p[..o]) + b + old(p[o + BLOCK..])
  {
    forall k | 0 <= k < BLOCK {
      p[o + k] := b[k];
    }
  }

  class Layer {
    const c: Ciphers
    var encIv: seq<byte>
    var decIv: seq<byte>
    var encSeq: nat
    var decSeq: nat
    var failed: bool

    function Model(): RecordState
      reads this
    {
      RecordState(encIv, decIv, encSeq, decSeq, failed)
    }

    ghost predicate Valid()
      reads this
    {
      CiphersOk(c) && StateOk(Model())
    }

    constructor (c: Ciphers, iv: seq<byte>)
      requires CiphersOk(c) && |iv| == BLOCK
      ensures Valid() && this.c == c && Model() == RecordState(iv, iv, 0, 0, false)
    {
      this.c := c;
      encIv, decIv, encSeq, decSeq, failed := iv, iv, 0, 0, false;
    }

    /** Chains and enciphers every block of the buffer in place. */
    method EncryptBlocks(p: array<byte>)
      requires CiphersOk(c) && |encIv| == BLOCK && p.Length % BLOCK == 0
      modifies p, this`encIv
      ensures p[..] == CbcEncrypt(c, old(encIv), old(p[..])) && encIv == Chained(old(encIv), p[..])
    {
      hide CbcEncrypt, Chained, CiphersOk, XorAll;
      ghost var plain, start, done := p[..], encIv, [];
      var o := 0;
      Whole(plain);
      while o < p.Length
        invariant o <= p.Length && o % BLOCK == 0 && |encIv| == BLOCK
        invariant |done| == o && p[..] == done + plain[o..]
        invariant CbcEncrypt(c, start, plain) == done + CbcEncrypt(c, encIv, plain[o..])
        invariant Chained(start, CbcEncrypt(c, start, plain)) == Chained(encIv, CbcEncrypt(c, encIv, plain[o..]))
      {
        CbcEncryptStep(c, encIv, plain, o);
        BlockAt(p[..], done, plain, o);
        var b := c.enc(XorAll(p[o..o + BLOCK], encIv));
        Replaced(p[..], done, plain, o, b);
        Joined(done, b, CbcEncrypt(c, b, plain[o + BLOCK..]));
        PutBlock(p, o, b);
        done := done + b;
        encIv := b;
        o := o + BLOCK;
      }
      NoBlocks(c, encIv);
      AllDone(p[..], done, plain);
    }

    /** Deciphers and unchains every block of the buffer in place. */
    method DecryptBlocks(p: array<byte>)
      requires CiphersOk(c) && |decIv| == BLOCK && p.Length % BLOCK == 0
      modifies p, this`decIv
      ensures p[..] == CbcDecrypt(c, old(decIv), old(p[..])) && decIv == Chained(old(decIv), old(p[..]))
    {
      hide CbcDecrypt, Chained, CiphersOk, XorAll;
      ghost var ct, start, done := p[..], decIv, [];
      var o := 0;
      Whole(ct);
      while o < p.Length
        invariant o <= p.Length && o % BLOCK == 0 && |decIv| == BLOCK
        invariant |done| == o && p[..] == done + ct[o..]
        invariant CbcDecrypt(c, start, ct) == done + CbcDecrypt(c, decIv, ct[o..])
        invariant Chained(start, ct) == Chained(decIv, ct[o..])
      {
        CbcDecryptStep(c, decIv, ct, o);
        BlockAt(p[..], done, ct, o);
        var next := p[o..o + BLOCK];
        var b := XorAll(c.dec(next), decIv);
        Replaced(p[..], done, ct, o, b);
        Joined(done, b, CbcDecrypt(c, next, ct[o + BLOCK..]));
        PutBlock(p, o, b);
        done := done + b;
        decIv := next;
        o := o + BLOCK;
      }
      NoBlocks(c, decIv);
      AllDone(p[..], done, ct);
    }

    /** Fills in length, body, padding and hash, and enciphers the buffer. */
    method Seal(body: seq<byte>) returns (ct: seq<byte>)
      requires CiphersOk(c) && |encIv| == BLOCK && encSeq <= MAX_SEQUENCE && |body| <= MAX_BODY
      modifies this`encIv
      ensures ct == Ciphertext(c, old(encIv), encSeq, body) && encIv == Chained(old(encIv), ct)
    {
      hide CbcEncrypt, Chained, PaddedSize, Hashed, BE16, Covered, CiphersOk;
      PlainParts(c, encSeq, body);
      var plain := Covered(body) + Hashed(c, encSeq, Covered(body));
      var p := new byte[PaddedSize(|body|)](i requires 0 <= i < |plain| => plain[i]);
      assert p[..] == plain;
      EncryptBlocks(p);
      return p[..];
    }

    /** Deciphers a copy of the record. */
    method Unseal(ct: seq<byte>) returns (p: seq<byte>)
      requires CiphersOk(c) && |decIv| == BLOCK && |ct| % BLOCK == 0
      modifies this`decIv
      ensures p == CbcDecrypt(c, old(decIv), ct) && |p| == |ct| && decIv == Chained(old(decIv), ct)
    {
      hide CbcDecrypt, Chained, CiphersOk;
      var buffer := new byte[|ct|](i requires 0 <= i < |ct| => ct[i]);
      assert buffer[..] == ct;
      DecryptBlocks(buffer);
      return buffer[..];
    }

    method Encrypt(body: seq<byte>) returns (r: Result<seq<byte>, RecordError>)
      requires Valid()
      modifies this
      ensures Valid() && (Model(), r) == RecordModel.Encrypt(c, old(Model()), body)
    {
      hide Ciphertext, Chained, PaddedSize, BE16, CiphersOk;
      if failed {
        return Failure(Unusable);
      }
      if encSeq >= MAX_SEQUENCE {
        return Failure(SequenceExhausted);
      }
      if |body| > MAX_BODY {
        return Failure(TooLarge);
      }
      SizeFits(|body|);
      var ct := Seal(body);
      encSeq := encSeq + 1;
      return Success(BE16(PaddedSize(|body|)) + ct);
    }

    method Decrypt(ct: seq<byte>) returns (r: Result<seq<byte>, RecordError>)
      requires Valid()
      modifies this
      ensures Valid() && (Model(), r) == RecordModel.Decrypt(c, old(Model()), ct)
    {
      hide CbcDecrypt, Chained, Hashed, U16, CiphersOk;
      if failed {
        return Failure(Unusable);
      }
      if decSeq >= MAX_SEQUENCE {
        return Failure(SequenceExhausted);
      }
      if !(MIN_RECORD <= |ct| <= MAX_RECORD && |ct| % BLOCK == 0) {
        return Failure(InvalidLength);
      }
      failed := true;
      var p := Unseal(ct);
      var end := |p| - HASH;
      if Hashed(c, decSeq, p[..end]) != p[end..] {
        return Failure(AuthenticationFailed);
      }
      var len := U16(p[0], p[1]);
      if len > end - 2 {
        return Failure(InvalidInnerLength);
      }
      decSeq := decSeq + 1;
      failed := false;
      return Success(p[2..2 + len]);
    }

    /** Takes every complete record off the front of the buffer; an error leaves the buffer as it is. */
    method DrainRecords(pending: seq<byte>) returns (rest: seq<byte>, r: Result<seq<seq<byte>>, RecordError>)
      requires Valid()
      modifies this
      ensures Valid() && Drained(Model(), rest, r) == Drain(c, old(Model()), pending)
    {
      hide CiphersOk, RecordModel.Decrypt, U16, Drain;
      var out: seq<seq<byte>> := [];
      var used := 0;
      ghost var start := Model();
      Whole(pending);
      DrainFromStart(c, start, pending);
      while |pending| - used >= 2
        invariant used <= |pending| && StateOk(Model())
        invariant Drain(c, start, pending) == Prefixed(pending, out, Drain(c, Model(), pending[used..]))
        decreases |pending| - used
      {
        ghost var tail := pending[used..];
        assert tail[0] == pending[used] && tail[1] == pending[used + 1];
        var n := U16(pending[used], pending[used + 1]);
        if !(n >= MIN_RECORD && n % BLOCK == 0) {
          DrainRefuses(c, Model(), tail);
          return pending, Failure(InvalidLength);
        }
        if |pending| - used < 2 + n {
          break;
        }
        assert tail[2..2 + n] == pending[used + 2..used + 2 + n] && tail[2 + n..] == pending[used + 2 + n..];
        ghost var before := Model();
        StepsOk(c, before, tail[2..2 + n]);
        var body := Decrypt(pending[used + 2..used + 2 + n]);
        DrainStep(c, before, tail, n);
        if body.Failure? {
          return pending, Failure(body.error);
        }
        PrefixedTwice(pending, tail, out, body.value, Drain(c, Model(), tail[2 + n..]));
        out := out + [body.value];
        used := used + (2 + n);
      }
      assert Drain(c, Model(), pending[used..]) == Drained(Model(), pending[used..], Success([])) by {
        DrainStops(c, Model(), pending[used..]);
      }
      assert out + [] == out;
      return pending[used..], Success(out);
    }
  }

  lemma NoBlocks(c: Ciphers, iv: seq<byte>)
    requires |iv| == BLOCK
    ensures CbcEncrypt(c, iv, []) == [] && CbcDecrypt(c, iv, []) == [] && Chained(iv, []) == iv
  {
  }

  /** A drain that continues after `out` has already been taken off `pending`. */
  function Prefixed(pending: seq<byte>, out: seq<seq<byte>>, d: Drained): Drained {
    match d.bodies
    case Failure(_) => d.(rest := pending)
    case Success(bodies) => d.(bodies := Success(out + bodies))
  }

  lemma DrainStep(c: Ciphers, s: RecordState, tail: seq<byte>, n: nat)
    requires StateOk(s) && |tail| >= 2 + n && n == U16(tail[0], tail[1]) && n >= MIN_RECORD && n % BLOCK == 0
    ensures var r := Decrypt(c, s, tail[2..2 + n]);
            && StateOk(r.0)
            && Drain(c, s, tail) == if r.1.Failure? then Drained(r.0, tail, Failure(r.1.error))
                                    else Prefixed(tail, [r.1.value], Drain(c, r.0, tail[2 + n..]))
  {
    hide Decrypt;
    StepsOk(c, s, tail[2..2 + n]);
  }

  lemma DrainRefuses(c: Ciphers, s: RecordState, tail: seq<byte>)
    requires StateOk(s) && |tail| >= 2
    requires var n := U16(tail[0], tail[1]); !(n >= MIN_RECORD && n % BLOCK == 0)
    ensures Drain(c, s, tail) == Drained(s, tail, Failure(InvalidLength))
  {
  }

  lemma DrainStops(c: Ciphers, s: RecordState, tail: seq<byte>)
    requires StateOk(s)
    requires |tail| < 2 ||
             (var n := U16(tail[0], tail[1]); n >= MIN_RECORD && n % BLOCK == 0 && |tail| < 2 + n)
    ensures Drain(c, s, tail) == Drained(s, tail, Success([]))
  {
  }

  lemma DrainFromStart(c: Ciphers, s: RecordState, pending: seq<byte>)
    requires StateOk(s)
    ensures Prefixed(pending, [], Drain(c, s, pending)) == Drain(c, s, pending)
  {
    hide Decrypt;
    var d := Drain(c, s, pending);
    if d.bodies.Success? {
      assert [] + d.bodies.value == d.bodies.value;
    }
  }

  lemma PrefixedTwice(pending: seq<byte>, tail: seq<byte>, out: seq<seq<byte>>, body: seq<byte>, d: Drained)
    ensures Prefixed(pending, out, Prefixed(tail, [body], d)) == Prefixed(pending, out + [body], d)
  {
    if d.bodies.Success? {
      assert out + ([body] + d.bodies.value) == out + [body] + d.bodies.value;
    }
  }
}
