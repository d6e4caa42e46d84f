/**
 Records byte by byte: how blocks are chained, what the hash covers, and exactly which records are opened.
 */
module RecordBytes {
  import opened Bytes
  import opened RecordModel

  // ----- chaining

  /** Block by block, the plaintext is the deciphered block combined with the ciphertext block before it. */
  ghost predicate Unchained(c: Ciphers, iv: seq<byte>, ct: seq<byte>, p: seq<byte>)
    requires CiphersOk(c) && |iv| == 16
  {
    && |p| == |ct| && |ct| % 16 == 0
    && forall i :: 0 <= i < |ct| ==>
         p[i] == XorByte(c.dec(BlockOf(ct, i / 16))[i % 16], PriorTo(iv, ct, i / 16)[i % 16])
  }

  function BlockOf(ct: seq<byte>, k: nat): (b: seq<byte>)
    ensures |b| == 16
  {
    if 16 * k + 16 <= |ct| then ct[16 * k..16 * k + 16] else Zeros(16)
  }

  function PriorTo(iv: seq<byte>, ct: seq<byte>, k: nat): (b: seq<byte>)
    requires |iv| == 16
    ensures |b| == 16
  {
    if k == 0 then iv else BlockOf(ct, k - 1)
  }

  lemma Tenths(i: nat)
    requires i >= 16
    ensures (i - 16) / 16 == i / 16 - 1 && (i - 16) % 16 == i % 16
  {
  }

  lemma BlockLater(ct: seq<byte>, k: nat)
    requires |ct| >= 16
    ensures BlockOf(ct[16..], k) == BlockOf(ct, k + 1)
  {
  }

  /** The byte that unchaining gives at place `i`. */
  function ByteAt(c: Ciphers, iv: seq<byte>, ct: seq<byte>, i: nat): byte
    requires |iv| == 16 && |c.dec(BlockOf(ct, i / 16))| == 16
  {
    XorByte(c.dec(BlockOf(ct, i / 16))[i % 16], PriorTo(iv, ct, i / 16)[i % 16])
  }

  lemma LaterByte(c: Ciphers, iv: seq<byte>, ct: seq<byte>, i: nat)
    requires CiphersOk(c) && |iv| == 16 && 16 <= i < |ct|
    ensures |c.dec(BlockOf(ct, i / 16))| == 16 && |c.dec(BlockOf(ct[16..], (i - 16) / 16))| == 16
    ensures ByteAt(c, iv, ct, i) == ByteAt(c, ct[..16], ct[16..], i - 16)
  {
    DecSize(c, BlockOf(ct, i / 16));
    DecSize(c, BlockOf(ct[16..], (i - 16) / 16));
    hide CiphersOk, XorByte, BlockOf;
    Tenths(i);
    BlockLater(ct, i / 16 - 1);
    if i / 16 >= 2 {
      BlockLater(ct, i / 16 - 2);
    } else {
      FirstBlock(ct);
    }
  }

  lemma FirstBlock(ct: seq<byte>)
    requires |ct| >= 16
    ensures BlockOf(ct, 0) == ct[..16]
  {
  }

  lemma UnchainStep(c: Ciphers, iv: seq<byte>, ct: seq<byte>, q: seq<byte>)
    requires CiphersOk(c) && |iv| == 16 && |ct| >= 16 && |ct| % 16 == 0 && |c.dec(ct[..16])| == 16
    requires Unchained(c, ct[..16], ct[16..], q)
    ensures Unchained(c, iv, ct, XorAll(c.dec(ct[..16]), iv) + q)
  {
    hide CiphersOk, XorByte, BlockOf, XorAll;
    FirstBlock(ct);
    var p := XorAll(c.dec(ct[..16]), iv) + q;
    forall i | 0 <= i < |ct|
      ensures |c.dec(BlockOf(ct, i / 16))| == 16 && p[i] == ByteAt(c, iv, ct, i)
    {
      DecSize(c, BlockOf(ct, i / 16));
      if i >= 16 {
        LaterByte(c, iv, ct, i);
        assert p[i] == q[i - 16];
      } else {
        assert i / 16 == 0 && i % 16 == i;
      }
    }
  }

  lemma {:induction false} DecryptUnchains(c: Ciphers, iv: seq<byte>, ct: seq<byte>)
    requires CiphersOk(c) && |iv| == 16 && |ct| % 16 == 0
    ensures Unchained(c, iv, ct, CbcDecrypt(c, iv, ct))
    decreases |ct|
  {
    hide CiphersOk, Unchained, XorAll;
    if |ct| >= 16 {
      DecryptUnchains(c, ct[..16], ct[16..]);
      DecSize(c, ct[..16]);
      UnchainStep(c, iv, ct, CbcDecrypt(c, ct[..16], ct[16..]));
    } else {
      NothingUnchained(c, iv);
      assert ct == [];
    }
  }

  lemma NothingUnchained(c: Ciphers, iv: seq<byte>)
    requires CiphersOk(c) && |iv| == 16
    ensures Unchained(c, iv, [], [])
  {
  }

  lemma DecSize(c: Ciphers, b: seq<byte>)
    requires CiphersOk(c) && |b| == 16
    ensures |c.dec(b)| == 16
  {
  }

  lemma OneUnchaining(c: Ciphers, iv: seq<byte>, ct: seq<byte>, p: seq<byte>, q: seq<byte>)
    requires CiphersOk(c) && |iv| == 16 && Unchained(c, iv, ct, p) && Unchained(c, iv, ct, q)
    ensures p == q
  {
  }

  lemma {:induction false} ChainedIs(iv: seq<byte>, ct: seq<byte>)
    requires |iv| == 16 && |ct| % 16 == 0 && |ct| > 0
    ensures Chained(iv, ct) == ct[|ct| - 16..]
    decreases |ct|
  {
    if |ct| > 16 {
      ChainedIs(ct[..16], ct[16..]);
    } else {
      assert ct[16..] == [] && ct[..16] == ct;
    }
  }

  // ----- opening

  /** The plaintext is authentic: its last 20 bytes are the hash of the record's number and all the bytes before. */
  predicate Authentic(c: Ciphers, number: nat, p: seq<byte>)
    requires number <= MAX_SEQUENCE && |p| >= 20
  {
    p[|p| - 20..] == c.hash(BE32(number) + p[..|p| - 20])
  }

  /**
   A usable channel opens a record of allowed size exactly if its plaintext is authentic under the next number and its
   length fits; the body is then what the length says, and the chaining value is the last block. A record that does
   not verify leaves the channel failed.
   */
  lemma DecryptIff(c: Ciphers, s: RecordState, ct: seq<byte>, p: seq<byte>)
    requires CiphersOk(c) && StateOk(s) && !s.failed && s.decSeq < 0xFFFF_FFFF
    requires 32 <= |ct| <= 65520 && |ct| % 16 == 0 && Unchained(c, s.decIv, ct, p)
    ensures Decrypt(c, s, ct).1.Success? <==> Authentic(c, s.decSeq, p) && Value(p[..2]) <= |p| - 22
    ensures Decrypt(c, s, ct).1.Success? ==> Decrypt(c, s, ct).1.value == p[2..2 + Value(p[..2])]
    ensures Decrypt(c, s, ct).0 == s.(decIv := ct[|ct| - 16..], failed := Decrypt(c, s, ct).1.Failure?,
                                       decSeq := if Decrypt(c, s, ct).1.Success? then s.decSeq + 1 else s.decSeq)
    ensures Decrypt(c, s, ct).1.Failure? ==>
              Decrypt(c, s, ct).1.error
              == if Authentic(c, s.decSeq, p) then InvalidInnerLength else AuthenticationFailed
  {
    hide CbcDecrypt, CiphersOk, Unchained, Value, BE32, Chained;
    DecryptUnchains(c, s.decIv, ct);
    CbcDecryptSize(c, s.decIv, ct);
    OneUnchaining(c, s.decIv, ct, p, CbcDecrypt(c, s.decIv, ct));
    ChainedIs(s.decIv, ct);
    assert p[..2] == [p[0], p[1]];
  }

  /** Everything else is refused before it is looked at, and changes nothing. */
  lemma DecryptRefuses(c: Ciphers, s: RecordState, ct: seq<byte>)
    requires StateOk(s)
    requires s.failed || s.decSeq >= 0xFFFF_FFFF || !(32 <= |ct| <= 65520 && |ct| % 16 == 0)
    ensures Decrypt(c, s, ct).0 == s
    ensures Decrypt(c, s, ct).1
         == Failure(if s.failed then Unusable else if s.decSeq >= 0xFFFF_FFFF then SequenceExhausted else InvalidLength)
  {
  }

  // ----- sealing

  /** The plaintext of a record: length, body, zeros up to the block, and the hash. */
  predicate Sealed(c: Ciphers, number: nat, body: seq<byte>, p: seq<byte>)
    requires number <= MAX_SEQUENCE
  {
    var end := |p| - 20;
    && |p| % 16 == 0 && 2 + |body| <= end < 2 + |body| + 16
    && Value(p[..2]) == |body| && p[2..2 + |body|] == body && (forall i :: 2 + |body| <= i < end ==> p[i] == 0)
    && Authentic(c, number, p)
  }

  lemma PlainIsSealed(c: Ciphers, number: nat, body: seq<byte>)
    requires CiphersOk(c) && number <= MAX_SEQUENCE && |body| <= MAX_BODY
    ensures Sealed(c, number, body, Plain(c, number, body))
  {
    hide CiphersOk, BE16, BE32, Value;
    PlainParts(c, number, body);
    var p, z := Plain(c, number, body), Zeros(PaddedSize(|body|) - HASH - 2 - |body|);
    assert p == BE16(|body|) + body + z + Hashed(c, number, Covered(body));
    assert p[..2] == BE16(|body|);
  }

  /**
   A record carries its size and the ciphertext of length, body, padding and hash under the next number, chained from
   the block before; only a failed channel, an exhausted number and a body of more than 65498 bytes are refused.
   */
  lemma EncryptIs(c: Ciphers, s: RecordState, body: seq<byte>, p: seq<byte>)
    requires CiphersOk(c) && StateOk(s)
    ensures Encrypt(c, s, body).1.Success? <==> !s.failed && s.encSeq < 0xFFFF_FFFF && |body| <= 65498
    ensures Encrypt(c, s, body).1.Failure? ==> Encrypt(c, s, body).0 == s
    ensures Encrypt(c, s, body).1.Success? ==>
              var w := Encrypt(c, s, body).1.value;
              && |w| >= 34 && Value(w[..2]) == |w| - 2
              && (Unchained(c, s.encIv, w[2..], p) ==> Sealed(c, s.encSeq, body, p))
              && Unchained(c, s.encIv, w[2..], Plain(c, s.encSeq, body))
              && Encrypt(c, s, body).0 == s.(encIv := w[|w| - 16..], encSeq := s.encSeq + 1)
  {
    hide CiphersOk, BE16, BE32, Value, Sealed, Unchained, Plain, CbcEncrypt, CbcDecrypt, Chained, PaddedSize;
    if Encrypt(c, s, body).1.Success? {
      var w := Encrypt(c, s, body).1.value;
      var plain, ct := Plain(c, s.encSeq, body), Ciphertext(c, s.encIv, s.encSeq, body);
      SizeFits(|body|);
      PlainParts(c, s.encSeq, body);
      PlainIsSealed(c, s.encSeq, body);
      CbcInverse(c, s.encIv, plain);
      DecryptUnchains(c, s.encIv, ct);
      assert w == BE16(PaddedSize(|body|)) + ct && w[2..] == ct && w[..2] == BE16(PaddedSize(|body|));
      ChainedIs(s.encIv, ct);
      if Unchained(c, s.encIv, w[2..], p) {
        OneUnchaining(c, s.encIv, ct, p, plain);
      }
    }
  }

  /** With a hash that is injective, the last 20 bytes of an authentic plaintext determine its number and content. */
  lemma AuthenticDetermines(c: Ciphers, i: nat, p: seq<byte>, j: nat, q: seq<byte>)
    requires forall a, b :: c.hash(a) == c.hash(b) ==> a == b
    requires i <= MAX_SEQUENCE && j <= MAX_SEQUENCE && |p| >= 20 && |q| >= 20
    requires Authentic(c, i, p) && Authentic(c, j, q) && p[|p| - 20..] == q[|q| - 20..]
    ensures i == j && p == q
  {
    hide BE32;
    var a, b := BE32(i) + p[..|p| - 20], BE32(j) + q[..|q| - 20];
    assert c.hash(a) == c.hash(b);
    assert BE32(i) == a[..4] == b[..4] == BE32(j);
    assert p[..|p| - 20] == a[4..] == b[4..] == q[..|q| - 20];
    assert p == p[..|p| - 20] + p[|p| - 20..] && q == q[..|q| - 20] + q[|q| - 20..];
  }

  // ----- the stream

  /** A length field that no record has ends the channel as soon as it is there, whatever follows. */
  lemma MalformedIsRefused(c: Ciphers, s: RecordState, pending: seq<byte>)
    requires StateOk(s) && |pending| >= 2
    requires Value(pending[..2]) < 32 || Value(pending[..2]) % 16 != 0
    ensures Drain(c, s, pending) == Drained(s, pending, Failure(InvalidLength))
  {
    hide Value, Decrypt;
    assert pending[..2] == [pending[0], pending[1]];
  }
}
