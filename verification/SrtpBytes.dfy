/**
 Protected packets byte by byte: which block of the keystream enciphers which byte, what the tag covers, and what a
 receiver takes out of every packet layout (sections 3.1, 4.1.1 and 4.2 of RFC 3711).
 */
module SrtpBytes {
  import opened Bytes
  import opened SrtpCipher
  import opened ReplayWindow
  import opened SrtpModel
  import opened SrtpStream

  // ----- the keystream

  /** Input block `n` of the cipher: salt, SSRC and packet index at their bit positions, plus the block number. */
  function KeyBlock(salt: seq<byte>, ssrc: u32, index: nat, n: nat): (b: seq<byte>)
    ensures |b| == 16
  {
    var start := Xor(Xor(Value(salt) * 0x1_0000, ssrc * 0x1_0000_0000_0000_0000), index * 0x1_0000);
    ToBytes((start + n) % 0x1_0000_0000_0000_0000_0000_0000_0000_0000, 16)
  }

  /** Every byte is combined with the byte at its place in the enciphered block of its number. */
  ghost predicate Enciphered(k: Keys, ssrc: u32, index: nat, plain: seq<byte>, cipher: seq<byte>)
    requires KeysOk(k)
  {
    && |cipher| == |plain|
    && forall j :: 0 <= j < |plain| ==>
         cipher[j] == XorByte(plain[j], k.aes(KeyBlock(k.salt, ssrc, index, j / 16))[j % 16])
  }

  lemma Powers()
    ensures Pow256(2) == 0x1_0000 && Pow256(6) == 0x1_0000_0000_0000 && Pow256(8) == 0x1_0000_0000_0000_0000
    ensures Pow256(16) == 0x1_0000_0000_0000_0000_0000_0000_0000_0000
  {
    assert Pow256(4) == 0x1_0000_0000;
    assert Pow256(12) == 0x1_0000_0000_0000_0000_0000_0000;
  }

  lemma KeyBlockIs(salt: seq<byte>, ssrc: u32, index: nat, n: nat)
    requires |salt| == 14 && index < 0x1_0000_0000_0000_0000
    ensures KeyBlock(salt, ssrc, index, n) == CounterBlock(Iv(salt, ssrc, index), n)
  {
    hide Xor, Value, Iv, ToBytes, Pow256;
    Powers();
    IvFormula(salt, ssrc, index);
  }

  lemma CryptedIs(k: Keys, ssrc: u32, index: nat, bytes: seq<byte>)
    requires KeysOk(k) && index < 0x1_0000_0000_0000_0000
    ensures Enciphered(k, ssrc, index, bytes, Crypted(k, ssrc, index, bytes))
  {
    hide XorByte, Iv, CounterBlock, KeyBlock;
    forall j | 0 <= j < |bytes|
      ensures Crypted(k, ssrc, index, bytes)[j]
           == XorByte(bytes[j], k.aes(KeyBlock(k.salt, ssrc, index, j / 16))[j % 16])
    {
      KeyBlockIs(k.salt, ssrc, index, j / 16);
    }
  }

  /** Only one plaintext goes with a ciphertext, and it is that of deciphering. */
  lemma EncipheredBack(k: Keys, ssrc: u32, index: nat, plain: seq<byte>, cipher: seq<byte>)
    requires KeysOk(k) && index < 0x1_0000_0000_0000_0000
    ensures Enciphered(k, ssrc, index, plain, cipher) <==> plain == Crypted(k, ssrc, index, cipher)
  {
    hide KeyBlock, Crypted, KeysOk;
    KeysSalt(k);
    CryptedIs(k, ssrc, index, cipher);
    var p := Crypted(k, ssrc, index, cipher);
    if Enciphered(k, ssrc, index, plain, cipher) {
      forall j | 0 <= j < |plain| ensures plain[j] == p[j] {
        KeysSize(k, KeyBlock(k.salt, ssrc, index, j / 16));
        XorCommutesTwice(plain[j], k.aes(KeyBlock(k.salt, ssrc, index, j / 16))[j % 16]);
      }
    }
    if plain == p {
      CryptedIs(k, ssrc, index, plain);
      CryptedTwice(k, ssrc, index, cipher);
    }
  }

  lemma KeysSize(k: Keys, b: seq<byte>)
    requires KeysOk(k) && |b| == 16
    ensures |k.aes(b)| == 16
  {
  }

  lemma KeysSalt(k: Keys)
    requires KeysOk(k)
    ensures |k.salt| == 14
  {
  }

  lemma XorCommutesTwice(a: byte, b: byte)
    ensures XorByte(XorByte(a, b), b) == a
  {
  }

  // ----- the sender

  /** The tag: the first ten bytes of the code over all before it and the rollover counter. */
  predicate TagIs(k: Keys, covered: seq<byte>, index: nat, tag: seq<byte>)
    requires index < MAX_INDEX
  {
    var t := k.mac(covered + BE32(index / 0x1_0000));
    |t| >= 10 && tag == t[..10]
  }

  /** A packet of the sender: fixed header, number, timestamp and source, enciphered payload, tag. */
  ghost predicate SentAs(k: Keys, ssrc: u32, index: nat, payload: seq<byte>, timestamp: u32, pt: nat, w: seq<byte>)
    requires KeysOk(k)
  {
    var end := 12 + |payload|;
    && |w| == end + 10 && w[0] == 0x80 && w[1] == pt && Value(w[2..4]) == index % 0x1_0000
    && Value(w[4..8]) == timestamp && Value(w[8..12]) == ssrc && index < MAX_INDEX
    && Enciphered(k, ssrc, index, payload, w[12..end]) && TagIs(k, w[..end], index, w[end..])
  }

  lemma TagIsTag(k: Keys, covered: seq<byte>, index: nat)
    requires KeysOk(k) && index < MAX_INDEX
    ensures forall tag :: TagIs(k, covered, index, tag) <==> tag == Tag(k, covered, index / 0x1_0000)
  {
  }

  lemma FieldValues(h: seq<byte>)
    requires |h| >= 12
    ensures Value(h[2..4]) == U16(h[2], h[3]) && Value(h[4..8]) == U32(h[4], h[5], h[6], h[7])
    ensures Value(h[8..12]) == U32(h[8], h[9], h[10], h[11])
  {
    hide Value;
    assert h[2..4] == [h[2], h[3]] && h[4..8] == [h[4], h[5], h[6], h[7]] && h[8..12] == [h[8], h[9], h[10], h[11]];
  }

  lemma WireIsSentAs(k: Keys, ssrc: u32, index: nat, m: Message)
    requires KeysOk(k) && Sendable(m) && index < MAX_INDEX
    ensures SentAs(k, ssrc, index, m.payload, m.timestamp, m.pt, Wire(k, ssrc, index, m))
  {
    hide Wire, KeysOk, Crypted, U16, U32, Value, Enciphered, Tag, TagIs;
    KeysSalt(k);
    var w := Wire(k, ssrc, index, m);
    WireFields(k, ssrc, index, m);
    WireParts(k, ssrc, index, m);
    FieldValues(w);
    CryptedIs(k, ssrc, index, m.payload);
    TagIsTag(k, w[..12 + |m.payload|], index);
  }

  /**
   The keystream of two packets under one key: each enciphers its payload with the cipher's output for its inputs, and
   no input is used twice, neither by the two packets nor within one.
   */
  lemma KeystreamNeverReused(k: Keys, ssrc: u32, i: nat, m: Message, b: nat, ssrc': u32, i': nat, m': Message, b': nat)
    requires KeysOk(k) && Sendable(m) && Sendable(m') && i < MAX_INDEX && i' < MAX_INDEX
    ensures Enciphered(k, ssrc, i, m.payload, Wire(k, ssrc, i, m)[12..12 + |m.payload|])
    ensures Enciphered(k, ssrc', i', m'.payload, Wire(k, ssrc', i', m')[12..12 + |m'.payload|])
    ensures b * 16 < |m.payload| && b' * 16 < |m'.payload| && (ssrc != ssrc' || i != i' || b != b') ==>
              KeyBlock(k.salt, ssrc, i, b) != KeyBlock(k.salt, ssrc', i', b')
  {
    hide CounterBlock, Iv, KeyBlock, Wire, Enciphered, Value, KeysOk, TagIs;
    KeysSalt(k);
    Powers();
    WireIsSentAs(k, ssrc, i, m);
    WireIsSentAs(k, ssrc', i', m');
    KeyBlockIs(k.salt, ssrc, i, b);
    KeyBlockIs(k.salt, ssrc', i', b');
    if b * 16 < |m.payload| && b' * 16 < |m'.payload|
       && KeyBlock(k.salt, ssrc, i, b) == KeyBlock(k.salt, ssrc', i', b') {
      CounterBlocksDistinct(k.salt, ssrc, i, b, ssrc', i', b');
    }
  }

  // ----- the receiver

  /** Where the payload begins: behind the header, the contributing sources and the extension, if there is one. */
  function HeaderEnd(p: seq<byte>): nat
    requires |p| >= 12
  {
    var sources := 12 + 4 * (p[0] % 16);
    if p[0] / 16 % 2 == 0 || sources + 4 > |p| then sources
    else sources + 4 + 4 * Value(p[sources + 2..sources + 4])
  }

  /** The padding behind the payload: none, or as many bytes as the last one says. */
  predicate Padded(p: seq<byte>, payload: seq<byte>, plain: seq<byte>)
    requires |p| >= 1
  {
    if p[0] / 32 % 2 == 0 then plain == payload
    else payload <= plain && |plain| > |payload| && plain[|plain| - 1] == |plain| - |payload|
  }

  /** What an authenticated packet hands out: the fields of its header, and the payload within its layout. */
  ghost predicate OpenedAs(k: Keys, p: seq<byte>, index: nat, packet: RtpPacket)
    requires KeysOk(k)
  {
    && 22 <= |p| <= 65535 && p[0] / 64 == 2 && !(64 <= p[1] % 128 <= 95) && index < MAX_INDEX
    && index % 0x1_0000 == Value(p[2..4]) == packet.seqno && packet.timestamp == Value(p[4..8])
    && packet.ssrc == Value(p[8..12]) && packet.marker == (p[1] >= 128) && packet.pt == p[1] % 128
    && var end := |p| - 10;
       && TagIs(k, p[..end], index, p[end..])
       && (p[0] / 16 % 2 == 1 ==> 12 + 4 * (p[0] % 16) + 4 <= end) && HeaderEnd(p) <= end
       && exists plain :: Padded(p, packet.payload, plain)
                          && Enciphered(k, packet.ssrc, index, plain, p[HeaderEnd(p)..end])
  }

  lemma OffsetIs(p: seq<byte>)
    requires 22 <= |p|
    ensures var len := |p| - TAG; var off := PayloadOffset(p, len);
            && (off.Some? <==> (p[0] / 16 % 2 == 1 ==> 12 + 4 * (p[0] % 16) + 4 <= len) && HeaderEnd(p) <= len)
            && (off.Some? ==> off.value == HeaderEnd(p))
  {
    hide Value;
    var o := 12 + 4 * (p[0] % 16);
    if o + 4 <= |p| {
      assert p[o + 2..o + 4] == [p[o + 2], p[o + 3]];
    }
  }

  /** Taking the padding off is finding the one payload that goes with it. */
  lemma UnpaddedIs(p: seq<byte>, payload: seq<byte>, plain: seq<byte>)
    requires |p| >= 1
    ensures Padded(p, payload, plain)
       <==> (if p[0] / 32 % 2 == 1 then Unpadded(plain) else Some(plain)) == Some(payload)
  {
    if payload <= plain {
      assert payload == plain[..|payload|];
    }
  }

  /** What is handed out for a datagram whose fields are these. */
  lemma OpenedIs(k: Keys, p: seq<byte>, index: nat, packet: RtpPacket)
    requires KeysOk(k)
    ensures OpenedAs(k, p, index, packet) <==>
              && Plausible(p) && index < MAX_INDEX && index % 0x1_0000 == SeqnoOf(p)
              && Tag(k, p[..|p| - TAG], index / 0x1_0000) == p[|p| - TAG..]
              && PayloadOffset(p, |p| - TAG).Some?
              && (var plain := Crypted(k, SsrcOf(p), index, p[PayloadOffset(p, |p| - TAG).value..|p| - TAG]);
                  var body := if p[0] / 32 % 2 == 1 then Unpadded(plain) else Some(plain);
                  && body.Some?
                  && packet == RtpPacket(SsrcOf(p), SeqnoOf(p), U32(p[4], p[5], p[6], p[7]), p[1] >= 128, p[1] % 128,
                                         body.value))
  {
    hide Crypted, Tag, TagIs, U16, U32, Value, Enciphered, Padded, Unpadded, PayloadOffset, HeaderEnd, KeysOk;
    KeysSalt(k);
    if 22 <= |p| {
      FieldValues(p);
      OffsetIs(p);
      if index < MAX_INDEX {
        TagIsTag(k, p[..|p| - TAG], index);
      }
      if PayloadOffset(p, |p| - TAG).Some? && index < MAX_INDEX {
        BodyIs(k, SsrcOf(p), index, p, p[HeaderEnd(p)..|p| - TAG], packet.payload);
      }
    }
  }

  lemma BodyIs(k: Keys, ssrc: u32, index: nat, p: seq<byte>, cipher: seq<byte>, payload: seq<byte>)
    requires KeysOk(k) && |k.salt| == 14 && |p| >= 1 && index < MAX_INDEX
    ensures (exists plain :: Padded(p, payload, plain) && Enciphered(k, ssrc, index, plain, cipher)) <==>
              var plain := Crypted(k, ssrc, index, cipher);
              (if p[0] / 32 % 2 == 1 then Unpadded(plain) else Some(plain)) == Some(payload)
  {
    hide Crypted, Enciphered, Padded, Unpadded, KeysOk;
    var plain := Crypted(k, ssrc, index, cipher);
    EncipheredBack(k, ssrc, index, plain, cipher);
    UnpaddedIs(p, payload, plain);
    if exists x :: Padded(p, payload, x) && Enciphered(k, ssrc, index, x, cipher) {
      var x :| Padded(p, payload, x) && Enciphered(k, ssrc, index, x, cipher);
      EncipheredBack(k, ssrc, index, x, cipher);
    }
  }

  /**
   A datagram is accepted exactly if it is authentic under the estimated index, well laid out, new to its window, and
   there is room for its source; contributing sources, extension, marker and padding included.
   */
  lemma JudgeIff(k: Keys, windows: map<u32, Window>, p: seq<byte>, index: nat, packet: RtpPacket)
    requires KeysOk(k)
    ensures |k.salt| == 14
    ensures Judge(k, windows, p) == Accepted(index, packet) <==>
              && OpenedAs(k, p, index, packet) && index == Estimate(windows, packet.ssrc, packet.seqno)
              && (packet.ssrc in windows ==> !Replayed(windows[packet.ssrc], index))
              && (packet.ssrc in windows || |windows| < 32)
  {
    hide Crypted, Tag, U16, U32, PayloadOffset, Unpadded, OpenedAs, KeysOk, Replayed, GuessRoc, IsRtcp;
    KeysSalt(k);
    OpenedIs(k, p, index, packet);
    if Plausible(p) {
      EstimateNumber(windows, SsrcOf(p), SeqnoOf(p));
    }
  }

  lemma EstimateNumber(windows: map<u32, Window>, ssrc: u32, q: u16)
    ensures Estimate(windows, ssrc, q) % 0x1_0000 == q
  {
    hide GuessRoc;
    if ssrc in windows {
      LowPart(GuessRoc(windows[ssrc].highest, q), q);
    }
  }

  lemma LowPart(roc: nat, q: u16)
    ensures (roc * 0x1_0000 + q) % 0x1_0000 == q
  {
  }

  // ----- control packets

  /** A protected control packet: its header, the rest enciphered, the flagged index, and the tag over all of that. */
  ghost predicate ControlAs(k: Keys, index: nat, p: seq<byte>, w: seq<byte>)
    requires KeysOk(k) && |p| >= 8
  {
    var end := |p| + 4; var t := k.mac(w[..Min(end, |w|)]);
    && |w| == end + 10 && w[..8] == p[..8] && Enciphered(k, U32(p[4], p[5], p[6], p[7]), index, p[8..], w[8..|p|])
    && Value(w[|p|..end]) == 0x8000_0000 + index && |t| >= 10 && w[end..] == t[..10]
  }
}
