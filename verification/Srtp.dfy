/**
 The SRTP endpoints as the objects of the source: a receiver with one window per source, a sender that owns
 its packet index, and the sender of protected control packets.
 */
module Srtp {
  import opened Bytes
  import opened SrtpCipher
  import opened ReplayWindow
  import opened SrtpModel
  import opened SrtpStream
  import opened SrtpBytes

  class SrtpReceiver {
    const keys: Keys
    var windows: map<u32, Window>
    ghost var accepted: seq<Id>

    ghost function Model(): Receiver
      reads this
    {
      Receiver(windows, accepted)
    }

    ghost predicate Valid()
      reads this
    {
      KeysOk(keys) && ReceiverOk(Model())
    }

    constructor (k: Keys)
      requires KeysOk(k)
      ensures Valid() && keys == k && Model() == Receiver(map[], [])
    {
      keys := k;
      windows, accepted := map[], [];
      new;
      NewReceiverOk();
    }

    /** The replay check, before any cryptography. */
    method Seen(ssrc: u32, index: nat) returns (seen: bool)
      ensures seen <==> ssrc in windows && Replayed(windows[ssrc], index)
    {
      if ssrc in windows {
        var s := windows[ssrc];
        if index <= s.highest {
          var age := s.highest - index;
          return age >= WINDOW || Bit(s.seen, age);
        }
      }
      return false;
    }

    /** The checks in the order of the source; none of them touches the receiver. */
    method Examine(p: seq<byte>) returns (v: Verdict)
      requires |keys.salt| == 14
      ensures v == Judge(keys, windows, p)
    {
      hide Replayed, Crypted, Tag, U16, U32, IsRtcp, PayloadOffset, GuessRoc;
      if |p| < MIN_PACKET || |p| > MAX_PACKET || p[0] / 64 != 2 || IsRtcp(p) {
        return Rejected;
      }
      var len := |p| - TAG;
      var q := U16(p[2], p[3]);
      var ssrc := U32(p[8], p[9], p[10], p[11]);
      var guess := 0;
      if ssrc in windows {
        guess := GuessRoc(windows[ssrc].highest, q);
      }
      IndexParts(guess, q);
      if guess > 0xFFFF_FFFF {
        return Rejected;
      }
      var index := guess * 0x1_0000 + q;
      var seen := Seen(ssrc, index);
      if seen || Tag(keys, p[..len], guess) != p[len..] {
        return Rejected;
      }
      var off := PayloadOffset(p, len);
      if off.None? {
        return Rejected;
      }
      var payload := Decrypt(ssrc, index, p[off.value..len]);
      if p[0] / 32 % 2 == 1 {
        if payload == [] || payload[|payload| - 1] == 0 || payload[|payload| - 1] > |payload| {
          return Rejected;
        }
        payload := payload[..|payload| - payload[|payload| - 1]];
      }
      if ssrc !in windows && |windows| >= MAX_SOURCES {
        return Rejected;
      }
      return Accepted(index, RtpPacket(ssrc, q, U32(p[4], p[5], p[6], p[7]), p[1] >= 128, p[1] % 128, payload));
    }

    /** Moves the window of a source up to the index and marks it. */
    method Mark(ssrc: u32, index: nat)
      requires ssrc in windows ==> !Replayed(windows[ssrc], index)
      modifies this
      ensures windows == Marking(old(windows), ssrc, index) && accepted == old(accepted) + [Id(ssrc, index)]
    {
      var s := if ssrc in windows then windows[ssrc] else Window(index, 0);
      if index > s.highest {
        var delta := index - s.highest;
        s := Window(index, if delta >= WINDOW then 0 else Shift(s.seen, delta));
      }
      s := s.(seen := Marked(s.seen, s.highest - index));
      windows := windows[ssrc := s];
      accepted := accepted + [Id(ssrc, index)];
    }

    /** A datagram is marked only once everything has passed; a rejected one changes nothing. */
    method Unprotect(p: seq<byte>) returns (r: Option<RtpPacket>)
      requires Valid()
      modifies this
      ensures Valid() && Model() == Take(keys, old(Model()), p)
      ensures r == Receive(keys, old(windows), p).1 && windows == Receive(keys, old(windows), p).0
      ensures r.None? ==> windows == old(windows) && accepted == old(accepted)
      ensures r.Some? <==>
                exists index, packet ::
                  && OpenedAs(keys, p, index, packet) && index == Estimate(old(windows), packet.ssrc, packet.seqno)
                  && (packet.ssrc in old(windows) ==> !Replayed(old(windows)[packet.ssrc], index))
                  && (packet.ssrc in old(windows) || |old(windows)| < 32)
      ensures r.Some? ==>
                accepted != [] && accepted[|accepted| - 1].ssrc == r.value.ssrc
                && OpenedAs(keys, p, accepted[|accepted| - 1].index, r.value)
    {
      TakeOk(keys, Model(), p);
      AcceptedIff(keys, windows, p);
      hide ReceiverOk, Judge, Marking, OpenedAs, Replayed, Estimate;
      var v := Examine(p);
      if v.Rejected? {
        return None;
      }
      AcceptedIsNew(keys, windows, p);
      Mark(v.packet.ssrc, v.index);
      return Some(v.packet);
    }

    method Decrypt(ssrc: u32, index: nat, bytes: seq<byte>) returns (plain: seq<byte>)
      requires |keys.salt| == 14
      ensures plain == Crypted(keys, ssrc, index, bytes)
    {
      var buffer := new byte[|bytes|](i requires 0 <= i < |bytes| => bytes[i]);
      assert buffer[0..] == bytes && buffer[..0] == [];
      Crypt(keys, ssrc, index, buffer, 0);
      return buffer[..];
    }
  }

  /** What is accepted, in terms of the bytes of the datagram. */
  lemma AcceptedIff(k: Keys, windows: map<u32, Window>, p: seq<byte>)
    requires KeysOk(k)
    ensures |k.salt| == 14
    ensures Judge(k, windows, p).Accepted? <==>
              exists index, packet ::
                && OpenedAs(k, p, index, packet) && index == Estimate(windows, packet.ssrc, packet.seqno)
                && (packet.ssrc in windows ==> !Replayed(windows[packet.ssrc], index))
                && (packet.ssrc in windows || |windows| < 32)
    ensures Judge(k, windows, p).Accepted? ==>
              OpenedAs(k, p, Judge(k, windows, p).index, Judge(k, windows, p).packet)
  {
    hide Judge, OpenedAs, Replayed, Estimate, KeysOk;
    KeysSalt(k);
    var v := Judge(k, windows, p);
    if v.Accepted? {
      JudgeIff(k, windows, p, v.index, v.packet);
    }
    forall index, packet | OpenedAs(k, p, index, packet) && index == Estimate(windows, packet.ssrc, packet.seqno)
                           && (packet.ssrc in windows ==> !Replayed(windows[packet.ssrc], index))
                           && (packet.ssrc in windows || |windows| < 32)
      ensures v.Accepted?
    {
      JudgeIff(k, windows, p, index, packet);
    }
  }

  lemma IndexParts(roc: nat, q: u16)
    ensures (roc * 0x1_0000 + q) / 0x1_0000 == roc
    ensures roc > 0xFFFF_FFFF <==> roc * 0x1_0000 + q >= MAX_INDEX
  {
  }

  datatype SendError = KeyExhausted | InvalidPayload

  class SrtpSender {
    const keys: Keys
    const ssrc: u32
    var index: nat
    var heartbeatTimestamp: u32

    constructor (k: Keys, ssrc: u32)
      requires KeysOk(k)
      ensures keys == k && this.ssrc == ssrc && index == 0 && heartbeatTimestamp == 0
    {
      keys, this.ssrc := k, ssrc;
      index, heartbeatTimestamp := 0, 0;
    }

    /** Every packet made takes the next index; a refused call changes nothing. */
    method Protect(payload: seq<byte>, timestamp: u32, pt: nat) returns (r: Result<seq<byte>, SendError>)
      requires KeysOk(keys)
      modifies this`index
      ensures r.Success? <==>
                old(index) < 0x1_0000_0000_0000 && pt <= 127 && !(64 <= pt <= 95) && |payload| <= 65485
      ensures r.Failure? ==> r.error == if old(index) >= 0x1_0000_0000_0000 then KeyExhausted else InvalidPayload
      ensures r.Success? ==>
                Sendable(Message(payload, timestamp, pt))
                && r.value == Wire(keys, ssrc, old(index), Message(payload, timestamp, pt))
      ensures r.Success? ==> SentAs(keys, ssrc, old(index), payload, timestamp, pt, r.value)
      ensures index == if r.Success? then old(index) + 1 else old(index)
    {
      hide Crypted, BE16, BE32, Tag, Header, SentAs;
      if index < MAX_INDEX && Sendable(Message(payload, timestamp, pt)) {
        WireIsSentAs(keys, ssrc, index, Message(payload, timestamp, pt));
      }
      if index >= MAX_INDEX {
        return Failure(KeyExhausted);
      }
      if pt > 127 || 64 <= pt <= 95 || |payload| > MAX_PAYLOAD {
        return Failure(InvalidPayload);
      }
      var covered := Cover(payload, timestamp, pt);
      var tag := Tag(keys, covered, index / 0x1_0000);
      index := index + 1;
      return Success(covered + tag);
    }

    /** Header and payload in one buffer, the payload encrypted in place. */
    method Cover(payload: seq<byte>, timestamp: u32, pt: byte) returns (covered: seq<byte>)
      requires KeysOk(keys) && Sendable(Message(payload, timestamp, pt)) && index < MAX_INDEX
      ensures covered == Header(ssrc, index, Message(payload, timestamp, pt)) + Crypted(keys, ssrc, index, payload)
    {
      hide Crypted, BE16, BE32, Sendable;
      var header := [0x80, pt] + BE16(index % 0x1_0000) + BE32(timestamp) + BE32(ssrc);
      var all := header + payload;
      var out := new byte[|all|](i requires 0 <= i < |all| => all[i]);
      assert out[..12] == header && out[12..] == payload;
      Crypt(keys, ssrc, index, out, 12);
      return out[..];
    }

    /** The liveness packet; its timestamp wraps. */
    method AudioHeartbeat() returns (r: Result<seq<byte>, SendError>)
      requires KeysOk(keys)
      modifies this
      ensures r.Success? <==> old(index) < 0x1_0000_0000_0000
      ensures r.Success? ==>
                && r.value == Wire(keys, ssrc, old(index), Message([0, 0x68, 0x34, 0], old(heartbeatTimestamp), 101))
                && index == old(index) + 1 && heartbeatTimestamp == (old(heartbeatTimestamp) + 480) % 0x1_0000_0000
      ensures r.Success? ==>
                SentAs(keys, ssrc, old(index), [0, 0x68, 0x34, 0], old(heartbeatTimestamp), 101, r.value)
      ensures r.Failure? ==> index == old(index) && heartbeatTimestamp == old(heartbeatTimestamp)
    {
      hide SentAs;
      r := Protect([0, 0x68, 0x34, 0], heartbeatTimestamp, 101);
      if r.Success? {
        heartbeatTimestamp := (heartbeatTimestamp + 480) % 0x1_0000_0000;
      }
    }
  }

  // ----- protected control packets

  const SRTCP_FLAG := 0x8000_0000
  const MAX_SRTCP_INDEX := 0x7FFF_FFFF

  function SrtcpCovered(k: Keys, index: nat, p: seq<byte>): seq<byte>
    requires |k.salt| == 14 && |p| >= 8 && index < MAX_SRTCP_INDEX
  {
    p[..8] + Crypted(k, U32(p[4], p[5], p[6], p[7]), index, p[8..]) + BE32(SRTCP_FLAG + index)
  }

  function SrtcpTag(k: Keys, covered: seq<byte>): seq<byte> {
    var t := k.mac(covered);
    t[..Min(TAG, |t|)]
  }

  function SrtcpWire(k: Keys, index: nat, p: seq<byte>): seq<byte>
    requires |k.salt| == 14 && |p| >= 8 && index < MAX_SRTCP_INDEX
  {
    var covered := SrtcpCovered(k, index, p);
    covered + SrtcpTag(k, covered)
  }

  /** The reference receiver of section 3.4 of RFC 3711: tag, encryption flag and index, then the packet. */
  function SrtcpOpen(k: Keys, w: seq<byte>): Option<(nat, seq<byte>)>
    requires |k.salt| == 14
  {
    if |w| < 22 then None
    else
      var len := |w| - TAG;
      var body := len - 4;
      var word := U32(w[body], w[body + 1], w[body + 2], w[body + 3]);
      if SrtcpTag(k, w[..len]) != w[len..] || word < SRTCP_FLAG then None
      else
        var index := word - SRTCP_FLAG;
        Some((index, w[..8] + Crypted(k, U32(w[4], w[5], w[6], w[7]), index, w[8..body])))
  }

  /** The parts of a protected control packet, as the receiver cuts it up. */
  lemma SrtcpParts(head: seq<byte>, c: seq<byte>, t: seq<byte>, tag: seq<byte>)
    requires |head| == 8 && |t| == 4 && |tag| == TAG
    ensures var w := head + c + t + tag; var len := |w| - TAG;
            && |w| == 22 + |c| && w[..len] == head + c + t && w[len..] == tag
            && w[..8] == head && w[8..len - 4] == c && w[len - 4..len] == t
  {
  }

  lemma SameHead(a: seq<byte>, b: seq<byte>)
    requires |a| >= 8 && |b| >= 8 && a[..8] == b[..8]
    ensures U32(a[4], a[5], a[6], a[7]) == U32(b[4], b[5], b[6], b[7])
  {
    hide U32;
    assert a[4] == a[..8][4] && a[5] == a[..8][5] && a[6] == a[..8][6] && a[7] == a[..8][7];
    assert b[4] == b[..8][4] && b[5] == b[..8][5] && b[6] == b[..8][6] && b[7] == b[..8][7];
  }

  lemma TrailerWord(w: seq<byte>, at: nat, n: u32)
    requires at + 4 <= |w| && w[at..at + 4] == BE32(n)
    ensures U32(w[at], w[at + 1], w[at + 2], w[at + 3]) == n
  {
    hide U32;
    var t := w[at..at + 4];
    assert t[0] == w[at] && t[1] == w[at + 1] && t[2] == w[at + 2] && t[3] == w[at + 3];
    hide BE32;
  }

  /** A control packet is recovered, with the index it was sent under. */
  lemma SrtcpRoundTrip(k: Keys, index: nat, p: seq<byte>)
    requires KeysOk(k) && |p| >= 8 && index < MAX_SRTCP_INDEX
    ensures SrtcpOpen(k, SrtcpWire(k, index, p)) == Some((index, p))
  {
    hide Crypted, SrtcpTag, BE32, U32;
    var ssrc := U32(p[4], p[5], p[6], p[7]);
    var c, t := Crypted(k, ssrc, index, p[8..]), BE32(SRTCP_FLAG + index);
    var covered := SrtcpCovered(k, index, p);
    SrtcpTagSize(k, covered);
    SrtcpParts(p[..8], c, t, SrtcpTag(k, covered));
    var w := SrtcpWire(k, index, p);
    SameHead(w, p);
    TrailerWord(w, |w| - TAG - 4, SRTCP_FLAG + index);
    CryptedTwice(k, ssrc, index, p[8..]);
    assert p[..8] + p[8..] == p;
  }

  lemma SrtcpTagSize(k: Keys, covered: seq<byte>)
    requires KeysOk(k)
    ensures |SrtcpTag(k, covered)| == TAG
  {
  }

  lemma SrtcpIsControl(k: Keys, index: nat, p: seq<byte>)
    requires KeysOk(k) && |p| >= 8 && index < MAX_SRTCP_INDEX
    ensures |k.salt| == 14 && ControlAs(k, index, p, SrtcpWire(k, index, p))
  {
    hide Crypted, U32, BE32, Value, Enciphered, KeysOk;
    KeysSalt(k);
    var ssrc := U32(p[4], p[5], p[6], p[7]);
    var c, t := Crypted(k, ssrc, index, p[8..]), BE32(SRTCP_FLAG + index);
    var covered := SrtcpCovered(k, index, p);
    SrtcpTagSize(k, covered);
    SrtcpParts(p[..8], c, t, SrtcpTag(k, covered));
    CryptedIs(k, ssrc, index, p[8..]);
    MacSize(k, covered);
  }

  lemma MacSize(k: Keys, m: seq<byte>)
    requires KeysOk(k)
    ensures |k.mac(m)| >= 10
  {
  }

  class SrtcpSender {
    const keys: Keys
    var index: nat

    constructor (k: Keys)
      requires KeysOk(k)
      ensures keys == k && index == 0
    {
      keys := k;
      index := 0;
    }

    /** Encrypts everything behind the header in place, and appends the flagged index. */
    method Cover(p: seq<byte>) returns (covered: seq<byte>)
      requires |keys.salt| == 14 && |p| >= 8 && index < MAX_SRTCP_INDEX
      ensures covered == SrtcpCovered(keys, index, p)
    {
      hide U32, BE32, Crypted;
      var out := new byte[|p|](i requires 0 <= i < |p| => p[i]);
      assert out[..8] == p[..8] && out[8..] == p[8..];
      Crypt(keys, U32(p[4], p[5], p[6], p[7]), index, out, 8);
      return out[..] + BE32(SRTCP_FLAG + index);
    }

    method Protect(p: seq<byte>) returns (r: Result<seq<byte>, SendError>)
      requires KeysOk(keys)
      modifies this
      ensures r.Success? <==> 8 <= |p| <= 65521 && old(index) < 0x7FFF_FFFF
      ensures r.Success? ==> r.value == SrtcpWire(keys, old(index), p) && index == old(index) + 1
      ensures r.Success? ==> ControlAs(keys, old(index), p, r.value)
      ensures r.Failure? ==> index == old(index)
    {
      if |p| < 8 || |p| > 65535 - 14 || index >= MAX_SRTCP_INDEX {
        return Failure(InvalidPayload);
      }
      hide Crypted, SrtcpTag, ControlAs;
      SrtcpIsControl(keys, index, p);
      var covered := Cover(p);
      index := index + 1;
      return Success(covered + SrtcpTag(keys, covered));
    }
  }
}
