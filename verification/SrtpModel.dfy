/**
 SRTP send and receive: packet layout, rollover-counter estimation, the replay window per source and the
 order of the checks (section 3.3 and Appendix A of RFC 3711).
 */
module SrtpModel {
  import opened Bytes
  import opened SrtpCipher
  import opened ReplayWindow
  import opened Sums

  const TAG := 10
  const MIN_PACKET := 22
  const MAX_PACKET := 65535
  const MAX_SOURCES := 32
  const MAX_PAYLOAD := 65507 - 22
  const MAX_INDEX := 0x1_0000_0000_0000

  datatype RtpPacket = RtpPacket(ssrc: u32, seqno: u16, timestamp: u32, marker: bool, pt: nat, payload: seq<byte>)

  /** RTCP packet types are 64 to 95 without the top bit. */
  predicate IsRtcp(p: seq<byte>) {
    |p| > 1 && 64 <= p[1] % 128 <= 95
  }

  predicate Plausible(p: seq<byte>) {
    MIN_PACKET <= |p| <= MAX_PACKET && p[0] / 64 == 2 && !IsRtcp(p)
  }

  function SeqnoOf(p: seq<byte>): u16
    requires |p| >= MIN_PACKET
  {
    U16(p[2], p[3])
  }

  function SsrcOf(p: seq<byte>): u32
    requires |p| >= MIN_PACKET
  {
    U32(p[8], p[9], p[10], p[11])
  }

  // ----- rollover counter

  /** The guessed rollover counter for sequence number `q`, from the highest index seen. */
  function GuessRoc(highest: nat, q: u16): nat {
    var roc := highest / 0x1_0000;
    var delta := q - highest % 0x1_0000;
    if delta < -32768 then roc + 1
    else if delta > 32768 then SatSub(roc, 1)
    else roc
  }

  function Estimate(windows: map<u32, Window>, ssrc: u32, q: u16): nat {
    if ssrc in windows then GuessRoc(windows[ssrc].highest, q) * 0x1_0000 + q else q
  }

  // ----- receiving

  datatype Verdict = Rejected | Accepted(index: nat, packet: RtpPacket)

  function Tag(k: Keys, covered: seq<byte>, roc: u32): seq<byte> {
    var t := k.mac(covered + BE32(roc));
    t[..Min(TAG, |t|)]
  }

  /** Where the payload starts: after the header, the contributing sources and the extension. */
  function PayloadOffset(p: seq<byte>, len: nat): (off: Option<nat>)
    requires MIN_PACKET <= |p| && len + TAG == |p|
    ensures off.Some? ==> 12 <= off.value <= len
  {
    var off := 12 + p[0] % 16 * 4;
    if p[0] / 16 % 2 == 0 then if off > len then None else Some(off)
    else if off + 4 > len then None
    else
      var end := off + 4 + U16(p[off + 2], p[off + 3]) * 4;
      if end > len then None else Some(end)
  }

  /** The payload without its padding, if the padding count makes sense. */
  function Unpadded(payload: seq<byte>): Option<seq<byte>> {
    if payload == [] then None
    else
      var count := payload[|payload| - 1];
      if count == 0 || count > |payload| then None else Some(payload[..|payload| - count])
  }

  function Judge(k: Keys, windows: map<u32, Window>, p: seq<byte>): Verdict
    requires |k.salt| == 14
  {
    if !Plausible(p) then Rejected
    else
      var len := |p| - TAG;
      var q, ssrc := SeqnoOf(p), SsrcOf(p);
      var index := Estimate(windows, ssrc, q);
      if index >= MAX_INDEX then Rejected
      else if ssrc in windows && Replayed(windows[ssrc], index) then Rejected
      else if Tag(k, p[..len], index / 0x1_0000) != p[len..] then Rejected
      else
        match PayloadOffset(p, len)
        case None => Rejected
        case Some(off) =>
          var plain := Crypted(k, ssrc, index, p[off..len]);
          var body := if p[0] / 32 % 2 == 1 then Unpadded(plain) else Some(plain);
          if body.None? then Rejected
          else if ssrc !in windows && |windows| >= MAX_SOURCES then Rejected
          else Accepted(index, RtpPacket(ssrc, q, U32(p[4], p[5], p[6], p[7]), p[1] >= 128, p[1] % 128, body.value))
  }

  function Marking(windows: map<u32, Window>, ssrc: u32, index: nat): map<u32, Window>
    requires ssrc in windows ==> !Replayed(windows[ssrc], index)
  {
    windows[ssrc := if ssrc in windows then Advance(windows[ssrc], index) else Opened(index)]
  }

  lemma AcceptedIsNew(k: Keys, windows: map<u32, Window>, p: seq<byte>)
    requires |k.salt| == 14 && Judge(k, windows, p).Accepted?
    ensures var v := Judge(k, windows, p);
            && |p| >= MIN_PACKET && v.packet.ssrc == SsrcOf(p) && v.index < MAX_INDEX
            && (v.packet.ssrc in windows ==> !Replayed(windows[v.packet.ssrc], v.index))
            && (v.packet.ssrc !in windows ==> |windows| < MAX_SOURCES)
  {
    hide Plausible, Crypted, PayloadOffset, Tag, Replayed, Estimate, Unpadded;
    assert Plausible(p);
    PlausibleSize(p);
  }

  lemma PlausibleSize(p: seq<byte>)
    requires Plausible(p)
    ensures |p| >= MIN_PACKET
  {
  }

  /** One datagram: an accepted one is marked in its window, a rejected one leaves no trace. */
  function Receive(k: Keys, windows: map<u32, Window>, p: seq<byte>): (r: (map<u32, Window>, Option<RtpPacket>))
    requires |k.salt| == 14
  {
    match Judge(k, windows, p)
    case Rejected => (windows, None)
    case Accepted(index, packet) =>
      AcceptedIsNew(k, windows, p);
      (Marking(windows, packet.ssrc, index), Some(packet))
  }

  // ----- what a receiver has accepted

  datatype Id = Id(ssrc: u32, index: nat)

  /** The receiver with a history variable: everything it has accepted, in order. */
  datatype Receiver = Receiver(windows: map<u32, Window>, accepted: seq<Id>)

  function Take(k: Keys, r: Receiver, p: seq<byte>): Receiver
    requires |k.salt| == 14
  {
    match Judge(k, r.windows, p)
    case Rejected => r
    case Accepted(index, packet) =>
      AcceptedIsNew(k, r.windows, p);
      Receiver(Marking(r.windows, packet.ssrc, index), r.accepted + [Id(packet.ssrc, index)])
  }

  /** The indices accepted from one source. */
  function IndicesOf(accepted: seq<Id>, ssrc: u32): set<nat> {
    set i | 0 <= i < |accepted| && accepted[i].ssrc == ssrc :: accepted[i].index
  }

  ghost predicate ReceiverOk(r: Receiver) {
    && |r.windows| <= MAX_SOURCES
    && (forall s <- r.windows :: Tracks(r.windows[s], IndicesOf(r.accepted, s)))
    && (forall i :: 0 <= i < |r.accepted| ==> r.accepted[i].ssrc in r.windows)
    && forall i, j :: 0 <= i < j < |r.accepted| ==> r.accepted[i] != r.accepted[j]
  }

  lemma IndicesSnoc(accepted: seq<Id>, id: Id, ssrc: u32)
    ensures IndicesOf(accepted + [id], ssrc) == IndicesOf(accepted, ssrc) + if id.ssrc == ssrc then {id.index} else {}
  {
    var all := accepted + [id];
    forall x | x in IndicesOf(accepted, ssrc) ensures x in IndicesOf(all, ssrc) {
      var i :| 0 <= i < |accepted| && accepted[i].ssrc == ssrc && accepted[i].index == x;
      assert all[i] == accepted[i];
    }
    assert all[|accepted|] == id;
  }

  lemma IndexMember(accepted: seq<Id>, i: nat)
    requires i < |accepted|
    ensures accepted[i].index in IndicesOf(accepted, accepted[i].ssrc)
  {
  }

  lemma NoIndices(accepted: seq<Id>, ssrc: u32)
    requires forall i :: 0 <= i < |accepted| ==> accepted[i].ssrc != ssrc
    ensures IndicesOf(accepted, ssrc) == {}
  {
  }

  lemma MarkedTracks(r: Receiver, ssrc: u32, index: nat)
    requires ReceiverOk(r) && (ssrc in r.windows ==> !Replayed(r.windows[ssrc], index))
    ensures Tracks(Marking(r.windows, ssrc, index)[ssrc], IndicesOf(r.accepted + [Id(ssrc, index)], ssrc))
    ensures Id(ssrc, index) !in r.accepted
  {
    IndicesSnoc(r.accepted, Id(ssrc, index), ssrc);
    if ssrc in r.windows {
      AdvanceTracks(r.windows[ssrc], IndicesOf(r.accepted, ssrc), index);
      ReplayedIff(r.windows[ssrc], IndicesOf(r.accepted, ssrc), index);
    } else {
      NoIndices(r.accepted, ssrc);
      OpenedTracks(index);
      assert {} + {index} == {index};
    }
    hide Tracks, Replayed, Advance, Opened, IndicesOf;
    forall i | 0 <= i < |r.accepted| ensures r.accepted[i] != Id(ssrc, index) {
      IndexMember(r.accepted, i);
    }
  }

  /** Marking keeps the windows in step with the history, and never accepts an identifier again. */
  lemma MarkingOk(r: Receiver, ssrc: u32, index: nat)
    requires ReceiverOk(r) && (ssrc in r.windows ==> !Replayed(r.windows[ssrc], index))
    requires ssrc !in r.windows ==> |r.windows| < MAX_SOURCES
    ensures Id(ssrc, index) !in r.accepted
    ensures ReceiverOk(Receiver(Marking(r.windows, ssrc, index), r.accepted + [Id(ssrc, index)]))
  {
    hide Tracks, Replayed, Advance, Opened, IndicesOf;
    var id := Id(ssrc, index);
    var windows, accepted := Marking(r.windows, ssrc, index), r.accepted + [id];
    MarkedTracks(r, ssrc, index);
    SizePut(r.windows, ssrc, windows[ssrc]);
    forall s <- windows ensures Tracks(windows[s], IndicesOf(accepted, s)) {
      if s != ssrc {
        IndicesSnoc(r.accepted, id, s);
        assert IndicesOf(r.accepted, s) + {} == IndicesOf(r.accepted, s);
      }
    }
  }

  lemma TakeOk(k: Keys, r: Receiver, p: seq<byte>)
    requires |k.salt| == 14 && ReceiverOk(r)
    ensures ReceiverOk(Take(k, r, p))
  {
    if Judge(k, r.windows, p).Accepted? {
      AcceptedIsNew(k, r.windows, p);
      var v := Judge(k, r.windows, p);
      MarkingOk(r, v.packet.ssrc, v.index);
    }
    hide ReceiverOk, Judge, Marking;
  }

  function TakeAll(k: Keys, r: Receiver, ps: seq<seq<byte>>): Receiver
    requires |k.salt| == 14
    decreases |ps|
  {
    if ps == [] then r else TakeAll(k, Take(k, r, ps[0]), ps[1..])
  }

  /** Over any run of datagrams: exact windows, at most 32 sources, and no identifier is accepted twice. */
  lemma {:induction false} ReceiverRuns(k: Keys, r: Receiver, ps: seq<seq<byte>>)
    requires |k.salt| == 14 && ReceiverOk(r)
    ensures ReceiverOk(TakeAll(k, r, ps))
    decreases |ps|
  {
    hide ReceiverOk, Take;
    if ps != [] {
      TakeOk(k, r, ps[0]);
      ReceiverRuns(k, Take(k, r, ps[0]), ps[1..]);
    }
  }

  lemma NewReceiverOk()
    ensures ReceiverOk(Receiver(map[], []))
  {
  }

  // ----- when the estimate is right

  /**
   The estimated index is the true one exactly when the packet is less than 2^15 away from the highest index, or
   exactly 2^15 away within the same rollover period, or in the first period like the highest index.
   */
  predicate WithinReach(highest: nat, index: nat) {
    || -32768 < index - highest < 32768
    || ((index - highest == 32768 || index - highest == -32768) && index / 0x1_0000 == highest / 0x1_0000)
    || (index < 0x1_0000 && highest < 0x1_0000 && index > highest)
  }

  lemma EstimateIff(highest: nat, index: nat)
    ensures GuessRoc(highest, index % 0x1_0000) * 0x1_0000 + index % 0x1_0000 == index <==> WithinReach(highest, index)
  {
    var hr, hl, ir, il := highest / 0x1_0000, highest % 0x1_0000, index / 0x1_0000, index % 0x1_0000;
    assert highest == hr * 0x1_0000 + hl && index == ir * 0x1_0000 + il;
    hide WithinReach;
    assert GuessRoc(highest, il) * 0x1_0000 + il == index <==> GuessRoc(highest, il) == ir;
    RocCases(hr, hl, ir, il);
  }

  /** Beyond that reach it is wrong: 40000 ahead is read in the period before, 40000 behind in the period after. */
  lemma EstimateFails()
    ensures GuessRoc(0x1_0000, (0x1_0000 + 40000) % 0x1_0000) * 0x1_0000 + 40000 == 40000
    ensures GuessRoc(0x1_0000 + 50000, (0x1_0000 + 10000) % 0x1_0000) * 0x1_0000 + 10000 == 0x2_0000 + 10000
  {
  }

  lemma RocCases(hr: nat, hl: u16, ir: nat, il: u16)
    ensures var highest, index := hr * 0x1_0000 + hl, ir * 0x1_0000 + il;
            && highest / 0x1_0000 == hr && highest % 0x1_0000 == hl && index / 0x1_0000 == ir
            && (GuessRoc(highest, il) == ir <==> WithinReach(highest, index))
  {
  }
}
