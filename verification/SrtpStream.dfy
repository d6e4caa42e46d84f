/**
 A protected stream from its sender to a receiver: whatever is lost, duplicated or reordered within reach,
 every accepted packet comes out with its exact index and original payload.
 */
module SrtpStream {
  import opened Bytes
  import opened SrtpCipher
  import opened ReplayWindow
  import opened SrtpModel

  /** What a caller hands to the sender. */
  datatype Message = Message(payload: seq<byte>, timestamp: u32, pt: nat)

  predicate Sendable(m: Message) {
    m.pt <= 127 && !(64 <= m.pt <= 95) && |m.payload| <= MAX_PAYLOAD
  }

  function Header(ssrc: u32, index: nat, m: Message): (h: seq<byte>)
    requires Sendable(m)
    ensures |h| == 12
  {
    var pt: byte := m.pt;
    [0x80, pt] + BE16(index % 0x1_0000) + BE32(m.timestamp) + BE32(ssrc)
  }

  /** The datagram that carries message `m` under packet index `index`. */
  function Wire(k: Keys, ssrc: u32, index: nat, m: Message): seq<byte>
    requires |k.salt| == 14 && Sendable(m) && index < MAX_INDEX
  {
    var covered := Header(ssrc, index, m) + Crypted(k, ssrc, index, m.payload);
    covered + Tag(k, covered, index / 0x1_0000)
  }

  function Original(ssrc: u32, index: nat, m: Message): RtpPacket {
    RtpPacket(ssrc, index % 0x1_0000, m.timestamp, false, m.pt, m.payload)
  }

  lemma TagSize(k: Keys, covered: seq<byte>, roc: u32)
    requires KeysOk(k)
    ensures |Tag(k, covered, roc)| == TAG
  {
  }

  /** The fields a receiver reads from a datagram are the ones the sender wrote. */
  lemma WireFields(k: Keys, ssrc: u32, index: nat, m: Message)
    requires KeysOk(k) && Sendable(m) && index < MAX_INDEX
    ensures var p := Wire(k, ssrc, index, m);
            && |p| == 22 + |m.payload| && SeqnoOf(p) == index % 0x1_0000 && SsrcOf(p) == ssrc
            && U32(p[4], p[5], p[6], p[7]) == m.timestamp && p[1] == m.pt && p[0] == 0x80
  {
    var h := Header(ssrc, index, m);
    var c := Crypted(k, ssrc, index, m.payload);
    TagSize(k, h + c, index / 0x1_0000);
    HeaderFields(ssrc, index, m);
    hide Header, Crypted, Tag, BE16, BE32, U16, U32, KeysOk;
    var p := Wire(k, ssrc, index, m);
    assert p == h + c + Tag(k, h + c, index / 0x1_0000);
    assert forall i :: 0 <= i < 12 ==> p[i] == h[i];
  }

  lemma WireParts(k: Keys, ssrc: u32, index: nat, m: Message)
    requires KeysOk(k) && Sendable(m) && index < MAX_INDEX
    ensures var p := Wire(k, ssrc, index, m); var len := 12 + |m.payload|;
            && |p| == len + TAG && p[12..len] == Crypted(k, ssrc, index, m.payload)
            && Tag(k, p[..len], index / 0x1_0000) == p[len..]
  {
    var h := Header(ssrc, index, m);
    var c := Crypted(k, ssrc, index, m.payload);
    TagSize(k, h + c, index / 0x1_0000);
    hide Header, Crypted, Tag, KeysOk;
    var p := Wire(k, ssrc, index, m);
    assert p[..|h + c|] == h + c && p[|h + c|..] == Tag(k, h + c, index / 0x1_0000);
    assert p[12..|h + c|] == c;
  }

  lemma WirePlausible(p: seq<byte>, m: Message)
    requires Sendable(m) && |p| == 22 + |m.payload| && p[0] == 0x80 && p[1] == m.pt
    ensures Plausible(p) && p[1] < 128 && p[1] % 128 == m.pt
  {
  }

  lemma HeaderFields(ssrc: u32, index: nat, m: Message)
    requires Sendable(m)
    ensures var h := Header(ssrc, index, m);
            && h[0] == 0x80 && h[1] == m.pt && U16(h[2], h[3]) == index % 0x1_0000
            && U32(h[4], h[5], h[6], h[7]) == m.timestamp && U32(h[8], h[9], h[10], h[11]) == ssrc
  {
    hide U16, U32, BE16, BE32;
    var h, a, b, c := Header(ssrc, index, m), BE16(index % 0x1_0000), BE32(m.timestamp), BE32(ssrc);
    assert h[2] == a[0] && h[3] == a[1];
    assert h[4] == b[0] && h[5] == b[1] && h[6] == b[2] && h[7] == b[3];
    assert h[8] == c[0] && h[9] == c[1] && h[10] == c[2] && h[11] == c[3];
  }

  lemma NoExtension(p: seq<byte>, len: nat)
    requires MIN_PACKET <= |p| && len + TAG == |p| && p[0] == 0x80
    ensures PayloadOffset(p, len) == Some(12) && p[0] / 32 % 2 == 0
  {
  }

  /** A datagram of this sender is accepted, with its own index and message, exactly when the window has not seen it. */
  lemma Delivered(k: Keys, windows: map<u32, Window>, ssrc: u32, index: nat, m: Message)
    requires KeysOk(k) && Sendable(m) && index < MAX_INDEX
    requires if ssrc in windows then WithinReach(windows[ssrc].highest, index)
             else index < 0x1_0000 && |windows| < MAX_SOURCES
    ensures Judge(k, windows, Wire(k, ssrc, index, m))
         == if ssrc in windows && Replayed(windows[ssrc], index) then Rejected
            else Accepted(index, Original(ssrc, index, m))
  {
    var p := Wire(k, ssrc, index, m);
    WireFields(k, ssrc, index, m);
    WireParts(k, ssrc, index, m);
    WirePlausible(p, m);
    EstimateExact(windows, ssrc, index);
    NoExtension(p, |p| - TAG);
    CryptedTwice(k, ssrc, index, m.payload);
    hide Wire, Crypted, Tag, Plausible, SeqnoOf, SsrcOf, Estimate, PayloadOffset, Replayed, WithinReach, Unpadded,
      KeysOk,
      U32, Sendable;
    assert Judge(k, windows, p) == if ssrc in windows && Replayed(windows[ssrc], index) then Rejected
                                   else Accepted(index, Original(ssrc, index, m));
  }

  lemma EstimateExact(windows: map<u32, Window>, ssrc: u32, index: nat)
    requires if ssrc in windows then WithinReach(windows[ssrc].highest, index) else index < 0x1_0000
    ensures Estimate(windows, ssrc, index % 0x1_0000) == index
  {
    hide GuessRoc, WithinReach;
    if ssrc in windows {
      EstimateIff(windows[ssrc].highest, index);
    }
  }

  // ----- a whole stream

  function Max(indices: seq<nat>): nat
    requires indices != []
  {
    if |indices| == 1 then indices[0]
    else
      var m := Max(indices[..|indices| - 1]);
      if indices[|indices| - 1] > m then indices[|indices| - 1] else m
  }

  /** The first delivered index is in the first period, every later one near the largest delivered so far. */
  predicate Reachable(indices: seq<nat>) {
    && (indices != [] ==> indices[0] < 0x1_0000)
    && forall j :: 0 < j < |indices| ==> WithinReach(Max(indices[..j]), indices[j])
  }

  /** Delivery `j` is new, and not 128 or more behind. */
  predicate Fresh(indices: seq<nat>, j: nat)
    requires j < |indices|
  {
    j == 0 || (indices[j] !in indices[..j] && Max(indices[..j]) < indices[j] + 128)
  }

  /** What reaches the receiver: a packet of this sender, by its index, or anything else. */
  datatype Datagram = Ours(index: nat) | Other(bytes: seq<byte>)

  /** The packets of this sender, in the order of their delivery. */
  function OursIn(ds: seq<Datagram>): seq<nat> {
    if ds == [] then []
    else
      var before, last := OursIn(ds[..|ds| - 1]), ds[|ds| - 1];
      if last.Ours? then before + [last.index] else before
  }

  predicate SentBefore(messages: seq<Message>, ds: seq<Datagram>) {
    && |messages| <= MAX_INDEX && (forall i :: 0 <= i < |messages| ==> Sendable(messages[i]))
    && forall j :: 0 <= j < |ds| && ds[j].Ours? ==> ds[j].index < |messages|
  }

  /** The windows after delivering these datagrams, in this order, to a receiver with windows `w`. */
  function Delivering(k: Keys, ssrc: u32, messages: seq<Message>, w: map<u32, Window>, ds: seq<Datagram>):
    map<u32, Window>
    requires |k.salt| == 14 && SentBefore(messages, ds)
    decreases |ds|
  {
    if ds == [] then w
    else
      var last := ds[|ds| - 1];
      Receive(k, Delivering(k, ssrc, messages, w, ds[..|ds| - 1]),
              if last.Ours? then Wire(k, ssrc, last.index, messages[last.index]) else last.bytes).0
  }

  /** The datagram is rejected, or accepted from another source. */
  predicate Foreign(k: Keys, w: map<u32, Window>, ssrc: u32, bytes: seq<byte>)
    requires |k.salt| == 14
  {
    Judge(k, w, bytes).Accepted? ==> Judge(k, w, bytes).packet.ssrc != ssrc
  }

  /** There is room for the source when its first packet comes, and no other datagram is accepted as one of its own. */
  predicate Apart(k: Keys, ssrc: u32, messages: seq<Message>, w: map<u32, Window>, ds: seq<Datagram>)
    requires |k.salt| == 14 && SentBefore(messages, ds)
    decreases |ds|
  {
    ds == [] ||
    (var before, last := ds[..|ds| - 1], ds[|ds| - 1];
     var v := Delivering(k, ssrc, messages, w, before);
     && Apart(k, ssrc, messages, w, before)
     && if last.Ours? then ssrc in v || |v| < MAX_SOURCES else Foreign(k, v, ssrc, last.bytes))
  }

  /** A datagram that names another source is foreign, whatever else it holds. */
  lemma OtherSourceIsForeign(k: Keys, w: map<u32, Window>, ssrc: u32, bytes: seq<byte>)
    requires |k.salt| == 14 && |bytes| >= MIN_PACKET && SsrcOf(bytes) != ssrc
    ensures Foreign(k, w, ssrc, bytes)
  {
    hide Judge, SsrcOf;
    if Judge(k, w, bytes).Accepted? {
      AcceptedIsNew(k, w, bytes);
    }
  }

  lemma ForeignKeeps(k: Keys, w: map<u32, Window>, ssrc: u32, bytes: seq<byte>)
    requires |k.salt| == 14 && Foreign(k, w, ssrc, bytes)
    ensures var v := Receive(k, w, bytes).0; (ssrc in v <==> ssrc in w) && (ssrc in w ==> v[ssrc] == w[ssrc])
  {
    hide Judge, Advance, Opened, Replayed;
  }

  /** The set of indices a receiver accepts of these deliveries. */
  function Kept(indices: seq<nat>): set<nat> {
    set j | 0 <= j < |indices| && Fresh(indices, j) :: indices[j]
  }

  lemma KeptSnoc(indices: seq<nat>, i: nat)
    ensures Kept(indices + [i]) == Kept(indices) + if Fresh(indices + [i], |indices|) then {i} else {}
  {
    hide Fresh;
    var all := indices + [i];
    forall j | 0 <= j < |indices| ensures Fresh(all, j) <==> Fresh(indices, j) {
      FreshPrefix(indices, i, j);
    }
    forall x | x in Kept(indices) ensures x in Kept(all) {
      var j :| 0 <= j < |indices| && Fresh(indices, j) && indices[j] == x;
      assert all[j] == x;
    }
    forall x | x in Kept(all) ensures x in Kept(indices) || (x == i && Fresh(all, |indices|)) {
      var j :| 0 <= j < |all| && Fresh(all, j) && all[j] == x;
      if j < |indices| {
        assert indices[j] == x;
      }
    }
  }

  lemma FreshPrefix(indices: seq<nat>, i: nat, j: nat)
    requires j < |indices|
    ensures Fresh(indices + [i], j) <==> Fresh(indices, j)
  {
    assert (indices + [i])[..j] == indices[..j];
  }

  /** Whatever was delivered and is still in reach of the window has been accepted. */
  lemma {:induction false} DeliveredIsKept(indices: seq<nat>, i: nat)
    requires i in indices && Max(indices) < i + WINDOW
    ensures i in Kept(indices)
    decreases |indices|
  {
    var before, last := indices[..|indices| - 1], indices[|indices| - 1];
    assert indices == before + [last];
    KeptSnoc(before, last);
    hide Kept;
    if i in before {
      assert Max(before) <= Max(indices);
      DeliveredIsKept(before, i);
    } else {
      assert indices[..|before|] == before;
    }
  }

  lemma {:induction false} KeptWasDelivered(indices: seq<nat>, i: nat)
    requires i in Kept(indices)
    ensures i in indices
  {
  }

  /** The window of the source is that of these deliveries. */
  ghost predicate Follows(w: map<u32, Window>, ssrc: u32, indices: seq<nat>) {
    if indices == [] then ssrc !in w
    else ssrc in w && w[ssrc].highest == Max(indices) && Tracks(w[ssrc], Kept(indices))
  }

  /** One more delivery to a receiver that already tracks the stream. */
  lemma StreamStep(k: Keys, ssrc: u32, m: Message, before: seq<nat>, i: nat, w: map<u32, Window>)
    requires KeysOk(k) && i < MAX_INDEX && Sendable(m) && before != []
    requires Follows(w, ssrc, before) && WithinReach(Max(before), i)
    ensures Follows(Receive(k, w, Wire(k, ssrc, i, m)).0, ssrc, before + [i])
  {
    hide Tracks, Kept, Fresh, Advance, Replayed, Wire, Judge, WithinReach, Sendable, KeysOk;
    Delivered(k, w, ssrc, i, m);
    ReplayedIsStale(w[ssrc], before, i);
    KeptSnoc(before, i);
    assert (before + [i])[..|before|] == before;
    if Fresh(before + [i], |before|) {
      AdvanceTracks(w[ssrc], Kept(before), i);
    } else {
      assert Kept(before) + {} == Kept(before);
      StaleIsBelow(before, i);
    }
  }

  lemma StaleIsBelow(before: seq<nat>, i: nat)
    requires before != [] && !Fresh(before + [i], |before|)
    ensures i <= Max(before)
  {
    assert (before + [i])[..|before|] == before;
    if i in before {
      MaxIsMax(before, i);
    }
  }

  lemma {:induction false} MaxIsMax(indices: seq<nat>, i: nat)
    requires i in indices
    ensures i <= Max(indices)
    decreases |indices|
  {
    if |indices| > 1 {
      var before := indices[..|indices| - 1];
      assert indices == before + [indices[|indices| - 1]];
      if i in before {
        MaxIsMax(before, i);
      }
    }
  }

  lemma FirstDelivery(k: Keys, ssrc: u32, m: Message, i: nat, w: map<u32, Window>)
    requires KeysOk(k) && i < 0x1_0000 && Sendable(m) && ssrc !in w && |w| < MAX_SOURCES
    ensures Follows(Receive(k, w, Wire(k, ssrc, i, m)).0, ssrc, [i])
  {
    Delivered(k, w, ssrc, i, m);
    OpenedTracks(i);
    KeptSnoc([], i);
    assert [] + [i] == [i] && Kept([]) == {} && {} + {i} == {i};
    hide Tracks, Kept, Wire, Judge;
  }

  lemma OursSnoc(ds: seq<Datagram>, d: Datagram)
    ensures OursIn(ds + [d]) == if d.Ours? then OursIn(ds) + [d.index] else OursIn(ds)
  {
    assert (ds + [d])[..|ds|] == ds;
  }

  /** The receiver's window after the deliveries: its highest index is the largest delivered one. */
  lemma {:induction false} StreamTracked(k: Keys, ssrc: u32, messages: seq<Message>, w: map<u32, Window>,
                                         ds: seq<Datagram>)
    requires KeysOk(k) && SentBefore(messages, ds) && Reachable(OursIn(ds)) && ssrc !in w
    requires Apart(k, ssrc, messages, w, ds)
    ensures Follows(Delivering(k, ssrc, messages, w, ds), ssrc, OursIn(ds))
    decreases |ds|
  {
    hide Follows, Receive, Wire, Sendable, WithinReach, Foreign, Reachable;
    if ds == [] {
      assert Follows(w, ssrc, []) by { NothingFollows(w, ssrc); }
    } else {
      var before, last := ds[..|ds| - 1], ds[|ds| - 1];
      var v, own := Delivering(k, ssrc, messages, w, before), OursIn(before);
      OursReachable(ds);
      StreamTracked(k, ssrc, messages, w, before);
      if last.Other? {
        ForeignFollows(k, v, ssrc, last.bytes, own);
      } else if own == [] {
        FirstFollows(k, ssrc, messages[last.index], last.index, v, ds);
      } else {
        StreamStep(k, ssrc, messages[last.index], own, last.index, v);
      }
    }
  }

  lemma NothingFollows(w: map<u32, Window>, ssrc: u32)
    requires ssrc !in w
    ensures Follows(w, ssrc, [])
  {
  }

  lemma ForeignFollows(k: Keys, w: map<u32, Window>, ssrc: u32, bytes: seq<byte>, indices: seq<nat>)
    requires |k.salt| == 14 && Foreign(k, w, ssrc, bytes) && Follows(w, ssrc, indices)
    ensures Follows(Receive(k, w, bytes).0, ssrc, indices)
  {
    hide Foreign, Receive, Tracks, Kept;
    ForeignKeeps(k, w, ssrc, bytes);
  }

  lemma FirstFollows(k: Keys, ssrc: u32, m: Message, i: nat, w: map<u32, Window>, ds: seq<Datagram>)
    requires KeysOk(k) && Sendable(m) && Follows(w, ssrc, []) && (ssrc in w || |w| < MAX_SOURCES)
    requires OursIn(ds) == [i] && Reachable(OursIn(ds))
    ensures Follows(Receive(k, w, Wire(k, ssrc, i, m)).0, ssrc, [] + [i])
  {
    hide Receive, Wire, Sendable, KeysOk, Tracks, Kept;
    assert [] + [i] == [i];
    FirstDelivery(k, ssrc, m, i, w);
  }

  lemma OursReachable(ds: seq<Datagram>)
    requires ds != [] && Reachable(OursIn(ds))
    ensures var before, last := OursIn(ds[..|ds| - 1]), ds[|ds| - 1];
            Reachable(before) && (last.Ours? && before != [] ==> WithinReach(Max(before), last.index))
  {
    hide Reachable, WithinReach;
    var before, last := OursIn(ds[..|ds| - 1]), ds[|ds| - 1];
    if last.Ours? && before != [] {
      ReachablePrefix(before, last.index);
    } else if before == [] {
      NothingReachable();
    }
  }

  lemma NothingReachable()
    ensures Reachable([])
  {
  }

  lemma ReachablePrefix(before: seq<nat>, i: nat)
    requires Reachable(before + [i]) && before != []
    ensures Reachable(before) && WithinReach(Max(before), i)
  {
    hide WithinReach, Max;
    var all := before + [i];
    assert all[..|before|] == before && all[|before|] == i;
    forall j | 0 < j < |before| ensures WithinReach(Max(before[..j]), before[j]) {
      assert all[..j] == before[..j];
    }
  }

  lemma ReplayedIsStale(w: Window, before: seq<nat>, i: nat)
    requires before != [] && w.highest == Max(before) && Tracks(w, Kept(before))
    ensures Replayed(w, i) <==> !Fresh(before + [i], |before|)
  {
    assert (before + [i])[..|before|] == before;
    ReplayedIff(w, Kept(before), i);
    if i in before && Max(before) < i + WINDOW {
      DeliveredIsKept(before, i);
    }
    if i in Kept(before) {
      KeptWasDelivered(before, i);
    }
    hide Tracks, Kept, Replayed;
  }

  lemma {:induction false} Cut(k: Keys, ssrc: u32, messages: seq<Message>, w: map<u32, Window>, ds: seq<Datagram>,
                               j: nat)
    requires |k.salt| == 14 && SentBefore(messages, ds) && Apart(k, ssrc, messages, w, ds) && Reachable(OursIn(ds))
    requires j <= |ds|
    ensures SentBefore(messages, ds[..j]) && Apart(k, ssrc, messages, w, ds[..j]) && Reachable(OursIn(ds[..j]))
    ensures OursIn(ds[..j]) <= OursIn(ds)
    decreases |ds|
  {
    hide Reachable, Foreign, Sendable;
    if j == |ds| {
      assert ds[..j] == ds;
    } else {
      var before := ds[..|ds| - 1];
      OursReachable(ds);
      Cut(k, ssrc, messages, w, before, j);
      assert before[..j] == ds[..j];
    }
  }

  /**
   A packet of a stream is accepted exactly when it is new and less than 128 behind the largest index delivered before,
   and then the receiver hands out the exact index and the original message: under any loss, duplication and
   reordering within reach, and whatever other datagrams come in between.
   */
  lemma StreamDelivered(k: Keys, ssrc: u32, messages: seq<Message>, w: map<u32, Window>, ds: seq<Datagram>, j: nat)
    requires KeysOk(k) && SentBefore(messages, ds) && Reachable(OursIn(ds)) && ssrc !in w
    requires Apart(k, ssrc, messages, w, ds) && j < |ds| && ds[j].Ours?
    ensures SentBefore(messages, ds[..j]) && Sendable(messages[ds[j].index])
    ensures var i, before := ds[j].index, OursIn(ds[..j]);
            Judge(k, Delivering(k, ssrc, messages, w, ds[..j]), Wire(k, ssrc, i, messages[i]))
            == if Fresh(before + [i], |before|) then Accepted(i, Original(ssrc, i, messages[i])) else Rejected
    ensures OursIn(ds[..j]) + [ds[j].index] <= OursIn(ds)
  {
    hide Tracks, Kept, Fresh, Replayed, Wire, Judge, Reachable, Foreign, Sendable, WithinReach;
    var i, before := ds[j].index, OursIn(ds[..j]);
    Cut(k, ssrc, messages, w, ds, j);
    Cut(k, ssrc, messages, w, ds, j + 1);
    assert ds[..j + 1] == ds[..j] + [ds[j]];
    OursSnoc(ds[..j], ds[j]);
    var v := Delivering(k, ssrc, messages, w, ds[..j]);
    assert ds[..j + 1][..j] == ds[..j];
    StreamTracked(k, ssrc, messages, w, ds[..j]);
    if before == [] {
      FirstReach(i);
      Delivered(k, v, ssrc, i, messages[i]);
      FirstIsFresh(i);
    } else {
      ReachablePrefix(before, i);
      Delivered(k, v, ssrc, i, messages[i]);
      ReplayedIsStale(v[ssrc], before, i);
    }
  }

  lemma FirstReach(i: nat)
    requires Reachable([] + [i])
    ensures i < 0x1_0000
  {
    assert ([] + [i])[0] == i;
  }

  lemma FirstIsFresh(i: nat)
    ensures Fresh([] + [i], 0)
  {
  }
}
