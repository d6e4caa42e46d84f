/**
 A picture as packets on the wire, and the group that its packets build up in whatever order and with whatever
 duplicates they arrive.
 */
module PictureDelivery {
  import opened Bytes
  import opened Hevc
  import opened DepacketizerModel
  import opened DepacketizerInvariants
  import opened SequenceOrder
  import opened Sums
  import P = Packetization

  // ----- a picture as packets

  /** One access unit on the wire: payloads in a wrapping run of sequence numbers, the marker on the last. */
  datatype Picture = Picture(key: Key, start: u16, payloads: seq<seq<byte>>)

  function Size(pic: Picture): nat {
    |pic.payloads|
  }

  function Seqno(pic: Picture, i: nat): u16 {
    (pic.start + i) % 0x1_0000
  }

  function PacketAt(pic: Picture, i: nat): Packet
    requires i < Size(pic)
  {
    Packet(pic.key.ssrc, Seqno(pic, i), pic.key.timestamp, i == Size(pic) - 1, pic.payloads[i])
  }

  function EndOf(pic: Picture): u16
    requires Size(pic) > 0
  {
    Seqno(pic, Size(pic) - 1)
  }

  /** The position in the picture that sequence number `q` would have. */
  function Slot(pic: Picture, q: u16): (i: nat)
    ensures i < 0x1_0000
  {
    (q - pic.start) % 0x1_0000
  }

  lemma SlotInverts(pic: Picture, q: u16, i: nat)
    requires i < 0x1_0000
    ensures Slot(pic, Seqno(pic, i)) == i && Seqno(pic, Slot(pic, q)) == q
  {
  }

  /** The first `n` packets, by sequence number. */
  function FirstPackets(pic: Picture, n: nat): map<u16, Packet>
    requires n <= Size(pic)
  {
    map q: u16 | 0 <= q < 0x1_0000 && Slot(pic, q) < n :: PacketAt(pic, Slot(pic, q))
  }

  function Packets(pic: Picture): map<u16, Packet> {
    FirstPackets(pic, Size(pic))
  }

  function TotalBytes(payloads: seq<seq<byte>>): nat {
    if payloads == [] then 0 else TotalBytes(payloads[..|payloads| - 1]) + |payloads[|payloads| - 1]|
  }

  predicate Fits(pic: Picture) {
    && 0 < Size(pic) <= MAX_GROUP_PACKETS
    && TotalBytes(pic.payloads) <= MAX_GROUP_BYTES
    && forall b <- pic.payloads :: |b| >= 2
  }

  lemma SeqnoBefore(pic: Picture, k: nat)
    requires k < Size(pic)
    ensures Before(EndOf(pic), k) == Seqno(pic, Size(pic) - 1 - k)
  {
  }

  lemma FirstPacketsStep(pic: Picture, n: nat)
    requires 0 < n <= Size(pic) <= MAX_GROUP_PACKETS
    ensures var m, q := FirstPackets(pic, n - 1), Seqno(pic, n - 1);
            q !in m && FirstPackets(pic, n) == m[q := PacketAt(pic, n - 1)]
  {
    hide Seqno, Slot, PacketAt;
    var q := Seqno(pic, n - 1);
    SlotInverts(pic, q, n - 1);
    var m := FirstPackets(pic, n - 1);
    forall x: u16 ensures Slot(pic, x) == n - 1 <==> x == q {
      SlotInverts(pic, x, n - 1);
    }
  }

  lemma {:induction false} FirstPacketsFacts(pic: Picture, n: nat)
    requires n <= Size(pic) <= MAX_GROUP_PACKETS
    ensures |FirstPackets(pic, n)| == n
    ensures Sum(FirstPackets(pic, n), PayloadSize) == TotalBytes(pic.payloads[..n])
  {
    hide Seqno, Slot, Sum;
    if n == 0 {
      assert FirstPackets(pic, 0) == map[];
      SumEmpty();
    } else {
      FirstPacketsFacts(pic, n - 1);
      FirstPacketsStep(pic, n);
      hide FirstPackets;
      var m, q, p := FirstPackets(pic, n - 1), Seqno(pic, n - 1), PacketAt(pic, n - 1);
      SizePut(m, q, p);
      SumAdd(m, PayloadSize, q, p);
      assert pic.payloads[..n][..n - 1] == pic.payloads[..n - 1];
    }
  }

  lemma PacketsMembers(pic: Picture, i: nat)
    requires i < Size(pic) <= MAX_GROUP_PACKETS
    ensures Seqno(pic, i) in Packets(pic) && Packets(pic)[Seqno(pic, i)] == PacketAt(pic, i)
  {
    SlotInverts(pic, 0, i);
  }

  lemma PacketsKeyed(pic: Picture)
    requires Size(pic) <= MAX_GROUP_PACKETS
    ensures Keyed(Packets(pic))
  {
    forall q <- Packets(pic) ensures Packets(pic)[q].seqno == q {
      SlotInverts(pic, q, 0);
    }
  }

  lemma SumEmpty()
    ensures Sum<u16, Packet>(map[], PayloadSize) == 0
  {
  }

  lemma PacketBefore(pic: Picture, k: nat)
    requires Fits(pic) && k < Size(pic)
    ensures var q := Before(EndOf(pic), k);
            q in Packets(pic) && Packets(pic)[q].payload == pic.payloads[Size(pic) - 1 - k]
  {
    SeqnoBefore(pic, k);
    PacketsMembers(pic, Size(pic) - 1 - k);
  }

  lemma CompleteIsRun(pic: Picture)
    requires Fits(pic)
    ensures IsRun(Packets(pic), EndOf(pic)) && Keyed(Packets(pic)) && |Packets(pic)| == Size(pic)
  {
    FirstPacketsFacts(pic, Size(pic));
    PacketsKeyed(pic);
    hide Before, EndOf, Slot, Seqno, PacketAt;
    forall k | 0 <= k < |Packets(pic)| ensures Before(EndOf(pic), k) in Packets(pic) {
      PacketBefore(pic, k);
    }
  }

  /** The complete picture passes the sort and the adjacency check, in its original order. */
  lemma CompleteInOrder(pic: Picture)
    requires Fits(pic)
    ensures var ps := InOrder(Packets(pic), EndOf(pic), 0x1_0000);
            Adjacent(ps) && Payloads(ps) == pic.payloads
  {
    hide *;
    SizeIs(pic);
    CompleteIsRun(pic);
    RunIsAdjacent(Packets(pic), EndOf(pic));
    RunOrder(Packets(pic), EndOf(pic));
    var ps := InOrder(Packets(pic), EndOf(pic), 0x1_0000);
    forall i | 0 <= i < |ps| ensures Payloads(ps)[i] == pic.payloads[i] {
      PacketBefore(pic, |ps| - 1 - i);
      assert ps[i] == Packets(pic)[Before(EndOf(pic), |ps| - 1 - i)];
    }
  }

  lemma SizeIs(pic: Picture)
    requires Fits(pic)
    ensures 0 < Size(pic) == |pic.payloads| <= 0x1_0000
  {
  }

  // ----- a group while the picture arrives

  /** Packet `index` of the picture arrives at time `at`. */
  datatype Arrival = Arrival(index: nat, at: nat)

  predicate ArrivalsOf(pic: Picture, ds: seq<Arrival>) {
    forall d <- ds :: d.index < Size(pic)
  }

  /** The group that the arrivals build up; later copies of a packet change nothing. */
  function Gathered(pic: Picture, ds: seq<Arrival>, order: nat): Group
    requires ds != [] && ArrivalsOf(pic, ds)
    decreases |ds|
  {
    var last := ds[|ds| - 1];
    AddPacket(if |ds| == 1 then NewGroup(order, last.at) else Gathered(pic, ds[..|ds| - 1], order),
              PacketAt(pic, last.index), last.at)
  }

  predicate PartOf(m: map<u16, Packet>, n: map<u16, Packet>) {
    forall q <- m :: q in n && m[q] == n[q]
  }

  lemma {:induction false} GatheredFacts(pic: Picture, ds: seq<Arrival>, order: nat)
    requires Fits(pic) && ds != [] && ArrivalsOf(pic, ds)
    ensures var g := Gathered(pic, ds, order);
            Growing(pic.key, g) && g.order == order && PartOf(g.packets, Packets(pic))
    decreases |ds|
  {
    var last := ds[|ds| - 1];
    var before := ds[..|ds| - 1];
    hide Seqno, Growing, Packets, AddPacket, TotalBytes;
    var prior := if |ds| == 1 then NewGroup(order, last.at) else Gathered(pic, before, order);
    if |ds| > 1 {
      GatheredFacts(pic, before, order);
    }
    assert pic.payloads[last.index] in pic.payloads;
    AddPacketOk(pic.key, prior, PacketAt(pic, last.index), last.at);
    PacketsMembers(pic, last.index);
    AddedPart(prior, PacketAt(pic, last.index), last.at, Packets(pic));
  }

  lemma AddedPart(g: Group, p: Packet, now: nat, all: map<u16, Packet>)
    requires PartOf(g.packets, all) && p.seqno in all && all[p.seqno] == p
    ensures PartOf(AddPacket(g, p, now).packets, all)
  {
  }

  /** Every packet that has arrived is in the group. */
  lemma {:induction false} GatheredHas(pic: Picture, ds: seq<Arrival>, order: nat, k: nat)
    requires ds != [] && ArrivalsOf(pic, ds) && k < |ds|
    ensures Seqno(pic, ds[k].index) in Gathered(pic, ds, order).packets
    decreases |ds|
  {
    hide Seqno;
    if k < |ds| - 1 {
      GatheredHas(pic, ds[..|ds| - 1], order, k);
    }
  }

  lemma {:induction false} SumPart(m: map<u16, Packet>, n: map<u16, Packet>)
    requires PartOf(m, n)
    ensures Sum(m, PayloadSize) <= Sum(n, PayloadSize) && |m| <= |n|
    decreases |m|
  {
    if m != map[] {
      var q :| q in m;
      SumTake(m, PayloadSize, q);
      SumTake(n, PayloadSize, q);
      SizeRemove(m, q);
      SizeRemove(n, q);
      SumPart(m - {q}, n - {q});
    }
  }

  /** The group never outgrows its limits: it holds part of a picture that fits. */
  lemma GatheredFits(pic: Picture, ds: seq<Arrival>, order: nat)
    requires Fits(pic) && ds != [] && ArrivalsOf(pic, ds)
    ensures var g := Gathered(pic, ds, order); g.bytes <= MAX_GROUP_BYTES && |g.packets| <= MAX_GROUP_PACKETS
  {
    GatheredFacts(pic, ds, order);
    FirstPacketsFacts(pic, Size(pic));
    assert pic.payloads[..Size(pic)] == pic.payloads;
    SumPart(Gathered(pic, ds, order).packets, Packets(pic));
  }

  predicate Arrived(ds: seq<Arrival>, i: nat) {
    exists k :: 0 <= k < |ds| && ds[k].index == i
  }

  predicate Complete(pic: Picture, ds: seq<Arrival>) {
    forall i :: 0 <= i < Size(pic) ==> Arrived(ds, i)
  }

  lemma CompleteHas(pic: Picture, ds: seq<Arrival>, order: nat, i: nat)
    requires Fits(pic) && ds != [] && ArrivalsOf(pic, ds) && Complete(pic, ds) && i < Size(pic)
    ensures Seqno(pic, i) in Gathered(pic, ds, order).packets
  {
    hide Seqno, Gathered;
    assert Arrived(ds, i);
    var k :| 0 <= k < |ds| && ds[k].index == i;
    GatheredHas(pic, ds, order, k);
  }

  lemma OnlyMarker(pic: Picture, q: u16)
    requires Fits(pic) && q in Packets(pic)
    ensures Packets(pic)[q].marker <==> q == EndOf(pic)
  {
    SlotInverts(pic, q, Size(pic) - 1);
  }

  lemma GatheredComplete(pic: Picture, ds: seq<Arrival>, order: nat)
    requires Fits(pic) && ds != [] && ArrivalsOf(pic, ds) && Complete(pic, ds)
    ensures var g := Gathered(pic, ds, order); g.packets == Packets(pic) && g.marker == Some(EndOf(pic))
  {
    var g, m := Gathered(pic, ds, order), Packets(pic);
    GatheredFacts(pic, ds, order);
    forall q <- m ensures q in g.packets {
      SlotInverts(pic, q, 0);
      CompleteHas(pic, ds, order, Slot(pic, q));
    }
    assert g.packets == m;
    hide Packets, Gathered, EndOf;
    PacketsEnd(pic);
    OnlyMarker(pic, EndOf(pic));
    if g.marker.Some? {
      OnlyMarker(pic, g.marker.value);
    }
  }

  lemma PacketsEnd(pic: Picture)
    requires Fits(pic)
    ensures EndOf(pic) in Packets(pic)
  {
    PacketsMembers(pic, Size(pic) - 1);
  }

  /** No packet of a picture that fits is larger than a group may be. */
  lemma PacketFits(pic: Picture, i: nat)
    requires Fits(pic) && i < Size(pic)
    ensures 2 <= |pic.payloads[i]| <= MAX_GROUP_BYTES
  {
    var ds := [Arrival(i, 0)];
    assert pic.payloads[i] in pic.payloads;
    hide Seqno;
    GatheredFits(pic, ds, 0);
  }

  // ----- the framing, and the hold timers

  /** No payload of the picture shows the other framing. */
  predicate NeverShows(b: seq<byte>, apple: bool)
    requires |b| >= 2
  {
    Kind(b[0]) == 48 ==>
      !(P.ParseFrom(b, if apple then 2 else 4, []).Some? && P.ParseFrom(b, if apple then 4 else 2, []).None?)
  }

  predicate FramingFixed(pic: Picture, apple: bool)
    requires Fits(pic)
  {
    forall b <- pic.payloads :: NeverShows(b, apple)
  }

  lemma ArrivalsSnoc(pic: Picture, ds: seq<Arrival>, d: Arrival)
    requires ArrivalsOf(pic, ds) && d.index < Size(pic)
    ensures ArrivalsOf(pic, ds + [d]) && (ds + [d])[..|ds|] == ds
  {
  }

  /** One more arrival joins the group, or makes it. */
  lemma GatheredSnoc(pic: Picture, ds: seq<Arrival>, d: Arrival, order: nat)
    requires ArrivalsOf(pic, ds) && d.index < Size(pic)
    ensures ArrivalsOf(pic, ds + [d])
    ensures Gathered(pic, ds + [d], order)
         == AddPacket(if ds == [] then NewGroup(order, d.at) else Gathered(pic, ds, order), PacketAt(pic, d.index),
                      d.at)
  {
    ArrivalsSnoc(pic, ds, d);
    hide AddPacket;
  }

  lemma {:induction false} OrderIrrelevant(pic: Picture, ds: seq<Arrival>, order: nat)
    requires ds != [] && ArrivalsOf(pic, ds)
    ensures Gathered(pic, ds, order) == Gathered(pic, ds, 0).(order := order)
    decreases |ds|
  {
    if |ds| > 1 {
      OrderIrrelevant(pic, ds[..|ds| - 1], order);
    }
  }

  /** The hold timers of the group keep it waiting at `now`. */
  predicate StillHeld(pic: Picture, ds: seq<Arrival>, now: nat)
    requires ds != [] && ArrivalsOf(pic, ds)
  {
    IsHeld(Gathered(pic, ds, 0), now)
  }

  lemma HeldAtAnyOrder(pic: Picture, ds: seq<Arrival>, order: nat, now: nat)
    requires ds != [] && ArrivalsOf(pic, ds)
    ensures StillHeld(pic, ds, now) <==> IsHeld(Gathered(pic, ds, order), now)
  {
    OrderIrrelevant(pic, ds, order);
    hide Gathered;
  }

  /** When the last packet of the picture first came in. */
  function MarkerAt(pic: Picture, ds: seq<Arrival>): Option<nat> {
    if ds == [] then None
    else
      var before := MarkerAt(pic, ds[..|ds| - 1]);
      if before.None? && ds[|ds| - 1].index == Size(pic) - 1 then Some(ds[|ds| - 1].at) else before
  }

  /** Every arrival falls within the idle time of the first one. */
  predicate InsideWindow(ds: seq<Arrival>, from: nat) {
    forall d <- ds :: from <= d.at < from + INCOMPLETE_IDLE_MS
  }

  lemma {:induction false} GatheredTimes(pic: Picture, ds: seq<Arrival>, order: nat, from: nat)
    requires Fits(pic) && ds != [] && ArrivalsOf(pic, ds) && InsideWindow(ds, from)
    ensures var g := Gathered(pic, ds, order);
            && from <= g.first && from <= g.lastPacket < from + INCOMPLETE_IDLE_MS
            && g.markerAt == MarkerAt(pic, ds)
            && (g.marker.Some? <==> g.markerAt.Some?)
            && (Seqno(pic, Size(pic) - 1) in g.packets ==> g.marker.Some?)
            && forall q <- g.packets :: Slot(pic, q) < Size(pic) && q == Seqno(pic, Slot(pic, q))
    decreases |ds|
  {
    hide Slot, Seqno;
    var last, before := ds[|ds| - 1], ds[..|ds| - 1];
    assert last in ds;
    SlotInverts(pic, 0, last.index);
    SlotInverts(pic, 0, Size(pic) - 1);
    if |ds| > 1 {
      GatheredTimes(pic, before, order, from);
    }
  }

  /** Until its last packet is in, a group waits 200 ms for the next one; from then on 25 ms, whatever else comes. */
  lemma TimersAre(pic: Picture, ds: seq<Arrival>, from: nat, now: nat)
    requires Fits(pic) && ds != [] && ArrivalsOf(pic, ds) && InsideWindow(ds, from)
    requires MarkerAt(pic, ds).None? ==> now < from + INCOMPLETE_IDLE_MS
    ensures StillHeld(pic, ds, now)
       <==> (MarkerAt(pic, ds).Some? ==> SatSub(now, MarkerAt(pic, ds).value) < HOLD_MS)
  {
    GatheredTimes(pic, ds, 0, from);
    hide Gathered, MarkerAt, Fits;
  }

  /** A complete picture has its last packet. */
  lemma {:induction false} MarkerComes(pic: Picture, ds: seq<Arrival>, k: nat)
    requires k < |ds| && ds[k].index == Size(pic) - 1
    ensures MarkerAt(pic, ds).Some?
    decreases |ds|
  {
    if k < |ds| - 1 {
      MarkerComes(pic, ds[..|ds| - 1], k);
    }
  }
}
