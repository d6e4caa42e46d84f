/**
 Pictures that lose packets: over every run, what becomes of them, and exactly when the loss is noticed.
 */
module IncompletePictures {
  import opened Bytes
  import opened Hevc
  import opened DepacketizerModel
  import opened DepacketizerInvariants
  import opened SequenceOrder
  import opened PictureDelivery
  import opened QueueOrder
  import opened PictureRuns
  import opened PictureTheorems
  import opened TimedRuns
  import opened GroupFates
  import P = Packetization
  import Sums

  // ----- the group that some of the packets build up

  lemma {:induction false} GatheredOnly(pic: Picture, ds: seq<Arrival>, order: nat, i: nat)
    requires Fits(pic) && ds != [] && ArrivalsOf(pic, ds) && i < Size(pic)
    requires Seqno(pic, i) in Gathered(pic, ds, order).packets
    ensures Arrived(ds, i)
    decreases |ds|
  {
    hide Seqno;
    var last, before := ds[|ds| - 1], ds[..|ds| - 1];
    SlotInverts(pic, 0, i);
    SlotInverts(pic, 0, last.index);
    if Seqno(pic, i) == Seqno(pic, last.index) {
      assert ds[|ds| - 1].index == i;
    } else {
      assert |ds| > 1;
      GatheredOnly(pic, before, order, i);
      ArrivedGrows(before, last, i);
      assert before + [last] == ds;
    }
  }

  lemma ArrivedGrows(ds: seq<Arrival>, d: Arrival, i: nat)
    requires Arrived(ds, i)
    ensures Arrived(ds + [d], i)
  {
    var k :| 0 <= k < |ds| && ds[k].index == i;
    assert (ds + [d])[k].index == i;
  }

  /** A packet is in the group exactly if it has arrived. */
  lemma GatheredIff(pic: Picture, ds: seq<Arrival>, order: nat, i: nat)
    requires Fits(pic) && ds != [] && ArrivalsOf(pic, ds) && i < Size(pic)
    ensures var m := Gathered(pic, ds, order).packets;
            && (Seqno(pic, i) in m <==> Arrived(ds, i))
            && (Arrived(ds, i) ==> m[Seqno(pic, i)] == PacketAt(pic, i))
  {
    hide Seqno, Gathered, Packets, PacketAt;
    GatheredFacts(pic, ds, order);
    PacketsMembers(pic, i);
    if Seqno(pic, i) in Gathered(pic, ds, order).packets {
      GatheredOnly(pic, ds, order, i);
    }
    if Arrived(ds, i) {
      var k :| 0 <= k < |ds| && ds[k].index == i;
      GatheredHas(pic, ds, order, k);
    }
  }

  lemma GatheredSlots(pic: Picture, ds: seq<Arrival>, order: nat, q: u16)
    requires Fits(pic) && ds != [] && ArrivalsOf(pic, ds) && q in Gathered(pic, ds, order).packets
    ensures Slot(pic, q) < Size(pic) && Seqno(pic, Slot(pic, q)) == q
  {
    GatheredFacts(pic, ds, order);
    SlotInverts(pic, q, 0);
  }

  lemma GatheredMarker(pic: Picture, ds: seq<Arrival>, order: nat)
    requires Fits(pic) && ds != [] && ArrivalsOf(pic, ds)
    ensures Gathered(pic, ds, order).marker == if Arrived(ds, Size(pic) - 1) then Some(EndOf(pic)) else None
  {
    hide Gathered, Packets, Slot, Seqno;
    var g := Gathered(pic, ds, order);
    GatheredFacts(pic, ds, order);
    GatheredIff(pic, ds, order, Size(pic) - 1);
    OnlyMarker(pic, EndOf(pic)) by { PacketsEnd(pic); }
    if g.marker.Some? {
      OnlyMarker(pic, g.marker.value);
    }
  }

  lemma GatheredKeyed(pic: Picture, ds: seq<Arrival>, order: nat)
    requires Fits(pic) && ds != [] && ArrivalsOf(pic, ds)
    ensures Keyed(Gathered(pic, ds, order).packets) && |Gathered(pic, ds, order).packets| <= Size(pic)
  {
    GatheredFacts(pic, ds, order);
    FirstPacketsFacts(pic, Size(pic));
    hide Gathered, Packets, TotalBytes;
    var g := Gathered(pic, ds, order);
    SumPart(g.packets, Packets(pic));
    forall q <- g.packets ensures g.packets[q].seqno == q {
      assert PacketOk(pic.key, q, g.packets[q]);
    }
  }

  // ----- a picture of which only the tail has come

  /** Exactly the packets from `k` on have arrived. */
  predicate Tail(pic: Picture, ds: seq<Arrival>, k: nat) {
    forall i :: 0 <= i < Size(pic) ==> (Arrived(ds, i) <==> i >= k)
  }

  function TailPackets(pic: Picture, k: nat): map<u16, Packet> {
    map q: u16 | 0 <= q < 0x1_0000 && k <= Slot(pic, q) < Size(pic) :: PacketAt(pic, Slot(pic, q))
  }

  lemma {:induction false} TailSize(pic: Picture, k: nat)
    requires k <= Size(pic) <= MAX_GROUP_PACKETS
    ensures |TailPackets(pic, k)| == Size(pic) - k
    decreases Size(pic) - k
  {
    hide Seqno, Slot, PacketAt;
    if k < Size(pic) {
      TailSize(pic, k + 1);
      var q, m := Seqno(pic, k), TailPackets(pic, k + 1);
      SlotInverts(pic, q, k);
      forall x: u16 ensures Slot(pic, x) == k <==> x == q {
        SlotInverts(pic, x, k);
      }
      assert TailPackets(pic, k) == m[q := PacketAt(pic, k)];
      Sums.SizePut(m, q, PacketAt(pic, k));
    } else {
      assert TailPackets(pic, k) == map[];
    }
  }

  lemma TailGroup(pic: Picture, ds: seq<Arrival>, order: nat, k: nat)
    requires Fits(pic) && ds != [] && ArrivalsOf(pic, ds) && Tail(pic, ds, k)
    ensures Gathered(pic, ds, order).packets == TailPackets(pic, k)
  {
    hide Gathered, Seqno, Slot, PacketAt, Arrived, Fits;
    var m, n := Gathered(pic, ds, order).packets, TailPackets(pic, k);
    forall q | q in m ensures q in n && m[q] == n[q] {
      GatheredSlots(pic, ds, order, q);
      GatheredIff(pic, ds, order, Slot(pic, q));
    }
    forall q | q in n ensures q in m {
      SlotInverts(pic, q, 0);
      GatheredIff(pic, ds, order, Slot(pic, q));
    }
  }

  lemma EndBefore(pic: Picture, j: nat)
    requires j < Size(pic) <= MAX_GROUP_PACKETS
    ensures Before(EndOf(pic), j) == Seqno(pic, Size(pic) - 1 - j)
  {
  }

  lemma EndDistance(pic: Picture, i: nat)
    requires i < Size(pic) <= MAX_GROUP_PACKETS
    ensures Distance(EndOf(pic), Seqno(pic, i)) == Size(pic) - 1 - i
  {
  }

  /** Only a tail passes the check for gaps, and it is put into its original order. */
  lemma TailIsRun(pic: Picture, ds: seq<Arrival>, order: nat, k: nat)
    requires Fits(pic) && ds != [] && ArrivalsOf(pic, ds) && Tail(pic, ds, k) && k < Size(pic)
    ensures var m := Gathered(pic, ds, order).packets;
            IsRun(m, EndOf(pic)) && RunPayloads(m, EndOf(pic)) == pic.payloads[k..]
  {
    hide Gathered, Seqno, Slot, EndOf, Before, Arrived, Distance, Fits;
    var m := Gathered(pic, ds, order).packets;
    SizeIs(pic);
    FitsSize(pic);
    TailGroup(pic, ds, order, k);
    TailSize(pic, k);
    forall j | 0 <= j < |m| ensures Before(EndOf(pic), j) in m {
      EndBefore(pic, j);
      GatheredIff(pic, ds, order, Size(pic) - 1 - j);
    }
    forall i | 0 <= i < |m| ensures RunPayloads(m, EndOf(pic))[i] == pic.payloads[k..][i] {
      EndBefore(pic, |m| - 1 - i);
      GatheredIff(pic, ds, order, k + i);
    }
  }

  lemma FitsSize(pic: Picture)
    requires Fits(pic)
    ensures Size(pic) <= MAX_GROUP_PACKETS
  {
  }

  /** And a run that ends with the last packet is a tail. */
  lemma RunIsTail(pic: Picture, ds: seq<Arrival>, order: nat) returns (k: nat)
    requires Fits(pic) && ds != [] && ArrivalsOf(pic, ds) && Arrived(ds, Size(pic) - 1)
    requires IsRun(Gathered(pic, ds, order).packets, EndOf(pic))
    ensures k < Size(pic) && Tail(pic, ds, k)
  {
    hide Gathered, Seqno, Slot, EndOf, Before, Arrived, Distance, Fits;
    var m := Gathered(pic, ds, order).packets;
    FitsSize(pic);
    GatheredKeyed(pic, ds, order);
    k := Size(pic) - |m|;
    forall i | 0 <= i < Size(pic) ensures Arrived(ds, i) <==> i >= k {
      GatheredIff(pic, ds, order, i);
      EndBefore(pic, Size(pic) - 1 - i);
      EndDistance(pic, i);
      if Seqno(pic, i) in m {
        RunHoldsNoOther(m, EndOf(pic), Seqno(pic, i));
      }
    }
    SizeIs(pic);
    GatheredIff(pic, ds, order, Size(pic) - 1);
  }

  // ----- the tail of a packetised picture

  /** The chunk that begins with packet `k`, if one does. */
  function Starts(cs: seq<P.Chunk>, apple: bool, k: nat): (i: Option<nat>)
    requires forall c <- cs :: P.Valid(c)
    ensures i.Some? ==> i.value <= |cs|
  {
    if k == 0 then Some(0)
    else if cs == [] || k < |P.Wire(cs[0], apple)| then None
    else
      match Starts(cs[1..], apple, k - |P.Wire(cs[0], apple)|)
      case None => None
      case Some(i) => Some(i + 1)
  }

  lemma {:induction false} FragmentsCut(h0: byte, h1: byte, pieces: seq<seq<byte>>, start: bool, donl: u16, apple: bool,
                                        k: nat)
    requires k <= |pieces|
    ensures |P.Fragments(h0, h1, pieces, start, donl, apple)| == |pieces|
    ensures P.Fragments(h0, h1, pieces, start, donl, apple)[k..]
         == P.Fragments(h0, h1, pieces[k..], start && k == 0, donl, apple)
    decreases |pieces|
  {
    hide P.FuIndicator, P.FuHeader, P.Donl;
    if pieces != [] && k > 0 {
      FragmentsCut(h0, h1, pieces[1..], false, donl, apple, k - 1);
      var f := P.Fragments(h0, h1, pieces, start, donl, apple);
      assert f[k..] == f[1..][k - 1..] && f[1..] == P.Fragments(h0, h1, pieces[1..], false, donl, apple);
      assert pieces[1..][k - 1..] == pieces[k..];
    } else if pieces != [] {
      FragmentsCut(h0, h1, pieces[1..], false, donl, apple, 0);
    }
  }

  lemma FragmentIndicator(h0: byte)
    ensures Kind(P.FuIndicator(h0)) == 49 && !StartBit(P.FuHeader(h0, false, true))
    ensures !StartBit(P.FuHeader(h0, false, false))
  {
  }

  /** What begins in the middle of a fragmented unit is refused. */
  lemma MiddleIsRefused(h0: byte, h1: byte, pieces: seq<seq<byte>>, donl: u16, apple: bool, rest: seq<seq<byte>>)
    requires pieces != [] && forall x <- pieces :: |x| > 0
    ensures var r := Reassembled(P.Fragments(h0, h1, pieces, false, donl, apple) + rest, apple);
            r == Failure(FuMissingStart) || r == Failure(FuDonlChanged)
  {
    hide P.FuIndicator, P.FuHeader, Kind, StartBit, EndBit, RebuiltHeader;
    var all := P.Fragments(h0, h1, pieces, false, donl, apple) + rest;
    var b := all[0];
    FragmentIndicator(h0);
    assert b == [P.FuIndicator(h0), h1, P.FuHeader(h0, false, |pieces| == 1)] + P.Donl(donl, apple) + pieces[0];
    assert b[0] == P.FuIndicator(h0) && b[2] == P.FuHeader(h0, false, |pieces| == 1);
    assert |b| > if apple then 5 else 3;
    assert Step(EMPTY, b, apple) == Failure(FuMissingStart) || Step(EMPTY, b, apple) == Failure(FuDonlChanged);
    hide Step;
  }

  lemma {:induction false} TailOfWire(cs: seq<P.Chunk>, apple: bool, k: nat)
    requires (forall c <- cs :: P.Valid(c)) && k < |P.AllWire(cs, apple)|
    ensures var i := Starts(cs, apple, k); var rest := P.AllWire(cs, apple)[k..];
            && (i.Some? ==> i.value < |cs| && rest == P.AllWire(cs[i.value..], apple))
            && (i.None? ==> Reassembled(rest, apple) in {Failure(FuMissingStart), Failure(FuDonlChanged)})
    decreases |cs|
  {
    hide P.Wire, P.Valid, Reassembled;
    if k == 0 {
      assert cs[0..] == cs;
    } else {
      var w, more := P.Wire(cs[0], apple), P.AllWire(cs[1..], apple);
      assert P.AllWire(cs, apple) == w + more;
      if k < |w| {
        MiddleOf(cs[0], apple, k, more);
        assert (w + more)[k..] == w[k..] + more;
      } else {
        TailOfWire(cs[1..], apple, k - |w|);
        assert (w + more)[k..] == more[k - |w|..];
        var i := Starts(cs[1..], apple, k - |w|);
        assert i.Some? ==> cs[1..][i.value..] == cs[i.value + 1..];
      }
    }
  }

  lemma MiddleOf(c: P.Chunk, apple: bool, k: nat, more: seq<seq<byte>>)
    requires P.Valid(c) && 0 < k < |P.Wire(c, apple)|
    ensures Reassembled(P.Wire(c, apple)[k..] + more, apple) in {Failure(FuMissingStart), Failure(FuDonlChanged)}
  {
    hide Reassembled, P.Fragments;
    assert c.Fragmented?;
    FragmentsCut(c.h0, c.h1, c.pieces, true, c.donl, apple, 0);
    FragmentsCut(c.h0, c.h1, c.pieces, true, c.donl, apple, k);
    MiddleIsRefused(c.h0, c.h1, c.pieces[k..], c.donl, apple, more);
  }

  // ----- what becomes of the picture

  /** A packet is missing behind one that has come. */
  predicate Gap(pic: Picture, ds: seq<Arrival>) {
    exists i, j :: 0 <= i < j < Size(pic) && Arrived(ds, i) && !Arrived(ds, j)
  }

  /**
   The fate of the packets that have come: without the last one no marker, with one missing in between a gap; and the
   tail of a picture is refused if it begins within a fragmented unit, or decided by the units it still holds.
   */
  predicate FateIs(fate: Fate, pic: Picture, cs: seq<P.Chunk>, ds: seq<Arrival>, apple: bool, started: bool)
    requires Size(pic) > 0 && (forall c <- cs :: P.Valid(c)) && pic.payloads == P.AllWire(cs, apple)
  {
    && (!Arrived(ds, Size(pic) - 1) ==> fate == Missed(MissingMarker))
    && (Arrived(ds, Size(pic) - 1) && Gap(pic, ds) ==> fate == Missed(SequenceGap))
    && forall k :: 0 <= k < Size(pic) && Tail(pic, ds, k) ==> TailFate(fate, cs, apple, k, started)
  }

  predicate TailFate(fate: Fate, cs: seq<P.Chunk>, apple: bool, k: nat, started: bool)
    requires forall c <- cs :: P.Valid(c)
  {
    match Starts(cs, apple, k)
    case None => fate == Missed(FuMissingStart) || fate == Missed(FuDonlChanged)
    case Some(i) => fate == FateOfUnits(P.AllCarried(cs[i..]), started)
  }

  lemma TailHasNoGap(pic: Picture, ds: seq<Arrival>, k: nat)
    requires Tail(pic, ds, k)
    ensures !Gap(pic, ds)
  {
    hide Arrived;
  }

  lemma TailOrGap(pic: Picture, ds: seq<Arrival>)
    requires Fits(pic) && ds != [] && ArrivalsOf(pic, ds) && Arrived(ds, Size(pic) - 1) && !Gap(pic, ds)
    ensures exists k :: 0 <= k < Size(pic) && Tail(pic, ds, k)
  {
    SizeIs(pic);
    var k := FirstOf(pic, ds, Size(pic) - 1);
    assert Tail(pic, ds, k);
  }

  lemma NoGap(pic: Picture, ds: seq<Arrival>)
    requires !Gap(pic, ds)
    ensures forall i, j :: 0 <= i < j < Size(pic) && Arrived(ds, i) ==> Arrived(ds, j)
  {
    hide Arrived;
  }

  /** The first packet of those that have come, going down from `k`. */
  lemma {:induction false} FirstOf(pic: Picture, ds: seq<Arrival>, k: nat) returns (first: nat)
    requires k < Size(pic) && !Gap(pic, ds) && Arrived(ds, k) && forall i :: k <= i < Size(pic) ==> Arrived(ds, i)
    ensures first < Size(pic) && Tail(pic, ds, first)
    decreases k
  {
    hide Arrived;
    if k > 0 && Arrived(ds, k - 1) {
      first := FirstOf(pic, ds, k - 1);
    } else {
      first := k;
      NoGap(pic, ds);
    }
  }

  lemma MarkerFate(pic: Picture, ds: seq<Arrival>, order: nat, apple: bool, started: bool)
    requires Fits(pic) && ds != [] && ArrivalsOf(pic, ds)
    ensures var fate := FateOf(Gathered(pic, ds, order), apple, started);
            && (!Arrived(ds, Size(pic) - 1) ==> fate == Missed(MissingMarker))
            && (Arrived(ds, Size(pic) - 1) && Gap(pic, ds) ==> fate == Missed(SequenceGap))
  {
    hide Gathered, IsRun, Reassembled, EndOf, Fits, FateOfUnits, Arrived;
    SizeIs(pic);
    GatheredMarker(pic, ds, order);
    if Arrived(ds, Size(pic) - 1) && IsRun(Gathered(pic, ds, order).packets, EndOf(pic)) {
      var k := RunIsTail(pic, ds, order);
      TailHasNoGap(pic, ds, k);
    }
  }

  lemma TailFateIs(pic: Picture, cs: seq<P.Chunk>, ds: seq<Arrival>, order: nat, apple: bool, started: bool, k: nat)
    requires (forall c <- cs :: P.Valid(c)) && pic.payloads == P.AllWire(cs, apple)
    requires Fits(pic) && ds != [] && ArrivalsOf(pic, ds) && Tail(pic, ds, k) && k < Size(pic)
    ensures TailFate(FateOf(Gathered(pic, ds, order), apple, started), cs, apple, k, started)
  {
    hide Gathered, IsRun, Reassembled, EndOf, Fits, FateOfUnits, P.AllWire, P.AllCarried, P.Valid, RunPayloads, P.Read;
    GatheredMarker(pic, ds, order);
    TailIsRun(pic, ds, order, k);
    TailOfWire(cs, apple, k);
    var i := Starts(cs, apple, k);
    if i.Some? {
      assert forall c <- cs[i.value..] :: c in cs;
      P.ReassemblyInvertsPacketization(cs[i.value..], apple);
    }
  }

  /** The fate of a group of these arrivals. */
  lemma ArrivalsDecide(pic: Picture, cs: seq<P.Chunk>, ds: seq<Arrival>, order: nat, apple: bool, started: bool)
    requires (forall c <- cs :: P.Valid(c)) && pic.payloads == P.AllWire(cs, apple)
    requires Fits(pic) && ds != [] && ArrivalsOf(pic, ds)
    ensures FateIs(FateOf(Gathered(pic, ds, order), apple, started), pic, cs, ds, apple, started)
  {
    hide Gathered, FateOf, Fits, TailFate, Tail, Gap, Arrived, P.AllWire, P.Valid;
    MarkerFate(pic, ds, order, apple, started);
    forall k | 0 <= k < Size(pic) && Tail(pic, ds, k)
      ensures TailFate(FateOf(Gathered(pic, ds, order), apple, started), cs, apple, k, started)
    {
      TailFateIs(pic, cs, ds, order, apple, started, k);
    }
  }

  // ----- over every run

  /** The event, a poll or a push, is the first one whose poll gets to the picture when its hold times are over. */
  ghost predicate DecidedBy(t: State, pic: Picture, before: seq<Arrival>, last: Event, apple: bool) {
    && Gentle(t, pic, last, apple) && GetsTo(Reached(t, last), pic.key, last.now)
    && var ds := before + ArrivalBy(pic, last); ds != [] && ArrivalsOf(pic, ds) && !StillHeld(pic, ds, last.now)
  }

  lemma FatedEarlier(s: State, u: State, b: State, r: State, key: Key, fate: Fate)
    requires Fated(u, b, r, key, fate) && s.log <= u.log && Silent(u.log, |s.log|, key)
    ensures Fated(s, b, r, key, fate)
  {
    hide Losses, About;
    forall i | |s.log| <= i < |u.log| ensures !About(r.log[i], key) {
      assert r.log[i] == u.log[i];
    }
  }

  lemma NotLateThen(s: State, u: State, key: Key, g: Group, apple: bool, now: nat)
    requires Kept(s, u, key, Some(g), apple)
    ensures var b := Reaching(u, key, now); !Late(b, key) && (s.haveKey ==> b.haveKey)
  {
    hide Kept, Ahead, Late;
    KeptInv(s, u, key, Some(g), apple);
    AheadInFront(u, key);
    EachKeeps(s, u, key, Some(g), apple, Ahead(u, key), now);
    KeptInv(s, Reaching(u, key, now), key, Some(g), apple);
    KeptLog(s, Reaching(u, key, now), key, Some(g), apple);
    LateIs(Reaching(u, key, now), key);
  }

  /** The event that decides a pending picture, complete or not. */
  lemma EventDecides(s: State, t: State, pic: Picture, cs: seq<P.Chunk>, before: seq<Arrival>, last: Event, apple: bool)
    returns (b: State, fate: Fate)
    requires (forall c <- cs :: P.Valid(c)) && pic.payloads == P.AllWire(cs, apple)
    requires Fits(pic) && FramingFixed(pic, apple) && Stage(s, t, pic, before, apple)
    requires DecidedBy(t, pic, before, last, apple)
    ensures |t.log| <= |b.log| && (s.haveKey ==> b.haveKey) && Size(pic) > 0
    ensures Fated(s, b, Apply(t, last), pic.key, fate)
    ensures FateIs(fate, pic, cs, before + ArrivalBy(pic, last), apple, b.haveKey)
  {
    hide *;
    var u, ds, key := Reached(t, last), before + ArrivalBy(pic, last), pic.key;
    DecidedParts(t, pic, before, last, apple);
    EventReceived(s, t, pic, before, last, apple);
    ReachedGrows(t, last);
    var g := PendingPart(s, u, pic, ds, apple, last.now);
    KeptInv(s, u, key, Some(g), apple);
    KeptLog(s, u, key, Some(g), apple);
    NotLateThen(s, u, key, g, apple, last.now);
    HoldIsOver(g, last.now);
    PollDecides(u, key, last.now);
    b, fate := Reaching(u, key, last.now), FateOf(g, apple, Reaching(u, key, last.now).haveKey);
    FatedGrows(u, b, Poll(u, last.now), key, fate);
    FatedEarlier(s, u, b, Poll(u, last.now), key, fate);
    SizeIs(pic);
    ArrivalsDecide(pic, cs, ds, g.order, apple, b.haveKey);
  }

  lemma FatedGrows(t: State, b: State, r: State, key: Key, fate: Fate)
    requires Fated(t, b, r, key, fate)
    ensures t.log <= b.log
  {
  }

  lemma DecidedParts(t: State, pic: Picture, before: seq<Arrival>, last: Event, apple: bool)
    requires DecidedBy(t, pic, before, last, apple)
    ensures Gentle(t, pic, last, apple) && GetsTo(Reached(t, last), pic.key, last.now)
    ensures var ds := before + ArrivalBy(pic, last); ds != [] && ArrivalsOf(pic, ds) && !StillHeld(pic, ds, last.now)
  {
  }

  lemma PendingPart(s: State, u: State, pic: Picture, ds: seq<Arrival>, apple: bool, now: nat) returns (g: Group)
    requires ArrivalsOf(pic, ds) && ds != [] && Pending(s, u, pic, ds, apple) && !StillHeld(pic, ds, now)
    ensures Kept(s, u, pic.key, Some(g), apple) && g == Gathered(pic, ds, g.order) && !IsHeld(g, now)
  {
    hide Kept, IsHeld;
    g := Part(u, pic, ds).value;
    KeptInv(s, u, pic.key, Some(g), apple);
    HeldAtAnyOrder(pic, ds, g.order, now);
    OrderIrrelevant(pic, ds, g.order);
    GatheredOrder(pic, ds, if pic.key in u.groups then u.groups[pic.key].order else 0);
  }

  lemma {:induction false} GatheredOrder(pic: Picture, ds: seq<Arrival>, order: nat)
    requires ds != [] && ArrivalsOf(pic, ds)
    ensures Gathered(pic, ds, order).order == order
    decreases |ds|
  {
    if |ds| > 1 {
      GatheredOrder(pic, ds[..|ds| - 1], order);
    }
  }

  /**
   Over every run, whatever has arrived of a picture: when its time is over and a poll gets to it, exactly one thing is
   decided about it, or nothing, as the packets that have come say; and nothing was decided about it before.
   */
  lemma PictureMeetsFate(s: State, pic: Picture, cs: seq<P.Chunk>, events: seq<Event>, last: Event, apple: bool)
    returns (b: State, fate: Fate)
    requires (forall c <- cs :: P.Valid(c)) && pic.payloads == P.AllWire(cs, apple)
    requires Fits(pic) && FramingFixed(pic, apple) && Open(s, pic.key, apple)
    requires Undisturbed(s, pic, events, apple)
    requires DecidedBy(RunEvents(s, events), pic, Arrivals(pic, events), last, apple)
    ensures |RunEvents(s, events).log| <= |b.log| && (s.haveKey ==> b.haveKey) && Size(pic) > 0
    ensures Fated(s, b, RunEvents(s, events + [last]), pic.key, fate)
    ensures FateIs(fate, pic, cs, Arrivals(pic, events) + ArrivalBy(pic, last), apple, b.haveKey)
  {
    hide *;
    OpenStage(s, pic, apple);
    RunKeeps(s, s, pic, [], events, apple);
    assert [] + Arrivals(pic, events) == Arrivals(pic, events);
    b, fate := EventDecides(s, RunEvents(s, events), pic, cs, Arrivals(pic, events), last, apple);
    RunSnoc(s, events, last);
  }

  // ----- when a missing packet is noticed

  /**
   The loss is noticed unless what has come is the tail of the picture that begins with a chunk, and that tail holds
   the first slice or no slice at all.
   */
  predicate Noticed(pic: Picture, cs: seq<P.Chunk>, ds: seq<Arrival>, apple: bool)
    requires Size(pic) > 0 && forall c <- cs :: P.Valid(c)
  {
    || !Arrived(ds, Size(pic) - 1) || Gap(pic, ds)
    || exists k :: 0 <= k < Size(pic) && Tail(pic, ds, k) && TailNoticed(cs, apple, k)
  }

  predicate TailNoticed(cs: seq<P.Chunk>, apple: bool, k: nat)
    requires forall c <- cs :: P.Valid(c)
  {
    match Starts(cs, apple, k)
    case None => true
    case Some(i) =>
      var nals := P.AllCarried(cs[i..]); (exists n <- nals :: Slice(n)) && forall n <- nals :: !Opening(n)
  }

  lemma NoticedIff(fate: Fate, pic: Picture, cs: seq<P.Chunk>, ds: seq<Arrival>, apple: bool, started: bool)
    requires (forall c <- cs :: P.Valid(c)) && pic.payloads == P.AllWire(cs, apple) && Fits(pic) && Size(pic) > 0
    requires ds != [] && ArrivalsOf(pic, ds) && FateIs(fate, pic, cs, ds, apple, started)
    ensures fate.Missed? <==> Noticed(pic, cs, ds, apple)
  {
    hide P.AllWire, P.AllCarried, P.Valid, Arrived, Slice, Opening, Intra, Fits, Gap, Tail;
    if Arrived(ds, Size(pic) - 1) && !Gap(pic, ds) {
      TailOrGap(pic, ds);
      var k :| 0 <= k < Size(pic) && Tail(pic, ds, k);
      assert TailFate(fate, cs, apple, k, started);
      assert fate.Missed? <==> TailNoticed(cs, apple, k);
      forall j | 0 <= j < Size(pic) && Tail(pic, ds, j) ensures j == k {
        OneTail(pic, ds, j, k);
      }
    }
  }

  lemma OneTail(pic: Picture, ds: seq<Arrival>, j: nat, k: nat)
    requires j < Size(pic) && k < Size(pic) && Tail(pic, ds, j) && Tail(pic, ds, k)
    ensures j == k
  {
    hide Arrived;
    assert Arrived(ds, j) && Arrived(ds, k);
  }

  /**
   A damaged picture is recorded as exactly one loss, with the epoch one higher, and never handed out, if and only if
   the loss is noticed; otherwise nothing about it is recorded as a loss.
   */
  lemma DamagedPictureIsLost(s: State, pic: Picture, cs: seq<P.Chunk>, events: seq<Event>, last: Event, apple: bool)
    returns (b: State)
    requires (forall c <- cs :: P.Valid(c)) && pic.payloads == P.AllWire(cs, apple)
    requires Fits(pic) && FramingFixed(pic, apple) && Open(s, pic.key, apple)
    requires Undisturbed(s, pic, events, apple)
    requires DecidedBy(RunEvents(s, events), pic, Arrivals(pic, events), last, apple)
    ensures Size(pic) > 0
    ensures var r := RunEvents(s, events + [last]);
            Noticed(pic, cs, Arrivals(pic, events) + ArrivalBy(pic, last), apple)
            <==> LosesOne(s, b, r, pic.key)
    ensures !LosesOne(s, b, RunEvents(s, events + [last]), pic.key) ==>
              forall i :: |s.log| <= i < |RunEvents(s, events + [last]).log| ==>
                !(RunEvents(s, events + [last]).log[i].Lost? && RunEvents(s, events + [last]).log[i].key == pic.key)
  {
    hide *;
    var ds, r := Arrivals(pic, events) + ArrivalBy(pic, last), RunEvents(s, events + [last]);
    var fate;
    b, fate := PictureMeetsFate(s, pic, cs, events, last, apple);
    DecidedParts(RunEvents(s, events), pic, Arrivals(pic, events), last, apple);
    NoticedIff(fate, pic, cs, ds, apple, b.haveKey);
    MissedIs(s, b, r, pic.key, fate);
  }

  /** `r` has decided exactly one thing about the picture since `s`: it is lost. */
  predicate LosesOne(s: State, b: State, r: State, key: Key) {
    && s.log <= b.log <= r.log && Only(r.log, |s.log|, |b.log|, key) && r.log[|b.log|].Lost?
    && Losses(r.log[..|b.log| + 1]) == Losses(r.log[..|b.log|]) + 1
  }

  lemma MissedIs(s: State, b: State, r: State, key: Key, fate: Fate)
    requires Fated(s, b, r, key, fate)
    ensures fate.Missed? <==> LosesOne(s, b, r, key)
    ensures !fate.Missed? ==> forall i :: |s.log| <= i < |r.log| ==> !(r.log[i].Lost? && r.log[i].key == key)
  {
    hide Losses;
    if !fate.Missed? {
      forall i | |s.log| <= i < |r.log| ensures !(r.log[i].Lost? && r.log[i].key == key) {
        assert About(r.log[i], key) ==> fate.Shown? && i == |b.log|;
      }
    }
  }

  // ----- by the clock

  /** The last packet of the picture came 25 ms ago, or it did not come within 400 ms of the first event. */
  predicate Ended(pic: Picture, ds: seq<Arrival>, from: nat, now: nat) {
    if MarkerAt(pic, ds).Some? then now >= MarkerAt(pic, ds).value + 25 else now >= from + 400
  }

  lemma EndedIsOver(pic: Picture, ds: seq<Arrival>, from: nat, now: nat)
    requires Fits(pic) && ds != [] && ArrivalsOf(pic, ds) && InsideWindow(ds, from) && Ended(pic, ds, from, now)
    ensures !StillHeld(pic, ds, now)
  {
    GatheredTimes(pic, ds, 0, from);
    hide Gathered, MarkerAt, Fits;
  }

  /** A scheduled run brings a poll to the picture when its time has ended, whatever has come of it. */
  lemma EndedPictureIsDecided(s: State, pic: Picture, events: seq<Event>, scope: Scope, apple: bool, from: nat,
                              now: nat)
    requires Fits(pic) && FramingFixed(pic, apple) && Open(s, pic.key, apple) && events != []
    requires Scheduled(pic, [], events, scope, apple, from) && Within(s, events, scope)
    requires (forall k <- s.groups :: !IsHeld(s.groups[k], now)) && Ended(pic, Arrivals(pic, events), from, now)
    requires s.tiles == 1 || !Discovering(RunEvents(s, events), now)
    ensures Undisturbed(s, pic, events, apple)
    ensures DecidedBy(RunEvents(s, events), pic, Arrivals(pic, events), PollEvent(now), apple)
  {
    hide *;
    var t, ds := RunEvents(s, events), Arrivals(pic, events);
    OpenStage(s, pic, apple);
    ScheduledRun(s, pic, events, scope, apple, from);
    ScheduledParts(pic, events, scope, apple, from);
    NoArrivals(from);
    TimelyUndisturbed(s, s, pic, [], events, apple, from);
    assert [] + ds == ds;
    FirstIsOwn(pic, events, scope, apple, from);
    LightAtFirst(s, events, scope);
    StageParts(s, t, pic, ds, apple);
    StageArrivals(s, t, pic, ds, apple);
    EndedIsOver(pic, ds, from, now);
    EarlierDue(s, t, pic, ds, scope, Sums.Sum(s.groups, GroupBytes) + Weights(events), apple, now);
    DueClears(t, pic.key, now);
    if s.tiles == 1 {
      OneTileSettled(s, t, pic, ds, apple, now);
    }
    PollDecidesIt(t, pic, ds, apple, now);
  }

  lemma StageArrivals(s: State, t: State, pic: Picture, ds: seq<Arrival>, apple: bool)
    requires Stage(s, t, pic, ds, apple)
    ensures ArrivalsOf(pic, ds)
  {
  }

  lemma FirstIsOwn(pic: Picture, events: seq<Event>, scope: Scope, apple: bool, from: nat)
    requires Scheduled(pic, [], events, scope, apple, from) && events != []
    ensures Arrivals(pic, events) != []
  {
    hide Tame, Timely, InsideWindow;
  }

  lemma PollDecidesIt(t: State, pic: Picture, ds: seq<Arrival>, apple: bool, now: nat)
    requires ds != [] && ArrivalsOf(pic, ds) && !StillHeld(pic, ds, now) && pic.key in t.groups
    requires !Discovering(t, now) && Clears(t, Ahead(t, pic.key), now)
    ensures DecidedBy(t, pic, ds, PollEvent(now), apple)
  {
    hide StillHeld, Discovering, Clears, Ahead;
    assert ds + [] == ds;
  }

  /** The first chunk opens the picture; every later one holds a slice, and none that opens a picture. */
  predicate OpensFirst(cs: seq<P.Chunk>) {
    forall i :: 0 < i < |cs| ==>
      (exists n <- P.Carried(cs[i]) :: Slice(n)) && forall n <- P.Carried(cs[i]) :: !Opening(n)
  }

  lemma {:induction false} LaterCarried(cs: seq<P.Chunk>, i: nat)
    requires OpensFirst(cs) && 0 < i <= |cs|
    ensures forall n <- P.AllCarried(cs[i..]) :: !Opening(n)
    ensures i < |cs| ==> exists n <- P.AllCarried(cs[i..]) :: Slice(n)
    decreases |cs| - i
  {
    hide P.Carried, Slice, Opening;
    if i < |cs| {
      LaterCarried(cs, i + 1);
      assert cs[i..][0] == cs[i] && cs[i..][1..] == cs[i + 1..];
      var n :| n in P.Carried(cs[i]) && Slice(n);
      assert n in P.AllCarried(cs[i..]);
    }
  }

  lemma {:induction false} StartsLater(cs: seq<P.Chunk>, apple: bool, k: nat)
    requires (forall c <- cs :: P.Valid(c)) && k > 0 && Starts(cs, apple, k).Some?
    ensures Starts(cs, apple, k).value > 0
  {
  }

  /** Of a picture that only its first chunk opens, every missing packet is noticed. */
  lemma MissingIsNoticed(pic: Picture, cs: seq<P.Chunk>, ds: seq<Arrival>, apple: bool)
    requires (forall c <- cs :: P.Valid(c)) && pic.payloads == P.AllWire(cs, apple) && Fits(pic) && OpensFirst(cs)
    requires ds != [] && ArrivalsOf(pic, ds) && !Complete(pic, ds)
    ensures Size(pic) > 0 && Noticed(pic, cs, ds, apple)
  {
    hide P.AllWire, P.AllCarried, P.Valid, Arrived, Slice, Opening, OpensFirst, P.Carried;
    SizeIs(pic);
    if Arrived(ds, Size(pic) - 1) && !Gap(pic, ds) {
      TailOrGap(pic, ds);
      var k :| 0 <= k < Size(pic) && Tail(pic, ds, k);
      TailOfWire(cs, apple, k);
      if Starts(cs, apple, k).Some? {
        StartsLater(cs, apple, k);
        LaterCarried(cs, Starts(cs, apple, k).value);
      }
      assert TailNoticed(cs, apple, k);
    }
  }

  /**
   By the clock: of a picture that its first chunk opens at least one packet comes and at least one never does. No unit
   is handed out for it, and exactly one loss is recorded, once its time has ended.
   */
  lemma MissingPacketLosesPicture(s: State, pic: Picture, cs: seq<P.Chunk>, events: seq<Event>, scope: Scope,
                                  apple: bool, from: nat, now: nat) returns (b: State)
    requires (forall c <- cs :: P.Valid(c)) && pic.payloads == P.AllWire(cs, apple) && OpensFirst(cs)
    requires Fits(pic) && FramingFixed(pic, apple) && Open(s, pic.key, apple) && events != []
    requires Scheduled(pic, [], events, scope, apple, from) && Within(s, events, scope)
    requires (forall k <- s.groups :: !IsHeld(s.groups[k], now)) && Ended(pic, Arrivals(pic, events), from, now)
    requires s.tiles == 1 || !Discovering(RunEvents(s, events), now)
    requires !Complete(pic, Arrivals(pic, events))
    ensures LosesOne(s, b, RunEvents(s, events + [PollEvent(now)]), pic.key)
  {
    hide *;
    EndedPictureIsDecided(s, pic, events, scope, apple, from, now);
    b := DamagedPictureIsLost(s, pic, cs, events, PollEvent(now), apple);
    NoneByPoll(pic, now);
    assert Arrivals(pic, events) + [] == Arrivals(pic, events);
    DecidedParts(RunEvents(s, events), pic, Arrivals(pic, events), PollEvent(now), apple);
    MissingIsNoticed(pic, cs, Arrivals(pic, events), apple);
  }

  lemma NoneByPoll(pic: Picture, now: nat)
    ensures ArrivalBy(pic, PollEvent(now)) == []
  {
  }
}
