/** Two runs of a new depacketizer with a packet missing: a gap that is recorded, and a loss that nobody notices. */
module LossExamples {
  import opened Bytes
  import opened Hevc
  import opened DepacketizerModel
  import opened PictureDelivery
  import opened Reception
  import opened PictureTheorems
  import opened TimedRuns
  import opened QuietRuns
  import opened GroupFates
  import opened IncompletePictures
  import opened PictureExamples
  import P = Packetization
  import Sums

  lemma ShortSingle(nal: Nal, donl: u16, payload: seq<byte>)
    requires |nal| == 3 && Kind(nal[0]) !in {48, 49}
    requires payload == nal[..2] + [donl / 256, donl % 256] + nal[2..]
    ensures P.Valid(P.Single(nal, donl)) && P.Wire(P.Single(nal, donl), true) == [payload]
    ensures P.Carried(P.Single(nal, donl)) == [nal]
  {
    Spelled16(donl);
  }

  lemma Joined(c: P.Chunk, cs: seq<P.Chunk>)
    requires P.Valid(c) && forall d <- cs :: P.Valid(d)
    ensures (forall d <- [c] + cs :: P.Valid(d))
    ensures P.AllWire([c] + cs, true) == P.Wire(c, true) + P.AllWire(cs, true)
    ensures P.AllCarried([c] + cs) == P.Carried(c) + P.AllCarried(cs)
  {
    assert ([c] + cs)[1..] == cs;
  }

  // ----- a gap

  const FIRST_SLICE := P.Single([38, 1, 128], 9)
  const SECOND_SLICE := P.Single([38, 1, 5], 10)
  const THIRD_SLICE := P.Single([38, 1, 6], 11)
  const SLICES: seq<P.Chunk> := [FIRST_SLICE, SECOND_SLICE, THIRD_SLICE]

  /** Three slices of one picture, each in a packet of its own: numbers 10, 11 and 12. */
  const SLICED := Picture(Key(7, 1000), 10, [[38, 1, 0, 9, 128], [38, 1, 0, 10, 5], [38, 1, 0, 11, 6]])

  lemma SlicedOnTheWire()
    ensures (forall c <- SLICES :: P.Valid(c)) && SLICED.payloads == P.AllWire(SLICES, true) && OpensFirst(SLICES)
  {
    ShortSingle([38, 1, 128], 9, [38, 1, 0, 9, 128]);
    ShortSingle([38, 1, 5], 10, [38, 1, 0, 10, 5]);
    ShortSingle([38, 1, 6], 11, [38, 1, 0, 11, 6]);
    hide P.Wire, P.AllWire, P.AllCarried, P.Valid, P.Carried;
    Joined(THIRD_SLICE, []);
    Joined(SECOND_SLICE, [THIRD_SLICE] + []);
    Joined(FIRST_SLICE, [SECOND_SLICE] + ([THIRD_SLICE] + []));
    assert [FIRST_SLICE] + ([SECOND_SLICE] + ([THIRD_SLICE] + [])) == SLICES;
    NoWire();
    LaterSlices();
  }

  lemma NoWire()
    ensures P.AllWire([], true) == []
  {
  }

  lemma LaterSlices()
    ensures OpensFirst(SLICES)
  {
    assert P.Carried(SECOND_SLICE) == [[38, 1, 5]] && P.Carried(THIRD_SLICE) == [[38, 1, 6]];
    assert Slice([38, 1, 5]) && Slice([38, 1, 6]) && !Opening([38, 1, 5]) && !Opening([38, 1, 6]);
    forall i | 0 < i < |SLICES|
      ensures (exists n <- P.Carried(SLICES[i]) :: Slice(n)) && forall n <- P.Carried(SLICES[i]) :: !Opening(n)
    {
      var n := if i == 1 then [38, 1, 5] else [38, 1, 6];
      assert P.Carried(SLICES[i]) == [n] && n in P.Carried(SLICES[i]) && Slice(n);
    }
  }

  lemma SlicedFits()
    ensures Fits(SLICED) && FramingFixed(SLICED, true) && Size(SLICED) == 3
  {
    var ps: seq<seq<byte>> := SLICED.payloads;
    assert ps[..2][..1] == ps[..1] && ps[..1][..0] == [];
    assert TotalBytes(ps[..1]) == 5 && TotalBytes(ps[..2]) == 10 && TotalBytes(ps) == 15;
  }

  /** The second packet never comes. */
  function GapEvents(pick: Groups -> Key): seq<Event> {
    [Send(SLICED, 0, 0, pick), Send(SLICED, 2, 1, pick)]
  }

  lemma GapArrivals(pick: Groups -> Key)
    requires PicksOldest(pick)
    ensures Arrivals(SLICED, GapEvents(pick)) == [Arrival(0, 0), Arrival(2, 1)]
    ensures forall e <- GapEvents(pick) :: Solo(SLICED, e)
  {
    SlicedFits();
    hide Fits, PicksOldest, Slot, Seqno, PacketOf, Solo, ArrivalBy;
    var events := GapEvents(pick);
    Sent(SLICED, 0, 0, pick);
    Sent(SLICED, 2, 1, pick);
    ArrivalsCons(SLICED, events[0], [events[1]] + []);
    ArrivalsCons(SLICED, events[1], []);
    assert events == [events[0]] + ([events[1]] + []);
  }

  const GAP: seq<Arrival> := [Arrival(0, 0), Arrival(2, 1)]

  lemma GapIsOne()
    ensures Arrived(GAP, 2) && !Arrived(GAP, 1) && Gap(SLICED, GAP) && MarkerAt(SLICED, GAP) == Some(1)
  {
    assert GAP[0].index == 0 && GAP[1].index == 2;
    assert Arrived(GAP, 0);
    assert GAP[..1] == [Arrival(0, 0)] && GAP[..1][..0] == [];
    assert MarkerAt(SLICED, GAP[..1]) == None;
  }

  lemma GapScheduled(pick: Groups -> Key)
    requires PicksOldest(pick)
    ensures Scheduled(SLICED, [], GapEvents(pick), Scope(map[], {SLICED.key}, []), true, 0)
    ensures Within(Init(1), GapEvents(pick), Scope(map[], {SLICED.key}, []))
  {
    SlicedFits();
    NoArrivals(0);
    GapArrivals(pick);
    GapTimely(pick);
    GapTame(pick);
    GapWeighs(pick);
    NewIsOpen(1, SLICED.key);
    hide Tame, Timely, Fits, FramingFixed, PicksOldest, Slot, Seqno, PacketOf, InsideWindow;
    Sent(SLICED, 0, 0, pick);
    assert Sums.Sum(Init(1).groups, GroupBytes) == 0;
  }

  lemma GapTimely(pick: Groups -> Key)
    requires PicksOldest(pick)
    ensures Timely(SLICED, [], GapEvents(pick), 0)
  {
    SlicedFits();
    GapArrivals(pick);
    hide Fits, PicksOldest, Slot, Seqno, PacketOf, Solo;
    PlainWindow(SLICED, [], GapEvents(pick), 0);
  }

  lemma GapTame(pick: Groups -> Key)
    requires PicksOldest(pick)
    ensures forall e <- GapEvents(pick) :: Tame(SLICED, e, Scope(map[], {SLICED.key}, []), true)
  {
    SlicedFits();
    Sent(SLICED, 0, 0, pick);
    Sent(SLICED, 2, 1, pick);
    hide Fits, PicksOldest, Slot, Seqno, PacketOf, NeverShows;
  }

  lemma GapWeighs(pick: Groups -> Key)
    ensures Weights(GapEvents(pick)) == 10
  {
    hide Seqno;
    var events := GapEvents(pick);
    WeightsCons(events[1], []);
    WeightsCons(events[0], [events[1]] + []);
    assert events == [events[0]] + ([events[1]] + []);
  }

  /**
   From a new connection: packets 10 and 12 of a picture come, 11 does not. 25 ms after the marker exactly one loss is
   recorded, a gap, and the picture is not handed out.
   */
  lemma GapIsRecorded(pick: Groups -> Key)
    requires PicksOldest(pick)
    ensures var r := RunEvents(Init(1), GapEvents(pick) + [PollEvent(26)]);
            exists n: nat :: Only(r.log, 0, n, SLICED.key) && r.log[n] == Lost(SequenceGap, SLICED.key)
  {
    hide *;
    var s, scope := Init(1), Scope(map[], {SLICED.key}, []);
    SlicedOnTheWire();
    SlicedFits();
    NewIsOpen(1, SLICED.key);
    GapArrivals(pick);
    GapScheduled(pick);
    GapIsOne();
    GapEnds();
    TwoEvents(pick);
    NoneHeld(s, 26);
    EndedPictureIsDecided(s, SLICED, GapEvents(pick), scope, true, 0, 26);
    var b, fate := PictureMeetsFate(s, SLICED, SLICES, GapEvents(pick), PollEvent(26), true);
    NoneByPoll(SLICED, 26);
    assert GAP + [] == GAP;
    GapFate(s, b, RunEvents(s, GapEvents(pick) + [PollEvent(26)]), fate, b.haveKey);
  }

  lemma TwoEvents(pick: Groups -> Key)
    ensures GapEvents(pick) != [] && GAP == [Arrival(0, 0), Arrival(2, 1)]
  {
  }

  lemma NoneHeld(s: State, now: nat)
    requires s.groups == map[]
    ensures forall k <- s.groups :: !IsHeld(s.groups[k], now)
  {
  }

  lemma GapEnds()
    requires MarkerAt(SLICED, GAP) == Some(1)
    ensures Ended(SLICED, GAP, 0, 26)
  {
  }

  lemma GapFate(s: State, b: State, r: State, fate: Fate, started: bool)
    requires s.log == [] && Fated(s, b, r, SLICED.key, fate) && Gap(SLICED, GAP) && Arrived(GAP, 2)
    requires Size(SLICED) == 3 && (forall c <- SLICES :: P.Valid(c)) && SLICED.payloads == P.AllWire(SLICES, true)
    requires FateIs(fate, SLICED, SLICES, GAP, true, started)
    ensures exists n: nat :: Only(r.log, 0, n, SLICED.key) && r.log[n] == Lost(SequenceGap, SLICED.key)
  {
    hide Gap, Arrived, P.Valid, P.AllWire;
    assert Only(r.log, 0, |b.log|, SLICED.key);
  }

  // ----- a loss that goes unnoticed

  const VIDEO_SET := P.Single([64, 1, 7], 8)
  const HEADED_CHUNKS: seq<P.Chunk> := [VIDEO_SET, FIRST_SLICE]

  /** A parameter set and a slice, each in a packet of its own. */
  const HEADED := Picture(Key(7, 1000), 65535, [[64, 1, 0, 8, 7], SHORT_PAYLOAD])

  lemma HeadedOnTheWire()
    ensures (forall c <- HEADED_CHUNKS :: P.Valid(c)) && HEADED.payloads == P.AllWire(HEADED_CHUNKS, true)
    ensures P.AllCarried(HEADED_CHUNKS) == [[64, 1, 7], SHORT_SLICE] && P.AllCarried([FIRST_SLICE]) == [SHORT_SLICE]
    ensures |P.Wire(VIDEO_SET, true)| == 1
  {
    ShortSingle([64, 1, 7], 8, [64, 1, 0, 8, 7]);
    ShortSingle([38, 1, 128], 9, [38, 1, 0, 9, 128]);
    hide P.Wire, P.AllWire, P.AllCarried, P.Valid, P.Carried;
    Joined(FIRST_SLICE, []);
    Joined(VIDEO_SET, [FIRST_SLICE] + []);
    assert [FIRST_SLICE] + [] == [FIRST_SLICE] && [VIDEO_SET] + ([FIRST_SLICE] + []) == HEADED_CHUNKS;
    NoWire();
    NothingCarried();
  }

  lemma NothingCarried()
    ensures P.AllCarried([]) == []
  {
  }

  lemma HeadedFits()
    ensures Fits(HEADED) && FramingFixed(HEADED, true) && Size(HEADED) == 2
    ensures PacketAt(HEADED, 1) == PacketAt(Short(HEADED.key), 0)
  {
    var ps: seq<seq<byte>> := HEADED.payloads;
    assert ps[..1][..0] == [] && TotalBytes(ps[..1]) == 5 && TotalBytes(ps) == 10;
  }

  lemma LateStart()
    ensures Starts(HEADED_CHUNKS, true, 1) == Some(1) && HEADED_CHUNKS[1..] == [FIRST_SLICE]
  {
    HeadedOnTheWire();
    hide P.Wire, P.Valid;
    assert HEADED_CHUNKS[1..] == [FIRST_SLICE];
  }

  lemma OnlySecond()
    ensures var ds := [Arrival(1, 0)]; !Arrived(ds, 0) && Arrived(ds, 1) && !Gap(HEADED, ds)
  {
    HeadedFits();
    var ds := [Arrival(1, 0)];
    assert ds[0].index == 1;
  }

  lemma ShortOpens()
    ensures Opening(SHORT_SLICE)
  {
  }

  lemma NotNoticed()
    ensures !Noticed(HEADED, HEADED_CHUNKS, [Arrival(1, 0)], true)
  {
    var ds := [Arrival(1, 0)];
    HeadedOnTheWire();
    HeadedFits();
    LateStart();
    hide P.Wire, P.AllWire, P.AllCarried, P.Valid, Fits, Starts, Arrived;
    OnlySecond();
    ShortOpens();
    assert SHORT_SLICE in P.AllCarried(HEADED_CHUNKS[1..]);
    forall k | 0 <= k < Size(HEADED) && Tail(HEADED, ds, k) ensures k == 1 {
      assert Arrived(ds, 0) <==> 0 >= k;
    }
  }

  /**
   From a new connection: the packet with the parameter set is lost, and only the slice behind it comes. It is handed
   out as if it were the whole picture, and no loss is recorded.
   */
  lemma LostHeadGoesUnnoticed(pick: Groups -> Key)
    requires PicksOldest(pick)
    ensures Fits(HEADED) && (forall c <- HEADED_CHUNKS :: P.Valid(c)) && Size(HEADED) == 2
    ensures HEADED.payloads == P.AllWire(HEADED_CHUNKS, true) && !Noticed(HEADED, HEADED_CHUNKS, [Arrival(1, 0)], true)
    ensures HandsOut(Found(Init(1), 7), Apply(Apply(Init(1), Send(HEADED, 1, 0, pick)), PollEvent(50)), HEADED.key,
                     [SHORT_SLICE], 9)
  {
    hide *;
    HeadedOnTheWire();
    HeadedFits();
    NotNoticed();
    NewIsOpen(1, HEADED.key);
    NewSettled();
    HeadedKey();
    SameSend(pick);
    OnePacketPicture(Init(1), HEADED.key, 0, 50, pick);
  }

  lemma HeadedKey()
    ensures HEADED.key.ssrc == 7
  {
  }

  lemma SameSend(pick: Groups -> Key)
    ensures Size(HEADED) == 2 && Size(Short(HEADED.key)) == 1
    ensures Send(HEADED, 1, 0, pick) == Send(Short(HEADED.key), 0, 0, pick)
  {
    HeadedFits();
    hide Seqno;
  }
}
