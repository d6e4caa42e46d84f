/**
 Runs of a new depacketizer that meet the hypotheses of the picture theorems, and one on which a tile index changes.
 */
module PictureExamples {
  import opened Bytes
  import opened Hevc
  import opened DepacketizerModel
  import opened DepacketizerInvariants
  import opened PictureDelivery
  import opened Reception
  import opened PictureRuns
  import opened PictureTheorems
  import opened TimedRuns
  import opened QuietRuns
  import opened HandoffTheorems
  import P = Packetization
  import Sums

  // ----- a key slice on the wire, in two fragments and in one packet

  /** A key slice in two fragments. */
  const SLICE: Nal := [38, 1, 128, 5]
  const SLICE_CHUNK := P.Fragmented(38, 1, [[128], [5]], 9)

  lemma SliceOnTheWire()
    ensures P.Valid(SLICE_CHUNK) && P.AllCarried([SLICE_CHUNK]) == [SLICE]
    ensures P.AllWire([SLICE_CHUNK], true) == [[98, 1, 147, 0, 9, 128], [98, 1, 83, 0, 9, 5]]
  {
    hide P.AllWire, P.AllCarried;
    var pieces: seq<seq<byte>> := [[128], [5]];
    var rest: seq<seq<byte>> := [[5]];
    assert pieces[1..] == rest && rest[1..] == [];
    var donl := P.Donl(9, true);
    assert donl == [0, 9];
    assert P.Fragments(38, 1, [], false, 9, true) == [];
    var first := [P.FuIndicator(38), 1, P.FuHeader(38, true, false)];
    var second := [P.FuIndicator(38), 1, P.FuHeader(38, false, true)];
    assert first + donl + [128] == [98, 1, 147, 0, 9, 128] && second + donl + [5] == [98, 1, 83, 0, 9, 5];
    assert P.Fragments(38, 1, rest, false, 9, true) == [second + donl + [5]];
    assert P.Fragments(38, 1, pieces, true, 9, true) == [first + donl + [128]] + [second + donl + [5]];
    assert Concat([]) == [] && Concat(rest) == [5] + [] && Concat(pieces) == [128] + [5];
    assert Concat(pieces) == [128, 5] && [38, 1] + Concat(pieces) == SLICE;
    assert P.Carried(SLICE_CHUNK) == [[38, 1] + Concat(pieces)];
    OneChunk(SLICE_CHUNK, true);
  }

  lemma OneChunk(c: P.Chunk, apple: bool)
    requires P.Valid(c)
    ensures P.AllWire([c], apple) == P.Wire(c, apple) && P.AllCarried([c]) == P.Carried(c)
  {
    hide P.Wire, P.Carried;
    assert [c][1..] == [];
    assert P.Wire(c, apple) + [] == P.Wire(c, apple) && P.Carried(c) + [] == P.Carried(c);
  }

  const FRAGMENTS: seq<seq<byte>> := [[98, 1, 147, 0, 9, 128], [98, 1, 83, 0, 9, 5]]

  const SHORT_SLICE: Nal := [38, 1, 128]

  lemma ShortSliceOnTheWire()
    ensures P.Valid(P.Single(SHORT_SLICE, 9)) && P.AllCarried([P.Single(SHORT_SLICE, 9)]) == [SHORT_SLICE]
    ensures P.AllWire([P.Single(SHORT_SLICE, 9)], true) == [[38, 1, 0, 9, 128]]
  {
    hide P.AllWire, P.AllCarried;
    OneChunk(P.Single(SHORT_SLICE, 9), true);
    assert P.Donl(9, true) == [0, 9] by { Spelled16(9); }
    assert SHORT_SLICE[..2] + [0, 9] + SHORT_SLICE[2..] == [38, 1, 0, 9, 128];
  }

  lemma SlicesAreKeys()
    ensures HasFirstSlice([SLICE]) && HasKeySlice([SLICE]) && HasFirstSlice([SHORT_SLICE]) && HasKeySlice([SHORT_SLICE])
  {
    assert IsFirstSlice([SLICE][0]) && IsKeySlice([SLICE][0]);
    assert IsFirstSlice([SHORT_SLICE][0]) && IsKeySlice([SHORT_SLICE][0]);
  }

  lemma FragmentsFit(pic: Picture)
    requires pic.payloads == FRAGMENTS
    ensures Fits(pic) && FramingFixed(pic, true) && TotalBytes(pic.payloads) == 12
  {
    assert pic.payloads[..1][..0] == [] && TotalBytes(pic.payloads[..1]) == 6;
  }

  lemma NewIsOpen(tiles: nat, key: Key)
    requires 1 <= tiles <= 16
    ensures Open(Init(tiles), key, true) && Init(tiles).tiles == tiles && Init(tiles).log == []
    ensures Init(tiles).groups == map[] && Init(tiles).sources == []
  {
    InitInv(tiles);
    hide Inv;
  }

  // ----- events

  function Send(pic: Picture, i: nat, at: nat, pick: Groups -> Key): Event
    requires i < Size(pic)
  {
    PushEvent(PacketAt(pic, i), at, pick)
  }

  lemma Sent(pic: Picture, i: nat, at: nat, pick: Groups -> Key)
    requires Fits(pic) && i < Size(pic) && PicksOldest(pick)
    ensures ArrivalBy(pic, Send(pic, i, at, pick)) == [Arrival(i, at)] && Solo(pic, Send(pic, i, at, pick))
    ensures Own(pic, PacketAt(pic, i)) && PacketOf(pic, PacketAt(pic, i))
  {
    SlotInverts(pic, 0, i);
    assert pic.payloads[i] in pic.payloads;
    hide Slot, Seqno, PicksOldest;
  }

  lemma ArrivalsCons(pic: Picture, e: Event, rest: seq<Event>)
    ensures Arrivals(pic, [e] + rest) == ArrivalBy(pic, e) + Arrivals(pic, rest)
  {
    assert ([e] + rest)[1..] == rest;
  }

  lemma ArrivalsOfFive(pic: Picture, a: Event, b: Event, c: Event, d: Event, e: Event)
    ensures Arrivals(pic, [a, b, c, d, e])
         == ArrivalBy(pic, a) + ArrivalBy(pic, b) + ArrivalBy(pic, c) + ArrivalBy(pic, d) + ArrivalBy(pic, e)
  {
    hide ArrivalBy;
    assert [a, b, c, d, e] == [a] + ([b] + ([c] + ([d] + ([e] + []))));
    ArrivalsCons(pic, a, [b] + ([c] + ([d] + ([e] + []))));
    ArrivalsCons(pic, b, [c] + ([d] + ([e] + [])));
    ArrivalsCons(pic, c, [d] + ([e] + []));
    ArrivalsCons(pic, d, [e] + []);
    ArrivalsCons(pic, e, []);
  }

  lemma Both(pic: Picture, ds: seq<Arrival>, i: nat, j: nat)
    requires pic.payloads == FRAGMENTS && i < |ds| && j < |ds| && ds[i].index == 0 && ds[j].index == 1
    ensures Complete(pic, ds)
  {
  }

  // ----- one unit from a new connection

  function SwappedEvents(pic: Picture, pick: Groups -> Key): seq<Event>
    requires Size(pic) == 2
  {
    [Send(pic, 1, 0, pick), PollEvent(5), Send(pic, 0, 10, pick), PollEvent(12), Send(pic, 1, 20, pick)]
  }

  /**
   A new connection: the first picture in two fragments whose numbers wrap, swapped, one of them twice, with polls in
   between. The run hands out exactly one unit.
   */
  lemma SwappedFragmentsAreOneUnit(pick: Groups -> Key)
    requires PicksOldest(pick)
    ensures var pic := Picture(Key(7, 1000), 65535, FRAGMENTS);
            HandsOut(Found(Init(1), 7), RunEvents(Init(1), SwappedEvents(pic, pick) + [PollEvent(50)]), pic.key,
                     [SLICE], 9)
  {
    hide Send, Arrivals, HandsOut, LeavesReady, P.AllWire, P.AllCarried, Inv, Open, ArrivalBy, Own, Solo, Timely, Over,
      Complete, PicksOldest, HasFirstSlice, HasKeySlice, FramingFixed, Init;
    var s, pic := Init(1), Picture(Key(7, 1000), 65535, FRAGMENTS);
    var events := SwappedEvents(pic, pick);
    SliceOnTheWire();
    SlicesAreKeys();
    FragmentsFit(pic);
    NewIsOpen(1, pic.key);
    SwappedArrivals(pic, pick);
    NewSettled();
    hide Fits, Found, Settled, SwappedEvents;
    QuietPicture(s, pic, [SLICE_CHUNK], events, true, 0, 50);
  }

  lemma SwappedArrivals(pic: Picture, pick: Groups -> Key)
    requires pic.payloads == FRAGMENTS && PicksOldest(pick)
    ensures var events := SwappedEvents(pic, pick);
            && events[0].PushEvent? && (forall e <- events :: Solo(pic, e)) && Timely(pic, [], events, 0)
            && Over(pic, Arrivals(pic, events), 50) && Arrivals(pic, events)[0].at == 0
  {
    FragmentsFit(pic);
    hide Fits, FramingFixed, PicksOldest, Timely, Over, Complete, Slot, Seqno;
    Sent(pic, 1, 0, pick);
    Sent(pic, 0, 10, pick);
    Sent(pic, 1, 20, pick);
    var events := SwappedEvents(pic, pick);
    ArrivalsOfFive(pic, events[0], events[1], events[2], events[3], events[4]);
    var ds := Arrivals(pic, events);
    assert ds == [Arrival(1, 0), Arrival(0, 10), Arrival(1, 20)];
    PlainWindow(pic, [], events, 0);
    Both(pic, ds, 1, 0);
    PlainOver(pic, ds, 0, 50);
  }

  lemma NewSettled()
    ensures Settled(Found(Init(1), 7), 0, 50)
  {
    assert InsertSorted([], 7) == [7];
  }

  // ----- a tile index that changes

  const SHORT_PAYLOAD: seq<byte> := [38, 1, 0, 9, 128]

  /** A picture of one packet. */
  function Short(key: Key): Picture {
    Picture(key, 0, [SHORT_PAYLOAD])
  }

  lemma ShortFits(key: Key)
    ensures Fits(Short(key)) && FramingFixed(Short(key), true) && Size(Short(key)) == 1
  {
    assert Short(key).payloads[..0] == [] && TotalBytes(Short(key).payloads) == 5;
  }

  lemma ShortArrives(key: Key, at: nat, now: nat, pick: Groups -> Key)
    requires PicksOldest(pick) && now >= at + 50
    ensures var pic, events := Short(key), [Send(Short(key), 0, at, pick)];
            && (forall e <- events :: Solo(pic, e)) && Timely(pic, [], events, at)
            && Arrivals(pic, events) == [Arrival(0, at)] && Over(pic, Arrivals(pic, events), now)
  {
    ShortFits(key);
    hide Fits, FramingFixed, PicksOldest, Timely, Over, Slot, Seqno;
    var pic, events := Short(key), [Send(Short(key), 0, at, pick)];
    Sent(pic, 0, at, pick);
    ArrivalsCons(pic, events[0], []);
    assert [events[0]] + [] == events;
    PlainWindow(pic, [], events, at);
    assert [] + Arrivals(pic, events) == Arrivals(pic, events);
    assert Complete(pic, Arrivals(pic, events)) by { assert Arrivals(pic, events)[0].index == 0; }
    PlainOver(pic, Arrivals(pic, events), at, now);
  }

  /** A picture of one packet: pushed, and polled for once it is due. */
  lemma OnePacketPicture(s: State, key: Key, at: nat, now: nat, pick: Groups -> Key)
    requires Open(s, key, true) && s.groups == map[] && Settled(Found(s, key.ssrc), at, now) && now >= at + 50
    requires PicksOldest(pick)
    ensures var b, r := Found(s, key.ssrc), Apply(Apply(s, Send(Short(key), 0, at, pick)), PollEvent(now));
            HandsOut(b, r, key, [SHORT_SLICE], 9) && LeavesReady(b, r, key, true)
  {
    hide Apply, HandsOut, LeavesReady, P.AllWire, P.AllCarried, Inv, Open, Settled, Found, PicksOldest, Timely, Over,
      Solo, Fits, FramingFixed, HasFirstSlice, HasKeySlice, Arrivals;
    var pic, events := Short(key), [Send(Short(key), 0, at, pick)];
    ShortSliceOnTheWire();
    SlicesAreKeys();
    ShortFits(key);
    ShortArrives(key, at, now, pick);
    QuietPicture(s, pic, [P.Single(SHORT_SLICE, 9)], events, true, at, now);
    RunSnoc(s, events, PollEvent(now));
    RunOne(s, events[0]);
  }

  /** What the first picture leaves is open for one of a source that has not been seen. */
  lemma OpenForSecond(b: State, r: State, key: Key, next: Key)
    requires LeavesReady(b, r, key, true) && next.ssrc != key.ssrc
    requires next.ssrc !in b.observed && next.ssrc !in b.lastTs
    requires next.ssrc in b.sources || |b.sources| < b.tiles
    ensures Open(r, next, true) && r.groups == map[]
  {
    hide Inv;
    OtherKept(b.observed, r.observed, key.ssrc, next.ssrc);
  }

  /** And it stays open for the first source itself, once time has advanced, whatever came from another one. */
  lemma OpenAgain(b: State, r: State, c: State, q: State, key: Key, other: Key, next: Key)
    requires LeavesReady(b, r, key, true) && LeavesReady(c, q, other, true)
    requires c.observed == r.observed && c.lastTs == r.lastTs && key.ssrc in c.sources
    requires next.ssrc == key.ssrc != other.ssrc && Advances(key.timestamp, next.timestamp)
    ensures Open(q, next, true) && q.groups == map[]
  {
    hide Inv;
    OtherKept(r.observed, q.observed, other.ssrc, key.ssrc);
  }

  /** Two sources are awaited; the smaller one shows up after discovery has ended. */
  function TileEvents(pick: Groups -> Key): seq<Event> {
    [Send(Short(Key(7, 1000)), 0, 0, pick), PollEvent(750), Send(Short(Key(3, 500)), 0, 800, pick), PollEvent(850),
     Send(Short(Key(7, 2000)), 0, 900, pick), PollEvent(950)]
  }

  lemma RunSix(s: State, events: seq<Event>)
    requires |events| == 6
    ensures RunEvents(s, events)
         == Apply(Apply(Apply(Apply(Apply(Apply(s, events[0]), events[1]), events[2]), events[3]),
              events[4]), events[5])
  {
    hide Apply;
    assert events == [] + [events[0]] + [events[1]] + [events[2]] + [events[3]] + [events[4]] + [events[5]];
    RunSnoc(s, [], events[0]);
    RunSnoc(s, [] + [events[0]], events[1]);
    RunSnoc(s, [] + [events[0]] + [events[1]], events[2]);
    RunSnoc(s, [] + [events[0]] + [events[1]] + [events[2]], events[3]);
    RunSnoc(s, [] + [events[0]] + [events[1]] + [events[2]] + [events[3]], events[4]);
    RunSnoc(s, [] + [events[0]] + [events[1]] + [events[2]] + [events[3]] + [events[4]], events[5]);
  }

  lemma Ranks()
    ensures InsertSorted([], 7) == [7] && InsertSorted([7], 3) == [3, 7]
    ensures IndexOf([7], 7) == 0 && IndexOf([3, 7], 7) == 1
  {
    assert [3, 7][1..] == [7];
  }

  /**
   A run from a new depacketizer that hands out two units of one source, in one generation, with different tiles: a
   late smaller source has renumbered it, although discovery had ended.
   */
  lemma TileCanChange(pick: Groups -> Key)
    requires PicksOldest(pick)
    ensures var log := RunEvents(Init(2), TileEvents(pick)).log;
            && |log| == 3 && log[0].Emitted? && log[1].Emitted? && log[2].Emitted?
            && log[0].ssrc == log[2].ssrc == 7 && log[0].unit.generation == log[2].unit.generation
            && log[0].unit.tile == 0 && log[2].unit.tile == 1
  {
    hide Apply, Inv, Open, InsertSorted, IndexOf, PicksOldest, HasKeySlice, ParamsIn, VclData, ParamPrefix, Send, Units,
      Losses;
    Ranks();
    var s, a, c, e := Init(2), Key(7, 1000), Key(3, 500), Key(7, 2000);
    RunSix(s, TileEvents(pick));
    NewIsOpen(2, a);
    var r1 := Apply(Apply(s, Send(Short(a), 0, 0, pick)), PollEvent(750));
    OnePacketPicture(s, a, 0, 750, pick);
    OpenForSecond(Found(s, 7), r1, a, c);
    var r2 := Apply(Apply(r1, Send(Short(c), 0, 800, pick)), PollEvent(850));
    OnePacketPicture(r1, c, 800, 850, pick);
    OpenAgain(Found(s, 7), r1, Found(r1, 3), r2, a, c, e);
    OnePacketPicture(r2, e, 900, 950, pick);
  }

  // ----- two pictures that overlap

  const FIRST: Key := Key(7, 1000)
  const SECOND: Picture := Picture(Key(7, 2000), 65535, FRAGMENTS)
  const THIRD: Key := Key(7, 3000)

  /** The first picture has just come, and is held. */
  ghost function OnePending(key: Key, pick: Groups -> Key): State {
    Apply(Init(1), Send(Short(key), 0, 0, pick))
  }

  lemma FirstStage(key: Key, pick: Groups -> Key)
    requires PicksOldest(pick)
    ensures Stage(Init(1), OnePending(key, pick), Short(key), [Arrival(0, 0)], true)
    ensures Quiet(Init(1), OnePending(key, pick), key, [Arrival(0, 0)])
  {
    var pic, e, ds := Short(key), Send(Short(key), 0, 0, pick), [Arrival(0, 0)];
    hide Apply, Inv, Stage, Quiet, Fits, FramingFixed, PicksOldest, Slot, Seqno, InTime, InsideWindow, Init, Solo, Own,
      Open, ArrivalBy;
    ShortFits(key);
    NewIsOpen(1, key);
    Sent(pic, 0, 0, pick);
    OpenStage(Init(1), pic, true);
    QuietFrom(Init(1), key);
    SameInstant(pic, ds, 0);
    NoArrivals(0);
    assert [] + ds == ds;
    QuietStep(Init(1), Init(1), pic, [], e, true, 0);
  }

  lemma FirstGroup(pick: Groups -> Key)
    requires PicksOldest(pick)
    ensures var s := OnePending(FIRST, pick);
            && FIRST in s.groups && Sole(s.groups, FIRST) && Inv(s) && 7 in s.sources
            && ArrivalsOf(Short(FIRST), [Arrival(0, 0)]) && Fits(Short(FIRST)) && Size(Short(FIRST)) == 1
            && s.groups[FIRST] == Gathered(Short(FIRST), [Arrival(0, 0)], s.groups[FIRST].order)
  {
    var pic, s, ds := Short(FIRST), OnePending(FIRST, pick), [Arrival(0, 0)];
    hide OnePending, Pending, Quiet, Fits, FramingFixed, PicksOldest, Gathered, Sole, Inv, Unstashed;
    ShortFits(FIRST);
    FirstStage(FIRST, pick);
    StageParts(Init(1), s, pic, ds, true);
    OthersPlain(s, FIRST, 7);
    QuietSole(Init(1), s, FIRST, ds);
  }

  /** Only the first picture is pending, within the budget, and due 66 ms after it came. */
  ghost predicate FirstOnly(s: State) {
    && s.groups.Keys == {FIRST} && s.tiles == 1 && !IsHeld(s.groups[FIRST], 66)
    && Sums.Sum(s.groups, GroupBytes) <= MAX_GROUP_BYTES
  }

  lemma FirstAlone(s: State)
    requires FIRST in s.groups && Sole(s.groups, FIRST) && s.tiles == 1 && Fits(Short(FIRST)) && Size(Short(FIRST)) == 1
    requires ArrivalsOf(Short(FIRST), [Arrival(0, 0)])
    requires s.groups[FIRST] == Gathered(Short(FIRST), [Arrival(0, 0)], s.groups[FIRST].order)
    ensures FirstOnly(s)
  {
    hide Fits, Gathered, IsHeld, Sums.Sum, ArrivalsOf, Sole;
    SoleIs(s.groups, FIRST);
    GatheredFits(Short(FIRST), [Arrival(0, 0)], s.groups[FIRST].order);
    NotHeld(Short(FIRST), [Arrival(0, 0)], s.groups[FIRST].order);
    assert s.groups.Keys == {FIRST};
  }

  lemma FirstPending(pick: Groups -> Key)
    requires PicksOldest(pick)
    ensures FirstOnly(OnePending(FIRST, pick)) && Open(OnePending(FIRST, pick), SECOND.key, true)
  {
    hide *;
    var s, ds := OnePending(FIRST, pick), [Arrival(0, 0)];
    FirstGroup(pick);
    FirstStage(FIRST, pick);
    StageFraming(Init(1), s, Short(FIRST), ds, true);
    OneTile();
    FirstAlone(s);
    FirstKeys(s);
    OpenAgainst(s, ds);
  }

  lemma OneTile()
    ensures Init(1).tiles == 1 && Short(FIRST).key == FIRST && FIRST.ssrc == 7
  {
  }

  lemma FirstKeys(s: State)
    requires FirstOnly(s)
    ensures s.groups.Keys == {FIRST}
  {
  }

  lemma StageFraming(s: State, t: State, pic: Picture, ds: seq<Arrival>, apple: bool)
    requires Stage(s, t, pic, ds, apple)
    ensures AppleFraming(t, pic.key.ssrc) == apple && t.tiles == s.tiles
  {
    hide Inv, AppleFraming;
  }

  lemma NotHeld(pic: Picture, ds: seq<Arrival>, order: nat)
    requires ds == [Arrival(0, 0)] && Fits(pic) && Size(pic) == 1
    ensures ArrivalsOf(pic, ds) && !IsHeld(Gathered(pic, ds, order), 66)
  {
    hide Fits, Over, Gathered, IsHeld;
    assert Complete(pic, ds) by { assert ds[0].index == 0; }
    PlainOver(pic, ds, 0, 66);
    OverEnds(pic, ds, 0, 66);
    HeldAtAnyOrder(pic, ds, order, 66);
  }

  lemma OpenAgainst(s: State, ds: seq<Arrival>)
    requires Inv(s) && Quiet(Init(1), s, FIRST, ds) && 7 in s.sources && AppleFraming(s, 7)
    requires s.groups.Keys == {FIRST}
    ensures Open(s, SECOND.key, true)
  {
    hide Inv, AppleFraming, InsertSorted;
    assert forall k <- s.groups :: k in s.groups.Keys;
  }

  function OverlapEvents(pick: Groups -> Key): seq<Event> {
    [Send(SECOND, 0, 16, pick), PollEvent(26), Send(Short(THIRD), 0, 28, pick), Send(SECOND, 1, 30, pick),
     PollEvent(40)]
  }

  lemma OverlapTimes(pick: Groups -> Key)
    requires PicksOldest(pick)
    ensures Timely(SECOND, [], OverlapEvents(pick), 16) && Over(SECOND, Arrivals(SECOND, OverlapEvents(pick)), 66)
    ensures OverlapEvents(pick)[0].PushEvent? && Own(SECOND, OverlapEvents(pick)[0].packet)
  {
    var events := OverlapEvents(pick);
    FragmentsFit(SECOND);
    hide Fits, PicksOldest, Timely, Over, Complete, Slot, Seqno, PacketOf, Solo, ArrivalBy;
    Sent(SECOND, 0, 16, pick);
    Sent(SECOND, 1, 30, pick);
    ArrivalsOfFive(SECOND, events[0], events[1], events[2], events[3], events[4]);
    var ds := Arrivals(SECOND, events);
    assert ds == [Arrival(0, 16), Arrival(1, 30)];
    PlainWindow(SECOND, [], events, 16);
    Both(SECOND, ds, 0, 1);
    PlainOver(SECOND, ds, 16, 66);
  }

  lemma OverlapScheduled(s: State, pick: Groups -> Key)
    requires PicksOldest(pick) && s.groups.Keys == {FIRST}
    ensures Scheduled(SECOND, [], OverlapEvents(pick), Scope(s.groups, {FIRST, SECOND.key, THIRD}, s.sources), true, 16)
  {
    hide OverlapEvents, Tame, Timely, Over, Arrivals, PicksOldest, InsideWindow, Own;
    OverlapTimes(pick);
    NoArrivals(16);
    SizeOfThree();
    OverlapTame(s, pick);
    assert SECOND.key !in s.groups.Keys;
  }

  lemma SizeOfThree()
    ensures |{FIRST, SECOND.key, THIRD}| == 3
  {
  }

  lemma OverlapTame(s: State, pick: Groups -> Key)
    requires PicksOldest(pick) && s.groups.Keys == {FIRST}
    ensures forall e <- OverlapEvents(pick) ::
              Tame(SECOND, e, Scope(s.groups, {FIRST, SECOND.key, THIRD}, s.sources), true)
  {
    FragmentsFit(SECOND);
    ShortFits(THIRD);
    Sent(SECOND, 0, 16, pick);
    Sent(SECOND, 1, 30, pick);
    assert SHORT_PAYLOAD in Short(THIRD).payloads;
    assert FIRST in s.groups.Keys && SECOND.key !in s.groups.Keys && THIRD !in s.groups.Keys;
    hide Fits, PicksOldest, Slot, Seqno, PacketOf, NeverShows;
  }

  lemma OverlapWeighs(pick: Groups -> Key)
    ensures Weights(OverlapEvents(pick)) == 17
  {
    hide Seqno;
    var events := OverlapEvents(pick);
    WeightsCons(events[4], []);
    WeightsCons(events[3], [events[4]] + []);
    WeightsCons(events[2], [events[3]] + ([events[4]] + []));
    WeightsCons(events[1], [events[2]] + ([events[3]] + ([events[4]] + [])));
    WeightsCons(events[0], [events[1]] + ([events[2]] + ([events[3]] + ([events[4]] + []))));
    assert events == [events[0]] + ([events[1]] + ([events[2]] + ([events[3]] + ([events[4]] + []))));
  }

  lemma WeightsCons(e: Event, rest: seq<Event>)
    ensures Weights([e] + rest) == Weight(e) + Weights(rest)
  {
    assert ([e] + rest)[1..] == rest;
  }

  /**
   Three overlapping pictures of one source: the second one starts while the first is still held, polls and the third
   come between its two packets, and it is handed out once and whole all the same.
   */
  lemma OverlappingPictures(pick: Groups -> Key) returns (n: nat, params: seq<Nal>)
    requires PicksOldest(pick)
    ensures FIRST in OnePending(FIRST, pick).groups
    ensures Delivers(OnePending(FIRST, pick),
                     RunEvents(OnePending(FIRST, pick), OverlapEvents(pick) + [PollEvent(66)]),
                     SECOND.key, [SLICE], 9, n, params)
  {
    hide Apply, Kept, Inv, PicksOldest, Over, Scheduled, Delivers, Arrivals, P.AllWire, P.AllCarried, Open, Weights,
      OverlapEvents, OnePending, Sums.Sum, FramingFixed, HasFirstSlice, HasKeySlice, IsHeld, Discovering, Fits;
    var s, events, keys := OnePending(FIRST, pick), OverlapEvents(pick), {FIRST, SECOND.key, THIRD};
    SliceOnTheWire();
    SlicesAreKeys();
    FragmentsFit(SECOND);
    FirstPending(pick);
    OverlapScheduled(s, pick);
    OverlapTimes(pick);
    OverlapWeighs(pick);
    assert forall k <- s.groups :: k in s.groups.Keys;
    assert s.groups.Keys <= keys;
    n, params := PictureInsideHoldWindow(s, SECOND, [SLICE_CHUNK], events, Scope(s.groups, keys, s.sources), true, 16,
                                         66);
  }

  // ----- a takeover

  const OLD: Key := Key(5, 100)
  const NEW: Picture := Picture(Key(7, 1000), 65535, FRAGMENTS)

  /** The new source sends its picture over and over; in between there is a poll, and the old source still sends. */
  function CourtingEvents(pick: Groups -> Key): seq<Event> {
    EarlyEvents(pick) + LateEvents(pick)
  }

  function EarlyEvents(pick: Groups -> Key): seq<Event> {
    [Send(NEW, 0, 60, pick), Send(NEW, 1, 61, pick), PollEvent(62), Send(Short(Key(5, 200)), 0, 63, pick),
     Send(NEW, 0, 64, pick)]
  }

  function LateEvents(pick: Groups -> Key): seq<Event> {
    [Send(NEW, 1, 65, pick), Send(NEW, 0, 66, pick), Send(NEW, 1, 67, pick), Send(NEW, 0, 68, pick), PollEvent(69)]
  }

  lemma OldPending(pick: Groups -> Key)
    requires PicksOldest(pick)
    ensures var s := OnePending(OLD, pick);
            Unseen(s, 7) && s.sources == [5] && SeenBy(s, 0) && |s.observed| < MAX_OBSERVED && s.generation == 0
  {
    FirstStage(OLD, pick);
    var s, pic, ds := OnePending(OLD, pick), Short(OLD), [Arrival(0, 0)];
    hide Stage, PicksOldest, Inv, OnePending, InsertSorted, Slot, Seqno;
    StageParts(Init(1), s, pic, ds, true);
    Ranks();
    assert s.sources == [5] by { assert InsertSorted([], 5) == [5] by { InsertedAlone(5); } }
    OtherKept(map[], s.observed, 5, 7);
    OldSeen(pick);
  }

  lemma InsertedAlone(x: u32)
    ensures InsertSorted([], x) == [x]
  {
  }

  lemma OldSeen(pick: Groups -> Key)
    requires PicksOldest(pick)
    ensures var s := OnePending(OLD, pick); s.observed.Keys == {5} && s.observed[5].last == 0
  {
    hide *;
    ShortPacket(OLD);
    OldReceived(pick);
    FirstObserved(PacketAt(Short(OLD), 0));
  }

  lemma ShortPacket(key: Key)
    ensures Size(Short(key)) == 1 && PacketAt(Short(key), 0) == Packet(key.ssrc, 0, key.timestamp, true, SHORT_PAYLOAD)
    ensures |SHORT_PAYLOAD| == 5 && OLD.ssrc == 5
  {
  }

  lemma OldReceived(pick: Groups -> Key)
    requires PicksOldest(pick)
    ensures Size(Short(OLD)) == 1
    ensures OnePending(OLD, pick).observed == Observe(Init(1), PacketAt(Short(OLD), 0), 0).observed
  {
    var pic := Short(OLD);
    ShortPacket(OLD);
    var p := PacketAt(pic, 0);
    hide PicksOldest, Fits, FramingFixed, Slot, Seqno, TakeIn, Observe, Stage, Poll, Open, Push, Found, Own, PacketOf,
      OverBudget, Received, Pending;
    ShortFits(OLD);
    Sent(pic, 0, 0, pick);
    NewIsOpen(1, OLD);
    OpenStage(Init(1), pic, true);
    NoBudget(p);
    OwnReceived(Init(1), Init(1), pic, [], p, 0, true, pick);
    FoundFrame(Observe(Init(1), p, 0), 5);
    PushApplied(Init(1), p, 0, pick);
  }

  lemma FirstObserved(p: Packet)
    requires |p.payload| >= 2
    ensures var o := Observe(Init(1), p, 0).observed; o.Keys == {p.ssrc} && o[p.ssrc].last == 0
  {
    hide Inferred;
    ObservedNow(Init(1), p, 0);
  }

  lemma NoBudget(p: Packet)
    requires |p.payload| <= 5
    ensures !OverBudget(Init(1), p)
  {
    assert Sums.Sum(Init(1).groups, GroupBytes) == 0;
  }

  /** A poll, a packet of the old source, or one of the picture. */
  ghost predicate Simple(s: State, pic: Picture, e: Event) {
    e.PushEvent? ==>
      PicksOldest(e.pick) && (e.packet.ssrc in s.sources || (Own(pic, e.packet) && PacketOf(pic, e.packet)))
  }

  lemma {:induction false} SmallBytes(pic: Picture, ds: seq<Arrival>)
    requires ArrivalsOf(pic, ds) && forall b <- pic.payloads :: |b| <= 6
    ensures KeptBytes(pic, ds) <= 6 * |ds|
    decreases |ds|
  {
    if ds != [] {
      SmallBytes(pic, ds[..|ds| - 1]);
      assert pic.payloads[ds[|ds| - 1].index] in pic.payloads;
    }
  }

  lemma SimpleStep(s: State, t: State, pic: Picture, ds: seq<Arrival>, e: Event)
    requires Unseen(s, pic.key.ssrc) && Keeping(s, t, pic, ds) && Simple(s, pic, e)
    requires ds == [] ==> |t.observed| < MAX_OBSERVED
    requires (forall b <- pic.payloads :: |b| <= 6) && |ds + ArrivalBy(pic, e)| < ADOPTION_PACKETS
    ensures Courts(t, pic, ds, e)
  {
    hide Inv, KeptBytes, PacketsOf, ShouldReplace, PicksOldest, Slot, Seqno;
    SmallBytes(pic, ds);
    if e.PushEvent? && PacketOf(pic, e.packet) {
      assert e.packet.payload in pic.payloads;
    }
  }

  lemma {:induction false} SimpleCourting(s: State, t: State, pic: Picture, ds: seq<Arrival>, events: seq<Event>)
    requires Unseen(s, pic.key.ssrc) && Keeping(s, t, pic, ds) && (forall e <- events :: Simple(s, pic, e))
    requires ds == [] ==> |t.observed| < MAX_OBSERVED && events != [] && ArrivalBy(pic, events[0]) != []
    requires (forall b <- pic.payloads :: |b| <= 6) && |ds + Arrivals(pic, events)| < ADOPTION_PACKETS
    ensures Courting(t, pic, ds, events)
    decreases |events|
  {
    hide Keeping, Unseen, Courts, Apply, ArrivalBy, Simple;
    if events != [] {
      var e := events[0];
      SimpleStep(s, t, pic, ds, e);
      KeepStep(s, t, pic, ds, e);
      assert ds + ArrivalBy(pic, e) + Arrivals(pic, events[1..]) == ds + Arrivals(pic, events);
      SimpleCourting(s, Apply(t, e), pic, ds + ArrivalBy(pic, e), events[1..]);
    }
  }

  lemma {:induction false} ArrivalsJoin(pic: Picture, a: seq<Event>, b: seq<Event>)
    ensures Arrivals(pic, a + b) == Arrivals(pic, a) + Arrivals(pic, b)
    decreases |a|
  {
    hide ArrivalBy;
    if a == [] {
      assert a + b == b;
    } else {
      ArrivalsJoin(pic, a[1..], b);
      assert (a + b)[1..] == a[1..] + b;
    }
  }

  const KEPT: seq<Arrival> :=
    [Arrival(0, 60), Arrival(1, 61), Arrival(0, 64), Arrival(1, 65), Arrival(0, 66), Arrival(1, 67), Arrival(0, 68)]

  lemma EarlyArrivals(pick: Groups -> Key)
    requires PicksOldest(pick)
    ensures Arrivals(NEW, EarlyEvents(pick)) == KEPT[..3] && ArrivalBy(NEW, EarlyEvents(pick)[0]) != []
  {
    FragmentsFit(NEW);
    hide Fits, PicksOldest, Slot, Seqno, PacketOf, Solo;
    var e := EarlyEvents(pick);
    Sent(NEW, 0, 60, pick);
    Sent(NEW, 1, 61, pick);
    Sent(NEW, 0, 64, pick);
    ArrivalsOfFive(NEW, e[0], e[1], e[2], e[3], e[4]);
  }

  lemma LateArrivals(pick: Groups -> Key)
    requires PicksOldest(pick)
    ensures Arrivals(NEW, LateEvents(pick)) == KEPT[3..]
  {
    FragmentsFit(NEW);
    hide Fits, PicksOldest, Slot, Seqno, PacketOf, Solo;
    var e := LateEvents(pick);
    Sent(NEW, 1, 65, pick);
    Sent(NEW, 0, 66, pick);
    Sent(NEW, 1, 67, pick);
    Sent(NEW, 0, 68, pick);
    ArrivalsOfFive(NEW, e[0], e[1], e[2], e[3], e[4]);
  }

  lemma CourtingArrivals(pick: Groups -> Key)
    requires PicksOldest(pick)
    ensures CourtingEvents(pick) != [] && Arrivals(NEW, CourtingEvents(pick)) == KEPT
    ensures ArrivalBy(NEW, CourtingEvents(pick)[0]) != []
  {
    hide ArrivalBy, Arrivals, Send, PicksOldest;
    EarlyArrivals(pick);
    LateArrivals(pick);
    ArrivalsJoin(NEW, EarlyEvents(pick), LateEvents(pick));
    assert KEPT[..3] + KEPT[3..] == KEPT;
  }

  lemma SimpleSend(s: State, i: nat, at: nat, pick: Groups -> Key)
    requires PicksOldest(pick) && i < 2
    ensures Simple(s, NEW, Send(NEW, i, at, pick)) && Send(NEW, i, at, pick).now == at
  {
    FragmentsFit(NEW);
    hide Fits, PicksOldest, Slot, Seqno, PacketOf, Solo, ArrivalBy;
    Sent(NEW, i, at, pick);
  }

  lemma EarlySimple(s: State, pick: Groups -> Key)
    requires PicksOldest(pick) && s.sources == [5]
    ensures forall e <- EarlyEvents(pick) :: Simple(s, NEW, e) && e.now <= 69
  {
    var last := Send(Short(Key(5, 200)), 0, 63, pick);
    assert Simple(s, NEW, last) && Simple(s, NEW, PollEvent(62));
    SentAt(Short(Key(5, 200)), 63, pick);
    hide Simple, Send, PicksOldest;
    SimpleSend(s, 0, 60, pick);
    SimpleSend(s, 1, 61, pick);
    SimpleSend(s, 0, 64, pick);
  }

  lemma LateSimple(s: State, pick: Groups -> Key)
    requires PicksOldest(pick) && s.sources == [5]
    ensures forall e <- LateEvents(pick) :: Simple(s, NEW, e) && e.now <= 69
  {
    assert Simple(s, NEW, PollEvent(69));
    hide Simple, Send, PicksOldest;
    SimpleSend(s, 1, 65, pick);
    SimpleSend(s, 0, 66, pick);
    SimpleSend(s, 1, 67, pick);
    SimpleSend(s, 0, 68, pick);
  }

  lemma CourtingSimple(s: State, pick: Groups -> Key)
    requires PicksOldest(pick) && s.sources == [5]
    ensures forall e <- CourtingEvents(pick) :: Simple(s, NEW, e) && e.now <= 69
    ensures forall b <- NEW.payloads :: |b| <= 6
  {
    EarlySimple(s, pick);
    LateSimple(s, pick);
    hide Simple, EarlyEvents, LateEvents, PicksOldest;
  }

  lemma SentAt(pic: Picture, at: nat, pick: Groups -> Key)
    requires Size(pic) > 0
    ensures Send(pic, 0, at, pick).now == at
  {
  }

  /** After the courting, seven packets are kept and Apple's framing is still assumed. */
  lemma Courted(pick: Groups -> Key)
    requires PicksOldest(pick)
    ensures var s := OnePending(OLD, pick); var t := RunEvents(s, CourtingEvents(pick));
            && Unseen(s, 7) && s.generation == 0 && Courting(s, NEW, [], CourtingEvents(pick))
            && Keeping(s, t, NEW, KEPT) && Silenced(t, 170) && AppleFraming(Observe(t, PacketAt(NEW, 1), 170), 7)
  {
    hide OnePending, CourtingEvents, Keeping, Courting, Unseen, Simple, Arrivals, ArrivalBy, AppleFraming, Fits,
      FramingFixed, PicksOldest, NeverShows, Observe, SeenBy;
    var s, events := OnePending(OLD, pick), CourtingEvents(pick);
    FragmentsFit(NEW);
    OldPending(pick);
    CourtingArrivals(pick);
    CourtingSimple(s, pick);
    KeepsNothing(s, NEW);
    assert [] + KEPT == KEPT;
    SimpleCourting(s, s, NEW, [], events);
    RunKeepsBack(s, s, NEW, [], events);
    SeenLater(s, 69);
    SeenThroughout(s, s, NEW, [], events, 69);
    SilentLater(RunEvents(s, events));
    UnseenFraming(s, 7);
    AppleThroughout(s, s, NEW, [], events);
    FragmentShows();
    FramingKept(RunEvents(s, events), PacketAt(NEW, 1), 170, 7, true);
  }

  lemma SeenLater(s: State, until: nat)
    requires SeenBy(s, 0)
    ensures SeenBy(s, until)
  {
  }

  lemma SilentLater(t: State)
    requires SeenBy(t, 69)
    ensures Silenced(t, 170)
  {
  }

  lemma UnseenFraming(s: State, ssrc: u32)
    requires Unseen(s, ssrc)
    ensures AppleFraming(s, ssrc)
  {
    hide Inv;
  }

  lemma FragmentShows()
    ensures |PacketAt(NEW, 1).payload| == 6 && NeverShows(PacketAt(NEW, 1).payload, true)
  {
  }

  /** The state after the eighth packet. */
  ghost function Replaced(pick: Groups -> Key): State {
    Push(RunEvents(OnePending(OLD, pick), CourtingEvents(pick)), PacketAt(NEW, 1), 170, pick)
  }

  const REPLAYED: seq<Arrival> := At(KEPT, 170) + [Arrival(1, 170)]

  lemma Constants()
    ensures NEW.key.ssrc == 7 && NEW.payloads == FRAGMENTS && Size(NEW) == 2 && |NEW.payloads[1]| == 6
    ensures FRAGMENTS == [[98, 1, 147, 0, 9, 128], [98, 1, 83, 0, 9, 5]] && P.Read(SLICE_CHUNK.donl, true) == 9
    ensures |KEPT| == ADOPTION_PACKETS - 1 && REPLAYED == At(KEPT, 170) + [Arrival(1, 170)]
  {
  }

  lemma ReplacedIs(pick: Groups -> Key)
    requires 1 < Size(NEW)
    ensures Replaced(pick) == Push(RunEvents(OnePending(OLD, pick), CourtingEvents(pick)), PacketAt(NEW, 1), 170, pick)
  {
  }

  lemma ReplacedStage(pick: Groups -> Key)
    requires PicksOldest(pick)
    ensures var t := RunEvents(OnePending(OLD, pick), CourtingEvents(pick)); var b := Reborn(t, PacketAt(NEW, 1), 170);
            && Stage(b, Replaced(pick), NEW, REPLAYED, true) && b.groups == map[] && b.tiles == 1
  {
    var s, d := OnePending(OLD, pick), Arrival(1, 170);
    hide *;
    Constants();
    ReplacedIs(pick);
    FragmentsFit(NEW);
    Courted(pick);
    EighthTakesOver(s, RunEvents(s, CourtingEvents(pick)), NEW, KEPT, d, true);
    HandoffStage(RunEvents(s, CourtingEvents(pick)), NEW, At(KEPT, 170), d, true, pick);
  }

  lemma ReplayedTimes()
    ensures InsideWindow(REPLAYED, 170) && Timely(NEW, REPLAYED, [PollEvent(175)], 170)
    ensures Over(NEW, REPLAYED + Arrivals(NEW, [PollEvent(175)]), 220)
  {
    hide Timely, Over, Complete;
    var events := [PollEvent(175)];
    ArrivalsCons(NEW, PollEvent(175), []);
    assert [PollEvent(175)] + [] == events && REPLAYED + [] == REPLAYED;
    assert REPLAYED + Arrivals(NEW, events) == REPLAYED;
    PlainWindow(NEW, REPLAYED, events, 170);
    Both(NEW, REPLAYED, 0, 7);
    PlainOver(NEW, REPLAYED, 170, 220);
  }

  lemma OnePollIsGentle(t: State, pic: Picture, now: nat, apple: bool)
    requires pic.key in t.groups
    ensures GentleRun(t, pic, [PollEvent(now)], apple)
  {
    hide Apply;
    assert [PollEvent(now)][1..] == [];
  }

  lemma ReplacedFinishes(pick: Groups -> Key)
    requires PicksOldest(pick)
    ensures Undisturbed(Replaced(pick), NEW, [PollEvent(175)], true)
    ensures HandedOutBy(RunEvents(Replaced(pick), [PollEvent(175)]), NEW, REPLAYED + Arrivals(NEW, [PollEvent(175)]),
                        PollEvent(220), true)
  {
    hide *;
    Constants();
    FragmentsFit(NEW);
    ReplacedStage(pick);
    var b := Reborn(RunEvents(OnePending(OLD, pick), CourtingEvents(pick)), PacketAt(NEW, 1), 170);
    StageParts(b, Replaced(pick), NEW, REPLAYED, true);
    OnePollIsGentle(Replaced(pick), NEW, 175, true);
    ReplayedTimes();
    HeadFinishes(b, Replaced(pick), NEW, REPLAYED, [PollEvent(175)], true, 170, 220);
  }

  /**
   From a new connection: the picture of source 5 is pending when source 7 starts to send a key picture over and over.
   A poll hands out the first one, source 5 sends another and falls silent. The eighth packet of source 7 takes over,
   and its picture comes out whole, as the first unit of generation 1.
   */
  lemma TakeoverHappens(pick: Groups -> Key) returns (n: nat, params: seq<Nal>)
    requires PicksOldest(pick)
    ensures var s, p := OnePending(OLD, pick), PacketAt(NEW, 1);
            var b := Reborn(RunEvents(s, CourtingEvents(pick)), p, 170);
            && b.generation == 1 && b.sources == [7] && b.groups == map[]
            && Delivers(b, RunEvents(s, CourtingEvents(pick) + ([PushEvent(p, 170, pick)] + [PollEvent(175)]
                                                                + [PollEvent(220)])),
                        NEW.key, [SLICE], 9, n, params)
  {
    hide *;
    Constants();
    ReplacedIs(pick);
    FragmentsFit(NEW);
    SliceOnTheWire();
    SlicesAreKeys();
    Courted(pick);
    CourtingArrivals(pick);
    ReplacedFinishes(pick);
    n, params := NewSourceKeepsPicture(OnePending(OLD, pick), NEW, [SLICE_CHUNK], CourtingEvents(pick), Arrival(1, 170),
                                       pick, [PollEvent(175)], PollEvent(220), true);
  }
}
