/**
 The same with nothing else around: while only the packets of one picture and polls come, nothing is recorded but its
 unit, and the state afterwards is ready for the next one.
 */
module QuietRuns {
  import opened Bytes
  import opened Hevc
  import opened DepacketizerModel
  import opened DepacketizerInvariants
  import opened PictureDelivery
  import opened QueueOrder
  import opened Reception
  import opened PictureRuns
  import opened PictureTheorems
  import opened TimedRuns
  import P = Packetization
  import Sums

  /** Nothing but this picture is pending. */
  predicate Sole(groups: Groups, key: Key) {
    groups.Keys <= {key}
  }

  lemma PollSole(s: State, t: State, key: Key, g: Group, apple: bool, now: nat)
    requires Kept(s, t, key, Some(g), apple) && Sole(t.groups, key) && Waiting(t, key, now)
    ensures Poll(t, now) == t
  {
    hide Kept, Waiting;
    PollStops(s, t, key, g, apple, now);
    KeptInv(s, t, key, Some(g), apple);
    NothingAhead(t, key);
    assert PollEach(t, [], now) == t;
  }

  lemma NothingAhead(t: State, key: Key)
    requires key in t.groups && Sole(t.groups, key)
    ensures Ahead(t, key) == []
  {
    NoneBelow(t.groups, key, t.groups[key].order);
  }

  lemma {:induction false} NoneBelow(groups: Groups, key: Key, n: nat)
    requires key in groups && Sole(groups, key) && n <= groups[key].order
    ensures KeysByOrder(groups, n) == []
  {
    if n > 0 {
      NoneBelow(groups, key, n - 1);
      assert forall k <- groups :: k in groups.Keys;
    }
  }

  lemma OneSum(key: Key, g: Group)
    ensures Sums.Sum(map[key := g], GroupBytes) == g.bytes
  {
    var m := map[key := g];
    Sums.SumTake(m, GroupBytes, key);
    assert m - {key} == map[];
  }

  lemma SoleIs(groups: Groups, key: Key)
    requires Sole(groups, key)
    ensures groups == if key in groups then map[key := groups[key]] else map[]
    ensures Sums.Sum(groups, GroupBytes) == if key in groups then groups[key].bytes else 0
    ensures |groups| <= 1 && Sole(groups - {key}, key) && groups - {key} == map[]
  {
    if key in groups {
      assert groups == map[key := groups[key]];
      OneSum(key, groups[key]);
    } else {
      assert groups == map[];
    }
  }

  /** A picture alone never reaches a budget. */
  lemma SoleBudget(s: State, t: State, pic: Picture, ds: seq<Arrival>, apple: bool, d: Arrival)
    requires Fits(pic) && Stage(s, t, pic, ds, apple) && Sole(t.groups, pic.key) && d.index < Size(pic)
    ensures !OverBudget(t, PacketAt(pic, d.index))
  {
    hide Gathered, Seqno, Kept, Sums.Sum, Fits;
    StageParts(s, t, pic, ds, apple);
    SoleIs(t.groups, pic.key);
    if ds != [] {
      GatheredFits(pic, ds, t.groups[pic.key].order);
    }
    PacketFits(pic, d.index);
  }

  /** An admitted packet changes its group and nothing else but what has been learned and the discovery timer. */
  lemma TakeInShape(t: State, pic: Picture, ds: seq<Arrival>, d: Arrival, pick: Groups -> Key)
    requires Fits(pic) && ArrivalsOf(pic, ds) && d.index < Size(pic)
    requires Holds(t.groups, pic.key, Part(t, pic, ds)) && Sole(t.groups, pic.key)
    requires !OverBudget(t, PacketAt(pic, d.index))
    ensures var r := TakeIn(t, PacketAt(pic, d.index), d.at, pick);
            && r == t.(params := r.params, first := r.first, groups := r.groups, nextGroup := r.nextGroup)
            && r.first == (if t.first.Some? then t.first else Some(d.at)) && Sole(r.groups, pic.key)
  {
    hide OverBudget, RecordLoss, Gathered, Fits, Seqno, Prepare, Insert;
    var p := PacketAt(pic, d.index);
    var u := Prepare(t, p.ssrc, d.at);
    PrepareFrame(t, p.ssrc, d.at);
    BudgetFrame(t, u, p);
    SoleIs(t.groups, pic.key);
    GrownIs(u, pic, ds, d);
    InsertIs(u, p, d.at);
    hide Grown;
  }

  // ----- a run of one picture

  /** A poll, or a packet of the picture. */
  ghost predicate Solo(pic: Picture, e: Event) {
    e.PushEvent? ==> PicksOldest(e.pick) && Own(pic, e.packet) && PacketOf(pic, e.packet)
  }

  /** When the first packet that ever entered a group came in. */
  function FirstSince(first: Option<nat>, ds: seq<Arrival>): Option<nat> {
    if first.Some? || ds == [] then first else Some(ds[0].at)
  }

  /** Since `s`, only these packets of the picture have come: nothing has been recorded. */
  predicate Quiet(s: State, t: State, key: Key, ds: seq<Arrival>) {
    && Sole(t.groups, key) && t.first == FirstSince(s.first, ds)
    && t.sources == (if ds == [] then s.sources else Found(s, key.ssrc).sources)
    && t.observed - {key.ssrc} == s.observed - {key.ssrc}
    && t == s.(sources := t.sources, groups := t.groups, first := t.first, params := t.params, nextGroup := t.nextGroup,
               observed := t.observed)
  }

  lemma QuietPush(s: State, t: State, pic: Picture, ds: seq<Arrival>, p: Packet, now: nat, apple: bool,
                  pick: Groups -> Key)
    requires Fits(pic) && FramingFixed(pic, apple) && Stage(s, t, pic, ds, apple) && Quiet(s, t, pic.key, ds)
    requires PicksOldest(pick) && Own(pic, p) && PacketOf(pic, p)
    ensures !OverBudget(t, p) && Quiet(s, Received(t, p, now, pick), pic.key, ds + [Arrival(Slot(pic, p.seqno), now)])
  {
    hide Kept, TakeIn, Observe, PicksOldest, OverBudget, NeverShows, Unstashed, Push, Poll, InsertSorted, Received,
      Slot, Gathered, Inv;
    var d := Arrival(Slot(pic, p.seqno), now);
    SoleBudget(s, t, pic, ds, apple, d);
    OwnReceived(s, t, pic, ds, p, now, apple, pick);
    StageParts(s, t, pic, ds, apple);
    KeptInv(s, t, pic.key, Part(t, pic, ds), apple);
    if ds != [] {
      OthersPlain(t, pic.key, p.ssrc);
    }
    ObserveFrame(t, p, now);
    var o := Observe(t, p, now);
    var f := Found(o, p.ssrc);
    BudgetFrame(t, f, p);
    hide FramingFixed, Fits;
    TakeInShape(f, pic, ds, d, pick);
  }

  lemma QuietStep(s: State, t: State, pic: Picture, ds: seq<Arrival>, e: Event, apple: bool, from: nat)
    requires Fits(pic) && FramingFixed(pic, apple) && Stage(s, t, pic, ds, apple) && Quiet(s, t, pic.key, ds)
    requires Solo(pic, e) && (ds == [] ==> e.PushEvent?)
    requires InsideWindow(ds, from) && InTime(pic, ds + ArrivalBy(pic, e), from, e.now)
    ensures var after := ds + ArrivalBy(pic, e);
            && after != [] && InsideWindow(after, from) && Stage(s, Apply(t, e), pic, after, apple)
            && Quiet(s, Apply(t, e), pic.key, after)
  {
    hide Kept, Poll, Received, FramingFixed, Fits, Quiet, InTime, InsideWindow, Slot, Waiting, Gathered, OverBudget,
      Unobtrusive, PicksOldest, PacketOf, Own, Push;
    StageParts(s, t, pic, ds, apple);
    if e.PushEvent? {
      QuietPush(s, t, pic, ds, e.packet, e.now, apple, e.pick);
    } else {
      assert ds + [] == ds;
    }
    TimelyWaits(s, t, pic, ds, e, apple, from);
    StepKeeps(s, t, pic, ds, e, apple);
    EventReceived(s, t, pic, ds, e, apple);
    var after, u := ds + ArrivalBy(pic, e), Reached(t, e);
    QuietSole(s, u, pic.key, after);
    PollSole(s, u, pic.key, Part(u, pic, after).value, apple, e.now);
  }

  lemma QuietSole(s: State, t: State, key: Key, ds: seq<Arrival>)
    requires Quiet(s, t, key, ds)
    ensures Sole(t.groups, key)
  {
  }

  lemma {:induction false} QuietRun(s: State, t: State, pic: Picture, ds: seq<Arrival>, events: seq<Event>, apple: bool,
                                    from: nat)
    requires Fits(pic) && FramingFixed(pic, apple) && Stage(s, t, pic, ds, apple) && Quiet(s, t, pic.key, ds)
    requires (forall e <- events :: Solo(pic, e)) && (ds == [] && events != [] ==> events[0].PushEvent?)
    requires InsideWindow(ds, from) && Timely(pic, ds, events, from)
    ensures var all, u := ds + Arrivals(pic, events), RunEvents(t, events);
            InsideWindow(all, from) && Stage(s, u, pic, all, apple) && Quiet(s, u, pic.key, all)
    decreases |events|
  {
    hide Stage, Quiet, Apply, Fits, FramingFixed, Solo, ArrivalBy, InTime, InsideWindow;
    if events == [] {
      assert ds + [] == ds;
    } else {
      var e := events[0];
      QuietStep(s, t, pic, ds, e, apple, from);
      QuietRun(s, Apply(t, e), pic, ds + ArrivalBy(pic, e), events[1..], apple, from);
      assert ds + ArrivalBy(pic, e) + Arrivals(pic, events[1..]) == ds + Arrivals(pic, events);
    }
  }

  // ----- its unit

  /** All sources are found, or the discovery time is over. */
  predicate Settled(s: State, start: nat, now: nat) {
    |s.sources| == s.tiles || SatSub(now, if s.first.Some? then s.first.value else start) >= DISCOVERY_MS
  }

  /** Apart from its unit, a picture leaves the state as it was, with its source known and its timestamp remembered. */
  ghost predicate LeavesReady(s: State, r: State, key: Key, apple: bool) {
    && Inv(r) && r.tiles == s.tiles && r.sources == s.sources && r.generation == s.generation && r.groups == map[]
    && r.lossEpoch == s.lossEpoch && r.lastTs == s.lastTs[key.ssrc := key.timestamp] && r.haveKey
    && r.first.Some? && (s.first.Some? ==> r.first == s.first)
    && AppleFraming(r, key.ssrc) == apple && r.observed - {key.ssrc} == s.observed - {key.ssrc}
  }

  /** `r` has recorded one thing since `s`: the unit of `nals`. */
  ghost predicate HandsOut(s: State, r: State, key: Key, nals: seq<Nal>, donl: u16) {
    && r.log == s.log + [Emitted(key.ssrc, UnitOf(s.log, s.generation, IndexOf(s.sources, key.ssrc), key, nals, donl,
                                                  r.params))]
    && forall n <- ParamsIn(nals) :: n in r.params || |r.params| == MAX_PARAMS
  }

  lemma SolePoll(s: State, t: State, key: Key, g: Group, apple: bool, now: nat)
    requires Kept(s, t, key, Some(g), apple) && Sole(t.groups, key) && !Discovering(t, now) && !IsHeld(g, now)
    requires t.groups - {key} == map[]
    ensures Poll(t, now) == Assemble(t.(groups := map[]), key, g)
  {
    hide Kept, Assemble, IsHeld, Discovering, Ahead, Poll;
    KeptInv(s, t, key, Some(g), apple);
    NothingAhead(t, key);
    assert Clears(t, [], now) && PollEach(t, [], now) == t;
    var behind := PollReaches(s, t, key, g, apple, now);
    var m := Assemble(t.(groups := map[]), key, g);
    assert PollEach(m, behind, now) == m;
  }

  lemma QuietParts(s: State, t: State, key: Key, ds: seq<Arrival>)
    requires Quiet(s, t, key, ds) && ds != []
    ensures var b := Found(s, key.ssrc);
            && t.log == b.log && t.sources == b.sources && t.generation == b.generation && t.haveKey == b.haveKey
            && t.tiles == b.tiles && t.lossEpoch == b.lossEpoch && t.lastTs == b.lastTs && b.haveKey == s.haveKey
            && t.observed - {key.ssrc} == b.observed - {key.ssrc} && t.first == FirstSince(s.first, ds)
            && b.first == s.first
  {
    hide InsertSorted;
  }

  lemma QuietUnit(s: State, t: State, pic: Picture, cs: seq<P.Chunk>, ds: seq<Arrival>, apple: bool, now: nat)
    requires cs != [] && (forall c <- cs :: P.Valid(c)) && pic.payloads == P.AllWire(cs, apple) && Fits(pic)
    requires Stage(s, t, pic, ds, apple) && Quiet(s, t, pic.key, ds)
    requires ds != [] && Complete(pic, ds) && !StillHeld(pic, ds, now)
    requires !Discovering(t, now)
    requires HasFirstSlice(P.AllCarried(cs)) && (s.haveKey || HasKeySlice(P.AllCarried(cs)))
    ensures var b, r := Found(s, pic.key.ssrc), Poll(t, now);
            && HandsOut(b, r, pic.key, P.AllCarried(cs), P.Read(cs[0].donl, apple)) && LeavesReady(b, r, pic.key, apple)
  {
    hide *;
    var key, nals, donl := pic.key, P.AllCarried(cs), P.Read(cs[0].donl, apple);
    var g := PendingGroup(s, t, pic, ds, apple, now);
    KeptInv(s, t, key, Some(g), apple);
    QuietSole(s, t, key, ds);
    SoleIs(t.groups, key);
    SolePoll(s, t, key, g, apple, now);
    var u := t.(groups := map[]);
    RemoveInv(t, key);
    SameFraming(t, u, key.ssrc);
    AssemblesPicture(u, pic, cs, ds, g.order, apple);
    QuietParts(s, t, key, ds);
    PresentUnit(u, key, nals, donl);
    PollInv(t, now);
    SameFraming(u, Poll(t, now), key.ssrc);
    Leaves(s, t, Poll(t, now), key, nals, donl, ds, apple);
  }

  lemma Leaves(s: State, t: State, r: State, key: Key, nals: seq<Nal>, donl: u16, ds: seq<Arrival>, apple: bool)
    requires ds != [] && Quiet(s, t, key, ds) && Inv(r) && AppleFraming(r, key.ssrc) == apple
    requires r == t.(groups := map[], params := r.params, log := r.log, nextPts := r.nextPts, haveKey := true,
                     lastTs := t.lastTs[key.ssrc := key.timestamp])
    requires r.log == t.log + [Emitted(key.ssrc, UnitOf(t.log, t.generation, IndexOf(t.sources, key.ssrc), key, nals,
                                                        donl, r.params))]
    requires forall n <- ParamsIn(nals) :: n in r.params || |r.params| == MAX_PARAMS
    ensures HandsOut(Found(s, key.ssrc), r, key, nals, donl) && LeavesReady(Found(s, key.ssrc), r, key, apple)
  {
    hide Inv, AppleFraming, Found, Quiet, UnitOf, ParamsIn, IndexOf;
    QuietParts(s, t, key, ds);
  }

  /** One picture and nothing else, by the clock. */
  lemma QuietPicture(s: State, pic: Picture, cs: seq<P.Chunk>, events: seq<Event>, apple: bool, from: nat, now: nat)
    requires cs != [] && (forall c <- cs :: P.Valid(c)) && pic.payloads == P.AllWire(cs, apple)
    requires Fits(pic) && FramingFixed(pic, apple) && Open(s, pic.key, apple) && s.groups == map[]
    requires events != [] && events[0].PushEvent? && (forall e <- events :: Solo(pic, e))
    requires Timely(pic, [], events, from) && Over(pic, Arrivals(pic, events), now)
    requires Settled(Found(s, pic.key.ssrc), Arrivals(pic, events)[0].at, now)
    requires HasFirstSlice(P.AllCarried(cs)) && (s.haveKey || HasKeySlice(P.AllCarried(cs)))
    ensures var b, r := Found(s, pic.key.ssrc), RunEvents(s, events + [PollEvent(now)]);
            && HandsOut(b, r, pic.key, P.AllCarried(cs), P.Read(cs[0].donl, apple)) && LeavesReady(b, r, pic.key, apple)
  {
    hide *;
    var ds, t := Arrivals(pic, events), RunEvents(s, events);
    OpenStage(s, pic, apple);
    NoArrivals(from);
    QuietFrom(s, pic.key);
    QuietRun(s, s, pic, [], events, apple, from);
    assert [] + ds == ds;
    OverEnds(pic, ds, from, now);
    QuietSettled(s, t, pic.key, ds, now);
    QuietUnit(s, t, pic, cs, ds, apple, now);
    RunSnoc(s, events, PollEvent(now));
    PollApplied(t, now);
  }

  lemma QuietFrom(s: State, key: Key)
    requires s.groups == map[]
    ensures Quiet(s, s, key, [])
  {
  }

  lemma QuietSettled(s: State, t: State, key: Key, ds: seq<Arrival>, now: nat)
    requires ds != [] && Quiet(s, t, key, ds) && Settled(Found(s, key.ssrc), ds[0].at, now)
    ensures !Discovering(t, now)
  {
    hide InsertSorted;
  }
}
