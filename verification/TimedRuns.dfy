/**
 The picture theorem in terms of what is sent and when: within the hold times and the budgets, a picture is handed out
 once and whole.
 */
module TimedRuns {
  import opened Bytes
  import opened Hevc
  import opened DepacketizerModel
  import opened DepacketizerInvariants
  import opened PictureDelivery
  import opened QueueOrder
  import opened Reception
  import opened PictureRuns
  import opened PictureTheorems
  import P = Packetization
  import Sums

  // ----- by the clock

  ghost predicate GentleRun(t: State, pic: Picture, events: seq<Event>, apple: bool)
    decreases |events|
  {
    events == [] || (Gentle(t, pic, events[0], apple) && GentleRun(Apply(t, events[0]), pic, events[1..], apple))
  }

  /** No hold time has passed at this moment, with these packets of the picture in. */
  predicate InTime(pic: Picture, ds: seq<Arrival>, from: nat, now: nat) {
    && from <= now < from + INCOMPLETE_IDLE_MS
    && (MarkerAt(pic, ds).Some? ==> SatSub(now, MarkerAt(pic, ds).value) < HOLD_MS)
  }

  /** Everything happens within 200 ms, and within 25 ms of the picture's last packet once that is in. */
  predicate Timely(pic: Picture, ds: seq<Arrival>, events: seq<Event>, from: nat)
    decreases |events|
  {
    events == [] ||
    (var after := ds + ArrivalBy(pic, events[0]);
     InTime(pic, after, from, events[0].now) && Timely(pic, after, events[1..], from))
  }

  /** Inside the window the picture's group is held. */
  lemma HeldInTime(s: State, u: State, pic: Picture, ds: seq<Arrival>, apple: bool, from: nat, now: nat)
    requires Fits(pic) && ArrivalsOf(pic, ds) && ds != [] && Pending(s, u, pic, ds, apple)
    requires InsideWindow(ds, from) && InTime(pic, ds, from, now)
    ensures Waiting(u, pic.key, now)
  {
    hide Kept, Fits, Gathered, Ahead, Clears, Discovering, IsHeld, MarkerAt, SatSub, InsideWindow, StillHeld;
    KeptInv(s, u, pic.key, Part(u, pic, ds), apple);
    TimersAre(pic, ds, from, now);
    HeldAtAnyOrder(pic, ds, u.groups[pic.key].order, now);
  }

  lemma WindowGrows(pic: Picture, ds: seq<Arrival>, e: Event, from: nat)
    requires InsideWindow(ds, from) && InTime(pic, ds + ArrivalBy(pic, e), from, e.now)
    ensures InsideWindow(ds + ArrivalBy(pic, e), from)
  {
    hide MarkerAt, Slot, Own;
  }

  lemma TimelyWaits(s: State, t: State, pic: Picture, ds: seq<Arrival>, e: Event, apple: bool, from: nat)
    requires Fits(pic) && FramingFixed(pic, apple) && Stage(s, t, pic, ds, apple) && Gentle(t, pic, e, apple)
    requires InsideWindow(ds, from) && InTime(pic, ds + ArrivalBy(pic, e), from, e.now)
    ensures Waits(t, pic, e) && InsideWindow(ds + ArrivalBy(pic, e), from)
  {
    hide Pending, Received, FramingFixed, Fits, Gentle, Apply, Waiting, InTime, InsideWindow, ArrivalBy, Stage;
    EventReceived(s, t, pic, ds, e, apple);
    WindowGrows(pic, ds, e, from);
    HeldInTime(s, Reached(t, e), pic, ds + ArrivalBy(pic, e), apple, from, e.now);
  }

  lemma {:induction false} TimelyUndisturbed(s: State, t: State, pic: Picture, ds: seq<Arrival>, events: seq<Event>,
                                             apple: bool, from: nat)
    requires Fits(pic) && FramingFixed(pic, apple) && Stage(s, t, pic, ds, apple) && GentleRun(t, pic, events, apple)
    requires InsideWindow(ds, from) && Timely(pic, ds, events, from)
    ensures Undisturbed(t, pic, events, apple) && InsideWindow(ds + Arrivals(pic, events), from)
    decreases |events|
  {
    hide Stage, Apply, Fits, FramingFixed, Gentle, Waits, ArrivalBy, InTime, InsideWindow;
    if events == [] {
      assert ds + [] == ds;
    } else {
      var e := events[0];
      TimelyWaits(s, t, pic, ds, e, apple, from);
      StepKeeps(s, t, pic, ds, e, apple);
      TimelyUndisturbed(s, Apply(t, e), pic, ds + ArrivalBy(pic, e), events[1..], apple, from);
      assert ds + ArrivalBy(pic, e) + Arrivals(pic, events[1..]) == ds + Arrivals(pic, events);
    }
  }

  /** All packets have come, and the last one of the picture is 25 ms old. */
  predicate Over(pic: Picture, ds: seq<Arrival>, now: nat) {
    && ds != [] && ArrivalsOf(pic, ds) && Complete(pic, ds)
    && (MarkerAt(pic, ds).Some? ==> SatSub(now, MarkerAt(pic, ds).value) >= HOLD_MS)
  }

  lemma OverEnds(pic: Picture, ds: seq<Arrival>, from: nat, now: nat)
    requires Fits(pic) && Over(pic, ds, now) && InsideWindow(ds, from)
    ensures ds != [] && ArrivalsOf(pic, ds) && Complete(pic, ds) && !StillHeld(pic, ds, now)
  {
    hide MarkerAt, SatSub, StillHeld, InsideWindow;
    assert Arrived(ds, Size(pic) - 1);
    var k :| 0 <= k < |ds| && ds[k].index == Size(pic) - 1;
    MarkerComes(pic, ds, k);
    TimersAre(pic, ds, from, now);
  }

  /** The picture is over, every group in front is due, and all sources are found or no longer awaited. */
  ghost predicate DueAt(t: State, pic: Picture, ds: seq<Arrival>, now: nat) {
    Over(pic, ds, now) && !Discovering(t, now) && AllDue(t, Ahead(t, pic.key), now)
  }

  lemma DueFinishes(s: State, t: State, pic: Picture, ds: seq<Arrival>, apple: bool, from: nat, now: nat)
    requires Fits(pic) && Stage(s, t, pic, ds, apple) && InsideWindow(ds, from) && DueAt(t, pic, ds, now)
    ensures HandedOutBy(t, pic, ds, PollEvent(now), apple)
  {
    hide Over, Ahead, Clears, Discovering, AllDue, InsideWindow, StillHeld, Complete, Pending;
    OverEnds(pic, ds, from, now);
    DueClears(t, pic.key, now);
    StageParts(s, t, pic, ds, apple);
    assert ds + [] == ds;
  }

  /**
   By the clock: all events come within 200 ms of the first one and, once the picture's last packet is in, within 25 ms
   of that; a poll 25 ms after it, at which every earlier group is due too, hands the picture out.
   */
  lemma TimelyPictureYieldsOneUnit(s: State, pic: Picture, cs: seq<P.Chunk>, events: seq<Event>, apple: bool,
                                   from: nat, now: nat) returns (n: nat, params: seq<Nal>)
    requires cs != [] && (forall c <- cs :: P.Valid(c)) && pic.payloads == P.AllWire(cs, apple)
    requires Fits(pic) && FramingFixed(pic, apple) && Open(s, pic.key, apple)
    requires GentleRun(s, pic, events, apple) && Timely(pic, [], events, from)
    requires DueAt(RunEvents(s, events), pic, Arrivals(pic, events), now)
    requires HasFirstSlice(P.AllCarried(cs)) && (s.haveKey || HasKeySlice(P.AllCarried(cs)))
    ensures |RunEvents(s, events).log| <= n
    ensures Delivers(s, RunEvents(s, events + [PollEvent(now)]), pic.key, P.AllCarried(cs),
                     P.Read(cs[0].donl, apple), n, params)
  {
    hide *;
    OpenStage(s, pic, apple);
    NoArrivals(from);
    TimelyUndisturbed(s, s, pic, [], events, apple, from);
    RunKeeps(s, s, pic, [], events, apple);
    assert [] + Arrivals(pic, events) == Arrivals(pic, events);
    DueFinishes(s, RunEvents(s, events), pic, Arrivals(pic, events), apple, from, now);
    n, params := PictureYieldsOneUnit(s, pic, cs, events, PollEvent(now), apple);
  }

  lemma NoArrivals(from: nat)
    ensures InsideWindow([], from)
  {
  }

  // ----- runs that stay within the budgets

  function Weight(e: Event): nat {
    if e.PushEvent? then |e.packet.payload| else 0
  }

  function Weights(events: seq<Event>): nat {
    if events == [] then 0 else Weight(events[0]) + Weights(events[1..])
  }

  /** What limits a run: the groups that get no more packets, the pictures that may come, and the sources known. */
  datatype Scope = Scope(fixed: Groups, keys: set<Key>, known: seq<u32>)

  /** At most these bytes of these pictures are pending, those of the fixed groups that still are are unchanged. */
  ghost predicate Light(t: State, c: Scope, bytes: nat) {
    && t.groups.Keys <= c.keys && Sums.Sum(t.groups, GroupBytes) <= bytes && (forall x <- c.known :: x in t.sources)
    && forall k <- c.fixed :: k in t.groups ==> t.groups[k] == c.fixed[k]
  }

  /** A poll, or a packet within the scope that keeps the framing. */
  ghost predicate Tame(pic: Picture, e: Event, c: Scope, apple: bool) {
    e.PushEvent? ==>
      && PicksOldest(e.pick)
      && (|e.packet.payload| >= 2 ==>
            var key := Key(e.packet.ssrc, e.packet.timestamp);
            && key in c.keys && key !in c.fixed && (key.ssrc in c.known || key.ssrc == pic.key.ssrc)
            && if Own(pic, e.packet) then PacketOf(pic, e.packet)
               else key.ssrc == pic.key.ssrc ==> NeverShows(e.packet.payload, apple))
  }

  /** `b` is `a` without some groups, and with another one under `key`. */
  ghost predicate Lighter(a: Groups, b: Groups, key: Key, more: nat) {
    && (forall k <- b :: k == key || (k in a && b[k] == a[k]))
    && Sums.Sum(b, GroupBytes) <= Sums.Sum(a, GroupBytes) + more
  }

  lemma KeysFit(groups: Groups, keys: set<Key>, key: Key)
    requires groups.Keys <= keys && key in keys && |keys| <= MAX_GROUPS
    ensures key in groups || |groups| < MAX_GROUPS
  {
    if key !in groups {
      assert groups.Keys <= keys - {key};
      SubsetSize(groups.Keys, keys - {key});
    }
  }

  lemma {:induction false} SubsetSize(a: set<Key>, b: set<Key>)
    requires a <= b
    ensures |a| <= |b|
    decreases |a|
  {
    if a != {} {
      var x :| x in a;
      SubsetSize(a - {x}, b - {x});
    }
  }

  lemma PutLoad(groups: Groups, key: Key, g: Group, more: nat)
    requires g.bytes <= (if key in groups then groups[key].bytes else 0) + more
    ensures Lighter(groups, groups[key := g], key, more) && Lighter(groups, groups - {key}, key, more)
  {
    hide Sums.Sum;
    if key in groups {
      Sums.SumReplace(groups, GroupBytes, key, g);
      Sums.SumTake(groups, GroupBytes, key);
    } else {
      Sums.SumAdd(groups, GroupBytes, key, g);
      assert groups - {key} == groups;
    }
  }

  lemma InsertLoad(t: State, p: Packet, now: nat)
    ensures Lighter(t.groups, Insert(t, p, now).groups, Key(p.ssrc, p.timestamp), |p.payload|)
  {
    InsertIs(t, p, now);
    var key, g := Key(p.ssrc, p.timestamp), Grown(t, p, now);
    assert g.bytes <= (if key in t.groups then t.groups[key].bytes else 0) + |p.payload|;
    hide Insert, Grown, AddPacket, RecordLoss, Lighter;
    PutLoad(t.groups, key, g, |p.payload|);
    LossKeepsGroups(t.(groups := t.groups - {key}, nextGroup := t.nextGroup + 1), ByteLimit, key);
  }

  lemma LossKeepsGroups(t: State, reason: Loss, key: Key)
    ensures RecordLoss(t, reason, key).groups == t.groups
  {
  }

  lemma TakeInLoad(t: State, p: Packet, now: nat, pick: Groups -> Key)
    requires Key(p.ssrc, p.timestamp) in t.groups || |t.groups| < MAX_GROUPS
    ensures Lighter(t.groups, TakeIn(t, p, now, pick).groups, Key(p.ssrc, p.timestamp), |p.payload|)
  {
    hide Insert, OverBudget, Prepare, Sums.Sum;
    PrepareFrame(t, p.ssrc, now);
    InsertLoad(Prepare(t, p.ssrc, now), p, now);
  }

  lemma {:induction false} PollEachLoad(t: State, keys: seq<Key>, now: nat, key: Key)
    ensures Lighter(t.groups, PollEach(t, keys, now).groups, key, 0)
    decreases |keys|
  {
    hide Handle, Passes, Sums.Sum;
    if keys != [] {
      PollEachStep(t, keys, now);
      if Passes(t, keys[0], now) {
        PassesKnown(t, keys[0], now);
        HandleFrame(t, keys[0]);
        RemoveShrinks(t.groups, keys[0]);
        PollEachLoad(Handle(t, keys[0]), keys[1..], now, key);
      }
    }
  }

  lemma PollLight(t: State, now: nat, c: Scope, bytes: nat, key: Key)
    requires Light(t, c, bytes) && key in c.keys && key !in c.fixed
    ensures Light(Poll(t, now), c, bytes)
  {
    hide Sums.Sum;
    PollEachLoad(t, KeysByOrder(t.groups, t.nextGroup), now, key);
  }

  lemma KnownInserted(t: State, ssrc: u32)
    ensures forall x <- t.sources :: x in Found(t, ssrc).sources
  {
    InsertSortedMembers(t.sources, ssrc);
  }

  lemma ReachedLight(t: State, pic: Picture, e: Event, c: Scope, bytes: nat, apple: bool)
    requires Light(t, c, bytes) && |c.keys| <= MAX_GROUPS && Tame(pic, e, c, apple) && Admits(t, pic.key.ssrc)
    ensures Light(Reached(t, e), c, bytes + Weight(e))
  {
    hide PicksOldest, NeverShows, Found, Observe, TakeIn, InsertSorted, Sums.Sum, Unstashed, PacketOf;
    if e.PushEvent? && |e.packet.payload| >= 2 {
      var p := e.packet;
      var o := Observe(t, p, e.now);
      ObserveRest(t, p, e.now);
      FoundFrame(o, p.ssrc);
      KnownInserted(o, p.ssrc);
      KeysFit(t.groups, c.keys, Key(p.ssrc, p.timestamp));
      TakeInLoad(Found(o, p.ssrc), p, e.now, e.pick);
    }
  }

  lemma TameGentle(t: State, pic: Picture, e: Event, c: Scope, bytes: nat, apple: bool)
    requires Fits(pic) && Light(t, c, bytes) && |c.keys| <= MAX_GROUPS && Tame(pic, e, c, apple)
    requires Admits(t, pic.key.ssrc) && bytes + Weight(e) <= MAX_PENDING_BYTES
    requires pic.key in t.groups || (e.PushEvent? && Own(pic, e.packet))
    ensures Gentle(t, pic, e, apple)
  {
    hide NeverShows, Sums.Sum, Unstashed, ShouldReplace, Fits;
    if e.PushEvent? {
      var p := e.packet;
      if Own(pic, p) {
        PacketFits(pic, Slot(pic, p.seqno));
      } else if |p.payload| >= 2 {
        KeysFit(t.groups, c.keys, Key(p.ssrc, p.timestamp));
      }
    }
  }

  lemma RoomyStep(s: State, t: State, pic: Picture, ds: seq<Arrival>, e: Event, c: Scope, bytes: nat, apple: bool)
    requires Fits(pic) && FramingFixed(pic, apple) && Stage(s, t, pic, ds, apple)
    requires Light(t, c, bytes) && |c.keys| <= MAX_GROUPS && Tame(pic, e, c, apple)
    requires pic.key in c.keys && pic.key !in c.fixed
    requires bytes + Weight(e) <= MAX_PENDING_BYTES && (ds == [] ==> e.PushEvent? && Own(pic, e.packet))
    ensures Gentle(t, pic, e, apple) && Light(Apply(t, e), c, bytes + Weight(e))
  {
    hide Fits, FramingFixed, Stage, Pending, Inv, Light, Tame, Own, Reached, Poll, Gentle, Apply, Admits, Weight,
      ArrivalBy;
    StageParts(s, t, pic, ds, apple);
    TameGentle(t, pic, e, c, bytes, apple);
    EventReceived(s, t, pic, ds, e, apple);
    ReachedLight(t, pic, e, c, bytes, apple);
    PollLight(Reached(t, e), e.now, c, bytes + Weight(e), pic.key);
  }

  /** The events come within the hold times, the first is a packet of the picture, and all are within the scope. */
  ghost predicate Scheduled(pic: Picture, ds: seq<Arrival>, events: seq<Event>, c: Scope, apple: bool, from: nat) {
    && (forall e <- events :: Tame(pic, e, c, apple)) && InsideWindow(ds, from) && Timely(pic, ds, events, from)
    && |c.keys| <= MAX_GROUPS && pic.key in c.keys && pic.key !in c.fixed
    && (ds == [] && events != [] ==> events[0].PushEvent? && Own(pic, events[0].packet))
  }

  /** Within the hold times, 64 pictures and 32 MiB, nothing disturbs the picture, whatever is sent. */
  lemma {:induction false} RoomyRunIsGentle(s: State, t: State, pic: Picture, ds: seq<Arrival>, events: seq<Event>,
                                            c: Scope, bytes: nat, apple: bool, from: nat)
    requires Fits(pic) && FramingFixed(pic, apple) && Stage(s, t, pic, ds, apple)
    requires Light(t, c, bytes) && bytes + Weights(events) <= MAX_PENDING_BYTES
    requires Scheduled(pic, ds, events, c, apple, from)
    ensures GentleRun(t, pic, events, apple) && Light(RunEvents(t, events), c, bytes + Weights(events))
    decreases |events|
  {
    hide Stage, Apply, Fits, FramingFixed, Gentle, Waits, ArrivalBy, InTime, InsideWindow, Light, Tame, Weight, Own;
    if events != [] {
      var e := events[0];
      RoomyStep(s, t, pic, ds, e, c, bytes, apple);
      TimelyWaits(s, t, pic, ds, e, apple, from);
      StepKeeps(s, t, pic, ds, e, apple);
      RoomyRunIsGentle(s, Apply(t, e), pic, ds + ArrivalBy(pic, e), events[1..], c, bytes + Weight(e), apple, from);
    }
  }

  /** The groups that were pending in `s` and get no more packets are due in the end. */
  lemma EarlierDue(s: State, t: State, pic: Picture, ds: seq<Arrival>, c: Scope, bytes: nat, apple: bool, now: nat)
    requires Stage(s, t, pic, ds, apple) && ds != [] && Light(t, c, bytes) && c.fixed == s.groups
    requires forall k <- s.groups :: !IsHeld(s.groups[k], now)
    ensures AllDue(t, Ahead(t, pic.key), now)
  {
    hide Inv, Ahead, AppleFraming, IsLate, Gathered, InSequence, IsHeld, Sums.Sum;
    StageParts(s, t, pic, ds, apple);
  }

  lemma ScheduledRun(s: State, pic: Picture, events: seq<Event>, c: Scope, apple: bool, from: nat)
    requires Fits(pic) && FramingFixed(pic, apple) && Open(s, pic.key, apple)
    requires Scheduled(pic, [], events, c, apple, from) && Within(s, events, c)
    ensures var t := RunEvents(s, events);
            && GentleRun(s, pic, events, apple) && Stage(s, t, pic, Arrivals(pic, events), apple)
            && Light(t, c, Sums.Sum(s.groups, GroupBytes) + Weights(events))
  {
    hide *;
    OpenStage(s, pic, apple);
    LightAtFirst(s, events, c);
    RoomyRunIsGentle(s, s, pic, [], events, c, Sums.Sum(s.groups, GroupBytes), apple, from);
    ScheduledParts(pic, events, c, apple, from);
    NoArrivals(from);
    TimelyUndisturbed(s, s, pic, [], events, apple, from);
    RunKeeps(s, s, pic, [], events, apple);
    assert [] + Arrivals(pic, events) == Arrivals(pic, events);
  }

  /** What is pending at first is fixed, the sources known are known, and all of it may be pending at once. */
  ghost predicate Within(s: State, events: seq<Event>, c: Scope) {
    && c.fixed == s.groups && s.groups.Keys <= c.keys && c.known == s.sources
    && Sums.Sum(s.groups, GroupBytes) + Weights(events) <= MAX_PENDING_BYTES
  }

  /**
   The picture theorem with conditions on the first state and on what is sent only: the groups pending at first get no
   more packets and are due when the picture is. With more than one tile, discovery must be over at the end.
   */
  lemma PictureInsideHoldWindow(s: State, pic: Picture, cs: seq<P.Chunk>, events: seq<Event>, scope: Scope,
                                apple: bool, from: nat, now: nat) returns (n: nat, params: seq<Nal>)
    requires cs != [] && (forall c <- cs :: P.Valid(c)) && pic.payloads == P.AllWire(cs, apple)
    requires Fits(pic) && FramingFixed(pic, apple) && Open(s, pic.key, apple)
    requires Scheduled(pic, [], events, scope, apple, from) && Within(s, events, scope)
    requires (forall k <- s.groups :: !IsHeld(s.groups[k], now)) && Over(pic, Arrivals(pic, events), now)
    requires s.tiles == 1 || !Discovering(RunEvents(s, events), now)
    requires HasFirstSlice(P.AllCarried(cs)) && (s.haveKey || HasKeySlice(P.AllCarried(cs)))
    ensures |RunEvents(s, events).log| <= n
    ensures Delivers(s, RunEvents(s, events + [PollEvent(now)]), pic.key, P.AllCarried(cs),
                     P.Read(cs[0].donl, apple), n, params)
  {
    hide *;
    var t, ds := RunEvents(s, events), Arrivals(pic, events);
    ScheduledRun(s, pic, events, scope, apple, from);
    ScheduledParts(pic, events, scope, apple, from);
    OverParts(pic, ds, now);
    LightAtFirst(s, events, scope);
    EarlierDue(s, t, pic, ds, scope, Sums.Sum(s.groups, GroupBytes) + Weights(events), apple, now);
    if s.tiles == 1 {
      OneTileSettled(s, t, pic, ds, apple, now);
    }
    DueIs(t, pic, ds, now);
    n, params := TimelyPictureYieldsOneUnit(s, pic, cs, events, apple, from, now);
  }

  lemma LightAtFirst(s: State, events: seq<Event>, c: Scope)
    requires Within(s, events, c)
    ensures Light(s, c, Sums.Sum(s.groups, GroupBytes)) && c.fixed == s.groups
    ensures Sums.Sum(s.groups, GroupBytes) + Weights(events) <= MAX_PENDING_BYTES
  {
  }

  lemma ScheduledParts(pic: Picture, events: seq<Event>, c: Scope, apple: bool, from: nat)
    requires Scheduled(pic, [], events, c, apple, from)
    ensures Timely(pic, [], events, from)
  {
  }

  lemma OverParts(pic: Picture, ds: seq<Arrival>, now: nat)
    requires Over(pic, ds, now)
    ensures ds != []
  {
  }

  lemma DueIs(t: State, pic: Picture, ds: seq<Arrival>, now: nat)
    requires Over(pic, ds, now) && !Discovering(t, now) && AllDue(t, Ahead(t, pic.key), now)
    ensures DueAt(t, pic, ds, now)
  {
  }

  // ----- a plain window

  lemma {:induction false} MarkerSince(pic: Picture, ds: seq<Arrival>, from: nat, until: nat)
    requires forall d <- ds :: from <= d.at < until
    ensures MarkerAt(pic, ds).Some? ==> from <= MarkerAt(pic, ds).value < until
    decreases |ds|
  {
    if ds != [] {
      assert ds[|ds| - 1] in ds;
      MarkerSince(pic, ds[..|ds| - 1], from, until);
    }
  }

  /** Whatever comes within 25 ms is timely. */
  lemma {:induction false} PlainWindow(pic: Picture, ds: seq<Arrival>, events: seq<Event>, from: nat)
    requires forall d <- ds :: from <= d.at < from + HOLD_MS
    requires forall e <- events :: from <= e.now < from + HOLD_MS
    ensures Timely(pic, ds, events, from)
    ensures forall d <- ds + Arrivals(pic, events) :: from <= d.at < from + HOLD_MS
    decreases |events|
  {
    hide MarkerAt, Slot, Own;
    if events == [] {
      assert ds + [] == ds;
    } else {
      var e := events[0];
      var after := ds + ArrivalBy(pic, e);
      assert e in events;
      MarkerSince(pic, after, from, from + HOLD_MS);
      PlainWindow(pic, after, events[1..], from);
      assert after + Arrivals(pic, events[1..]) == ds + Arrivals(pic, events);
    }
  }

  lemma PlainOver(pic: Picture, ds: seq<Arrival>, from: nat, now: nat)
    requires ds != [] && ArrivalsOf(pic, ds) && Complete(pic, ds) && now >= from + 2 * HOLD_MS
    requires forall d <- ds :: from <= d.at < from + HOLD_MS
    ensures Over(pic, ds, now)
  {
    hide MarkerAt, Complete;
    MarkerSince(pic, ds, from, from + HOLD_MS);
  }

  /** A depacketizer of one tile that knows the picture's source awaits no other. */
  lemma OneTileSettled(s: State, t: State, pic: Picture, ds: seq<Arrival>, apple: bool, now: nat)
    requires Stage(s, t, pic, ds, apple) && ds != [] && s.tiles == 1
    ensures !Discovering(t, now)
  {
    StageParts(s, t, pic, ds, apple);
    OthersPlain(t, pic.key, pic.key.ssrc);
    hide Inv, AppleFraming, IsLate, Gathered, InSequence, NoneOvertakes;
  }

  /** At the head of the queue of a single tile, a picture is finished as soon as its own time is over. */
  lemma HeadFinishes(s: State, t: State, pic: Picture, ds: seq<Arrival>, events: seq<Event>, apple: bool, from: nat,
                     now: nat)
    requires Fits(pic) && FramingFixed(pic, apple) && Stage(s, t, pic, ds, apple) && s.groups == map[] && s.tiles == 1
    requires GentleRun(t, pic, events, apple) && InsideWindow(ds, from) && Timely(pic, ds, events, from)
    requires Over(pic, ds + Arrivals(pic, events), now)
    ensures Undisturbed(t, pic, events, apple)
    ensures HandedOutBy(RunEvents(t, events), pic, ds + Arrivals(pic, events), PollEvent(now), apple)
  {
    hide *;
    var u, all := RunEvents(t, events), ds + Arrivals(pic, events);
    TimelyUndisturbed(s, t, pic, ds, events, apple, from);
    RunKeeps(s, t, pic, ds, events, apple);
    OverParts(pic, all, now);
    NobodyAhead(s, u, pic, all, apple, now);
    OneTileSettled(s, u, pic, all, apple, now);
    DueIs(u, pic, all, now);
    DueFinishes(s, u, pic, all, apple, from, now);
  }
}
