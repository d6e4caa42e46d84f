/**
 A new source that starts sending while the old one falls silent: its packets are kept back one by one, its eighth
 packet takes over, and the picture they belong to is handed out whole, whatever else happens in between.
 */
module HandoffTheorems {
  import opened Bytes
  import opened Hevc
  import opened DepacketizerModel
  import opened DepacketizerInvariants
  import opened PictureDelivery
  import opened Reception
  import opened PictureRuns
  import opened PictureTheorems
  import opened TimedRuns
  import opened QuietRuns
  import P = Packetization
  import Sums

  // ----- replaying what was kept

  /** The packets of these arrivals, in order. */
  function PacketsOf(pic: Picture, ds: seq<Arrival>): seq<Packet>
    requires ArrivalsOf(pic, ds)
    decreases |ds|
  {
    if ds == [] then [] else [PacketAt(pic, ds[0].index)] + PacketsOf(pic, ds[1..])
  }

  /** What comes at one instant is held at that instant. */
  lemma SameInstant(pic: Picture, ds: seq<Arrival>, now: nat)
    requires forall d <- ds :: d.at == now
    ensures InsideWindow(ds, now) && InTime(pic, ds, now, now)
  {
    hide MarkerAt;
    MarkerSince(pic, ds, now, now + 1);
  }

  lemma ReplayStep(s: State, t: State, pic: Picture, before: seq<Arrival>, d: Arrival, apple: bool, pick: Groups -> Key)
    requires Fits(pic) && ArrivalsOf(pic, before) && d.index < Size(pic) && PicksOldest(pick)
    requires forall a <- before + [d] :: a.at == d.at
    requires Stage(s, t, pic, before, apple) && Sole(t.groups, pic.key) && pic.key.ssrc in t.sources
    ensures var r := PushSelected(t, PacketAt(pic, d.index), d.at, pick);
            Stage(s, r, pic, before + [d], apple) && Sole(r.groups, pic.key) && r.sources == t.sources
  {
    hide Kept, TakeIn, Poll, Fits, OverBudget, PicksOldest, Gathered, InTime, InsideWindow, Waiting, Seqno;
    var p, after := PacketAt(pic, d.index), before + [d];
    SoleBudget(s, t, pic, before, apple, d);
    TakeInOwn(s, t, pic, before, d, apple, pick);
    var u := TakeIn(t, p, d.at, pick);
    KeptInv(s, t, pic.key, Part(t, pic, before), apple);
    TakeInShape(t, pic, before, d, pick);
    SameInstant(pic, after, d.at);
    HeldInTime(s, u, pic, after, apple, d.at, d.at);
    PollSole(s, u, pic.key, Part(u, pic, after).value, apple, d.at);
  }

  lemma {:induction false} Replay(s: State, t: State, pic: Picture, before: seq<Arrival>, ds: seq<Arrival>, apple: bool,
                                  now: nat, pick: Groups -> Key)
    requires Fits(pic) && ArrivalsOf(pic, before) && ArrivalsOf(pic, ds) && PicksOldest(pick)
    requires forall d <- before + ds :: d.at == now
    requires Stage(s, t, pic, before, apple) && Sole(t.groups, pic.key) && pic.key.ssrc in t.sources
    ensures Stage(s, PushEach(t, PacketsOf(pic, ds), now, pick), pic, before + ds, apple)
    decreases |ds|
  {
    hide Stage, Fits, PushSelected, PacketAt, PicksOldest, Sole;
    if ds == [] {
      assert before + ds == before;
    } else {
      var d, rest := ds[0], ds[1..];
      assert d in before + ds;
      assert before + ds == before + [d] + rest;
      assert forall a <- before + [d] :: a in before + ds;
      ReplayStep(s, t, pic, before, d, apple, pick);
      assert PacketsOf(pic, ds)[1..] == PacketsOf(pic, rest);
      Replay(s, PushSelected(t, PacketAt(pic, d.index), now, pick), pic, before + [d], rest, apple, now, pick);
    }
  }

  // ----- taking over

  /** The state in which a handoff to `ssrc` starts to assemble: a new generation that knows only this source. */
  function TakenOver(s: State, ssrc: u32): State
    requires ssrc in s.observed
  {
    Adopt(HandOver(s), ssrc).(observed := s.observed[ssrc := s.observed[ssrc].(prefix := [], prefixBytes := 0)])
  }

  /** What was kept of the source before its adoption are these packets of the picture. */
  predicate KeptBack(s: State, pic: Picture, ds: seq<Arrival>)
    requires ArrivalsOf(pic, ds)
  {
    pic.key.ssrc in s.observed && s.observed[pic.key.ssrc].prefix == PacketsOf(pic, ds)
  }

  lemma {:induction false} PacketsOfSnoc(pic: Picture, ds: seq<Arrival>, d: Arrival)
    requires ArrivalsOf(pic, ds) && d.index < Size(pic)
    ensures ArrivalsOf(pic, ds + [d]) && PacketsOf(pic, ds + [d]) == PacketsOf(pic, ds) + [PacketAt(pic, d.index)]
    decreases |ds|
  {
    hide PacketAt;
    if ds == [] {
      assert PacketsOf(pic, [d][1..]) == [];
    } else {
      PacketsOfSnoc(pic, ds[1..], d);
      assert (ds + [d])[1..] == ds[1..] + [d];
    }
  }

  lemma TakenOverOpen(s: State, key: Key, apple: bool)
    requires Inv(s) && s.tiles == 1 && key.ssrc in s.observed && key.ssrc !in s.sources
    requires AppleFraming(s, key.ssrc) == apple
    ensures var b := TakenOver(s, key.ssrc);
            && Open(b, key, apple) && b.groups == map[] && b.sources == [key.ssrc] && b.tiles == 1
            && b.generation == s.generation + 1 && b.log == s.log + [Handoff]
  {
    hide TableOk, HistoryOk, Strict, GroupOk, InsertSorted;
    HandOverInv(s);
    AdoptOk(HandOver(s), key.ssrc);
    AdoptsOnly(HandOver(s), key.ssrc);
    var a := Adopt(HandOver(s), key.ssrc);
    var o := s.observed[key.ssrc].(prefix := [], prefixBytes := 0);
    assert ObservationOk(key.ssrc, o);
    assert Sums.Sum(a.groups, GroupBytes) == 0;
    TakenOverInv(a, key.ssrc, o);
  }

  lemma AdoptsOnly(s: State, ssrc: u32)
    requires s.sources == []
    ensures Adopt(s, ssrc).sources == [ssrc]
  {
  }

  lemma TakenOverInv(a: State, ssrc: u32, o: Observation)
    requires Adopting(a, ssrc) && ssrc in a.observed && ObservationOk(ssrc, o) && o.prefix == []
    ensures Inv(a.(observed := a.observed[ssrc := o]))
  {
    hide TableOk, HistoryOk, ObservationOk, Strict;
    Sums.SizePut(a.observed, ssrc, o);
    HistoryFrame(a, a.observed[ssrc := o]);
  }

  lemma HandoffIsReplay(s: State, p: Packet, now: nat, pick: Groups -> Key)
    requires s.tiles == 1 && s.sources != [] && TakesOver(s, p, now)
    ensures var o := Observe(s, p, now);
            Push(s, p, now, pick) == PushEach(TakenOver(o, p.ssrc), o.observed[p.ssrc].prefix + [p], now, pick)
  {
    hide PushEach, PushSelected, Poll;
  }

  /** The push that hands over replays what was kept, so the picture in progress is pending in the new generation. */
  lemma HandoffPush(s: State, pic: Picture, kept: seq<Arrival>, d: Arrival, apple: bool, pick: Groups -> Key)
    requires Inv(s) && s.tiles == 1 && Fits(pic) && PicksOldest(pick)
    requires ArrivalsOf(pic, kept) && d.index < Size(pic) && (forall a <- kept :: a.at == d.at)
    requires |PacketAt(pic, d.index).payload| >= 2 && s.sources != [] && TakesOver(s, PacketAt(pic, d.index), d.at)
    requires var o := Observe(s, PacketAt(pic, d.index), d.at);
             KeptBack(o, pic, kept) && AppleFraming(o, pic.key.ssrc) == apple
    ensures var b := TakenOver(Observe(s, PacketAt(pic, d.index), d.at), pic.key.ssrc);
            && Stage(b, Push(s, PacketAt(pic, d.index), d.at, pick), pic, kept + [d], apple)
            && b.groups == map[] && b.sources == [pic.key.ssrc] && b.tiles == 1
            && b.generation == s.generation + 1 && b.log == s.log + [Handoff]
  {
    hide Inv, PushEach, ShouldReplace, Push, IsLate, AppleFraming, TakenOver, Stage, Open;
    var p := PacketAt(pic, d.index);
    ObserveInv(s, p, d.at);
    ObserveRest(s, p, d.at);
    ObserveFrame(s, p, d.at);
    HandoffIsReplay(s, p, d.at, pick);
    hide Fits, Observe;
    var o := Observe(s, p, d.at);
    TakenOverOpen(o, pic.key, apple);
    PacketsOfSnoc(pic, kept, d);
    var b := TakenOver(o, pic.key.ssrc);
    OpenStage(b, pic, apple);
    assert [] + (kept + [d]) == kept + [d];
    Replay(b, b, pic, [], kept + [d], apple, d.at, pick);
  }

  /** This packet replaces the only source, and these arrivals of the same picture were kept back before. */
  ghost predicate HandsOver(s: State, pic: Picture, kept: seq<Arrival>, d: Arrival, apple: bool) {
    && Inv(s) && s.tiles == 1 && s.sources != [] && ArrivalsOf(pic, kept) && d.index < Size(pic)
    && (forall a <- kept :: a.at == d.at)
    && |PacketAt(pic, d.index).payload| >= 2 && TakesOver(s, PacketAt(pic, d.index), d.at)
    && var o := Observe(s, PacketAt(pic, d.index), d.at);
       KeptBack(o, pic, kept) && AppleFraming(o, pic.key.ssrc) == apple
  }

  /** The first state of the new generation. */
  ghost function Reborn(s: State, p: Packet, now: nat): State {
    if |p.payload| >= 2 && p.ssrc in Observe(s, p, now).observed then TakenOver(Observe(s, p, now), p.ssrc) else s
  }

  /**
   A handoff keeps the picture that is arriving. Its first packets came while the source was unknown, one more
   triggers the handoff, the rest follow, with anything else and any polls in between; the new generation still hands
   out the whole picture, which must be a key picture, and no unit before it.
   */
  lemma HandoffKeepsPicture(s: State, pic: Picture, cs: seq<P.Chunk>, kept: seq<Arrival>, d: Arrival,
                            events: seq<Event>, last: Event, apple: bool, pick: Groups -> Key)
    returns (n: nat, params: seq<Nal>)
    requires cs != [] && (forall c <- cs :: P.Valid(c)) && pic.payloads == P.AllWire(cs, apple)
    requires Fits(pic) && FramingFixed(pic, apple) && PicksOldest(pick)
    requires d.index < Size(pic) && HandsOver(s, pic, kept, d, apple)
    requires Undisturbed(Push(s, PacketAt(pic, d.index), d.at, pick), pic, events, apple)
    requires HandedOutBy(RunEvents(Push(s, PacketAt(pic, d.index), d.at, pick), events), pic,
                         kept + [d] + Arrivals(pic, events), last, apple)
    requires HasFirstSlice(P.AllCarried(cs)) && HasKeySlice(P.AllCarried(cs))
    ensures var b := Reborn(s, PacketAt(pic, d.index), d.at);
            && b.generation == s.generation + 1 && b.log == s.log + [Handoff] && b.sources == [pic.key.ssrc]
            && b.groups == map[]
            && Delivers(b, RunEvents(s, [PushEvent(PacketAt(pic, d.index), d.at, pick)] + events + [last]),
                        pic.key, P.AllCarried(cs), P.Read(cs[0].donl, apple), n, params)
  {
    hide *;
    var p := PacketAt(pic, d.index);
    var b := Reborn(s, p, d.at);
    HandoffStage(s, pic, kept, d, apple, pick);
    var e := PushEvent(p, d.at, pick);
    PushApplied(s, p, d.at, pick);
    n, params := PendingPictureYieldsOneUnit(b, Push(s, p, d.at, pick), pic, cs, kept + [d], events, last, apple);
    assert [e] + events + [last] == [e] + (events + [last]);
    RunJoin(s, [e], events + [last]);
    RunOne(s, e);
  }

  lemma PushApplied(t: State, p: Packet, now: nat, pick: Groups -> Key)
    ensures Apply(t, PushEvent(p, now, pick)) == Push(t, p, now, pick)
  {
  }

  lemma HandoffStage(s: State, pic: Picture, kept: seq<Arrival>, d: Arrival, apple: bool, pick: Groups -> Key)
    requires Fits(pic) && PicksOldest(pick) && d.index < Size(pic) && HandsOver(s, pic, kept, d, apple)
    ensures ArrivalsOf(pic, kept + [d])
    ensures var b := Reborn(s, PacketAt(pic, d.index), d.at);
            && Stage(b, Push(s, PacketAt(pic, d.index), d.at, pick), pic, kept + [d], apple)
            && b.groups == map[] && b.sources == [pic.key.ssrc] && b.tiles == 1
            && b.generation == s.generation + 1 && b.log == s.log + [Handoff]
  {
    hide Inv, Push, TakesOver, PicksOldest, Stage, AppleFraming, TakenOver, Observe;
    HandoffPush(s, pic, kept, d, apple, pick);
  }

  // ----- keeping the packets of a candidate

  /** The bytes of these arrivals. */
  function KeptBytes(pic: Picture, ds: seq<Arrival>): nat
    requires ArrivalsOf(pic, ds)
  {
    if ds == [] then 0 else KeptBytes(pic, ds[..|ds| - 1]) + |pic.payloads[ds[|ds| - 1].index]|
  }

  /** One settled source, and a second one that has never been seen. */
  ghost predicate Unseen(s: State, ssrc: u32) {
    Inv(s) && s.tiles == 1 && |s.sources| == 1 && ssrc !in s.sources && ssrc !in s.observed
  }

  /** Of the second source exactly these arrivals are kept, and nobody has taken over. */
  ghost predicate Keeping(s: State, t: State, pic: Picture, ds: seq<Arrival>) {
    && Inv(t) && t.tiles == 1 && t.sources == s.sources && t.generation == s.generation && ArrivalsOf(pic, ds)
    && (ds == [] <==> pic.key.ssrc !in t.observed)
    && (ds != [] ==>
          var o := t.observed[pic.key.ssrc];
          o.packets == |ds| && o.prefix == PacketsOf(pic, ds) && o.prefixBytes == KeptBytes(pic, ds))
  }

  /** A poll, a packet of another source that does not take over, or one of the picture while there is room for it. */
  ghost predicate Courts(t: State, pic: Picture, ds: seq<Arrival>, e: Event) {
    e.PushEvent? ==>
      && PicksOldest(e.pick)
      && if e.packet.ssrc != pic.key.ssrc || |e.packet.payload| < 2 then !TakesOver(t, e.packet, e.now)
         else
           && Own(pic, e.packet) && PacketOf(pic, e.packet) && ArrivalsOf(pic, ds) && |ds| + 1 < ADOPTION_PACKETS
           && (ds == [] ==> |t.observed| < MAX_OBSERVED)
           && KeptBytes(pic, ds) + |e.packet.payload| <= MAX_CANDIDATE_BYTES
  }

  ghost predicate Courting(t: State, pic: Picture, ds: seq<Arrival>, events: seq<Event>)
    decreases |events|
  {
    events == [] ||
    (Courts(t, pic, ds, events[0])
     && Courting(Apply(t, events[0]), pic, ds + ArrivalBy(pic, events[0]), events[1..]))
  }

  /** A candidate's packet that fits and does not take over is kept, and the old source goes on as before. */
  lemma StashFits(t: State, p: Packet, now: nat, pick: Groups -> Key)
    requires |p.payload| >= 2 && t.tiles == 1 && |t.sources| == 1 && p.ssrc !in t.sources
    requires p.ssrc in t.observed || |t.observed| < MAX_OBSERVED
    requires var o := Observe(t, p, now).observed[p.ssrc];
             && o.packets < ADOPTION_PACKETS && |o.prefix| < MAX_CANDIDATE_PACKETS
             && 0 <= o.prefixBytes && o.prefixBytes + |p.payload| <= MAX_CANDIDATE_BYTES
    ensures var o := Observe(t, p, now).observed[p.ssrc]; var u := Push(t, p, now, pick);
            && u.tiles == t.tiles && u.sources == t.sources && u.generation == t.generation
            && u.observed
               == t.observed[p.ssrc := o.(prefix := o.prefix + [p], prefixBytes := o.prefixBytes + |p.payload|)]
  {
    hide Poll, Inferred, Deliver;
    var v := Observe(t, p, now);
    assert Evict(v.observed[p.ssrc], |p.payload|) == v.observed[p.ssrc];
    assert Push(t, p, now, pick) == Poll(Stash(v, p), now);
  }

  lemma ObservedNow(t: State, p: Packet, now: nat)
    requires |p.payload| >= 2 && (p.ssrc in t.observed || |t.observed| < MAX_OBSERVED)
    ensures var u := Observe(t, p, now);
            && p.ssrc in u.observed
            && (var o := u.observed[p.ssrc];
                && o.last == now
                && o.packets == (if p.ssrc in t.observed then t.observed[p.ssrc].packets else 0) + 1
                && o.prefix == (if p.ssrc in t.observed then t.observed[p.ssrc].prefix else [])
                && o.prefixBytes == (if p.ssrc in t.observed then t.observed[p.ssrc].prefixBytes else 0))
  {
    hide Inferred;
    if p.ssrc in t.observed {
      InferredPrefix(t.observed[p.ssrc].(packets := t.observed[p.ssrc].packets + 1, last := now), p.payload);
    } else {
      InferredPrefix(Observation(1, now, None, [], [], 0), p.payload);
    }
  }

  lemma OneMore(pic: Picture, ds: seq<Arrival>, d: Arrival)
    requires ArrivalsOf(pic, ds) && d.index < Size(pic)
    ensures ArrivalsOf(pic, ds + [d]) && PacketsOf(pic, ds + [d]) == PacketsOf(pic, ds) + [PacketAt(pic, d.index)]
    ensures KeptBytes(pic, ds + [d]) == KeptBytes(pic, ds) + |pic.payloads[d.index]|
    ensures |PacketsOf(pic, ds)| == |ds|
  {
    hide PacketAt, PacketsOf;
    PacketsOfSnoc(pic, ds, d);
    PacketsOfSize(pic, ds);
    assert (ds + [d])[..|ds|] == ds;
  }

  lemma {:induction false} PacketsOfSize(pic: Picture, ds: seq<Arrival>)
    requires ArrivalsOf(pic, ds)
    ensures |PacketsOf(pic, ds)| == |ds|
    decreases |ds|
  {
    if ds != [] {
      PacketsOfSize(pic, ds[1..]);
    }
  }

  lemma KeptNone(pic: Picture)
    ensures ArrivalsOf(pic, []) && KeptBytes(pic, []) == 0 && PacketsOf(pic, []) == []
  {
  }

  /** One more packet of the candidate is kept. */
  lemma KeepOwn(s: State, t: State, pic: Picture, ds: seq<Arrival>, p: Packet, now: nat, pick: Groups -> Key)
    requires Unseen(s, pic.key.ssrc) && Keeping(s, t, pic, ds)
    requires Courts(t, pic, ds, PushEvent(p, now, pick)) && Own(pic, p)
    ensures Keeping(s, Push(t, p, now, pick), pic, ds + [Arrival(Slot(pic, p.seqno), now)])
  {
    hide Inv, Push, Observe, KeptBytes, PacketsOf, Slot, Seqno, PicksOldest;
    var d := Arrival(Slot(pic, p.seqno), now);
    OneMore(pic, ds, d);
    KeptNone(pic);
    ObservedNow(t, p, now);
    StashFits(t, p, now, pick);
    PushInv(t, p, now, pick);
  }

  /** A packet of another source that does not take over leaves the candidate alone. */
  lemma PushElse(t: State, p: Packet, now: nat, pick: Groups -> Key)
    requires |t.sources| >= t.tiles && !TakesOver(t, p, now)
    ensures var u := Push(t, p, now, pick);
            && u.tiles == t.tiles && u.sources == t.sources && u.generation == t.generation
            && u.observed - {p.ssrc} == t.observed - {p.ssrc}
            && (|p.payload| < 2 ==> u.observed == t.observed)
  {
    hide Poll, PushEach, Observe, Stash, ShouldReplace;
    if |p.payload| >= 2 {
      ObserveFrame(t, p, now);
      StashFrame(Observe(t, p, now), p);
    }
  }

  lemma KeepOther(s: State, t: State, pic: Picture, ds: seq<Arrival>, p: Packet, now: nat, pick: Groups -> Key)
    requires Unseen(s, pic.key.ssrc) && Keeping(s, t, pic, ds)
    requires Courts(t, pic, ds, PushEvent(p, now, pick)) && (p.ssrc != pic.key.ssrc || |p.payload| < 2)
    ensures Keeping(s, Push(t, p, now, pick), pic, ds)
  {
    hide Inv, Push, KeptBytes, PacketsOf, TakesOver, PicksOldest;
    PushInv(t, p, now, pick);
    PushElse(t, p, now, pick);
    if p.ssrc != pic.key.ssrc {
      OtherKept(t.observed, Push(t, p, now, pick).observed, p.ssrc, pic.key.ssrc);
    }
  }

  lemma KeepStep(s: State, t: State, pic: Picture, ds: seq<Arrival>, e: Event)
    requires Unseen(s, pic.key.ssrc) && Keeping(s, t, pic, ds) && Courts(t, pic, ds, e)
    ensures Keeping(s, Apply(t, e), pic, ds + ArrivalBy(pic, e))
  {
    hide Inv, Push, Poll, KeptBytes, PacketsOf, TakesOver, PicksOldest, Slot, Unseen;
    assert ds + [] == ds;
    if e.PollEvent? {
      hide ArrivalsOf;
      PollInv(t, e.now);
    } else if e.packet.ssrc != pic.key.ssrc || |e.packet.payload| < 2 {
      hide Keeping;
      KeepOther(s, t, pic, ds, e.packet, e.now, e.pick);
    } else {
      hide Keeping;
      KeepOwn(s, t, pic, ds, e.packet, e.now, e.pick);
    }
  }

  /**
   The first packets of a new source are all kept, in order, while polls, packets of the old source and packets of
   others that do not take over come in between.
   */
  lemma {:induction false} RunKeepsBack(s: State, t: State, pic: Picture, ds: seq<Arrival>, events: seq<Event>)
    requires Unseen(s, pic.key.ssrc) && Keeping(s, t, pic, ds) && Courting(t, pic, ds, events)
    ensures Keeping(s, RunEvents(t, events), pic, ds + Arrivals(pic, events))
    decreases |events|
  {
    hide Keeping, Unseen, Courts, Apply, ArrivalBy;
    if events == [] {
      assert ds + [] == ds;
    } else {
      var e := events[0];
      KeepStep(s, t, pic, ds, e);
      RunKeepsBack(s, Apply(t, e), pic, ds + ArrivalBy(pic, e), events[1..]);
      assert ds + ArrivalBy(pic, e) + Arrivals(pic, events[1..]) == ds + Arrivals(pic, events);
    }
  }

  lemma KeepsNothing(s: State, pic: Picture)
    requires Unseen(s, pic.key.ssrc)
    ensures Keeping(s, s, pic, [])
  {
    hide Inv;
  }

  /** The old source was last seen by `until`. */
  predicate SeenBy(t: State, until: nat) {
    t.sources != [] && t.sources[0] in t.observed && t.observed[t.sources[0]].last <= until
  }

  lemma KnownObserved(t: State, p: Packet, now: nat, pick: Groups -> Key)
    requires |p.payload| >= 2 && p.ssrc in t.sources && p.ssrc in t.observed
    ensures p.ssrc in Push(t, p, now, pick).observed && Push(t, p, now, pick).observed[p.ssrc].last == now
  {
    hide PushEach, Inferred;
    ObservedNow(t, p, now);
  }

  lemma SeenStep(s: State, t: State, pic: Picture, ds: seq<Arrival>, e: Event, until: nat)
    requires Unseen(s, pic.key.ssrc) && Keeping(s, t, pic, ds) && Courts(t, pic, ds, e)
    requires SeenBy(t, until) && e.now <= until
    ensures SeenBy(Apply(t, e), until)
  {
    hide Inv, Push, Poll, KeptBytes, PacketsOf, TakesOver, PicksOldest, Slot, Observe;
    if e.PushEvent? {
      var p, x := e.packet, t.sources[0];
      if p.ssrc != pic.key.ssrc || |p.payload| < 2 {
        PushElse(t, p, e.now, e.pick);
        if p.ssrc == x && |p.payload| >= 2 {
          KnownObserved(t, p, e.now, e.pick);
        } else if |p.payload| >= 2 {
          OtherKept(t.observed, Push(t, p, e.now, e.pick).observed, p.ssrc, x);
        }
      } else {
        PacketsOfSize(pic, ds);
        KeptNone(pic);
        ObservedNow(t, p, e.now);
        StashFits(t, p, e.now, e.pick);
      }
    }
  }

  /** A source is quiet 100 ms after the last event, whatever came in between. */
  lemma {:induction false} SeenThroughout(s: State, t: State, pic: Picture, ds: seq<Arrival>, events: seq<Event>,
                                          until: nat)
    requires Unseen(s, pic.key.ssrc) && Keeping(s, t, pic, ds) && Courting(t, pic, ds, events)
    requires SeenBy(t, until) && forall e <- events :: e.now <= until
    ensures SeenBy(RunEvents(t, events), until)
    decreases |events|
  {
    hide Keeping, Unseen, Courts, Apply, ArrivalBy, SeenBy;
    if events != [] {
      SeenStep(s, t, pic, ds, events[0], until);
      KeepStep(s, t, pic, ds, events[0]);
      SeenThroughout(s, Apply(t, events[0]), pic, ds + ArrivalBy(pic, events[0]), events[1..], until);
    }
  }

  lemma FramingStep(s: State, t: State, pic: Picture, ds: seq<Arrival>, e: Event)
    requires Unseen(s, pic.key.ssrc) && Fits(pic) && FramingFixed(pic, true) && Keeping(s, t, pic, ds)
    requires Courts(t, pic, ds, e) && AppleFraming(t, pic.key.ssrc)
    ensures AppleFraming(Apply(t, e), pic.key.ssrc)
  {
    hide Inv, Push, Poll, KeptBytes, PacketsOf, TakesOver, PicksOldest, Slot, AppleFraming, NeverShows, Observe, Fits;
    var u := Apply(t, e);
    if e.PollEvent? {
      SameFraming(t, u, pic.key.ssrc);
    } else if e.packet.ssrc != pic.key.ssrc || |e.packet.payload| < 2 {
      PushElse(t, e.packet, e.now, e.pick);
      if e.packet.ssrc != pic.key.ssrc {
        OtherKept(t.observed, u.observed, e.packet.ssrc, pic.key.ssrc);
      }
      SameFraming(t, u, pic.key.ssrc);
    } else {
      assert e.packet.payload in pic.payloads;
      PacketsOfSize(pic, ds);
      KeptNone(pic);
      ObservedNow(t, e.packet, e.now);
      StashFits(t, e.packet, e.now, e.pick);
      FramingKept(t, e.packet, e.now, pic.key.ssrc, true);
      SameFraming(Observe(t, e.packet, e.now), u, pic.key.ssrc);
    }
  }

  /** Apple's framing is assumed of a new source, and a picture that never shows the other one keeps it so. */
  lemma {:induction false} AppleThroughout(s: State, t: State, pic: Picture, ds: seq<Arrival>, events: seq<Event>)
    requires Unseen(s, pic.key.ssrc) && Fits(pic) && FramingFixed(pic, true) && Keeping(s, t, pic, ds)
    requires Courting(t, pic, ds, events) && AppleFraming(t, pic.key.ssrc)
    ensures AppleFraming(RunEvents(t, events), pic.key.ssrc)
    decreases |events|
  {
    hide Keeping, Unseen, Courts, Apply, ArrivalBy, AppleFraming, Fits, FramingFixed;
    if events != [] {
      FramingStep(s, t, pic, ds, events[0]);
      KeepStep(s, t, pic, ds, events[0]);
      AppleThroughout(s, Apply(t, events[0]), pic, ds + ArrivalBy(pic, events[0]), events[1..]);
    }
  }

  // ----- from the first packet to the unit

  /** The same arrivals, all at one instant: the replay of what was kept. */
  function At(ds: seq<Arrival>, now: nat): (r: seq<Arrival>)
    ensures |r| == |ds| && forall i :: 0 <= i < |ds| ==> r[i] == Arrival(ds[i].index, now)
  {
    seq(|ds|, i requires 0 <= i < |ds| => Arrival(ds[i].index, now))
  }

  lemma {:induction false} SamePackets(pic: Picture, ds: seq<Arrival>, now: nat)
    requires ArrivalsOf(pic, ds)
    ensures ArrivalsOf(pic, At(ds, now)) && PacketsOf(pic, At(ds, now)) == PacketsOf(pic, ds)
    decreases |ds|
  {
    forall d | d in At(ds, now) ensures d.index < Size(pic) {
      var i :| 0 <= i < |ds| && At(ds, now)[i] == d;
      assert ds[i] in ds;
    }
    if ds != [] {
      SamePackets(pic, ds[1..], now);
      assert At(ds, now)[1..] == At(ds[1..], now);
    }
  }

  /** The only source has sent nothing for 100 ms. */
  predicate Silenced(t: State, now: nat) {
    t.sources != [] && t.sources[0] in t.observed && SatSub(now, t.observed[t.sources[0]].last) >= QUIET_MS
  }

  /** After seven packets the eighth takes over, if the old source has been quiet. */
  lemma EighthTakesOver(s: State, t: State, pic: Picture, kept: seq<Arrival>, d: Arrival, apple: bool)
    requires Unseen(s, pic.key.ssrc) && Keeping(s, t, pic, kept) && |kept| == ADOPTION_PACKETS - 1
    requires d.index < Size(pic) && |pic.payloads[d.index]| >= 2 && Silenced(t, d.at)
    requires AppleFraming(Observe(t, PacketAt(pic, d.index), d.at), pic.key.ssrc) == apple
    ensures HandsOver(t, pic, At(kept, d.at), d, apple)
  {
    hide Inv, PacketsOf, KeptBytes, Observe, AppleFraming;
    var p := PacketAt(pic, d.index);
    ObservedNow(t, p, d.at);
    ObserveFrame(t, p, d.at);
    SamePackets(pic, kept, d.at);
    var o := Observe(t, p, d.at);
    OtherKept(t.observed, o.observed, p.ssrc, t.sources[0]);
  }

  /**
   From the first packet of a source that was never seen before: seven of its packets are kept back while the old
   source still sends and is polled, the eighth takes over once the old one has been quiet, and the rest follow among
   anything else. The key picture they make up comes out whole, as the first unit of the new generation.
   */
  lemma NewSourceKeepsPicture(s: State, pic: Picture, cs: seq<P.Chunk>, courting: seq<Event>, d: Arrival,
                              pick: Groups -> Key, events: seq<Event>, last: Event, apple: bool)
    returns (n: nat, params: seq<Nal>)
    requires cs != [] && (forall c <- cs :: P.Valid(c)) && pic.payloads == P.AllWire(cs, apple)
    requires Fits(pic) && FramingFixed(pic, apple) && PicksOldest(pick) && Unseen(s, pic.key.ssrc)
    requires Courting(s, pic, [], courting) && |Arrivals(pic, courting)| == ADOPTION_PACKETS - 1
    requires d.index < Size(pic) && |pic.payloads[d.index]| >= 2 && Silenced(RunEvents(s, courting), d.at)
    requires AppleFraming(Observe(RunEvents(s, courting), PacketAt(pic, d.index), d.at), pic.key.ssrc) == apple
    requires Undisturbed(Push(RunEvents(s, courting), PacketAt(pic, d.index), d.at, pick), pic, events, apple)
    requires HandedOutBy(RunEvents(Push(RunEvents(s, courting), PacketAt(pic, d.index), d.at, pick), events), pic,
                         At(Arrivals(pic, courting), d.at) + [d] + Arrivals(pic, events), last, apple)
    requires HasFirstSlice(P.AllCarried(cs)) && HasKeySlice(P.AllCarried(cs))
    ensures var b := Reborn(RunEvents(s, courting), PacketAt(pic, d.index), d.at);
            && b.generation == s.generation + 1 && b.log == RunEvents(s, courting).log + [Handoff]
            && b.sources == [pic.key.ssrc] && b.groups == map[]
            && Delivers(b, RunEvents(s, courting + ([PushEvent(PacketAt(pic, d.index), d.at, pick)] + events
                                                    + [last])),
                        pic.key, P.AllCarried(cs), P.Read(cs[0].donl, apple), n, params)
  {
    hide *;
    var t, kept := RunEvents(s, courting), Arrivals(pic, courting);
    KeepsNothing(s, pic);
    RunKeepsBack(s, s, pic, [], courting);
    assert [] + kept == kept;
    EighthTakesOver(s, t, pic, kept, d, apple);
    KeepingGeneration(s, t, pic, kept);
    n, params := HandoffKeepsPicture(t, pic, cs, At(kept, d.at), d, events, last, apple, pick);
    RunJoin(s, courting, [PushEvent(PacketAt(pic, d.index), d.at, pick)] + events + [last]);
  }

  lemma KeepingGeneration(s: State, t: State, pic: Picture, ds: seq<Arrival>)
    requires Keeping(s, t, pic, ds)
    ensures t.generation == s.generation
  {
    hide Inv;
  }
}
