/**
 From the first packet of a picture to its access unit, whatever happens in between: runs in which other pictures, other
 sources and polls come between the packets of one picture still hand it out once and whole.
 */
module PictureTheorems {
  import opened Bytes
  import opened Hevc
  import opened DepacketizerModel
  import opened DepacketizerInvariants
  import opened PictureDelivery
  import opened QueueOrder
  import opened Reception
  import opened PictureRuns
  import P = Packetization

  // ----- what a run brings of a picture

  predicate Own(pic: Picture, p: Packet) {
    Key(p.ssrc, p.timestamp) == pic.key && |p.payload| >= 2
  }

  predicate PacketOf(pic: Picture, p: Packet) {
    Slot(pic, p.seqno) < Size(pic) && p == PacketAt(pic, Slot(pic, p.seqno))
  }

  function ArrivalBy(pic: Picture, e: Event): seq<Arrival> {
    if e.PushEvent? && Own(pic, e.packet) then [Arrival(Slot(pic, e.packet.seqno), e.now)] else []
  }

  /** The packets of the picture among the events. */
  function Arrivals(pic: Picture, events: seq<Event>): seq<Arrival> {
    if events == [] then [] else ArrivalBy(pic, events[0]) + Arrivals(pic, events[1..])
  }

  /** A packet of the picture within the budget, a poll, or a packet of anything else that is nothing special. */
  ghost predicate Gentle(t: State, pic: Picture, e: Event, apple: bool) {
    match e
    case PollEvent(_) => pic.key in t.groups
    case PushEvent(p, now, pick) =>
      if Own(pic, p) then PicksOldest(pick) && PacketOf(pic, p) && !OverBudget(t, p)
      else pic.key in t.groups && Unobtrusive(t, pic.key, p, now, pick, apple)
  }

  /** The event's poll does not hand out the picture: it is held, or a group in front of it is. */
  ghost predicate Waits(t: State, pic: Picture, e: Event) {
    match e
    case PollEvent(now) => Waiting(t, pic.key, now)
    case PushEvent(p, now, pick) => Waiting(Received(t, p, now, pick), pic.key, now)
  }

  ghost predicate Undisturbed(t: State, pic: Picture, events: seq<Event>, apple: bool)
    decreases |events|
  {
    events == [] ||
    (&& Gentle(t, pic, events[0], apple) && Waits(t, pic, events[0])
     && Undisturbed(Apply(t, events[0]), pic, events[1..], apple))
  }

  /** The source is known, or the first packet may make it known. */
  predicate Admits(s: State, ssrc: u32) {
    ssrc in s.sources || (|s.sources| < s.tiles && Unstashed(s, ssrc))
  }

  /** Nothing is pending of the picture, it is not late, and no group of its own source in the queue is later. */
  ghost predicate Open(s: State, key: Key, apple: bool) {
    && Inv(s) && key !in s.groups && InSequence(s.groups, key, s.nextGroup) && !IsLate(s, key)
    && AppleFraming(s, key.ssrc) == apple && Admits(s, key.ssrc)
  }

  /** These arrivals are what is pending of the picture, perhaps nothing yet. */
  ghost predicate Stage(s: State, t: State, pic: Picture, ds: seq<Arrival>, apple: bool) {
    ArrivalsOf(pic, ds) && Pending(s, t, pic, ds, apple) && (ds == [] ==> Admits(t, pic.key.ssrc))
  }

  lemma OpenStage(s: State, pic: Picture, apple: bool)
    requires Open(s, pic.key, apple)
    ensures Stage(s, s, pic, [], apple)
  {
    hide Inv, IsLate, AppleFraming, InSequence;
  }

  lemma StageParts(s: State, t: State, pic: Picture, ds: seq<Arrival>, apple: bool)
    requires Stage(s, t, pic, ds, apple)
    ensures Inv(t) && (ds == [] <==> pic.key !in t.groups) && Admits(t, pic.key.ssrc)
    ensures ds != [] ==> t.groups[pic.key] == Part(t, pic, ds).value == Gathered(pic, ds, t.groups[pic.key].order)
  {
    hide Kept, Gathered;
    KeptInv(s, t, pic.key, Part(t, pic, ds), apple);
    if ds != [] {
      OthersPlain(t, pic.key, pic.key.ssrc);
    }
  }

  // ----- one event

  lemma OwnReceived(s: State, t: State, pic: Picture, ds: seq<Arrival>, p: Packet, now: nat, apple: bool,
                    pick: Groups -> Key)
    requires Fits(pic) && FramingFixed(pic, apple) && Stage(s, t, pic, ds, apple)
    requires PicksOldest(pick) && Own(pic, p) && PacketOf(pic, p) && !OverBudget(t, p)
    ensures var d := Arrival(Slot(pic, p.seqno), now);
            && ArrivalsOf(pic, ds + [d])
            && Push(t, p, now, pick) == Poll(Received(t, p, now, pick), now)
            && Received(t, p, now, pick) == TakeIn(Found(Observe(t, p, now), p.ssrc), p, now, pick)
            && Pending(s, Received(t, p, now, pick), pic, ds + [d], apple)
  {
    hide Inv, Kept, TakeIn, Found, Observe, PicksOldest, OverBudget, NeverShows, Unstashed, ShouldReplace, Push, Poll,
      Gathered, Slot;
    StageParts(s, t, pic, ds, apple);
    PushPolls(t, p, now, pick);
    assert p.payload in pic.payloads;
    hide Fits;
    var o := Observe(t, p, now);
    ObserveKeeps(s, t, pic.key, Part(t, pic, ds), apple, p, now);
    ObserveRest(t, p, now);
    KnownUnstashed(t, p.ssrc);
    FoundKeeps(s, o, pic.key, Part(t, pic, ds), apple, p.ssrc);
    FoundFrame(o, p.ssrc);
    BudgetFrame(t, Found(o, p.ssrc), p);
    TakeInOwn(s, Found(o, p.ssrc), pic, ds, Arrival(Slot(pic, p.seqno), now), apple, pick);
  }

  lemma EventReceived(s: State, t: State, pic: Picture, ds: seq<Arrival>, e: Event, apple: bool)
    requires Fits(pic) && FramingFixed(pic, apple) && Stage(s, t, pic, ds, apple) && Gentle(t, pic, e, apple)
    ensures var after := ds + ArrivalBy(pic, e); var u := Reached(t, e);
            && ArrivalsOf(pic, after) && after != [] && Pending(s, u, pic, after, apple)
            && Apply(t, e) == Poll(u, e.now)
  {
    hide Kept, Inv, Push, Poll, Received, Unobtrusive, Slot, Gathered, OverBudget, FramingFixed, Fits, PacketOf,
      PicksOldest;
    StageParts(s, t, pic, ds, apple);
    assert ds + [] == ds;
    if e.PushEvent? {
      if Own(pic, e.packet) {
        OwnReceived(s, t, pic, ds, e.packet, e.now, apple, e.pick);
      } else {
        OtherPolls(t, pic.key, e.packet, e.now, e.pick, apple);
        if |e.packet.payload| >= 2 {
          OtherKeeps(s, t, pic.key, t.groups[pic.key], apple, e.packet, e.now, e.pick);
          KeptInv(s, Received(t, e.packet, e.now, e.pick), pic.key, Part(t, pic, ds), apple);
        } else {
          ShortReceived(t, e.packet, e.now, e.pick);
        }
      }
    }
  }

  lemma ShortReceived(t: State, p: Packet, now: nat, pick: Groups -> Key)
    requires |p.payload| < 2
    ensures Received(t, p, now, pick) == t
  {
  }

  /** The state in which an event comes to poll. */
  ghost function Reached(t: State, e: Event): State {
    match e
    case PollEvent(_) => t
    case PushEvent(p, now, pick) => Received(t, p, now, pick)
  }

  /** An event during which the picture waits leaves all of its packets pending. */
  lemma StepKeeps(s: State, t: State, pic: Picture, ds: seq<Arrival>, e: Event, apple: bool)
    requires Fits(pic) && FramingFixed(pic, apple) && Stage(s, t, pic, ds, apple)
    requires Gentle(t, pic, e, apple) && Waits(t, pic, e)
    ensures ds + ArrivalBy(pic, e) != [] && Stage(s, Apply(t, e), pic, ds + ArrivalBy(pic, e), apple)
  {
    hide Kept, Poll, Received, Waiting, FramingFixed, Fits, Gentle, Gathered, Apply;
    EventReceived(s, t, pic, ds, e, apple);
    var after, u := ds + ArrivalBy(pic, e), Reached(t, e);
    var g := Part(u, pic, after).value;
    PollStops(s, u, pic.key, g, apple, e.now);
    KeptInv(s, u, pic.key, Some(g), apple);
    KeptInv(s, Poll(u, e.now), pic.key, Some(g), apple);
  }

  lemma {:induction false} RunKeeps(s: State, t: State, pic: Picture, ds: seq<Arrival>, events: seq<Event>, apple: bool)
    requires Fits(pic) && FramingFixed(pic, apple) && Stage(s, t, pic, ds, apple)
    requires Undisturbed(t, pic, events, apple)
    ensures Stage(s, RunEvents(t, events), pic, ds + Arrivals(pic, events), apple)
    decreases |events|
  {
    hide Stage, Apply, Fits, FramingFixed, Gentle, Waits, ArrivalBy;
    if events == [] {
      assert ds + [] == ds;
    } else {
      var e := events[0];
      StepKeeps(s, t, pic, ds, e, apple);
      RunKeeps(s, Apply(t, e), pic, ds + ArrivalBy(pic, e), events[1..], apple);
      assert ds + ArrivalBy(pic, e) + Arrivals(pic, events[1..]) == ds + Arrivals(pic, events);
    }
  }

  /** When nothing was pending in `s`, the picture is at the head of the queue. */
  lemma NobodyAhead(s: State, t: State, pic: Picture, ds: seq<Arrival>, apple: bool, now: nat)
    requires Stage(s, t, pic, ds, apple) && ds != [] && s.groups == map[]
    ensures AllDue(t, Ahead(t, pic.key), now)
  {
    hide Inv, Ahead, AppleFraming, IsLate, Gathered, InSequence;
    StageParts(s, t, pic, ds, apple);
  }

  // ----- the unit

  predicate HasFirstSlice(nals: seq<Nal>) {
    exists n <- nals :: IsFirstSlice(n)
  }

  predicate HasKeySlice(nals: seq<Nal>) {
    exists n <- nals :: IsKeySlice(n)
  }

  /** The access unit of a picture: its slices behind start codes, parameter sets in front of a key picture. */
  function UnitOf(before: seq<Output>, generation: nat, tile: nat, key: Key, nals: seq<Nal>, donl: u16,
                  params: seq<Nal>): AccessUnit {
    AccessUnit(generation, Losses(before),
               if HasKeySlice(nals) then ParamPrefix(params) + VclData(nals) else VclData(nals),
               tile, |Units(before)|, key.timestamp, donl, HasKeySlice(nals))
  }

  /**
   Since `s`, `r` has decided exactly one thing about this picture: to hand out the unit of `nals`, as its `n`-th
   decision and with the stamps that the decisions before it give it. All units before it are of groups that were
   pending in `s`.
   */
  ghost predicate Delivers(s: State, r: State, key: Key, nals: seq<Nal>, donl: u16, n: nat, params: seq<Nal>) {
    && s.log <= r.log && |s.log| <= n < |r.log|
    && (forall i :: |s.log| <= i < |r.log| ==> (About(r.log[i], key) <==> i == n))
    && OnlyOf(r.log[..n], |s.log|, s.groups)
    && r.log[n]
       == Emitted(key.ssrc, UnitOf(r.log[..n], s.generation, IndexOf(r.sources, key.ssrc), key, nals, donl, params))
    && forall x <- ParamsIn(nals) :: x in params || |params| == MAX_PARAMS
  }

  /** Learning keeps what it knows, and takes in everything new until the table is full. */
  lemma {:induction false} LearnedAll(params: seq<Nal>, nals: seq<Nal>)
    requires ParamsOk(params) && forall n <- nals :: IsParam(n)
    ensures var r := LearnAll(params, nals);
            && |params| <= |r| <= MAX_PARAMS && (forall n <- params :: n in r)
            && forall n <- nals :: n in r || |r| == MAX_PARAMS
    decreases |nals|
  {
    if nals != [] {
      PutParamOk(params, nals[0]);
      var next := LearnParam(params, nals[0]);
      hide Strict, PutParam;
      LearnedAll(next, nals[1..]);
      forall n <- nals ensures n in LearnAll(params, nals) || |LearnAll(params, nals)| == MAX_PARAMS {
        assert n == nals[0] || n in nals[1..];
      }
    }
  }

  lemma PresentUnit(s: State, key: Key, nals: seq<Nal>, donl: u16)
    requires Inv(s) && HasFirstSlice(nals) && (s.haveKey || HasKeySlice(nals))
    ensures var r := Present(s, key, nals, donl);
            && r == s.(params := r.params, log := r.log, nextPts := r.nextPts, haveKey := true,
                       lastTs := s.lastTs[key.ssrc := key.timestamp])
            && r.log == s.log + [Emitted(key.ssrc, UnitOf(s.log, s.generation, IndexOf(s.sources, key.ssrc), key, nals,
                                                          donl, r.params))]
            && forall n <- ParamsIn(nals) :: n in r.params || |r.params| == MAX_PARAMS
  {
    var n :| n in nals && IsFirstSlice(n);
    assert IsVcl(n);
    InvParts(s);
    StampsNow(s);
    ParamsInOk(nals);
    LearnedAll(s.params, ParamsIn(nals));
    hide Inv, ParamPrefix, VclData, IsVcl, IsKeySlice, IsFirstSlice, LearnAll, ParamsIn, Units, Losses, HistoryOk,
      GroupsOk, ObservedOk, SourcesOk, ParamsOk;
    var u := s.(params := LearnAll(s.params, ParamsIn(nals)));
    assert Present(s, key, nals, donl) == Emit(u, key, nals, donl);
  }

  lemma StampsNow(s: State)
    requires HistoryOk(s)
    ensures s.nextPts == |Units(s.log)| && s.lossEpoch == Losses(s.log)
  {
  }

  /** A complete picture is reassembled from its own payloads and presented, whatever else is pending. */
  lemma AssemblesPicture(u: State, pic: Picture, cs: seq<P.Chunk>, ds: seq<Arrival>, order: nat, apple: bool)
    requires cs != [] && (forall c <- cs :: P.Valid(c)) && pic.payloads == P.AllWire(cs, apple) && Fits(pic)
    requires ds != [] && ArrivalsOf(pic, ds) && Complete(pic, ds) && AppleFraming(u, pic.key.ssrc) == apple
    ensures Assemble(u, pic.key, Gathered(pic, ds, order))
         == Present(u, pic.key, P.AllCarried(cs), P.Read(cs[0].donl, apple))
  {
    GatheredComplete(pic, ds, order);
    CompleteInOrder(pic);
    P.ReassemblyInvertsPacketization(cs, apple);
    hide Gathered, Packets, Complete, Present, InOrder, Adjacent, Reassembled, P.AllWire, P.AllCarried, P.Valid, Fits,
      AppleFraming;
  }

  /** When every group in front is passed and the picture is complete and due, a poll hands it out. */
  lemma DuePictureIsPresented(s: State, t: State, pic: Picture, cs: seq<P.Chunk>, ds: seq<Arrival>, apple: bool,
                              now: nat) returns (n: nat, params: seq<Nal>)
    requires cs != [] && (forall c <- cs :: P.Valid(c)) && pic.payloads == P.AllWire(cs, apple) && Fits(pic)
    requires Stage(s, t, pic, ds, apple) && ds != [] && Complete(pic, ds) && !StillHeld(pic, ds, now)
    requires !Discovering(t, now) && Clears(t, Ahead(t, pic.key), now)
    requires HasFirstSlice(P.AllCarried(cs)) && (s.haveKey || HasKeySlice(P.AllCarried(cs)))
    ensures |t.log| <= n
    ensures Delivers(s, Poll(t, now), pic.key, P.AllCarried(cs), P.Read(cs[0].donl, apple), n, params)
  {
    hide *;
    var key, nals, donl := pic.key, P.AllCarried(cs), P.Read(cs[0].donl, apple);
    var g := PendingGroup(s, t, pic, ds, apple, now);
    var behind := PollReaches(s, t, key, g, apple, now);
    var b := PollEach(t, Ahead(t, key), now);
    var u := b.(groups := b.groups - {key});
    KeptInv(s, b, key, Some(g), apple);
    RemoveInv(b, key);
    SameFraming(b, u, key.ssrc);
    AssemblesPicture(u, pic, cs, ds, g.order, apple);
    KeptLog(s, b, key, Some(g), apple);
    PresentUnit(u, key, nals, donl);
    var m := Present(u, key, nals, donl);
    EachSilent(m, behind, key, now);
    n, params := |b.log|, m.params;
    OneOfAll(s, b, m, PollEach(m, behind, now), key, nals, donl);
  }

  lemma PendingGroup(s: State, t: State, pic: Picture, ds: seq<Arrival>, apple: bool, now: nat) returns (g: Group)
    requires Stage(s, t, pic, ds, apple) && ds != [] && !StillHeld(pic, ds, now)
    ensures ArrivalsOf(pic, ds)
    ensures Kept(s, t, pic.key, Some(g), apple) && g == Gathered(pic, ds, g.order) && !IsHeld(g, now)
  {
    hide Kept, IsHeld;
    StageParts(s, t, pic, ds, apple);
    g := t.groups[pic.key];
    HeldAtAnyOrder(pic, ds, g.order, now);
  }

  lemma KeptLog(s: State, t: State, key: Key, g: Option<Group>, apple: bool)
    requires Kept(s, t, key, g, apple)
    ensures s.log <= t.log && OnlyOf(t.log, |s.log|, s.groups) && Silent(t.log, |s.log|, key)
    ensures t.generation == s.generation && (s.haveKey ==> t.haveKey)
  {
    hide Inv;
  }

  lemma OneOfAll(s: State, b: State, m: State, r: State, key: Key, nals: seq<Nal>, donl: u16)
    requires s.log <= b.log && OnlyOf(b.log, |s.log|, s.groups) && Silent(b.log, |s.log|, key)
    requires m.log <= r.log && Silent(r.log, |m.log|, key)
    requires m.log == b.log + [Emitted(key.ssrc, UnitOf(b.log, s.generation, IndexOf(r.sources, key.ssrc), key, nals,
                                                        donl, m.params))]
    requires forall x <- ParamsIn(nals) :: x in m.params || |m.params| == MAX_PARAMS
    ensures Delivers(s, r, key, nals, donl, |b.log|, m.params)
  {
    hide ParamsIn, HasKeySlice, Losses, Units, ParamPrefix, VclData, IndexOf;
    assert r.log[..|b.log|] == b.log;
    assert r.log[|b.log|] == m.log[|b.log|];
    forall i | |s.log| <= i < |b.log| ensures !About(r.log[i], key) {
      assert r.log[i] == b.log[i];
    }
  }

  lemma {:induction false} RunJoin(s: State, a: seq<Event>, b: seq<Event>)
    ensures RunEvents(s, a + b) == RunEvents(RunEvents(s, a), b)
    decreases |a|
  {
    hide Apply;
    if a == [] {
      assert a + b == b;
    } else {
      RunJoin(Apply(s, a[0]), a[1..], b);
      assert (a + b)[1..] == a[1..] + b;
    }
  }

  lemma RunOne(s: State, e: Event)
    ensures RunEvents(s, [e]) == Apply(s, e)
  {
    hide Apply;
    assert [e][1..] == [];
    assert RunEvents(Apply(s, e), []) == Apply(s, e);
  }

  lemma RunSnoc(s: State, events: seq<Event>, e: Event)
    ensures RunEvents(s, events + [e]) == Apply(RunEvents(s, events), e)
  {
    hide *;
    RunJoin(s, events, [e]);
    RunOne(RunEvents(s, events), e);
  }

  lemma PollApplied(t: State, now: nat)
    ensures Apply(t, PollEvent(now)) == Poll(t, now)
  {
  }

  /** An event drops nothing from the log before it comes to poll. */
  lemma ReachedGrows(t: State, e: Event)
    ensures t.log <= Reached(t, e).log
  {
    hide TakeIn, Observe, Evict, InsertSorted;
    if e.PushEvent? && |e.packet.payload| >= 2 {
      ObserveFrame(t, e.packet, e.now);
      FoundFrame(Observe(t, e.packet, e.now), e.packet.ssrc);
    }
  }

  /** With the packets of the picture in, all of them, this poll gets to the picture and finds it due. */
  ghost predicate Finished(t: State, pic: Picture, ds: seq<Arrival>, now: nat) {
    && ds != [] && ArrivalsOf(pic, ds) && Complete(pic, ds) && !StillHeld(pic, ds, now)
    && !Discovering(t, now) && Clears(t, Ahead(t, pic.key), now)
  }

  lemma FinishedParts(t: State, pic: Picture, ds: seq<Arrival>, now: nat)
    requires Finished(t, pic, ds, now)
    ensures ds != [] && ArrivalsOf(pic, ds) && Complete(pic, ds) && !StillHeld(pic, ds, now)
    ensures !Discovering(t, now) && Clears(t, Ahead(t, pic.key), now)
  {
  }

  /** The event, a poll or a push, is the first one whose poll gets to the picture, and the picture is complete. */
  ghost predicate HandedOutBy(t: State, pic: Picture, before: seq<Arrival>, last: Event, apple: bool) {
    Gentle(t, pic, last, apple) && Finished(Reached(t, last), pic, before + ArrivalBy(pic, last), last.now)
  }

  lemma LastEvent(s: State, t: State, pic: Picture, cs: seq<P.Chunk>, before: seq<Arrival>, last: Event, apple: bool)
    returns (n: nat, params: seq<Nal>)
    requires cs != [] && (forall c <- cs :: P.Valid(c)) && pic.payloads == P.AllWire(cs, apple)
    requires Fits(pic) && FramingFixed(pic, apple) && Stage(s, t, pic, before, apple)
    requires HandedOutBy(t, pic, before, last, apple)
    requires HasFirstSlice(P.AllCarried(cs)) && (s.haveKey || HasKeySlice(P.AllCarried(cs)))
    ensures |t.log| <= n
    ensures Delivers(s, Apply(t, last), pic.key, P.AllCarried(cs), P.Read(cs[0].donl, apple), n, params)
  {
    hide Gentle, Finished, Pending, Reached, Apply, Fits, FramingFixed, P.AllWire, P.AllCarried, P.Read, P.Valid,
      HasFirstSlice, HasKeySlice, Delivers, ArrivalBy, Stage, Complete, StillHeld, Discovering, Clears, Ahead;
    var u, ds := Reached(t, last), before + ArrivalBy(pic, last);
    EventReceived(s, t, pic, before, last, apple);
    FinishedParts(u, pic, ds, last.now);
    ReachedStage(s, u, pic, ds, apple);
    ReachedGrows(t, last);
    n, params := DuePictureIsPresented(s, u, pic, cs, ds, apple, last.now);
  }

  lemma ReachedStage(s: State, u: State, pic: Picture, ds: seq<Arrival>, apple: bool)
    requires ArrivalsOf(pic, ds) && ds != [] && Pending(s, u, pic, ds, apple)
    ensures Stage(s, u, pic, ds, apple)
  {
    hide Kept, Gathered;
  }

  /** A run during which the picture waits, and the event that hands it out. */
  lemma PendingPictureYieldsOneUnit(s: State, t: State, pic: Picture, cs: seq<P.Chunk>, before: seq<Arrival>,
                                    events: seq<Event>, last: Event, apple: bool) returns (n: nat, params: seq<Nal>)
    requires cs != [] && (forall c <- cs :: P.Valid(c)) && pic.payloads == P.AllWire(cs, apple)
    requires Fits(pic) && FramingFixed(pic, apple) && Stage(s, t, pic, before, apple)
    requires Undisturbed(t, pic, events, apple)
    requires HandedOutBy(RunEvents(t, events), pic, before + Arrivals(pic, events), last, apple)
    requires HasFirstSlice(P.AllCarried(cs)) && (s.haveKey || HasKeySlice(P.AllCarried(cs)))
    ensures |RunEvents(t, events).log| <= n
    ensures Delivers(s, RunEvents(t, events + [last]), pic.key, P.AllCarried(cs), P.Read(cs[0].donl, apple), n, params)
  {
    hide *;
    RunKeeps(s, t, pic, before, events, apple);
    n, params := LastEvent(s, RunEvents(t, events), pic, cs, before + Arrivals(pic, events), last, apple);
    RunSnoc(t, events, last);
  }

  /**
   A complete picture yields exactly one access unit, over every run. Its packets are a wrapping run of numbers that
   packetises its NAL units in any valid way; they arrive in any order and with any duplicates. In between, other
   pictures and sources send, are handed out, lost or given up, and polls come at any time, as long as the picture is
   held or a group in front of it is. The poll or push that then gets to it hands it out.
   */
  lemma PictureYieldsOneUnit(s: State, pic: Picture, cs: seq<P.Chunk>, events: seq<Event>, last: Event, apple: bool)
    returns (n: nat, params: seq<Nal>)
    requires cs != [] && (forall c <- cs :: P.Valid(c)) && pic.payloads == P.AllWire(cs, apple)
    requires Fits(pic) && FramingFixed(pic, apple) && Open(s, pic.key, apple)
    requires Undisturbed(s, pic, events, apple)
    requires HandedOutBy(RunEvents(s, events), pic, Arrivals(pic, events), last, apple)
    requires HasFirstSlice(P.AllCarried(cs)) && (s.haveKey || HasKeySlice(P.AllCarried(cs)))
    ensures |RunEvents(s, events).log| <= n
    ensures Delivers(s, RunEvents(s, events + [last]), pic.key, P.AllCarried(cs), P.Read(cs[0].donl, apple), n, params)
  {
    hide *;
    OpenStage(s, pic, apple);
    assert [] + Arrivals(pic, events) == Arrivals(pic, events);
    n, params := PendingPictureYieldsOneUnit(s, s, pic, cs, [], events, last, apple);
  }
}
