/**
 A pending picture while anything else goes on: other pictures and sources, losses, polls. No step but its own disturbs
 the group, and the group keeps its place in the queue.
 */
module PictureRuns {
  import opened Bytes
  import opened Hevc
  import opened DepacketizerModel
  import opened DepacketizerInvariants
  import opened PictureDelivery
  import opened QueueOrder
  import opened Reception
  import Sums

  // ----- what a run keeps of one picture

  /** From position `n` on, nothing has been decided about this picture. */
  predicate Silent(log: seq<Output>, n: nat, key: Key) {
    forall i :: n <= i < |log| ==> !About(log[i], key)
  }

  /** From position `n` on, only units of these groups have been handed out. */
  predicate OnlyOf(log: seq<Output>, n: nat, groups: Groups) {
    forall i :: n <= i < |log| && log[i].Emitted? ==> Key(log[i].ssrc, log[i].unit.rtpTimestamp) in groups
  }

  /** The groups of the same source that come first in the queue are earlier in time, too. */
  predicate InSequence(groups: Groups, key: Key, order: nat) {
    forall j <- groups :: j.ssrc == key.ssrc && groups[j].order < order ==> Advances(j.timestamp, key.timestamp)
  }

  /** No group has got ahead of those that were there before. */
  predicate NoneOvertakes(before: Groups, groups: Groups, order: nat) {
    forall j <- groups :: groups[j].order < order ==> j in before
  }

  /** `g` is what is pending under this key. */
  predicate Holds(groups: Groups, key: Key, g: Option<Group>) {
    if key in groups then g.Some? && groups[key] == g.value else g.None?
  }

  /** The place of the picture's group in the queue, or the place it would get. */
  function Turn(s: State, g: Option<Group>): nat {
    if g.Some? then g.value.order else s.nextGroup
  }

  /**
   Since `s`, nothing has been handed out but groups that were pending then, no other group stands in front of `key`,
   and `g` is what is pending of it.
   */
  ghost predicate Kept(s: State, t: State, key: Key, g: Option<Group>, apple: bool) {
    && Inv(t) && t.tiles == s.tiles && t.generation == s.generation && (s.haveKey ==> t.haveKey)
    && s.log <= t.log && OnlyOf(t.log, |s.log|, s.groups) && Silent(t.log, |s.log|, key) && key !in s.groups
    && Holds(t.groups, key, g) && InSequence(t.groups, key, Turn(t, g))
    && NoneOvertakes(s.groups, t.groups, Turn(t, g))
    && !IsLate(t, key) && AppleFraming(t, key.ssrc) == apple
  }

  lemma KeptInv(s: State, t: State, key: Key, g: Option<Group>, apple: bool)
    requires Kept(s, t, key, g, apple)
    ensures Inv(t) && (g.Some? ==> key in t.groups && t.groups[key] == g.value)
    ensures g.None? ==> key !in t.groups
    ensures !IsLate(t, key) && AppleFraming(t, key.ssrc) == apple
  {
    hide Inv;
  }

  /** `u` differs from `t` in nothing that matters to the picture. */
  predicate SameFor(t: State, u: State, key: Key, apple: bool) {
    && u.tiles == t.tiles && u.generation == t.generation && u.haveKey == t.haveKey && u.lastTs == t.lastTs
    && t.log <= u.log && OnlyOf(u.log, |t.log|, map[]) && Silent(u.log, |t.log|, key)
    && AppleFraming(u, key.ssrc) == apple
  }

  lemma KeptFrame(s: State, t: State, u: State, key: Key, g: Option<Group>, apple: bool)
    requires Kept(s, t, key, g, apple) && Inv(u) && SameFor(t, u, key, apple)
    requires u.groups == t.groups && u.nextGroup == t.nextGroup
    ensures Kept(s, u, key, g, apple)
  {
    hide Inv, InSequence, NoneOvertakes, AppleFraming;
  }

  lemma KeptQuietly(s: State, t: State, u: State, key: Key, g: Option<Group>, apple: bool)
    requires Kept(s, t, key, g, apple) && Inv(u) && AppleFraming(u, key.ssrc) == apple
    requires u.tiles == t.tiles && u.generation == t.generation && u.haveKey == t.haveKey && u.lastTs == t.lastTs
    requires u.log == t.log && u.groups == t.groups && u.nextGroup == t.nextGroup
    ensures Kept(s, u, key, g, apple)
  {
    hide Inv, InSequence, NoneOvertakes, AppleFraming, OnlyOf, Silent;
    NoneYet(t.log, key);
    KeptFrame(s, t, u, key, g, apple);
  }

  lemma NoneYet(log: seq<Output>, key: Key)
    ensures OnlyOf(log, |log|, map[]) && Silent(log, |log|, key)
  {
  }

  // ----- polls

  /** Handling a group in front is about that group only. */
  lemma HandleKeeps(s: State, t: State, key: Key, g: Option<Group>, apple: bool, j: Key)
    requires Kept(s, t, key, g, apple) && j in t.groups && j != key && t.groups[j].order < Turn(t, g)
    ensures Kept(s, Handle(t, j), key, g, apple)
  {
    hide Inv, Handle, AppleFraming, Advances;
    HandleInv(t, j);
    HandleFrame(t, j);
    SameFraming(t, Handle(t, j), key.ssrc);
  }

  /** These groups, as far as they are still pending, come before the picture's. */
  predicate InFront(t: State, keys: seq<Key>, key: Key, order: nat) {
    forall k <- keys :: k != key && (k in t.groups ==> t.groups[k].order < order)
  }

  lemma FrontShrinks(t: State, keys: seq<Key>, key: Key, order: nat)
    requires keys != [] && keys[0] in t.groups && InFront(t, keys, key, order)
    ensures InFront(Handle(t, keys[0]), keys[1..], key, order)
  {
    HandleFrame(t, keys[0]);
    hide Handle;
    var r := Handle(t, keys[0]);
    forall k | k in keys[1..] ensures k != key && (k in r.groups ==> r.groups[k].order < order) {
      assert k in keys;
    }
  }

  lemma {:induction false} EachKeeps(s: State, t: State, key: Key, g: Option<Group>, apple: bool, keys: seq<Key>,
                                     now: nat)
    requires Kept(s, t, key, g, apple) && InFront(t, keys, key, Turn(t, g))
    ensures Kept(s, PollEach(t, keys, now), key, g, apple)
    decreases |keys|
  {
    hide Kept, Handle, Passes;
    if keys != [] {
      PollEachStep(t, keys, now);
      if Passes(t, keys[0], now) {
        PassesKnown(t, keys[0], now);
        assert keys[0] in keys;
        HandleKeeps(s, t, key, g, apple, keys[0]);
        FrontShrinks(t, keys, key, Turn(t, g));
        HandleFrame(t, keys[0]);
        EachKeeps(s, Handle(t, keys[0]), key, g, apple, keys[1..], now);
      }
    }
  }

  /** A poll at `now` does not reach the picture, or finds that it has to wait. */
  ghost predicate Waiting(t: State, key: Key, now: nat) {
    Discovering(t, now) || (key in t.groups && IsHeld(t.groups[key], now)) || !Clears(t, Ahead(t, key), now)
  }

  lemma AheadInFront(t: State, key: Key)
    requires key in t.groups
    ensures InFront(t, Ahead(t, key), key, t.groups[key].order)
  {
    hide Ahead;
  }

  /** Such a poll works on the groups in front and on no other. */
  lemma PollStops(s: State, t: State, key: Key, g: Group, apple: bool, now: nat)
    requires Kept(s, t, key, Some(g), apple) && Waiting(t, key, now)
    ensures Poll(t, now) == if Discovering(t, now) then t else PollEach(t, Ahead(t, key), now)
    ensures Kept(s, Poll(t, now), key, Some(g), apple)
  {
    KeptInv(s, t, key, Some(g), apple);
    hide Kept, IsHeld, IsLate, Ahead, Clears, AppleFraming;
    if !Discovering(t, now) {
      var a := Ahead(t, key);
      var b := PollEach(t, a, now);
      var behind := Queue(t, key);
      AheadInFront(t, key);
      EachKeeps(s, t, key, Some(g), apple, a, now);
      KeptInv(s, b, key, Some(g), apple);
      PollEachSplit(t, a, [key] + behind, now);
      if Clears(t, a, now) {
        PollEachStep(b, [key] + behind, now);
      }
    }
  }

  /** Once all in front are passed and the picture is due, a poll assembles it and goes on with those behind. */
  lemma PollReaches(s: State, t: State, key: Key, g: Group, apple: bool, now: nat) returns (behind: seq<Key>)
    requires Kept(s, t, key, Some(g), apple) && !Discovering(t, now)
    requires Clears(t, Ahead(t, key), now) && !IsHeld(g, now)
    ensures var b := PollEach(t, Ahead(t, key), now);
            && Kept(s, b, key, Some(g), apple)
            && Poll(t, now) == PollEach(Assemble(b.(groups := b.groups - {key}), key, g), behind, now)
  {
    KeptInv(s, t, key, Some(g), apple);
    hide Kept, IsHeld, IsLate, Ahead, Clears, AppleFraming, Assemble, DropStale;
    var a := Ahead(t, key);
    var b := PollEach(t, a, now);
    behind := Queue(t, key);
    AheadInFront(t, key);
    EachKeeps(s, t, key, Some(g), apple, a, now);
    KeptInv(s, b, key, Some(g), apple);
    PollEachSplit(t, a, [key] + behind, now);
    PollEachStep(b, [key] + behind, now);
    assert ([key] + behind)[1..] == behind;
  }

  lemma HandleSilent(t: State, j: Key, key: Key)
    requires j in t.groups && j != key
    ensures var r := Handle(t, j); t.log <= r.log && Silent(r.log, |t.log|, key)
    ensures key !in t.groups ==> key !in Handle(t, j).groups
  {
    hide Handle;
    HandleFrame(t, j);
  }

  /** What is not pending is not handed out. */
  lemma {:induction false} EachSilent(t: State, keys: seq<Key>, key: Key, now: nat)
    requires key !in t.groups
    ensures var r := PollEach(t, keys, now);
            t.log <= r.log && Silent(r.log, |t.log|, key) && key !in r.groups
    decreases |keys|
  {
    hide Handle, Passes, Silent;
    NoneYet(t.log, key);
    if keys != [] {
      PollEachStep(t, keys, now);
      if Passes(t, keys[0], now) {
        PassesKnown(t, keys[0], now);
        HandleSilent(t, keys[0], key);
        var u := Handle(t, keys[0]);
        EachSilent(u, keys[1..], key, now);
        SilentChain(t.log, u.log, PollEach(u, keys[1..], now).log, key);
      }
    }
  }

  lemma SilentChain(a: seq<Output>, b: seq<Output>, c: seq<Output>, key: Key)
    requires a <= b <= c && Silent(b, |a|, key) && Silent(c, |b|, key)
    ensures Silent(c, |a|, key)
  {
    hide About;
  }

  // ----- packets of others

  /** There is room for the packet's group, or it costs another one than the picture's. */
  ghost predicate Spares(t: State, key: Key, p: Packet, pick: Groups -> Key) {
    Key(p.ssrc, p.timestamp) in t.groups || |t.groups| < MAX_GROUPS || pick(t.groups) != key
  }

  lemma PrepareKeeps(s: State, t: State, key: Key, g: Option<Group>, apple: bool, ssrc: u32, now: nat)
    requires Kept(s, t, key, g, apple)
    ensures Kept(s, Prepare(t, ssrc, now), key, g, apple)
  {
    KeptInv(s, t, key, g, apple);
    hide Inv, Kept, Prepare, AppleFraming;
    PrepareInv(t, ssrc, now);
    PrepareFrame(t, ssrc, now);
    var u := Prepare(t, ssrc, now);
    SameFraming(t, u, key.ssrc);
    KeptQuietly(s, t, u, key, g, apple);
  }

  lemma OneEntry(log: seq<Output>, o: Output, key: Key)
    requires !o.Emitted? && !About(o, key)
    ensures log <= log + [o] && OnlyOf(log + [o], |log|, map[]) && Silent(log + [o], |log|, key)
  {
  }

  lemma LossKeeps(s: State, t: State, key: Key, g: Option<Group>, apple: bool, reason: Loss, j: Key)
    requires Kept(s, t, key, g, apple) && j != key
    ensures Kept(s, RecordLoss(t, reason, j), key, g, apple)
  {
    KeptInv(s, t, key, g, apple);
    hide Inv, Kept, AppleFraming, OnlyOf;
    RecordLossInv(t, reason, j);
    OneEntry(t.log, Lost(reason, j), key);
    var u := RecordLoss(t, reason, j);
    SameFraming(t, u, key.ssrc);
    KeptFrame(s, t, u, key, g, apple);
  }

  lemma RemoveKeeps(s: State, t: State, key: Key, g: Option<Group>, apple: bool, j: Key)
    requires Kept(s, t, key, g, apple) && j in t.groups && j != key
    ensures Kept(s, t.(groups := t.groups - {j}), key, g, apple)
  {
    hide Inv, AppleFraming, Advances;
    RemoveInv(t, j);
    SameFraming(t, t.(groups := t.groups - {j}), key.ssrc);
  }

  lemma RoomKeeps(s: State, t: State, key: Key, g: Option<Group>, apple: bool, p: Packet, pick: Groups -> Key)
    requires Kept(s, t, key, g, apple) && PicksOldest(pick) && Spares(t, key, p, pick)
    ensures var u := MakeRoom(t, Key(p.ssrc, p.timestamp), pick);
            Kept(s, u, key, g, apple) && u.nextGroup == t.nextGroup
  {
    hide Kept, PicksOldest;
    if Key(p.ssrc, p.timestamp) !in t.groups && |t.groups| >= MAX_GROUPS {
      OldestPicked(t.groups, pick);
      RemoveKeeps(s, t, key, g, apple, pick(t.groups));
      LossKeeps(s, t.(groups := t.groups - {pick(t.groups)}), key, g, apple, GroupLimit, pick(t.groups));
    }
  }

  /** A group other than the picture's, new or grown. */
  lemma PutKeeps(s: State, t: State, key: Key, g: Option<Group>, apple: bool, j: Key, h: Group, u: State)
    requires Kept(s, t, key, g, apple) && j != key && Inv(u)
    requires g.Some? && g.value.order < t.nextGroup
    requires h.order == if j in t.groups then t.groups[j].order else t.nextGroup
    requires u == t.(groups := t.groups[j := h], nextGroup := t.nextGroup + 1)
    ensures Kept(s, u, key, g, apple)
  {
    hide Inv, AppleFraming, Advances;
    SameFraming(t, u, key.ssrc);
  }

  lemma NextInv(t: State)
    requires Inv(t)
    ensures Inv(t.(nextGroup := t.nextGroup + 1))
  {
    GroupsLater(t);
    hide Inv, TableOk;
    GroupsFrame(t, t.groups, t.nextGroup + 1);
    assert t.(groups := t.groups, nextGroup := t.nextGroup + 1) == t.(nextGroup := t.nextGroup + 1);
  }

  lemma NextKeeps(s: State, t: State, key: Key, g: Group, apple: bool)
    requires Kept(s, t, key, Some(g), apple)
    ensures Kept(s, t.(nextGroup := t.nextGroup + 1), key, Some(g), apple)
  {
    hide Inv, AppleFraming, Advances;
    NextInv(t);
    SameFraming(t, t.(nextGroup := t.nextGroup + 1), key.ssrc);
  }

  lemma GroupsLater(s: State)
    requires Inv(s)
    ensures TableOk(s.sources, s.groups, s.nextGroup + 1)
  {
    hide GroupFits, HistoryOk, ObservedOk, ParamsOk, DistinctOrders, Sums.Sum;
    FitsLater(s.sources, s.nextGroup, s.groups);
  }

  /** A group that has outgrown its limits is given up. */
  lemma GiveUpKeeps(s: State, t: State, key: Key, g: Group, apple: bool, j: Key)
    requires Kept(s, t, key, Some(g), apple) && j != key
    ensures Kept(s, RecordLoss(t.(groups := t.groups - {j}, nextGroup := t.nextGroup + 1), ByteLimit, j), key, Some(g),
                 apple)
  {
    hide Kept, RecordLoss;
    var u := t.(nextGroup := t.nextGroup + 1);
    NextKeeps(s, t, key, g, apple);
    if j in t.groups {
      RemoveKeeps(s, u, key, Some(g), apple, j);
    } else {
      assert u.groups - {j} == u.groups;
    }
    LossKeeps(s, u.(groups := u.groups - {j}), key, Some(g), apple, ByteLimit, j);
  }

  lemma InsertKeeps(s: State, t: State, key: Key, g: Group, apple: bool, p: Packet, now: nat)
    requires Kept(s, t, key, Some(g), apple) && Key(p.ssrc, p.timestamp) != key
    requires p.ssrc in t.sources && |p.payload| >= 2 && !OverBudget(t, p)
    requires Key(p.ssrc, p.timestamp) in t.groups || |t.groups| < MAX_GROUPS
    ensures Kept(s, Insert(t, p, now), key, Some(g), apple)
  {
    KeptInv(s, t, key, Some(g), apple);
    InvParts(t);
    hide Inv, Kept, OverBudget, GroupsOk, RecordLoss, Growing;
    var j, h := Key(p.ssrc, p.timestamp), Grown(t, p, now);
    InsertInv(t, p, now);
    InsertIs(t, p, now);
    GrownOk(t, p, now);
    SourceKnown(t, key);
    hide Grown, Insert;
    if h.bytes > MAX_GROUP_BYTES || |h.packets| > MAX_GROUP_PACKETS {
      GiveUpKeeps(s, t, key, g, apple, j);
    } else {
      PutKeeps(s, t, key, Some(g), apple, j, h, t.(groups := t.groups[j := h], nextGroup := t.nextGroup + 1));
    }
  }

  /** A packet of anything but the picture that gets no other treatment than its own group or source. */
  ghost predicate Unobtrusive(t: State, key: Key, p: Packet, now: nat, pick: Groups -> Key, apple: bool) {
    && PicksOldest(pick)
    && (|p.payload| >= 2 ==>
          && !TakesOver(t, p, now) && (OverBudget(t, p) || Spares(t, key, p, pick))
          && (p.ssrc == key.ssrc ==> p.timestamp != key.timestamp && NeverShows(p.payload, apple)))
  }

  lemma ObserveKeeps(s: State, t: State, key: Key, g: Option<Group>, apple: bool, p: Packet, now: nat)
    requires Kept(s, t, key, g, apple) && |p.payload| >= 2 && (p.ssrc == key.ssrc ==> NeverShows(p.payload, apple))
    ensures Kept(s, Observe(t, p, now), key, g, apple)
  {
    KeptInv(s, t, key, g, apple);
    hide Inv, Kept, Observe, AppleFraming, NeverShows;
    ObserveInv(t, p, now);
    ObserveFrame(t, p, now);
    FramingKept(t, p, now, key.ssrc, apple);
    KeptQuietly(s, t, Observe(t, p, now), key, g, apple);
  }

  lemma FoundKeeps(s: State, t: State, key: Key, g: Option<Group>, apple: bool, ssrc: u32)
    requires Kept(s, t, key, g, apple) && (ssrc in t.sources || (|t.sources| < t.tiles && Unstashed(t, ssrc)))
    ensures Kept(s, Found(t, ssrc), key, g, apple) && ssrc in Found(t, ssrc).sources
  {
    KeptInv(s, t, key, g, apple);
    hide Inv, Kept, Found, AppleFraming, Unstashed;
    FoundInv(t, ssrc);
    FoundFrame(t, ssrc);
    SameFraming(t, Found(t, ssrc), key.ssrc);
    KeptQuietly(s, t, Found(t, ssrc), key, g, apple);
  }

  lemma StashKeeps(s: State, t: State, key: Key, g: Option<Group>, apple: bool, p: Packet)
    requires Kept(s, t, key, g, apple) && |p.payload| >= 2 && p.ssrc !in t.sources && p.ssrc != key.ssrc
    ensures Kept(s, Stash(t, p), key, g, apple)
  {
    KeptInv(s, t, key, g, apple);
    hide Inv, Kept, Stash, AppleFraming;
    StashInv(t, p);
    StashFrame(t, p);
    var u := Stash(t, p);
    OtherKept(t.observed, u.observed, p.ssrc, key.ssrc);
    SameFraming(t, u, key.ssrc);
    KeptQuietly(s, t, u, key, g, apple);
  }

  lemma OtherKept(a: map<u32, Observation>, b: map<u32, Observation>, k: u32, x: u32)
    requires a - {k} == b - {k} && x != k
    ensures x in a <==> x in b
    ensures x in a ==> b[x] == a[x]
  {
    assert x in a <==> x in a - {k};
    assert x in a ==> (a - {k})[x] == (b - {k})[x];
  }

  lemma TakeInKeeps(s: State, t: State, key: Key, g: Group, apple: bool, p: Packet, now: nat, pick: Groups -> Key)
    requires Kept(s, t, key, Some(g), apple) && Key(p.ssrc, p.timestamp) != key && p.ssrc in t.sources
    requires |p.payload| >= 2 && PicksOldest(pick) && (OverBudget(t, p) || Spares(t, key, p, pick))
    ensures Kept(s, TakeIn(t, p, now, pick), key, Some(g), apple)
  {
    hide Kept, Prepare, OverBudget, RecordLoss, MakeRoom, Insert, PicksOldest;
    var u := Prepare(t, p.ssrc, now);
    PrepareFrame(t, p.ssrc, now);
    BudgetFrame(t, u, p);
    PrepareKeeps(s, t, key, Some(g), apple, p.ssrc, now);
    if OverBudget(u, p) {
      LossKeeps(s, u, key, Some(g), apple, PendingByteLimit, Key(p.ssrc, p.timestamp));
    } else {
      RoomKeeps(s, u, key, Some(g), apple, p, pick);
      KeptInv(s, u, key, Some(g), apple);
      MakeRoomInv(u, p, pick);
      InsertKeeps(s, MakeRoom(u, Key(p.ssrc, p.timestamp), pick), key, g, apple, p, now);
    }
  }

  /** With the picture pending its source is known, and another source can only be adopted with nothing kept back. */
  lemma OthersPlain(t: State, key: Key, ssrc: u32)
    requires Inv(t) && key in t.groups
    ensures key.ssrc in t.sources && (ssrc in t.sources || |t.sources| >= t.tiles || Unstashed(t, ssrc))
  {
    SourceKnown(t, key);
    ObservationFact(t, ssrc);
    hide GroupsOk, HistoryOk, ObservedOk, ParamsOk;
  }

  lemma ObserveRest(t: State, p: Packet, now: nat)
    requires |p.payload| >= 2
    ensures var o := Observe(t, p, now); o.tiles == t.tiles && o.sources == t.sources && o.groups == t.groups
    ensures Unstashed(t, p.ssrc) ==> Unstashed(Observe(t, p, now), p.ssrc)
  {
    hide Inferred;
    ObserveFrame(t, p, now);
  }

  lemma SparesFrame(s: State, t: State, key: Key, p: Packet, pick: Groups -> Key)
    requires s.groups == t.groups
    ensures OverBudget(s, p) <==> OverBudget(t, p)
    ensures Spares(s, key, p, pick) <==> Spares(t, key, p, pick)
  {
    hide Sums.Sum;
  }

  lemma SelectedKeeps(s: State, o: State, key: Key, g: Group, apple: bool, p: Packet, now: nat, pick: Groups -> Key)
    requires Kept(s, o, key, Some(g), apple) && Key(p.ssrc, p.timestamp) != key && |p.payload| >= 2
    requires p.ssrc in o.sources || (|o.sources| < o.tiles && Unstashed(o, p.ssrc))
    requires PicksOldest(pick) && (OverBudget(o, p) || Spares(o, key, p, pick))
    ensures Kept(s, TakeIn(Found(o, p.ssrc), p, now, pick), key, Some(g), apple)
  {
    hide Kept, TakeIn, Found, Unstashed, PicksOldest, OverBudget, Spares;
    FoundKeeps(s, o, key, Some(g), apple, p.ssrc);
    FoundFrame(o, p.ssrc);
    SparesFrame(o, Found(o, p.ssrc), key, p, pick);
    TakeInKeeps(s, Found(o, p.ssrc), key, g, apple, p, now, pick);
  }

  /** Receiving a packet of anything else keeps the picture. */
  lemma OtherKeeps(s: State, t: State, key: Key, g: Group, apple: bool, p: Packet, now: nat, pick: Groups -> Key)
    requires Kept(s, t, key, Some(g), apple) && Unobtrusive(t, key, p, now, pick, apple) && |p.payload| >= 2
    ensures Kept(s, Received(t, p, now, pick), key, Some(g), apple)
  {
    hide Inv, Kept, TakeIn, Stash, Observe, TakesOver, Found, PicksOldest, OverBudget, NeverShows, AppleFraming, IsLate,
      Unstashed, Spares;
    KeptInv(s, t, key, Some(g), apple);
    OthersPlain(t, key, p.ssrc);
    var o := Observe(t, p, now);
    ObserveKeeps(s, t, key, Some(g), apple, p, now);
    ObserveRest(t, p, now);
    SparesFrame(t, o, key, p, pick);
    if p.ssrc in t.sources || |t.sources| < t.tiles {
      SelectedKeeps(s, o, key, g, apple, p, now, pick);
    } else {
      StashKeeps(s, o, key, Some(g), apple, p);
    }
  }

  lemma OtherPolls(t: State, key: Key, p: Packet, now: nat, pick: Groups -> Key, apple: bool)
    requires Inv(t) && key in t.groups && Unobtrusive(t, key, p, now, pick, apple)
    ensures Push(t, p, now, pick) == Poll(Received(t, p, now, pick), now)
  {
    hide Inv, ShouldReplace, Observe, Unstashed, PicksOldest, OverBudget, Push, Poll, Received;
    OthersPlain(t, key, p.ssrc);
    PushPolls(t, p, now, pick);
  }

  // ----- packets of the picture

  /** The group that these arrivals have built up in `t`. */
  function Part(t: State, pic: Picture, ds: seq<Arrival>): Option<Group>
    requires ArrivalsOf(pic, ds)
  {
    if ds == [] then None
    else Some(Gathered(pic, ds, if pic.key in t.groups then t.groups[pic.key].order else 0))
  }

  /** These arrivals are what is pending of the picture. */
  ghost predicate Pending(s: State, t: State, pic: Picture, ds: seq<Arrival>, apple: bool)
    requires ArrivalsOf(pic, ds)
  {
    Kept(s, t, pic.key, Part(t, pic, ds), apple)
  }

  lemma PutOwn(s: State, t: State, key: Key, g: Option<Group>, apple: bool, h: Group)
    requires Kept(s, t, key, g, apple) && h.order == Turn(t, g)
    requires Inv(t.(groups := t.groups[key := h], nextGroup := t.nextGroup + 1))
    ensures Kept(s, t.(groups := t.groups[key := h], nextGroup := t.nextGroup + 1), key, Some(h), apple)
  {
    hide Inv, AppleFraming, Advances;
    SameFraming(t, t.(groups := t.groups[key := h], nextGroup := t.nextGroup + 1), key.ssrc);
  }

  lemma OwnSpares(t: State, p: Packet, pick: Groups -> Key)
    requires PicksOldest(pick)
    ensures Spares(t, Key(p.ssrc, p.timestamp), p, pick)
  {
    if Key(p.ssrc, p.timestamp) !in t.groups && |t.groups| >= MAX_GROUPS {
      OldestPicked(t.groups, pick);
    }
  }

  lemma GrownIs(t: State, pic: Picture, ds: seq<Arrival>, d: Arrival)
    requires Fits(pic) && ArrivalsOf(pic, ds) && d.index < Size(pic)
    requires Holds(t.groups, pic.key, Part(t, pic, ds))
    ensures ArrivalsOf(pic, ds + [d])
    ensures var h := Grown(t, PacketAt(pic, d.index), d.at);
            && h == Gathered(pic, ds + [d], h.order) && h.order == Turn(t, Part(t, pic, ds))
            && h.bytes <= MAX_GROUP_BYTES && |h.packets| <= MAX_GROUP_PACKETS
  {
    hide AddPacket, Gathered, Fits;
    var order := Turn(t, Part(t, pic, ds));
    GatheredSnoc(pic, ds, d, order);
    GatheredFits(pic, ds + [d], order);
    GatheredFacts(pic, ds + [d], order);
  }

  /** A packet of the picture joins its group, whatever else is pending. */
  lemma TakeInOwn(s: State, t: State, pic: Picture, ds: seq<Arrival>, d: Arrival, apple: bool, pick: Groups -> Key)
    requires Fits(pic) && ArrivalsOf(pic, ds) && d.index < Size(pic) && PicksOldest(pick)
    requires Pending(s, t, pic, ds, apple) && pic.key.ssrc in t.sources && !OverBudget(t, PacketAt(pic, d.index))
    ensures ArrivalsOf(pic, ds + [d])
    ensures Pending(s, TakeIn(t, PacketAt(pic, d.index), d.at, pick), pic, ds + [d], apple)
  {
    var p, g := PacketAt(pic, d.index), Part(t, pic, ds);
    assert |p.payload| >= 2 by { assert p.payload in pic.payloads; }
    hide Inv, Kept, Prepare, OverBudget, RecordLoss, MakeRoom, Insert, PicksOldest, Gathered, Fits, Seqno, Grown;
    var u := Prepare(t, p.ssrc, d.at);
    PrepareFrame(t, p.ssrc, d.at);
    BudgetFrame(t, u, p);
    PrepareKeeps(s, t, pic.key, g, apple, p.ssrc, d.at);
    OwnSpares(u, p, pick);
    RoomKeeps(s, u, pic.key, g, apple, p, pick);
    KeptInv(s, u, pic.key, g, apple);
    MakeRoomInv(u, p, pick);
    var v := MakeRoom(u, pic.key, pick);
    KeptInv(s, v, pic.key, g, apple);
    PartAgain(t, v, pic, ds, g);
    ArrivalsSnoc(pic, ds, d);
    InsertOwn(s, v, pic, ds, d, apple);
  }

  lemma PartAgain(t: State, u: State, pic: Picture, ds: seq<Arrival>, g: Option<Group>)
    requires ArrivalsOf(pic, ds) && g == Part(t, pic, ds) && Holds(u.groups, pic.key, g)
    requires Fits(pic)
    ensures Part(u, pic, ds) == g
  {
    hide Gathered, Fits;
    if ds != [] {
      GatheredFacts(pic, ds, if pic.key in t.groups then t.groups[pic.key].order else 0);
    }
  }

  lemma InsertOwn(s: State, t: State, pic: Picture, ds: seq<Arrival>, d: Arrival, apple: bool)
    requires Fits(pic) && ArrivalsOf(pic, ds) && d.index < Size(pic) && |PacketAt(pic, d.index).payload| >= 2
    requires Pending(s, t, pic, ds, apple) && pic.key.ssrc in t.sources && !OverBudget(t, PacketAt(pic, d.index))
    requires pic.key in t.groups || |t.groups| < MAX_GROUPS
    ensures ArrivalsOf(pic, ds + [d])
    ensures Pending(s, Insert(t, PacketAt(pic, d.index), d.at), pic, ds + [d], apple)
  {
    var p, g := PacketAt(pic, d.index), Part(t, pic, ds);
    hide Inv, Kept, OverBudget, RecordLoss, Gathered, Fits, Seqno;
    KeptInv(s, t, pic.key, g, apple);
    GrownIs(t, pic, ds, d);
    InsertIs(t, p, d.at);
    InsertInv(t, p, d.at);
    hide Grown, Insert;
    PutOwn(s, t, pic.key, g, apple, Grown(t, p, d.at));
  }
}
