/**
 What becomes of a pending group when a poll gets to it, case by case: every damaged picture is recorded as a loss,
 once, and nothing else is.
 */
module GroupFates {
  import opened Bytes
  import opened Hevc
  import opened DepacketizerModel
  import opened DepacketizerInvariants
  import opened SequenceOrder
  import opened QueueOrder
  import opened Reception
  import opened PictureRuns
  import Sums

  // ----- the fate of one group

  /** A coded slice: NAL unit types 0 to 31, with a first header bit. */
  predicate Slice(n: Nal) {
    |n| >= 3 && n[0] / 2 % 64 <= 31
  }

  /** The slice whose first header bit says that a picture begins. */
  predicate Opening(n: Nal) {
    Slice(n) && n[2] >= 128
  }

  /** A slice of a picture that needs no other: types 16 to 21. */
  predicate Intra(n: Nal) {
    Slice(n) && 16 <= n[0] / 2 % 64 <= 21
  }

  datatype Fate = Shown | Missed(reason: Loss) | Ignored

  /** The payloads of a run, in sending order. */
  function RunPayloads(packets: map<u16, Packet>, end: u16): (b: seq<seq<byte>>)
    requires IsRun(packets, end)
    ensures |b| == |packets|
  {
    seq(|packets|, i requires 0 <= i < |packets| => packets[Before(end, |packets| - 1 - i)].payload)
  }

  /** The fate of reassembled NAL units: `started` says that the generation has had a key picture. */
  function FateOfUnits(nals: seq<Nal>, started: bool): Fate {
    if forall n <- nals :: !Slice(n) then Ignored
    else if forall n <- nals :: !Opening(n) then Missed(MissingFirstSlice)
    else if !started && forall n <- nals :: !Intra(n) then Ignored
    else Shown
  }

  /** The fate of a group that is due and not late. */
  function FateOf(g: Group, apple: bool, started: bool): Fate {
    if g.marker.None? then Missed(MissingMarker)
    else if !IsRun(g.packets, g.marker.value) then Missed(SequenceGap)
    else
      match Reassembled(RunPayloads(g.packets, g.marker.value), apple)
      case Failure(reason) => Missed(reason)
      case Success(v) => FateOfUnits(v.0, started)
  }

  lemma SlicesAre(n: Nal)
    ensures Slice(n) == IsVcl(n) && Opening(n) == IsFirstSlice(n) && Intra(n) == IsKeySlice(n)
  {
  }

  lemma PresentFate(u: State, key: Key, nals: seq<Nal>, donl: u16)
    ensures Decided(u, Present(u, key, nals, donl), key, FateOfUnits(nals, u.haveKey))
  {
    hide LearnAll, ParamsIn, ParamPrefix, VclData, IndexOf, Slice, Opening, Intra, IsVcl, IsFirstSlice, IsKeySlice;
    forall n | n in nals ensures Slice(n) == IsVcl(n) && Opening(n) == IsFirstSlice(n) && Intra(n) == IsKeySlice(n) {
      SlicesAre(n);
    }
  }

  /** From `s` to `r` one thing has been decided about the picture, as its fate says, or nothing. */
  predicate Decided(s: State, r: State, key: Key, fate: Fate) {
    match fate
    case Shown => |r.log| == |s.log| + 1 && s.log <= r.log && r.log[|s.log|].Emitted? && About(r.log[|s.log|], key)
    case Missed(reason) => r.log == s.log + [Lost(reason, key)] && r.lossEpoch == s.lossEpoch + 1
    case Ignored => r.log == s.log && r.lossEpoch == s.lossEpoch
  }

  lemma RunsAreSorted(key: Key, g: Group)
    requires GroupOk(key, g) && g.marker.Some?
    ensures var ps := InOrder(g.packets, g.marker.value, 0x1_0000);
            && (Adjacent(ps) <==> IsRun(g.packets, g.marker.value))
            && (IsRun(g.packets, g.marker.value) ==> Payloads(ps) == RunPayloads(g.packets, g.marker.value))
  {
    hide Adjacent, IsRun, InOrder, Distance, Before;
    assert Keyed(g.packets) && |g.packets| <= 0x1_0000 && g.marker.value in g.packets by { GroupParts(key, g); }
    AcceptsExactlyRuns(g.packets, g.marker.value);
    if IsRun(g.packets, g.marker.value) {
      RunOrder(g.packets, g.marker.value);
    }
  }

  lemma GroupParts(key: Key, g: Group)
    requires GroupOk(key, g) && g.marker.Some?
    ensures Keyed(g.packets) && |g.packets| <= 0x1_0000 && g.marker.value in g.packets
  {
    hide Sums.Sum;
    forall q <- g.packets ensures g.packets[q].seqno == q {
      assert PacketOk(key, q, g.packets[q]);
    }
  }

  lemma AssembleFate(u: State, key: Key, g: Group)
    requires GroupOk(key, g)
    ensures Decided(u, Assemble(u, key, g), key, FateOf(g, AppleFraming(u, key.ssrc), u.haveKey))
  {
    hide GroupOk, InOrder, Adjacent, IsRun, Reassembled, Present, AppleFraming, RunPayloads, FateOfUnits;
    if g.marker.Some? {
      RunsAreSorted(key, g);
      if IsRun(g.packets, g.marker.value) {
        match Reassembled(RunPayloads(g.packets, g.marker.value), AppleFraming(u, key.ssrc)) {
          case Failure(_) =>
          case Success(v) => PresentFate(u, key, v.0, v.1);
        }
      }
    }
  }

  // ----- a poll that gets to the group

  /** A poll is not held up before it gets to this group. */
  ghost predicate GetsTo(t: State, key: Key, now: nat) {
    key in t.groups && !Discovering(t, now) && Clears(t, Ahead(t, key), now)
  }

  /** The state in which it gets there. */
  ghost function Reaching(t: State, key: Key, now: nat): State {
    PollEach(t, Ahead(t, key), now)
  }

  /** The hold times are over: 25 ms after the marker, or without one 200 ms after the last packet or 1 s in all. */
  predicate Due(g: Group, now: nat) {
    if g.markerAt.Some? then now >= g.markerAt.value + 25
    else now >= g.lastPacket + 200 || now >= g.first + 1000
  }

  lemma HoldIsOver(g: Group, now: nat)
    ensures Due(g, now) <==> !IsHeld(g, now)
  {
  }

  /** The last unit of this source was not before this picture, in 32-bit serial arithmetic. */
  predicate Late(t: State, key: Key) {
    key.ssrc in t.lastTs && !(0 < (key.timestamp - t.lastTs[key.ssrc]) % 0x1_0000_0000 < 0x8000_0000)
  }

  lemma LateIs(t: State, key: Key)
    ensures Late(t, key) <==> IsLate(t, key)
  {
  }

  /** From position `from` on, the `n`-th decision is about the picture and no other is. */
  predicate Only(log: seq<Output>, from: nat, n: nat, key: Key) {
    from <= n < |log| && forall i :: from <= i < |log| ==> (About(log[i], key) <==> i == n)
  }

  /** Between `t` and `r` the picture met its fate, as the decision after those of `b`; it is pending no more. */
  predicate Fated(t: State, b: State, r: State, key: Key, fate: Fate) {
    && t.log <= b.log <= r.log && key !in r.groups
    && match fate
       case Shown => Only(r.log, |t.log|, |b.log|, key) && r.log[|b.log|].Emitted?
       case Missed(reason) =>
         && Only(r.log, |t.log|, |b.log|, key) && r.log[|b.log|] == Lost(reason, key)
         && Losses(r.log[..|b.log| + 1]) == Losses(r.log[..|b.log|]) + 1
       case Ignored => Silent(r.log, |t.log|, key)
  }

  lemma {:induction false} EachOther(t: State, keys: seq<Key>, now: nat, key: Key)
    requires Inv(t) && key in t.groups && forall k <- keys :: k != key
    ensures var r := PollEach(t, keys, now);
            && Inv(r) && key in r.groups && r.groups[key] == t.groups[key]
            && t.log <= r.log && Silent(r.log, |t.log|, key)
    decreases |keys|
  {
    hide Inv, Handle, Passes, Silent;
    NoneYet(t.log, key);
    if keys != [] {
      PollEachStep(t, keys, now);
      if Passes(t, keys[0], now) {
        assert keys[0] in keys;
        PassesKnown(t, keys[0], now);
        HandleInv(t, keys[0]);
        HandleSilent(t, keys[0], key);
        HandleFrame(t, keys[0]);
        var u := Handle(t, keys[0]);
        assert forall k <- keys[1..] :: k in keys;
        EachOther(u, keys[1..], now, key);
        SilentChain(t.log, u.log, PollEach(u, keys[1..], now).log, key);
      }
    }
  }

  /** A poll goes on behind the group once it has handled it, and stops there if it has to wait. */
  lemma PollGoesOn(t: State, key: Key, now: nat) returns (behind: seq<Key>)
    requires Inv(t) && GetsTo(t, key, now)
    ensures var b := Reaching(t, key, now);
            && Inv(b) && key in b.groups && b.groups[key] == t.groups[key]
            && t.log <= b.log && Silent(b.log, |t.log|, key)
            && Poll(t, now) == if Passes(b, key, now) then PollEach(Handle(b, key), behind, now) else b
  {
    hide Inv, IsHeld, IsLate, Clears, Handle, Silent;
    var a := Ahead(t, key);
    behind := Queue(t, key);
    EachOther(t, a, now, key);
    var b := PollEach(t, a, now);
    hide Ahead;
    PollEachSplit(t, a, [key] + behind, now);
    PollEachStep(b, [key] + behind, now);
    assert ([key] + behind)[1..] == behind;
  }

  lemma OneLoss(log: seq<Output>, n: nat)
    requires n < |log| && log[n].Lost?
    ensures Losses(log[..n + 1]) == Losses(log[..n]) + 1
  {
    assert log[..n + 1][..n] == log[..n];
  }

  lemma FatedFrom(t: State, b: State, m: State, r: State, key: Key, fate: Fate)
    requires t.log <= b.log && Silent(b.log, |t.log|, key) && Decided(b, m, key, fate)
    requires m.log <= r.log && Silent(r.log, |m.log|, key) && key !in r.groups
    ensures Fated(t, b, r, key, fate)
  {
    hide Losses;
    assert b.log <= m.log;
    if fate.Missed? {
      assert m.log[|b.log|] == r.log[|b.log|];
      OneLoss(r.log, |b.log|);
    }
    if !fate.Ignored? {
      assert m.log[|b.log|] == r.log[|b.log|];
      forall i | |t.log| <= i < |r.log| ensures About(r.log[i], key) <==> i == |b.log| {
        if i < |b.log| {
          assert r.log[i] == b.log[i];
        }
      }
    } else {
      forall i | |t.log| <= i < |r.log| ensures !About(r.log[i], key) {
        if i < |b.log| {
          assert r.log[i] == b.log[i];
        }
      }
    }
  }

  /**
   When a poll gets to a group, exactly one thing is decided about it: it is dropped if it is late; if it has to wait,
   the poll ends; and if it is due, it is handed out, recorded as one loss, or ignored, exactly as its packets have it.
   */
  lemma PollDecides(t: State, key: Key, now: nat)
    requires Inv(t) && GetsTo(t, key, now)
    ensures var b, r, g := Reaching(t, key, now), Poll(t, now), t.groups[key];
            && (Late(b, key) ==>
                  Only(r.log, |t.log|, |b.log|, key) && r.log[|b.log|] == Stale(key) && key !in r.groups)
            && (!Late(b, key) && !Due(g, now) ==> r == b && Silent(r.log, |t.log|, key))
            && (!Late(b, key) && Due(g, now) ==>
                  Fated(t, b, r, key, FateOf(g, AppleFraming(t, key.ssrc), b.haveKey)))
            && r.lossEpoch == Losses(r.log)
  {
    hide Inv, IsHeld, IsLate, Due, Late, Fated, FateOf, Handle, Silent, AppleFraming, Losses;
    var b, g := Reaching(t, key, now), t.groups[key];
    HoldIsOver(g, now);
    LateIs(b, key);
    var behind := PollGoesOn(t, key, now);
    PollInv(t, now);
    StampsOf(Poll(t, now));
    if Late(b, key) {
      LateDecides(t, b, key, behind, now);
    } else if Due(g, now) {
      DueDecides(t, b, key, behind, now);
    }
  }

  lemma StampsOf(s: State)
    requires Inv(s)
    ensures s.lossEpoch == Losses(s.log)
  {
  }

  lemma LateDecides(t: State, b: State, key: Key, behind: seq<Key>, now: nat)
    requires key in b.groups && IsLate(b, key) && t.log <= b.log && Silent(b.log, |t.log|, key)
    ensures var r := PollEach(Handle(b, key), behind, now);
            Only(r.log, |t.log|, |b.log|, key) && r.log[|b.log|] == Stale(key) && key !in r.groups
  {
    hide IsLate;
    var m := DropStale(b, key);
    EachSilent(m, behind, key, now);
    var r := PollEach(m, behind, now);
    assert m.log[|b.log|] == r.log[|b.log|];
    forall i | |t.log| <= i < |r.log| ensures About(r.log[i], key) <==> i == |b.log| {
      if i < |b.log| {
        assert r.log[i] == b.log[i];
      }
    }
  }

  lemma DueDecides(t: State, b: State, key: Key, behind: seq<Key>, now: nat)
    requires Inv(b) && key in b.groups && !IsLate(b, key) && t.log <= b.log && Silent(b.log, |t.log|, key)
    requires t.observed == b.observed
    ensures Fated(t, b, PollEach(Handle(b, key), behind, now), key,
                  FateOf(b.groups[key], AppleFraming(t, key.ssrc), b.haveKey))
  {
    hide IsLate, Assemble, FateOf, Decided, Fated, AppleFraming, Silent;
    var u, g := b.(groups := b.groups - {key}), b.groups[key];
    PendingOk(b, key);
    SameFraming(t, u, key.ssrc);
    AssembleFate(u, key, g);
    var m := Assemble(u, key, g);
    EachSilent(m, behind, key, now);
    assert Handle(b, key) == m;
    SameLog(b, u, m, key, FateOf(g, AppleFraming(t, key.ssrc), b.haveKey));
    FatedFrom(t, b, m, PollEach(m, behind, now), key, FateOf(g, AppleFraming(t, key.ssrc), b.haveKey));
  }

  lemma SameLog(b: State, u: State, m: State, key: Key, fate: Fate)
    requires Decided(u, m, key, fate) && u.log == b.log && u.lossEpoch == b.lossEpoch
    ensures Decided(b, m, key, fate)
  {
  }

  lemma PendingOk(s: State, key: Key)
    requires Inv(s) && key in s.groups
    ensures GroupOk(key, s.groups[key])
  {
    hide GroupOk, HistoryOk, ObservedOk, ParamsOk, DistinctOrders;
    assert GroupFits(s.sources, s.nextGroup, key, s.groups[key]);
  }

  // ----- the limits on what is pending

  /** `g` is the group after this packet: as it was with a packet that it has already, else with one more. */
  predicate Joined(before: Option<Group>, p: Packet, now: nat, g: Group) {
    if before.None? then
      && g.packets == map[p.seqno := p] && g.first == g.lastPacket == now && g.bytes == |p.payload|
      && g.marker == (if p.marker then Some(p.seqno) else None) && g.markerAt == (if p.marker then Some(now) else None)
    else if p.seqno in before.value.packets then g == before.value
    else
      && g.packets == before.value.packets[p.seqno := p] && g.first == before.value.first && g.lastPacket == now
      && g.order == before.value.order && g.bytes == before.value.bytes + |p.payload|
      && (p.marker ==> g.marker == Some(p.seqno)) && (!p.marker ==> g.marker == before.value.marker)
      && g.markerAt == (if p.marker && before.value.markerAt.None? then Some(now) else before.value.markerAt)
  }

  lemma GrownJoins(s: State, p: Packet, now: nat)
    ensures var key := Key(p.ssrc, p.timestamp);
            Joined(if key in s.groups then Some(s.groups[key]) else None, p, now, Grown(s, p, now))
  {
  }

  /** More than 32 MiB in all or 8 MiB in one packet: the packet is refused, and what is pending stays. */
  predicate TooMuch(s: State, p: Packet, pending: nat) {
    var key := Key(p.ssrc, p.timestamp);
    && !(key in s.groups && p.seqno in s.groups[key].packets)
    && (|p.payload| > 8 * 1024 * 1024 || pending + |p.payload| > 32 * 1024 * 1024)
  }

  lemma RefusedTakeIn(s: State, p: Packet, now: nat, pick: Groups -> Key)
    requires TooMuch(s, p, Sums.Sum(s.groups, GroupBytes))
    ensures var r, key := TakeIn(s, p, now, pick), Key(p.ssrc, p.timestamp);
            && r.groups == s.groups && r.nextGroup == s.nextGroup
            && r.log == s.log + [Lost(PendingByteLimit, key)] && r.lossEpoch == s.lossEpoch + 1
  {
    hide Prepare, Sums.Sum, MakeRoom, Insert;
    PrepareFrame(s, p.ssrc, now);
    BudgetFrame(s, Prepare(s, p.ssrc, now), p);
  }

  /**
   An admitted packet joins its group. A sixty-fifth group costs the oldest one, and a group of more than 8 MiB or 8192
   packets is given up; each is one loss, and nothing else is recorded or removed.
   */
  lemma AdmittedTakeIn(s: State, p: Packet, now: nat, pick: Groups -> Key)
    requires PicksOldest(pick) && !TooMuch(s, p, Sums.Sum(s.groups, GroupBytes))
    ensures var r, key := TakeIn(s, p, now, pick), Key(p.ssrc, p.timestamp);
            var full := key !in s.groups && |s.groups| >= 64;
            var room := if full then s.groups - {pick(s.groups)} else s.groups;
            var lost := if full then [Lost(GroupLimit, pick(s.groups))] else [];
            var g := Grown(s, p, now);
            && Joined(if key in s.groups then Some(s.groups[key]) else None, p, now, g)
            && (full ==> IsOldest(s.groups, pick(s.groups)))
            && (if g.bytes > 8 * 1024 * 1024 || |g.packets| > 8192
                then r.groups == room - {key} && r.log == s.log + lost + [Lost(ByteLimit, key)]
                     && r.lossEpoch == s.lossEpoch + |lost| + 1
                else r.groups == room[key := g] && r.log == s.log + lost && r.lossEpoch == s.lossEpoch + |lost|)
  {
    hide Sums.Sum, Grown, Joined;
    GrownJoins(s, p, now);
    var key := Key(p.ssrc, p.timestamp);
    var u := Prepare(s, p.ssrc, now);
    PrepareFrame(s, p.ssrc, now);
    BudgetFrame(s, u, p);
    if key !in s.groups && |s.groups| >= 64 {
      OldestIs(s.groups, pick);
    }
    var room := MakeRoom(u, key, pick);
    SameGrown(s, u, room, p, now);
    InsertIs(room, p, now);
    hide Prepare, Insert, PicksOldest, IsOldest;
    assert s.log + [] == s.log;
  }

  lemma SameGrown(s: State, u: State, room: State, p: Packet, now: nat)
    requires u.groups == s.groups && u.nextGroup == room.nextGroup == s.nextGroup
    requires var key := Key(p.ssrc, p.timestamp);
             && (key in s.groups ==> key in room.groups && room.groups[key] == s.groups[key])
             && (key !in s.groups ==> key !in room.groups)
    ensures Grown(room, p, now) == Grown(s, p, now)
  {
    hide AddPacket, NewGroup;
  }

  lemma OldestIs(groups: Groups, pick: Groups -> Key)
    requires PicksOldest(pick) && |groups| > 0
    ensures IsOldest(groups, pick(groups))
  {
    assert groups != map[];
  }
}
