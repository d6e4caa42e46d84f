/**
 What every reachable depacketizer state satisfies: the budgets, the bookkeeping of sources and
 groups, and the history of what has been emitted.
 */
module DepacketizerInvariants {
  import opened Bytes
  import opened Hevc
  import Packetization
  import opened Sums
  import opened Lexical
  import opened DepacketizerModel

  // ----- the invariant

  predicate Ascending(xs: seq<u32>) {
    forall i, j :: 0 <= i < j < |xs| ==> xs[i] < xs[j]
  }

  predicate SourcesOk(s: State) {
    && 1 <= s.tiles <= 16 && |s.sources| <= s.tiles && Ascending(s.sources)
    && forall x <- s.lastTs :: x in s.sources
  }

  /** A group's counters are exact, its packets belong to it, and its marker is one of them. */
  ghost predicate GroupOk(key: Key, g: Group) {
    && 0 < |g.packets| <= MAX_GROUP_PACKETS
    && g.bytes == Sum(g.packets, PayloadSize) <= MAX_GROUP_BYTES
    && (forall q <- g.packets :: PacketOk(key, q, g.packets[q]))
    && (g.marker.Some? <==> g.markerAt.Some?)
    && (g.marker.Some? ==> g.marker.value in g.packets && g.packets[g.marker.value].marker)
    && (g.marker.None? ==> forall q <- g.packets :: !g.packets[q].marker)
  }

  predicate PacketOk(key: Key, q: u16, p: Packet) {
    p.seqno == q && p.ssrc == key.ssrc && p.timestamp == key.timestamp && |p.payload| >= 2
  }

  ghost predicate GroupFits(sources: seq<u32>, nextGroup: nat, k: Key, g: Group) {
    k.ssrc in sources && GroupOk(k, g) && g.order < nextGroup
  }

  ghost predicate TableOk(sources: seq<u32>, groups: Groups, nextGroup: nat) {
    && |groups| <= MAX_GROUPS
    && Sum(groups, GroupBytes) <= MAX_PENDING_BYTES
    && (forall k <- groups :: GroupFits(sources, nextGroup, k, groups[k]))
    && DistinctOrders(groups)
  }

  ghost predicate GroupsOk(s: State) {
    TableOk(s.sources, s.groups, s.nextGroup)
  }

  predicate DistinctOrders(groups: Groups) {
    forall k <- groups, j <- groups :: groups[k].order == groups[j].order ==> k == j
  }

  function PrefixSize(ps: seq<Packet>): nat {
    if ps == [] then 0 else |ps[0].payload| + PrefixSize(ps[1..])
  }

  predicate ObservationOk(ssrc: u32, o: Observation) {
    && |o.prefix| <= MAX_CANDIDATE_PACKETS
    && o.prefixBytes == PrefixSize(o.prefix) <= MAX_CANDIDATE_BYTES
    && (forall p <- o.prefix :: p.ssrc == ssrc && |p.payload| >= 2)
    && |o.params| <= MAX_PARAMS && (forall n <- o.params :: IsParam(n))
  }

  ghost predicate ObservedOk(s: State) {
    && |s.observed| <= MAX_OBSERVED
    && forall x <- s.observed ::
         ObservationOk(x, s.observed[x]) && (x in s.sources || s.tiles != 1 ==> s.observed[x].prefix == [])
  }

  predicate Strict(params: seq<Nal>) {
    forall i, j :: 0 <= i < j < |params| ==> Less(params[i], params[j])
  }

  predicate ParamsOk(params: seq<Nal>) {
    |params| <= MAX_PARAMS && Strict(params) && forall n <- params :: IsParam(n)
  }

  // ----- the history

  function Units(log: seq<Output>): seq<AccessUnit> {
    if log == [] then []
    else
      var before := Units(log[..|log| - 1]);
      var last := log[|log| - 1];
      if last.Emitted? then before + [last.unit] else before
  }

  function Losses(log: seq<Output>): nat {
    if log == [] then 0 else Losses(log[..|log| - 1]) + if log[|log| - 1].Lost? then 1 else 0
  }

  function Handoffs(log: seq<Output>): nat {
    if log == [] then 0 else Handoffs(log[..|log| - 1]) + if log[|log| - 1].Handoff? then 1 else 0
  }

  function Dropped(log: seq<Output>): nat {
    if log == [] then 0 else Dropped(log[..|log| - 1]) + if log[|log| - 1].Emitted? then 0 else 1
  }

  /** A unit has been emitted since the last handoff. */
  predicate Started(log: seq<Output>) {
    log != [] && !log[|log| - 1].Handoff? && (log[|log| - 1].Emitted? || Started(log[..|log| - 1]))
  }

  /** The timestamp of the last unit of `ssrc` since the last handoff. */
  function LastTimestamp(log: seq<Output>, ssrc: u32): Option<u32> {
    if log == [] || log[|log| - 1].Handoff? then None
    else
      var last := log[|log| - 1];
      if last.Emitted? && last.ssrc == ssrc then Some(last.unit.rtpTimestamp)
      else LastTimestamp(log[..|log| - 1], ssrc)
  }

  /** The stamps of a unit are what its predecessors in the log make them. */
  predicate Stamped(before: seq<Output>, ssrc: u32, u: AccessUnit, tiles: nat) {
    && u.pts == |Units(before)|
    && u.lossEpoch == Losses(before)
    && u.generation == Handoffs(before)
    && (u.key || Started(before))
    && (LastTimestamp(before, ssrc).Some? ==> Advances(LastTimestamp(before, ssrc).value, u.rtpTimestamp))
    && u.tile < tiles
  }

  predicate LogOk(log: seq<Output>, tiles: nat) {
    log == [] ||
    (var before, last := log[..|log| - 1], log[|log| - 1];
     LogOk(before, tiles) && (last.Emitted? ==> Stamped(before, last.ssrc, last.unit, tiles)))
  }

  ghost predicate HistoryOk(s: State) {
    && LogOk(s.log, s.tiles)
    && s.nextPts == |Units(s.log)|
    && s.lossEpoch == Losses(s.log)
    && s.generation == Handoffs(s.log)
    && s.dropped == Dropped(s.log)
    && s.haveKey == Started(s.log)
    && forall x: u32 :: LastTimestamp(s.log, x) == if x in s.lastTs then Some(s.lastTs[x]) else None
  }

  ghost predicate Inv(s: State) {
    SourcesOk(s) && GroupsOk(s) && ObservedOk(s) && ParamsOk(s.params) && HistoryOk(s)
  }

  lemma InitInv(tileCount: nat)
    ensures Inv(Init(tileCount))
  {
    assert Sum(Init(tileCount).groups, GroupBytes) == 0;
  }

  // ----- steps that only touch the history

  lemma Appended(s: State, o: Output)
    ensures var log := s.log + [o]; log[..|log| - 1] == s.log && log[|log| - 1] == o
  {
  }

  lemma RecordLossInv(s: State, reason: Loss, key: Key)
    requires Inv(s)
    ensures Inv(RecordLoss(s, reason, key))
  {
    hide TableOk, ObservationOk, Strict;
    Appended(s, Lost(reason, key));
  }

  lemma StaleInv(s: State, key: Key)
    requires Inv(s)
    ensures Inv(s.(dropped := s.dropped + 1, log := s.log + [Stale(key)]))
  {
    hide TableOk, ObservationOk, Strict;
    Appended(s, Stale(key));
  }

  lemma DropStaleInv(s: State, key: Key)
    requires Inv(s) && key in s.groups
    ensures Inv(DropStale(s, key))
  {
    hide Inv;
    RemoveInv(s, key);
    StaleInv(s.(groups := s.groups - {key}), key);
  }

  lemma RemoveInv(s: State, key: Key)
    requires Inv(s) && key in s.groups
    ensures Inv(s.(groups := s.groups - {key}))
  {
    RemoveOk(s.sources, s.groups, s.nextGroup, key);
    GroupsFrame(s, s.groups - {key}, s.nextGroup);
  }

  lemma EmitInv(s: State, key: Key, nals: seq<Nal>, donl: u16)
    requires Inv(s) && key.ssrc in s.sources && !IsLate(s, key)
    requires s.haveKey || exists n <- nals :: IsKeySlice(n)
    ensures Inv(Emit(s, key, nals, donl))
  {
    hide TableOk, ObservationOk, Strict, OfKind, ParamPrefix, VclData, IsKeySlice;
    var r := Emit(s, key, nals, donl);
    var last := r.log[|s.log|];
    Appended(s, last);
    assert LastTimestamp(s.log, key.ssrc) == if key.ssrc in s.lastTs then Some(s.lastTs[key.ssrc]) else None;
    assert Stamped(s.log, key.ssrc, last.unit, s.tiles);
  }

  // ----- replacing one part of the state

  lemma GroupsFrame(s: State, groups: Groups, nextGroup: nat)
    requires Inv(s) && TableOk(s.sources, groups, nextGroup)
    ensures Inv(s.(groups := groups, nextGroup := nextGroup))
  {
    hide LogOk, LastTimestamp, TableOk, ObservationOk, Strict;
  }

  lemma ParamsFrame(s: State, params: seq<Nal>)
    requires Inv(s) && ParamsOk(params)
    ensures Inv(s.(params := params))
  {
    hide LogOk, LastTimestamp, TableOk, ObservationOk, ParamsOk;
  }

  lemma ObservedFrame(s: State, observed: map<u32, Observation>)
    requires Inv(s) && ObservedOk(s.(observed := observed))
    ensures Inv(s.(observed := observed))
  {
    hide LogOk, LastTimestamp, TableOk, ObservationOk, Strict;
  }

  // ----- parameter sets

  /** Insertion keeps the map order and adds exactly `n`. */
  lemma {:induction false} PutParamOk(params: seq<Nal>, n: Nal)
    requires Strict(params)
    ensures var r := PutParam(params, n);
            && Strict(r) && |params| <= |r| <= |params| + 1
            && forall x :: x in r <==> x in params || x == n
  {
    var r := PutParam(params, n);
    if params == [] || params[0] == n {
    } else if Less(n, params[0]) {
      forall j | 0 <= j < |params| ensures Less(n, params[j]) {
        if j > 0 {
          LessTransitive(n, params[0], params[j]);
        }
      }
    } else {
      LessTotal(n, params[0]);
      PutParamOk(params[1..], n);
      var rest := PutParam(params[1..], n);
      forall i | 0 <= i < |rest| ensures Less(params[0], rest[i]) {
        assert rest[i] in rest;
        if rest[i] != n {
          assert rest[i] in params[1..];
        }
      }
      assert params == [params[0]] + params[1..];
    }
  }

  lemma {:induction false} LearnAllOk(params: seq<Nal>, nals: seq<Nal>)
    requires ParamsOk(params) && forall n <- nals :: IsParam(n)
    ensures ParamsOk(LearnAll(params, nals))
    decreases |nals|
  {
    if nals != [] {
      PutParamOk(params, nals[0]);
      LearnAllOk(LearnParam(params, nals[0]), nals[1..]);
    }
  }

  lemma {:induction false} ParamsInOk(nals: seq<Nal>)
    ensures forall n <- ParamsIn(nals) :: IsParam(n)
  {
    if nals != [] {
      ParamsInOk(nals[1..]);
    }
  }

  lemma {:induction false} ParsedParamsOk(b: seq<byte>, o: nat, params: seq<Nal>)
    requires |params| <= MAX_PARAMS && forall n <- params :: IsParam(n)
    requires Packetization.ParseFrom(b, o, params).Some?
    ensures var r := Packetization.ParseFrom(b, o, params).value; |r| <= MAX_PARAMS && forall n <- r :: IsParam(n)
    decreases |b| - o
  {
    if o < |b| {
      var size := U16(b[o], b[o + 1]);
      var nal := b[o + 2..o + 2 + size];
      ParsedParamsOk(b, o + 2 + size, if Packetization.IsParameter(nal) then params + [nal] else params);
    }
  }

  lemma LearnInv(s: State, ssrc: u32)
    requires Inv(s)
    ensures Inv(Learn(s, ssrc))
  {
    InvParts(s);
    ObservationFact(s, ssrc);
    hide Inv, TableOk, Strict, HistoryOk;
    if ssrc in s.observed {
      LearnAllOk(s.params, s.observed[ssrc].params);
      ParamsFrame(s, LearnAll(s.params, s.observed[ssrc].params));
    }
  }

  // ----- presenting a group

  lemma PresentInv(s: State, key: Key, nals: seq<Nal>, donl: u16)
    requires Inv(s) && key.ssrc in s.sources && !IsLate(s, key)
    ensures Inv(Present(s, key, nals, donl))
  {
    InvParts(s);
    hide Inv, ParamsIn, LearnAll, Strict, Emit, RecordLoss, IsKeySlice, IsFirstSlice, IsVcl, IsLate;
    ParamsInOk(nals);
    LearnAllOk(s.params, ParamsIn(nals));
    ParamsFrame(s, LearnAll(s.params, ParamsIn(nals)));
    var t := s.(params := LearnAll(s.params, ParamsIn(nals)));
    RecordLossInv(t, MissingFirstSlice, key);
    SameLate(s, t, key);
    if t.haveKey || exists n <- nals :: IsKeySlice(n) {
      EmitInv(t, key, nals, donl);
    }
  }

  lemma SameLate(s: State, t: State, key: Key)
    requires s.lastTs == t.lastTs
    ensures IsLate(s, key) <==> IsLate(t, key)
  {
  }

  lemma AssembleInv(s: State, key: Key, g: Group)
    requires Inv(s) && key.ssrc in s.sources && !IsLate(s, key)
    ensures Inv(Assemble(s, key, g))
  {
    hide Inv, Present, RecordLoss, Reassembled, InOrder, Adjacent, IsLate;
    if g.marker.None? {
      RecordLossInv(s, MissingMarker, key);
    } else {
      RecordLossInv(s, SequenceGap, key);
      match Reassembled(Payloads(InOrder(g.packets, g.marker.value, 0x1_0000)), AppleFraming(s, key.ssrc)) {
        case Failure(reason) => RecordLossInv(s, reason, key);
        case Success(v) => PresentInv(s, key, v.0, v.1);
      }
    }
  }

  lemma {:induction false} PollEachInv(s: State, keys: seq<Key>, now: nat)
    requires Inv(s)
    ensures Inv(PollEach(s, keys, now))
    decreases |keys|
  {
    if keys != [] && keys[0] in s.groups {
      var key := keys[0];
      var g := s.groups[key];
      if IsLate(s, key) {
        DropStaleInv(s, key);
        PollEachInv(DropStale(s, key), keys[1..], now);
      } else if !IsHeld(g, now) {
        RemoveInv(s, key);
        AssembleInv(s.(groups := s.groups - {key}), key, g);
        PollEachInv(Assemble(s.(groups := s.groups - {key}), key, g), keys[1..], now);
      }
    }
  }

  lemma PollInv(s: State, now: nat)
    requires Inv(s)
    ensures Inv(Poll(s, now))
  {
    PollEachInv(s, KeysByOrder(s.groups, s.nextGroup), now);
  }

  // ----- taking a packet in

  lemma GroupsCount(s: State)
    requires Inv(s)
    ensures |s.groups| <= MAX_GROUPS
  {
  }

  lemma MakeRoomInv(s: State, p: Packet, pick: Groups -> Key)
    requires Inv(s) && PicksOldest(pick) && !OverBudget(s, p)
    ensures var key := Key(p.ssrc, p.timestamp); var r := MakeRoom(s, key, pick);
            && Inv(r) && (key in r.groups || |r.groups| < MAX_GROUPS) && !OverBudget(r, p)
  {
    hide Inv, Sum, PicksOldest;
    var key := Key(p.ssrc, p.timestamp);
    GroupsCount(s);
    if key !in s.groups && |s.groups| >= MAX_GROUPS {
      var prior := pick(s.groups);
      OldestPicked(s.groups, pick);
      RemoveInv(s, prior);
      RemoveShrinks(s.groups, prior);
      RecordLossInv(s.(groups := s.groups - {prior}), GroupLimit, prior);
    }
  }

  lemma OldestPicked(groups: Groups, pick: Groups -> Key)
    requires PicksOldest(pick) && |groups| > 0
    ensures pick(groups) in groups
  {
    assert groups != map[];
  }

  /** Adding a packet keeps everything about a group but the two limits. */
  ghost predicate Growing(key: Key, g: Group) {
    && 0 < |g.packets| && g.bytes == Sum(g.packets, PayloadSize)
    && (forall q <- g.packets :: PacketOk(key, q, g.packets[q]))
    && (g.marker.Some? <==> g.markerAt.Some?)
    && (g.marker.Some? ==> g.marker.value in g.packets && g.packets[g.marker.value].marker)
    && (g.marker.None? ==> forall q <- g.packets :: !g.packets[q].marker)
  }

  lemma AddPacketOk(key: Key, g: Group, p: Packet, now: nat)
    requires PacketOk(key, p.seqno, p)
    requires Growing(key, g) || g == NewGroup(g.order, g.first)
    ensures Growing(key, AddPacket(g, p, now))
    ensures AddPacket(g, p, now).order == g.order
  {
    if p.seqno !in g.packets {
      SumAdd(g.packets, PayloadSize, p.seqno, p);
      SizePut(g.packets, p.seqno, p);
    }
  }

  /** The group that `Insert` builds, before its limits are checked. */
  function Grown(s: State, p: Packet, now: nat): Group {
    var key := Key(p.ssrc, p.timestamp);
    AddPacket(if key in s.groups then s.groups[key] else NewGroup(s.nextGroup, now), p, now)
  }

  lemma GrownOk(s: State, p: Packet, now: nat)
    requires GroupsOk(s) && |p.payload| >= 2
    ensures var key, g := Key(p.ssrc, p.timestamp), Grown(s, p, now);
            && Growing(key, g)
            && g.order == (if key in s.groups then s.groups[key].order else s.nextGroup)
            && g.bytes == (if key in s.groups then s.groups[key].bytes else 0)
                          + (if Known(s, p) then 0 else |p.payload|)
  {
    var key := Key(p.ssrc, p.timestamp);
    var prior := if key in s.groups then s.groups[key] else NewGroup(s.nextGroup, now);
    AddPacketOk(key, prior, p, now);
  }

  lemma PutKeepsOrders(groups: Groups, key: Key, g: Group)
    requires DistinctOrders(groups)
    requires if key in groups then g.order == groups[key].order else forall j <- groups :: groups[j].order != g.order
    ensures DistinctOrders(groups[key := g])
  {
  }

  lemma PutKeepsBudget(groups: Groups, key: Key, g: Group, more: nat)
    requires g.bytes == (if key in groups then groups[key].bytes else 0) + more
    requires Sum(groups, GroupBytes) + more <= MAX_PENDING_BYTES
    requires |groups| <= MAX_GROUPS && (key in groups || |groups| < MAX_GROUPS)
    ensures |groups[key := g]| <= MAX_GROUPS && Sum(groups[key := g], GroupBytes) <= MAX_PENDING_BYTES
  {
    SizePut(groups, key, g);
    if key in groups {
      SumReplace(groups, GroupBytes, key, g);
    } else {
      SumAdd(groups, GroupBytes, key, g);
    }
  }

  lemma FitsLater(sources: seq<u32>, n: nat, groups: Groups)
    requires forall k <- groups :: GroupFits(sources, n, k, groups[k])
    ensures forall k <- groups :: GroupFits(sources, n + 1, k, groups[k])
  {
    hide GroupOk;
  }

  lemma PutTable(sources: seq<u32>, groups: Groups, n: nat, key: Key, g: Group, more: nat)
    requires TableOk(sources, groups, n) && GroupFits(sources, n + 1, key, g) && DistinctOrders(groups[key := g])
    requires g.bytes == (if key in groups then groups[key].bytes else 0) + more
    requires Sum(groups, GroupBytes) + more <= MAX_PENDING_BYTES && (key in groups || |groups| < MAX_GROUPS)
    ensures TableOk(sources, groups[key := g], n + 1)
  {
    hide GroupFits, DistinctOrders, Sum;
    FitsLater(sources, n, groups);
    PutKeepsBudget(groups, key, g, more);
  }

  lemma WithinPending(s: State, p: Packet)
    requires GroupsOk(s) && !OverBudget(s, p)
    ensures TableOk(s.sources, s.groups, s.nextGroup)
    ensures Sum(s.groups, GroupBytes) + (if Known(s, p) then 0 else |p.payload|) <= MAX_PENDING_BYTES
  {
    hide GroupFits, DistinctOrders, Sum;
  }

  lemma PutGroupOk(s: State, p: Packet, now: nat)
    requires GroupsOk(s) && p.ssrc in s.sources && |p.payload| >= 2 && !OverBudget(s, p)
    requires Key(p.ssrc, p.timestamp) in s.groups || |s.groups| < MAX_GROUPS
    requires Grown(s, p, now).bytes <= MAX_GROUP_BYTES && |Grown(s, p, now).packets| <= MAX_GROUP_PACKETS
    ensures TableOk(s.sources, s.groups[Key(p.ssrc, p.timestamp) := Grown(s, p, now)], s.nextGroup + 1)
  {
    hide Grown, TableOk, DistinctOrders, OverBudget, GroupsOk;
    var key, g := Key(p.ssrc, p.timestamp), Grown(s, p, now);
    GrownOk(s, p, now);
    GroupFact(s, key);
    PutKeepsOrders(s.groups, key, g);
    WithinPending(s, p);
    PutTable(s.sources, s.groups, s.nextGroup, key, g, if Known(s, p) then 0 else |p.payload|);
  }

  lemma GroupFact(s: State, key: Key)
    requires GroupsOk(s)
    ensures key in s.groups ==> GroupOk(key, s.groups[key]) && s.groups[key].order < s.nextGroup
    ensures forall j <- s.groups :: s.groups[j].order != s.nextGroup
    ensures DistinctOrders(s.groups)
  {
    hide GroupOk, DistinctOrders, Sum;
    assert forall j <- s.groups :: GroupFits(s.sources, s.nextGroup, j, s.groups[j]);
  }

  lemma RemoveShrinks(groups: Groups, key: Key)
    requires key in groups
    ensures |groups - {key}| == |groups| - 1
    ensures Sum(groups - {key}, GroupBytes) <= Sum(groups, GroupBytes)
  {
    SizeRemove(groups, key);
    SumTake(groups, GroupBytes, key);
  }

  lemma RemoveOk(sources: seq<u32>, groups: Groups, n: nat, key: Key)
    requires TableOk(sources, groups, n) && key in groups
    ensures TableOk(sources, groups - {key}, n) && TableOk(sources, groups - {key}, n + 1)
  {
    hide GroupFits, Sum;
    RemoveShrinks(groups, key);
    FitsLater(sources, n, groups);
  }

  /** A group of one admitted packet is always within its limits. */
  lemma FreshFits(s: State, p: Packet, now: nat)
    requires !OverBudget(s, p) && Key(p.ssrc, p.timestamp) !in s.groups
    ensures Grown(s, p, now).bytes <= MAX_GROUP_BYTES && |Grown(s, p, now).packets| <= MAX_GROUP_PACKETS
  {
  }

  lemma InvParts(s: State)
    requires Inv(s)
    ensures SourcesOk(s) && GroupsOk(s) && ObservedOk(s) && ParamsOk(s.params) && HistoryOk(s)
  {
  }

  lemma InsertIs(s: State, p: Packet, now: nat)
    ensures var key, g := Key(p.ssrc, p.timestamp), Grown(s, p, now);
            Insert(s, p, now)
            == if g.bytes > MAX_GROUP_BYTES || |g.packets| > MAX_GROUP_PACKETS
               then RecordLoss(s.(groups := s.groups - {key}, nextGroup := s.nextGroup + 1), ByteLimit, key)
               else s.(groups := s.groups[key := g], nextGroup := s.nextGroup + 1)
  {
  }

  lemma InsertInv(s: State, p: Packet, now: nat)
    requires Inv(s) && p.ssrc in s.sources && |p.payload| >= 2
    requires !OverBudget(s, p)
    requires Key(p.ssrc, p.timestamp) in s.groups || |s.groups| < MAX_GROUPS
    ensures Inv(Insert(s, p, now))
  {
    var key, g := Key(p.ssrc, p.timestamp), Grown(s, p, now);
    InsertIs(s, p, now);
    InvParts(s);
    hide Inv, TableOk, Grown, Insert, OverBudget, RecordLoss;
    if g.bytes > MAX_GROUP_BYTES || |g.packets| > MAX_GROUP_PACKETS {
      assert key in s.groups by {
        if key !in s.groups {
          FreshFits(s, p, now);
        }
      }
      RemoveOk(s.sources, s.groups, s.nextGroup, key);
      GroupsFrame(s, s.groups - {key}, s.nextGroup + 1);
      RecordLossInv(s.(groups := s.groups - {key}, nextGroup := s.nextGroup + 1), ByteLimit, key);
    } else {
      PutGroupOk(s, p, now);
      GroupsFrame(s, s.groups[key := g], s.nextGroup + 1);
    }
  }

  lemma FirstInv(s: State, first: Option<nat>)
    requires Inv(s)
    ensures Inv(s.(first := first))
  {
    hide LogOk, LastTimestamp, TableOk, ObservationOk, ParamsOk;
  }

  lemma TakeInInv(s: State, p: Packet, now: nat, pick: Groups -> Key)
    requires Inv(s) && p.ssrc in s.sources && |p.payload| >= 2 && PicksOldest(pick)
    ensures Inv(TakeIn(s, p, now, pick))
  {
    hide Inv, GroupsOk, OverBudget, Insert, MakeRoom, RecordLoss;
    LearnInv(s, p.ssrc);
    var t := Prepare(s, p.ssrc, now);
    FirstInv(Learn(s, p.ssrc), t.first);
    if OverBudget(t, p) {
      RecordLossInv(t, PendingByteLimit, Key(p.ssrc, p.timestamp));
    } else {
      MakeRoomInv(t, p, pick);
      InsertInv(MakeRoom(t, Key(p.ssrc, p.timestamp), pick), p, now);
    }
  }

  lemma PushSelectedInv(s: State, p: Packet, now: nat, pick: Groups -> Key)
    requires Inv(s) && p.ssrc in s.sources && |p.payload| >= 2 && PicksOldest(pick)
    ensures Inv(PushSelected(s, p, now, pick))
  {
    hide Inv, TakeIn, Poll;
    TakeInInv(s, p, now, pick);
    PollInv(TakeIn(s, p, now, pick), now);
  }

  lemma {:induction false} PushEachInv(s: State, ps: seq<Packet>, now: nat, pick: Groups -> Key)
    requires Inv(s) && PicksOldest(pick) && forall p <- ps :: p.ssrc in s.sources && |p.payload| >= 2
    ensures Inv(PushEach(s, ps, now, pick))
    decreases |ps|
  {
    if ps != [] {
      PushSelectedInv(s, ps[0], now, pick);
      PushEachInv(PushSelected(s, ps[0], now, pick), ps[1..], now, pick);
    }
  }

  // ----- observing, keeping and adopting a source

  lemma ObservationFact(s: State, ssrc: u32)
    requires Inv(s)
    ensures |s.observed| <= MAX_OBSERVED
    ensures ssrc in s.observed ==>
              && ObservationOk(ssrc, s.observed[ssrc])
              && (ssrc in s.sources || s.tiles != 1 ==> s.observed[ssrc].prefix == [])
  {
  }

  lemma InferredOk(ssrc: u32, o: Observation, b: seq<byte>)
    requires ObservationOk(ssrc, o) && |b| >= 2
    ensures ObservationOk(ssrc, Inferred(o, b)) && Inferred(o, b).prefix == o.prefix
  {
    if Packetization.ParseFrom(b, 4, []).Some? {
      ParsedParamsOk(b, 4, []);
    }
    if Packetization.ParseFrom(b, 2, []).Some? {
      ParsedParamsOk(b, 2, []);
    }
  }

  lemma PutObservation(s: State, ssrc: u32, o: Observation)
    requires Inv(s) && ObservationOk(ssrc, o) && (ssrc in s.observed || |s.observed| < MAX_OBSERVED)
    requires ssrc in s.sources || s.tiles != 1 ==> o.prefix == []
    ensures Inv(s.(observed := s.observed[ssrc := o]))
  {
    hide ObservationOk;
    SizePut(s.observed, ssrc, o);
    ObservedFrame(s, s.observed[ssrc := o]);
  }

  lemma ObserveInv(s: State, p: Packet, now: nat)
    requires Inv(s) && |p.payload| >= 2
    ensures Inv(Observe(s, p, now))
  {
    hide Inv;
    ObservationFact(s, p.ssrc);
    if p.ssrc in s.observed || |s.observed| < MAX_OBSERVED {
      var o := if p.ssrc in s.observed then s.observed[p.ssrc] else Observation(0, 0, None, [], [], 0);
      InferredOk(p.ssrc, o.(packets := o.packets + 1, last := now), p.payload);
      hide Inferred, ObservationOk;
      PutObservation(s, p.ssrc, Inferred(o.(packets := o.packets + 1, last := now), p.payload));
    }
  }

  /** Eviction ends with room for `len` more bytes, because an empty prefix has no bytes. */
  lemma {:induction false} EvictOk(ssrc: u32, o: Observation, len: nat)
    requires ObservationOk(ssrc, o) && len <= MAX_CANDIDATE_BYTES
    ensures var r := Evict(o, len);
            && ObservationOk(ssrc, r) && |r.prefix| < MAX_CANDIDATE_PACKETS
            && r.prefixBytes + len <= MAX_CANDIDATE_BYTES
            && r.(prefix := o.prefix, prefixBytes := o.prefixBytes) == o
    decreases |o.prefix|
  {
    if o.prefix != [] {
      EvictOk(ssrc, o.(prefix := o.prefix[1..], prefixBytes := o.prefixBytes - |o.prefix[0].payload|), len);
    }
  }

  lemma {:induction false} PrefixSizeSnoc(ps: seq<Packet>, p: Packet)
    ensures PrefixSize(ps + [p]) == PrefixSize(ps) + |p.payload|
  {
    if ps != [] {
      assert (ps + [p])[1..] == ps[1..] + [p];
      PrefixSizeSnoc(ps[1..], p);
    }
  }

  lemma StashInv(s: State, p: Packet)
    requires Inv(s) && |p.payload| >= 2 && p.ssrc !in s.sources
    ensures Inv(Stash(s, p))
  {
    hide Inv;
    ObservationFact(s, p.ssrc);
    if s.tiles == 1 && |p.payload| <= MAX_CANDIDATE_BYTES && p.ssrc in s.observed {
      var room := Evict(s.observed[p.ssrc], |p.payload|);
      EvictOk(p.ssrc, s.observed[p.ssrc], |p.payload|);
      PrefixSizeSnoc(room.prefix, p);
      var o := room.(prefix := room.prefix + [p], prefixBytes := room.prefixBytes + |p.payload|);
      assert ObservationOk(p.ssrc, o);
      PutObservation(s, p.ssrc, o);
    }
  }

  lemma {:induction false} InsertSortedMembers(sources: seq<u32>, x: u32)
    ensures var r := InsertSorted(sources, x); |r| == |sources| + 1 && forall y :: y in r <==> y in sources || y == x
  {
    if sources != [] && x >= sources[0] {
      InsertSortedMembers(sources[1..], x);
      assert sources == [sources[0]] + sources[1..];
    }
  }

  lemma {:induction false} InsertSortedOk(sources: seq<u32>, x: u32)
    requires Ascending(sources) && x !in sources
    ensures var r := InsertSorted(sources, x);
            Ascending(r) && |r| == |sources| + 1 && forall y :: y in r <==> y in sources || y == x
  {
    InsertSortedMembers(sources, x);
    if sources != [] && x >= sources[0] {
      var rest := InsertSorted(sources[1..], x);
      InsertSortedOk(sources[1..], x);
      forall i | 0 <= i < |rest| ensures sources[0] < rest[i] {
        assert rest[i] in sources[1..] || rest[i] == x;
        assert sources[0] != x;
      }
    }
  }

  /** Everything but the emptiness of an adopted source's prefix, which `Deliver` establishes. */
  ghost predicate Adopting(s: State, ssrc: u32) {
    && SourcesOk(s) && GroupsOk(s) && ParamsOk(s.params) && HistoryOk(s) && |s.observed| <= MAX_OBSERVED
    && ssrc in s.sources
    && forall x <- s.observed ::
         ObservationOk(x, s.observed[x])
         && (x != ssrc && (x in s.sources || s.tiles != 1) ==> s.observed[x].prefix == [])
  }

  lemma AdoptOk(s: State, ssrc: u32)
    requires Inv(s) && ssrc !in s.sources && |s.sources| < s.tiles
    ensures Adopting(Adopt(s, ssrc), ssrc)
  {
    InsertSortedOk(s.sources, ssrc);
  }

  lemma HandOverInv(s: State)
    requires Inv(s)
    ensures Inv(HandOver(s))
  {
    Appended(s, Handoff);
    assert Sum(HandOver(s).groups, GroupBytes) == 0;
  }

  lemma NothingKept(s: State, ssrc: u32)
    requires Adopting(s, ssrc) && ssrc !in s.observed
    ensures Inv(s)
  {
    hide TableOk, HistoryOk, ObservationOk, Strict;
  }

  /** Clearing the kept packets of the adopted source restores the invariant; the packets are fit to be pushed. */
  lemma TakenInv(s: State, ssrc: u32)
    requires Adopting(s, ssrc) && ssrc in s.observed
    ensures var o := s.observed[ssrc];
            && Inv(s.(observed := s.observed[ssrc := o.(prefix := [], prefixBytes := 0)]))
            && forall q <- o.prefix :: q.ssrc == ssrc && |q.payload| >= 2
  {
    hide TableOk, Strict, HistoryOk;
    var o := s.observed[ssrc].(prefix := [], prefixBytes := 0);
    ClearedOk(ssrc, s.observed[ssrc]);
    hide ObservationOk;
    SizePut(s.observed, ssrc, o);
    HistoryFrame(s, s.observed[ssrc := o]);
  }

  lemma ClearedOk(ssrc: u32, o: Observation)
    requires ObservationOk(ssrc, o)
    ensures ObservationOk(ssrc, o.(prefix := [], prefixBytes := 0))
    ensures forall q <- o.prefix :: q.ssrc == ssrc && |q.payload| >= 2
  {
  }

  lemma HistoryFrame(s: State, observed: map<u32, Observation>)
    requires HistoryOk(s)
    ensures HistoryOk(s.(observed := observed))
  {
    hide LogOk, LastTimestamp, Started;
  }

  lemma DeliverInv(s: State, p: Packet, now: nat, pick: Groups -> Key)
    requires Adopting(s, p.ssrc) && |p.payload| >= 2 && PicksOldest(pick)
    ensures Inv(Deliver(s, p, now, pick))
  {
    AdoptingKnows(s, p.ssrc);
    hide Inv, PushEach, Adopting;
    if p.ssrc in s.observed {
      TakenInv(s, p.ssrc);
      var o := s.observed[p.ssrc];
      PushEachInv(s.(observed := s.observed[p.ssrc := o.(prefix := [], prefixBytes := 0)]), o.prefix + [p], now, pick);
    } else {
      NothingKept(s, p.ssrc);
      PushEachInv(s, [p], now, pick);
    }
  }

  lemma AdoptingKnows(s: State, ssrc: u32)
    requires Adopting(s, ssrc)
    ensures ssrc in s.sources
  {
  }

  lemma PushInv(s: State, p: Packet, now: nat, pick: Groups -> Key)
    requires Inv(s) && PicksOldest(pick)
    ensures Inv(Push(s, p, now, pick))
  {
    if |p.payload| < 2 {
      PollInv(s, now);
    } else {
      ObserveInv(s, p, now);
      var s := Observe(s, p, now);
      if p.ssrc in s.sources {
        DeliverInv(s, p, now, pick);
      } else if |s.sources| < s.tiles {
        AdoptOk(s, p.ssrc);
        DeliverInv(Adopt(s, p.ssrc), p, now, pick);
      } else if ShouldReplace(s, p.ssrc, now) {
        HandOverInv(s);
        AdoptOk(HandOver(s), p.ssrc);
        DeliverInv(Adopt(HandOver(s), p.ssrc), p, now, pick);
      } else {
        StashInv(s, p);
        PollInv(Stash(s, p), now);
      }
    }
  }

  ghost predicate EventOk(e: Event) {
    e.PushEvent? ==> PicksOldest(e.pick)
  }

  /** Every run, whatever arrives and whenever it is polled, stays inside the invariant. */
  lemma {:induction false} RunInv(s: State, events: seq<Event>)
    requires Inv(s) && forall e <- events :: EventOk(e)
    ensures Inv(RunEvents(s, events))
    decreases |events|
  {
    if events != [] {
      var e := events[0];
      assert EventOk(e);
      if e.PushEvent? {
        PushInv(s, e.packet, e.now, e.pick);
      } else {
        PollInv(s, e.now);
      }
      RunInv(Apply(s, events[0]), events[1..]);
    }
  }
}
