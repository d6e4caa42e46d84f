/**
 The depacketizer as the mutable object of the source. Every method is proved to make exactly the
 transition that `DepacketizerModel` describes, and keeps the invariant.
 */
module Depacketization {
  import opened Bytes
  import opened Hevc
  import opened Sums
  import opened DepacketizerModel
  import opened DepacketizerInvariants
  import Packetization

  // ----- the loops of `poll` read their sequences from the front

  lemma {:induction false} LearnAllSnoc(params: seq<Nal>, nals: seq<Nal>, n: Nal)
    ensures LearnAll(params, nals + [n]) == LearnParam(LearnAll(params, nals), n)
    decreases |nals|
  {
    hide LearnParam;
    if nals == [] {
      assert [n][1..] == [];
      assert [] + [n] == [n];
    } else {
      assert (nals + [n])[1..] == nals[1..] + [n];
      LearnAllSnoc(LearnParam(params, nals[0]), nals[1..], n);
    }
  }

  lemma {:induction false} VclDataSnoc(nals: seq<Nal>, n: Nal)
    ensures VclData(nals + [n]) == VclData(nals) + if IsVcl(n) then START_CODE + n else []
  {
    hide IsVcl;
    if nals == [] {
      assert [] + [n] == [n] && [n][1..] == [];
    } else {
      assert (nals + [n])[1..] == nals[1..] + [n];
      VclDataSnoc(nals[1..], n);
      var head := if IsVcl(nals[0]) then START_CODE + nals[0] else [];
      var tail := if IsVcl(n) then START_CODE + n else [];
      assert head + (VclData(nals[1..]) + tail) == head + VclData(nals[1..]) + tail;
    }
  }

  lemma {:induction false} ParamsInSnoc(nals: seq<Nal>, n: Nal)
    ensures ParamsIn(nals + [n]) == ParamsIn(nals) + if IsParam(n) && |n| <= 65536 then [n] else []
  {
    hide IsParam;
    if nals == [] {
      assert [] + [n] == [n] && [n][1..] == [];
    } else {
      assert (nals + [n])[1..] == nals[1..] + [n];
      ParamsInSnoc(nals[1..], n);
      var head := if IsParam(nals[0]) && |nals[0]| <= 65536 then [nals[0]] else [];
      var tail := if IsParam(n) && |n| <= 65536 then [n] else [];
      assert head + (ParamsIn(nals[1..]) + tail) == head + ParamsIn(nals[1..]) + tail;
    }
  }

  lemma {:induction false} OfKindSnoc(params: seq<Nal>, kind: nat, n: Nal)
    ensures OfKind(params + [n], kind)
         == OfKind(params, kind) + if |n| > 0 && Kind(n[0]) == kind then START_CODE + n else []
  {
    hide Kind;
    if params == [] {
      assert [] + [n] == [n] && [n][1..] == [];
    } else {
      assert (params + [n])[1..] == params[1..] + [n];
      OfKindSnoc(params[1..], kind, n);
      var head := if |params[0]| > 0 && Kind(params[0][0]) == kind then START_CODE + params[0] else [];
      var tail := if |n| > 0 && Kind(n[0]) == kind then START_CODE + n else [];
      assert head + (OfKind(params[1..], kind) + tail) == head + OfKind(params[1..], kind) + tail;
    }
  }

  lemma NothingScanned(params: seq<Nal>)
    ensures LearnAll(params, ParamsIn([])) == params && VclData([]) == []
  {
  }

  lemma SliceKinds(n: Nal)
    ensures IsFirstSlice(n) || IsKeySlice(n) ==> IsVcl(n)
    ensures IsParam(n) ==> !IsVcl(n)
  {
  }

  lemma ExistsSnoc(nals: seq<Nal>, n: Nal)
    ensures (exists x <- nals + [n] :: IsVcl(x)) <==> (exists x <- nals :: IsVcl(x)) || IsVcl(n)
    ensures (exists x <- nals + [n] :: IsFirstSlice(x)) <==> (exists x <- nals :: IsFirstSlice(x)) || IsFirstSlice(n)
    ensures (exists x <- nals + [n] :: IsKeySlice(x)) <==> (exists x <- nals :: IsKeySlice(x)) || IsKeySlice(n)
  {
    hide *;
    var all := nals + [n];
    assert all[|nals|] == n && n in all;
    assert forall x <- nals :: x in all;
    assert forall x <- all :: x in nals || x == n;
  }

  class Depacketizer {
    var tiles: nat
    var sources: seq<u32>
    var groups: Groups
    var first: Option<nat>
    var nextPts: nat
    var haveKey: bool
    var params: seq<Nal>
    var dropped: nat
    var lastTs: map<u32, u32>
    var nextGroup: nat
    var observed: map<u32, Observation>
    var generation: nat
    var lossEpoch: nat
    ghost var log: seq<Output>

    ghost function Model(): (s: State)
      reads this
      ensures s.groups == groups && s.sources == sources && s.observed == observed && s.log == log && s.tiles == tiles
    {
      State(tiles, sources, groups, first, nextPts, haveKey, params, dropped, lastTs, nextGroup, observed, generation,
            lossEpoch, log)
    }

    ghost predicate Valid()
      reads this
    {
      Inv(Model())
    }

    constructor (tileCount: nat)
      ensures Valid() && Model() == Init(tileCount)
    {
      tiles := if tileCount < 1 then 1 else if tileCount > 16 then 16 else tileCount;
      sources, groups, first, nextPts, haveKey := [], map[], None, 0, false;
      params, dropped, lastTs, nextGroup, observed := [], 0, map[], 0, map[];
      generation, lossEpoch, log := 0, 0, [];
      new;
      InitInv(tileCount);
    }

    method RecordLoss(reason: Loss, ghost key: Key)
      modifies this
      ensures Model() == DepacketizerModel.RecordLoss(old(Model()), reason, key)
      ensures Units(log) == Units(old(log))
    {
      UnitsSnoc(log, Lost(reason, key));
      dropped := dropped + 1;
      lossEpoch := lossEpoch + 1;
      log := log + [Lost(reason, key)];
    }

    // ----- poll

    /** The start codes and parameter sets that precede a key picture. */
    method Prefix() returns (pref: seq<byte>)
      ensures pref == ParamPrefix(params)
    {
      pref := [];
      for kind := 32 to 35
        invariant kind == 32 ==> pref == []
        invariant kind == 33 ==> pref == OfKind(params, 32)
        invariant kind == 34 ==> pref == OfKind(params, 32) + OfKind(params, 33)
        invariant kind == 35 ==> pref == ParamPrefix(params)
      {
        ghost var start := pref;
        for i := 0 to |params|
          invariant pref == start + OfKind(params[..i], kind)
        {
          OfKindSnoc(params[..i], kind, params[i]);
          assert params[..i + 1] == params[..i] + [params[i]];
          if |params[i]| > 0 && Kind(params[i][0]) == kind {
            pref := pref + (START_CODE + params[i]);
          }
        }
        assert params[..|params|] == params;
      }
    }

    /** Sorts the NAL units of a picture into parameter sets, which it learns, and slices. */
    method Scan(nals: seq<Nal>) returns (data: seq<byte>, keyframe: bool, vcl: bool, firstSlice: bool)
      modifies this`params
      ensures params == LearnAll(old(params), ParamsIn(nals))
      ensures data == VclData(nals)
      ensures vcl <==> exists n <- nals :: IsVcl(n)
      ensures firstSlice <==> exists n <- nals :: IsFirstSlice(n)
      ensures keyframe <==> exists n <- nals :: IsKeySlice(n)
    {
      NothingScanned(params);
      hide LearnAll, ParamsIn, VclData, PutParam, IsParam, IsVcl, IsFirstSlice, IsKeySlice;
      data := [];
      keyframe, vcl, firstSlice := false, false, false;
      for i := 0 to |nals|
        invariant params == LearnAll(old(params), ParamsIn(nals[..i]))
        invariant data == VclData(nals[..i])
        invariant vcl <==> exists n <- nals[..i] :: IsVcl(n)
        invariant firstSlice <==> exists n <- nals[..i] :: IsFirstSlice(n)
        invariant keyframe <==> exists n <- nals[..i] :: IsKeySlice(n)
      {
        var nal := nals[i];
        ghost var seen := nals[..i];
        SliceKinds(nal);
        assert nals[..i + 1] == seen + [nal];
        VclDataSnoc(seen, nal);
        ParamsInSnoc(seen, nal);
        ExistsSnoc(seen, nal);
        LearnAllSnoc(old(params), ParamsIn(seen), nal);
        assert ParamsIn(seen) + [] == ParamsIn(seen);
        assert data + [] == data;
        if IsParam(nal) {
          if |params| < MAX_PARAMS && |nal| <= 65536 {
            params := PutParam(params, nal);
          }
        } else if IsVcl(nal) {
          firstSlice := firstSlice || IsFirstSlice(nal);
          keyframe := keyframe || IsKeySlice(nal);
          vcl := true;
          data := data + (START_CODE + nal);
        }
      }
      assert nals[..|nals|] == nals;
    }

    method Emit(key: Key, data: seq<byte>, keyframe: bool, donl: u16, ghost nals: seq<Nal>)
      returns (out: seq<AccessUnit>)
      requires key.ssrc in sources && data == VclData(nals) && (keyframe <==> exists n <- nals :: IsKeySlice(n))
      modifies this
      ensures Model() == DepacketizerModel.Emit(old(Model()), key, nals, donl)
      ensures Units(log) == Units(old(log)) + out
    {
      hide VclData, ParamPrefix, IsKeySlice, Units;
      var all := data;
      if keyframe {
        haveKey := true;
        var pref := Prefix();
        all := pref + data;
      }
      var tile := IndexOf(sources, key.ssrc);
      assert tile < |sources|;
      var unit := AccessUnit(generation, lossEpoch, all, tile, nextPts, key.timestamp, donl, keyframe);
      UnitsSnoc(log, Emitted(key.ssrc, unit));
      out := [unit];
      nextPts := nextPts + 1;
      lastTs := lastTs[key.ssrc := key.timestamp];
      log := log + [Emitted(key.ssrc, unit)];
    }

    /** Emits the unit of a reassembled picture, unless it is incomplete or waits for a key picture. */
    method Present(key: Key, nals: seq<Nal>, donl: u16) returns (out: seq<AccessUnit>)
      requires key.ssrc in sources
      modifies this
      ensures Model() == DepacketizerModel.Present(old(Model()), key, nals, donl)
      ensures Units(log) == Units(old(log)) + out
    {
      hide LearnAll, ParamsIn, VclData, ParamPrefix, IsVcl, IsFirstSlice, IsKeySlice, DepacketizerModel.Emit, Units;
      var data, keyframe, vcl, firstSlice := Scan(nals);
      out := [];
      assert Units(log) + [] == Units(log);
      if !vcl {
        return;
      }
      if !firstSlice {
        RecordLoss(MissingFirstSlice, key);
        return;
      }
      if !haveKey && !keyframe {
        return;
      }
      out := Emit(key, data, keyframe, donl, nals);
    }

    /** Puts a due group in order, reassembles it and presents it; any defect is a recorded loss. */
    method Assemble(key: Key, g: Group) returns (out: seq<AccessUnit>)
      requires key.ssrc in sources
      modifies this
      ensures Model() == DepacketizerModel.Assemble(old(Model()), key, g)
      ensures Units(log) == Units(old(log)) + out
    {
      hide DepacketizerModel.Present, Reassembled, InOrder;
      out := [];
      assert Units(log) + [] == Units(log);
      if g.marker.None? {
        RecordLoss(MissingMarker, key);
        return;
      }
      var ps := InOrder(g.packets, g.marker.value, 0x1_0000);
      if exists i :: 0 < i < |ps| && ps[i].seqno != (ps[i - 1].seqno + 1) % 0x1_0000 {
        RecordLoss(SequenceGap, key);
        return;
      }
      var apple :=
        if key.ssrc in observed && observed[key.ssrc].donl.Some? then observed[key.ssrc].donl.value else true;
      var r := Reassemble(Payloads(ps), apple);
      if r.Failure? {
        RecordLoss(r.error, key);
        return;
      }
      out := Present(key, r.value.0, r.value.1);
    }

    /** The pending groups in the order of their creation: the library sort on `order`. */
    method ArrivalOrder() returns (keys: seq<Key>)
      requires DistinctOrders(groups)
      ensures keys == KeysByOrder(groups, Model().nextGroup)
    {
      keys := [];
      for n := 0 to nextGroup
        invariant keys == KeysByOrder(groups, n)
      {
        if k :| k in groups && groups[k].order == n {
          keys := keys + [k];
        }
      }
    }

    method DropStale(key: Key)
      requires Valid() && key in groups
      modifies this
      ensures Valid() && Model() == DepacketizerModel.DropStale(old(Model()), key)
      ensures Units(log) == Units(old(log)) && groups == old(groups) - {key}
    {
      hide Inv;
      DropStaleInv(Model(), key);
      UnitsSnoc(log, Stale(key));
      groups := groups - {key};
      dropped := dropped + 1;
      log := log + [Stale(key)];
    }

    /** Takes a due group out and assembles it. */
    method Release(key: Key) returns (out: seq<AccessUnit>)
      requires Valid() && key in groups && !IsLate(Model(), key)
      modifies this
      ensures Valid()
      ensures Model() == DepacketizerModel.Assemble(old(Model()).(groups := old(groups) - {key}), key, old(groups)[key])
      ensures Units(log) == Units(old(log)) + out && groups == old(groups) - {key}
    {
      hide Inv, DepacketizerModel.Assemble;
      var g := groups[key];
      KnownSource(Model(), key);
      RemoveInv(Model(), key);
      AssembleInv(Model().(groups := groups - {key}), key, g);
      groups := groups - {key};
      out := Assemble(key, g);
    }

    predicate StillDiscovering(now: nat)
      reads this
      ensures StillDiscovering(now) == Discovering(Model(), now)
    {
      |sources| < tiles && SatSub(now, if first.Some? then first.value else now) < DISCOVERY_MS
    }

    predicate LateNow(key: Key)
      reads this
      ensures LateNow(key) == IsLate(Model(), key)
    {
      key.ssrc in lastTs && !Advances(lastTs[key.ssrc], key.timestamp)
    }

    predicate Held(g: Group, now: nat)
      ensures Held(g, now) == IsHeld(g, now)
    {
      if g.markerAt.Some? then SatSub(now, g.markerAt.value) < HOLD_MS
      else SatSub(now, g.lastPacket) < INCOMPLETE_IDLE_MS && SatSub(now, g.first) < MAX_GROUP_AGE_MS
    }

    /** The loop over the groups in arrival order, up to the first one that is still held. */
    method PollKeys(keys: seq<Key>, now: nat) returns (out: seq<AccessUnit>)
      requires Valid() && Pending(groups, keys)
      modifies this
      ensures Valid() && Model() == PollEach(old(Model()), keys, now)
      ensures Units(log) == Units(old(log)) + out
    {
      hide Inv, DepacketizerModel.Assemble, DepacketizerModel.DropStale, IsHeld, Held, IsLate, Units, PollEach,
        Advances,
        LateNow, Model, Pending;
      out := [];
      assert Units(log) + [] == Units(log);
      assert keys[0..] == keys;
      for i := 0 to |keys|
        invariant Inv(Model()) && Pending(groups, keys[i..])
        invariant PollEach(old(Model()), keys, now) == PollEach(Model(), keys[i..], now)
        invariant Units(log) == Units(old(log)) + out
      {
        var key := keys[i];
        ghost var rest := keys[i..];
        assert rest[0] == key && rest[1..] == keys[i + 1..];
        PendingTail(groups, rest);
        PollEachStep(Model(), rest, now);
        if LateNow(key) {
          DropStale(key);
        } else if Held(groups[key], now) {
          return;
        } else {
          var more := Release(key);
          assert Units(old(log)) + out + more == Units(old(log)) + (out + more);
          out := out + more;
        }
      }
      PollEachEnd(Model(), keys[|keys|..], now);
    }

    method Poll(now: nat) returns (out: seq<AccessUnit>)
      requires Valid()
      modifies this
      ensures Valid() && Model() == DepacketizerModel.Poll(old(Model()), now)
      ensures Units(log) == Units(old(log)) + out
    {
      hide Inv, Units, PollEach, StillDiscovering, Discovering, Model;
      out := [];
      assert Units(log) + [] == Units(log);
      if StillDiscovering(now) {
        return;
      }
      InvTable(Model());
      var keys := ArrivalOrder();
      out := PollKeys(keys, now);
    }

    // ----- taking a packet in

    method LearnFrom(ssrc: u32)
      modifies this`params
      ensures Model() == Learn(old(Model()), ssrc)
    {
      if ssrc in observed {
        var nals := observed[ssrc].params;
        for i := 0 to |nals|
          invariant params == LearnAll(old(params), nals[..i])
        {
          hide LearnAll, PutParam;
          assert nals[..i + 1] == nals[..i] + [nals[i]];
          LearnAllSnoc(old(params), nals[..i], nals[i]);
          if |params| < MAX_PARAMS {
            params := PutParam(params, nals[i]);
          }
        }
        assert nals[..|nals|] == nals;
      }
    }

    method PendingBytes() returns (total: nat)
      ensures total == Sum(groups, GroupBytes)
    {
      total := 0;
      var rest := groups;
      while rest != map[]
        invariant total + Sum(rest, GroupBytes) == Sum(groups, GroupBytes)
        decreases |rest|
      {
        var k :| k in rest;
        SumTake(rest, GroupBytes, k);
        SizeRemove(rest, k);
        total := total + rest[k].bytes;
        rest := rest - {k};
      }
    }

    /** Whether the packet is already known or fits into the pending budget. */
    method Admits(p: Packet) returns (ok: bool)
      ensures ok <==> !OverBudget(Model(), p)
    {
      hide Sum;
      var key := Key(p.ssrc, p.timestamp);
      if key !in groups || p.seqno !in groups[key].packets {
        var pending := PendingBytes();
        return !(|p.payload| > MAX_GROUP_BYTES || pending + |p.payload| > MAX_PENDING_BYTES);
      }
      return true;
    }

    /** Learns the parameter sets of the source and starts the clock. */
    method PrepareFor(ssrc: u32, now: nat)
      requires Valid()
      modifies this`params, this`first
      ensures Valid() && Model() == Prepare(old(Model()), ssrc, now)
    {
      hide Inv;
      ghost var before := Model();
      LearnInv(before, ssrc);
      FirstInv(Learn(before, ssrc), Prepare(before, ssrc, now).first);
      hide LearnAll;
      LearnFrom(ssrc);
      if first.None? {
        first := Some(now);
      }
    }

    method PushSelected(p: Packet, now: nat, pick: Groups -> Key) returns (out: seq<AccessUnit>)
      requires Valid() && p.ssrc in sources && |p.payload| >= 2 && PicksOldest(pick)
      modifies this
      ensures Valid() && Model() == DepacketizerModel.PushSelected(old(Model()), p, now, pick)
      ensures Units(log) == Units(old(log)) + out
    {
      hide Inv, DepacketizerModel.Poll, OverBudget, MakeRoom, DepacketizerModel.Insert, DepacketizerModel.RecordLoss,
        LearnAll,
        PicksOldest, Units, Model, Prepare;
      PrepareFor(p.ssrc, now);
      var ok := Admits(p);
      if !ok {
        RecordLossInv(Model(), PendingByteLimit, Key(p.ssrc, p.timestamp));
        RecordLoss(PendingByteLimit, Key(p.ssrc, p.timestamp));
      } else {
        MakeRoomInv(Model(), p, pick);
        MakeRoomFor(Key(p.ssrc, p.timestamp), pick);
        InsertInv(Model(), p, now);
        Insert(p, now);
      }
      out := Poll(now);
    }

    /** Drops an oldest group when a new one would exceed the limit. */
    method MakeRoomFor(key: Key, pick: Groups -> Key)
      modifies this
      ensures Model() == MakeRoom(old(Model()), key, pick) && Units(log) == Units(old(log))
    {
      if key !in groups && |groups| >= MAX_GROUPS {
        ghost var oldest := pick(groups);
        groups := groups - {pick(groups)};
        RecordLoss(GroupLimit, oldest);
      }
    }

    /** Enters the packet into its group, which is created on demand; a duplicate changes nothing. */
    method Store(p: Packet, now: nat)
      modifies this`groups, this`nextGroup
      ensures groups == old(groups)[Key(p.ssrc, p.timestamp) := Grown(old(Model()), p, now)]
      ensures nextGroup == old(nextGroup) + 1
    {
      var key := Key(p.ssrc, p.timestamp);
      var g := if key in groups then groups[key] else NewGroup(nextGroup, now);
      nextGroup := nextGroup + 1;
      if p.seqno !in g.packets {
        g := g.(bytes := g.bytes + |p.payload|);
        if p.marker {
          g := g.(marker := Some(p.seqno), markerAt := if g.markerAt.None? then Some(now) else g.markerAt);
        }
        g := g.(lastPacket := now, packets := g.packets[p.seqno := p]);
      }
      groups := groups[key := g];
    }

    method Insert(p: Packet, now: nat)
      modifies this
      ensures Model() == DepacketizerModel.Insert(old(Model()), p, now) && Units(log) == Units(old(log))
    {
      hide AddPacket, NewGroup, Grown, Units, DepacketizerModel.RecordLoss;
      var key := Key(p.ssrc, p.timestamp);
      InsertIs(Model(), p, now);
      hide DepacketizerModel.Insert;
      Store(p, now);
      var g := groups[key];
      if g.bytes > MAX_GROUP_BYTES || |g.packets| > MAX_GROUP_PACKETS {
        RemovePut(old(groups), key, g);
        groups := groups - {key};
        RecordLoss(ByteLimit, key);
      }
    }

    // ----- sources

    /** Infers the framing from a parameter-set aggregate and counts the packet. */
    method Observe(p: Packet, now: nat)
      requires |p.payload| >= 2
      modifies this`observed
      ensures Model() == DepacketizerModel.Observe(old(Model()), p, now)
    {
      hide Packetization.ParseFrom;
      if p.ssrc in observed || |observed| < MAX_OBSERVED {
        var o := if p.ssrc in observed then observed[p.ssrc] else Observation(0, 0, None, [], [], 0);
        o := o.(packets := o.packets + 1, last := now);
        if Kind(p.payload[0]) == 48 {
          var apple := Packetization.ParseParameterAp(p.payload, 4);
          var standard := Packetization.ParseParameterAp(p.payload, 2);
          if apple.Some? && standard.None? {
            o := o.(donl := Some(true), params := apple.value);
          } else if apple.None? && standard.Some? {
            o := o.(donl := Some(false), params := standard.value);
          }
        }
        observed := observed[p.ssrc := o];
      }
    }

    /** Keeps a packet of an unknown source; the eviction loop ends because an empty prefix has no bytes. */
    method Stash(p: Packet)
      requires p.ssrc in observed ==> ObservationOk(p.ssrc, observed[p.ssrc])
      modifies this`observed
      ensures Model() == DepacketizerModel.Stash(old(Model()), p)
    {
      if tiles == 1 && |p.payload| <= MAX_CANDIDATE_BYTES && p.ssrc in observed {
        var o := observed[p.ssrc];
        while |o.prefix| >= MAX_CANDIDATE_PACKETS || o.prefixBytes + |p.payload| > MAX_CANDIDATE_BYTES
          invariant ObservationOk(p.ssrc, o) && Evict(o, |p.payload|) == Evict(observed[p.ssrc], |p.payload|)
          decreases |o.prefix|
        {
          assert o.prefix != [];
          o := o.(prefix := o.prefix[1..], prefixBytes := o.prefixBytes - |o.prefix[0].payload|);
        }
        o := o.(prefixBytes := o.prefixBytes + |p.payload|, prefix := o.prefix + [p]);
        observed := observed[p.ssrc := o];
      }
    }

    /** Replays what was kept of the source, then pushes the packet itself. */
    method Deliver(p: Packet, now: nat, pick: Groups -> Key) returns (out: seq<AccessUnit>)
      requires Adopting(Model(), p.ssrc) && |p.payload| >= 2 && PicksOldest(pick)
      modifies this
      ensures Valid() && Model() == DepacketizerModel.Deliver(old(Model()), p, now, pick)
      ensures Units(log) == Units(old(log)) + out
    {
      hide DepacketizerModel.PushSelected, TableOk, HistoryOk, Strict, Units;
      var ps := [p];
      if p.ssrc in observed {
        var o := observed[p.ssrc];
        TakenInv(Model(), p.ssrc);
        observed := observed[p.ssrc := o.(prefix := [], prefixBytes := 0)];
        ps := o.prefix + [p];
      } else {
        NothingKept(Model(), p.ssrc);
      }
      out := [];
      assert Units(log) + [] == Units(log);
      ghost var start := Model();
      hide Inv, ObservationOk, Adopting;
      for i := 0 to |ps|
        invariant Inv(Model()) && p.ssrc in sources
        invariant PushEach(start, ps, now, pick) == PushEach(Model(), ps[i..], now, pick)
        invariant Units(log) == Units(old(log)) + out
      {
        assert ps[i..][0] == ps[i] && ps[i..][1..] == ps[i + 1..];
        assert ps[i] in ps;
        var more := PushSelected(ps[i], now, pick);
        assert Units(old(log)) + out + more == Units(old(log)) + (out + more);
        out := out + more;
      }
    }

    /** Gives up the old source: a new generation with nothing pending. */
    method HandOver()
      requires Valid()
      modifies this
      ensures Valid() && Model() == DepacketizerModel.HandOver(old(Model())) && Units(log) == Units(old(log))
    {
      hide Inv, Units;
      HandOverInv(Model());
      UnitsSnoc(log, Handoff);
      generation := generation + 1;
      sources, groups, params, haveKey, lastTs := [], map[], [], false, map[];
      dropped := dropped + 1;
      log := log + [Handoff];
    }

    predicate ReplacesOldSource(ssrc: u32, now: nat)
      reads this
      ensures ReplacesOldSource(ssrc, now) == ShouldReplace(Model(), ssrc, now)
    {
      && tiles == 1 && sources != [] && sources[0] in observed
      && SatSub(now, observed[sources[0]].last) >= QUIET_MS
      && ssrc in observed && observed[ssrc].packets >= ADOPTION_PACKETS
    }

    method Push(p: Packet, now: nat, pick: Groups -> Key) returns (out: seq<AccessUnit>)
      requires Valid() && PicksOldest(pick)
      modifies this
      ensures Valid() && Model() == DepacketizerModel.Push(old(Model()), p, now, pick)
      ensures Units(log) == Units(old(log)) + out
    {
      hide Inv, DepacketizerModel.Poll, DepacketizerModel.Deliver, DepacketizerModel.Stash, DepacketizerModel.Observe,
        DepacketizerModel.HandOver, ReplacesOldSource, ShouldReplace, Adopting, PicksOldest, Units;
      if |p.payload| < 2 {
        out := Poll(now);
        return;
      }
      ObserveInv(Model(), p, now);
      Observe(p, now);
      SourcesFact(Model());
      if p.ssrc !in sources {
        if |sources| >= tiles {
          if !ReplacesOldSource(p.ssrc, now) {
            ObservationFact(Model(), p.ssrc);
            StashInv(Model(), p);
            Stash(p);
            out := Poll(now);
            return;
          }
          HandOver();
          HandedOver(old(Model()), Model(), p, now);
        }
        AdoptOk(Model(), p.ssrc);
        sources := InsertSorted(sources, p.ssrc);
      } else {
        KnownIsAdopting(Model(), p.ssrc);
      }
      out := Deliver(p, now, pick);
    }
  }

  lemma SourcesFact(s: State)
    requires Inv(s)
    ensures 1 <= s.tiles
  {
  }

  lemma HandedOver(s: State, t: State, p: Packet, now: nat)
    requires |p.payload| >= 2 && t == DepacketizerModel.HandOver(DepacketizerModel.Observe(s, p, now))
    ensures t.sources == [] && t.tiles == s.tiles
  {
  }

  lemma RemovePut(groups: Groups, key: Key, g: Group)
    ensures groups[key := g] - {key} == groups - {key}
  {
  }

  /** All these groups are pending, and none is listed twice. */
  predicate Pending(groups: Groups, keys: seq<Key>) {
    && (forall k <- keys :: k in groups)
    && forall a, b :: 0 <= a < b < |keys| ==> keys[a] != keys[b]
  }

  lemma PendingTail(groups: Groups, keys: seq<Key>)
    requires Pending(groups, keys) && keys != []
    ensures keys[0] in groups && Pending(groups - {keys[0]}, keys[1..])
  {
  }

  lemma PollEachEnd(s: State, keys: seq<Key>, now: nat)
    ensures keys == [] ==> PollEach(s, keys, now) == s
  {
  }

  lemma PollEachStep(s: State, keys: seq<Key>, now: nat)
    requires keys != [] && keys[0] in s.groups
    ensures IsLate(s, keys[0]) ==>
              PollEach(s, keys, now) == PollEach(DepacketizerModel.DropStale(s, keys[0]), keys[1..], now)
    ensures !IsLate(s, keys[0]) && IsHeld(s.groups[keys[0]], now) ==> PollEach(s, keys, now) == s
    ensures !IsLate(s, keys[0]) && !IsHeld(s.groups[keys[0]], now) ==>
              PollEach(s, keys, now)
              == PollEach(DepacketizerModel.Assemble(s.(groups := s.groups - {keys[0]}), keys[0], s.groups[keys[0]]),
                          keys[1..], now)
  {
    hide DepacketizerModel.Assemble, DepacketizerModel.DropStale, IsLate, IsHeld;
  }

  lemma InvTable(s: State)
    requires Inv(s)
    ensures DistinctOrders(s.groups)
  {
  }

  lemma KnownSource(s: State, key: Key)
    requires Inv(s) && key in s.groups
    ensures key.ssrc in s.sources
  {
    hide Sum, GroupOk, HistoryOk, ObservedOk, ParamsOk;
    assert GroupFits(s.sources, s.nextGroup, key, s.groups[key]);
  }

  lemma KnownIsAdopting(s: State, ssrc: u32)
    requires Inv(s) && ssrc in s.sources
    ensures Adopting(s, ssrc)
  {
    hide TableOk, HistoryOk, ObservationOk, Strict;
  }

  lemma UnitsSnoc(log: seq<Output>, o: Output)
    ensures Units(log + [o]) == if o.Emitted? then Units(log) + [o.unit] else Units(log)
  {
    assert (log + [o])[..|log|] == log;
  }
}
