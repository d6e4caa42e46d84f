/**
 The order in which a poll works through the pending groups: head of line first, and no further than the first group
 that has to wait.
 */
module QueueOrder {
  import opened Bytes
  import opened Hevc
  import opened DepacketizerModel
  import opened DepacketizerInvariants

  // ----- one group at a time

  /** A poll gets past this group: it is late or due. */
  predicate Passes(s: State, key: Key, now: nat) {
    key in s.groups && (IsLate(s, key) || !IsHeld(s.groups[key], now))
  }

  /** What a poll does with a group that it gets past. */
  function Handle(s: State, key: Key): State
    requires key in s.groups
  {
    if IsLate(s, key) then DropStale(s, key) else Assemble(s.(groups := s.groups - {key}), key, s.groups[key])
  }

  /** A poll gets past all of these groups. */
  predicate Clears(s: State, keys: seq<Key>, now: nat)
    decreases |keys|
  {
    keys == [] || (Passes(s, keys[0], now) && Clears(Handle(s, keys[0]), keys[1..], now))
  }

  lemma PollEachStep(s: State, keys: seq<Key>, now: nat)
    requires keys != []
    ensures PollEach(s, keys, now)
         == if Passes(s, keys[0], now) then PollEach(Handle(s, keys[0]), keys[1..], now) else s
  {
    hide IsLate, IsHeld, DropStale, Assemble;
  }

  /** The groups in front come first; those behind are reached exactly when all in front are passed. */
  lemma {:induction false} PollEachSplit(s: State, a: seq<Key>, b: seq<Key>, now: nat)
    ensures PollEach(s, a + b, now)
         == if Clears(s, a, now) then PollEach(PollEach(s, a, now), b, now) else PollEach(s, a, now)
    decreases |a|
  {
    hide Passes, Handle;
    if a == [] {
      assert a + b == b && PollEach(s, a, now) == s;
    } else {
      assert (a + b)[1..] == a[1..] + b;
      PollEachStep(s, a + b, now);
      PollEachStep(s, a, now);
      if Passes(s, a[0], now) {
        PassesKnown(s, a[0], now);
        PollEachSplit(Handle(s, a[0]), a[1..], b, now);
      }
    }
  }

  lemma PassesKnown(s: State, key: Key, now: nat)
    requires Passes(s, key, now)
    ensures key in s.groups
  {
  }

  /** The decision is about this picture. */
  predicate About(o: Output, key: Key) {
    match o
    case Emitted(ssrc, unit) => ssrc == key.ssrc && unit.rtpTimestamp == key.timestamp
    case Lost(_, k) => k == key
    case Stale(k) => k == key
    case Handoff => false
  }

  /** `r` is `s` without this group, after at most one decision, which is about this group. */
  predicate Without(s: State, r: State, key: Key) {
    && r.groups == s.groups - {key} && r.tiles == s.tiles && r.sources == s.sources && r.observed == s.observed
    && r.generation == s.generation && r.nextGroup == s.nextGroup && r.first == s.first && (s.haveKey ==> r.haveKey)
    && (r.lastTs == s.lastTs || r.lastTs == s.lastTs[key.ssrc := key.timestamp])
    && s.log <= r.log && |r.log| <= |s.log| + 1
    && (|r.log| > |s.log| ==> About(r.log[|s.log|], key))
  }

  lemma HandleFrame(s: State, key: Key)
    requires key in s.groups
    ensures Without(s, Handle(s, key), key)
  {
    hide IsLate, Reassembled, InOrder, Adjacent, Present;
    var u, g := s.(groups := s.groups - {key}), s.groups[key];
    if !IsLate(s, key) && g.marker.Some? {
      match Reassembled(Payloads(InOrder(g.packets, g.marker.value, 0x1_0000)), AppleFraming(u, key.ssrc)) {
        case Failure(_) =>
        case Success(v) => PresentFrame(u, key, v.0, v.1);
      }
    }
  }

  lemma PresentFrame(u: State, key: Key, nals: seq<Nal>, donl: u16)
    ensures var r := Present(u, key, nals, donl);
            && (u.haveKey ==> r.haveKey)
            && (r.lastTs == u.lastTs || r.lastTs == u.lastTs[key.ssrc := key.timestamp])
            && u.log <= r.log && |r.log| <= |u.log| + 1
            && (|r.log| > |u.log| ==> About(r.log[|u.log|], key))
  {
    hide LearnAll, ParamsIn, IsVcl, IsKeySlice, IsFirstSlice, ParamPrefix, VclData, IndexOf;
  }

  lemma HandleInv(s: State, key: Key)
    requires Inv(s) && key in s.groups
    ensures Inv(Handle(s, key))
  {
    SourceKnown(s, key);
    hide Inv, IsLate, Assemble, DropStale;
    if IsLate(s, key) {
      DropStaleInv(s, key);
    } else {
      var u := s.(groups := s.groups - {key});
      RemoveInv(s, key);
      SameLate(s, u, key);
      AssembleInv(u, key, s.groups[key]);
    }
  }

  lemma SourceKnown(s: State, key: Key)
    requires Inv(s) && key in s.groups
    ensures key.ssrc in s.sources && s.groups[key].order < s.nextGroup && DistinctOrders(s.groups)
  {
    hide GroupOk, HistoryOk, ObservedOk, ParamsOk, DistinctOrders;
    assert GroupFits(s.sources, s.nextGroup, key, s.groups[key]);
  }

  // ----- the queue

  /** The groups in front of `key`, in the order in which they were created. */
  ghost function Ahead(s: State, key: Key): (keys: seq<Key>)
    ensures key in s.groups ==>
              forall k <- keys :: k in s.groups && k != key && s.groups[k].order < s.groups[key].order
  {
    if key in s.groups then KeysByOrder(s.groups, s.groups[key].order) else []
  }

  lemma {:induction false} QueueGrows(groups: Groups, m: nat, n: nat) returns (more: seq<Key>)
    requires m <= n
    ensures KeysByOrder(groups, n) == KeysByOrder(groups, m) + more
    ensures forall k <- more :: k in groups && groups[k].order >= m
    decreases n
  {
    if m == n {
      more := [];
    } else {
      more := QueueGrows(groups, m, n - 1);
      var all := KeysByOrder(groups, n);
      if |all| > |KeysByOrder(groups, n - 1)| {
        more := more + [all[|all| - 1]];
      }
    }
  }

  lemma OwnTurn(groups: Groups, key: Key)
    requires key in groups && DistinctOrders(groups)
    ensures KeysByOrder(groups, groups[key].order + 1) == KeysByOrder(groups, groups[key].order) + [key]
  {
  }

  lemma AheadIs(s: State, key: Key)
    requires key in s.groups
    ensures Ahead(s, key) == KeysByOrder(s.groups, s.groups[key].order)
  {
  }

  lemma {:induction false} AllQueued(groups: Groups, n: nat, key: Key)
    requires key in groups && groups[key].order < n && DistinctOrders(groups)
    ensures key in KeysByOrder(groups, n)
    decreases n
  {
    if groups[key].order < n - 1 {
      AllQueued(groups, n - 1, key);
    } else {
      OwnTurn(groups, key);
    }
  }

  lemma WholeQueue(s: State)
    requires Inv(s)
    ensures forall k <- s.groups :: k in KeysByOrder(s.groups, s.nextGroup)
  {
    hide Inv, DistinctOrders, KeysByOrder;
    forall k | k in s.groups ensures k in KeysByOrder(s.groups, s.nextGroup) {
      SourceKnown(s, k);
      AllQueued(s.groups, s.nextGroup, k);
    }
  }

  lemma QueueParts(s: State, key: Key) returns (behind: seq<Key>)
    requires Inv(s) && key in s.groups
    ensures KeysByOrder(s.groups, s.nextGroup) == Ahead(s, key) + ([key] + behind)
    ensures forall k <- behind :: k in s.groups && s.groups[k].order > s.groups[key].order
  {
    hide Inv, DistinctOrders;
    SourceKnown(s, key);
    OwnTurn(s.groups, key);
    AheadIs(s, key);
    hide KeysByOrder, Ahead;
    behind := QueueGrows(s.groups, s.groups[key].order + 1, s.nextGroup);
  }

  lemma Members(all: seq<Key>, a: seq<Key>, key: Key, b: seq<Key>)
    requires all == a + ([key] + b)
    ensures forall k <- all :: k in a || k == key || k in b
  {
  }

  /** The whole queue: those in front, the group itself, and those behind; every pending group is in it. */
  lemma Queue(s: State, key: Key) returns (behind: seq<Key>)
    requires Inv(s) && key in s.groups
    ensures KeysByOrder(s.groups, s.nextGroup) == Ahead(s, key) + ([key] + behind)
    ensures forall k <- behind :: k in s.groups && s.groups[k].order > s.groups[key].order
    ensures forall k <- s.groups :: k in Ahead(s, key) || k == key || k in behind
  {
    hide *;
    behind := QueueParts(s, key);
    WholeQueue(s);
    Members(KeysByOrder(s.groups, s.nextGroup), Ahead(s, key), key, behind);
  }

  // ----- when nothing in front holds up a poll

  /** The group is due, or it is late and no group of its own source comes before it that could change that. */
  predicate Movable(s: State, keys: seq<Key>, i: nat, now: nat)
    requires i < |keys|
  {
    && keys[i] in s.groups
    && (!IsHeld(s.groups[keys[i]], now)
        || (IsLate(s, keys[i]) && forall j :: 0 <= j < i ==> keys[j].ssrc != keys[i].ssrc))
  }

  predicate Distinct(keys: seq<Key>) {
    forall i, j :: 0 <= i < j < |keys| ==> keys[i] != keys[j]
  }

  lemma MovableAfter(s: State, keys: seq<Key>, i: nat, now: nat)
    requires Distinct(keys) && 0 < i < |keys| && keys[0] in s.groups && Movable(s, keys, i, now)
    ensures Movable(Handle(s, keys[0]), keys[1..], i - 1, now)
  {
    HandleFrame(s, keys[0]);
    hide Handle, IsHeld, Advances;
    var k, r, rest := keys[i], Handle(s, keys[0]), keys[1..];
    assert rest[i - 1] == k && r.groups[k] == s.groups[k];
    if IsHeld(s.groups[k], now) {
      assert keys[0].ssrc != k.ssrc;
      assert IsLate(r, k);
      forall j | 0 <= j < i - 1 ensures rest[j].ssrc != k.ssrc {
        assert rest[j] == keys[j + 1];
      }
    }
  }

  lemma {:induction false} MovableClears(s: State, keys: seq<Key>, now: nat)
    requires Distinct(keys) && forall i :: 0 <= i < |keys| ==> Movable(s, keys, i, now)
    ensures Clears(s, keys, now)
    decreases |keys|
  {
    if keys != [] {
      assert Movable(s, keys, 0, now);
      assert Passes(s, keys[0], now);
      forall i | 0 <= i < |keys[1..]| ensures Movable(Handle(s, keys[0]), keys[1..], i, now) {
        MovableAfter(s, keys, i + 1, now);
      }
      hide Handle, Movable, Passes;
      MovableClears(Handle(s, keys[0]), keys[1..], now);
    }
  }

  /** Every group in front is due. */
  predicate AllDue(s: State, keys: seq<Key>, now: nat) {
    forall k <- keys :: k in s.groups && !IsHeld(s.groups[k], now)
  }

  lemma DueClears(s: State, key: Key, now: nat)
    requires AllDue(s, Ahead(s, key), now)
    ensures Clears(s, Ahead(s, key), now)
  {
    hide IsHeld, IsLate;
    var keys := Ahead(s, key);
    forall i | 0 <= i < |keys| ensures Movable(s, keys, i, now) {
      assert keys[i] in keys;
    }
    MovableClears(s, keys, now);
  }
}
