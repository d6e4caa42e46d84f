/** Which source is shown: when another one takes over, what is kept of it before, and how long all are waited for. */
module SourceAdoption {
  import opened Bytes
  import opened DepacketizerModel
  import opened DepacketizerInvariants
  import opened Reception

  // ----- a takeover

  /** A source replaces the only one exactly when that one has been quiet for 100 ms and it has shown eight packets. */
  lemma TakesOverIff(t: State, p: Packet, now: nat)
    requires p.ssrc !in t.sources
    ensures TakesOver(t, p, now) <==>
              && |p.payload| >= 2 && t.tiles == 1 && |t.sources| >= 1 && t.sources[0] in t.observed
              && now >= t.observed[t.sources[0]].last + 100
              && (if p.ssrc in t.observed then t.observed[p.ssrc].packets >= 7 else false)
  {
    hide Inferred;
    if |p.payload| >= 2 {
      if p.ssrc in t.observed {
        InferredPrefix(t.observed[p.ssrc].(packets := t.observed[p.ssrc].packets + 1, last := now), p.payload);
      } else {
        InferredPrefix(Observation(1, now, None, [], [], 0), p.payload);
      }
    }
  }

  /** It then starts over: a new generation that knows no parameter set, no timestamp and no group. */
  lemma HandOverForgets(s: State)
    ensures var r := HandOver(s);
            && r.generation == s.generation + 1 && r.log == s.log + [Handoff] && !r.haveKey
            && r.params == [] && r.groups == map[] && r.lastTs == map[] && r.sources == []
            && r.observed == s.observed && r.tiles == s.tiles && r.lossEpoch == s.lossEpoch && r.nextPts == s.nextPts
            && r.first == s.first && r.nextGroup == s.nextGroup
  {
  }

  // ----- what is kept of a source before

  function SizeOf(ps: seq<Packet>): nat {
    if ps == [] then 0 else |ps[0].payload| + SizeOf(ps[1..])
  }

  /** With the newcomer these are at most eight packets and 64 KiB. */
  predicate RoomBehind(ps: seq<Packet>, p: Packet) {
    |ps| < 8 && SizeOf(ps) + |p.payload| <= 65536
  }

  lemma {:induction false} SizeIsPrefixSize(ps: seq<Packet>)
    ensures SizeOf(ps) == PrefixSize(ps)
  {
    if ps != [] {
      SizeIsPrefixSize(ps[1..]);
    }
  }

  /** The oldest packets make room, no more of them than needed. */
  lemma {:induction false} OldestMakeRoom(ssrc: u32, o: Observation, p: Packet) returns (k: nat)
    requires ObservationOk(ssrc, o) && |p.payload| <= 65536
    ensures k <= |o.prefix| && Evict(o, |p.payload|).prefix == o.prefix[k..] && RoomBehind(o.prefix[k..], p)
    ensures forall j :: 0 <= j < k ==> !RoomBehind(o.prefix[j..], p)
    decreases |o.prefix|
  {
    SizeIsPrefixSize(o.prefix);
    if RoomBehind(o.prefix, p) {
      k := 0;
    } else {
      var r := o.(prefix := o.prefix[1..], prefixBytes := o.prefixBytes - |o.prefix[0].payload|);
      var j := OldestMakeRoom(ssrc, r, p);
      k := j + 1;
      assert o.prefix[1..][j..] == o.prefix[k..];
      forall i | 0 <= i < k ensures !RoomBehind(o.prefix[i..], p) {
        if i > 0 {
          assert o.prefix[1..][i - 1..] == o.prefix[i..];
        } else {
          assert o.prefix[0..] == o.prefix;
        }
      }
    }
  }

  /**
   A packet of a source that is not shown is kept behind those that came before it, the oldest of which make room, if
   only one source is shown, it has at most 64 KiB, and its source is observed; nothing else changes.
   */
  lemma KeptBackIff(s: State, p: Packet) returns (k: nat)
    requires Inv(s) && p.ssrc !in s.sources
    ensures var r := Stash(s, p);
            && r == s.(observed := r.observed) && r.observed.Keys == s.observed.Keys
            && (forall x <- s.observed :: x != p.ssrc ==> r.observed[x] == s.observed[x])
            && (p.ssrc in s.observed ==>
                  var o, q := s.observed[p.ssrc], r.observed[p.ssrc];
                  && q == o.(prefix := q.prefix, prefixBytes := q.prefixBytes)
                  && if s.tiles == 1 && |p.payload| <= 65536
                     then k <= |o.prefix| && q.prefix == o.prefix[k..] + [p] && RoomBehind(o.prefix[k..], p)
                          && forall j :: 0 <= j < k ==> !RoomBehind(o.prefix[j..], p)
                     else q == o)
  {
    hide Inv, Evict, RoomBehind;
    k := 0;
    ObservationFact(s, p.ssrc);
    if s.tiles == 1 && |p.payload| <= 65536 && p.ssrc in s.observed {
      k := OldestMakeRoom(p.ssrc, s.observed[p.ssrc], p);
      EvictOk(p.ssrc, s.observed[p.ssrc], |p.payload|);
    }
  }

  // ----- discovery

  /** Until all sources are found or 750 ms have passed since the first packet, a poll hands out nothing. */
  lemma DiscoveryWaits(t: State, now: nat)
    ensures Discovering(t, now) <==>
              |t.sources| < t.tiles && (t.first.None? || now < t.first.value + 750)
    ensures Discovering(t, now) ==> Poll(t, now) == t
  {
  }
}
