/**
 What the invariant says about whole runs: bounded memory, numbered units, ordered stamps,
 a key at the head of every generation, advancing timestamps and tile indices.
 */
module DepacketizerHistory {
  import opened Bytes
  import opened DepacketizerModel
  import opened DepacketizerInvariants
  import opened Sums

  // ----- prefixes of the log

  lemma {:induction false} PrefixStamped(log: seq<Output>, tiles: nat, i: nat)
    requires LogOk(log, tiles) && i < |log|
    ensures LogOk(log[..i], tiles)
    ensures log[i].Emitted? ==> Stamped(log[..i], log[i].ssrc, log[i].unit, tiles)
    decreases |log|
  {
    var before := log[..|log| - 1];
    if i < |before| {
      PrefixStamped(before, tiles, i);
      assert before[..i] == log[..i];
    }
  }

  /** The counters grow with the log, and stay equal exactly while nothing of their kind is recorded. */
  lemma {:induction false} CountersGrow(log: seq<Output>, i: nat, j: nat)
    requires i <= j <= |log|
    ensures |Units(log[..i])| <= |Units(log[..j])|
    ensures Losses(log[..i]) <= Losses(log[..j]) && Handoffs(log[..i]) <= Handoffs(log[..j])
    ensures Losses(log[..i]) == Losses(log[..j]) <==> forall k :: i <= k < j ==> !log[k].Lost?
    ensures Handoffs(log[..i]) == Handoffs(log[..j]) <==> forall k :: i <= k < j ==> !log[k].Handoff?
    ensures (exists k :: i <= k < j && log[k].Emitted?) ==> |Units(log[..i])| < |Units(log[..j])|
    decreases j - i
  {
    if i < j {
      CountersGrow(log, i, j - 1);
      assert log[..j][..j - 1] == log[..j - 1];
    }
  }

  /** Units are numbered consecutively from 0, in the order in which they are handed out. */
  lemma {:induction false} UnitsNumbered(log: seq<Output>, tiles: nat)
    requires LogOk(log, tiles)
    ensures forall k :: 0 <= k < |Units(log)| ==> Units(log)[k].pts == k
    decreases |log|
  {
    if log != [] {
      UnitsNumbered(log[..|log| - 1], tiles);
    }
  }

  /**
   Of two units, the later one has the larger pts and no smaller generation or loss epoch. Its epoch
   is the same exactly when no loss was recorded in between, and its generation when no handoff was.
   */
  lemma StampsOrdered(log: seq<Output>, tiles: nat, i: nat, j: nat)
    requires LogOk(log, tiles) && i < j < |log| && log[i].Emitted? && log[j].Emitted?
    ensures log[i].unit.pts < log[j].unit.pts
    ensures log[i].unit.generation <= log[j].unit.generation && log[i].unit.lossEpoch <= log[j].unit.lossEpoch
    ensures log[i].unit.lossEpoch == log[j].unit.lossEpoch <==> forall k :: i <= k < j ==> !log[k].Lost?
    ensures log[i].unit.generation == log[j].unit.generation <==> forall k :: i <= k < j ==> !log[k].Handoff?
  {
    PrefixStamped(log, tiles, i);
    PrefixStamped(log, tiles, j);
    CountersGrow(log, i, j);
    assert i <= i < j && log[i].Emitted?;
  }

  /** Consecutive units of one source within a generation advance in 32-bit serial arithmetic. */
  lemma SourceAdvances(log: seq<Output>, tiles: nat, i: nat, j: nat)
    requires LogOk(log, tiles) && i < j < |log| && log[i].Emitted? && log[j].Emitted?
    requires log[i].ssrc == log[j].ssrc && log[i].unit.generation == log[j].unit.generation
    requires forall k :: i < k < j ==> !(log[k].Emitted? && log[k].ssrc == log[i].ssrc)
    ensures Advances(log[i].unit.rtpTimestamp, log[j].unit.rtpTimestamp)
  {
    StampsOrdered(log, tiles, i, j);
    PrefixStamped(log, tiles, j);
    LastTimestampIs(log[..j], i);
  }

  lemma {:induction false} LastTimestampIs(log: seq<Output>, i: nat)
    requires i < |log| && log[i].Emitted?
    requires forall k :: i <= k < |log| ==> !log[k].Handoff?
    requires forall k :: i < k < |log| ==> !(log[k].Emitted? && log[k].ssrc == log[i].ssrc)
    ensures LastTimestamp(log, log[i].ssrc) == Some(log[i].unit.rtpTimestamp)
    decreases |log|
  {
    if i < |log| - 1 {
      LastTimestampIs(log[..|log| - 1], i);
    }
  }

  /** Every unit has a key unit of its own generation at or before it that opens that generation. */
  lemma {:induction false} KeyOpensGeneration(log: seq<Output>, tiles: nat, j: nat) returns (i: nat)
    requires LogOk(log, tiles) && j < |log| && log[j].Emitted?
    ensures i <= j && log[i].Emitted? && log[i].unit.key
    ensures log[i].unit.generation == log[j].unit.generation
    ensures forall k :: 0 <= k < i && log[k].Emitted? ==> log[k].unit.generation < log[i].unit.generation
    decreases j
  {
    PrefixStamped(log, tiles, j);
    var before := log[..j];
    if Started(before) {
      var k := StartedBy(before);
      StampsOrdered(log, tiles, k, j);
      i := KeyOpensGeneration(log, tiles, k);
    } else {
      i := j;
      forall k | 0 <= k < j && log[k].Emitted? ensures log[k].unit.generation < log[j].unit.generation {
        NotStarted(before, k);
        StampsOrdered(log, tiles, k, j);
      }
    }
  }

  lemma {:induction false} StartedBy(log: seq<Output>) returns (k: nat)
    requires Started(log)
    ensures k < |log| && log[k].Emitted? && forall m :: k <= m < |log| ==> !log[m].Handoff?
    decreases |log|
  {
    if log[|log| - 1].Emitted? {
      k := |log| - 1;
    } else {
      k := StartedBy(log[..|log| - 1]);
    }
  }

  lemma {:induction false} NotStarted(log: seq<Output>, k: nat)
    requires !Started(log) && k < |log| && log[k].Emitted?
    ensures exists m :: k <= m < |log| && log[m].Handoff?
    decreases |log|
  {
    if !log[|log| - 1].Handoff? {
      var before := log[..|log| - 1];
      NotStarted(before, k);
      var m :| k <= m < |before| && before[m].Handoff?;
      assert log[m].Handoff?;
    }
  }

  // ----- every run from a new depacketizer

  /** Everything a run hands out, with the facts above for any two of its units. */
  lemma RunUnits(tileCount: nat, events: seq<Event>)
    requires forall e <- events :: EventOk(e)
    ensures var s := RunEvents(Init(tileCount), events);
            && LogOk(s.log, s.tiles)
            && s.nextPts == |Units(s.log)|
            && s.lossEpoch == Losses(s.log) && s.generation == Handoffs(s.log)
            && forall k :: 0 <= k < |Units(s.log)| ==> Units(s.log)[k].pts == k && Units(s.log)[k].tile < s.tiles
  {
    InitInv(tileCount);
    RunInv(Init(tileCount), events);
    var s := RunEvents(Init(tileCount), events);
    UnitsNumbered(s.log, s.tiles);
    TilesBounded(s.log, s.tiles);
  }

  lemma {:induction false} TilesBounded(log: seq<Output>, tiles: nat)
    requires LogOk(log, tiles)
    ensures forall u <- Units(log) :: u.tile < tiles
    decreases |log|
  {
    if log != [] {
      TilesBounded(log[..|log| - 1], tiles);
    }
  }

  /** Memory is bounded in every run, whatever arrives. */
  lemma RunBounded(tileCount: nat, events: seq<Event>)
    requires forall e <- events :: EventOk(e)
    ensures var s := RunEvents(Init(tileCount), events);
            && |s.groups| <= 64 && Sum(s.groups, GroupBytes) <= 32 * 1024 * 1024
            && (forall k <- s.groups ::
                  && s.groups[k].bytes == Sum(s.groups[k].packets, PayloadSize) <= 8 * 1024 * 1024
                  && |s.groups[k].packets| <= 8192 && k.ssrc in s.sources)
            && |s.sources| <= s.tiles <= 16 && Ascending(s.sources)
            && |s.observed| <= 32
            && (forall x <- s.observed :: |s.observed[x].prefix| <= 8 && PrefixSize(s.observed[x].prefix) <= 64 * 1024)
            && |s.params| <= 64
  {
    InitInv(tileCount);
    RunInv(Init(tileCount), events);
    var s := RunEvents(Init(tileCount), events);
    forall k | k in s.groups
      ensures s.groups[k].bytes == Sum(s.groups[k].packets, PayloadSize) <= 8 * 1024 * 1024
      ensures |s.groups[k].packets| <= 8192 && k.ssrc in s.sources
    {
      assert GroupFits(s.sources, s.nextGroup, k, s.groups[k]);
    }
  }

  /** The tile of a unit is the position of its source among the known ones, in numeric order. */
  lemma TileIsRank(s: State, key: Key)
    requires Inv(s) && key in s.groups
    ensures var i := IndexOf(s.sources, key.ssrc);
            && i < |s.sources| <= s.tiles && s.sources[i] == key.ssrc
            && forall j :: 0 <= j < |s.sources| ==> (s.sources[j] < key.ssrc <==> j < i)
  {
    hide GroupOk, Sum, DistinctOrders, HistoryOk, ObservedOk, ParamsOk;
    assert GroupFits(s.sources, s.nextGroup, key, s.groups[key]);
  }

  // ----- are tile indices immutable?

  /** Adopting a source keeps the index of a known one exactly when the newcomer is the larger. */
  lemma {:induction false} AdoptionKeepsTile(sources: seq<u32>, x: u32, y: u32)
    requires Ascending(sources) && x in sources && y !in sources
    ensures IndexOf(InsertSorted(sources, y), x) == IndexOf(sources, x) <==> x < y
    ensures y < x ==> IndexOf(InsertSorted(sources, y), x) == IndexOf(sources, x) + 1
  {
    if y < sources[0] {
      assert ([y] + sources)[1..] == sources;
      assert sources[IndexOf(sources, x)] == x;
    } else if x != sources[0] {
      AdoptionKeepsTile(sources[1..], x, y);
      assert ([sources[0]] + InsertSorted(sources[1..], y))[1..] == InsertSorted(sources[1..], y);
      assert sources[0] < x by { assert x in sources[1..]; }
    }
  }

  predicate AdoptsSmaller(s: State, p: Packet, x: u32) {
    |p.payload| >= 2 && p.ssrc !in s.sources && |s.sources| < s.tiles && p.ssrc < x
  }

  /**
   A push that is not a handoff keeps the tile index of a known source exactly when it does not adopt
   a smaller one. Indices are therefore immutable only once every tile has its source.
   */
  lemma PushKeepsTile(s: State, p: Packet, now: nat, pick: Groups -> Key, x: u32)
    requires Ascending(s.sources) && x in s.sources
    requires |p.payload| >= 2 ==> !ShouldReplace(Observe(s, p, now), p.ssrc, now)
    ensures IndexOf(Push(s, p, now, pick).sources, x) == IndexOf(s.sources, x) <==> !AdoptsSmaller(s, p, x)
  {
    hide Deliver, Poll, ShouldReplace, Inferred, IndexOf, Evict;
    if |p.payload| >= 2 && p.ssrc !in s.sources && |s.sources| < s.tiles {
      AdoptionKeepsTile(s.sources, x, p.ssrc);
      DeliverKeepsSources(Adopt(Observe(s, p, now), p.ssrc), p, now, pick);
    } else if |p.payload| >= 2 && p.ssrc in s.sources {
      DeliverKeepsSources(Observe(s, p, now), p, now, pick);
    }
  }

  lemma DeliverKeepsSources(s: State, p: Packet, now: nat, pick: Groups -> Key)
    ensures Deliver(s, p, now, pick).sources == s.sources
  {
    hide PushEach;
  }
}
