/**
 The depacketizer as a transition function on its fields.

 `Push` and `Poll` are the two entry points. `State` holds the fields of the source's struct
 and one history variable, `log`, which records everything that was decided, in order.
 Time is a number of milliseconds given by the caller. Where the source iterates over a hash
 map to find an oldest group, the iteration order is the parameter `pick`.
 */
module DepacketizerModel {
  import opened Bytes
  import opened Hevc
  import Packetization
  import opened Sums
  import opened Lexical

  const MAX_GROUPS := 64
  const MAX_GROUP_BYTES := 8 * 1024 * 1024
  const MAX_GROUP_PACKETS := 8192
  const MAX_PENDING_BYTES := 32 * 1024 * 1024
  const HOLD_MS := 25
  const INCOMPLETE_IDLE_MS := 200
  const MAX_GROUP_AGE_MS := 1000
  const MAX_CANDIDATE_PACKETS := 8
  const MAX_CANDIDATE_BYTES := 64 * 1024
  const MAX_OBSERVED := 32
  const MAX_PARAMS := 64
  const DISCOVERY_MS := 750
  const QUIET_MS := 100
  const ADOPTION_PACKETS := 8

  datatype Packet = Packet(ssrc: u32, seqno: u16, timestamp: u32, marker: bool, payload: seq<byte>)

  datatype AccessUnit = AccessUnit(generation: nat, lossEpoch: nat, data: seq<byte>, tile: nat, pts: nat,
                                   rtpTimestamp: u32, donl: u16, key: bool)

  datatype Key = Key(ssrc: u32, timestamp: u32)

  datatype Group = Group(packets: map<u16, Packet>, first: nat, order: nat, bytes: nat, marker: Option<u16>,
                         markerAt: Option<nat>, lastPacket: nat)

  datatype Observation = Observation(packets: nat, last: nat, donl: Option<bool>, params: seq<Nal>,
                                     prefix: seq<Packet>, prefixBytes: int)

  type Groups = map<Key, Group>

  /** One decision: a unit handed out, a picture or packet recorded as lost, a late group dropped, a source replaced. */
  datatype Output = Emitted(ssrc: u32, unit: AccessUnit) | Lost(reason: Loss, key: Key) | Stale(key: Key) | Handoff

  datatype State = State(
    tiles: nat,
    sources: seq<u32>,
    groups: Groups,
    first: Option<nat>,
    nextPts: nat,
    haveKey: bool,
    params: seq<Nal>,
    dropped: nat,
    lastTs: map<u32, u32>,
    nextGroup: nat,
    observed: map<u32, Observation>,
    generation: nat,
    lossEpoch: nat,
    log: seq<Output>)

  function Init(tileCount: nat): State {
    var tiles := if tileCount < 1 then 1 else if tileCount > 16 then 16 else tileCount;
    State(tiles, [], map[], None, 0, false, [], 0, map[], 0, map[], 0, 0, [])
  }

  function RecordLoss(s: State, reason: Loss, key: Key): (r: State)
    ensures r.tiles == s.tiles && r.sources == s.sources && r.observed == s.observed && r.generation == s.generation
    ensures s.log <= r.log
  {
    s.(dropped := s.dropped + 1, lossEpoch := s.lossEpoch + 1, log := s.log + [Lost(reason, key)])
  }

  // ----- parameter sets: an ordered map whose keys are its values

  function PutParam(params: seq<Nal>, n: Nal): seq<Nal> {
    if params == [] then [n]
    else if params[0] == n then params
    else if Less(n, params[0]) then [n] + params
    else [params[0]] + PutParam(params[1..], n)
  }

  function LearnParam(params: seq<Nal>, n: Nal): seq<Nal> {
    if |params| < MAX_PARAMS then PutParam(params, n) else params
  }

  function LearnAll(params: seq<Nal>, nals: seq<Nal>): seq<Nal>
    decreases |nals|
  {
    if nals == [] then params else LearnAll(LearnParam(params, nals[0]), nals[1..])
  }

  const START_CODE: seq<byte> := [0, 0, 0, 1]

  function OfKind(params: seq<Nal>, kind: nat): seq<byte> {
    if params == [] then []
    else if |params[0]| > 0 && Kind(params[0][0]) == kind then START_CODE + params[0] + OfKind(params[1..], kind)
    else OfKind(params[1..], kind)
  }

  /** What precedes a key picture: every known parameter set, by kind and then in map order. */
  function ParamPrefix(params: seq<Nal>): seq<byte> {
    OfKind(params, 32) + OfKind(params, 33) + OfKind(params, 34)
  }

  // ----- observation of sources

  function Inferred(o: Observation, b: seq<byte>): Observation
    requires |b| >= 2
  {
    if Kind(b[0]) != 48 then o
    else
      var apple := Packetization.ParseFrom(b, 4, []);
      var standard := Packetization.ParseFrom(b, 2, []);
      if apple.Some? && standard.None? then o.(donl := Some(true), params := apple.value)
      else if apple.None? && standard.Some? then o.(donl := Some(false), params := standard.value)
      else o
  }

  function Observe(s: State, p: Packet, now: nat): State
    requires |p.payload| >= 2
  {
    if p.ssrc in s.observed || |s.observed| < MAX_OBSERVED then
      var o := if p.ssrc in s.observed then s.observed[p.ssrc] else Observation(0, 0, None, [], [], 0);
      s.(observed := s.observed[p.ssrc := Inferred(o.(packets := o.packets + 1, last := now), p.payload)])
    else s
  }

  /** The only source has been quiet and the newcomer has shown enough packets. */
  predicate ShouldReplace(s: State, ssrc: u32, now: nat) {
    && s.tiles == 1 && s.sources != []
    && s.sources[0] in s.observed && SatSub(now, s.observed[s.sources[0]].last) >= QUIET_MS
    && ssrc in s.observed && s.observed[ssrc].packets >= ADOPTION_PACKETS
  }

  function HandOver(s: State): State {
    s.(generation := s.generation + 1, sources := [], groups := map[], params := [], haveKey := false,
       lastTs := map[], dropped := s.dropped + 1, log := s.log + [Handoff])
  }

  function InsertSorted(sources: seq<u32>, x: u32): seq<u32> {
    if sources == [] then [x]
    else if x < sources[0] then [x] + sources
    else [sources[0]] + InsertSorted(sources[1..], x)
  }

  function Adopt(s: State, ssrc: u32): State {
    s.(sources := InsertSorted(s.sources, ssrc))
  }

  /** Makes room for `len` more bytes, oldest packets first. */
  function Evict(o: Observation, len: nat): Observation
    decreases |o.prefix|
  {
    if o.prefix != [] && (|o.prefix| >= MAX_CANDIDATE_PACKETS || o.prefixBytes + len > MAX_CANDIDATE_BYTES)
    then Evict(o.(prefix := o.prefix[1..], prefixBytes := o.prefixBytes - |o.prefix[0].payload|), len)
    else o
  }

  /** Keeps a packet of a source that has not been adopted yet. */
  function Stash(s: State, p: Packet): State {
    if s.tiles == 1 && |p.payload| <= MAX_CANDIDATE_BYTES && p.ssrc in s.observed then
      var o := Evict(s.observed[p.ssrc], |p.payload|);
      s.(observed := s.observed[p.ssrc := o.(prefix := o.prefix + [p], prefixBytes := o.prefixBytes + |p.payload|)])
    else s
  }

  // ----- groups

  function GroupBytes(g: Group): nat { g.bytes }

  function PayloadSize(p: Packet): nat { |p.payload| }

  ghost predicate IsOldest(groups: Groups, k: Key) {
    k in groups && forall j <- groups :: groups[k].first <= groups[j].first
  }

  /** `pick` finds a minimum of `first`; ties fall as hash iteration happens to order them. */
  ghost predicate PicksOldest(pick: Groups -> Key) {
    forall groups: Groups :: groups != map[] ==> IsOldest(groups, pick(groups))
  }

  predicate Known(s: State, p: Packet) {
    var key := Key(p.ssrc, p.timestamp);
    key in s.groups && p.seqno in s.groups[key].packets
  }

  ghost predicate OverBudget(s: State, p: Packet) {
    && !Known(s, p)
    && (|p.payload| > MAX_GROUP_BYTES || Sum(s.groups, GroupBytes) + |p.payload| > MAX_PENDING_BYTES)
  }

  function MakeRoom(s: State, key: Key, pick: Groups -> Key): (r: State)
    ensures r.tiles == s.tiles && r.sources == s.sources && r.observed == s.observed && r.generation == s.generation
    ensures s.log <= r.log
  {
    if key !in s.groups && |s.groups| >= MAX_GROUPS
    then RecordLoss(s.(groups := s.groups - {pick(s.groups)}), GroupLimit, pick(s.groups))
    else s
  }

  function NewGroup(order: nat, now: nat): Group {
    Group(map[], now, order, 0, None, None, now)
  }

  function AddPacket(g: Group, p: Packet, now: nat): Group {
    if p.seqno in g.packets then g
    else
      Group(g.packets[p.seqno := p], g.first, g.order, g.bytes + |p.payload|,
            if p.marker then Some(p.seqno) else g.marker,
            if p.marker && g.markerAt.None? then Some(now) else g.markerAt,
            now)
  }

  function Insert(s: State, p: Packet, now: nat): (r: State)
    ensures r.tiles == s.tiles && r.sources == s.sources && r.observed == s.observed && r.generation == s.generation
    ensures s.log <= r.log
  {
    var key := Key(p.ssrc, p.timestamp);
    var g := AddPacket(if key in s.groups then s.groups[key] else NewGroup(s.nextGroup, now), p, now);
    var s := s.(nextGroup := s.nextGroup + 1);
    if g.bytes > MAX_GROUP_BYTES || |g.packets| > MAX_GROUP_PACKETS
    then RecordLoss(s.(groups := s.groups - {key}), ByteLimit, key)
    else s.(groups := s.groups[key := g])
  }

  function Learn(s: State, ssrc: u32): (r: State)
    ensures r.tiles == s.tiles && r.sources == s.sources && r.observed == s.observed && r.generation == s.generation
    ensures s.log <= r.log
  {
    if ssrc in s.observed then s.(params := LearnAll(s.params, s.observed[ssrc].params)) else s
  }

  function Prepare(s: State, ssrc: u32, now: nat): (r: State)
    ensures r.tiles == s.tiles && r.sources == s.sources && r.observed == s.observed && r.generation == s.generation
    ensures s.log <= r.log
  {
    var s := Learn(s, ssrc);
    s.(first := if s.first.None? then Some(now) else s.first)
  }

  /** A packet joins its group, or is refused by a budget. */
  ghost function TakeIn(s: State, p: Packet, now: nat, pick: Groups -> Key): (r: State)
    ensures r.tiles == s.tiles && r.sources == s.sources && r.observed == s.observed && r.generation == s.generation
    ensures s.log <= r.log
  {
    var s := Prepare(s, p.ssrc, now);
    if OverBudget(s, p) then RecordLoss(s, PendingByteLimit, Key(p.ssrc, p.timestamp))
    else Insert(MakeRoom(s, Key(p.ssrc, p.timestamp), pick), p, now)
  }

  ghost function PushSelected(s: State, p: Packet, now: nat, pick: Groups -> Key): (r: State)
    ensures r.tiles == s.tiles && r.sources == s.sources && r.observed == s.observed && r.generation == s.generation
    ensures s.log <= r.log
  {
    Poll(TakeIn(s, p, now, pick), now)
  }

  ghost function PushEach(s: State, ps: seq<Packet>, now: nat, pick: Groups -> Key): (r: State)
    ensures r.tiles == s.tiles && r.sources == s.sources && r.observed == s.observed && r.generation == s.generation
    ensures s.log <= r.log
    decreases |ps|
  {
    if ps == [] then s else PushEach(PushSelected(s, ps[0], now, pick), ps[1..], now, pick)
  }

  /** Replays what was kept of the source before its adoption, then the packet itself. */
  ghost function Deliver(s: State, p: Packet, now: nat, pick: Groups -> Key): State {
    if p.ssrc in s.observed then
      var o := s.observed[p.ssrc];
      var s := s.(observed := s.observed[p.ssrc := o.(prefix := [], prefixBytes := 0)]);
      PushEach(s, o.prefix + [p], now, pick)
    else PushEach(s, [p], now, pick)
  }

  ghost function Push(s: State, p: Packet, now: nat, pick: Groups -> Key): State {
    if |p.payload| < 2 then Poll(s, now)
    else
      var s := Observe(s, p, now);
      if p.ssrc in s.sources then Deliver(s, p, now, pick)
      else if |s.sources| < s.tiles then Deliver(Adopt(s, p.ssrc), p, now, pick)
      else if ShouldReplace(s, p.ssrc, now) then Deliver(Adopt(HandOver(s), p.ssrc), p, now, pick)
      else Poll(Stash(s, p), now)
  }

  // ----- poll

  /** Groups in the order in which they were created: those numbered below `n`. */
  ghost function KeysByOrder(groups: Groups, n: nat): (keys: seq<Key>)
    ensures forall k <- keys :: k in groups && groups[k].order < n
    ensures forall i, j :: 0 <= i < j < |keys| ==> groups[keys[i]].order < groups[keys[j]].order
  {
    if n == 0 then []
    else if k :| k in groups && groups[k].order == n - 1 then KeysByOrder(groups, n - 1) + [k]
    else KeysByOrder(groups, n - 1)
  }

  /** The last unit of this source was not before `key`: serial arithmetic on 32-bit timestamps. */
  predicate IsLate(s: State, key: Key) {
    key.ssrc in s.lastTs && !Advances(s.lastTs[key.ssrc], key.timestamp)
  }

  /** `to.wrapping_sub(from) as i32 > 0`. */
  predicate Advances(from: u32, to: u32) {
    0 < (to - from) % 0x1_0000_0000 < 0x8000_0000
  }

  predicate IsHeld(g: Group, now: nat) {
    if g.markerAt.Some? then SatSub(now, g.markerAt.value) < HOLD_MS
    else SatSub(now, g.lastPacket) < INCOMPLETE_IDLE_MS && SatSub(now, g.first) < MAX_GROUP_AGE_MS
  }

  function Distance(end: u16, q: u16): nat {
    (end - q) % 0x1_0000
  }

  /** The packets at a distance below `d` before `end`, farthest first. */
  function InOrder(packets: map<u16, Packet>, end: u16, d: nat): (ps: seq<Packet>)
    requires d <= 0x1_0000
  {
    if d == 0 then []
    else
      var q := (end - (d - 1)) % 0x1_0000;
      (if q in packets then [packets[q]] else []) + InOrder(packets, end, d - 1)
  }

  predicate Adjacent(ps: seq<Packet>) {
    forall i :: 0 < i < |ps| ==> ps[i].seqno == (ps[i - 1].seqno + 1) % 0x1_0000
  }

  function Payloads(ps: seq<Packet>): (b: seq<seq<byte>>)
    ensures |b| == |ps| && forall i :: 0 <= i < |ps| ==> b[i] == ps[i].payload
  {
    seq(|ps|, i requires 0 <= i < |ps| => ps[i].payload)
  }

  /** The Apple framing is assumed until a parameter-set aggregate has shown otherwise. */
  function AppleFraming(s: State, ssrc: u32): bool {
    if ssrc in s.observed && s.observed[ssrc].donl.Some? then s.observed[ssrc].donl.value else true
  }

  predicate IsParam(n: Nal) {
    |n| > 0 && 32 <= Kind(n[0]) <= 34
  }

  /** A coded slice that is long enough to hold its first header bit. */
  predicate IsVcl(n: Nal) {
    |n| >= 3 && Kind(n[0]) <= 31
  }

  predicate IsFirstSlice(n: Nal) {
    IsVcl(n) && n[2] >= 128
  }

  predicate IsKeySlice(n: Nal) {
    IsVcl(n) && 16 <= Kind(n[0]) <= 21
  }

  /** The slices of a picture, each behind a start code, in order. */
  function VclData(nals: seq<Nal>): seq<byte> {
    if nals == [] then []
    else (if IsVcl(nals[0]) then START_CODE + nals[0] else []) + VclData(nals[1..])
  }

  function ParamsIn(nals: seq<Nal>): seq<Nal> {
    if nals == [] then []
    else (if IsParam(nals[0]) && |nals[0]| <= 65536 then [nals[0]] else []) + ParamsIn(nals[1..])
  }

  /** The index of `x`, or the length when it is absent: the source unwraps a binary search here. */
  function IndexOf(sources: seq<u32>, x: u32): (i: nat)
    ensures i <= |sources|
    ensures x in sources ==> i < |sources| && sources[i] == x
  {
    if sources == [] then 0 else if sources[0] == x then 0 else 1 + IndexOf(sources[1..], x)
  }

  function Emit(s: State, key: Key, nals: seq<Nal>, donl: u16): State {
    var isKey := exists n <- nals :: IsKeySlice(n);
    var data := if isKey then ParamPrefix(s.params) + VclData(nals) else VclData(nals);
    var unit := AccessUnit(s.generation, s.lossEpoch, data, IndexOf(s.sources, key.ssrc), s.nextPts, key.timestamp,
                           donl, isKey);
    s.(haveKey := s.haveKey || isKey, nextPts := s.nextPts + 1, lastTs := s.lastTs[key.ssrc := key.timestamp],
       log := s.log + [Emitted(key.ssrc, unit)])
  }

  function Present(s: State, key: Key, nals: seq<Nal>, donl: u16): (r: State)
    ensures r.tiles == s.tiles && r.sources == s.sources && r.observed == s.observed && r.generation == s.generation
    ensures r.groups == s.groups && r.nextGroup == s.nextGroup && r.first == s.first && s.log <= r.log
  {
    var s := s.(params := LearnAll(s.params, ParamsIn(nals)));
    if !exists n <- nals :: IsVcl(n) then s
    else if !exists n <- nals :: IsFirstSlice(n) then RecordLoss(s, MissingFirstSlice, key)
    else if !s.haveKey && !exists n <- nals :: IsKeySlice(n) then s
    else Emit(s, key, nals, donl)
  }

  /** What becomes of a group whose hold time is over. */
  function Assemble(s: State, key: Key, g: Group): (r: State)
    ensures r.tiles == s.tiles && r.sources == s.sources && r.observed == s.observed && r.generation == s.generation
    ensures r.groups == s.groups && r.nextGroup == s.nextGroup && r.first == s.first && s.log <= r.log
  {
    if g.marker.None? then RecordLoss(s, MissingMarker, key)
    else
      var ps := InOrder(g.packets, g.marker.value, 0x1_0000);
      if !Adjacent(ps) then RecordLoss(s, SequenceGap, key)
      else
        match Reassembled(Payloads(ps), AppleFraming(s, key.ssrc))
        case Failure(reason) => RecordLoss(s, reason, key)
        case Success(v) => Present(s, key, v.0, v.1)
  }

  function DropStale(s: State, key: Key): State {
    s.(groups := s.groups - {key}, dropped := s.dropped + 1, log := s.log + [Stale(key)])
  }

  function PollEach(s: State, keys: seq<Key>, now: nat): (r: State)
    ensures r.tiles == s.tiles && r.sources == s.sources && r.observed == s.observed && r.generation == s.generation
    ensures r.nextGroup == s.nextGroup && r.first == s.first && s.log <= r.log
    decreases |keys|
  {
    if keys == [] || keys[0] !in s.groups then s
    else
      var key := keys[0];
      var g := s.groups[key];
      if IsLate(s, key) then PollEach(DropStale(s, key), keys[1..], now)
      else if IsHeld(g, now) then s
      else PollEach(Assemble(s.(groups := s.groups - {key}), key, g), keys[1..], now)
  }

  predicate Discovering(s: State, now: nat) {
    |s.sources| < s.tiles && SatSub(now, if s.first.Some? then s.first.value else now) < DISCOVERY_MS
  }

  ghost function Poll(s: State, now: nat): (r: State)
    ensures r.tiles == s.tiles && r.sources == s.sources && r.observed == s.observed && r.generation == s.generation
    ensures r.nextGroup == s.nextGroup && r.first == s.first && s.log <= r.log
  {
    if Discovering(s, now) then s else PollEach(s, KeysByOrder(s.groups, s.nextGroup), now)
  }

  // ----- runs

  datatype Event = PushEvent(packet: Packet, now: nat, pick: Groups -> Key) | PollEvent(now: nat)

  ghost function Apply(s: State, e: Event): State {
    match e
    case PushEvent(p, now, pick) => Push(s, p, now, pick)
    case PollEvent(now) => Poll(s, now)
  }

  ghost function RunEvents(s: State, events: seq<Event>): State
    decreases |events|
  {
    if events == [] then s else RunEvents(Apply(s, events[0]), events[1..])
  }
}
