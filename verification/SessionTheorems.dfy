/**
 What the decoder is fed and what is published, over whole runs, and together with the depacketizer.
 */
module SessionTheorems {
  import opened Bytes
  import opened Compositing
  import opened DepacketizerModel
  import opened DepacketizerInvariants
  import opened SessionModel
  import H = DepacketizerHistory

  // ----- one session

  /** Entry `k` continues the chain of decoder `d` in generation `g` and loss epoch `e`. */
  predicate Continues(entry: Entry, d: nat, g: nat, e: nat) {
    || entry.Published?
    || (entry.Fed? && !entry.opens && entry.decoder == d && entry.unit.generation == g && entry.unit.lossEpoch == e)
  }

  predicate OpensChain(entry: Entry, d: nat, g: nat, e: nat) {
    && entry.Fed? && entry.opens && entry.decoder == d && entry.unit.key && entry.tiles != []
    && entry.unit.generation == g && entry.unit.lossEpoch == e
  }

  /** A chain starts at a key unit of a new decoder; from there on that decoder decoded every unit, without error. */
  lemma {:induction false} ChainMeans(trace: seq<Entry>, d: nat, g: nat, e: nat) returns (start: nat)
    requires Chain(trace, d, g, e)
    ensures start < |trace| && OpensChain(trace[start], d, g, e)
    ensures forall k :: start < k < |trace| ==> Continues(trace[k], d, g, e)
    decreases |trace|
  {
    var last := trace[|trace| - 1];
    if last.Fed? && last.opens {
      start := |trace| - 1;
    } else {
      start := ChainMeans(trace[..|trace| - 1], d, g, e);
    }
  }

  lemma {:induction false} PrefixOk(trace: seq<Entry>, i: nat)
    requires TraceOk(trace) && i < |trace|
    ensures TraceOk(trace[..i]) && EntryOk(trace[..i], trace[i])
    decreases |trace|
  {
    var before := trace[..|trace| - 1];
    if i < |before| {
      PrefixOk(before, i);
      assert before[..i] == trace[..i];
    }
  }

  /**
   Every unit that does not open a decoder, in particular every non-key unit given to a decoder, follows a key unit
   that the same decoder decoded, with the same generation and loss epoch, and every unit in between was fed to
   that decoder without error.
   */
  lemma NonKeyFollowsKey(trace: seq<Entry>, i: nat) returns (start: nat)
    requires TraceOk(trace) && i < |trace| && (trace[i].Fed? || trace[i].Failed?)
    requires !(trace[i].opens && trace[i].unit.key)
    ensures start < i && OpensChain(trace[start], trace[i].decoder, trace[i].unit.generation, trace[i].unit.lossEpoch)
    ensures forall k :: start < k < i ==>
              Continues(trace[k], trace[i].decoder, trace[i].unit.generation, trace[i].unit.lossEpoch)
  {
    PrefixOk(trace, i);
    start := ChainMeans(trace[..i], trace[i].decoder, trace[i].unit.generation, trace[i].unit.lossEpoch);
  }

  /** No decoder is opened twice. */
  lemma DecodersAreNew(trace: seq<Entry>, i: nat, j: nat)
    requires TraceOk(trace) && i < j < |trace|
    requires (trace[i].Fed? || trace[i].Failed?) && (trace[j].Fed? || trace[j].Failed?) && trace[j].opens
    ensures trace[i].decoder < trace[j].decoder
  {
    PrefixOk(trace, j);
    assert trace[..j][i] == trace[i];
  }

  /** A published frame is complete, and made of the tiles of one unbroken chain and of nothing else. */
  lemma PublishedFromChain(trace: seq<Entry>, i: nat) returns (start: nat)
    requires TraceOk(trace) && i < |trace| && trace[i].Published?
    ensures AllDrawn(trace[i].frame) && trace[i].frame.applied == ChainTiles(trace[..i])
    ensures start < i && OpensChain(trace[start], trace[i].decoder, trace[i].generation, trace[i].lossEpoch)
    ensures forall k :: start < k < i ==> Continues(trace[k], trace[i].decoder, trace[i].generation, trace[i].lossEpoch)
  {
    PrefixOk(trace, i);
    start := ChainMeans(trace[..i], trace[i].decoder, trace[i].generation, trace[i].lossEpoch);
  }

  datatype SessionEvent =
    | UnitEvent(unit: AccessUnit, decoded: Decoded)
    | BatchEnd(lossEpoch: nat, cancelled: bool)
    | Reconfigured(canvas: Canvas)

  /** A reconfiguration starts over with a new canvas, a new decoder and a new depacketizer. */
  function Step(s: Session, e: SessionEvent): Outcome {
    match e
    case UnitEvent(u, d) => OnUnit(s, u, d)
    case BatchEnd(epoch, cancelled) => Running(OnBatchEnd(s, epoch, cancelled))
    case Reconfigured(canvas) => Running(Start(canvas, s.decoders + 1))
  }

  function RunSession(s: Session, events: seq<SessionEvent>): Outcome
    decreases |events|
  {
    if events == [] then Running(s)
    else
      match Step(s, events[0])
      case Stopped => Stopped
      case Running(t) => RunSession(t, events[1..])
  }

  /** Every run keeps the invariant; in particular, a dirty session never waits for a key unit. */
  lemma {:induction false} RunSessionOk(s: Session, events: seq<SessionEvent>)
    requires SessionOk(s) && forall e <- events :: e.Reconfigured? ==> CanvasOk(e.canvas)
    requires RunSession(s, events).Running?
    ensures SessionOk(RunSession(s, events).session)
    ensures RunSession(s, events).session.dirty ==> !RunSession(s, events).session.needsKey
    decreases |events|
  {
    if events != [] {
      hide SessionOk, OnUnit, OnBatchEnd, CanvasOk;
      match events[0] {
        case UnitEvent(u, d) => OnUnitOk(s, u, d);
        case BatchEnd(epoch, cancelled) => OnBatchEndOk(s, epoch, cancelled);
        case Reconfigured(canvas) =>
          assert events[0] in events;
          StartOk(canvas, s.decoders + 1);
      }
      RunSessionOk(Step(s, events[0]).session, events[1..]);
    }
    DirtyHasKey(RunSession(s, events).session);
  }

  lemma DirtyHasKey(s: Session)
    requires SessionOk(s)
    ensures s.dirty ==> !s.needsKey
  {
  }

  // ----- the session behind its depacketizer

  lemma {:induction false} UnitsPrefix(a: seq<Output>, b: seq<Output>)
    requires a <= b
    ensures Units(a) <= Units(b)
    decreases |b|
  {
    if |a| < |b| {
      UnitsPrefix(a, b[..|b| - 1]);
    } else {
      assert a == b;
    }
  }

  lemma DeliverGrows(s: State, p: Packet, now: nat, pick: Groups -> Key)
    ensures s.log <= Deliver(s, p, now, pick).log
  {
    hide PushEach;
  }

  lemma PushGrows(s: State, p: Packet, now: nat, pick: Groups -> Key)
    ensures s.log <= Push(s, p, now, pick).log
  {
    hide Deliver, Poll, ShouldReplace, Inferred, Evict, InsertSorted;
    if |p.payload| >= 2 {
      var o := Observe(s, p, now);
      DeliverGrows(o, p, now, pick);
      DeliverGrows(Adopt(o, p.ssrc), p, now, pick);
      DeliverGrows(Adopt(HandOver(o), p.ssrc), p, now, pick);
    }
  }

  lemma {:induction false} RunGrows(s: State, events: seq<Event>)
    ensures s.log <= RunEvents(s, events).log
    decreases |events|
  {
    hide Push, Poll;
    if events != [] {
      var e := events[0];
      if e.PushEvent? {
        PushGrows(s, e.packet, e.now, e.pick);
      }
      RunGrows(Apply(s, e), events[1..]);
    }
  }

  function HandleAll(s: Session, units: seq<AccessUnit>, decodes: nat -> Decoded): Outcome
    decreases |units|
  {
    if units == [] then Running(s)
    else
      match HandleAll(s, units[..|units| - 1], decodes)
      case Stopped => Stopped
      case Running(t) => OnUnit(t, units[|units| - 1], decodes(|units| - 1))
  }

  /** Once stopped, later units change nothing. */
  lemma {:induction false} StoppedStays(s: Session, units: seq<AccessUnit>, decodes: nat -> Decoded, i: nat)
    requires i <= |units| && HandleAll(s, units[..i], decodes).Stopped?
    ensures HandleAll(s, units, decodes).Stopped?
    decreases |units|
  {
    hide OnUnit;
    if i == |units| {
      assert units[..i] == units;
    } else {
      var init := units[..|units| - 1];
      assert init[..i] == units[..i];
      StoppedStays(s, init, decodes, i);
    }
  }

  lemma {:induction false} ComposeKeepsTrace(s: Session, tiles: seq<Tile>)
    requires Compose(s, tiles).Running?
    ensures Compose(s, tiles).session.trace == s.trace
    decreases |tiles|
  {
    if tiles != [] {
      hide AllDrawn, Refusal;
      var canvas := Updated(s.canvas, tiles[0]);
      ComposeKeepsTrace(s.(canvas := canvas, dirty := s.dirty || AllDrawn(canvas)), tiles[1..]);
    }
  }

  lemma RecordUnits(s: Session, e: Entry)
    ensures UnitsOf(Record(s, e).trace) == UnitsOf(s.trace) + if e.Skipped? || e.Fed? || e.Failed? then [e.unit] else []
  {
    Recorded(s, e);
  }

  /** Every unit leaves exactly one mark in the trace. */
  lemma OnUnitMarks(s: Session, u: AccessUnit, d: Decoded)
    requires OnUnit(s, u, d).Running?
    ensures UnitsOf(OnUnit(s, u, d).session.trace) == UnitsOf(s.trace) + [u]
  {
    hide UnitsOf, Compose;
    var t := Stamp(s, u);
    RecordUnits(t, Skipped(u));
    if !(t.needsKey && !u.key) {
      var v := if t.needsKey then t.(decoders := t.decoders + 1, canvas := t.canvas.(applied := [])) else t;
      RecordUnits(v, Failed(u, v.decoders, t.needsKey));
      if !(d.tiles.None? || d.referenceErrors > 0 || d.logErrors > 0) {
        var tiles := d.tiles.value;
        RecordUnits(v, Fed(u, v.decoders, t.needsKey, tiles));
        var fed := Record(v, Fed(u, v.decoders, t.needsKey, tiles));
        ComposeKeepsTrace(fed.(needsKey := v.needsKey && !(u.key && tiles != [])), tiles);
      }
    }
  }

  lemma OnBatchEndMarks(s: Session, epoch: nat, cancelled: bool)
    ensures UnitsOf(OnBatchEnd(s, epoch, cancelled).trace) == UnitsOf(s.trace)
  {
    RecordUnits(s, LossSeen);
    var t := if s.lossEpoch != epoch
             then Record(s, LossSeen).(lossEpoch := epoch, needsKey := true, dirty := false) else s;
    if t.generation.Some? {
      RecordUnits(t, Published(t.canvas, t.decoders, t.generation.value, t.lossEpoch));
    }
    hide UnitsOf;
    assert UnitsOf(s.trace) + [] == UnitsOf(s.trace);
  }

  lemma {:induction false} HandleAllOk(s: Session, units: seq<AccessUnit>, decodes: nat -> Decoded)
    requires SessionOk(s) && HandleAll(s, units, decodes).Running?
    ensures var t := HandleAll(s, units, decodes).session; SessionOk(t) && UnitsOf(t.trace) == UnitsOf(s.trace) + units
    decreases |units|
  {
    hide SessionOk, OnUnit, UnitsOf;
    if units == [] {
      assert UnitsOf(s.trace) + [] == UnitsOf(s.trace);
    } else {
      var init := units[..|units| - 1];
      HandleAllOk(s, init, decodes);
      var t := HandleAll(s, init, decodes).session;
      OnUnitOk(t, units[|units| - 1], decodes(|units| - 1));
      OnUnitMarks(t, units[|units| - 1], decodes(|units| - 1));
      assert UnitsOf(s.trace) + init + [units[|units| - 1]] == UnitsOf(s.trace) + units;
    }
  }

  /** The depacketizer and the session that consumes its units. */
  datatype Pipeline = Pipeline(depacketizer: State, session: Session)

  datatype Batched = Continuing(pipeline: Pipeline) | Ended

  /** One pass of the loop: datagrams are taken in, their units handled, then the batch is closed. */
  ghost function Batch(p: Pipeline, events: seq<Event>, decodes: nat -> Decoded, cancelled: bool): Batched {
    var d := RunEvents(p.depacketizer, events);
    RunGrows(p.depacketizer, events);
    UnitsPrefix(p.depacketizer.log, d.log);
    match HandleAll(p.session, Units(d.log)[|Units(p.depacketizer.log)|..], decodes)
    case Stopped => Ended
    case Running(s) => Continuing(Pipeline(d, OnBatchEnd(s, d.lossEpoch, cancelled)))
  }

  ghost predicate PipelineOk(p: Pipeline) {
    Inv(p.depacketizer) && SessionOk(p.session) && UnitsOf(p.session.trace) == Units(p.depacketizer.log)
  }

  lemma NewPipelineOk(tileCount: nat, canvas: Canvas, decoders: nat)
    requires CanvasOk(canvas)
    ensures PipelineOk(Pipeline(Init(tileCount), Start(canvas, decoders)))
  {
    InitInv(tileCount);
    StartOk(canvas, decoders);
  }

  lemma BatchOk(p: Pipeline, events: seq<Event>, decodes: nat -> Decoded, cancelled: bool)
    requires PipelineOk(p) && (forall e <- events :: EventOk(e)) && Batch(p, events, decodes, cancelled).Continuing?
    ensures PipelineOk(Batch(p, events, decodes, cancelled).pipeline)
  {
    hide Inv, SessionOk, Units, UnitsOf, OnBatchEnd, HandleAll, RunEvents;
    var t := Turn(events, decodes, cancelled);
    HandledOk(p, t);
    OnBatchEndOk(Handled(p, t).session, RunEvents(p.depacketizer, events).lossEpoch, cancelled);
    OnBatchEndMarks(Handled(p, t).session, RunEvents(p.depacketizer, events).lossEpoch, cancelled);
  }

  /** What one pass of the loop met. */
  datatype Turn = Turn(events: seq<Event>, decodes: nat -> Decoded, cancelled: bool)

  ghost function Batches(p: Pipeline, turns: seq<Turn>): Batched
    decreases |turns|
  {
    if turns == [] then Continuing(p)
    else
      match Batch(p, turns[0].events, turns[0].decodes, turns[0].cancelled)
      case Ended => Ended
      case Continuing(q) => Batches(q, turns[1..])
  }

  /** Over every run of the loop, the trace and the depacketizer agree, and both keep their invariants. */
  lemma {:induction false} PipelineRuns(p: Pipeline, turns: seq<Turn>)
    requires PipelineOk(p) && forall t <- turns :: forall e <- t.events :: EventOk(e)
    ensures Batches(p, turns).Continuing? ==> PipelineOk(Batches(p, turns).pipeline)
    decreases |turns|
  {
    hide PipelineOk, Batch, EventOk;
    if turns != [] {
      var t := turns[0];
      assert t in turns;
      var b := Batch(p, t.events, t.decodes, t.cancelled);
      if b.Continuing? {
        BatchOk(p, t.events, t.decodes, t.cancelled);
        PipelineRuns(b.pipeline, turns[1..]);
      }
    }
  }

  // ----- no loss behind a published frame

  lemma {:induction false} ChainUnitsSuffix(trace: seq<Entry>, d: nat, g: nat, e: nat)
    requires Chain(trace, d, g, e)
    ensures var c, all := ChainUnits(trace), UnitsOf(trace);
            && 0 < |c| <= |all| && all[|all| - |c|..] == c
            && c[0].key && forall u <- c :: u.generation == g && u.lossEpoch == e
    decreases |trace|
  {
    var last := trace[|trace| - 1];
    if !(last.Fed? && last.opens) {
      ChainUnitsSuffix(trace[..|trace| - 1], d, g, e);
    }
  }

  /** The log entry that handed out unit number `n`. */
  lemma {:induction false} EmissionOf(log: seq<Output>, n: nat) returns (i: nat)
    requires n < |Units(log)|
    ensures i < |log| && log[i].Emitted? && log[i].unit == Units(log)[n]
    decreases |log|
  {
    var before := log[..|log| - 1];
    if n < |Units(before)| {
      i := EmissionOf(before, n);
    } else {
      i := |log| - 1;
    }
  }

  /**
   Whenever a batch ends with a publication, the frame consists of the tiles of an unbroken chain that starts at a
   key unit and runs to the last unit the depacketizer has handed out, and the depacketizer has recorded no loss
   since it handed out that key unit, not even after the last unit.
   */
  lemma PublishedFrameHasNoLoss(d: State, s: Session, cancelled: bool) returns (i: nat)
    requires Inv(d) && SessionOk(s) && UnitsOf(s.trace) == Units(d.log)
    requires OnBatchEnd(s, d.lossEpoch, cancelled).trace != s.trace && !OnBatchEnd(s, d.lossEpoch, cancelled).needsKey
    ensures var r := OnBatchEnd(s, d.lossEpoch, cancelled);
            && r.trace[..|r.trace| - 1] == s.trace && r.trace[|r.trace| - 1].Published?
            && r.trace[|r.trace| - 1].frame.applied == ChainTiles(s.trace)
    ensures i < |d.log| && d.log[i].Emitted? && d.log[i].unit.key
    ensures d.log[i].unit.pts < |Units(d.log)| && ChainUnits(s.trace) == Units(d.log)[d.log[i].unit.pts..]
    ensures forall k :: i <= k < |d.log| ==> !d.log[k].Lost?
  {
    hide Inv, SessionOk, Units, UnitsOf, Losses, OnBatchEnd, ChainUnits, ChainTiles, LogOk, Chain, AllDrawn;
    PublicationIs(s, d.lossEpoch, cancelled);
    ChainUnitsSuffix(s.trace, s.decoders, s.generation.value, s.lossEpoch);
    i := ChainBegins(d, ChainUnits(s.trace));
  }

  /** A publication needs an unbroken chain of the depacketizer's epoch. */
  lemma PublicationIs(s: Session, epoch: nat, cancelled: bool)
    requires SessionOk(s)
    requires OnBatchEnd(s, epoch, cancelled).trace != s.trace && !OnBatchEnd(s, epoch, cancelled).needsKey
    ensures s.lossEpoch == epoch && s.generation.Some?
    ensures Chain(s.trace, s.decoders, s.generation.value, s.lossEpoch)
    ensures var r := OnBatchEnd(s, epoch, cancelled);
            && r.trace[..|r.trace| - 1] == s.trace && r.trace[|r.trace| - 1].Published?
            && r.trace[|r.trace| - 1].frame.applied == ChainTiles(s.trace)
  {
    hide Chain, AllDrawn, ChainTiles;
    assert s.lossEpoch == epoch && s.dirty && !s.needsKey;
    Recorded(s, Published(s.canvas, s.decoders, s.generation.value, s.lossEpoch));
  }

  /** The first of the last units is handed out by an entry behind which no loss is recorded. */
  lemma ChainBegins(d: State, c: seq<AccessUnit>) returns (i: nat)
    requires Inv(d) && 0 < |c| <= |Units(d.log)| && Units(d.log)[|Units(d.log)| - |c|..] == c && c[0].key
    requires forall u <- c :: u.lossEpoch == d.lossEpoch
    ensures i < |d.log| && d.log[i].Emitted? && d.log[i].unit.key
    ensures d.log[i].unit.pts < |Units(d.log)| && c == Units(d.log)[d.log[i].unit.pts..]
    ensures forall k :: i <= k < |d.log| ==> !d.log[k].Lost?
  {
    InvParts(d);
    StampsAre(d);
    hide Inv, HistoryOk, Units, Losses, LogOk;
    var all := Units(d.log);
    var n := |all| - |c|;
    i := EmissionOf(d.log, n);
    assert all[n] == c[0] && c[0] in c;
    H.PrefixStamped(d.log, d.tiles, i);
    H.UnitsNumbered(d.log, d.tiles);
    H.CountersGrow(d.log, i, |d.log|);
    assert d.log[..|d.log|] == d.log;
  }

  lemma StampsAre(d: State)
    requires HistoryOk(d)
    ensures LogOk(d.log, d.tiles) && d.lossEpoch == Losses(d.log)
  {
  }

  // ----- every publication of every run

  /** The session when the units of a turn have been handled, before the batch is closed. */
  ghost function Handled(p: Pipeline, t: Turn): Outcome {
    var d := RunEvents(p.depacketizer, t.events);
    RunGrows(p.depacketizer, t.events);
    UnitsPrefix(p.depacketizer.log, d.log);
    HandleAll(p.session, Units(d.log)[|Units(p.depacketizer.log)|..], t.decodes)
  }

  /** The turn ends by publishing a frame. */
  ghost predicate Publishes(p: Pipeline, t: Turn) {
    && Handled(p, t).Running?
    && var s := Handled(p, t).session;
       var trace := OnBatchEnd(s, RunEvents(p.depacketizer, t.events).lossEpoch, t.cancelled).trace;
       |trace| > |s.trace| && trace[|trace| - 1].Published?
  }

  lemma PublishesIs(s: Session, epoch: nat, cancelled: bool)
    requires var trace := OnBatchEnd(s, epoch, cancelled).trace; |trace| > |s.trace| && trace[|trace| - 1].Published?
    ensures OnBatchEnd(s, epoch, cancelled).trace != s.trace && !OnBatchEnd(s, epoch, cancelled).needsKey
  {
  }

  /** What is behind a published frame: everything handed out since some key unit, and no loss recorded since. */
  ghost predicate NoLossBehind(trace: seq<Entry>, log: seq<Output>, i: nat) {
    && trace != [] && trace[|trace| - 1].Published?
    && (var before, frame := trace[..|trace| - 1], trace[|trace| - 1].frame;
        && AllDrawn(frame) && frame.applied == ChainTiles(before)
        && i < |log| && log[i].Emitted? && log[i].unit.key && log[i].unit.pts < |Units(log)|
        && ChainUnits(before) == Units(log)[log[i].unit.pts..])
    && forall k :: i <= k < |log| ==> !log[k].Lost?
  }

  lemma HandledOk(p: Pipeline, t: Turn)
    requires PipelineOk(p) && (forall e <- t.events :: EventOk(e)) && Handled(p, t).Running?
    ensures var d, s := RunEvents(p.depacketizer, t.events), Handled(p, t).session;
            Inv(d) && SessionOk(s) && UnitsOf(s.trace) == Units(d.log)
  {
    hide Inv, SessionOk, Units, UnitsOf, RunEvents, HandleAll;
    var d := RunEvents(p.depacketizer, t.events);
    RunGrows(p.depacketizer, t.events);
    UnitsPrefix(p.depacketizer.log, d.log);
    RunInv(p.depacketizer, t.events);
    var news := Units(d.log)[|Units(p.depacketizer.log)|..];
    HandleAllOk(p.session, news, t.decodes);
    assert Units(p.depacketizer.log) + news == Units(d.log);
  }

  lemma TurnPublishes(p: Pipeline, t: Turn) returns (i: nat)
    requires PipelineOk(p) && (forall e <- t.events :: EventOk(e)) && Publishes(p, t)
    ensures var b := Batch(p, t.events, t.decodes, t.cancelled);
            b.Continuing? && NoLossBehind(b.pipeline.session.trace, b.pipeline.depacketizer.log, i)
  {
    hide PipelineOk, Inv, SessionOk, Units, UnitsOf, OnBatchEnd, RunEvents, HandleAll, ChainTiles, ChainUnits, Chain,
      AllDrawn;
    HandledOk(p, t);
    var d, s := RunEvents(p.depacketizer, t.events), Handled(p, t).session;
    PublishesIs(s, d.lossEpoch, t.cancelled);
    OnBatchEndOk(s, d.lossEpoch, t.cancelled);
    i := PublishedFrameHasNoLoss(d, s, t.cancelled);
    var r := OnBatchEnd(s, d.lossEpoch, t.cancelled);
    TraceOfSession(r);
    var start := PublishedFromChain(r.trace, |r.trace| - 1);
  }

  lemma TraceOfSession(s: Session)
    requires SessionOk(s)
    ensures TraceOk(s.trace)
  {
  }

  /**
   From a new depacketizer and a new session, over every list of turns: every turn that ends in a publication shows a
   complete frame made of all units since some key unit, with no loss recorded since that unit was handed out.
   */
  lemma PublicationsHaveNoLoss(tileCount: nat, canvas: Canvas, decoders: nat, turns: seq<Turn>, n: nat) returns (i: nat)
    requires CanvasOk(canvas) && n < |turns| && forall t <- turns :: forall e <- t.events :: EventOk(e)
    requires Batches(Pipeline(Init(tileCount), Start(canvas, decoders)), turns[..n]).Continuing?
    requires Publishes(Batches(Pipeline(Init(tileCount), Start(canvas, decoders)), turns[..n]).pipeline, turns[n])
    ensures var p := Batches(Pipeline(Init(tileCount), Start(canvas, decoders)), turns[..n]).pipeline;
            var b := Batch(p, turns[n].events, turns[n].decodes, turns[n].cancelled);
            b.Continuing? && NoLossBehind(b.pipeline.session.trace, b.pipeline.depacketizer.log, i)
  {
    hide PipelineOk, Publishes, Batch, Batches, NoLossBehind, EventOk, Init, Start, CanvasOk;
    NewPipelineOk(tileCount, canvas, decoders);
    assert turns[n] in turns;
    forall t <- turns[..n] ensures forall e <- t.events :: EventOk(e) {
      assert t in turns;
    }
    PipelineRuns(Pipeline(Init(tileCount), Start(canvas, decoders)), turns[..n]);
    i := TurnPublishes(Batches(Pipeline(Init(tileCount), Start(canvas, decoders)), turns[..n]).pipeline, turns[n]);
  }
}
