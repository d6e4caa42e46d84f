/**
 The decode and publish part of the session loop: which access units the decoder is fed, and which
 frames are published. Decoding is an opaque step whose outcome is a parameter.

 `trace` is a history variable: what became of every access unit, in order, and every publication.
 */
module SessionModel {
  import opened Bytes
  import opened Compositing
  import opened DepacketizerModel

  /** What creating a decoder, decoding a unit and reading the error counters came to. */
  datatype Decoded = Decoded(ready: bool, tiles: Option<seq<Tile>>, referenceErrors: nat, logErrors: nat)

  datatype Entry =
    | Skipped(unit: AccessUnit)
    | Fed(unit: AccessUnit, decoder: nat, opens: bool, tiles: seq<Tile>)
    | Failed(unit: AccessUnit, decoder: nat, opens: bool)
    | LossSeen
    | Published(frame: Canvas, decoder: nat, generation: nat, lossEpoch: nat)

  /** The loop's variables. `decoders` counts the decoders created; the last one is in use. */
  datatype Session = Session(needsKey: bool, dirty: bool, generation: Option<nat>, lossEpoch: nat, decoders: nat,
                             canvas: Canvas, trace: seq<Entry>)

  /** A step either continues or ends the session with an error. */
  datatype Outcome = Running(session: Session) | Stopped

  function Start(canvas: Canvas, decoders: nat): Session {
    Session(true, false, None, 0, decoders, canvas.(applied := []), [])
  }

  function Record(s: Session, e: Entry): Session {
    s.(trace := s.trace + [e])
  }

  /** A unit of another generation or loss epoch starts over. */
  function Stamp(s: Session, u: AccessUnit): Session {
    if s.generation != Some(u.generation) || s.lossEpoch != u.lossEpoch
    then s.(generation := Some(u.generation), lossEpoch := u.lossEpoch, needsKey := true, dirty := false)
    else s
  }

  /** The loop over the decoded tiles; the first refused one ends the session. */
  function Compose(s: Session, tiles: seq<Tile>): Outcome
    decreases |tiles|
  {
    if tiles == [] then Running(s)
    else if Refusal(s.canvas, tiles[0]).Some? then Stopped
    else
      var canvas := Updated(s.canvas, tiles[0]);
      Compose(s.(canvas := canvas, dirty := s.dirty || AllDrawn(canvas)), tiles[1..])
  }

  function Feed(s: Session, u: AccessUnit, d: Decoded): Outcome {
    var opens := s.needsKey;
    var s := if opens then s.(decoders := s.decoders + 1, canvas := s.canvas.(applied := [])) else s;
    if d.tiles.None? || d.referenceErrors > 0 || d.logErrors > 0
    then Running(Record(s, Failed(u, s.decoders, opens)).(needsKey := true, dirty := false))
    else
      var tiles := d.tiles.value;
      Compose(Record(s, Fed(u, s.decoders, opens, tiles)).(needsKey := s.needsKey && !(u.key && tiles != [])), tiles)
  }

  function OnUnit(s: Session, u: AccessUnit, d: Decoded): Outcome {
    var s := Stamp(s, u);
    if s.needsKey && !u.key then Running(Record(s, Skipped(u)))
    else if s.needsKey && !d.ready then Stopped
    else Feed(s, u, d)
  }

  /** After a batch: a loss recorded since the last unit counts, then a complete picture is published. */
  function OnBatchEnd(s: Session, lossEpoch: nat, cancelled: bool): Session {
    var s := if s.lossEpoch != lossEpoch
             then Record(s, LossSeen).(lossEpoch := lossEpoch, needsKey := true, dirty := false) else s;
    if s.dirty && !s.needsKey && !cancelled && s.generation.Some?
    then Record(s, Published(s.canvas, s.decoders, s.generation.value, s.lossEpoch)).(dirty := false)
    else s
  }

  // ----- reference chains

  /**
   The trace ends with an unbroken reference chain of decoder `d`: a key unit for which `d` was created and
   that it decoded to a picture, then only units decoded by `d`, all of generation `g` and loss epoch `e`.
   */
  predicate Chain(trace: seq<Entry>, d: nat, g: nat, e: nat) {
    trace != [] &&
    var before, last := trace[..|trace| - 1], trace[|trace| - 1];
    match last
    case Published(_, _, _, _) => Chain(before, d, g, e)
    case Fed(u, decoder, opens, tiles) =>
      && decoder == d && u.generation == g && u.lossEpoch == e
      && if opens then u.key && tiles != [] else Chain(before, d, g, e)
    case _ => false
  }

  /** The tiles decoded along the chain. */
  function ChainTiles(trace: seq<Entry>): seq<Tile> {
    if trace == [] then []
    else
      var before, last := trace[..|trace| - 1], trace[|trace| - 1];
      match last
      case Published(_, _, _, _) => ChainTiles(before)
      case Fed(_, _, opens, tiles) => if opens then tiles else ChainTiles(before) + tiles
      case _ => []
  }

  /** The units along the chain. */
  function ChainUnits(trace: seq<Entry>): seq<AccessUnit> {
    if trace == [] then []
    else
      var before, last := trace[..|trace| - 1], trace[|trace| - 1];
      match last
      case Published(_, _, _, _) => ChainUnits(before)
      case Fed(u, _, opens, _) => if opens then [u] else ChainUnits(before) + [u]
      case _ => []
  }

  function UnitsOf(trace: seq<Entry>): seq<AccessUnit> {
    if trace == [] then []
    else
      var before, last := trace[..|trace| - 1], trace[|trace| - 1];
      UnitsOf(before) + if last.Skipped? || last.Fed? || last.Failed? then [last.unit] else []
  }

  predicate DecodersBelow(trace: seq<Entry>, d: nat) {
    forall i :: 0 <= i < |trace| && (trace[i].Fed? || trace[i].Failed?) ==> trace[i].decoder < d
  }

  /** A unit goes to a new decoder only if it is a key unit, and otherwise continues the chain of the decoder in use. */
  predicate FeedOk(before: seq<Entry>, u: AccessUnit, decoder: nat, opens: bool) {
    if opens then u.key && DecodersBelow(before, decoder) else Chain(before, decoder, u.generation, u.lossEpoch)
  }

  predicate EntryOk(before: seq<Entry>, e: Entry) {
    match e
    case Fed(u, decoder, opens, _) => FeedOk(before, u, decoder, opens)
    case Failed(u, decoder, opens) => FeedOk(before, u, decoder, opens)
    case Published(frame, decoder, generation, lossEpoch) =>
      Chain(before, decoder, generation, lossEpoch) && frame.applied == ChainTiles(before) && AllDrawn(frame)
    case _ => true
  }

  predicate TraceOk(trace: seq<Entry>) {
    trace == [] || (TraceOk(trace[..|trace| - 1]) && EntryOk(trace[..|trace| - 1], trace[|trace| - 1]))
  }

  // ----- the invariant

  predicate SessionOk(s: Session) {
    && TraceOk(s.trace) && DecodersBelow(s.trace, s.decoders + 1) && CanvasOk(s.canvas)
    && (s.dirty ==> !s.needsKey && AllDrawn(s.canvas))
    && (!s.needsKey ==>
          && s.generation.Some? && Chain(s.trace, s.decoders, s.generation.value, s.lossEpoch)
          && s.canvas.applied == ChainTiles(s.trace))
  }

  lemma StartOk(canvas: Canvas, decoders: nat)
    requires CanvasOk(canvas)
    ensures SessionOk(Start(canvas, decoders))
  {
  }

  lemma Recorded(s: Session, e: Entry)
    ensures var t := Record(s, e).trace; t != [] && t[..|t| - 1] == s.trace && t[|t| - 1] == e
  {
  }

  lemma StampOk(s: Session, u: AccessUnit)
    requires SessionOk(s)
    ensures var t := Stamp(s, u);
            SessionOk(t) && t.trace == s.trace && t.generation == Some(u.generation) && t.lossEpoch == u.lossEpoch
  {
  }

  lemma AllDrawnGrows(c: Canvas, t: Tile)
    requires CanvasOk(c) && Refusal(c, t).None? && AllDrawn(c)
    ensures AllDrawn(Updated(c, t))
  {
    DrawnAfter(c, t);
  }

  /** Composing adds exactly the tiles, and what was complete stays complete. */
  lemma {:induction false} ComposeOk(s: Session, tiles: seq<Tile>)
    requires CanvasOk(s.canvas) && (s.dirty ==> AllDrawn(s.canvas)) && Compose(s, tiles).Running?
    ensures var t := Compose(s, tiles).session;
            && CanvasOk(t.canvas) && (t.dirty ==> AllDrawn(t.canvas)) && t.canvas.applied == s.canvas.applied + tiles
            && t == s.(canvas := t.canvas, dirty := t.dirty) && (tiles == [] ==> t == s)
    decreases |tiles|
  {
    if tiles == [] {
      assert s.canvas.applied + [] == s.canvas.applied;
    } else {
      var canvas := Updated(s.canvas, tiles[0]);
      UpdatedOk(s.canvas, tiles[0]);
      if s.dirty {
        AllDrawnGrows(s.canvas, tiles[0]);
      }
      hide CanvasOk, AllDrawn, Refusal;
      ComposeOk(s.(canvas := canvas, dirty := s.dirty || AllDrawn(canvas)), tiles[1..]);
      assert s.canvas.applied + [tiles[0]] + tiles[1..] == s.canvas.applied + tiles;
    }
  }

  lemma RecordFedOk(s: Session, u: AccessUnit, tiles: seq<Tile>, opens: bool)
    requires TraceOk(s.trace) && DecodersBelow(s.trace, s.decoders + 1) && FeedOk(s.trace, u, s.decoders, opens)
    ensures var t := Record(s, Fed(u, s.decoders, opens, tiles)).trace;
            && TraceOk(t) && DecodersBelow(t, s.decoders + 1)
            && ChainTiles(t) == (if opens then tiles else ChainTiles(s.trace) + tiles)
            && ((opens ==> tiles != []) ==> Chain(t, s.decoders, u.generation, u.lossEpoch))
  {
    Recorded(s, Fed(u, s.decoders, opens, tiles));
  }

  lemma RecordFailedOk(s: Session, u: AccessUnit, opens: bool)
    requires TraceOk(s.trace) && DecodersBelow(s.trace, s.decoders + 1) && FeedOk(s.trace, u, s.decoders, opens)
    ensures var t := Record(s, Failed(u, s.decoders, opens)).trace; TraceOk(t) && DecodersBelow(t, s.decoders + 1)
  {
    Recorded(s, Failed(u, s.decoders, opens));
  }

  lemma FeedKeeps(s: Session, u: AccessUnit, d: Decoded)
    requires SessionOk(s) && s.generation == Some(u.generation) && s.lossEpoch == u.lossEpoch && (s.needsKey ==> u.key)
    requires Feed(s, u, d).Running?
    ensures SessionOk(Feed(s, u, d).session)
  {
    hide Chain, ChainTiles, TraceOk, CanvasOk, AllDrawn, Compose;
    var opens := s.needsKey;
    var t := if opens then s.(decoders := s.decoders + 1, canvas := s.canvas.(applied := [])) else s;
    assert CanvasOk(t.canvas) by { EmptyCanvasOk(s.canvas); }
    RecordFailedOk(t, u, opens);
    if !(d.tiles.None? || d.referenceErrors > 0 || d.logErrors > 0) {
      var tiles := d.tiles.value;
      RecordFedOk(t, u, tiles, opens);
      var r := Record(t, Fed(u, t.decoders, opens, tiles)).(needsKey := t.needsKey && !(u.key && tiles != []));
      ComposeOk(r, tiles);
      assert [] + tiles == tiles;
    }
  }

  lemma EmptyCanvasOk(c: Canvas)
    requires CanvasOk(c)
    ensures CanvasOk(c.(applied := []))
  {
  }

  lemma OnUnitOk(s: Session, u: AccessUnit, d: Decoded)
    requires SessionOk(s) && OnUnit(s, u, d).Running?
    ensures SessionOk(OnUnit(s, u, d).session)
  {
    StampOk(s, u);
    var t := Stamp(s, u);
    if t.needsKey && !u.key {
      Recorded(t, Skipped(u));
    } else {
      hide SessionOk, Feed, Stamp;
      FeedKeeps(t, u, d);
    }
  }

  lemma LossSeenOk(s: Session, lossEpoch: nat)
    requires SessionOk(s)
    ensures SessionOk(Record(s, LossSeen).(lossEpoch := lossEpoch, needsKey := true, dirty := false))
  {
    Recorded(s, LossSeen);
  }

  lemma PublishOk(s: Session)
    requires SessionOk(s) && s.dirty
    ensures s.generation.Some?
    ensures SessionOk(Record(s, Published(s.canvas, s.decoders, s.generation.value, s.lossEpoch)).(dirty := false))
  {
    Recorded(s, Published(s.canvas, s.decoders, s.generation.value, s.lossEpoch));
  }

  lemma OnBatchEndOk(s: Session, lossEpoch: nat, cancelled: bool)
    requires SessionOk(s)
    ensures SessionOk(OnBatchEnd(s, lossEpoch, cancelled))
  {
    LossSeenOk(s, lossEpoch);
    var t := if s.lossEpoch != lossEpoch
             then Record(s, LossSeen).(lossEpoch := lossEpoch, needsKey := true, dirty := false) else s;
    if t.dirty {
      PublishOk(t);
    }
    hide SessionOk, Record;
  }
}
