/** What the session does with every unit and at the end of every batch, branch by branch: it decodes, and it shows. */
module SessionProgress {
  import opened Bytes
  import opened Compositing
  import opened DepacketizerModel
  import opened SessionModel
  import opened SessionTheorems

  // ----- decoded bands

  /** Every band has an index on the canvas, an allowed size, and the height of the first one ever applied. */
  predicate Fit(c: Canvas, tiles: seq<Tile>) {
    forall i :: 0 <= i < |tiles| ==>
      && tiles[i].index < c.tiles && Sized(tiles[i])
      && tiles[i].height == (if c.applied != [] then c.applied[0].height else tiles[0].height)
  }

  lemma FitRest(c: Canvas, tiles: seq<Tile>)
    requires tiles != []
    ensures Fit(c, tiles) <==> Refusal(c, tiles[0]).None? && Fit(Updated(c, tiles[0]), tiles[1..])
  {
    hide Sized, Refusal;
    AcceptsExactlyFitting(c, tiles[0]);
    var n := Updated(c, tiles[0]);
    assert n.applied[0] == if c.applied != [] then c.applied[0] else tiles[0];
    if Fit(c, tiles) {
      forall i | 0 <= i < |tiles[1..]|
        ensures tiles[1..][i].index < n.tiles && Sized(tiles[1..][i]) && tiles[1..][i].height == n.applied[0].height
      {
        assert tiles[1..][i] == tiles[i + 1];
      }
    }
    if Refusal(c, tiles[0]).None? && Fit(n, tiles[1..]) {
      forall i | 0 <= i < |tiles|
        ensures tiles[i].index < c.tiles && Sized(tiles[i])
                && tiles[i].height == (if c.applied != [] then c.applied[0].height else tiles[0].height)
      {
        if i > 0 {
          assert tiles[1..][i - 1] == tiles[i];
        }
      }
    }
  }

  /** The bands are composed exactly if they all fit; the canvas is then news if it is complete after the last one. */
  lemma {:induction false} ComposeIff(s: Session, tiles: seq<Tile>)
    requires CanvasOk(s.canvas)
    ensures Compose(s, tiles).Running? <==> Fit(s.canvas, tiles)
    ensures Fit(s.canvas, tiles) ==>
              var c := s.canvas.(applied := s.canvas.applied + tiles);
              Compose(s, tiles).session == s.(canvas := c, dirty := s.dirty || (tiles != [] && AllDrawn(c)))
    decreases |tiles|
  {
    hide CanvasOk, AllDrawn, Refusal, Sized;
    if tiles == [] {
      assert s.canvas.applied + [] == s.canvas.applied;
    } else {
      FitRest(s.canvas, tiles);
      if Refusal(s.canvas, tiles[0]).None? {
        UpdatedOk(s.canvas, tiles[0]);
        var c := Updated(s.canvas, tiles[0]);
        var n := s.(canvas := c, dirty := s.dirty || AllDrawn(c));
        ComposeIff(n, tiles[1..]);
        assert s.canvas.applied + [tiles[0]] + tiles[1..] == s.canvas.applied + tiles;
        if Fit(c, tiles[1..]) {
          DrawnStays(c, tiles[1..]);
        }
      }
    }
  }

  lemma {:induction false} DrawnStays(c: Canvas, tiles: seq<Tile>)
    requires CanvasOk(c) && Fit(c, tiles)
    ensures tiles == [] ==> c.(applied := c.applied + tiles) == c
    ensures AllDrawn(c) ==> AllDrawn(c.(applied := c.applied + tiles))
    decreases |tiles|
  {
    hide CanvasOk, AllDrawn, Refusal, Sized;
    if tiles == [] {
      assert c.applied + [] == c.applied;
    } else {
      FitRest(c, tiles);
      UpdatedOk(c, tiles[0]);
      if AllDrawn(c) {
        AllDrawnGrows(c, tiles[0]);
      }
      DrawnStays(Updated(c, tiles[0]), tiles[1..]);
      assert c.applied + [tiles[0]] + tiles[1..] == c.applied + tiles;
    }
  }

  // ----- every unit

  /** A key unit is awaited: the session waits already, or the unit has another generation or loss epoch. */
  predicate Awaits(s: Session, u: AccessUnit) {
    s.needsKey || s.generation != Some(u.generation) || s.lossEpoch != u.lossEpoch
  }

  predicate Clean(d: Decoded) {
    d.tiles.Some? && d.referenceErrors == 0 && d.logErrors == 0
  }

  /** The session with the stamps of the unit and one more mark in its trace. */
  function Marked(s: Session, u: AccessUnit, e: Entry): Session {
    s.(generation := Some(u.generation), lossEpoch := u.lossEpoch, trace := s.trace + [e])
  }

  /**
   Every unit. Awaiting a key, all others are skipped and a key unit gets a new decoder and an empty canvas; in a chain
   every unit goes to its decoder. A clean outcome is composed onto the canvas, and ends the wait if it shows something;
   an error starts the wait; a decoder that cannot be made and a band that does not fit end the session.
   */
  lemma UnitOutcome(s: Session, u: AccessUnit, d: Decoded)
    requires SessionOk(s)
    ensures var opens := Awaits(s, u);
            var n := if opens then s.decoders + 1 else s.decoders;
            var c := if opens then s.canvas.(applied := []) else s.canvas;
            var r := OnUnit(s, u, d);
            if opens && !u.key then
              r == Running(Marked(s, u, Skipped(u)).(needsKey := true, dirty := false))
            else if opens && !d.ready then r == Stopped
            else if !Clean(d) then
              r == Running(Marked(s, u, Failed(u, n, opens)).(decoders := n, canvas := c, needsKey := true,
                                                              dirty := false))
            else if !Fit(c, d.tiles.value) then r == Stopped
            else
              var shown := c.(applied := c.applied + d.tiles.value);
              r == Running(Marked(s, u, Fed(u, n, opens, d.tiles.value)).(
                decoders := n, canvas := shown, needsKey := opens && d.tiles.value == [],
                dirty := (s.dirty && !opens) || (d.tiles.value != [] && AllDrawn(shown))))
  {
    hide CanvasOk, AllDrawn, Refusal, Sized, Chain, ChainTiles, TraceOk, Fit, Compose;
    var v := Stamp(s, u);
    EmptyCanvasOk(s.canvas);
    var w := if v.needsKey then v.(decoders := v.decoders + 1, canvas := v.canvas.(applied := [])) else v;
    if Clean(d) {
      var tiles := d.tiles.value;
      ComposeIff(Record(w, Fed(u, w.decoders, v.needsKey, tiles)).(needsKey := w.needsKey && !(u.key && tiles != [])),
                 tiles);
    }
  }

  // ----- the end of a batch

  /** A loss recorded since starts the wait; else a canvas is published exactly if it is news and not cancelled. */
  lemma BatchOutcome(s: Session, epoch: nat, cancelled: bool)
    requires SessionOk(s)
    ensures s.dirty ==> s.generation.Some?
    ensures var r := OnBatchEnd(s, epoch, cancelled);
            if s.lossEpoch != epoch then
              r == s.(trace := s.trace + [LossSeen], lossEpoch := epoch, needsKey := true, dirty := false)
            else if s.dirty && !cancelled then
              r == s.(trace := s.trace + [Published(s.canvas, s.decoders, s.generation.value, epoch)], dirty := false)
            else r == s
  {
    hide CanvasOk, AllDrawn, Chain, ChainTiles, TraceOk;
  }

  /** The bands composed since the last publication, along the chain. */
  function Unshown(trace: seq<Entry>): seq<Tile> {
    if trace == [] then []
    else
      var before, last := trace[..|trace| - 1], trace[|trace| - 1];
      match last
      case Fed(_, _, opens, tiles) => if opens then tiles else Unshown(before) + tiles
      case _ => []
  }

  /** The canvas is news: it is complete, and a band was composed since it was shown last. */
  predicate News(s: Session) {
    !s.needsKey && AllDrawn(s.canvas) && Unshown(s.trace) != []
  }

  predicate DirtyIsNews(s: Session) {
    s.dirty <==> News(s)
  }

  lemma UnshownSnoc(trace: seq<Entry>, e: Entry)
    ensures Unshown(trace + [e]) == if !e.Fed? then [] else if e.opens then e.tiles else Unshown(trace) + e.tiles
  {
    assert (trace + [e])[..|trace|] == trace;
  }

  lemma OnUnitNews(s: Session, u: AccessUnit, d: Decoded)
    requires SessionOk(s) && DirtyIsNews(s) && OnUnit(s, u, d).Running?
    ensures DirtyIsNews(OnUnit(s, u, d).session)
  {
    UnitOutcome(s, u, d);
    CanvasParts(s);
    hide CanvasOk, AllDrawn, Chain, ChainTiles, TraceOk, Fit, OnUnit, Sized, SessionOk;
    var opens := Awaits(s, u);
    if Clean(d) && !(opens && (!u.key || !d.ready)) {
      var n := if opens then s.decoders + 1 else s.decoders;
      UnshownSnoc(s.trace, Fed(u, n, opens, d.tiles.value));
      if !opens {
        DrawnStays(s.canvas, d.tiles.value);
      }
    }
  }

  lemma CanvasParts(s: Session)
    requires SessionOk(s)
    ensures CanvasOk(s.canvas)
  {
  }

  lemma OnBatchEndNews(s: Session, epoch: nat, cancelled: bool)
    requires SessionOk(s) && DirtyIsNews(s)
    ensures DirtyIsNews(OnBatchEnd(s, epoch, cancelled))
  {
    BatchOutcome(s, epoch, cancelled);
    hide AllDrawn, SessionOk, OnBatchEnd;
    if s.dirty && !cancelled && s.lossEpoch == epoch {
      UnshownSnoc(s.trace, Published(s.canvas, s.decoders, s.generation.value, epoch));
    }
  }

  lemma {:induction false} RunNews(s: Session, events: seq<SessionEvent>)
    requires SessionOk(s) && DirtyIsNews(s) && RunSession(s, events).Running?
    requires forall e <- events :: e.Reconfigured? ==> CanvasOk(e.canvas)
    ensures SessionOk(RunSession(s, events).session) && DirtyIsNews(RunSession(s, events).session)
    decreases |events|
  {
    hide SessionOk, OnUnit, OnBatchEnd, CanvasOk, DirtyIsNews;
    if events != [] {
      match events[0] {
        case UnitEvent(u, d) =>
          OnUnitOk(s, u, d);
          OnUnitNews(s, u, d);
        case BatchEnd(epoch, cancelled) =>
          OnBatchEndOk(s, epoch, cancelled);
          OnBatchEndNews(s, epoch, cancelled);
        case Reconfigured(canvas) =>
          assert events[0] in events;
          StartOk(canvas, s.decoders + 1);
          StartNews(canvas, s.decoders + 1);
      }
      RunNews(Step(s, events[0]).session, events[1..]);
    }
  }

  lemma StartNews(canvas: Canvas, decoders: nat)
    ensures DirtyIsNews(Start(canvas, decoders))
  {
  }

  /**
   After every run a batch ends with a publication if and only if the canvas has been completed or changed since it was
   last shown, no key unit is awaited, no loss is new and nothing is cancelled; and what is published is the canvas.
   */
  lemma PublishesIff(canvas: Canvas, decoders: nat, events: seq<SessionEvent>, epoch: nat, cancelled: bool)
    requires CanvasOk(canvas) && RunSession(Start(canvas, decoders), events).Running?
    requires forall e <- events :: e.Reconfigured? ==> CanvasOk(e.canvas)
    ensures var s := RunSession(Start(canvas, decoders), events).session; var r := OnBatchEnd(s, epoch, cancelled);
            && (News(s) && s.lossEpoch == epoch && !cancelled
                <==> |r.trace| > |s.trace| && r.trace[|s.trace|].Published?)
            && (News(s) ==> s.generation.Some?)
            && (News(s) && s.lossEpoch == epoch && !cancelled ==>
                  r.trace == s.trace + [Published(s.canvas, s.decoders, s.generation.value, epoch)])
  {
    StartOk(canvas, decoders);
    StartNews(canvas, decoders);
    hide SessionOk, OnBatchEnd, CanvasOk, News, RunSession, Start;
    RunNews(Start(canvas, decoders), events);
    BatchOutcome(RunSession(Start(canvas, decoders), events).session, epoch, cancelled);
  }

  // ----- a key unit that is shown

  /**
   From any session: a key unit that is awaited, decoded cleanly on a ready decoder to bands that fit and cover the
   canvas, opens a chain on one new decoder, and the batch that ends with it is published.
   */
  lemma KeyUnitIsShown(s: Session, u: AccessUnit, d: Decoded)
    requires SessionOk(s) && Awaits(s, u) && u.key && d.ready && Clean(d) && d.tiles.value != []
    requires Fit(s.canvas.(applied := []), d.tiles.value) && AllDrawn(s.canvas.(applied := d.tiles.value))
    ensures OnUnit(s, u, d).Running?
    ensures var shown := s.canvas.(applied := d.tiles.value);
            OnBatchEnd(OnUnit(s, u, d).session, u.lossEpoch, false).trace
            == s.trace + [Fed(u, s.decoders + 1, true, d.tiles.value),
                          Published(shown, s.decoders + 1, u.generation, u.lossEpoch)]
  {
    UnitOutcome(s, u, d);
    hide CanvasOk, AllDrawn, Fit, OnUnit, OnBatchEnd, SessionOk, Sized;
    var tiles := d.tiles.value;
    assert [] + tiles == tiles;
    OnUnitOk(s, u, d);
    BatchOutcome(OnUnit(s, u, d).session, u.lossEpoch, false);
  }
}
