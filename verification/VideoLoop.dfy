/**
 The decode and publish part of the session loop in its imperative form: local variables that change per
 access unit, a compositor that is replaced at every new reference chain, and a frame published per batch.
 */
module VideoLoop {
  import opened Bytes
  import opened Compositing
  import opened DepacketizerModel
  import opened SessionModel
  import T = SessionTheorems

  class Loop {
    var needsKey: bool
    var dirty: bool
    var generation: Option<nat>
    var lossEpoch: nat
    var decoders: nat
    var compositor: Compositor
    ghost var trace: seq<Entry>

    ghost function Model(): Session
      reads this, compositor
    {
      Session(needsKey, dirty, generation, lossEpoch, decoders, compositor.Model(), trace)
    }

    ghost predicate Valid()
      reads this, compositor, compositor.pixels
    {
      compositor.Valid() && SessionOk(Model())
    }

    ghost function Repr(): set<object>
      reads this, compositor
    {
      {this, compositor, compositor.pixels}
    }

    constructor (c: Compositor, decoderCount: nat)
      requires c.Valid() && c.applied == []
      ensures Valid() && compositor == c && Model() == Start(c.Model(), decoderCount)
    {
      needsKey, dirty, generation, lossEpoch, decoders := true, false, None, 0, decoderCount;
      compositor := c;
      trace := [];
      new;
      StartOk(c.Model(), decoderCount);
    }

    /**
     Starts over when the size has changed or the stream has been offered again. An impossible canvas, or no decoder,
     ends the session; the state is then as it was.
     */
    method Reconfigure(width: nat, height: nat, tiles: nat, reoffered: bool, ready: bool) returns (ok: bool)
      requires Valid()
      modifies this
      ensures Valid() && fresh(Repr() - old(Repr()))
      ensures var same := width == old(compositor.width) && height == old(compositor.height) && !reoffered;
              && (ok <==> same || (ready && 1 <= tiles <= 16 && 1 <= width <= 16384 && 1 <= height <= 16384
                                   && width * height <= 33554432))
              && (same || !ok ==> Model() == old(Model()) && compositor == old(compositor))
              && (!same && ok ==>
                    T.Step(old(Model()), T.Reconfigured(Canvas(width, height, tiles, []))) == Running(Model()))
    {
      hide SessionOk, CanvasOk, AllDrawn, Shows, SeenOk;
      if width == compositor.width && height == compositor.height && !reoffered {
        return true;
      }
      var next := Compositor.New(width, height, tiles);
      if next.Failure? || !ready {
        return false;
      }
      StartOver(next.value);
      return true;
    }

    /** A new decoder and an empty canvas; a key unit is awaited. */
    method StartOver(c: Compositor)
      requires c.Valid() && c.applied == []
      modifies this
      ensures Valid() && compositor == c && Model() == Start(c.Model(), old(decoders) + 1)
    {
      compositor := c;
      needsKey, dirty, generation, lossEpoch, decoders := true, false, None, 0, decoders + 1;
      trace := [];
      StartOk(c.Model(), decoders);
    }

    /** Applies the decoded tiles; the first one that is refused ends the session. */
    method ComposeTiles(tiles: seq<Tile>) returns (ok: bool)
      requires compositor.Valid()
      modifies this`dirty, compositor, compositor.pixels
      ensures compositor.Valid()
      ensures ok <==> Compose(old(Model()), tiles).Running?
      ensures ok ==> Model() == Compose(old(Model()), tiles).session
    {
      hide AllDrawn, Refusal, Sized;
      for i := 0 to |tiles|
        invariant compositor.Valid()
        invariant Compose(old(Model()), tiles) == Compose(Model(), tiles[i..])
      {
        assert tiles[i..][0] == tiles[i] && tiles[i..][1..] == tiles[i + 1..];
        AcceptsExactlyFitting(compositor.Model(), tiles[i]);
        var r := compositor.Update(tiles[i]);
        if r.Failure? {
          return false;
        }
        if r.value {
          dirty := true;
        }
      }
      return true;
    }

    /** A new reference chain: a new decoder and an empty canvas of the same size. */
    method OpenChain()
      requires compositor.Valid()
      modifies this`decoders, this`compositor
      ensures compositor.Valid() && fresh(compositor) && fresh(compositor.pixels)
      ensures Model() == old(Model()).(decoders := old(decoders) + 1, canvas := old(compositor.Model()).(applied := []))
    {
      decoders := decoders + 1;
      compositor := new Compositor(compositor.width, compositor.height, compositor.tiles);
    }

    /** Feeds one unit to the decoder, whose outcome is `d`. */
    method FeedUnit(u: AccessUnit, d: Decoded) returns (ok: bool)
      requires Valid() && generation == Some(u.generation) && lossEpoch == u.lossEpoch && (needsKey ==> u.key)
      modifies Repr()
      ensures compositor.Valid() && fresh(Repr() - old(Repr()))
      ensures ok <==> Feed(old(Model()), u, d).Running?
      ensures ok ==> Valid() && Model() == Feed(old(Model()), u, d).session
    {
      hide SessionOk, Compose, AllDrawn, Refusal, Shows, CanvasOk, Updated;
      ghost var before := Model();
      if Feed(before, u, d).Running? {
        FeedKeeps(before, u, d);
      }
      var opens := needsKey;
      if opens {
        OpenChain();
      }
      if d.tiles.None? || d.referenceErrors > 0 || d.logErrors > 0 {
        needsKey := true;
        dirty := false;
        trace := trace + [Failed(u, decoders, opens)];
        return true;
      }
      var tiles := d.tiles.value;
      trace := trace + [Fed(u, decoders, opens, tiles)];
      if u.key && tiles != [] {
        needsKey := false;
      }
      ok := ComposeTiles(tiles);
    }

    /** One iteration over the units of a batch. */
    method HandleUnit(u: AccessUnit, d: Decoded) returns (ok: bool)
      requires Valid()
      modifies Repr()
      ensures compositor.Valid() && fresh(Repr() - old(Repr()))
      ensures ok <==> OnUnit(old(Model()), u, d).Running?
      ensures ok ==> Valid() && Model() == OnUnit(old(Model()), u, d).session
    {
      hide SessionOk, Feed;
      StampOk(Model(), u);
      if generation != Some(u.generation) || lossEpoch != u.lossEpoch {
        generation := Some(u.generation);
        lossEpoch := u.lossEpoch;
        needsKey := true;
        dirty := false;
      }
      assert Model() == Stamp(old(Model()), u);
      if needsKey && !u.key {
        OnUnitOk(old(Model()), u, d);
        trace := trace + [Skipped(u)];
        return true;
      }
      if needsKey && !d.ready {
        return false;
      }
      ok := FeedUnit(u, d);
    }

    /** The units of a batch in order, up to an error that ends the session. */
    method HandleUnits(units: seq<AccessUnit>, decodes: nat -> Decoded) returns (ok: bool)
      requires Valid()
      modifies Repr()
      ensures compositor.Valid() && fresh(Repr() - old(Repr()))
      ensures ok <==> T.HandleAll(old(Model()), units, decodes).Running?
      ensures ok ==> Valid() && Model() == T.HandleAll(old(Model()), units, decodes).session
    {
      hide SessionOk, OnUnit;
      for i := 0 to |units|
        invariant Valid() && fresh(Repr() - old(Repr()))
        invariant T.HandleAll(old(Model()), units[..i], decodes) == Running(Model())
      {
        assert units[..i + 1][..i] == units[..i] && units[..i + 1][i] == units[i];
        ghost var done := units[..i + 1];
        ghost var step := OnUnit(Model(), units[i], decodes(i));
        assert T.HandleAll(old(Model()), done, decodes) == step;
        ok := HandleUnit(units[i], decodes(i));
        if !ok {
          T.StoppedStays(old(Model()), units, decodes, i + 1);
          return;
        }
      }
      assert units[..|units|] == units;
      return true;
    }

    /** Closes a batch; the frame, if one is published, is a copy of the canvas. */
    method CloseBatch(epoch: nat, cancelled: bool) returns (frame: Option<seq<byte>>)
      requires Valid()
      modifies this`needsKey, this`dirty, this`lossEpoch, this`trace
      ensures Valid() && Model() == OnBatchEnd(old(Model()), epoch, cancelled)
      ensures frame.Some? ==>
                trace != [] && trace[|trace| - 1].Published? && Shows(frame.value, trace[|trace| - 1].frame)
      ensures frame.None? ==> trace == old(trace) || trace == old(trace) + [LossSeen]
    {
      OnBatchEndOk(Model(), epoch, cancelled);
      HasGeneration(Model());
      hide SessionOk;
      if lossEpoch != epoch {
        trace := trace + [LossSeen];
        lossEpoch := epoch;
        needsKey := true;
        dirty := false;
      }
      frame := None;
      if dirty && !needsKey && !cancelled {
        frame := Some(compositor.pixels[..]);
        trace := trace + [Published(compositor.Model(), decoders, generation.value, lossEpoch)];
        dirty := false;
      }
    }
  }

  lemma HasGeneration(s: Session)
    requires SessionOk(s)
    ensures s.dirty ==> s.generation.Some? && !s.needsKey
  {
  }
}
