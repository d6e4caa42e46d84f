/** A run of a new depacketizer and a new session that publishes a frame. */
module SessionExamples {
  import opened Bytes
  import opened Compositing
  import opened DepacketizerModel
  import opened DepacketizerInvariants
  import opened PictureDelivery
  import opened PictureTheorems
  import opened PictureExamples
  import opened SessionModel
  import opened SessionTheorems
  import opened SessionProgress
  import R = Reception

  const PICTURE: Picture := Picture(Key(7, 1000), 65535, FRAGMENTS)
  const PIXEL: Tile := Tile(0, 1, 1, [10, 20, 30, 255])
  const BLANK: Canvas := Canvas(1, 1, 1, [])

  /** Datagrams of one key picture, a poll, and a decoder that shows one pixel. */
  function FirstTurn(pick: Groups -> Key): Turn {
    Turn(SwappedEvents(PICTURE, pick) + [PollEvent(50)], (k: nat) => Decoded(true, Some([PIXEL]), 0, 0), false)
  }

  ghost function Received(pick: Groups -> Key): State {
    RunEvents(Init(1), SwappedEvents(PICTURE, pick) + [PollEvent(50)])
  }

  /** The depacketizer hands out one key unit, without any loss. */
  lemma OneUnit(pick: Groups -> Key) returns (u: AccessUnit)
    requires PicksOldest(pick)
    ensures Received(pick).log == [Emitted(7, u)] && u.key && u.lossEpoch == 0 && u.generation == 0
  {
    hide RunEvents, SwappedEvents, PicksOldest, UnitOf;
    SwappedFragmentsAreOneUnit(pick);
    SlicesAreKeys();
    var r := Received(pick);
    assert R.Found(Init(1), 7).log == [] && R.Found(Init(1), 7).generation == 0;
    u := UnitOf([], 0, IndexOf(R.Found(Init(1), 7).sources, 7), PICTURE.key, [SLICE], 9, r.params);
    UnitStamps(0, IndexOf(R.Found(Init(1), 7).sources, 7), PICTURE.key, 9, r.params);
    assert [] + [Emitted(7, u)] == [Emitted(7, u)];
  }

  lemma UnitStamps(generation: nat, tile: nat, key: Key, donl: u16, params: seq<seq<byte>>)
    requires HasKeySlice([SLICE])
    ensures var u := UnitOf([], generation, tile, key, [SLICE], donl, params);
            u.key && u.lossEpoch == 0 && u.generation == generation
  {
    hide HasKeySlice, ParamPrefix, VclData;
  }

  lemma OneLogged(u: AccessUnit)
    ensures Units([Emitted(7, u)]) == [u] && Losses([Emitted(7, u)]) == 0 && Units([]) == []
  {
    assert [Emitted(7, u)][..0] == [];
  }

  lemma SwappedOk(pick: Groups -> Key)
    requires PicksOldest(pick)
    ensures forall e <- SwappedEvents(PICTURE, pick) + [PollEvent(50)] :: EventOk(e)
  {
    hide PicksOldest;
  }

  lemma ReceivedStamps(pick: Groups -> Key)
    requires PicksOldest(pick)
    ensures Received(pick).lossEpoch == Losses(Received(pick).log)
  {
    hide PicksOldest, SwappedEvents, Init, RunEvents;
    InitInv(1);
    SwappedOk(pick);
    RunInv(Init(1), SwappedEvents(PICTURE, pick) + [PollEvent(50)]);
    Stamps(Received(pick));
  }

  lemma Stamps(s: State)
    requires Inv(s)
    ensures s.lossEpoch == Losses(s.log)
  {
  }

  lemma PixelCovers()
    ensures CanvasOk(BLANK) && Fit(BLANK, [PIXEL]) && AllDrawn(BLANK.(applied := [PIXEL]))
  {
    var c := BLANK.(applied := [PIXEL]);
    assert c.applied[0].index == 0;
    assert Drawn(c, 0);
  }

  /** The first turn of a new connection: its key unit opens a chain on a new decoder, and the frame is published. */
  lemma FirstFrameIsPublished(pick: Groups -> Key) returns (u: AccessUnit)
    requires PicksOldest(pick)
    ensures u.key
    ensures var b := Batch(Pipeline(Init(1), Start(BLANK, 1)), FirstTurn(pick).events, FirstTurn(pick).decodes, false);
            && b.Continuing?
            && b.pipeline.session.trace
               == [Fed(u, 2, true, [PIXEL]), Published(BLANK.(applied := [PIXEL]), 2, 0, 0)]
  {
    hide RunEvents, SwappedEvents, PicksOldest, Init, OnUnit, OnBatchEnd, SessionOk, Fit, AllDrawn, CanvasOk, Units,
      Losses;
    u := OneUnit(pick);
    OneLogged(u);
    ReceivedStamps(pick);
    PixelCovers();
    StartOk(BLANK, 1);
    var d := Decoded(true, Some([PIXEL]), 0, 0);
    KeyUnitIsShown(Start(BLANK, 1), u, d);
    NewLog();
    OneHandled(Start(BLANK, 1), u, FirstTurn(pick).decodes);
  }

  lemma NewLog()
    ensures Init(1).log == []
  {
  }

  lemma OneHandled(s: Session, u: AccessUnit, decodes: nat -> Decoded)
    ensures HandleAll(s, [u], decodes) == OnUnit(s, u, decodes(0))
  {
    hide OnUnit;
    assert [u][..0] == [];
    assert HandleAll(s, [], decodes) == Running(s);
  }
}
