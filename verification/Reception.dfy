/** What a pushed packet does before the poll that ends every push. */
module Reception {
  import opened Bytes
  import opened DepacketizerModel
  import opened DepacketizerInvariants
  import opened PictureDelivery
  import P = Packetization

  lemma EachOne(t: State, p: Packet, now: nat, pick: Groups -> Key)
    ensures PushEach(t, [p], now, pick) == PushSelected(t, p, now, pick)
  {
    hide PushSelected;
    var r := PushSelected(t, p, now, pick);
    assert [p][1..] == [];
    assert PushEach(r, [], now, pick) == r;
  }

  predicate Unstashed(s: State, ssrc: u32) {
    ssrc in s.observed ==> s.observed[ssrc].prefix == []
  }

  /** A source with nothing kept back: its packet goes straight to its group. */
  lemma DeliverUnstashed(t: State, p: Packet, now: nat, pick: Groups -> Key)
    requires Unstashed(t, p.ssrc) && (p.ssrc in t.observed ==> ObservationOk(p.ssrc, t.observed[p.ssrc]))
    ensures Deliver(t, p, now, pick) == PushSelected(t, p, now, pick)
  {
    hide PushSelected, PushEach;
    EachOne(t, p, now, pick);
    if p.ssrc in t.observed {
      var o := t.observed[p.ssrc];
      assert o.(prefix := [], prefixBytes := 0) == o;
      assert t.observed[p.ssrc := o] == t.observed;
      assert o.prefix + [p] == [p];
    }
  }

  lemma InferredPrefix(o: Observation, b: seq<byte>)
    requires |b| >= 2
    ensures Inferred(o, b).prefix == o.prefix && Inferred(o, b).packets == o.packets && Inferred(o, b).last == o.last
    ensures Inferred(o, b).prefixBytes == o.prefixBytes
  {
    hide P.ParseFrom;
  }

  /** Observing a packet changes what is known of its source, but not what is kept of it. */
  lemma ObserveFrame(t: State, p: Packet, now: nat)
    requires |p.payload| >= 2
    ensures var u := Observe(t, p, now);
            && u == t.(observed := u.observed) && u.observed - {p.ssrc} == t.observed - {p.ssrc}
            && (Unstashed(t, p.ssrc) ==> Unstashed(u, p.ssrc))
  {
    hide Inferred;
    if p.ssrc in t.observed {
      InferredPrefix(t.observed[p.ssrc].(packets := t.observed[p.ssrc].packets + 1, last := now), p.payload);
    } else {
      InferredPrefix(Observation(1, now, None, [], [], 0), p.payload);
    }
  }

  lemma FramingKept(t: State, p: Packet, now: nat, ssrc: u32, apple: bool)
    requires |p.payload| >= 2 && AppleFraming(t, ssrc) == apple && (p.ssrc == ssrc ==> NeverShows(p.payload, apple))
    ensures AppleFraming(Observe(t, p, now), ssrc) == apple
  {
  }

  lemma SameFraming(s: State, t: State, ssrc: u32)
    requires ssrc in s.observed <==> ssrc in t.observed
    requires ssrc in s.observed ==> s.observed[ssrc].donl == t.observed[ssrc].donl
    ensures AppleFraming(s, ssrc) == AppleFraming(t, ssrc)
  {
  }

  // ----- the state in which a push comes to poll

  /** The packet replaces the only source. */
  predicate TakesOver(t: State, p: Packet, now: nat) {
    && |p.payload| >= 2 && p.ssrc !in t.sources && |t.sources| >= t.tiles
    && ShouldReplace(Observe(t, p, now), p.ssrc, now)
  }

  /** A known source, one that may be adopted and has nothing kept back, or one that has to wait. */
  predicate Plain(t: State, ssrc: u32) {
    ssrc in t.sources || |t.sources| >= t.tiles || Unstashed(t, ssrc)
  }

  /** The state in which the source is known. */
  function Found(s: State, ssrc: u32): State {
    if ssrc in s.sources then s else Adopt(s, ssrc)
  }

  /** What a push has done when it comes to poll, unless it replaces the only source. */
  ghost function Received(t: State, p: Packet, now: nat, pick: Groups -> Key): State {
    if |p.payload| < 2 then t
    else
      var o := Observe(t, p, now);
      if p.ssrc in t.sources || |t.sources| < t.tiles then TakeIn(Found(o, p.ssrc), p, now, pick) else Stash(o, p)
  }

  lemma UnstashedInv(a: State, ssrc: u32)
    requires Adopting(a, ssrc) && Unstashed(a, ssrc)
    ensures Inv(a) && ssrc in a.sources
  {
    hide TableOk, HistoryOk, ObservationOk, Strict;
  }

  lemma FoundInv(s: State, ssrc: u32)
    requires Inv(s) && (ssrc in s.sources || (|s.sources| < s.tiles && Unstashed(s, ssrc)))
    ensures Inv(Found(s, ssrc)) && ssrc in Found(s, ssrc).sources && Unstashed(Found(s, ssrc), ssrc)
  {
    ObservationFact(s, ssrc);
    hide Inv, Adopting, InsertSorted, ObservationOk;
    if ssrc !in s.sources {
      AdoptOk(s, ssrc);
      UnstashedInv(Adopt(s, ssrc), ssrc);
    }
  }

  lemma FoundFrame(s: State, ssrc: u32)
    ensures var u := Found(s, ssrc); u == s.(sources := u.sources)
  {
  }

  /** A packet that replaces no source is received, and then the push polls. */
  lemma PushPolls(t: State, p: Packet, now: nat, pick: Groups -> Key)
    requires Inv(t) && PicksOldest(pick) && !TakesOver(t, p, now) && Plain(t, p.ssrc)
    ensures Push(t, p, now, pick) == Poll(Received(t, p, now, pick), now) && Inv(Received(t, p, now, pick))
  {
    hide Inv, Poll, Deliver, TakeIn, Stash, Observe, ShouldReplace, Found, Unstashed, ObservationOk;
    if |p.payload| >= 2 {
      ObserveInv(t, p, now);
      ObserveFrame(t, p, now);
      var o := Observe(t, p, now);
      if p.ssrc in t.sources || |t.sources| < t.tiles {
        KnownUnstashed(t, p.ssrc);
        FoundInv(o, p.ssrc);
        FoundIs(o, p.ssrc);
        var f := Found(o, p.ssrc);
        ObservationFact(f, p.ssrc);
        DeliverUnstashed(f, p, now, pick);
        TakeInInv(f, p, now, pick);
      } else {
        StashInv(o, p);
      }
    }
  }

  lemma KnownUnstashed(t: State, ssrc: u32)
    requires Inv(t) && (ssrc in t.sources || Unstashed(t, ssrc))
    ensures Unstashed(t, ssrc)
  {
    ObservationFact(t, ssrc);
  }

  lemma FoundIs(s: State, ssrc: u32)
    ensures Found(s, ssrc) == if ssrc in s.sources then s else Adopt(s, ssrc)
  {
  }

  // ----- what the steps of a reception leave alone

  lemma PrepareFrame(t: State, ssrc: u32, now: nat)
    ensures var u := Prepare(t, ssrc, now);
            u == t.(params := u.params, first := if t.first.Some? then t.first else Some(now))
  {
  }

  lemma PrepareInv(t: State, ssrc: u32, now: nat)
    requires Inv(t)
    ensures Inv(Prepare(t, ssrc, now))
  {
    hide Inv;
    LearnInv(t, ssrc);
    FirstInv(Learn(t, ssrc), Prepare(t, ssrc, now).first);
  }

  lemma BudgetFrame(s: State, t: State, p: Packet)
    requires s.groups == t.groups
    ensures OverBudget(s, p) <==> OverBudget(t, p)
  {
  }

  lemma StashFrame(s: State, p: Packet)
    ensures var u := Stash(s, p);
            && u == s.(observed := u.observed) && u.observed - {p.ssrc} == s.observed - {p.ssrc}
  {
    hide Evict;
  }
}
