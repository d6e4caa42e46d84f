/** Parameter sets and framing, from the packets that carry them to the units they precede. */
module ParameterSets {
  import opened Bytes
  import opened Hevc
  import opened Lexical
  import opened DepacketizerModel
  import opened DepacketizerInvariants
  import opened Reception
  import opened QueueOrder
  import opened GroupFates
  import opened PictureTheorems
  import P = Packetization

  // ----- the bytes of a unit

  /** NAL units one after the other, each behind a four-byte start code. */
  function Coded(nals: seq<Nal>): seq<byte> {
    if nals == [] then [] else [0, 0, 0, 1] + nals[0] + Coded(nals[1..])
  }

  function Kept(nals: seq<Nal>, keep: Nal -> bool): seq<Nal> {
    if nals == [] then [] else (if keep(nals[0]) then [nals[0]] else []) + Kept(nals[1..], keep)
  }

  function OfType(kind: nat): Nal -> bool {
    n => |n| > 0 && n[0] / 2 % 64 == kind
  }

  lemma {:induction false} CodedJoins(a: seq<Nal>, b: seq<Nal>)
    ensures Coded(a + b) == Coded(a) + Coded(b)
  {
    if a == [] {
      assert a + b == b;
    } else {
      CodedJoins(a[1..], b);
      assert (a + b)[1..] == a[1..] + b;
    }
  }

  lemma CodedOne(n: Nal)
    ensures Coded([n]) == [0, 0, 0, 1] + n
  {
    assert [n][1..] == [];
    assert Coded([]) == [];
    assert [0, 0, 0, 1] + n + [] == [0, 0, 0, 1] + n;
  }

  lemma {:induction false} KindIs(params: seq<Nal>, kind: nat)
    ensures OfKind(params, kind) == Coded(Kept(params, OfType(kind)))
  {
    if params != [] {
      KindIs(params[1..], kind);
      CodedOne(params[0]);
      CodedJoins([params[0]], Kept(params[1..], OfType(kind)));
      assert [] + Kept(params[1..], OfType(kind)) == Kept(params[1..], OfType(kind));
    }
  }

  lemma {:induction false} SlicesIs(nals: seq<Nal>)
    ensures VclData(nals) == Coded(Kept(nals, Slice))
  {
    if nals != [] {
      SlicesAre(nals[0]);
      SlicesIs(nals[1..]);
      CodedOne(nals[0]);
      CodedJoins([nals[0]], Kept(nals[1..], Slice));
      assert [] + Kept(nals[1..], Slice) == Kept(nals[1..], Slice);
    }
  }

  /**
   The bytes of a unit: before the slices of a key picture all video, sequence and picture parameter sets, in order;
   everything behind start codes, and nothing else.
   */
  lemma UnitBytes(before: seq<Output>, generation: nat, tile: nat, key: Key, nals: seq<Nal>, donl: u16,
                  params: seq<Nal>)
    ensures var u := UnitOf(before, generation, tile, key, nals, donl, params);
            && (u.key <==> exists n <- nals :: Intra(n))
            && u.data == Coded((if u.key
                                then Kept(params, OfType(32)) + Kept(params, OfType(33)) + Kept(params, OfType(34))
                                else []) + Kept(nals, Slice))
  {
    forall n | n in nals ensures Intra(n) == IsKeySlice(n) {
      SlicesAre(n);
    }
    hide Intra, IsKeySlice, VclData, OfKind, Slice, Losses, Units;
    SlicesIs(nals);
    KindIs(params, 32);
    KindIs(params, 33);
    KindIs(params, 34);
    var v, s, p := Kept(params, OfType(32)), Kept(params, OfType(33)), Kept(params, OfType(34));
    CodedJoins(v, s);
    CodedJoins(v + s, p);
    CodedJoins(v + s + p, Kept(nals, Slice));
    assert [] + Kept(nals, Slice) == Kept(nals, Slice);
  }

  // ----- what a parameter aggregate teaches

  /**
   An aggregate of whole NAL units among which are all three kinds of parameter sets under exactly one framing sets the
   framing of its source and what is known of its parameter sets; any other packet leaves both alone.
   */
  lemma ObserveTeaches(t: State, p: Packet, now: nat)
    requires |p.payload| >= 2 && (p.ssrc in t.observed || |t.observed| < 32)
    ensures p.ssrc in Observe(t, p, now).observed
    ensures var o := Observe(t, p, now).observed[p.ssrc];
            var apple, standard := P.ParseFrom(p.payload, 4, []), P.ParseFrom(p.payload, 2, []);
            var shows := p.payload[0] / 2 % 64 == 48 && apple.Some? != standard.Some?;
            && (shows ==> o.donl == Some(apple.Some?)
                          && o.params == if apple.Some? then apple.value else standard.value)
            && (!shows && p.ssrc in t.observed ==>
                  o.donl == t.observed[p.ssrc].donl && o.params == t.observed[p.ssrc].params)
            && (!shows && p.ssrc !in t.observed ==> o.donl.None? && o.params == [])
            && o.packets == (if p.ssrc in t.observed then t.observed[p.ssrc].packets else 0) + 1 && o.last == now
  {
    hide P.ParseFrom;
  }

  /** Taking in a packet learns the parameter sets of its source, and nothing else, until 64 are known. */
  lemma TakeInLearns(t: State, p: Packet, now: nat, pick: Groups -> Key)
    requires Inv(t)
    ensures var r := TakeIn(t, p, now, pick).params;
            var shown := if p.ssrc in t.observed then t.observed[p.ssrc].params else [];
            && (forall n <- t.params :: n in r) && (forall n <- shown :: n in r || |r| == 64)
            && forall n <- r :: n in t.params || n in shown
  {
    InvParts(t);
    ObservationFact(t, p.ssrc);
    TakeInParams(t, p, now, pick);
    if p.ssrc in t.observed {
      ObservedParams(p.ssrc, t.observed[p.ssrc]);
      LearnedAll(t.params, t.observed[p.ssrc].params);
      LearnedOnly(t.params, t.observed[p.ssrc].params);
    }
    hide Inv, GroupsOk, ObservedOk, HistoryOk, SourcesOk, ParamsOk, TakeIn, LearnAll, ObservationOk;
  }

  lemma ObservedParams(ssrc: u32, o: Observation)
    requires ObservationOk(ssrc, o)
    ensures forall n <- o.params :: IsParam(n)
  {
  }

  lemma TakeInParams(t: State, p: Packet, now: nat, pick: Groups -> Key)
    ensures TakeIn(t, p, now, pick).params
         == if p.ssrc in t.observed then LearnAll(t.params, t.observed[p.ssrc].params) else t.params
  {
    hide OverBudget, AddPacket, LearnAll, NewGroup;
  }

  lemma {:induction false} LearnedOnly(params: seq<Nal>, nals: seq<Nal>)
    requires ParamsOk(params) && forall n <- nals :: IsParam(n)
    ensures forall n <- LearnAll(params, nals) :: n in params || n in nals
    decreases |nals|
  {
    if nals != [] {
      PutParamOk(params, nals[0]);
      var next := LearnParam(params, nals[0]);
      hide Strict, PutParam;
      LearnedOnly(next, nals[1..]);
      forall n | n in LearnAll(params, nals) ensures n in params || n in nals {
        assert n in next || n in nals[1..];
      }
    }
  }

  // ----- nothing is forgotten within a generation

  /** `u` is of a later generation, or of the same one and knows all that `t` knows. */
  predicate Remembers(t: State, u: State) {
    t.generation < u.generation || (t.generation == u.generation && forall n <- t.params :: n in u.params)
  }

  lemma {:induction false} LearnKeeps(params: seq<Nal>, nals: seq<Nal>)
    ensures forall n <- params :: n in LearnAll(params, nals)
    decreases |nals|
  {
    if nals != [] {
      if |params| < MAX_PARAMS {
        PutKeeps(params, nals[0]);
      }
      LearnKeeps(LearnParam(params, nals[0]), nals[1..]);
    }
  }

  lemma {:induction false} PutKeeps(params: seq<Nal>, n: Nal)
    ensures forall x <- params :: x in PutParam(params, n)
  {
    hide Less;
    if params != [] && params[0] != n && !Less(n, params[0]) {
      PutKeeps(params[1..], n);
      assert params == [params[0]] + params[1..];
    }
  }

  lemma HandleRemembers(t: State, key: Key)
    requires key in t.groups
    ensures Remembers(t, Handle(t, key))
  {
    hide IsLate, Reassembled, InOrder, Adjacent, Present, AppleFraming;
    var u, g := t.(groups := t.groups - {key}), t.groups[key];
    if !IsLate(t, key) && g.marker.Some? {
      match Reassembled(Payloads(InOrder(g.packets, g.marker.value, 0x1_0000)), AppleFraming(u, key.ssrc)) {
        case Failure(_) =>
        case Success(v) => PresentRemembers(u, key, v.0, v.1);
      }
    }
  }

  lemma PresentRemembers(u: State, key: Key, nals: seq<Nal>, donl: u16)
    ensures Remembers(u, Present(u, key, nals, donl))
  {
    hide LearnAll, ParamsIn, IsVcl, IsKeySlice, IsFirstSlice, ParamPrefix, VclData, IndexOf;
    LearnKeeps(u.params, ParamsIn(nals));
  }

  lemma {:induction false} PollEachRemembers(t: State, keys: seq<Key>, now: nat)
    ensures Remembers(t, PollEach(t, keys, now))
    decreases |keys|
  {
    hide Handle, Passes;
    if keys != [] {
      PollEachStep(t, keys, now);
      if Passes(t, keys[0], now) {
        PassesKnown(t, keys[0], now);
        HandleRemembers(t, keys[0]);
        PollEachRemembers(Handle(t, keys[0]), keys[1..], now);
      }
    }
  }

  lemma PollRemembers(t: State, now: nat)
    ensures Remembers(t, Poll(t, now))
  {
    PollEachRemembers(t, KeysByOrder(t.groups, t.nextGroup), now);
  }

  lemma SelectedRemembers(t: State, p: Packet, now: nat, pick: Groups -> Key)
    ensures Remembers(t, PushSelected(t, p, now, pick))
  {
    hide TakeIn, Poll;
    TakeInParams(t, p, now, pick);
    if p.ssrc in t.observed {
      LearnKeeps(t.params, t.observed[p.ssrc].params);
    }
    PollRemembers(TakeIn(t, p, now, pick), now);
  }

  lemma {:induction false} EachRemembers(t: State, ps: seq<Packet>, now: nat, pick: Groups -> Key)
    ensures Remembers(t, PushEach(t, ps, now, pick))
    decreases |ps|
  {
    hide PushSelected;
    if ps != [] {
      SelectedRemembers(t, ps[0], now, pick);
      EachRemembers(PushSelected(t, ps[0], now, pick), ps[1..], now, pick);
    }
  }

  lemma DeliverRemembers(t: State, p: Packet, now: nat, pick: Groups -> Key)
    ensures Remembers(t, Deliver(t, p, now, pick))
  {
    hide PushEach;
    if p.ssrc in t.observed {
      var o := t.observed[p.ssrc];
      var u := t.(observed := t.observed[p.ssrc := o.(prefix := [], prefixBytes := 0)]);
      EachRemembers(u, o.prefix + [p], now, pick);
    } else {
      EachRemembers(t, [p], now, pick);
    }
  }

  lemma PushRemembers(t: State, p: Packet, now: nat, pick: Groups -> Key)
    ensures Remembers(t, Push(t, p, now, pick))
  {
    hide Deliver, Poll, Observe, Stash, ShouldReplace, InsertSorted, Remembers;
    if |p.payload| < 2 {
      PollRemembers(t, now);
    } else {
      ObserveFrame(t, p, now);
      StashFrame(Observe(t, p, now), p);
      var o := Observe(t, p, now);
      DeliverRemembers(o, p, now, pick);
      DeliverRemembers(Adopt(o, p.ssrc), p, now, pick);
      DeliverRemembers(Adopt(HandOver(o), p.ssrc), p, now, pick);
      PollRemembers(Stash(o, p), now);
      RemembersFrom(t, o, Deliver(o, p, now, pick));
      RemembersFrom(t, Adopt(o, p.ssrc), Deliver(Adopt(o, p.ssrc), p, now, pick));
      RemembersFrom(t, Stash(o, p), Poll(Stash(o, p), now));
      RemembersLater(t, Adopt(HandOver(o), p.ssrc), Deliver(Adopt(HandOver(o), p.ssrc), p, now, pick));
    }
  }

  lemma RemembersFrom(t: State, u: State, v: State)
    requires u.generation == t.generation && u.params == t.params && Remembers(u, v)
    ensures Remembers(t, v)
  {
  }

  lemma RemembersLater(t: State, u: State, v: State)
    requires u.generation == t.generation + 1 && Remembers(u, v)
    ensures Remembers(t, v)
  {
  }

  /** Over every run: as long as no other source takes over, no parameter set is forgotten. */
  lemma {:induction false} RunRemembers(t: State, events: seq<Event>)
    ensures Remembers(t, RunEvents(t, events))
    decreases |events|
  {
    hide Push, Poll;
    if events != [] {
      var e := events[0];
      if e.PushEvent? {
        PushRemembers(t, e.packet, e.now, e.pick);
      } else {
        PollRemembers(t, e.now);
      }
      RunRemembers(Apply(t, e), events[1..]);
    }
  }
}
