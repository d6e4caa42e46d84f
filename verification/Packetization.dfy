/**
 The reference sender of section 4.4 of RFC 7798 and the proof that reassembly inverts it,
 for every mix of packet kinds, every fragment size and both framings.
 */
module Packetization {
  import opened Bytes
  import opened Hevc

  /** What a sender turns into one or more consecutive packets. */
  datatype Chunk =
    | Single(nal: Nal, donl: u16)
    | Aggregate(h0: byte, h1: byte, nals: seq<Nal>, donl: u16)
    | Fragmented(h0: byte, h1: byte, pieces: seq<seq<byte>>, donl: u16)

  predicate Valid(c: Chunk) {
    match c
    case Single(nal, _) => |nal| >= 2 && Kind(nal[0]) !in {48, 49}
    case Aggregate(h0, _, nals, _) => Kind(h0) == 48 && forall n <- nals :: 2 <= |n| < 0x1_0000
    case Fragmented(_, _, pieces, _) => pieces != [] && forall p <- pieces :: |p| > 0
  }

  /** The NAL units a chunk carries. */
  function Carried(c: Chunk): seq<Nal> {
    match c
    case Single(nal, _) => [nal]
    case Aggregate(_, _, nals, _) => nals
    case Fragmented(h0, h1, pieces, _) => [[h0, h1] + Concat(pieces)]
  }

  function AllCarried(cs: seq<Chunk>): seq<Nal> {
    if cs == [] then [] else Carried(cs[0]) + AllCarried(cs[1..])
  }

  function Donl(donl: u16, apple: bool): seq<byte> {
    if apple then BE16(donl) else []
  }

  function Sized(nals: seq<Nal>): seq<byte>
    requires forall n <- nals :: 2 <= |n| < 0x1_0000
  {
    if nals == [] then [] else BE16(|nals[0]|) + nals[0] + Sized(nals[1..])
  }

  /** Payload header of a fragmentation unit: type 49, with the F and layer bits of the NAL unit. */
  function FuIndicator(h0: byte): byte {
    h0 / 128 * 128 + 49 * 2 + h0 % 2
  }

  function FuHeader(h0: byte, start: bool, end: bool): byte {
    (if start then 128 else 0) + (if end then 64 else 0) + Kind(h0)
  }

  function Fragments(h0: byte, h1: byte, pieces: seq<seq<byte>>, start: bool, donl: u16, apple: bool): seq<seq<byte>> {
    if pieces == [] then []
    else
      [[FuIndicator(h0), h1, FuHeader(h0, start, |pieces| == 1)] + Donl(donl, apple) + pieces[0]]
      + Fragments(h0, h1, pieces[1..], false, donl, apple)
  }

  function Wire(c: Chunk, apple: bool): seq<seq<byte>>
    requires Valid(c)
  {
    match c
    case Single(nal, donl) => [nal[..2] + Donl(donl, apple) + nal[2..]]
    case Aggregate(h0, h1, nals, donl) => [[h0, h1] + Donl(donl, apple) + Sized(nals)]
    case Fragmented(h0, h1, pieces, donl) => Fragments(h0, h1, pieces, true, donl, apple)
  }

  function AllWire(cs: seq<Chunk>, apple: bool): seq<seq<byte>>
    requires forall c <- cs :: Valid(c)
  {
    if cs == [] then [] else Wire(cs[0], apple) + AllWire(cs[1..], apple)
  }

  // ----- one chunk

  /** One length-prefixed NAL unit at offset `o`. */
  lemma ApNalsHead(b: seq<byte>, o: nat, n: Nal, rest: seq<Nal>)
    requires 2 <= |n| < 0x1_0000 && o + 2 + |n| <= |b|
    requires b[o..o + 2 + |n|] == BE16(|n|) + n
    requires ApNals(b, o + 2 + |n|) == Success(rest)
    ensures ApNals(b, o) == Success([n] + rest)
  {
    var window := b[o..o + 2 + |n|];
    assert b[o] == window[0] && b[o + 1] == window[1];
    assert b[o + 2..o + 2 + |n|] == window[2..] == n;
  }

  lemma {:induction false} ApNalsInvertsSized(prefix: seq<byte>, nals: seq<Nal>)
    requires forall n <- nals :: 2 <= |n| < 0x1_0000
    ensures ApNals(prefix + Sized(nals), |prefix|) == Success(nals)
    decreases |nals|
  {
    hide ApNals;
    var b := prefix + Sized(nals);
    if nals == [] {
      assert ApNals(b, |prefix|) == Success([]) by { ApNalsEnd(b); }
    } else {
      var n := nals[0];
      var next := prefix + (BE16(|n|) + n);
      ApNalsInvertsSized(next, nals[1..]);
      assert b == next + Sized(nals[1..]);
      assert b[|prefix|..|prefix| + 2 + |n|] == BE16(|n|) + n;
      ApNalsHead(b, |prefix|, n, nals[1..]);
      assert [n] + nals[1..] == nals;
    }
  }

  lemma ApNalsEnd(b: seq<byte>)
    ensures ApNals(b, |b|) == Success([])
  {
  }

  /** The order number the receiver reads: 0 in the standard framing, which carries none. */
  function Read(donl: u16, apple: bool): u16 {
    if apple then donl else 0
  }

  function Opened(a: Assembly, donl: u16, apple: bool): Option<u16> {
    if a.first.None? then Some(Read(donl, apple)) else a.first
  }

  /** The receiver's variables after a whole chunk. */
  function After(a: Assembly, c: Chunk, apple: bool): Assembly {
    Assembly(a.nals + Carried(c), None, if c.Fragmented? then Read(c.donl, apple) else a.fragmentDonl,
             Opened(a, c.donl, apple))
  }

  lemma AggregateStep(a: Assembly, c: Chunk, apple: bool)
    requires Valid(c) && c.Aggregate? && a.fragment.None?
    ensures Step(a, Wire(c, apple)[0], apple) == Success(After(a, c, apple))
  {
    var head := [c.h0, c.h1] + Donl(c.donl, apple);
    var b := head + Sized(c.nals);
    ApNalsInvertsSized(head, c.nals);
    assert b[0] == c.h0;
    if apple {
      assert b[2] == BE16(c.donl)[0] && b[3] == BE16(c.donl)[1];
    }
  }

  lemma SingleStep(a: Assembly, c: Chunk, apple: bool)
    requires Valid(c) && c.Single? && a.fragment.None?
    ensures Step(a, Wire(c, apple)[0], apple) == Success(After(a, c, apple))
  {
    var b := c.nal[..2] + Donl(c.donl, apple) + c.nal[2..];
    assert b[0] == c.nal[0];
    if apple {
      assert b[2] == BE16(c.donl)[0] && b[3] == BE16(c.donl)[1];
    }
    assert b[..2] + b[(if apple then 4 else 2)..] == c.nal;
  }

  lemma IndicatorParts(h0: byte)
    ensures FuIndicator(h0) / 128 == h0 / 128 && Kind(FuIndicator(h0)) == 49 && FuIndicator(h0) % 2 == h0 % 2
  {
    var f, l := h0 / 128, h0 % 2;
    assert FuIndicator(h0) == 2 * (64 * f + 49) + l;
    assert FuIndicator(h0) / 2 == 64 * f + 49;
    assert FuIndicator(h0) == 128 * f + (98 + l);
  }

  lemma HeaderParts(h0: byte, start: bool, end: bool)
    ensures FuHeader(h0, start, end) % 64 == Kind(h0)
    ensures StartBit(FuHeader(h0, start, end)) == start && EndBit(FuHeader(h0, start, end)) == end
  {
    var k := Kind(h0);
    var s, e := if start then 1 else 0, if end then 1 else 0;
    assert FuHeader(h0, start, end) == 64 * (2 * s + e) + k;
    assert FuHeader(h0, start, end) / 64 == 2 * s + e;
  }

  /** The indicator and header of every fragment give back the header of the NAL unit. */
  lemma RebuildsHeader(h0: byte, start: bool, end: bool)
    ensures Kind(FuIndicator(h0)) == 49
    ensures RebuiltHeader(FuIndicator(h0), FuHeader(h0, start, end)) == h0
    ensures StartBit(FuHeader(h0, start, end)) == start && EndBit(FuHeader(h0, start, end)) == end
  {
    IndicatorParts(h0);
    HeaderParts(h0, start, end);
    hide FuIndicator, FuHeader;
    var f, k, l := h0 / 128, Kind(h0), h0 % 2;
    assert h0 / 2 == 64 * f + k;
    assert h0 == 128 * f + 2 * k + l;
  }

  lemma {:induction false} FragmentsRun(a: Assembly, h0: byte, h1: byte, pieces: seq<seq<byte>>, start: bool, donl: u16,
                                        apple: bool)
    requires pieces != [] && forall p <- pieces :: |p| > 0
    requires if start then a.fragment.None?
             else a.fragment.Some? && a.fragmentDonl == Read(donl, apple) && a.first.Some?
    ensures var f := if start then [h0, h1] else a.fragment.value;
            Run(a, Fragments(h0, h1, pieces, start, donl, apple), apple)
            == Success(Assembly(a.nals + [f + Concat(pieces)], None, Read(donl, apple), Opened(a, donl, apple)))
    decreases |pieces|
  {
    hide Step, FuIndicator, FuHeader;
    var f := if start then [h0, h1] else a.fragment.value;
    var last := |pieces| == 1;
    var b := [FuIndicator(h0), h1, FuHeader(h0, start, last)] + Donl(donl, apple) + pieces[0];
    var all := Fragments(h0, h1, pieces, start, donl, apple);
    var rest := Fragments(h0, h1, pieces[1..], false, donl, apple);
    assert all[0] == b && all[1..] == rest;
    FragmentStep(a, h0, h1, pieces[0], start, last, donl, apple);
    if last {
      assert Concat(pieces) == pieces[0];
    } else {
      var next := Assembly(a.nals, Some(f + pieces[0]), Read(donl, apple), Opened(a, donl, apple));
      FragmentsRun(next, h0, h1, pieces[1..], false, donl, apple);
      assert f + pieces[0] + Concat(pieces[1..]) == f + Concat(pieces);
    }
  }

  lemma FragmentStep(a: Assembly, h0: byte, h1: byte, piece: seq<byte>, start: bool, last: bool, donl: u16, apple: bool)
    requires |piece| > 0
    requires if start then a.fragment.None?
             else a.fragment.Some? && a.fragmentDonl == Read(donl, apple) && a.first.Some?
    ensures var f := (if start then [h0, h1] else a.fragment.value) + piece;
            Step(a, [FuIndicator(h0), h1, FuHeader(h0, start, last)] + Donl(donl, apple) + piece, apple)
            == Success(Assembly(if last then a.nals + [f] else a.nals, if last then None else Some(f),
                                Read(donl, apple),
                                Opened(a, donl, apple)))
  {
    RebuildsHeader(h0, start, last);
    var b := [FuIndicator(h0), h1, FuHeader(h0, start, last)] + Donl(donl, apple) + piece;
    assert b[(if apple then 5 else 3)..] == piece;
    if apple {
      assert b[3] == BE16(donl)[0] && b[4] == BE16(donl)[1];
    }
  }

  lemma ChunkRun(a: Assembly, c: Chunk, apple: bool)
    requires Valid(c) && a.fragment.None?
    ensures Run(a, Wire(c, apple), apple) == Success(After(a, c, apple))
  {
    match c
    case Single(_, _) => SingleStep(a, c, apple);
    case Aggregate(_, _, _, _) => AggregateStep(a, c, apple);
    case Fragmented(h0, h1, pieces, donl) => FragmentsRun(a, h0, h1, pieces, true, donl, apple);
  }

  // ----- any sequence of chunks

  function Chain(r: Result<Assembly, Loss>, packets: seq<seq<byte>>, apple: bool): Result<Assembly, Loss> {
    if r.Success? then Run(r.value, packets, apple) else r
  }

  lemma {:induction false} RunConcat(a: Assembly, p: seq<seq<byte>>, q: seq<seq<byte>>, apple: bool)
    ensures Run(a, p + q, apple) == Chain(Run(a, p, apple), q, apple)
    decreases |p|
  {
    if p == [] {
      assert p + q == q;
    } else {
      assert (p + q)[0] == p[0] && (p + q)[1..] == p[1..] + q;
      var r := Step(a, p[0], apple);
      if r.Success? {
        RunConcat(r.value, p[1..], q, apple);
      }
    }
  }

  lemma RunNothing(a: Assembly, apple: bool)
    ensures Run(a, [], apple) == Success(a)
  {
  }

  lemma {:induction false} ChunksRun(a: Assembly, cs: seq<Chunk>, apple: bool)
    requires a.fragment.None? && forall c <- cs :: Valid(c)
    ensures var r := Run(a, AllWire(cs, apple), apple);
            && r.Success? && r.value.nals == a.nals + AllCarried(cs) && r.value.fragment.None?
            && r.value.first == if cs == [] then a.first else Opened(a, cs[0].donl, apple)
    decreases |cs|
  {
    hide Step, Run, Fragments, Sized, Wire, Carried, Donl;
    if cs == [] {
      assert a.nals + [] == a.nals;
      assert Run(a, [], apple) == Success(a) by { RunNothing(a, apple); }
    } else {
      assert Valid(cs[0]);
      RunConcat(a, Wire(cs[0], apple), AllWire(cs[1..], apple), apple);
      ChunkRun(a, cs[0], apple);
      ChunksRun(After(a, cs[0], apple), cs[1..], apple);
      assert a.nals + Carried(cs[0]) + AllCarried(cs[1..]) == a.nals + (Carried(cs[0]) + AllCarried(cs[1..]));
    }
  }

  /** Reassembly inverts every valid packetisation: the original NAL units and the first order number. */
  lemma ReassemblyInvertsPacketization(cs: seq<Chunk>, apple: bool)
    requires cs != [] && forall c <- cs :: Valid(c)
    ensures Reassembled(AllWire(cs, apple), apple) == Success((AllCarried(cs), Read(cs[0].donl, apple)))
  {
    ChunksRun(EMPTY, cs, apple);
    assert [] + AllCarried(cs) == AllCarried(cs);
  }

  // ----- cutting a stream of packets at a NAL boundary

  /** What earlier packets left behind changes nothing but the accumulated results. */
  lemma {:induction false} RunAfterHistory(a: Assembly, h: Assembly, packets: seq<seq<byte>>, apple: bool)
    requires h.fragment == a.fragment && (a.fragment.Some? ==> h.fragmentDonl == a.fragmentDonl)
    requires a.first.None? || h.first.Some?
    requires Run(a, packets, apple).Success?
    ensures var r, s := Run(a, packets, apple).value, Run(h, packets, apple);
            && s.Success? && s.value.fragment == r.fragment
            && h.nals <= s.value.nals && a.nals <= r.nals
            && s.value.nals[|h.nals|..] == r.nals[|a.nals|..]
            && (a.first.Some? ==> r.first == a.first)
            && s.value.first == if h.first.Some? then h.first else r.first
    decreases |packets|
  {
    hide Step;
    if packets != [] {
      StepAfterHistory(a, h, packets[0], apple);
      var a', h' := Step(a, packets[0], apple).value, Step(h, packets[0], apple).value;
      RunAfterHistory(a', h', packets[1..], apple);
      Appended(h.nals, h'.nals, Run(h, packets, apple).value.nals);
      Appended(a.nals, a'.nals, Run(a, packets, apple).value.nals);
    }
  }

  lemma Appended(a: seq<Nal>, b: seq<Nal>, c: seq<Nal>)
    requires a <= b <= c
    ensures a <= c && c[|a|..] == b[|a|..] + c[|b|..]
  {
  }

  lemma StepAfterHistory(a: Assembly, h: Assembly, b: seq<byte>, apple: bool)
    requires h.fragment == a.fragment && (a.fragment.Some? ==> h.fragmentDonl == a.fragmentDonl)
    requires a.first.None? || h.first.Some?
    requires Step(a, b, apple).Success?
    ensures var r, s := Step(a, b, apple).value, Step(h, b, apple);
            && s.Success? && s.value.fragment == r.fragment
            && (r.fragment.Some? ==> s.value.fragmentDonl == r.fragmentDonl)
            && h.nals <= s.value.nals && a.nals <= r.nals
            && s.value.nals[|h.nals|..] == r.nals[|a.nals|..]
            && r.first.Some? && (a.first.Some? ==> r.first == a.first)
            && s.value.first == if h.first.Some? then h.first else r.first
  {
    hide ApNals, StartBit, EndBit, RebuiltHeader, Kind, DonlAt;
  }

  /** Two runs of packets that each end at a NAL boundary can be reassembled together or apart. */
  lemma ReassemblyDistributes(p: seq<seq<byte>>, q: seq<seq<byte>>, apple: bool)
    requires Reassembled(p, apple).Success? && Reassembled(q, apple).Success?
    ensures Reassembled(p + q, apple)
         == Success((Reassembled(p, apple).value.0 + Reassembled(q, apple).value.0, Reassembled(p, apple).value.1))
  {
    RunConcat(EMPTY, p, q, apple);
    var h := Run(EMPTY, p, apple).value;
    RunAfterHistory(EMPTY, h, q, apple);
    var r, s := Run(EMPTY, q, apple).value, Run(h, q, apple).value;
    assert s.nals == h.nals + s.nals[|h.nals|..];
    assert r.nals[0..] == r.nals;
  }

  // ----- parameter-set aggregates

  function IsParameter(n: Nal): bool
    requires |n| > 0
  {
    32 <= Kind(n[0]) <= 34
  }

  function Parameters(nals: seq<Nal>): (ps: seq<Nal>)
    requires forall n <- nals :: |n| > 0
    ensures |ps| <= |nals|
  {
    if nals == [] then [] else (if IsParameter(nals[0]) then [nals[0]] else []) + Parameters(nals[1..])
  }

  /** The loop of `parse_parameter_ap`, with `params` what it has collected so far. */
  function ParseFrom(b: seq<byte>, o: nat, params: seq<Nal>): Option<seq<Nal>>
    decreases |b| - o
  {
    if o >= |b| then if params == [] then None else Some(params)
    else if o + 2 > |b| then None
    else
      var size := U16(b[o], b[o + 1]);
      if size < 2 || o + 2 + size > |b| then None
      else
        var nal := b[o + 2..o + 2 + size];
        if nal[0] >= 128 || nal[1] % 8 == 0 then None
        else if !IsParameter(nal) then ParseFrom(b, o + 2 + size, params)
        else if |params| >= 64 then None
        else ParseFrom(b, o + 2 + size, params + [nal])
  }

  method ParseParameterAp(b: seq<byte>, offset: nat) returns (r: Option<seq<Nal>>)
    ensures r == ParseFrom(b, offset, [])
  {
    var params: seq<Nal> := [];
    var o := offset;
    while o < |b|
      invariant ParseFrom(b, offset, []) == ParseFrom(b, o, params)
      decreases |b| - o
    {
      if o + 2 > |b| {
        return None;
      }
      var size := U16(b[o], b[o + 1]);
      o := o + 2;
      if size < 2 || o + size > |b| {
        return None;
      }
      var nal := b[o..o + size];
      o := o + size;
      if nal[0] >= 128 || nal[1] % 8 == 0 {
        return None;
      }
      if IsParameter(nal) {
        if |params| >= 64 {
          return None;
        }
        params := params + [nal];
      }
    }
    return if params == [] then None else Some(params);
  }

  lemma {:induction false} ParsedIsAggregate(b: seq<byte>, o: nat, params: seq<Nal>)
    requires o <= |b| && ParseFrom(b, o, params).Some?
    ensures ApNals(b, o).Success?
    ensures ParseFrom(b, o, params).value == params + Parameters(ApNals(b, o).value)
    decreases |b| - o
  {
    if o == |b| {
      assert params + [] == params;
    } else {
      var next := o + 2 + U16(b[o], b[o + 1]);
      var nal := b[o + 2..next];
      var mine := if IsParameter(nal) then [nal] else [];
      assert ParseFrom(b, o, params) == ParseFrom(b, next, params + mine) by {
        assert params + [] == params;
      }
      ParsedIsAggregate(b, next, params + mine);
      ParametersHead(nal, ApNals(b, next).value);
      assert params + mine + Parameters(ApNals(b, next).value) == params + (mine + Parameters(ApNals(b, next).value));
    }
  }

  lemma ParametersHead(nal: Nal, rest: seq<Nal>)
    requires |nal| > 0 && forall n <- rest :: |n| > 0
    ensures Parameters([nal] + rest) == (if IsParameter(nal) then [nal] else []) + Parameters(rest)
  {
    assert ([nal] + rest)[1..] == rest;
  }

  /**
   A payload that passes as a parameter-set aggregate at the offset of one framing is reassembled
   without error under that framing, and the parameters read are its parameter NAL units in order.
   */
  lemma ParameterAggregateReassembles(b: seq<byte>, apple: bool)
    requires |b| >= 2 && Kind(b[0]) == 48
    requires ParseFrom(b, if apple then 4 else 2, []).Some?
    ensures var r := Reassembled([b], apple);
            && r.Success? && (forall n <- r.value.0 :: |n| > 0)
            && ParseFrom(b, if apple then 4 else 2, []).value == Parameters(r.value.0)
  {
    var o := if apple then 4 else 2;
    assert o < |b|;
    ParsedIsAggregate(b, o, []);
    var nals := ApNals(b, o).value;
    var a := Step(EMPTY, b, apple);
    assert a.Success? && a.value.nals == [] + nals == nals;
    assert [b][1..] == [];
    assert Run(EMPTY, [b], apple) == Run(a.value, [], apple);
    assert [] + Parameters(nals) == Parameters(nals);
  }
}
