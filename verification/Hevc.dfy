/**
 HEVC payloads over RTP: single NAL units, aggregation packets and fragmentation units
 (sections 4.4.1 to 4.4.3 of RFC 7798), in the standard framing and in the variant that
 carries a decoding order number in every packet and none inside an aggregate.

 `Reassemble` is the receiver. `Wire` is the reference sender it is proved against.
 */
module Hevc {
  import opened Bytes

  type Nal = seq<byte>

  /** Every reason for which a picture is given up as lost. */
  datatype Loss =
    | PendingByteLimit | GroupLimit | ByteLimit | MissingMarker | SequenceGap | MissingFirstSlice
    | ReassembleShort | DonlShort | ApDuringFu | ApSizeShort | ApSizeInvalid | FuShort | FuRestarted
    | FuDonlChanged | FuMissingStart | SingleDuringFu | FuMissingEnd | EmptyGroup

  /** NAL unit type: `b >> 1 & 63`. */
  function Kind(h: byte): (k: nat)
    ensures k < 64
  {
    h / 2 % 64
  }

  function StartBit(h: byte): bool { h >= 128 }

  function EndBit(h: byte): bool { h / 64 % 2 == 1 }

  /** `(indicator & 129) | ((fu & 63) << 1)`. */
  function RebuiltHeader(indicator: byte, fu: byte): byte {
    indicator / 128 * 128 + fu % 64 * 2 + indicator % 2
  }

  /** The arithmetic forms above are the bit operations of the source, on every byte. */
  lemma HeaderBits(a: bv8, b: bv8)
    ensures (a >> 1) & 63 == a / 2 % 64
    ensures (a & 128 != 0) <==> a >= 128
    ensures (a & 64 != 0) <==> a / 64 % 2 == 1
    ensures (a & 129) | ((b & 63) << 1) == a / 128 * 128 + b % 64 * 2 + a % 2
    ensures a & 7 == a % 8 && a & 129 == a / 128 * 128 + a % 2
  {
  }

  // ----- receiver

  /** The mutable variables of the reassembly loop. */
  datatype Assembly = Assembly(nals: seq<Nal>, fragment: Option<Nal>, fragmentDonl: u16, first: Option<u16>)

  const EMPTY := Assembly([], None, 0, None)

  function ApNals(b: seq<byte>, o: nat): (r: Result<seq<Nal>, Loss>)
    requires o <= |b|
    ensures r.Success? ==> forall n <- r.value :: |n| >= 2
    decreases |b| - o
  {
    if o == |b| then Success([])
    else if o + 2 > |b| then Failure(ApSizeShort)
    else
      var n := U16(b[o], b[o + 1]);
      if n < 2 || o + 2 + n > |b| then Failure(ApSizeInvalid)
      else
        match ApNals(b, o + 2 + n)
        case Success(rest) => Success([b[o + 2..o + 2 + n]] + rest)
        case Failure(e) => Failure(e)
  }

  function DonlAt(b: seq<byte>, o: nat, apple: bool): u16
    requires apple ==> o + 2 <= |b|
  {
    if apple then U16(b[o], b[o + 1]) else 0
  }

  /** One iteration of the reassembly loop on packet payload `b`. */
  function Step(a: Assembly, b: seq<byte>, apple: bool): Result<Assembly, Loss> {
    if |b| < 2 then Failure(ReassembleShort)
    else
      var kind := Kind(b[0]);
      var o := if kind == 49 then 3 else 2;
      if apple && |b| < o + 2 then Failure(DonlShort)
      else
        var donl := DonlAt(b, o, apple);
        var a := a.(first := if a.first.None? then Some(donl) else a.first);
        if kind == 48 then StepAggregate(a, b, apple)
        else if kind == 49 then StepFragment(a, b, donl, apple)
        else if a.fragment.Some? then Failure(SingleDuringFu)
        else Success(a.(nals := a.nals + [b[..2] + b[(if apple then 4 else 2)..]]))
  }

  function StepAggregate(a: Assembly, b: seq<byte>, apple: bool): Result<Assembly, Loss>
    requires |b| >= if apple then 4 else 2
  {
    if a.fragment.Some? then Failure(ApDuringFu)
    else
      match ApNals(b, if apple then 4 else 2)
      case Success(nals) => Success(a.(nals := a.nals + nals))
      case Failure(e) => Failure(e)
  }

  function StepFragment(a: Assembly, b: seq<byte>, donl: u16, apple: bool): Result<Assembly, Loss>
    requires |b| >= 2
  {
    var start := if apple then 5 else 3;
    if |b| <= start then Failure(FuShort)
    else if StartBit(b[2]) && a.fragment.Some? then Failure(FuRestarted)
    else
      var a := if StartBit(b[2])
               then a.(fragment := Some([RebuiltHeader(b[0], b[2]), b[1]]), fragmentDonl := donl)
               else a;
      if a.fragmentDonl != donl then Failure(FuDonlChanged)
      else if a.fragment.None? then Failure(FuMissingStart)
      else
        var f := a.fragment.value + b[start..];
        Success(if EndBit(b[2]) then a.(nals := a.nals + [f], fragment := None) else a.(fragment := Some(f)))
  }

  function Run(a: Assembly, packets: seq<seq<byte>>, apple: bool): Result<Assembly, Loss>
    decreases |packets|
  {
    if packets == [] then Success(a)
    else
      match Step(a, packets[0], apple)
      case Success(next) => Run(next, packets[1..], apple)
      case Failure(e) => Failure(e)
  }

  function Finish(r: Result<Assembly, Loss>): Result<(seq<Nal>, u16), Loss> {
    match r
    case Failure(e) => Failure(e)
    case Success(a) =>
      if a.fragment.Some? then Failure(FuMissingEnd)
      else if a.first.None? then Failure(EmptyGroup)
      else Success((a.nals, a.first.value))
  }

  function Reassembled(packets: seq<seq<byte>>, apple: bool): Result<(seq<Nal>, u16), Loss> {
    Finish(Run(EMPTY, packets, apple))
  }

  /** The loop of `reassemble`, one payload at a time. */
  method Reassemble(packets: seq<seq<byte>>, apple: bool) returns (r: Result<(seq<Nal>, u16), Loss>)
    ensures r == Reassembled(packets, apple)
  {
    var nals: seq<Nal> := [];
    var fragment: Option<Nal> := None;
    var fragmentDonl: u16 := 0;
    var first: Option<u16> := None;
    ghost var all := Reassembled(packets, apple);
    for i := 0 to |packets|
      invariant all == Finish(Run(Assembly(nals, fragment, fragmentDonl, first), packets[i..], apple))
    {
      var b := packets[i];
      ghost var rest := packets[i..];
      assert rest[0] == b && rest[1..] == packets[i + 1..];
      if |b| < 2 {
        return Failure(ReassembleShort);
      }
      var kind := Kind(b[0]);
      var o := if kind == 49 then 3 else 2;
      if apple && |b| < o + 2 {
        return Failure(DonlShort);
      }
      var donl := DonlAt(b, o, apple);
      if first.None? {
        first := Some(donl);
      }
      if kind == 48 {
        if fragment.Some? {
          return Failure(ApDuringFu);
        }
        var more := ReadAggregate(b, if apple then 4 else 2);
        if more.Failure? {
          return Failure(more.error);
        }
        nals := nals + more.value;
      } else if kind == 49 {
        var start := if apple then 5 else 3;
        if |b| <= start {
          return Failure(FuShort);
        }
        if StartBit(b[2]) {
          if fragment.Some? {
            return Failure(FuRestarted);
          }
          fragment := Some([RebuiltHeader(b[0], b[2]), b[1]]);
          fragmentDonl := donl;
        }
        if fragmentDonl != donl {
          return Failure(FuDonlChanged);
        }
        if fragment.None? {
          return Failure(FuMissingStart);
        }
        fragment := Some(fragment.value + b[start..]);
        if EndBit(b[2]) {
          nals := nals + [fragment.value];
          fragment := None;
        }
      } else {
        if fragment.Some? {
          return Failure(SingleDuringFu);
        }
        nals := nals + [b[..2] + b[(if apple then 4 else 2)..]];
      }
    }
    if fragment.Some? {
      return Failure(FuMissingEnd);
    }
    if first.None? {
      return Failure(EmptyGroup);
    }
    return Success((nals, first.value));
  }

  function Prepended(nals: seq<Nal>, r: Result<seq<Nal>, Loss>): Result<seq<Nal>, Loss> {
    match r
    case Success(rest) => Success(nals + rest)
    case Failure(e) => Failure(e)
  }

  method ReadAggregate(b: seq<byte>, offset: nat) returns (r: Result<seq<Nal>, Loss>)
    requires offset <= |b|
    ensures r == ApNals(b, offset)
  {
    var nals: seq<Nal> := [];
    var o := offset;
    assert ApNals(b, offset).Success? ==> nals + ApNals(b, offset).value == ApNals(b, offset).value;
    while o < |b|
      invariant o <= |b|
      invariant ApNals(b, offset) == Prepended(nals, ApNals(b, o))
    {
      if o + 2 > |b| {
        return Failure(ApSizeShort);
      }
      var n := U16(b[o], b[o + 1]);
      o := o + 2;
      if n < 2 || o + n > |b| {
        return Failure(ApSizeInvalid);
      }
      ghost var next := ApNals(b, o + n);
      assert next.Success? ==> nals + ([b[o..o + n]] + next.value) == nals + [b[o..o + n]] + next.value;
      nals := nals + [b[o..o + n]];
      o := o + n;
    }
    assert nals + [] == nals;
    return Success(nals);
  }
}
