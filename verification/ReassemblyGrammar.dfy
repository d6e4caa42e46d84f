/**
 What reassembly accepts, read off a whole group at a time: single packets, aggregates and complete runs of fragments,
 and nothing else.
 */
module ReassemblyGrammar {
  import opened Bytes
  import opened Hevc

  /** Payloads behind the headers: Apple's framing puts a two-byte order number in between. */
  function After(header: nat, apple: bool): nat {
    if apple then header + 2 else header
  }

  function OrderNumber(b: seq<byte>, header: nat, apple: bool): u16
    requires |b| >= After(header, apple)
  {
    if apple then U16(b[header], b[header + 1]) else 0
  }

  /** Length-prefixed NAL units, each of at least two bytes. */
  function Listed(b: seq<byte>): Option<seq<Nal>> {
    if b == [] then Some([])
    else if |b| < 2 || U16(b[0], b[1]) < 2 || |b| < 2 + U16(b[0], b[1]) then None
    else
      var n := U16(b[0], b[1]);
      match Listed(b[2 + n..])
      case None => None
      case Some(rest) => Some([b[2..2 + n]] + rest)
  }

  predicate Fragment(b: seq<byte>, apple: bool) {
    |b| > After(3, apple) && b[0] / 2 % 64 == 49
  }

  /** The pieces of a fragmented unit behind its first packet, up to the one that ends it, and how many they are. */
  function Remaining(p: seq<seq<byte>>, donl: u16, apple: bool): (r: Option<(seq<byte>, nat)>)
    ensures r.Some? ==> 0 < r.value.1 <= |p|
  {
    if p == [] || !Fragment(p[0], apple) || p[0][2] >= 128 || OrderNumber(p[0], 3, apple) != donl then None
    else if p[0][2] / 64 % 2 == 1 then Some((p[0][After(3, apple)..], 1))
    else
      match Remaining(p[1..], donl, apple)
      case None => None
      case Some(r) => Some((p[0][After(3, apple)..] + r.0, r.1 + 1))
  }

  /** A whole fragmented unit: its first packet says so, its header is rebuilt, and its pieces follow. */
  function Fragmented(p: seq<seq<byte>>, apple: bool): (r: Option<(Nal, nat)>)
    requires p != [] && Fragment(p[0], apple)
    ensures r.Some? ==> 0 < r.value.1 <= |p|
  {
    var b := p[0];
    var head := [RebuiltHeader(b[0], b[2]), b[1]] + b[After(3, apple)..];
    if b[2] < 128 then None
    else if b[2] / 64 % 2 == 1 then Some((head, 1))
    else
      match Remaining(p[1..], OrderNumber(b, 3, apple), apple)
      case None => None
      case Some(r) => Some((head + r.0, r.1 + 1))
  }

  /** The NAL units at the head of the payloads, and how many payloads they take. */
  function Head(p: seq<seq<byte>>, apple: bool): (r: Option<(seq<Nal>, nat)>)
    requires p != []
    ensures r.Some? ==> 0 < r.value.1 <= |p|
  {
    var b := p[0];
    if |b| < After(2, apple) then None
    else if b[0] / 2 % 64 == 48 then
      match Listed(b[After(2, apple)..])
      case None => None
      case Some(nals) => Some((nals, 1))
    else if b[0] / 2 % 64 == 49 then
      if !Fragment(b, apple) then None
      else
        match Fragmented(p, apple)
        case None => None
        case Some(f) => Some(([f.0], f.1))
    else Some(([b[..2] + b[After(2, apple)..]], 1))
  }

  function Parsed(p: seq<seq<byte>>, apple: bool): Option<seq<Nal>>
    decreases |p|
  {
    if p == [] then Some([])
    else
      match Head(p, apple)
      case None => None
      case Some(h) =>
        match Parsed(p[h.1..], apple)
        case None => None
        case Some(rest) => Some(h.0 + rest)
  }

  // ----- the loop accepts exactly that

  lemma {:induction false} ListedIs(b: seq<byte>, o: nat)
    requires o <= |b|
    ensures match Listed(b[o..])
            case Some(nals) => ApNals(b, o) == Success(nals)
            case None => ApNals(b, o).Failure?
    decreases |b| - o
  {
    hide U16;
    var rest := b[o..];
    if o + 2 <= |b| {
      assert rest[0] == b[o] && rest[1] == b[o + 1];
      var n := U16(b[o], b[o + 1]);
      if n >= 2 && o + 2 + n <= |b| {
        ListedIs(b, o + 2 + n);
        assert rest[2 + n..] == b[o + 2 + n..] && rest[2..2 + n] == b[o + 2..o + 2 + n];
      }
    }
  }

  lemma RunStep(a: Assembly, p: seq<seq<byte>>, apple: bool)
    requires p != []
    ensures Run(a, p, apple) == match Step(a, p[0], apple)
                                case Success(next) => Run(next, p[1..], apple)
                                case Failure(e) => Failure(e)
  {
    hide Step;
  }

  /** A packet that continues a fragmented unit, or does not. */
  lemma ContinueStep(a: Assembly, b: seq<byte>, donl: u16, apple: bool)
    requires a.fragment.Some? && a.fragmentDonl == donl && a.first.Some?
    ensures var ok := Fragment(b, apple) && b[2] < 128 && OrderNumber(b, 3, apple) == donl;
            && (!ok ==> Step(a, b, apple).Failure?)
            && (ok ==>
                  var f := a.fragment.value + b[After(3, apple)..];
                  Step(a, b, apple) == Success(if b[2] / 64 % 2 == 1 then a.(nals := a.nals + [f], fragment := None)
                                               else a.(fragment := Some(f))))
  {
    hide U16, RebuiltHeader, ApNals;
  }

  lemma {:induction false} RemainingRun(a: Assembly, p: seq<seq<byte>>, donl: u16, apple: bool)
    requires a.fragment.Some? && a.fragmentDonl == donl && a.first.Some?
    ensures match Remaining(p, donl, apple)
            case None => Finish(Run(a, p, apple)).Failure?
            case Some(r) =>
              Run(a, p, apple)
              == Run(a.(nals := a.nals + [a.fragment.value + r.0], fragment := None), p[r.1..], apple)
    decreases |p|
  {
    hide Step, OrderNumber;
    if p != [] {
      RunStep(a, p, apple);
      ContinueStep(a, p[0], donl, apple);
      ContinuesIs(p, donl, apple);
      if Fragment(p[0], apple) && p[0][2] < 128 && OrderNumber(p[0], 3, apple) == donl && p[0][2] / 64 % 2 == 0 {
        var piece := p[0][After(3, apple)..];
        var next := a.(fragment := Some(a.fragment.value + piece));
        RemainingRun(next, p[1..], donl, apple);
        match Remaining(p[1..], donl, apple) {
          case None =>
          case Some(r) =>
            assert a.fragment.value + piece + r.0 == a.fragment.value + (piece + r.0);
            assert p[1..][r.1..] == p[r.1 + 1..];
        }
      }
    }
  }

  lemma ContinuesIs(p: seq<seq<byte>>, donl: u16, apple: bool)
    requires p != []
    ensures var ok := Fragment(p[0], apple) && p[0][2] < 128 && OrderNumber(p[0], 3, apple) == donl;
            && (!ok ==> Remaining(p, donl, apple).None?)
            && (ok && p[0][2] / 64 % 2 == 1 ==> Remaining(p, donl, apple) == Some((p[0][After(3, apple)..], 1)))
            && (ok && p[0][2] / 64 % 2 == 0 ==>
                  Remaining(p, donl, apple) == match Remaining(p[1..], donl, apple)
                                               case None => None
                                               case Some(r) => Some((p[0][After(3, apple)..] + r.0, r.1 + 1)))
  {
    hide OrderNumber;
  }

  /** The order number of the first packet that carries one. */
  function Numbered(a: Assembly, b: seq<byte>, apple: bool): Option<u16>
    requires |b| >= After(if b != [] && b[0] / 2 % 64 == 49 then 3 else 2, apple)
  {
    if a.first.Some? then a.first else Some(OrderNumber(b, if b[0] / 2 % 64 == 49 then 3 else 2, apple))
  }

  lemma SingleHead(a: Assembly, b: seq<byte>, apple: bool)
    requires a.fragment.None? && (|b| < After(2, apple) || b[0] / 2 % 64 !in {48, 49})
    ensures |b| < After(2, apple) ==> Step(a, b, apple).Failure?
    ensures |b| >= After(2, apple) ==>
              Step(a, b, apple)
              == Success(a.(nals := a.nals + [b[..2] + b[After(2, apple)..]], first := Numbered(a, b, apple)))
  {
    hide U16;
  }

  lemma AggregateHead(a: Assembly, b: seq<byte>, apple: bool)
    requires a.fragment.None? && |b| >= After(2, apple) && b[0] / 2 % 64 == 48
    ensures match Listed(b[After(2, apple)..])
            case None => Step(a, b, apple).Failure?
            case Some(nals) => Step(a, b, apple) == Success(a.(nals := a.nals + nals, first := Numbered(a, b, apple)))
  {
    hide U16, Listed, ApNals;
    ListedIs(b, After(2, apple));
  }

  lemma FragmentHead(a: Assembly, b: seq<byte>, apple: bool)
    requires a.fragment.None? && |b| >= After(2, apple) && b[0] / 2 % 64 == 49
    ensures !Fragment(b, apple) || b[2] < 128 ==> Step(a, b, apple).Failure?
    ensures Fragment(b, apple) && b[2] >= 128 ==>
              var head := [RebuiltHeader(b[0], b[2]), b[1]] + b[After(3, apple)..];
              var next := a.(fragmentDonl := OrderNumber(b, 3, apple), first := Numbered(a, b, apple));
              Step(a, b, apple) == Success(if b[2] / 64 % 2 == 1 then next.(nals := a.nals + [head])
                                           else next.(fragment := Some(head)))
  {
    hide U16, RebuiltHeader;
  }

  /** One unit or aggregate at the head of the payloads. */
  lemma HeadRun(a: Assembly, p: seq<seq<byte>>, apple: bool) returns (next: Assembly)
    requires a.fragment.None? && p != []
    ensures Head(p, apple).None? ==> Finish(Run(a, p, apple)).Failure?
    ensures Head(p, apple).Some? ==>
              var h := Head(p, apple).value;
              && |p[0]| >= After(if p[0][0] / 2 % 64 == 49 then 3 else 2, apple)
              && next.fragment.None? && next.nals == a.nals + h.0 && next.first == Numbered(a, p[0], apple)
              && Run(a, p, apple) == Run(next, p[h.1..], apple)
  {
    hide Step, Listed, RebuiltHeader, OrderNumber, Remaining;
    next := a;
    var b := p[0];
    RunStep(a, p, apple);
    if |b| < After(2, apple) || b[0] / 2 % 64 !in {48, 49} {
      SingleHead(a, b, apple);
      if |b| >= After(2, apple) {
        next := Step(a, b, apple).value;
      }
    } else if b[0] / 2 % 64 == 48 {
      AggregateHead(a, b, apple);
      if Listed(b[After(2, apple)..]).Some? {
        next := Step(a, b, apple).value;
      }
    } else {
      FragmentHead(a, b, apple);
      if Fragment(b, apple) && b[2] >= 128 {
        next := Step(a, b, apple).value;
        if b[2] / 64 % 2 == 0 {
          RemainingRun(next, p[1..], OrderNumber(b, 3, apple), apple);
          match Remaining(p[1..], OrderNumber(b, 3, apple), apple) {
            case None =>
            case Some(r) =>
              assert p[1..][r.1..] == p[r.1 + 1..];
              next := next.(nals := a.nals + [next.fragment.value + r.0], fragment := None);
          }
        }
      }
    }
  }

  lemma {:induction false} ParsedRun(a: Assembly, p: seq<seq<byte>>, apple: bool)
    requires a.fragment.None?
    ensures match Parsed(p, apple)
            case None => Finish(Run(a, p, apple)).Failure?
            case Some(nals) =>
              && Run(a, p, apple).Success?
              && var r := Run(a, p, apple).value;
                 && r.fragment.None? && r.nals == a.nals + nals
                 && (a.first.Some? ==> r.first == a.first) && (p == [] ==> r.first == a.first)
    decreases |p|
  {
    hide Step, Head, Numbered;
    if p == [] {
      assert a.nals + [] == a.nals;
    } else {
      var next := HeadRun(a, p, apple);
      if Head(p, apple).Some? {
        var h := Head(p, apple).value;
        FirstKept(a, p[0], apple);
        ParsedRun(next, p[h.1..], apple);
        if Parsed(p[h.1..], apple).Some? {
          assert a.nals + h.0 + Parsed(p[h.1..], apple).value == a.nals + (h.0 + Parsed(p[h.1..], apple).value);
        }
      }
    }
  }

  lemma FirstKept(a: Assembly, b: seq<byte>, apple: bool)
    requires |b| >= After(if b != [] && b[0] / 2 % 64 == 49 then 3 else 2, apple)
    ensures Numbered(a, b, apple).Some? && (a.first.Some? ==> Numbered(a, b, apple) == a.first)
  {
  }

  /** The payloads of a group are reassembled exactly if they parse, to those units and the first order number. */
  lemma ReassembledIff(p: seq<seq<byte>>, apple: bool)
    ensures Reassembled(p, apple).Success? <==> p != [] && Parsed(p, apple).Some?
    ensures Reassembled(p, apple).Success? ==>
              && |p[0]| >= After(if p[0] != [] && p[0][0] / 2 % 64 == 49 then 3 else 2, apple)
              && Reassembled(p, apple).value.0 == Parsed(p, apple).value
              && Reassembled(p, apple).value.1
                 == OrderNumber(p[0], if p[0] != [] && p[0][0] / 2 % 64 == 49 then 3 else 2, apple)
  {
    hide Head, OrderNumber, Step;
    ParsedRun(EMPTY, p, apple);
    if p != [] {
      var next := HeadRun(EMPTY, p, apple);
      if Head(p, apple).Some? {
        ParsedRun(next, p[Head(p, apple).value.1..], apple);
      }
    }
    if Parsed(p, apple).Some? {
      assert [] + Parsed(p, apple).value == Parsed(p, apple).value;
    }
  }
}
