/** Which packets teach parameter sets, and which sets a picture teaches, byte by byte. */
module ParameterGrammar {
  import opened Bytes
  import opened Hevc
  import opened DepacketizerModel
  import opened DepacketizerInvariants
  import opened PictureTheorems
  import opened ParameterSets
  import P = Packetization

  /** A parameter set: type 32, 33 or 34. */
  predicate Set(n: Nal) {
    |n| > 0 && 32 <= n[0] / 2 % 64 <= 34
  }

  // ----- aggregates

  /** A NAL unit as an aggregate may hold it: its first bit is clear, and its temporal identifier is not zero. */
  predicate Proper(n: Nal) {
    2 <= |n| <= 65535 && n[0] < 128 && n[1] % 8 != 0
  }

  predicate AllProper(nals: seq<Nal>) {
    forall i :: 0 <= i < |nals| ==> Proper(nals[i])
  }

  /** Behind `o` there is nothing but these NAL units, each behind its size in two bytes. */
  ghost predicate Holds(b: seq<byte>, o: nat, nals: seq<Nal>) {
    o <= |b| && AllProper(nals) && b[o..] == P.Sized(nals)
  }

  lemma {:induction false} SetsAre(nals: seq<Nal>)
    requires forall n <- nals :: |n| > 0
    ensures P.Parameters(nals) == Kept(nals, Set)
  {
    if nals != [] {
      SetsAre(nals[1..]);
      KindOf(nals[0]);
    }
  }

  lemma KindOf(n: Nal)
    requires |n| > 0
    ensures P.IsParameter(n) == Set(n) && IsParam(n) == Set(n)
  {
  }

  lemma KeptCons(n: Nal, nals: seq<Nal>)
    ensures Kept([n] + nals, Set) == (if Set(n) then [n] else []) + Kept(nals, Set)
  {
    assert ([n] + nals)[1..] == nals;
  }

  lemma SizedFirst(nals: seq<Nal>)
    requires nals != [] && AllProper(nals)
    ensures P.Sized(nals) == BE16(|nals[0]|) + nals[0] + P.Sized(nals[1..])
  {
  }

  /** One turn of the parser. */
  lemma ParseStep(b: seq<byte>, o: nat, params: seq<Nal>, nals: seq<Nal>)
    requires nals != [] && Holds(b, o, nals)
    ensures var n := nals[0]; var next := o + 2 + |n|;
            && Holds(b, next, nals[1..])
            && P.ParseFrom(b, o, params)
               == if !Set(n) then P.ParseFrom(b, next, params)
                  else if |params| >= 64 then None else P.ParseFrom(b, next, params + [n])
  {
    hide P.Sized, BE16, U16;
    var n, rest := nals[0], nals[1..];
    SizedFirst(nals);
    KindOf(n);
    var t, z := b[o..], BE16(|n|);
    assert t == z + n + P.Sized(rest);
    assert t[0] == z[0] && t[1] == z[1] && t[2..2 + |n|] == n && t[2 + |n|..] == P.Sized(rest);
    assert b[o + 2..o + 2 + |n|] == t[2..2 + |n|] && b[o + 2 + |n|..] == t[2 + |n|..];
    assert b[o] == t[0] && b[o + 1] == t[1];
  }

  lemma {:induction false} HeldIsParsed(b: seq<byte>, o: nat, params: seq<Nal>, nals: seq<Nal>)
    requires Holds(b, o, nals) && |params + Kept(nals, Set)| <= 64
    ensures P.ParseFrom(b, o, params)
         == if params + Kept(nals, Set) == [] then None else Some(params + Kept(nals, Set))
    decreases |nals|
  {
    hide P.ParseFrom, P.Sized, Proper, Set;
    if nals == [] {
      NothingHeld(b, o, params);
      assert params + [] == params;
    } else {
      var n, rest := nals[0], nals[1..];
      assert [n] + rest == nals;
      ParseStep(b, o, params, nals);
      var next := if Set(n) then params + [n] else params;
      assert params + ([n] + Kept(rest, Set)) == params + [n] + Kept(rest, Set);
      assert params + ([] + Kept(rest, Set)) == params + Kept(rest, Set);
      assert next + Kept(rest, Set) == params + Kept(nals, Set);
      HeldIsParsed(b, o + 2 + |n|, next, rest);
    }
  }

  lemma NothingHeld(b: seq<byte>, o: nat, params: seq<Nal>)
    requires o <= |b| && b[o..] == P.Sized([])
    ensures P.ParseFrom(b, o, params) == if params == [] then None else Some(params)
  {
  }

  /** One turn back: a parser that comes to a result has met a proper NAL unit and goes on behind it. */
  lemma ParsedTurn(b: seq<byte>, o: nat, params: seq<Nal>) returns (n: Nal, next: seq<Nal>)
    requires o < |b| && |params| <= 64 && P.ParseFrom(b, o, params).Some?
    ensures o + 2 + |n| <= |b| && |n| == U16(b[o], b[o + 1]) && n == b[o + 2..o + 2 + |n|] && Proper(n)
    ensures next == (if Set(n) then params + [n] else params) && |next| <= 64
    ensures P.ParseFrom(b, o, params) == P.ParseFrom(b, o + 2 + |n|, next)
  {
    hide U16;
    n := b[o + 2..o + 2 + U16(b[o], b[o + 1])];
    KindOf(n);
    next := if Set(n) then params + [n] else params;
  }

  lemma {:induction false} ParsedIsHeld(b: seq<byte>, o: nat, params: seq<Nal>) returns (nals: seq<Nal>)
    requires o <= |b| && |params| <= 64 && P.ParseFrom(b, o, params).Some?
    ensures Holds(b, o, nals) && P.ParseFrom(b, o, params).value == params + Kept(nals, Set)
    ensures 0 < |P.ParseFrom(b, o, params).value| <= 64
    decreases |b| - o
  {
    hide P.ParseFrom, Proper, U16, Set;
    if o == |b| {
      nals := [];
      assert b[o..] == P.Sized([]) && params + [] == params;
      NothingHeld(b, o, params);
    } else {
      var n, next := ParsedTurn(b, o, params);
      var rest := ParsedIsHeld(b, o + 2 + |n|, next);
      nals := [n] + rest;
      KeptCons(n, rest);
      assert next + Kept(rest, Set) == params + Kept(nals, Set);
      HeldCons(b, o, |n|, n, rest);
    }
  }

  lemma HeldCons(b: seq<byte>, o: nat, size: nat, n: Nal, rest: seq<Nal>)
    requires o + 2 + size <= |b| && size == U16(b[o], b[o + 1]) && n == b[o + 2..o + 2 + size] && Proper(n)
    requires Holds(b, o + 2 + size, rest)
    ensures Holds(b, o, [n] + rest)
  {
    hide P.Sized, U16, BE16, Proper;
    assert ([n] + rest)[1..] == rest;
    SizedFirst([n] + rest);
    Halves(b[o], b[o + 1]);
    assert b[o..] == [b[o], b[o + 1]] + n + b[o + 2 + size..];
  }

  /**
   A packet teaches these parameter sets under a framing exactly if it consists of proper NAL units behind their sizes,
   among which are these sets, from one to 64 of them.
   */
  lemma ParsedIff(b: seq<byte>, o: nat, sets: seq<Nal>)
    ensures P.ParseFrom(b, o, []) == Some(sets)
            <==> 1 <= |sets| <= 64 && exists nals :: Holds(b, o, nals) && Kept(nals, Set) == sets
  {
    hide P.ParseFrom, P.Sized, Proper, Set;
    if o > |b| {
      BehindTheEnd(b, o);
    } else if P.ParseFrom(b, o, []) == Some(sets) {
      var nals := ParsedIsHeld(b, o, []);
      assert [] + Kept(nals, Set) == Kept(nals, Set);
    }
    if nals :| Holds(b, o, nals) && Kept(nals, Set) == sets && 1 <= |sets| <= 64 {
      assert [] + Kept(nals, Set) == Kept(nals, Set);
      HeldIsParsed(b, o, [], nals);
    }
  }

  lemma BehindTheEnd(b: seq<byte>, o: nat)
    requires o > |b|
    ensures P.ParseFrom(b, o, []) == None
  {
  }

  // ----- pictures

  lemma {:induction false} ParamsInAre(nals: seq<Nal>)
    ensures forall n :: n in ParamsIn(nals) <==> n in nals && Set(n) && |n| <= 65536
  {
    if nals != [] {
      ParamsInAre(nals[1..]);
      assert nals == [nals[0]] + nals[1..];
      if |nals[0]| > 0 {
        KindOf(nals[0]);
      }
    }
  }

  /** A picture teaches the parameter sets that it carries, of at most 64 KiB each, until 64 are known. */
  lemma PictureTeaches(s: State, key: Key, nals: seq<Nal>, donl: u16)
    requires ParamsOk(s.params)
    ensures var r := Present(s, key, nals, donl).params;
            && (forall n <- s.params :: n in r)
            && (forall n <- nals :: Set(n) && |n| <= 65536 ==> n in r || |r| == 64)
            && forall n <- r :: n in s.params || (n in nals && Set(n) && |n| <= 65536)
  {
    ParamsInAre(nals);
    PresentParams(s, key, nals, donl);
    forall n <- ParamsIn(nals) ensures IsParam(n) {
      KindOf(n);
    }
    hide Set, ParamsIn, LearnAll, IsParam, Present;
    LearnedAll(s.params, ParamsIn(nals));
    LearnedOnly(s.params, ParamsIn(nals));
  }

  lemma PresentParams(s: State, key: Key, nals: seq<Nal>, donl: u16)
    ensures Present(s, key, nals, donl).params == LearnAll(s.params, ParamsIn(nals))
  {
    hide LearnAll, ParamsIn;
  }
}
