/** The grammar of the inputs that the field reader accepts: their bytes, wire type by wire type. */
module ProtobufGrammar {
  import opened Bytes
  import opened Protobuf

  // ----- varints

  /** The number that the low seven bits of the bytes spell, least significant first. */
  function Digits(s: seq<byte>): nat {
    if s == [] then 0 else s[0] % 128 + 128 * Digits(s[1..])
  }

  /** At most `room` bytes, of which only the last one has a clear top bit; the last one possible has one bit. */
  predicate Spelled(s: seq<byte>, room: nat, v: nat) {
    && 1 <= |s| <= room && (forall i :: 0 <= i < |s| - 1 ==> s[i] >= 128)
    && s[|s| - 1] < (if |s| == room then 2 else 128) && v == Digits(s)
  }

  /** A varint has at most ten bytes, the tenth of which is 0 or 1. */
  predicate IsVarint(s: seq<byte>, v: nat) {
    Spelled(s, 10, v)
  }

  lemma SpelledRest(s: seq<byte>, room: nat, v: nat)
    requires |s| > 1
    ensures Spelled(s, room, v)
            <==> s[0] >= 128 && room > 0 && v == s[0] % 128 + 128 * Digits(s[1..])
                 && Spelled(s[1..], room - 1, Digits(s[1..]))
  {
    var rest := s[1..];
    assert rest[|rest| - 1] == s[|s| - 1];
    if s[0] >= 128 && room > 0 && Spelled(rest, room - 1, Digits(rest)) {
      forall i | 0 <= i < |s| - 1 ensures s[i] >= 128 {
        if i > 0 {
          assert rest[i - 1] == s[i];
        }
      }
    }
  }

  lemma SpelledShort(s: seq<byte>, room: nat, v: nat)
    requires |s| <= 1
    ensures Spelled(s, room, v) <==> |s| == 1 <= room && s[0] < (if room == 1 then 2 else 128) && v == s[0] % 128
  {
    if |s| == 1 {
      OneDigit(s);
    }
  }

  lemma {:induction false} VarintFrom(s: seq<byte>, k: nat, v: nat, n: nat)
    requires k <= 9
    ensures ReadVarint(s, k) == Success(Number(v, n)) <==> n <= |s| && Spelled(s[..n], 10 - k, v)
    decreases 9 - k
  {
    hide Digits, Spelled, ReadVarint;
    VarintBounds(s, k);
    VarintTurn(s, k);
    if n <= 1 && n <= |s| {
      SpelledShort(s[..n], 10 - k, v);
      if n == 1 && k < 9 {
        VarintBounds(s[1..], k + 1);
      }
    } else if 2 <= n <= |s| {
      SpelledRest(s[..n], 10 - k, v);
      if s[0] >= 128 && k < 9 {
        assert s[..n][1..] == s[1..][..n - 1];
        VarintFrom(s[1..], k + 1, Digits(s[1..][..n - 1]), n - 1);
        UsedUp(s[1..], k + 1, n - 1);
      } else if k == 9 {
        SpelledRoom(s[..n], v);
      }
    }
  }

  lemma SpelledRoom(s: seq<byte>, v: nat)
    requires |s| > 1
    ensures !Spelled(s, 1, v)
  {
  }

  lemma OneDigit(s: seq<byte>)
    requires |s| == 1
    ensures Digits(s) == s[0] % 128
  {
    assert Digits(s[1..]) == 0;
  }

  lemma {:induction false} UsedUp(s: seq<byte>, k: nat, n: nat)
    requires k <= 9
    ensures var r := ReadVarint(s, k); r.Success? && r.value.used == n ==> n <= |s| && r.value.value == Digits(s[..n])
    decreases 9 - k
  {
    hide Digits;
    VarintBounds(s, k);
    if s != [] && n <= |s| {
      VarintTurn(s, k);
      if s[0] >= 128 && k < 9 && n > 0 {
        UsedUp(s[1..], k + 1, n - 1);
        assert s[..n][1..] == s[1..][..n - 1];
        DigitsStep(s[..n]);
      } else if n == 1 {
        OneDigit(s[..1]);
      }
    }
  }

  lemma DigitsStep(s: seq<byte>)
    requires s != []
    ensures Digits(s) == s[0] % 128 + 128 * Digits(s[1..])
  {
  }

  /** A varint is read exactly from the bytes that spell one. */
  lemma VarintIff(s: seq<byte>, v: nat, n: nat)
    ensures ReadVarint(s, 0) == Success(Number(v, n)) <==> n <= |s| && IsVarint(s[..n], v)
  {
    hide ReadVarint, Spelled;
    VarintFrom(s, 0, v, n);
  }

  // ----- fields

  /**
   A field: `n` bytes of tag, of which the low three bits are the wire type, then what the wire type asks for, up to
   position `m` as a varint.
   */
  predicate IsField(s: seq<byte>, n: nat, m: nat, wireType: nat, f: Field) {
    && f.number >= 1 && n <= m <= |s| && IsVarint(s[..n], 8 * f.number + wireType) && f.bytes == s[m..]
    && match wireType
       case 0 => f.value.Some? && IsVarint(s[n..m], f.value.value) && m == |s|
       case 1 => f.value.None? && n == m && |s| == m + 8
       case 2 => f.value.None? && IsVarint(s[n..m], |s| - m)
       case 5 => f.value.None? && n == m && |s| == m + 4
       case _ => false
  }

  ghost predicate Spells(s: seq<byte>, f: Field) {
    exists n: nat, m: nat, wireType: nat :: IsField(s, n, m, wireType, f)
  }

  lemma ShapeIff(s: seq<byte>, wireType: nat, sh: Shape)
    ensures ReadShape(s, wireType) == Success(sh)
            <==> match wireType
                 case 0 => sh.value.Some? && sh.used <= |s| && IsVarint(s[..sh.used], sh.value.value) && sh.length == 0
                 case 1 => sh == Shape(None, 8, 0)
                 case 2 => sh.value.None? && sh.used <= |s| && IsVarint(s[..sh.used], sh.length)
                 case 5 => sh == Shape(None, 4, 0)
                 case _ => false
  {
    hide ReadVarint, IsVarint;
    if wireType == 0 && sh.value.Some? {
      VarintIff(s, sh.value.value, sh.used);
    } else if wireType == 2 {
      VarintIff(s, sh.length, sh.used);
    }
  }

  /** A field is read exactly from the bytes that spell it. */
  lemma FieldIff(s: seq<byte>, f: Field, used: nat)
    ensures ReadField(s) == Success(Taken(f, used)) <==> used <= |s| && Spells(s[..used], f)
  {
    if ReadField(s) == Success(Taken(f, used)) {
      FieldReadIsSpelled(s, f, used);
    }
    if used <= |s| && Spells(s[..used], f) {
      var n: nat, m: nat, wireType: nat :| IsField(s[..used], n, m, wireType, f);
      SpelledIsRead(s, used, n, m, wireType, f);
    }
  }

  lemma FieldReadIsSpelled(s: seq<byte>, f: Field, used: nat)
    requires ReadField(s) == Success(Taken(f, used))
    ensures used <= |s| && Spells(s[..used], f)
  {
    hide ReadVarint, IsVarint, ReadShape;
    var tag := ReadVarint(s, 0).value;
    VarintBounds(s, 0);
    VarintIff(s, tag.value, tag.used);
    var rest, w := s[tag.used..], tag.value % 8;
    VarintBounds(rest, 0);
    var sh := ReadShape(rest, w).value;
    ShapeIff(rest, w, sh);
    assert s[..used][..tag.used] == s[..tag.used];
    TakenIsField(s, tag.used, w, sh, f, used);
  }

  lemma TakenIsField(s: seq<byte>, n: nat, wireType: nat, sh: Shape, f: Field, used: nat)
    requires n <= |s| && used == n + sh.used + sh.length <= |s| && f.value == sh.value && f.number >= 1
    requires f.bytes == s[n..][sh.used..sh.used + sh.length]
    requires IsVarint(s[..used][..n], 8 * f.number + wireType)
    requires ReadShape(s[n..], wireType) == Success(sh)
    ensures Spells(s[..used], f)
  {
    hide IsVarint, ReadShape;
    ShapeIff(s[n..], wireType, sh);
    var t, m := s[..used], n + sh.used;
    assert t[n..m] == s[n..][..sh.used] && t[m..] == f.bytes;
    assert IsField(t, n, m, wireType, f);
  }

  lemma SpelledIsRead(s: seq<byte>, used: nat, n: nat, m: nat, wireType: nat, f: Field)
    requires used <= |s| && IsField(s[..used], n, m, wireType, f)
    ensures ReadField(s) == Success(Taken(f, used))
  {
    hide ReadVarint, IsVarint, ReadShape;
    var t, rest := s[..used], s[n..];
    assert t[..n] == s[..n] && t[n..m] == rest[..m - n] && t[m..] == rest[m - n..used - n];
    VarintIff(s, 8 * f.number + wireType, n);
    VarintBounds(rest, 0);
    var sh := Shape(f.value, if wireType == 0 then 0 else used - m, m - n);
    ShapeIff(rest, wireType, sh);
  }

  // ----- inputs

  /** The input is the spellings of the fields, one behind the other. */
  ghost predicate AllSpelled(s: seq<byte>, fs: seq<Field>)
    decreases |fs|
  {
    if fs == [] then s == []
    else exists k :: 0 <= k <= |s| && Spells(s[..k], fs[0]) && AllSpelled(s[k..], fs[1..])
  }

  lemma {:induction false} ParseIff(s: seq<byte>, count: nat, fs: seq<Field>)
    requires count <= 4096
    ensures Parse(s, count) == Success(fs) <==> count + |fs| <= 4096 && AllSpelled(s, fs)
    decreases |s|
  {
    hide ReadField, Spells;
    if s != [] && count < 4096 {
      FieldUsed(s);
      if fs != [] && ReadField(s).Success? {
        var t := ReadField(s).value;
        FieldIff(s, t.field, t.used);
        ParseIff(s[t.used..], count + 1, fs[1..]);
        assert [fs[0]] + fs[1..] == fs;
      }
      if fs != [] && AllSpelled(s, fs) {
        var k :| 0 <= k <= |s| && Spells(s[..k], fs[0]) && AllSpelled(s[k..], fs[1..]);
        FieldIff(s, fs[0], k);
      }
    }
    if s == [] && fs != [] && AllSpelled(s, fs) {
      var k :| 0 <= k <= |s| && Spells(s[..k], fs[0]) && AllSpelled(s[k..], fs[1..]);
      assert k == 0 && s[..k] == s;
      NothingSpells(fs[0]);
    }
  }

  lemma NothingSpells(f: Field)
    ensures !Spells([], f)
  {
  }

  /**
   The reader accepts exactly the inputs of at most 1 MiB that spell at most 4096 fields one behind the other, and
   returns those fields.
   */
  lemma FieldsIff(s: seq<byte>, fs: seq<Field>)
    ensures Fields(s) == Success(fs) <==> |s| <= 1048576 && |fs| <= 4096 && AllSpelled(s, fs)
  {
    hide Parse, AllSpelled;
    ParseIff(s, 0, fs);
  }
}
