/**
 The protobuf subset used in offers and answers: the varint and field writers, and the bounded field reader.

 A shift is a multiplication or division by a power of two; the digits of a varint never overlap, so joining them is
 an addition.
 */
module Protobuf {
  import opened Bytes

  const U64_END := 0x1_0000_0000_0000_0000
  const MAX_INPUT := 1048576
  const MAX_FIELDS := 4096

  datatype ProtoError = TooLong | TooMany | Truncated | VarintOverflow | BadVarint | BadField | BadWireType

  // ----- varints

  /** Seven bits a byte, least significant first, the top bit marking that more follow. */
  function Varint(v: nat): (s: seq<byte>)
    ensures |s| > 0
  {
    if v < 128 then [v] else [v % 128 + 128] + Varint(v / 128)
  }

  datatype Number = Number(value: nat, used: nat)

  /** How large the digits from position `k` on may become: everything fits 64 bits. */
  function Cap(k: nat): nat
    requires k <= 9
    decreases 9 - k
  {
    if k == 9 then 2 else 128 * Cap(k + 1)
  }

  lemma CapAll()
    ensures Cap(0) == U64_END
  {
    assert Cap(7) == 128 * 128 * 2;
    assert Cap(5) == 128 * 128 * Cap(7);
    assert Cap(3) == 128 * 128 * Cap(5);
    assert Cap(1) == 128 * 128 * Cap(3);
  }

  /** The varint at the front of `s`, as digits from position `k` on. */
  function ReadVarint(s: seq<byte>, k: nat): Result<Number, ProtoError>
    requires k <= 10
    decreases 10 - k
  {
    if k == 10 then Failure(BadVarint)
    else if s == [] then Failure(Truncated)
    else if k == 9 && s[0] > 1 then Failure(VarintOverflow)
    else if s[0] < 128 then Success(Number(s[0], 1))
    else
      match ReadVarint(s[1..], k + 1)
      case Failure(e) => Failure(e)
      case Success(n) => Success(Number(s[0] % 128 + 128 * n.value, n.used + 1))
  }

  /** Ten bytes at most, a value that fits, and the error after the loop is never reached. */
  lemma {:induction false} VarintBounds(s: seq<byte>, k: nat)
    requires k <= 9
    ensures ReadVarint(s, k) != Failure(BadVarint)
    ensures var r := ReadVarint(s, k);
            r.Success? ==> r.value.value < Cap(k) && 1 <= r.value.used <= 10 - k && r.value.used <= |s|
    decreases 9 - k
  {
    if k < 9 {
      CapGrows(k + 1);
      if s != [] && s[0] >= 128 {
        VarintBounds(s[1..], k + 1);
      }
    }
  }

  lemma CapGrows(k: nat)
    requires k <= 9
    ensures Cap(k) >= 2
    decreases 9 - k
  {
    if k < 9 {
      CapGrows(k + 1);
    }
  }

  /** Reading inverts writing for every 64-bit value, and reads exactly what was written. */
  lemma {:induction false} VarintRoundTrip(v: nat, k: nat)
    requires k <= 9 && v < Cap(k)
    ensures ReadVarint(Varint(v), k) == Success(Number(v, |Varint(v)|)) && |Varint(v)| <= 10 - k
    decreases v
  {
    if v >= 128 {
      VarintRoundTrip(v / 128, k + 1);
      assert Varint(v)[1..] == Varint(v / 128);
    }
  }

  /** What was read does not depend on what follows. */
  lemma {:induction false} VarintLocal(s: seq<byte>, t: seq<byte>, k: nat)
    requires k <= 10 && ReadVarint(s, k).Success?
    ensures ReadVarint(s + t, k) == ReadVarint(s, k)
    decreases 10 - k
  {
    if s[0] >= 128 {
      VarintLocal(s[1..], t, k + 1);
      assert (s + t)[1..] == s[1..] + t;
    }
  }

  /** Of all spellings of a value the writer's is the shortest. */
  lemma {:induction false} VarintShortest(s: seq<byte>, k: nat)
    requires k <= 9 && ReadVarint(s, k).Success?
    ensures |Varint(ReadVarint(s, k).value.value)| <= ReadVarint(s, k).value.used
    decreases 9 - k
  {
    if s[0] >= 128 {
      VarintShortest(s[1..], k + 1);
      VarintBounds(s[1..], k + 1);
      var rest := ReadVarint(s[1..], k + 1).value;
      var v := s[0] % 128 + 128 * rest.value;
      assert v / 128 == rest.value;
    }
  }

  /** The writer's loop. */
  method WriteVarint(value: u64) returns (o: seq<byte>)
    ensures o == Varint(value)
  {
    o := [];
    var v: u64 := value;
    while v > 127
      invariant Varint(value) == o + Varint(v)
      decreases v
    {
      assert Varint(v) == [v % 128 + 128] + Varint(v / 128);
      assert o + ([v % 128 + 128] + Varint(v / 128)) == o + [v % 128 + 128] + Varint(v / 128);
      o := o + [v % 128 + 128];
      v := v / 128;
    }
    o := o + [v];
  }

  function Pow128(k: nat): (p: nat)
    ensures p > 0
  {
    if k == 0 then 1 else 128 * Pow128(k - 1)
  }

  lemma {:induction false} PowCap(k: nat)
    requires k <= 9
    ensures Pow128(k) * Cap(k) == U64_END
  {
    if k == 0 {
      CapAll();
    } else {
      PowCap(k - 1);
      var p, c := Pow128(k - 1), Cap(k);
      assert Pow128(k) == 128 * p && Cap(k - 1) == 128 * c;
      assert (128 * p) * c == p * (128 * c);
    }
  }

  lemma Scaled(v: nat, p: nat, digit: nat, rest: nat)
    ensures v + p * (digit + 128 * rest) == (v + p * digit) + (128 * p) * rest
  {
    assert p * (digit + 128 * rest) == p * digit + p * (128 * rest);
    assert p * (128 * rest) == (128 * p) * rest;
  }

  /** `a + p * x` for a value already read, below the digits still to come. */
  predicate Joins(all: Result<Number, ProtoError>, v: nat, p: nat, done: nat, rest: Result<Number, ProtoError>) {
    match rest
    case Failure(e) => all == Failure(e)
    case Success(n) => all == Success(Number(v + p * n.value, done + n.used))
  }

  /** The reader's loop: a cursor into the buffer and an accumulator that always fits 64 bits. */
  method ReadVarintAt(b: seq<byte>, start: nat) returns (r: Result<u64, ProtoError>, p: nat)
    requires start <= |b|
    ensures start <= p <= |b|
    ensures match ReadVarint(b[start..], 0)
            case Failure(e) => r == Failure(e)
            case Success(n) => r == Success(n.value) && p == start + n.used
  {
    hide ReadVarint, Cap, Pow128, Joins;
    p := start;
    var v: nat, scale: nat := 0, 1;
    ghost var all := ReadVarint(b[start..], 0);
    VarintBounds(b[start..], 0);
    CapAll();
    PowStart();
    JoinsStart(all);
    for k := 0 to 10
      invariant start <= p <= |b| && p == start + k && scale == Pow128(k)
      invariant Joins(all, v, scale, k, ReadVarint(b[p..], k))
    {
      PowStep(k);
      VarintTurn(b[p..], k);
      JoinsEnd(all, v, scale, k, ReadVarint(b[p..], k));
      if p >= |b| {
        return Failure(Truncated), p;
      }
      var c: nat := b[p];
      p := p + 1;
      if k == 9 && c > 1 {
        return Failure(VarintOverflow), p;
      }
      assert b[p - 1..][1..] == b[p..];
      if c < 128 {
        return Success(v + scale * c), p;
      }
      JoinsStep(all, v, scale, k, c, ReadVarint(b[p - 1..], k), ReadVarint(b[p..], k + 1));
      v := v + scale * (c % 128);
      scale := 128 * scale;
    }
    assert false by {
      VarintEnd(b[p..]);
      JoinsEnd(all, v, scale, 10, ReadVarint(b[p..], 10));
    }
  }

  lemma JoinsStart(r: Result<Number, ProtoError>)
    ensures Joins(r, 0, 1, 0, r)
  {
  }

  lemma JoinsEnd(all: Result<Number, ProtoError>, v: nat, p: nat, done: nat, rest: Result<Number, ProtoError>)
    requires Joins(all, v, p, done, rest)
    ensures rest.Failure? ==> all == rest
    ensures rest.Success? ==> all == Success(Number(v + p * rest.value.value, done + rest.value.used))
  {
  }

  lemma JoinsStep(all: Result<Number, ProtoError>, v: nat, p: nat, done: nat, c: nat,
                  rest: Result<Number, ProtoError>, next: Result<Number, ProtoError>)
    requires Joins(all, v, p, done, rest)
    requires rest ==
             if next.Failure? then next else Success(Number(c % 128 + 128 * next.value.value, next.value.used + 1))
    ensures Joins(all, v + p * (c % 128), 128 * p, done + 1, next)
  {
    if next.Success? {
      Scaled(v, p, c % 128, next.value.value);
    }
  }

  lemma PowStart()
    ensures Pow128(0) == 1
  {
  }

  lemma PowStep(k: nat)
    ensures Pow128(k + 1) == 128 * Pow128(k)
  {
  }

  lemma VarintEnd(s: seq<byte>)
    ensures ReadVarint(s, 10) == Failure(BadVarint)
  {
  }

  /** One turn of the reader. */
  lemma VarintTurn(s: seq<byte>, k: nat)
    requires k < 10
    ensures s == [] ==> ReadVarint(s, k) == Failure(Truncated)
    ensures s != [] && k == 9 && s[0] > 1 ==> ReadVarint(s, k) == Failure(VarintOverflow)
    ensures s != [] && !(k == 9 && s[0] > 1) && s[0] < 128 ==> ReadVarint(s, k) == Success(Number(s[0], 1))
    ensures s != [] && k < 9 && s[0] >= 128 ==>
      var r := ReadVarint(s[1..], k + 1);
      ReadVarint(s, k) == if r.Failure? then r else Success(Number(s[0] % 128 + 128 * r.value.value, r.value.used + 1))
  {
  }

  // ----- fields

  datatype Field = Field(number: nat, value: Option<nat>, bytes: seq<byte>)

  datatype Taken = Taken(field: Field, used: nat)

  /** The number or length that follows a tag, and how many bytes of payload. */
  datatype Shape = Shape(value: Option<nat>, length: nat, used: nat)

  function ReadShape(s: seq<byte>, wireType: nat): Result<Shape, ProtoError> {
    if wireType == 0 || wireType == 2 then
      match ReadVarint(s, 0)
      case Failure(e) => Failure(e)
      case Success(n) =>
        Success(if wireType == 0 then Shape(Some(n.value), 0, n.used) else Shape(None, n.value, n.used))
    else if wireType == 1 then Success(Shape(None, 8, 0))
    else if wireType == 5 then Success(Shape(None, 4, 0))
    else Failure(BadWireType)
  }

  function ReadField(s: seq<byte>): Result<Taken, ProtoError> {
    match ReadVarint(s, 0)
    case Failure(e) => Failure(e)
    case Success(tag) =>
      VarintBounds(s, 0);
      if tag.value / 8 == 0 then Failure(BadField)
      else
        var rest := s[tag.used..];
        match ReadShape(rest, tag.value % 8)
        case Failure(e) => Failure(e)
        case Success(sh) =>
          VarintBounds(rest, 0);
          if sh.length > |rest| - sh.used then Failure(Truncated)
          else Success(Taken(Field(tag.value / 8, sh.value, rest[sh.used..sh.used + sh.length]),
                             tag.used + sh.used + sh.length))
  }

  lemma FieldUsed(s: seq<byte>)
    ensures ReadField(s).Success? ==> 1 <= ReadField(s).value.used <= |s|
  {
    hide ReadVarint;
    VarintBounds(s, 0);
    if ReadVarint(s, 0).Success? {
      VarintBounds(s[ReadVarint(s, 0).value.used..], 0);
    }
  }

  function Cons(f: Field, r: Result<seq<Field>, ProtoError>): Result<seq<Field>, ProtoError> {
    match r
    case Failure(e) => Failure(e)
    case Success(fs) => Success([f] + fs)
  }

  function Parse(s: seq<byte>, count: nat): Result<seq<Field>, ProtoError>
    decreases |s|
  {
    if s == [] then Success([])
    else if count >= MAX_FIELDS then Failure(TooMany)
    else
      match ReadField(s)
      case Failure(e) => Failure(e)
      case Success(t) =>
        FieldUsed(s);
        Cons(t.field, Parse(s[t.used..], count + 1))
  }

  function Fields(s: seq<byte>): Result<seq<Field>, ProtoError> {
    if |s| > MAX_INPUT then Failure(TooLong) else Parse(s, 0)
  }

  lemma ShapeLocal(s: seq<byte>, t: seq<byte>, wireType: nat)
    requires ReadShape(s, wireType).Success?
    ensures ReadShape(s + t, wireType) == ReadShape(s, wireType) && ReadShape(s, wireType).value.used <= |s|
  {
    hide ReadVarint;
    VarintBounds(s, 0);
    if wireType == 0 || wireType == 2 {
      VarintLocal(s, t, 0);
    }
  }

  lemma FieldLocal(s: seq<byte>, t: seq<byte>)
    requires ReadField(s).Success?
    ensures ReadField(s + t) == ReadField(s)
  {
    hide ReadVarint, ReadShape;
    VarintBounds(s, 0);
    VarintLocal(s, t, 0);
    var tag := ReadVarint(s, 0).value;
    var rest := s[tag.used..];
    assert (s + t)[tag.used..] == rest + t;
    ShapeLocal(rest, t, tag.value % 8);
    var sh := ReadShape(rest, tag.value % 8).value;
    assert (rest + t)[sh.used..sh.used + sh.length] == rest[sh.used..sh.used + sh.length];
  }

  /** Parsing distributes over concatenation, the count of fields carried along. */
  lemma {:induction false} ParseJoins(s: seq<byte>, t: seq<byte>, count: nat)
    requires Parse(s, count).Success?
    ensures var fs := Parse(s, count).value; var r := Parse(t, count + |fs|);
            Parse(s + t, count) == match r case Failure(e) => Failure(e) case Success(more) => Success(fs + more)
    decreases |s|
  {
    hide ReadField;
    if s == [] {
      assert s + t == t;
      if Parse(t, count).Success? {
        assert [] + Parse(t, count).value == Parse(t, count).value;
      }
    } else {
      var f := ReadField(s).value;
      FieldUsed(s);
      FieldLocal(s, t);
      ParseJoins(s[f.used..], t, count + 1);
      assert (s + t)[f.used..] == s[f.used..] + t;
      var fs := Parse(s[f.used..], count + 1).value;
      var r := Parse(t, count + 1 + |fs|);
      if r.Success? {
        assert [f.field] + (fs + r.value) == [f.field] + fs + r.value;
      }
    }
  }

  // ----- the writers

  datatype Item = V(n: u64, value: u64) | B(n: u64, bytes: seq<byte>)

  /** A tag is shifted within 64 bits, so the top three bits of a field number are lost. */
  function Tag(n: u64, wireType: nat): nat
    requires wireType < 8
  {
    n * 8 % U64_END + wireType
  }

  function Encoded(i: Item): seq<byte> {
    match i
    case V(n, value) => Varint(Tag(n, 0)) + Varint(value)
    case B(n, bytes) => Varint(Tag(n, 2)) + Varint(|bytes|) + bytes
  }

  function EncodedAll(items: seq<Item>): seq<byte> {
    if items == [] then [] else Encoded(items[0]) + EncodedAll(items[1..])
  }

  const NUMBERS := 0x2000_0000_0000_0000

  function Read(i: Item): Field {
    match i
    case V(n, value) => Field(n % NUMBERS, Some(value), [])
    case B(n, bytes) => Field(n % NUMBERS, None, bytes)
  }

  function ReadAll(items: seq<Item>): (fs: seq<Field>)
    ensures |fs| == |items| && forall i :: 0 <= i < |items| ==> fs[i] == Read(items[i])
  {
    seq(|items|, i requires 0 <= i < |items| => Read(items[i]))
  }

  lemma TagParts(n: u64, wireType: nat)
    requires wireType < 8
    ensures Tag(n, wireType) < U64_END && Tag(n, wireType) / 8 == n % NUMBERS && Tag(n, wireType) % 8 == wireType
  {
    var m := n % NUMBERS;
    assert n * 8 % U64_END == m * 8;
  }

  lemma TagReads(tag: nat, rest: seq<byte>)
    requires tag < U64_END
    ensures ReadVarint(Varint(tag) + rest, 0) == Success(Number(tag, |Varint(tag)|))
    ensures (Varint(tag) + rest)[|Varint(tag)|..] == rest
  {
    hide Varint, ReadVarint, Cap;
    CapAll();
    VarintRoundTrip(tag, 0);
    VarintLocal(Varint(tag), rest, 0);
  }

  /** A written field is read back whole; or, when its number was lost, refused. */
  lemma ItemReads(i: Item)
    requires i.B? ==> |i.bytes| < U64_END
    ensures ReadField(Encoded(i))
            == if i.n % NUMBERS == 0 then Failure(BadField) else Success(Taken(Read(i), |Encoded(i)|))
  {
    hide Varint, ReadVarint, Cap, Tag;
    match i
    case V(n, value) =>
      TagParts(n, 0);
      TagReads(Tag(n, 0), Varint(value));
      TagReads(value, []);
      assert Varint(value) + [] == Varint(value);
    case B(n, bytes) =>
      TagParts(n, 2);
      var length := Varint(|bytes|);
      TagReads(Tag(n, 2), length + bytes);
      assert Varint(Tag(n, 2)) + (length + bytes) == Encoded(i);
      TagReads(|bytes|, bytes);
      assert (length + bytes)[|length|..|length| + |bytes|] == bytes;
  }

  lemma ItemNonempty(i: Item)
    ensures |Encoded(i)| > 0
  {
    hide Varint;
  }

  lemma ParseOne(i: Item, rest: seq<byte>, count: nat)
    requires (i.B? ==> |i.bytes| < U64_END) && count < MAX_FIELDS
    ensures Parse(Encoded(i) + rest, count)
         == if i.n % NUMBERS == 0 then Failure(BadField) else Cons(Read(i), Parse(rest, count + 1))
  {
    hide ReadField, Encoded, Read;
    ItemReads(i);
    ItemNonempty(i);
    var s := Encoded(i) + rest;
    if i.n % NUMBERS != 0 {
      FieldLocal(Encoded(i), rest);
      assert s[|Encoded(i)|..] == rest;
    } else {
      LostNumber(i, rest);
    }
  }

  lemma LostNumber(i: Item, rest: seq<byte>)
    requires i.n % NUMBERS == 0
    ensures ReadField(Encoded(i) + rest) == Failure(BadField)
  {
    hide Varint, ReadVarint, Tag;
    match i
    case V(n, value) =>
      TagParts(n, 0);
      TagReads(Tag(n, 0), Varint(value) + rest);
      assert Varint(Tag(n, 0)) + (Varint(value) + rest) == Encoded(i) + rest;
    case B(n, bytes) =>
      TagParts(n, 2);
      TagReads(Tag(n, 2), Varint(|bytes|) + bytes + rest);
      assert Varint(Tag(n, 2)) + (Varint(|bytes|) + bytes + rest) == Encoded(i) + rest;
  }

  predicate Small(items: seq<Item>) {
    forall i :: 0 <= i < |items| ==> items[i].B? ==> |items[i].bytes| < U64_END
  }

  /** No field number is a multiple of 2^61, which its tag would turn into the forbidden number zero. */
  predicate Nonzero(items: seq<Item>) {
    forall i :: 0 <= i < |items| ==> items[i].n % NUMBERS != 0
  }

  lemma NonzeroFirst(items: seq<Item>)
    requires items != []
    ensures Nonzero(items) <==> items[0].n % NUMBERS != 0 && Nonzero(items[1..])
  {
    if items[0].n % NUMBERS != 0 && Nonzero(items[1..]) {
      forall i | 0 <= i < |items| ensures items[i].n % NUMBERS != 0 {
        if i > 0 {
          assert items[1..][i - 1] == items[i];
        }
      }
    }
  }

  lemma {:induction false} ParseItems(items: seq<Item>, count: nat)
    requires Small(items) && count + |items| <= MAX_FIELDS
    ensures Parse(EncodedAll(items), count) == if Nonzero(items) then Success(ReadAll(items)) else Failure(BadField)
    decreases |items|
  {
    hide Encoded, Read, Nonzero, Parse;
    if items == [] {
      ParseNone(count);
    } else {
      SmallRest(items);
      ParseOne(items[0], EncodedAll(items[1..]), count);
      ParseItems(items[1..], count + 1);
      NonzeroFirst(items);
      assert [Read(items[0])] + ReadAll(items[1..]) == ReadAll(items);
    }
  }

  lemma ParseNone(count: nat)
    ensures Nonzero([]) && Parse(EncodedAll([]), count) == Success(ReadAll([]))
  {
  }

  lemma SmallRest(items: seq<Item>)
    requires Small(items) && items != []
    ensures Small(items[1..]) && (items[0].B? ==> |items[0].bytes| < U64_END)
  {
  }

  /** Within the limits, what was written parses exactly when no number is a multiple of 2^61, with reduced numbers. */
  lemma FieldsParse(items: seq<Item>)
    requires Small(items) && |EncodedAll(items)| <= MAX_INPUT && |items| <= MAX_FIELDS
    ensures Fields(EncodedAll(items)) == if Nonzero(items) then Success(ReadAll(items)) else Failure(BadField)
  {
    hide Parse, EncodedAll, Nonzero, ReadAll, Small;
    ParseItems(items, 0);
  }

  /** The field an item stands for, under the number it was given. */
  function Meant(i: Item): Field {
    match i
    case V(n, value) => Field(n, Some(value), [])
    case B(n, bytes) => Field(n, None, bytes)
  }

  function MeantAll(items: seq<Item>): (fs: seq<Field>)
    ensures |fs| == |items| && forall i :: 0 <= i < |items| ==> fs[i] == Meant(items[i])
  {
    seq(|items|, i requires 0 <= i < |items| => Meant(items[i]))
  }

  lemma KeepsNumber(i: Item)
    ensures Read(i) == Meant(i) <==> i.n < NUMBERS
    ensures i.n < NUMBERS ==> i.n % NUMBERS == i.n
  {
  }

  /** The fields written come back, as they were meant, exactly when all their numbers are from 1 to 2^61 - 1. */
  lemma FieldsInvert(items: seq<Item>)
    requires Small(items) && |EncodedAll(items)| <= MAX_INPUT && |items| <= MAX_FIELDS
    ensures Fields(EncodedAll(items)) == Success(MeantAll(items))
            <==> forall i :: 0 <= i < |items| ==> 0 < items[i].n < NUMBERS
  {
    hide Fields, EncodedAll, Small, Read, Meant;
    FieldsParse(items);
    forall i | 0 <= i < |items|
      ensures Read(items[i]) == Meant(items[i]) <==> items[i].n < NUMBERS
      ensures items[i].n < NUMBERS ==> items[i].n % NUMBERS == items[i].n
    {
      KeepsNumber(items[i]);
    }
    if Fields(EncodedAll(items)) == Success(MeantAll(items)) {
      forall i | 0 <= i < |items| ensures 0 < items[i].n < NUMBERS {
        assert ReadAll(items)[i] == MeantAll(items)[i];
      }
    }
    if forall i :: 0 <= i < |items| ==> 0 < items[i].n < NUMBERS {
      assert ReadAll(items) == MeantAll(items);
    }
  }

  /** The first number that is lost without an error: field 2^61 + 1 is read as field 1. */
  lemma NumberLost(value: u64)
    ensures Fields(EncodedAll([V(NUMBERS + 1, value)])) == Success([Field(1, Some(value), [])])
  {
    hide Fields, Varint;
    var items := [V(NUMBERS + 1, value)];
    OneItemFits(items[0]);
    FieldsParse(items);
    assert ReadAll(items) == [Read(items[0])];
  }

  lemma OneItemFits(i: Item)
    requires i.V?
    ensures |EncodedAll([i])| <= 20
  {
    hide Varint, Tag, Cap;
    CapAll();
    TagParts(i.n, 0);
    VarintRoundTrip(Tag(i.n, 0), 0);
    VarintRoundTrip(i.value, 0);
    assert [i][1..] == [];
  }

  // ----- the readers as loops

  /** What follows a tag, at the cursor. */
  method ReadShapeAt(b: seq<byte>, start: nat, wireType: nat) returns (r: Result<Shape, ProtoError>, p: nat)
    requires start <= |b|
    ensures start <= p <= |b| && r == ReadShape(b[start..], wireType) && (r.Success? ==> p == start + r.value.used)
  {
    hide ReadVarint;
    p := start;
    VarintBounds(b[start..], 0);
    match wireType {
      case 0 =>
        var v;
        v, p := ReadVarintAt(b, p);
        return if v.Failure? then Failure(v.error) else Success(Shape(Some(v.value), 0, p - start)), p;
      case 1 => return Success(Shape(None, 8, 0)), p;
      case 2 =>
        var v;
        v, p := ReadVarintAt(b, p);
        return if v.Failure? then Failure(v.error) else Success(Shape(None, v.value, p - start)), p;
      case 5 => return Success(Shape(None, 4, 0)), p;
      case _ => return Failure(BadWireType), p;
    }
  }

  /** One field at the cursor. */
  method ReadFieldAt(b: seq<byte>, start: nat) returns (r: Result<Field, ProtoError>, p: nat)
    requires start <= |b|
    ensures start <= p <= |b|
    ensures match ReadField(b[start..])
            case Failure(e) => r == Failure(e)
            case Success(t) => r == Success(t.field) && p == start + t.used
  {
    hide ReadVarint, ReadShape;
    VarintBounds(b[start..], 0);
    var tag;
    tag, p := ReadVarintAt(b, start);
    if tag.Failure? {
      return Failure(tag.error), p;
    }
    var number := tag.value / 8;
    if number == 0 {
      return Failure(BadField), p;
    }
    ghost var rest := b[p..];
    assert b[start..][p - start..] == rest;
    ghost var afterTag := p;
    var shape;
    shape, p := ReadShapeAt(b, p, tag.value % 8);
    if shape.Failure? {
      return Failure(shape.error), p;
    }
    var length := shape.value.length;
    if length > |b| - p {
      return Failure(Truncated), p;
    }
    assert rest[p - afterTag..p - afterTag + length] == b[p..p + length];
    return Success(Field(number, shape.value.value, b[p..p + length])), p + length;
  }

  method ReadFields(b: seq<byte>) returns (r: Result<seq<Field>, ProtoError>)
    ensures r == Fields(b)
  {
    hide ReadField;
    if |b| > MAX_INPUT {
      return Failure(TooLong);
    }
    var p, out := 0, [];
    assert b[0..] == b;
    PrependNothing(Parse(b, 0));
    while p < |b|
      invariant p <= |b|
      invariant Parse(b, 0) == Prepended(out, Parse(b[p..], |out|))
      decreases |b| - p
    {
      if |out| >= MAX_FIELDS {
        return Failure(TooMany);
      }
      FieldUsed(b[p..]);
      var f, q := ReadFieldAt(b, p);
      if f.Failure? {
        return Failure(f.error);
      }
      assert b[p..][q - p..] == b[q..];
      PrependOne(out, f.value, Parse(b[q..], |out| + 1));
      out := out + [f.value];
      p := q;
    }
    assert out + [] == out;
    return Success(out);
  }

  function Prepended(out: seq<Field>, r: Result<seq<Field>, ProtoError>): Result<seq<Field>, ProtoError> {
    match r
    case Failure(e) => Failure(e)
    case Success(fs) => Success(out + fs)
  }

  lemma PrependNothing(r: Result<seq<Field>, ProtoError>)
    ensures Prepended([], r) == r
  {
    if r.Success? {
      assert [] + r.value == r.value;
    }
  }

  lemma PrependOne(out: seq<Field>, f: Field, r: Result<seq<Field>, ProtoError>)
    ensures Prepended(out, Cons(f, r)) == Prepended(out + [f], r)
  {
    if r.Success? {
      assert out + ([f] + r.value) == out + [f] + r.value;
    }
  }
}
