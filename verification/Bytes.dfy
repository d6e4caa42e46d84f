/**
 Machine integers, big-endian fields and exclusive-or, shared by every component.

 A byte is an integer below 256, so a shift is a division and a mask is a remainder;
 `HeaderBits` ties the two readings of the HEVC header fields together.
 */
module Bytes {
  type byte = x: int | 0 <= x < 256
  type u16 = x: int | 0 <= x < 0x1_0000
  type u32 = x: int | 0 <= x < 0x1_0000_0000
  type u64 = x: int | 0 <= x < 0x1_0000_0000_0000_0000

  /** The largest body of one record on the control channel. */
  const MAX_BODY := 65498

  datatype Option<+T> = None | Some(value: T)

  datatype Result<+T, +E> = Success(value: T) | Failure(error: E)

  /** `a.saturating_sub(b)`. */
  function SatSub(a: nat, b: nat): (d: nat)
    ensures b <= a ==> d == a - b
    ensures a <= b ==> d == 0
  {
    if b <= a then a - b else 0
  }

  function Min(a: int, b: int): int {
    if a <= b then a else b
  }

  // ----- big-endian fields

  /** The number a byte string spells, most significant byte first. */
  function Value(s: seq<byte>): nat {
    if s == [] then 0 else 256 * Value(s[..|s| - 1]) + s[|s| - 1]
  }

  /** The `k` least significant bytes of `n`, most significant first. */
  function ToBytes(n: nat, k: nat): (s: seq<byte>)
    ensures |s| == k
  {
    if k == 0 then [] else ToBytes(n / 256, k - 1) + [n % 256]
  }

  function Pow256(k: nat): (p: nat)
    ensures p > 0
  {
    if k == 0 then 1 else 256 * Pow256(k - 1)
  }

  lemma {:induction false} ToBytesValue(n: nat, k: nat)
    requires n < Pow256(k)
    ensures Value(ToBytes(n, k)) == n
  {
    if k > 0 {
      assert n / 256 < Pow256(k - 1);
      ToBytesValue(n / 256, k - 1);
      assert ToBytes(n, k)[..k - 1] == ToBytes(n / 256, k - 1);
    }
  }

  lemma ShiftValue(v: nat, p: nat, w: nat)
    ensures 256 * (v * p + w) == v * (256 * p) + 256 * w
  {
  }

  lemma {:induction false} ValueConcat(a: seq<byte>, b: seq<byte>)
    ensures Value(a + b) == Value(a) * Pow256(|b|) + Value(b)
  {
    if b == [] {
      assert a + b == a;
    } else {
      var c := b[..|b| - 1];
      ValueConcat(a, c);
      assert (a + b)[..|a + b| - 1] == a + c;
      ShiftValue(Value(a), Pow256(|c|), Value(c));
      assert (a + b)[|a + b| - 1] == b[|b| - 1];
    }
  }

  lemma {:induction false} ValueBound(s: seq<byte>)
    ensures Value(s) < Pow256(|s|)
  {
    if s != [] {
      ValueBound(s[..|s| - 1]);
    }
  }

  lemma {:induction false} ValueInjective(a: seq<byte>, b: seq<byte>)
    requires |a| == |b| && Value(a) == Value(b)
    ensures a == b
  {
    if a != [] {
      ValueInjective(a[..|a| - 1], b[..|b| - 1]);
      assert a == a[..|a| - 1] + [a[|a| - 1]];
      assert b == b[..|b| - 1] + [b[|b| - 1]];
    }
  }

  /** Two bytes in network order. */
  function U16(b0: byte, b1: byte): u16 {
    ValueOfTwo(b0, b1);
    Value([b0, b1])
  }

  /** Four bytes in network order. */
  function U32(b0: byte, b1: byte, b2: byte, b3: byte): u32 {
    ValueOfFour(b0, b1, b2, b3);
    Value([b0, b1, b2, b3])
  }

  lemma ValueOfTwo(b0: byte, b1: byte)
    ensures Value([b0, b1]) == b0 * 256 + b1
  {
    assert [b0, b1][..1] == [b0] && [b0][..0] == [];
    assert Value([b0]) == b0;
  }

  lemma ValueOfFour(b0: byte, b1: byte, b2: byte, b3: byte)
    ensures Value([b0, b1, b2, b3]) == (b0 * 256 + b1) * 65536 + (b2 * 256 + b3)
  {
    ValueOfTwo(b0, b1);
    assert [b0, b1, b2, b3][..3] == [b0, b1, b2] && [b0, b1, b2][..2] == [b0, b1];
    assert Value([b0, b1, b2]) == 256 * Value([b0, b1]) + b2;
  }

  function BE16(n: u16): (s: seq<byte>)
    ensures |s| == 2 && U16(s[0], s[1]) == n && Value(s) == n
  {
    assert Pow256(2) == 65536;
    ToBytesValue(n, 2);
    var s := ToBytes(n, 2);
    assert s == [s[0], s[1]];
    s
  }

  function BE32(n: u32): (s: seq<byte>)
    ensures |s| == 4 && U32(s[0], s[1], s[2], s[3]) == n && Value(s) == n
  {
    assert Pow256(2) == 65536;
    assert Pow256(4) == 0x1_0000_0000;
    ToBytesValue(n, 4);
    var s := ToBytes(n, 4);
    assert s == [s[0], s[1], s[2], s[3]];
    s
  }

  /** The bytes of a number, one by one. */
  lemma Spelled16(n: u16)
    ensures BE16(n) == [n / 256, n % 256]
  {
    assert ToBytes(n / 256, 1) == [n / 256];
  }

  lemma Spelled32(n: u32)
    ensures BE32(n) == [n / 0x100_0000, n / 0x1_0000 % 256, n / 256 % 256, n % 256]
  {
    var a: nat := n / 256;
    var b: nat := a / 256;
    var c: nat := b / 256;
    assert b == n / 0x1_0000 && c == n / 0x100_0000 < 256;
    assert ToBytes(c, 1) == [c];
    assert ToBytes(b, 2) == [c, b % 256];
    assert ToBytes(a, 3) == [c, b % 256, a % 256];
  }

  /** Reading two bytes and writing the number gives the bytes back. */
  lemma Halves(a: byte, b: byte)
    ensures BE16(U16(a, b)) == [a, b]
  {
    var s := BE16(U16(a, b));
    ValueInjective(s, [a, b]) by { assert s == [s[0], s[1]]; }
  }

  lemma Quarters(a: byte, b: byte, c: byte, d: byte)
    ensures BE32(U32(a, b, c, d)) == [a, b, c, d]
  {
    var s := BE32(U32(a, b, c, d));
    ValueInjective(s, [a, b, c, d]) by { assert s == [s[0], s[1], s[2], s[3]]; }
  }

  // ----- exclusive or

  /** Bitwise exclusive-or of two naturals. */
  function Xor(a: nat, b: nat): nat {
    if a == 0 && b == 0 then 0 else XorBit(a, b) + 2 * Xor(a / 2, b / 2)
  }

  lemma Halve(bit: nat, rest: nat)
    requires bit < 2
    ensures (bit + 2 * rest) % 2 == bit && (bit + 2 * rest) / 2 == rest
  {
  }

  function XorBit(a: nat, b: nat): (bit: nat)
    ensures bit < 2
  {
    (a % 2 + b % 2) % 2
  }

  lemma XorUnfold(a: nat, b: nat)
    ensures Xor(a, b) == XorBit(a, b) + 2 * Xor(a / 2, b / 2)
  {
    hide XorBit;
    if a == 0 && b == 0 {
      XorBitZero();
      assert a / 2 == 0 && b / 2 == 0;
    }
  }

  lemma XorStep(a: nat, b: nat)
    ensures Xor(a, b) % 2 == XorBit(a, b) && Xor(a, b) / 2 == Xor(a / 2, b / 2)
  {
    hide Xor, XorBit;
    XorUnfold(a, b);
    Halve(XorBit(a, b), Xor(a / 2, b / 2));
  }

  lemma XorBitZero()
    ensures XorBit(0, 0) == 0
  {
  }

  lemma XorBitCancel(a: nat, b: nat, x: nat)
    requires x % 2 == XorBit(a, b)
    ensures XorBit(x, b) == a % 2
  {
  }

  lemma {:induction false} XorCancel(a: nat, b: nat)
    ensures Xor(Xor(a, b), b) == a
  {
    if a == 0 && b == 0 {
      assert Xor(0, 0) == 0;
    } else {
      hide Xor, XorBit;
      XorStep(a, b);
      XorStep(Xor(a, b), b);
      XorCancel(a / 2, b / 2);
      XorBitCancel(a, b, Xor(a, b));
      assert a == 2 * (a / 2) + a % 2;
      var x := Xor(Xor(a, b), b);
      assert x == 2 * (x / 2) + x % 2;
    }
  }

  lemma {:induction false} XorZero(a: nat)
    ensures Xor(a, 0) == a && Xor(0, a) == a
  {
    if a != 0 {
      XorZero(a / 2);
    }
  }

  lemma {:induction false} XorByteBound(a: nat, b: nat, bits: nat)
    requires a < Pow2(bits) && b < Pow2(bits)
    ensures Xor(a, b) < Pow2(bits)
  {
    hide XorBit;
    XorUnfold(a, b);
    if bits > 0 {
      XorByteBound(a / 2, b / 2, bits - 1);
    } else {
      assert Xor(0, 0) == 0;
    }
  }

  function Pow2(k: nat): (p: nat)
    ensures p > 0
  {
    if k == 0 then 1 else 2 * Pow2(k - 1)
  }

  lemma Pow2Eight()
    ensures Pow2(8) == 256
  {
    assert Pow2(4) == 16;
  }

  lemma XorFits(a: byte, b: byte)
    ensures Xor(a, b) < 256
  {
    hide Xor, Pow2;
    Pow2Eight();
    XorByteBound(a, b, 8);
  }

  function XorByte(a: byte, b: byte): (c: byte)
    ensures c == Xor(a, b) && Xor(c, b) == a
  {
    hide Xor;
    XorFits(a, b);
    XorCancel(a, b);
    Xor(a, b)
  }

  function XorAll(a: seq<byte>, b: seq<byte>): (c: seq<byte>)
    requires |a| == |b|
    ensures |c| == |a| && forall i :: 0 <= i < |a| ==> c[i] == XorByte(a[i], b[i])
  {
    seq(|a|, i requires 0 <= i < |a| => XorByte(a[i], b[i]))
  }

  /** The pieces joined in order. */
  function Concat(pieces: seq<seq<byte>>): seq<byte> {
    if pieces == [] then [] else pieces[0] + Concat(pieces[1..])
  }

  lemma {:induction false} ConcatAppend(pieces: seq<seq<byte>>, last: seq<byte>)
    ensures Concat(pieces + [last]) == Concat(pieces) + last
  {
    if pieces == [] {
      assert [] + [last] == [last];
      assert [last][1..] == [];
    } else {
      ConcatAppend(pieces[1..], last);
      assert (pieces + [last])[1..] == pieces[1..] + [last];
      assert pieces[0] + (Concat(pieces[1..]) + last) == pieces[0] + Concat(pieces[1..]) + last;
    }
  }

  function Zeros(n: nat): (z: seq<byte>)
    ensures |z| == n && forall i :: 0 <= i < n ==> z[i] == 0
  {
    seq(n, _ => 0)
  }
}
