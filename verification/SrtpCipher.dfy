/**
 The counter-mode keystream of SRTP (section 4.1.1 of RFC 3711) and its counter blocks.
 The block cipher and the authentication code are parameters: nothing is assumed of them but their lengths.
 */
module SrtpCipher {
  import opened Bytes

  /** `aes` maps 16-byte blocks to 16-byte blocks, `mac` gives at least the 10 bytes of a tag. */
  datatype Keys = Keys(aes: seq<byte> -> seq<byte>, mac: seq<byte> -> seq<byte>, salt: seq<byte>)

  ghost predicate KeysOk(k: Keys) {
    && |k.salt| == 14
    && (forall b :: |b| == 16 ==> |k.aes(b)| == 16)
    && forall m :: |k.mac(m)| >= 10
  }

  function SsrcMask(ssrc: u32): (m: seq<byte>)
    ensures |m| == 16
  {
    Zeros(4) + BE32(ssrc) + Zeros(8)
  }

  function IndexMask(index: nat): (m: seq<byte>)
    ensures |m| == 16
  {
    Zeros(6) + ToBytes(index, 8) + Zeros(2)
  }

  /** The initial counter: salt, with the SSRC folded into bytes 4 to 7 and the index into bytes 6 to 13. */
  function Iv(salt: seq<byte>, ssrc: u32, index: nat): (iv: seq<byte>)
    requires |salt| == 14
    ensures |iv| == 16
  {
    XorAll(XorAll(salt + Zeros(2), SsrcMask(ssrc)), IndexMask(index))
  }

  /** Counter block number `j`: the 128-bit big-endian sum, wrapping. */
  function CounterBlock(iv: seq<byte>, j: nat): (b: seq<byte>)
    ensures |b| == 16
  {
    ToBytes((Value(iv) + j) % Pow256(16), 16)
  }

  function KeyByte(k: Keys, iv: seq<byte>, j: nat): byte {
    var block := k.aes(CounterBlock(iv, j / 16));
    if j % 16 < |block| then block[j % 16] else 0
  }

  function Crypted(k: Keys, ssrc: u32, index: nat, bytes: seq<byte>): (c: seq<byte>)
    requires |k.salt| == 14
    ensures |c| == |bytes|
  {
    var iv := Iv(k.salt, ssrc, index);
    seq(|bytes|, j requires 0 <= j < |bytes| => XorByte(bytes[j], KeyByte(k, iv, j)))
  }

  /** Applying the keystream twice gives the bytes back. */
  lemma CryptedTwice(k: Keys, ssrc: u32, index: nat, bytes: seq<byte>)
    requires |k.salt| == 14
    ensures Crypted(k, ssrc, index, Crypted(k, ssrc, index, bytes)) == bytes
  {
    var iv := Iv(k.salt, ssrc, index);
    var c := Crypted(k, ssrc, index, bytes);
    hide Iv, KeyByte;
    forall j | 0 <= j < |bytes| ensures Crypted(k, ssrc, index, c)[j] == bytes[j] {
      assert c[j] == XorByte(bytes[j], KeyByte(k, iv, j));
      assert Crypted(k, ssrc, index, c)[j] == XorByte(c[j], KeyByte(k, iv, j));
    }
  }

  /** Builds the initial counter in three passes over one buffer. */
  method BuildIv(salt: seq<byte>, ssrc: u32, index: nat) returns (r: seq<byte>)
    requires |salt| == 14
    ensures r == Iv(salt, ssrc, index)
  {
    hide XorByte, BE32, ToBytes;
    var iv := new byte[16](i => if 0 <= i < 14 then salt[i] else 0);
    ghost var base := iv[..];
    var s := BE32(ssrc);
    for i := 0 to 4
      invariant forall j :: 0 <= j < 16 ==> iv[j] == if 4 <= j < 4 + i then XorByte(base[j], s[j - 4]) else base[j]
    {
      iv[4 + i] := XorByte(iv[4 + i], s[i]);
    }
    ghost var second := iv[..];
    var v := ToBytes(index, 8);
    for i := 0 to 8
      invariant forall j :: 0 <= j < 16 ==> iv[j] == if 6 <= j < 6 + i then XorByte(second[j], v[j - 6]) else second[j]
    {
      iv[6 + i] := XorByte(iv[6 + i], v[i]);
    }
    assert base == salt + Zeros(2);
    IvPasses(salt, ssrc, index, base, second, iv[..]);
    return iv[..];
  }

  /** `crypt`: applies the keystream to the buffer from `from` on, in place. */
  method Crypt(k: Keys, ssrc: u32, index: nat, bytes: array<byte>, from: nat)
    requires |k.salt| == 14 && from <= bytes.Length
    modifies bytes
    ensures bytes[..] == old(bytes[..from]) + Crypted(k, ssrc, index, old(bytes[from..]))
  {
    hide Iv, KeyByte, XorByte;
    var iv := BuildIv(k.salt, ssrc, index);
    for i := from to bytes.Length
      invariant forall j :: 0 <= j < bytes.Length ==>
                  bytes[j] == if from <= j < i then XorByte(old(bytes[j]), KeyByte(k, iv, j - from)) else old(bytes[j])
    {
      bytes[i] := XorByte(bytes[i], KeyByte(k, iv, i - from));
    }
  }

  lemma XorByteZero(a: byte)
    ensures XorByte(a, 0) == a
  {
    XorZero(a);
  }

  lemma IvPasses(salt: seq<byte>, ssrc: u32, index: nat, base: seq<byte>, second: seq<byte>, iv: seq<byte>)
    requires |salt| == 14 && base == salt + Zeros(2) && |second| == |iv| == 16
    requires var s := BE32(ssrc);
             forall j :: 0 <= j < 16 ==> second[j] == if 4 <= j < 8 then XorByte(base[j], s[j - 4]) else base[j]
    requires var v := ToBytes(index, 8);
             forall j :: 0 <= j < 16 ==> iv[j] == if 6 <= j < 14 then XorByte(second[j], v[j - 6]) else second[j]
    ensures iv == Iv(salt, ssrc, index)
  {
    hide XorByte, BE32, ToBytes;
    var sm, im := SsrcMask(ssrc), IndexMask(index);
    forall j | 0 <= j < 16 ensures iv[j] == Iv(salt, ssrc, index)[j] {
      XorByteZero(base[j]);
      XorByteZero(second[j]);
      assert sm[j] == if 4 <= j < 8 then BE32(ssrc)[j - 4] else 0;
      assert im[j] == if 6 <= j < 14 then ToBytes(index, 8)[j - 6] else 0;
    }
  }

  // ----- the formula of the standard

  lemma XorSplit(a: nat, x: byte, b: nat, y: byte)
    ensures Xor(256 * a + x, 256 * b + y) == 256 * Xor(a, b) + XorByte(x, y)
  {
    Pow2Eight();
    XorSplitBits(a, x, b, y, 8, 256);
  }

  lemma {:induction false} XorSplitBits(a: nat, x: nat, b: nat, y: nat, n: nat, p: nat)
    requires p == Pow2(n) && x < p && y < p
    ensures p * a + x >= 0 && p * b + y >= 0
    ensures Xor(p * a + x, p * b + y) == p * Xor(a, b) + Xor(x, y)
    decreases n
  {
    if n == 0 {
      assert Xor(0, 0) == 0;
    } else {
      var q := Pow2(n - 1);
      hide Xor, XorBit, Pow2;
      assert p == 2 * q by { Pow2Step(n); }
      XorSplitBits(a, x / 2, b, y / 2, n - 1, q);
      Twice(p, q, a, x);
      Twice(p, q, b, y);
      XorStep(p * a + x, p * b + y);
      XorStep(x, y);
      SameBit(p * a + x, p * b + y, x, y);
      Recombine(Xor(p * a + x, p * b + y), p, q, Xor(a, b), Xor(x, y));
    }
  }

  lemma Pow2Step(n: nat)
    requires n > 0
    ensures Pow2(n) == 2 * Pow2(n - 1)
  {
  }

  lemma Twice(p: nat, q: nat, a: nat, x: nat)
    requires p == 2 * q
    ensures p * a + x >= 0 && (p * a + x) / 2 == q * a + x / 2 && (p * a + x) % 2 == x % 2
  {
    assert p * a == 2 * (q * a);
    TwiceSum(q * a, x);
  }

  lemma TwiceSum(m: nat, x: nat)
    ensures (2 * m + x) / 2 == m + x / 2 && (2 * m + x) % 2 == x % 2
  {
  }

  lemma SameBit(a: nat, b: nat, x: nat, y: nat)
    requires a % 2 == x % 2 && b % 2 == y % 2
    ensures XorBit(a, b) == XorBit(x, y)
  {
  }

  /** Two numbers with the same last bit and equal halves are equal. */
  lemma Recombine(whole: nat, p: nat, q: nat, high: nat, low: nat)
    requires p == 2 * q && whole % 2 == low % 2 && whole / 2 == q * high + low / 2
    ensures whole == p * high + low
  {
    assert 2 * (q * high) == p * high;
    assert whole == 2 * (whole / 2) + whole % 2;
  }

  lemma {:induction false} ValueXor(a: seq<byte>, b: seq<byte>)
    requires |a| == |b|
    ensures Value(XorAll(a, b)) == Xor(Value(a), Value(b))
  {
    if a == [] {
      assert Xor(0, 0) == 0;
    } else {
      var n := |a| - 1;
      ValueXor(a[..n], b[..n]);
      var c := XorAll(a, b);
      hide XorByte, Xor;
      assert c[..n] == XorAll(a[..n], b[..n]);
      XorSplit(Value(a[..n]), a[n], Value(b[..n]), b[n]);
    }
  }

  lemma {:induction false} ZerosValue(n: nat)
    ensures Value(Zeros(n)) == 0
  {
    if n > 0 {
      ZerosValue(n - 1);
      assert Zeros(n)[..n - 1] == Zeros(n - 1);
    }
  }

  /** A field with zeros on both sides is the field times a power of 256. */
  lemma PaddedValue(before: nat, field: seq<byte>, after: nat)
    ensures Value(Zeros(before) + field + Zeros(after)) == Value(field) * Pow256(after)
  {
    hide Value;
    ValueConcat(Zeros(before) + field, Zeros(after));
    ValueConcat(Zeros(before), field);
    ZerosValue(before);
    ZerosValue(after);
    assert 0 * Pow256(|field|) == 0;
  }

  /** A number moved up by `n` bytes. */
  function Scaled(v: nat, n: nat): (r: nat)
    ensures r == v * Pow256(n)
  {
    v * Pow256(n)
  }

  /** The initial counter is the one of section 4.1.1 of RFC 3711: salt, SSRC and index at their bit positions. */
  lemma IvFormula(salt: seq<byte>, ssrc: u32, index: nat)
    requires |salt| == 14 && index < Pow256(8)
    ensures Value(Iv(salt, ssrc, index))
         == Xor(Xor(Scaled(Value(salt), 2), Scaled(ssrc, 8)), Scaled(index, 2))
  {
    hide Xor, XorAll, Value, ToBytes, BE32, Pow256;
    ValueXor(salt + Zeros(2), SsrcMask(ssrc));
    ValueXor(XorAll(salt + Zeros(2), SsrcMask(ssrc)), IndexMask(index));
    assert Zeros(0) + salt + Zeros(2) == salt + Zeros(2);
    PaddedValue(0, salt, 2);
    PaddedValue(4, BE32(ssrc), 8);
    PaddedValue(6, ToBytes(index, 8), 2);
    ToBytesValue(index, 8);
  }

  // ----- distinct counter blocks

  const MAX_BLOCKS := 0x1_0000

  lemma LastTwo(head: seq<byte>, j: nat)
    requires j < MAX_BLOCKS
    ensures Value(head + BE16(j)) == Value(head + Zeros(2)) + j
  {
    hide BE16, Pow256, Value;
    ValueConcat(head, Zeros(2));
    ValueConcat(head, BE16(j));
    ZerosValue(2);
  }

  lemma BlockOfSum(iv: seq<byte>, j: nat, want: seq<byte>)
    requires |want| == 16 && Value(want) == Value(iv) + j
    ensures CounterBlock(iv, j) == want
  {
    hide Pow256, Value, ToBytes;
    ValueBound(want);
    SmallMod(Value(want), Pow256(16));
    ToBytesValue(Value(want), 16);
    ValueInjective(ToBytes(Value(want), 16), want);
  }

  /** The block number never carries out of the low 16 bits, which the initial counter leaves zero. */
  lemma NoCarry(salt: seq<byte>, ssrc: u32, index: nat, j: nat)
    requires |salt| == 14 && j < MAX_BLOCKS
    ensures CounterBlock(Iv(salt, ssrc, index), j) == Iv(salt, ssrc, index)[..14] + BE16(j)
  {
    hide Iv, BE16, Value, CounterBlock;
    var iv := Iv(salt, ssrc, index);
    LowZero(salt, ssrc, index);
    assert iv == iv[..14] + Zeros(2);
    LastTwo(iv[..14], j);
    BlockOfSum(iv, j, iv[..14] + BE16(j));
  }

  lemma SmallMod(a: nat, m: nat)
    requires a < m
    ensures a % m == a
  {
  }

  lemma LowZero(salt: seq<byte>, ssrc: u32, index: nat)
    requires |salt| == 14
    ensures Iv(salt, ssrc, index)[14] == 0 && Iv(salt, ssrc, index)[15] == 0
  {
    XorByteZero(0);
  }

  lemma XorByteInjective(x: byte, a: byte, b: byte)
    requires XorByte(x, a) == XorByte(x, b)
    ensures a == b
  {
    XorCommutes(x, a);
    XorCommutes(x, b);
    XorCancel(a, x);
    XorCancel(b, x);
  }

  lemma {:induction false} XorCommutes(a: nat, b: nat)
    ensures Xor(a, b) == Xor(b, a)
  {
    if a != 0 || b != 0 {
      XorCommutes(a / 2, b / 2);
    }
  }

  /** The two masks do not overlap for an index below 2 to the 48: byte by byte, at most one of them is set. */
  function Mask(ssrc: u32, index: nat): (m: seq<byte>)
    ensures |m| == 16
  {
    Zeros(4) + BE32(ssrc) + ToBytes(index, 6) + Zeros(2)
  }

  lemma {:induction false} ToBytesLeading(n: nat, k: nat, extra: nat)
    requires n < Pow256(k)
    ensures ToBytes(n, k + extra) == Zeros(extra) + ToBytes(n, k)
  {
    if k == 0 {
      ToBytesZero(extra);
      assert Zeros(extra) + [] == Zeros(extra);
    } else {
      assert n / 256 < Pow256(k - 1);
      ToBytesLeading(n / 256, k - 1, extra);
      assert Zeros(extra) + ToBytes(n / 256, k - 1) + [n % 256] == Zeros(extra) + ToBytes(n, k);
    }
  }

  lemma {:induction false} ToBytesZero(k: nat)
    ensures ToBytes(0, k) == Zeros(k)
  {
    if k > 0 {
      ToBytesZero(k - 1);
      assert Zeros(k - 1) + [0] == Zeros(k);
    }
  }

  lemma IvIsMasked(salt: seq<byte>, ssrc: u32, index: nat)
    requires |salt| == 14 && index < Pow256(6)
    ensures Iv(salt, ssrc, index) == XorAll(salt + Zeros(2), Mask(ssrc, index))
  {
    ToBytesLeading(index, 6, 2);
    hide XorByte, ToBytes, BE32, Pow256;
    var base, sm, im, m := salt + Zeros(2), SsrcMask(ssrc), IndexMask(index), Mask(ssrc, index);
    forall i | 0 <= i < 16 ensures Iv(salt, ssrc, index)[i] == XorByte(base[i], m[i]) {
      XorByteZero(base[i]);
      XorByteZero(XorByte(base[i], sm[i]));
      assert i < 8 ==> im[i] == 0 && m[i] == sm[i];
      assert i >= 8 ==> sm[i] == 0 && m[i] == im[i];
    }
  }

  /** Counter blocks differ whenever source, packet index or block number do. */
  lemma CounterBlocksDistinct(salt: seq<byte>, ssrc: u32, index: nat, j: nat, ssrc': u32, index': nat, j': nat)
    requires |salt| == 14 && index < Pow256(6) && index' < Pow256(6) && j < MAX_BLOCKS && j' < MAX_BLOCKS
    requires CounterBlock(Iv(salt, ssrc, index), j) == CounterBlock(Iv(salt, ssrc', index'), j')
    ensures ssrc == ssrc' && index == index' && j == j'
  {
    hide Iv, XorByte, ToBytes, BE32, BE16, CounterBlock, Pow256, Value;
    NoCarry(salt, ssrc, index, j);
    NoCarry(salt, ssrc', index', j');
    var a, b := Iv(salt, ssrc, index), Iv(salt, ssrc', index');
    assert a[..14] == (a[..14] + BE16(j))[..14] == (b[..14] + BE16(j'))[..14] == b[..14];
    assert BE16(j) == (a[..14] + BE16(j))[14..] == BE16(j');
    IvIsMasked(salt, ssrc, index);
    IvIsMasked(salt, ssrc', index');
    var m, m' := Mask(ssrc, index), Mask(ssrc', index');
    forall i | 0 <= i < 14 ensures m[i] == m'[i] {
      assert a[..14][i] == b[..14][i];
      XorByteInjective((salt + Zeros(2))[i], m[i], m'[i]);
    }
    assert BE32(ssrc) == m[4..8] == m'[4..8] == BE32(ssrc');
    assert ToBytes(index, 6) == m[8..14] == m'[8..14] == ToBytes(index', 6);
    ToBytesValue(index, 6);
    ToBytesValue(index', 6);
  }
}
