/**
 The 128-bit replay window: an unsigned 128-bit word whose bit `k` stands for the index `k` behind the
 highest one. Shifts drop what leaves the word, as they do on the machine.
 */
module ReplayWindow {
  import opened Bytes

  const WINDOW := 128

  type u128 = x: int | 0 <= x < 0x1_00000000_00000000_00000000_00000000

  /** `w & (1 << k) != 0`. */
  predicate Bit(w: nat, k: nat) {
    if k == 0 then w % 2 == 1 else Bit(w / 2, k - 1)
  }

  function ShiftOne(w: u128): u128 {
    2 * w % 0x1_00000000_00000000_00000000_00000000
  }

  /** `w << d`. */
  function Shift(w: u128, d: nat): u128
    decreases d
  {
    if d == 0 then w else Shift(ShiftOne(w), d - 1)
  }

  /** `w | (1 << k)`. */
  function SetBit(w: nat, k: nat): nat {
    if k == 0 then w - w % 2 + 1 else 2 * SetBit(w / 2, k - 1) + w % 2
  }

  lemma {:induction false} SetBitBound(w: nat, k: nat, n: nat)
    requires w < Pow2(n) && k < n
    ensures SetBit(w, k) < Pow2(n)
  {
    if k > 0 {
      SetBitBound(w / 2, k - 1, n - 1);
    }
  }

  lemma Bits128()
    ensures Pow2(128) == 0x1_00000000_00000000_00000000_00000000
  {
    hide Pow2;
    Pow2Eight();
    Pow2Adds(8, 8);
    Pow2Adds(16, 16);
    Pow2Adds(32, 32);
    Pow2Adds(64, 64);
  }

  lemma {:induction false} Pow2Adds(a: nat, b: nat)
    ensures Pow2(a + b) == Pow2(a) * Pow2(b)
  {
    if a > 0 {
      Pow2Adds(a - 1, b);
      Product(Pow2(a - 1), Pow2(b));
    }
  }

  lemma Product(a: nat, b: nat)
    ensures 2 * (a * b) == 2 * a * b
  {
  }

  function Marked(w: u128, k: nat): (r: u128)
    requires k < WINDOW
    ensures r == SetBit(w, k)
  {
    Bits128();
    SetBitBound(w, k, 128);
    SetBit(w, k)
  }

  lemma {:induction false} SetBitBits(w: nat, k: nat, j: nat)
    ensures Bit(SetBit(w, k), j) <==> j == k || Bit(w, j)
  {
    if k > 0 {
      var rest := SetBit(w / 2, k - 1);
      assert (2 * rest + w % 2) / 2 == rest && (2 * rest + w % 2) % 2 == w % 2;
      if j > 0 {
        SetBitBits(w / 2, k - 1, j - 1);
      }
    } else {
      assert (w - w % 2 + 1) / 2 == w / 2;
    }
  }

  /** Bits below `n` do not see a multiple of 2 to the `n`. */
  lemma {:induction false} HighBits(w: nat, high: nat, n: nat, k: nat)
    requires k < n
    ensures Bit(w + Pow2(n) * high, k) <==> Bit(w, k)
  {
    var p := Pow2(n - 1);
    assert Pow2(n) * high == 2 * (p * high) by { Product(p, high); }
    Half(w, p * high);
    if k > 0 {
      HighBits(w / 2, high, n - 1, k - 1);
    }
  }

  lemma Half(w: nat, m: nat)
    ensures (w + 2 * m) % 2 == w % 2 && (w + 2 * m) / 2 == w / 2 + m
  {
  }

  lemma ShiftOneBits(w: u128, k: nat)
    requires k < WINDOW
    ensures Bit(ShiftOne(w), k) <==> k > 0 && Bit(w, k - 1)
  {
    Bits128();
    var high := 2 * w / 0x1_00000000_00000000_00000000_00000000;
    assert 2 * w == ShiftOne(w) + 0x1_00000000_00000000_00000000_00000000 * high;
    HighBits(ShiftOne(w), high, 128, k);
    Half(0, w);
    assert Bit(2 * w, k) <==> k > 0 && Bit(w, k - 1);
  }

  lemma {:induction false} ShiftBits(w: u128, d: nat, k: nat)
    requires k < WINDOW
    ensures Bit(Shift(w, d), k) <==> k >= d && Bit(w, k - d)
    decreases d
  {
    if d > 0 {
      ShiftBits(ShiftOne(w), d - 1, k);
      if k >= d - 1 {
        ShiftOneBits(w, k - (d - 1));
      }
    }
  }

  lemma {:induction false} NoBits(k: nat)
    ensures !Bit(0, k)
  {
    if k > 0 {
      NoBits(k - 1);
    }
  }

  // ----- the window of one source

  datatype Window = Window(highest: nat, seen: u128)

  /** The index is too old or has been seen. */
  predicate Replayed(w: Window, index: nat) {
    index <= w.highest && (w.highest - index >= WINDOW || Bit(w.seen, w.highest - index))
  }

  /** Moves the window up to a new highest index, then marks the index. */
  function Advance(w: Window, index: nat): Window
    requires !Replayed(w, index)
  {
    var w := if index > w.highest
             then Window(index, if index - w.highest >= WINDOW then 0 else Shift(w.seen, index - w.highest))
             else w;
    w.(seen := Marked(w.seen, w.highest - index))
  }

  function Opened(index: nat): Window {
    Window(index, Marked(0, 0))
  }

  /** The window says exactly which of the last 128 indices have been accepted. */
  predicate Tracks(w: Window, accepted: set<nat>) {
    && w.highest in accepted
    && (forall i <- accepted :: i <= w.highest)
    && forall k :: 0 <= k < WINDOW ==> (Bit(w.seen, k) <==> k <= w.highest && w.highest - k in accepted)
  }

  lemma OpenedTracks(index: nat)
    ensures Tracks(Opened(index), {index})
  {
    forall k | 0 <= k < WINDOW ensures Bit(Opened(index).seen, k) <==> k == 0 {
      SetBitBits(0, 0, k);
      NoBits(k);
    }
  }

  /** A new index within reach is refused exactly when it has been accepted or lies 128 or more behind. */
  lemma ReplayedIff(w: Window, accepted: set<nat>, index: nat)
    requires Tracks(w, accepted)
    ensures Replayed(w, index) <==> index in accepted || w.highest >= index + 128
  {
  }

  lemma AdvanceTracks(w: Window, accepted: set<nat>, index: nat)
    requires Tracks(w, accepted) && !Replayed(w, index)
    ensures Tracks(Advance(w, index), accepted + {index})
    ensures Advance(w, index).highest == if index > w.highest then index else w.highest
  {
    var d := if index > w.highest then index - w.highest else 0;
    var moved := if d == 0 then w.seen else if d >= WINDOW then 0 else Shift(w.seen, d);
    var r := Advance(w, index);
    forall k | 0 <= k < WINDOW
      ensures Bit(r.seen, k) <==> k <= r.highest && r.highest - k in accepted + {index}
    {
      SetBitBits(moved, r.highest - index, k);
      if d > 0 {
        ShiftBits(w.seen, d, k);
        NoBits(k);
      }
      hide SetBit, Shift;
    }
  }
}
