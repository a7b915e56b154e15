/** The bit operators of C on unsigned values, bit by bit, and what they amount to in
    arithmetic for the masks the block kernels use. */
module Bits {

  /** x >> n. */
  function Shr(x: nat, n: nat): (r: nat)
    ensures r <= x
  {
    if n == 0 then x else Shr(x, n - 1) / 2
  }

  /** x << n. */
  function Shl(x: nat, n: nat): nat {
    if n == 0 then x else 2 * Shl(x, n - 1)
  }

  /** x & y. */
  function And(x: nat, y: nat): (r: nat)
    ensures r <= y
  {
    if x == 0 || y == 0 then 0
    else 2 * And(x / 2, y / 2) + (if x % 2 == 1 && y % 2 == 1 then 1 else 0)
  }

  /** x | y. */
  function Or(x: nat, y: nat): nat
    decreases x + y
  {
    if x == 0 && y == 0 then 0
    else 2 * Or(x / 2, y / 2) + (if x % 2 == 1 || y % 2 == 1 then 1 else 0)
  }

  /** One more bit in the mask. */
  lemma MaskStep(x: nat, m: nat)
    ensures And(x, 2 * m + 1) == 2 * And(x / 2, m) + x % 2
  {
    assert (2 * m + 1) / 2 == m;
  }

  lemma MaskNothing(x: nat)
    ensures And(x, 0) == 0
  {
  }

  // Masks of ones are remainders: one more bit each.

  lemma Mask1(x: nat)
    ensures And(x, 1) == x % 2
  {
    hide And;
    MaskNothing(x / 2);
    MaskStep(x, 0);
  }

  lemma Mask3(x: nat)
    ensures And(x, 3) == x % 4
  {
    hide And;
    Mask1(x / 2);
    MaskStep(x, 1);
    Mod4(x, x / 2 / 2, x / 2 % 2, x % 2);
  }

  lemma Mod4(x: nat, q: nat, c: nat, b: nat)
    requires x == 2 * (2 * q + c) + b && c < 2 && b < 2
    ensures x % 4 == 2 * c + b
  {
  }

  lemma Mask7(x: nat)
    ensures And(x, 7) == x % 8
  {
    hide And;
    Mask3(x / 2);
    MaskStep(x, 3);
    var h := x / 2;
    assert x == 8 * (h / 4) + (2 * (h % 4) + x % 2);
  }

  lemma Mask15(x: nat)
    ensures And(x, 15) == x % 16
  {
    hide And;
    Mask7(x / 2);
    MaskStep(x, 7);
    var h := x / 2;
    assert x == 16 * (h / 8) + (2 * (h % 8) + x % 2);
  }

  lemma Mask31(x: nat)
    ensures And(x, 31) == x % 32
  {
    hide And;
    Mask15(x / 2);
    MaskStep(x, 15);
    var h := x / 2;
    assert x == 32 * (h / 16) + (2 * (h % 16) + x % 2);
  }

  lemma Mask63(x: nat)
    ensures And(x, 63) == x % 64
  {
    hide And;
    Mask31(x / 2);
    MaskStep(x, 31);
    var h := x / 2;
    assert x == 64 * (h / 32) + (2 * (h % 32) + x % 2);
  }

  lemma Mask127(x: nat)
    ensures And(x, 127) == x % 128
  {
    hide And;
    Mask63(x / 2);
    MaskStep(x, 63);
    var h := x / 2;
    assert x == 128 * (h / 64) + (2 * (h % 64) + x % 2);
  }

  /** Shifts are divisions and multiplications. */
  lemma Shifts(x: nat)
    ensures Shr(x, 0) == x && Shr(x, 1) == x / 2 && Shr(x, 2) == x / 4 && Shr(x, 3) == x / 8
    ensures Shr(x, 4) == x / 16 && Shr(x, 5) == x / 32 && Shr(x, 7) == x / 128
    ensures Shl(x, 1) == 2 * x && Shl(x, 2) == 4 * x && Shl(x, 4) == 16 * x && Shl(x, 5) == 32 * x && Shl(x, 6) == 64 * x
  {
    assert Shr(x, 1) == x / 2 && Shl(x, 1) == 2 * x;
    assert Shr(x, 2) == x / 4 && Shl(x, 2) == 4 * x;
    assert Shr(x, 3) == x / 8 && Shl(x, 3) == 8 * x;
    assert Shr(x, 4) == x / 16 && Shl(x, 4) == 16 * x;
    assert Shr(x, 5) == x / 32 && Shl(x, 5) == 32 * x;
    assert Shr(x, 6) == x / 64;
  }

  lemma OrZero(y: nat)
    ensures Or(0, y) == y
  {
  }

  lemma OrStep(x: nat, h: nat)
    ensures Or(x, 2 * h) == 2 * Or(x / 2, h) + x % 2
  {
    assert 2 * h / 2 == h;
  }

  /** Or of bits below and above a line is addition. */
  lemma Joined(lo: nat, h: nat)
    ensures lo < 4 ==> Or(lo, Shl(h, 2)) == lo + 4 * h
    ensures lo < 16 ==> Or(lo, Shl(h, 4)) == lo + 16 * h
  {
    hide Or;
    Shifts(h);
    if lo < 4 { JoinedFour(lo, h); }
    if lo < 16 {
      JoinedFour(lo / 4, h);
      OrStep(lo, 8 * h);
      OrStep(lo / 2, 4 * h);
    }
  }

  lemma JoinedFour(lo: nat, h: nat)
    requires lo < 4
    ensures Or(lo, 4 * h) == lo + 4 * h
  {
    hide Or;
    OrStep(lo, 2 * h);
    OrStep(lo / 2, h);
    OrZero(h);
  }
}
