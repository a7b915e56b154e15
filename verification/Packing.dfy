/** The block formats of src/quants.c read the other way: if the bytes of a block hold given
    scales and quants in the format's layout, every element is the number they stand for. */
module Packing {
  import opened Bits
  import opened Common
  import opened Quants
  import D = Dequant

  /** A little-endian number of n bytes. */
  function Number(d: seq<Byte>, at: nat, n: nat): nat
    requires at + n <= |d|
    decreases n
  {
    if n == 0 then 0 else var low: int := d[at]; low + 256 * Number(d, at + 1, n - 1)
  }

  /** n numbers below m. */
  ghost predicate Below(q: seq<int>, n: nat, m: int) {
    |q| == n && forall i :: 0 <= i < n ==> 0 <= q[i] < m
  }

  function Two(lo: int, hi: int): int { lo + 16 * hi }

  function Four(a: int, b: int, c: int, e: int): int { a + 4 * b + 16 * c + 64 * e }

  function Eight(a: int, b: int, c: int, e: int, g: int, h: int, i: int, j: int): int {
    a + 2 * b + 4 * c + 8 * e + 16 * g + 32 * h + 64 * i + 128 * j
  }

  lemma TwoParts(lo: int, hi: int)
    requires 0 <= lo < 16 && 0 <= hi < 16
    ensures var b: nat := Two(lo, hi);
            b % 16 == lo && b / 16 == hi && Shr(b, 0) % 16 == lo && Shr(b, 4) % 16 == hi
  {
    hide Shr;
    ShiftsTo7(Two(lo, hi));
  }

  lemma FourParts(a: int, b: int, c: int, e: int)
    requires 0 <= a < 4 && 0 <= b < 4 && 0 <= c < 4 && 0 <= e < 4
    ensures var x: nat := Four(a, b, c, e);
            Shr(x, 0) % 4 == a && Shr(x, 2) % 4 == b && Shr(x, 4) % 4 == c && Shr(x, 6) % 4 == e
  {
    hide Shr;
    var x: nat := Four(a, b, c, e);
    ShiftsTo7(x);
    assert x / 4 == b + 4 * c + 16 * e && x / 16 == c + 4 * e && x / 64 == e;
  }

  lemma ShiftsTo7(x: nat)
    ensures Shr(x, 0) == x && Shr(x, 1) == x / 2 && Shr(x, 2) == x / 4 && Shr(x, 3) == x / 8
    ensures Shr(x, 4) == x / 16 && Shr(x, 5) == x / 32 && Shr(x, 6) == x / 64 && Shr(x, 7) == x / 128
  {
    Shifts(x);
    assert Shr(x, 6) == Shr(x, 5) / 2;
  }

  predicate Bit(x: int) { 0 <= x < 2 }

  lemma EightParts(a: int, b: int, c: int, e: int, g: int, h: int, i: int, j: int)
    requires Bit(a) && Bit(b) && Bit(c) && Bit(e) && Bit(g) && Bit(h) && Bit(i) && Bit(j)
    ensures var x: nat := Eight(a, b, c, e, g, h, i, j);
            && Shr(x, 0) % 2 == a && Shr(x, 1) % 2 == b && Shr(x, 2) % 2 == c && Shr(x, 3) % 2 == e
            && Shr(x, 4) % 2 == g && Shr(x, 5) % 2 == h && Shr(x, 6) % 2 == i && Shr(x, 7) % 2 == j
  {
    hide Shr;
    var x: nat := Eight(a, b, c, e, g, h, i, j);
    ShiftsTo7(x);
    assert x / 2 == b + 2 * (c + 2 * (e + 2 * (g + 2 * (h + 2 * (i + 2 * j)))));
    assert x / 4 == c + 2 * (e + 2 * (g + 2 * (h + 2 * (i + 2 * j))));
    assert x / 8 == e + 2 * (g + 2 * (h + 2 * (i + 2 * j)));
    assert x / 16 == g + 2 * (h + 2 * (i + 2 * j));
    assert x / 32 == h + 2 * (i + 2 * j);
    assert x / 64 == i + 2 * j;
    assert x / 128 == j;
  }

  // -------------------------------------------------------------- scales and minima

  /** Column e of the twelve bytes that hold eight six-bit scales and eight minima: the first
      four of each are the low six bits of a byte, the last four are split into a nibble of
      the third group and the two bits above the first ones. */
  ghost predicate ScaleColumn(d: seq<Byte>, at: nat, sc: seq<int>, mn: seq<int>, e: nat)
    requires at + 12 <= |d| && |sc| == |mn| == 8 && e < 4
  {
    && d[at + e] == sc[e] + 64 * (sc[e + 4] / 16)
    && d[at + 4 + e] == mn[e] + 64 * (mn[e + 4] / 16)
    && d[at + 8 + e] == Two(sc[e + 4] % 16, mn[e + 4] % 16)
  }

  ghost predicate HoldsScales(d: seq<Byte>, at: nat, sc: seq<int>, mn: seq<int>) {
    at + 12 <= |d| && Below(sc, 8, 64) && Below(mn, 8, 64) && forall e :: 0 <= e < 4 ==> ScaleColumn(d, at, sc, mn, e)
  }

  /** They unpack to what was packed. */
  lemma ScalesUnpack(d: seq<Byte>, at: nat, sc: seq<int>, mn: seq<int>, sb: nat)
    requires at + 12 <= |d| && |sc| == |mn| == 8 && HoldsScales(d, at, sc, mn) && sb < 8
    ensures ScaleMin(d, at, sb) == (sc[sb], mn[sb])
  {
    hide HoldsScales, ScaleMin;
    ColumnUnpacks(d, at, sc, mn, sb % 4);
    assert sb == sb % 4 || sb == sb % 4 + 4;
  }

  lemma ColumnUnpacks(d: seq<Byte>, at: nat, sc: seq<int>, mn: seq<int>, e: nat)
    requires at + 12 <= |d| && |sc| == |mn| == 8 && HoldsScales(d, at, sc, mn) && e < 4
    ensures ScaleMin(d, at, e) == (sc[e], mn[e]) && ScaleMin(d, at, e + 4) == (sc[e + 4], mn[e + 4])
  {
    hide Shr, Two;
    assert ScaleColumn(d, at, sc, mn, e);
    TwoParts(sc[e + 4] % 16, mn[e + 4] % 16);
    LowSix(sc[e], sc[e + 4]);
    LowSix(mn[e], mn[e + 4]);
    HighTwo(sc[e], sc[e + 4]);
    HighTwo(mn[e], mn[e + 4]);
    assert (e + 4) % 4 == e;
  }

  lemma LowSix(a: int, b: int)
    requires 0 <= a < 64 && 0 <= b < 64
    ensures (a + 64 * (b / 16)) % 64 == a
  {
  }

  lemma HighTwo(a: int, b: int)
    requires 0 <= a < 64 && 0 <= b < 64
    ensures b % 16 + (a + 64 * (b / 16)) / 4 / 16 % 4 * 16 == b
  {
    var x := a + 64 * (b / 16);
    assert x / 64 == b / 16;
    assert x / 4 / 16 == x / 64;
  }

  /** And any twelve bytes hold the scales and minima they unpack to. */
  lemma ScalesPack(d: seq<Byte>, at: nat)
    requires at + 12 <= |d|
    ensures HoldsScales(d, at, seq(8, sb requires 0 <= sb < 8 => ScaleMin(d, at, sb).0), seq(8, sb requires 0 <= sb < 8 => ScaleMin(d, at, sb).1))
  {
    var sc, mn := seq(8, sb requires 0 <= sb < 8 => ScaleMin(d, at, sb).0), seq(8, sb requires 0 <= sb < 8 => ScaleMin(d, at, sb).1);
    hide ScaleMin, Two;
    forall e | 0 <= e < 4 ensures ScaleColumn(d, at, sc, mn, e) {
      ColumnPacks(d, at, e);
    }
    forall sb | 0 <= sb < 8 ensures 0 <= sc[sb] < 64 && 0 <= mn[sb] < 64 {
      ColumnPacks(d, at, sb % 4);
      assert sb == sb % 4 || sb == sb % 4 + 4;
    }
  }

  lemma ColumnPacks(d: seq<Byte>, at: nat, e: nat)
    requires at + 12 <= |d| && e < 4
    ensures var s, m, s', m' := ScaleMin(d, at, e).0, ScaleMin(d, at, e).1, ScaleMin(d, at, e + 4).0, ScaleMin(d, at, e + 4).1;
            && 0 <= s < 64 && 0 <= m < 64 && 0 <= s' < 64 && 0 <= m' < 64
            && d[at + e] == s + 64 * (s' / 16) && d[at + 4 + e] == m + 64 * (m' / 16)
            && d[at + 8 + e] == Two(s' % 16, m' % 16)
  {
    assert (e + 4) % 4 == e;
    Recombine(d[at + e], d[at + 8 + e] % 16);
    Recombine(d[at + 4 + e], d[at + 8 + e] / 16);
  }

  lemma Recombine(x: Byte, low: int)
    requires 0 <= low < 16
    ensures var v: int := x; var y := low + v / 4 / 16 % 4 * 16;
            0 <= y < 64 && v == v % 64 + 64 * (y / 16) && y % 16 == low
  {
    var v: int := x;
    assert v / 4 / 16 == v / 64;
  }

  // ------------------------------------------------------------------- simple kinds

  /** Sixteen bytes hold 32 nibbles, the low ones first. */
  ghost predicate HoldsNibbles(d: seq<Byte>, at: nat, q: seq<int>) {
    at + 16 <= |d| && Below(q, 32, 16) && forall e :: 0 <= e < 16 ==> d[at + e] == Two(q[e], q[e + 16])
  }

  lemma NibblesUnpack(d: seq<Byte>, at: nat, q: seq<int>, o: nat)
    requires HoldsNibbles(d, at, q) && o < 32
    ensures Nibble(d, at, o) == q[o]
  {
    hide Shr;
    TwoParts(q[o % 16], q[o % 16 + 16]);
    assert d[at + o % 16] == Two(q[o % 16], q[o % 16 + 16]);
  }

  /** Four bytes hold 32 bits. */
  ghost predicate HoldsBits(d: seq<Byte>, at: nat, h: seq<int>) {
    && at + 4 <= |d| && Below(h, 32, 2)
    && forall e :: 0 <= e < 4 ==>
         d[at + e] == Eight(h[8 * e], h[8 * e + 1], h[8 * e + 2], h[8 * e + 3], h[8 * e + 4], h[8 * e + 5], h[8 * e + 6], h[8 * e + 7])
  }

  /** Shifting past the low byte. */
  lemma {:induction false} ShrHigh(low: nat, high: nat, n: nat)
    requires low < 256
    ensures Shr(low + 256 * high, 8 + n) == Shr(high, n)
  {
    if n == 0 {
      var x := low + 256 * high;
      ShiftsTo7(x);
      assert Shr(x, 8) == Shr(x, 7) / 2;
    } else {
      ShrHigh(low, high, n - 1);
    }
  }

  /** Shifting inside it. */
  lemma {:induction false} ShrWithin(low: nat, high: nat, n: nat)
    requires n <= 8
    ensures Shr(low + 256 * high, n) == Shr(low, n) + Shl(high, 8 - n)
  {
    if n == 0 {
      Shifts(high);
      assert Shl(high, 7) == 2 * Shl(high, 6);
      assert Shl(high, 8) == 2 * Shl(high, 7);
    } else {
      ShrWithin(low, high, n - 1);
      assert Shl(high, 9 - n) == 2 * Shl(high, 8 - n);
    }
  }

  lemma ShrLow(low: nat, high: nat, n: nat)
    requires n < 8
    ensures Shr(low + 256 * high, n) % 2 == Shr(low, n) % 2
  {
    hide Shr, Shl;
    ShrWithin(low, high, n);
    ShlStep(high, 7 - n);
    EvenAdded(Shr(low, n), Shl(high, 7 - n));
  }

  lemma ShlStep(x: nat, n: nat)
    ensures Shl(x, n + 1) == 2 * Shl(x, n)
  {
  }

  lemma EvenAdded(a: nat, b: nat)
    ensures (a + 2 * b) % 2 == a % 2
  {
  }

  /** Bit 8e + n of a number is bit n of its byte e. */
  lemma {:induction false} BitOfNumber(d: seq<Byte>, at: nat, m: nat, e: nat, n: nat)
    requires at + m <= |d| && e < m && n < 8
    ensures Shr(Number(d, at, m), 8 * e + n) % 2 == Shr(d[at + e], n) % 2
    decreases m
  {
    var high := Number(d, at + 1, m - 1);
    if e == 0 {
      ShrLow(d[at], high, n);
    } else {
      hide Shr;
      ShrHigh(d[at], high, 8 * (e - 1) + n);
      BitOfNumber(d, at + 1, m - 1, e - 1, n);
    }
  }

  lemma WordsAre(d: seq<Byte>, at: nat)
    ensures at + 2 <= |d| ==> U16(d, at) == Number(d, at, 2)
    ensures at + 4 <= |d| ==> U32(d, at) == Number(d, at, 4)
  {
    if at + 2 <= |d| { assert Number(d, at + 1, 1) == d[at + 1]; }
    if at + 4 <= |d| {
      var b: int, c: int, e: int := d[at + 1], d[at + 2], d[at + 3];
      assert Number(d, at + 3, 1) == e;
      assert Number(d, at + 2, 2) == c + 256 * e;
      assert Number(d, at + 1, 3) == b + 256 * c + 65536 * e;
    }
  }

  lemma BitsUnpack(d: seq<Byte>, at: nat, h: seq<int>, o: nat)
    requires HoldsBits(d, at, h) && o < 32
    ensures Shr(U32(d, at), o) % 2 == h[o]
  {
    hide Shr, U32, Number;
    var e, n := o / 8, o % 8;
    WordsAre(d, at);
    BitOfNumber(d, at, 4, e, n);
    EightParts(h[8 * e], h[8 * e + 1], h[8 * e + 2], h[8 * e + 3], h[8 * e + 4], h[8 * e + 5], h[8 * e + 6], h[8 * e + 7]);
    hide Eight;
    assert o == 8 * e + n;
  }

  lemma HalfIs(f: Floats, d: seq<Byte>, at: nat)
    requires at + 2 <= |d|
    ensures Half(f, d, at) == HalfAt(f, d, at)
  {
    WordsAre(d, at);
  }

  function HalfAt(f: Floats, d: seq<Byte>, at: nat): real
    requires at + 2 <= |d|
  {
    f.half(Number(d, at, 2))
  }

  /** Q4_0 and Q4_1: a scale, for Q4_1 a minimum, and 32 nibbles. */
  lemma Q4Simple(f: Floats, d: seq<Byte>, at: nat, q: seq<int>, o: nat)
    requires o < 32
    ensures at + 18 <= |d| && HoldsNibbles(d, at + 2, q) ==>
              Element(Q4_0, f, d, at, o) == (q[o] as real - 8.0) * HalfAt(f, d, at)
    ensures at + 20 <= |d| && HoldsNibbles(d, at + 4, q) ==>
              Element(Q4_1, f, d, at, o) == q[o] as real * HalfAt(f, d, at) + HalfAt(f, d, at + 2)
  {
    hide HoldsNibbles, Nibble, Half, HalfAt;
    if at + 18 <= |d| && HoldsNibbles(d, at + 2, q) {
      HalfIs(f, d, at);
      NibblesUnpack(d, at + 2, q, o);
    }
    if at + 20 <= |d| && HoldsNibbles(d, at + 4, q) {
      HalfIs(f, d, at);
      HalfIs(f, d, at + 2);
      NibblesUnpack(d, at + 4, q, o);
    }
  }

  function Lows(q: seq<int>): (r: seq<int>)
    ensures |r| == |q|
  {
    seq(|q|, i requires 0 <= i < |q| => q[i] % 16)
  }

  function Highs(q: seq<int>): (r: seq<int>)
    ensures |r| == |q|
  {
    seq(|q|, i requires 0 <= i < |q| => q[i] / 16)
  }

  /** Q5_0 and Q5_1: the fifth bits of 32 quants in four bytes, the others in nibbles. */
  lemma Q5Simple(f: Floats, d: seq<Byte>, at: nat, q: seq<int>, o: nat)
    requires Below(q, 32, 32) && o < 32
    ensures at + 22 <= |d| && HoldsBits(d, at + 2, Highs(q)) && HoldsNibbles(d, at + 6, Lows(q)) ==>
              Element(Q5_0, f, d, at, o) == (q[o] as real - 16.0) * HalfAt(f, d, at)
    ensures at + 24 <= |d| && HoldsBits(d, at + 4, Highs(q)) && HoldsNibbles(d, at + 8, Lows(q)) ==>
              Element(Q5_1, f, d, at, o) == q[o] as real * HalfAt(f, d, at) + HalfAt(f, d, at + 2)
  {
    hide HoldsNibbles, HoldsBits, Nibble, Half, HalfAt, U32, Shr;
    assert q[o] == q[o] / 16 * 16 + q[o] % 16;
    if at + 22 <= |d| && HoldsBits(d, at + 2, Highs(q)) && HoldsNibbles(d, at + 6, Lows(q)) {
      HalfIs(f, d, at);
      NibblesUnpack(d, at + 6, Lows(q), o);
      BitsUnpack(d, at + 2, Highs(q), o);
    }
    if at + 24 <= |d| && HoldsBits(d, at + 4, Highs(q)) && HoldsNibbles(d, at + 8, Lows(q)) {
      HalfIs(f, d, at);
      HalfIs(f, d, at + 2);
      NibblesUnpack(d, at + 8, Lows(q), o);
      BitsUnpack(d, at + 4, Highs(q), o);
    }
  }

  /** The byte of a signed number. */
  ghost predicate Signed(b: Byte, v: int) {
    -128 <= v < 128 && b == if v < 0 then v + 256 else v
  }

  lemma SignedIs(b: Byte, v: int)
    requires Signed(b, v)
    ensures I8(b) == v
  {
  }

  /** The kinds with whole bytes: a scale and 32 of them, or for Q8_K a single, sixteen
      halves and 256 of them. */
  lemma WholeBytes(f: Floats, d: seq<Byte>, at: nat, v: int, o: nat)
    ensures at + 34 <= |d| && o < 32 && Signed(d[at + 2 + o], v) ==>
              Element(Q8_0, f, d, at, o) == v as real * HalfAt(f, d, at)
    ensures at + 40 <= |d| && o < 32 && Signed(d[at + 8 + o], v) ==>
              Element(Q8_1, f, d, at, o) == v as real * f.single(Number(d, at, 4))
    ensures at + 292 <= |d| && o < 256 && Signed(d[at + 36 + o], v) ==>
              Element(Q8_K, f, d, at, o) == v as real * HalfAt(f, d, at + 4 + o / 16 * 2) * f.single(Number(d, at, 4))
  {
    hide U16, U32, Number;
    WordsAre(d, at);
    WordsAre(d, at + 4 + o / 16 * 2);
  }

  // ------------------------------------------------------------------------ K kinds

  /** Byte l of group g: one nibble each of two runs of 32 quants. */
  ghost predicate RunByte(d: seq<Byte>, at: nat, q: seq<int>, g: nat, l: nat)
    requires at + 128 <= |d| && |q| == 256 && g < 4 && l < 32
  {
    d[at + 32 * g + l] == Two(q[64 * g + l], q[64 * g + 32 + l])
  }

  ghost predicate HoldsRuns(d: seq<Byte>, at: nat, q: seq<int>) {
    at + 128 <= |d| && Below(q, 256, 16) && forall g, l :: 0 <= g < 4 && 0 <= l < 32 ==> RunByte(d, at, q, g, l)
  }

  lemma RunsUnpack(d: seq<Byte>, at: nat, q: seq<int>, o: nat)
    requires HoldsRuns(d, at, q) && o < 256
    ensures PackedNibble(d, at, o) == q[o]
  {
    hide Shr, Two;
    var g, l := o / 64, o % 32;
    assert RunByte(d, at, q, g, l);
    TwoParts(q[64 * g + l], q[64 * g + 32 + l]);
    assert o / 32 % 2 == 0 ==> o == 64 * g + l;
    assert o / 32 % 2 == 1 ==> o == 64 * g + 32 + l;
  }

  /** Byte l: one bit each of eight runs of 32. */
  ghost predicate BitByte(d: seq<Byte>, at: nat, h: seq<int>, l: nat)
    requires at + 32 <= |d| && |h| == 256 && l < 32
  {
    d[at + l] == Eight(h[l], h[32 + l], h[64 + l], h[96 + l], h[128 + l], h[160 + l], h[192 + l], h[224 + l])
  }

  ghost predicate HoldsRunBits(d: seq<Byte>, at: nat, h: seq<int>) {
    at + 32 <= |d| && Below(h, 256, 2) && forall l :: 0 <= l < 32 ==> BitByte(d, at, h, l)
  }

  lemma RunBitsUnpack(d: seq<Byte>, at: nat, h: seq<int>, o: nat)
    requires HoldsRunBits(d, at, h) && o < 256
    ensures Shr(d[at + o % 32], o / 32) % 2 == h[o]
  {
    hide HoldsRunBits, Shr;
    RunBit(d, at, h, o / 32, o % 32);
  }

  lemma RunBit(d: seq<Byte>, at: nat, h: seq<int>, s: nat, l: nat)
    requires HoldsRunBits(d, at, h) && s < 8 && l < 32
    ensures Shr(d[at + l], s) % 2 == h[32 * s + l]
  {
    hide Shr, Eight;
    assert BitByte(d, at, h, l);
    EightParts(h[l], h[32 + l], h[64 + l], h[96 + l], h[128 + l], h[160 + l], h[192 + l], h[224 + l]);
  }

  /** Q4_K: scale times sub-scale times quant, less minimum scale times sub-minimum. */
  lemma Q4Packed(f: Floats, d: seq<Byte>, at: nat, sc: seq<int>, mn: seq<int>, q: seq<int>, o: nat)
    requires at + 144 <= |d| && |sc| == |mn| == 8 && |q| == 256 && HoldsScales(d, at + 4, sc, mn) && HoldsRuns(d, at + 16, q) && o < 256
    ensures Element(Q4_K, f, d, at, o) ==
            HalfAt(f, d, at) * sc[o / 32] as real * q[o] as real - HalfAt(f, d, at + 2) * mn[o / 32] as real
  {
    hide HoldsScales, HoldsRuns, ScaleMin, PackedNibble, Half, HalfAt, Scaled, Times;
    HalfIs(f, d, at);
    HalfIs(f, d, at + 2);
    ScalesUnpack(d, at + 4, sc, mn, o / 32);
    RunsUnpack(d, at + 16, q, o);
    Products(HalfAt(f, d, at), sc[o / 32], q[o]);
    Products(HalfAt(f, d, at + 2), mn[o / 32], 0);
  }

  lemma Products(x: real, s: int, q: int)
    ensures Times(x, s) == x * s as real && Scaled(x, s, q) == x * s as real * q as real
  {
  }

  /** Q5_K: the same with a fifth bit per quant. */
  lemma Q5Packed(f: Floats, d: seq<Byte>, at: nat, sc: seq<int>, mn: seq<int>, q: seq<int>, o: nat)
    requires at + 176 <= |d| && |sc| == |mn| == 8 && HoldsScales(d, at + 4, sc, mn) && Below(q, 256, 32) && o < 256
    requires HoldsRunBits(d, at + 16, Highs(q)) && HoldsRuns(d, at + 48, Lows(q))
    ensures Element(Q5_K, f, d, at, o) ==
            HalfAt(f, d, at) * sc[o / 32] as real * q[o] as real - HalfAt(f, d, at + 2) * mn[o / 32] as real
  {
    hide HoldsScales, HoldsRuns, HoldsRunBits, ScaleMin, PackedNibble, Half, HalfAt, Shr, Scaled, Times;
    HalfIs(f, d, at);
    HalfIs(f, d, at + 2);
    ScalesUnpack(d, at + 4, sc, mn, o / 32);
    RunsUnpack(d, at + 48, Lows(q), o);
    RunBitsUnpack(d, at + 16, Highs(q), o);
    assert q[o] == q[o] / 16 * 16 + q[o] % 16;
    Products(HalfAt(f, d, at), sc[o / 32], q[o]);
    Products(HalfAt(f, d, at + 2), mn[o / 32], 0);
  }

  /** Byte l of the low bits of half h: nibbles of the quants 64 apart, in two groups. */
  ghost predicate SixLow(d: seq<Byte>, at: nat, q: seq<int>, h: nat, l: nat)
    requires at + 210 <= |d| && |q| == 256 && h < 2 && l < 32
  {
    && d[at + 64 * h + l] == Two(q[128 * h + l] % 16, q[128 * h + 64 + l] % 16)
    && d[at + 64 * h + 32 + l] == Two(q[128 * h + 32 + l] % 16, q[128 * h + 96 + l] % 16)
  }

  /** Byte l of the high bits of half h: two bits each of four runs of 32. */
  ghost predicate SixHigh(d: seq<Byte>, at: nat, q: seq<int>, h: nat, l: nat)
    requires at + 210 <= |d| && |q| == 256 && h < 2 && l < 32
  {
    d[at + 128 + 32 * h + l] ==
    Four(q[128 * h + l] / 16, q[128 * h + 32 + l] / 16, q[128 * h + 64 + l] / 16, q[128 * h + 96 + l] / 16)
  }

  ghost predicate HoldsSix(d: seq<Byte>, at: nat, q: seq<int>) {
    && at + 210 <= |d| && Below(q, 256, 64)
    && forall h, l :: 0 <= h < 2 && 0 <= l < 32 ==> SixLow(d, at, q, h, l) && SixHigh(d, at, q, h, l)
  }

  lemma SixUnpack(d: seq<Byte>, at: nat, q: seq<int>, o: nat)
    requires at + 210 <= |d| && |q| == 256 && HoldsSix(d, at, q) && o < 256
    ensures SixBits(d, at, o) == q[o]
  {
    hide Shr, HoldsSix;
    var h, w, l := o / 128, o % 128 / 32, o % 128 % 32;
    SixLowBits(d, at, q, h, w, l);
    SixHighBits(d, at, q, h, w, l);
    assert o == 128 * h + 32 * w + l;
    assert q[o] == q[o] % 16 + q[o] / 16 * 16;
  }

  lemma SixLowBits(d: seq<Byte>, at: nat, q: seq<int>, h: nat, w: nat, l: nat)
    requires at + 210 <= |d| && |q| == 256 && HoldsSix(d, at, q) && h < 2 && w < 4 && l < 32
    ensures var low: int := d[at + h * 64 + w % 2 * 32 + l];
            (if w >= 2 then low / 16 % 16 else low % 16) == q[128 * h + 32 * w + l] % 16
  {
    hide Shr, Two;
    assert SixLow(d, at, q, h, l);
    NibblePair(d[at + 64 * h + l], q[128 * h + l] % 16, q[128 * h + 64 + l] % 16);
    NibblePair(d[at + 64 * h + 32 + l], q[128 * h + 32 + l] % 16, q[128 * h + 96 + l] % 16);
    hide SixLow, HoldsSix;
    assert w == 0 || w == 1 || w == 2 || w == 3;
  }

  lemma NibblePair(b: Byte, lo: int, hi: int)
    requires b == Two(lo, hi) && 0 <= lo < 16 && 0 <= hi < 16
    ensures var x: int := b; x % 16 == lo && x / 16 % 16 == hi
  {
  }

  lemma SixHighBits(d: seq<Byte>, at: nat, q: seq<int>, h: nat, w: nat, l: nat)
    requires at + 210 <= |d| && |q| == 256 && HoldsSix(d, at, q) && h < 2 && w < 4 && l < 32
    ensures Shr(d[at + 128 + h * 32 + l], w * 2) % 4 == q[128 * h + 32 * w + l] / 16
  {
    hide Shr, Four;
    assert SixHigh(d, at, q, h, l);
    assert forall i :: 0 <= i < 256 ==> 0 <= q[i] / 16 < 4;
    FourParts(q[128 * h + l] / 16, q[128 * h + 32 + l] / 16, q[128 * h + 64 + l] / 16, q[128 * h + 96 + l] / 16);
  }

  /** Q6_K: a scale for 16 quants each, and quants less 32. */
  lemma Q6Packed(f: Floats, d: seq<Byte>, at: nat, sc: int, q: seq<int>, o: nat)
    requires at + 210 <= |d| && |q| == 256 && HoldsSix(d, at, q) && o < 256 && Signed(d[at + 192 + o / 16], sc)
    ensures Element(Q6_K, f, d, at, o) == HalfAt(f, d, at + 208) * sc as real * (q[o] - 32) as real
  {
    hide HoldsSix, SixBits, Half, HalfAt, I8, Scaled, Times;
    HalfIs(f, d, at + 208);
    SixUnpack(d, at, q, o);
    SignedIs(d[at + 192 + o / 16], sc);
    Products(HalfAt(f, d, at + 208), sc, q[o] - 32);
  }

  /** Byte l of the low bits of half g: two bits each of four runs of 32. */
  ghost predicate ThreeLow(d: seq<Byte>, at: nat, q: seq<int>, g: nat, l: nat)
    requires at + 110 <= |d| && |q| == 256 && g < 2 && l < 32
  {
    d[at + 32 + 32 * g + l] == Four(q[128 * g + l], q[128 * g + 32 + l], q[128 * g + 64 + l], q[128 * g + 96 + l])
  }

  ghost predicate HoldsTwoBits(d: seq<Byte>, at: nat, q: seq<int>) {
    at + 110 <= |d| && Below(q, 256, 4) && forall g, l :: 0 <= g < 2 && 0 <= l < 32 ==> ThreeLow(d, at, q, g, l)
  }

  lemma TwoBitsUnpack(d: seq<Byte>, at: nat, q: seq<int>, o: nat)
    requires HoldsTwoBits(d, at, q) && o < 256
    ensures Shr(d[at + 32 + o / 128 * 32 + o % 32], o / 32 % 4 * 2) % 4 == q[o]
  {
    hide HoldsTwoBits, Shr;
    var g, l := o / 128, o % 32;
    TwoBitsAt(d, at, q, g, o / 32 % 4, l);
    assert o == 128 * g + 32 * (o / 32 % 4) + l;
  }

  lemma TwoBitsAt(d: seq<Byte>, at: nat, q: seq<int>, g: nat, p: nat, l: nat)
    requires HoldsTwoBits(d, at, q) && g < 2 && p < 4 && l < 32
    ensures Shr(d[at + 32 + g * 32 + l], p * 2) % 4 == q[128 * g + 32 * p + l]
  {
    hide Shr, Four;
    assert ThreeLow(d, at, q, g, l);
    FourParts(q[128 * g + l], q[128 * g + 32 + l], q[128 * g + 64 + l], q[128 * g + 96 + l]);
  }

  /** Sixteen six-bit scales: nibbles of scales eight apart, then two bits each of scales
      four apart. */
  ghost predicate HoldsSixteen(d: seq<Byte>, at: nat, sc: seq<int>) {
    && at + 12 <= |d| && Below(sc, 16, 64)
    && (forall e :: 0 <= e < 8 ==> d[at + e] == Two(sc[e] % 16, sc[e + 8] % 16))
    && (forall e :: 0 <= e < 4 ==> d[at + 8 + e] == Four(sc[e] / 16, sc[4 + e] / 16, sc[8 + e] / 16, sc[12 + e] / 16))
  }

  lemma SixteenUnpack(d: seq<Byte>, at: nat, sc: seq<int>, s: nat)
    requires at + 110 <= |d| && |sc| == 16 && HoldsSixteen(d, at + 96, sc) && s < 16
    ensures Q3Scale(d, at, s, s / 4 * 2) == sc[s] - 32
  {
    hide Shr, HoldsSixteen;
    SixteenLow(d, at, sc, s / 8, s % 8);
    SixteenHigh(d, at, sc, s / 4, s % 4);
    assert s == 8 * (s / 8) + s % 8 == 4 * (s / 4) + s % 4;
    assert sc[s] == sc[s] % 16 + sc[s] / 16 * 16;
  }

  lemma SixteenLow(d: seq<Byte>, at: nat, sc: seq<int>, h: nat, e: nat)
    requires at + 110 <= |d| && |sc| == 16 && HoldsSixteen(d, at + 96, sc) && h < 2 && e < 8
    ensures Shr(d[at + 96 + e], if h == 1 then 4 else 0) % 16 == sc[8 * h + e] % 16
  {
    hide Shr, Two, Four;
    assert d[at + 96 + e] == Two(sc[e] % 16, sc[e + 8] % 16);
    TwoParts(sc[e] % 16, sc[e + 8] % 16);
  }

  lemma SixteenHigh(d: seq<Byte>, at: nat, sc: seq<int>, g: nat, e: nat)
    requires at + 110 <= |d| && |sc| == 16 && HoldsSixteen(d, at + 96, sc) && g < 4 && e < 4
    ensures Shr(d[at + 104 + e], g * 2) % 4 == sc[4 * g + e] / 16
  {
    hide Shr, Two, Four;
    assert d[at + 96 + 8 + e] == Four(sc[e] / 16, sc[4 + e] / 16, sc[8 + e] / 16, sc[12 + e] / 16);
    FourParts(sc[e] / 16, sc[4 + e] / 16, sc[8 + e] / 16, sc[12 + e] / 16);
  }

  function Quarters(q: seq<int>, upper: bool): (r: seq<int>)
    ensures |r| == |q|
  {
    seq(|q|, i requires 0 <= i < |q| => if upper then q[i] / 4 else q[i] % 4)
  }

  /** Q3_K: the third bits first, then two bits each, then the scales; both less their bias. */
  lemma Q3Packed(f: Floats, d: seq<Byte>, at: nat, sc: seq<int>, q: seq<int>, o: nat)
    requires at + 110 <= |d| && |sc| == 16 && Below(q, 256, 8) && o < 256 && HoldsSixteen(d, at + 96, sc)
    requires HoldsRunBits(d, at, Quarters(q, true)) && HoldsTwoBits(d, at, Quarters(q, false))
    ensures Element(Q3_K, f, d, at, o) == HalfAt(f, d, at + 108) * (sc[o / 16] - 32) as real * (q[o] - 4) as real
  {
    hide HoldsSixteen, HoldsRunBits, HoldsTwoBits, Half, HalfAt, Shr, Q3Scale, Scaled, Times;
    HalfIs(f, d, at + 108);
    SixteenUnpack(d, at, sc, o / 16);
    RunBitsUnpack(d, at, Quarters(q, true), o);
    TwoBitsUnpack(d, at, Quarters(q, false), o);
    assert q[o] == q[o] % 4 + q[o] / 4 * 4;
    Products(HalfAt(f, d, at + 108), sc[o / 16] - 32, q[o] - 4);
  }

  /** 64 bytes hold two bits each of 256 numbers, in order. */
  ghost predicate HoldsQuads(d: seq<Byte>, at: nat, p: seq<int>) {
    && at + 64 <= |d| && Below(p, 256, 4)
    && forall e :: 0 <= e < 64 ==> d[at + e] == Four(p[4 * e], p[4 * e + 1], p[4 * e + 2], p[4 * e + 3])
  }

  /** Q2_K: the two bits of a quant, less four if bit o of the same bytes is set; this sign is
      a bit of the number o / 2, so the two overlap. Sixteen four-bit scales follow. */
  lemma Q2Packed(f: Floats, d: seq<Byte>, at: nat, sc: seq<int>, p: seq<int>, o: nat)
    requires at + 84 <= |d| && HoldsQuads(d, at, p) && Below(sc, 16, 16) && o < 256
    requires forall e :: 0 <= e < 8 ==> d[at + 64 + e] == Two(sc[2 * e], sc[2 * e + 1])
    ensures var sign := if o % 2 == 0 then p[o / 2] % 2 else p[o / 2] / 2;
            Element(Q2_K, f, d, at, o) ==
            HalfAt(f, d, at + 80) * sc[o / 16] as real * (p[o] - 4 * sign) as real - HalfAt(f, d, at + 82)
  {
    hide Half, HalfAt, Shr, HoldsQuads, TwoBits, Q2Scale, Two, Scaled, Times;
    HalfIs(f, d, at + 80);
    HalfIs(f, d, at + 82);
    QuadUnpack(d, at, p, o);
    FoursUnpack(d, at, sc, o / 16);
    Products(HalfAt(f, d, at + 80), sc[o / 16], TwoBits(d, at, o));
  }

  lemma FoursUnpack(d: seq<Byte>, at: nat, sc: seq<int>, s: nat)
    requires at + 84 <= |d| && Below(sc, 16, 16) && s < 16
    requires forall e :: 0 <= e < 8 ==> d[at + 64 + e] == Two(sc[2 * e], sc[2 * e + 1])
    ensures Q2Scale(d, at, s) == sc[s]
  {
    hide Two, Shr;
    var e := s / 2;
    assert d[at + 64 + e] == Two(sc[2 * e], sc[2 * e + 1]);
    TwoParts(sc[2 * e], sc[2 * e + 1]);
    assert s == 2 * e + s % 2;
  }

  lemma QuadUnpack(d: seq<Byte>, at: nat, p: seq<int>, o: nat)
    requires at + 84 <= |d| && HoldsQuads(d, at, p) && o < 256
    ensures TwoBits(d, at, o) == p[o] - 4 * (if o % 2 == 0 then p[o / 2] % 2 else p[o / 2] / 2)
  {
    hide HoldsQuads, Shr;
    QuadAt(d, at, p, o / 4, o % 4);
    QuadBit(d, at, p, o / 8, o % 8);
    assert o / 2 == 4 * (o / 8) + o % 8 / 2;
  }

  lemma QuadAt(d: seq<Byte>, at: nat, p: seq<int>, e: nat, c: nat)
    requires HoldsQuads(d, at, p) && e < 64 && c < 4
    ensures Shr(d[at + e], c * 2) % 4 == p[4 * e + c]
  {
    hide Shr, Four;
    assert d[at + e] == Four(p[4 * e], p[4 * e + 1], p[4 * e + 2], p[4 * e + 3]);
    FourParts(p[4 * e], p[4 * e + 1], p[4 * e + 2], p[4 * e + 3]);
  }

  lemma QuadBit(d: seq<Byte>, at: nat, p: seq<int>, e: nat, c: nat)
    requires HoldsQuads(d, at, p) && e < 64 && c < 8
    ensures Shr(d[at + e], c) % 2 == if c % 2 == 0 then p[4 * e + c / 2] % 2 else p[4 * e + c / 2] / 2
  {
    hide Shr, Four;
    assert d[at + e] == Four(p[4 * e], p[4 * e + 1], p[4 * e + 2], p[4 * e + 3]);
    FourBits(p[4 * e], p[4 * e + 1], p[4 * e + 2], p[4 * e + 3]);
    hide Four;
  }

  lemma FourBits(a: int, b: int, c: int, e: int)
    requires 0 <= a < 4 && 0 <= b < 4 && 0 <= c < 4 && 0 <= e < 4
    ensures var x: nat := Four(a, b, c, e);
            && Shr(x, 0) % 2 == a % 2 && Shr(x, 1) % 2 == a / 2 && Shr(x, 2) % 2 == b % 2 && Shr(x, 3) % 2 == b / 2
            && Shr(x, 4) % 2 == c % 2 && Shr(x, 5) % 2 == c / 2 && Shr(x, 6) % 2 == e % 2 && Shr(x, 7) % 2 == e / 2
  {
    hide Shr;
    EightParts(a % 2, a / 2, b % 2, b / 2, c % 2, c / 2, e % 2, e / 2);
    assert Four(a, b, c, e) == Eight(a % 2, a / 2, b % 2, b / 2, c % 2, c / 2, e % 2, e / 2);
  }

  // ------------------------------------------------------------------------ tensors

  /** Blocks follow one another, each as long as its parts. */
  lemma ElementOfTensor(k: Kind, f: Floats, d: seq<Byte>, n: nat, i: nat)
    requires D.Covers(k, d, n) && i < n
    ensures var size :=
              match k
              case Q4_0 => (2 + 32 / 2, 32)
              case Q4_1 => (2 + 2 + 32 / 2, 32)
              case Q5_0 => (2 + 32 / 8 + 32 / 2, 32)
              case Q5_1 => (2 + 2 + 32 / 8 + 32 / 2, 32)
              case Q8_0 => (2 + 32, 32)
              case Q8_1 => (4 + 4 + 32, 32)
              case Q2_K => (256 / 4 + 16 + 2 + 2, 256)
              case Q3_K => (256 / 8 + 256 / 4 + 12 + 2, 256)
              case Q4_K => (2 + 2 + 12 + 256 / 2, 256)
              case Q5_K => (2 + 2 + 12 + 256 / 8 + 256 / 2, 256)
              case Q6_K => (256 / 2 + 256 / 4 + 16 + 2, 256)
              case Q8_K => (4 + 16 * 2 + 256, 256);
            && i / size.1 * size.0 + BytesPer(k) <= |d| && i % size.1 < ElemsPer(k)
            && D.Scalar(k, f, d, n, i) == Element(k, f, d, i / size.1 * size.0, i % size.1)
  {
    hide Element;
    D.BlockInside(k, d, n, i);
  }
}
