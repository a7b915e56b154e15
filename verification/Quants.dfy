/** The quantised block formats of src/quants.c: the value of a single element, and what
    one lane of the block kernels of src/backend/cpu/cpu_x86.c computes. Arithmetic is over
    the reals, and the two float formats are left open. */
module Quants {
  import opened Bits
  import opened Common

  /** How the bits of a half and of a single are read as numbers. */
  datatype Floats = Floats(half: nat -> real, single: nat -> real)

  datatype Kind = Q4_0 | Q4_1 | Q5_0 | Q5_1 | Q8_0 | Q8_1 | Q2_K | Q3_K | Q4_K | Q5_K | Q6_K | Q8_K

  predicate Simple(k: Kind) {
    k.Q4_0? || k.Q4_1? || k.Q5_0? || k.Q5_1? || k.Q8_0? || k.Q8_1?
  }

  function ElemsPer(k: Kind): nat {
    if Simple(k) then 32 else 256
  }

  function BytesPer(k: Kind): nat {
    match k
    case Q4_0 => 18
    case Q4_1 => 20
    case Q5_0 => 22
    case Q5_1 => 24
    case Q8_0 => 34
    case Q8_1 => 40
    case Q2_K => 84
    case Q3_K => 110
    case Q4_K => 144
    case Q5_K => 176
    case Q6_K => 210
    case Q8_K => 292
  }

  // ------------------------------------------------------------------------- bits

  lemma ShrNibble(x: nat)
    ensures Shr(x, 0) == x && Shr(x, 4) == x / 16
  {
    assert Shr(x, 1) == x / 2 && Shr(x, 2) == x / 4 && Shr(x, 3) == x / 8;
  }

  function I8(b: Byte): int {
    if b < 128 then b else b - 256
  }

  function U16(d: seq<Byte>, at: nat): nat
    requires at + 2 <= |d|
  {
    var lo: int, hi: int := d[at], d[at + 1];
    lo + 256 * hi
  }

  function U32(d: seq<Byte>, at: nat): nat
    requires at + 4 <= |d|
  {
    U16(d, at) + 65536 * U16(d, at + 2)
  }

  function Half(f: Floats, d: seq<Byte>, at: nat): real
    requires at + 2 <= |d|
  {
    f.half(U16(d, at))
  }

  function Single(f: Floats, d: seq<Byte>, at: nat): real
    requires at + 4 <= |d|
  {
    f.single(U32(d, at))
  }

  /** q4_nibble: low nibbles are elements 0 to 15, high nibbles elements 16 to 31. */
  function Nibble(d: seq<Byte>, at: nat, o: nat): (r: nat)
    requires at + 16 <= |d| && o < 32
    ensures r < 16
  {
    Shr(d[at + o % 16], if o < 16 then 0 else 4) % 16
  }

  /** The two halves of a nibble vector: sse_lo_nibbles and sse_hi_nibbles. */
  function HalfNibble(b: Byte, high: bool): (r: nat)
    ensures r < 16
  {
    if high then b / 16 % 16 else b % 16
  }

  /** q4k_scale_min: eight six-bit scales and minima in twelve bytes. */
  function ScaleMin(d: seq<Byte>, at: nat, sb: nat): (int, int)
    requires at + 12 <= |d| && sb < 8
  {
    var s: int, m: int, md: int := d[at + sb % 4], d[at + 4 + sb % 4], d[at + 8 + sb % 4];
    if sb < 4 then (s % 64, m % 64) else (md % 16 + s / 4 / 16 % 4 * 16, md / 16 + m / 4 / 16 % 4 * 16)
  }

  /** Widened, biased, scaled and shifted: the arithmetic of one SSE lane. */
  function Widen(q: int, bias: int, scale: real, add: real): real {
    add + (q - bias) as real * scale
  }

  function Times(scale: real, n: int): real {
    scale * n as real
  }

  /** The scalar order of the same: super-block scale, sub-block scale, quant. */
  function Scaled(scale: real, sub: int, q: int): real {
    Times(Times(scale, sub), q)
  }

  lemma WidenIs(q: int, bias: int, scale: real, sub: int, add: real)
    ensures Widen(q, bias, Times(scale, sub), add) == Scaled(scale, sub, q - bias) + add
  {
  }

  // -------------------------------------------------- simple kinds: elements and lanes

  /** dequant_q4_0, dequant_q4_1, dequant_q8_0 and dequant_q8_1. */
  function SimpleElement(k: Kind, f: Floats, d: seq<Byte>, at: nat, o: nat): real
    requires Simple(k) && at + BytesPer(k) <= |d| && o < 32
  {
    match k
    case Q4_0 => (Nibble(d, at + 2, o) as real - 8.0) * Half(f, d, at)
    case Q4_1 => Nibble(d, at + 4, o) as real * Half(f, d, at) + Half(f, d, at + 2)
    case Q5_0 =>
      ((Shr(U32(d, at + 2), o) % 2 * 16 + Nibble(d, at + 6, o)) as real - 16.0) * Half(f, d, at)
    case Q5_1 =>
      (Shr(U32(d, at + 4), o) % 2 * 16 + Nibble(d, at + 8, o)) as real * Half(f, d, at) + Half(f, d, at + 2)
    case Q8_0 => I8(d[at + 2 + o]) as real * Half(f, d, at)
    case Q8_1 => I8(d[at + 8 + o]) as real * Single(f, d, at)
  }

  /** Lane j of half h of the kernel. */
  function SimpleLane(k: Kind, f: Floats, d: seq<Byte>, at: nat, h: nat, j: nat): real
    requires Simple(k) && at + BytesPer(k) <= |d| && h < 2 && j < 16
  {
    match k
    case Q4_0 => Widen(HalfNibble(d[at + 2 + j], h == 1), 8, Half(f, d, at), 0.0)
    case Q4_1 => Widen(HalfNibble(d[at + 4 + j], h == 1), 0, Half(f, d, at), Half(f, d, at + 2))
    case Q5_0 =>
      Widen(HalfNibble(d[at + 6 + j], h == 1) + Shr(U32(d, at + 2), 16 * h + j) % 2 * 16, 16, Half(f, d, at), 0.0)
    case Q5_1 =>
      Widen(HalfNibble(d[at + 8 + j], h == 1) + Shr(U32(d, at + 4), 16 * h + j) % 2 * 16, 0, Half(f, d, at), Half(f, d, at + 2))
    case Q8_0 => Widen(I8(d[at + 2 + 16 * h + j]), 0, Half(f, d, at), 0.0)
    case Q8_1 => Widen(I8(d[at + 8 + 16 * h + j]), 0, Single(f, d, at), 0.0)
  }

  lemma NibbleHalves(d: seq<Byte>, at: nat, h: nat, j: nat)
    requires at + 16 <= |d| && h < 2 && j < 16
    ensures Nibble(d, at, 16 * h + j) == HalfNibble(d[at + j], h == 1)
  {
    ShrNibble(d[at + j]);
    assert (16 * h + j) % 16 == j;
  }

  lemma SimpleLaneIs(k: Kind, f: Floats, d: seq<Byte>, at: nat, h: nat, j: nat)
    requires Simple(k) && at + BytesPer(k) <= |d| && h < 2 && j < 16
    ensures SimpleLane(k, f, d, at, h, j) == SimpleElement(k, f, d, at, 16 * h + j)
  {
    hide Nibble, HalfNibble, Half, Single, Shr;
    match k
    case Q4_0 => NibbleHalves(d, at + 2, h, j);
    case Q4_1 => NibbleHalves(d, at + 4, h, j);
    case Q5_0 => NibbleHalves(d, at + 6, h, j);
    case Q5_1 => NibbleHalves(d, at + 8, h, j);
    case Q8_0 =>
    case Q8_1 =>
  }

  // ------------------------------------------------------- K kinds: elements and lanes

  /** How many lanes a kernel handles per round of its outer loop. */
  function Width(k: Kind): nat {
    if k.Q4_K? || k.Q5_K? then 32 else 16
  }

  /** The six bits of a Q6_K element. */
  function SixBits(d: seq<Byte>, at: nat, o: nat): (r: int)
    requires at + 210 <= |d| && o < 256
    ensures 0 <= r < 64
  {
    var half, which, l := o / 128, o % 128 / 32, o % 128 % 32;
    var low: int := d[at + half * 64 + which % 2 * 32 + l];
    (if which >= 2 then low / 16 % 16 else low % 16) + Shr(d[at + 128 + half * 32 + l], which * 2) % 4 * 16
  }

  /** The three bits of a Q3_K element. */
  function ThreeBits(d: seq<Byte>, at: nat, o: nat): (r: int)
    requires at + 110 <= |d| && o < 256
    ensures 0 <= r < 8
  {
    Shr(d[at + 32 + o / 128 * 32 + o % 32], o / 32 % 4 * 2) % 4 + Shr(d[at + o % 32], o / 32) % 2 * 4
  }

  /** The two bits of a Q2_K element, less its sign. */
  function TwoBits(d: seq<Byte>, at: nat, o: nat): (r: int)
    requires at + 84 <= |d| && o < 256
    ensures -4 <= r < 4
  {
    var q: int, sign: int := Shr(d[at + o / 4], o % 4 * 2) % 4, Shr(d[at + o / 8], o % 8) % 2;
    q - sign * 4
  }

  /** Where element o of a Q6_K block is. */
  lemma Offsets(o: nat)
    requires o < 256
    ensures var hl := And(o, 127);
            && Shr(o, 7) == o / 128 < 2 && hl == o % 128
            && Shr(hl, 5) == o % 128 / 32 < 4 && And(hl, 31) == o % 128 % 32
            && And(Shr(hl, 5), 1) == o % 128 / 32 % 2
            && Shl(Shr(o, 7), 6) == 64 * (o / 128) && Shl(Shr(o, 7), 5) == 32 * (o / 128)
            && Shl(And(Shr(hl, 5), 1), 5) == o % 128 / 32 % 2 * 32
  {
    hide And, Shr, Shl;
    var hl := And(o, 127);
    Shifts(o);
    Mask127(o);
    Shifts(hl);
    Mask31(hl);
    Mask1(Shr(hl, 5));
    Shifts(Shr(o, 7));
    Shifts(And(Shr(hl, 5), 1));
  }

  /** The same as the kernel takes them, in the operators of C and for lane j of sub-block sb. */
  function KernelSix(d: seq<Byte>, at: nat, sb: nat, j: nat): nat
    requires at + 210 <= |d| && sb < 16 && j < 16
  {
    var (low, high, which) := KernelPlaces(16 * sb + j);
    SixJoined(KernelLow(d[at + low], which), And(Shr(d[at + high], which * 2), 3))
  }

  /** Where the kernel finds the nibble and the high bits of element o, and which quarter of
      a half block it is in. */
  function KernelPlaces(o: nat): (r: (nat, nat, nat))
    requires o < 256
    ensures r.0 < 128 && 128 <= r.1 < 192 && r.2 < 4
    ensures r == (o / 128 * 64 + o % 128 / 32 % 2 * 32 + o % 128 % 32, 128 + o / 128 * 32 + o % 128 % 32, o % 128 / 32)
  {
    hide And, Shr, Shl;
    Offsets(o);
    var half, hl := Shr(o, 7), And(o, 127);
    var which, l := Shr(hl, 5), And(hl, 31);
    (Shl(half, 6) + Shl(And(which, 1), 5) + l, 128 + (Shl(half, 5) + l), which)
  }

  function KernelLow(low: nat, which: nat): nat {
    if which >= 2 then And(Shr(low, 4), 15) else And(low, 15)
  }

  function SixJoined(lo: nat, hi: nat): nat {
    Or(lo, Shl(hi, 4)) % 256
  }

  lemma LowSame(low: nat, which: nat)
    ensures KernelLow(low, which) == (if which >= 2 then low / 16 % 16 else low % 16) < 16
  {
    hide And, Shr;
    Shifts(low);
    Mask15(low);
    Mask15(low / 16);
  }

  lemma SixJoinedSame(lo: nat, hi: nat)
    requires lo < 16 && hi < 4
    ensures SixJoined(lo, hi) == lo + hi * 16
  {
    hide Or, Shl;
    Joined(lo, hi);
    Shifts(hi);
  }

  lemma SixSame(d: seq<Byte>, at: nat, sb: nat, j: nat)
    requires at + 210 <= |d| && sb < 16 && j < 16
    ensures KernelSix(d, at, sb, j) == SixBits(d, at, 16 * sb + j)
  {
    hide And, Shr, KernelPlaces, KernelLow, SixJoined;
    var (low, high, which) := KernelPlaces(16 * sb + j);
    LowSame(d[at + low], which);
    Mask3(Shr(d[at + high], which * 2));
    SixJoinedSame(KernelLow(d[at + low], which), And(Shr(d[at + high], which * 2), 3));
  }

  function Q6Element(f: Floats, d: seq<Byte>, at: nat, o: nat): real
    requires at + 210 <= |d| && o < 256
  {
    Scaled(Half(f, d, at + 208), I8(d[at + 192 + o / 16]), SixBits(d, at, o) - 32)
  }

  function Q6Lane(f: Floats, d: seq<Byte>, at: nat, sb: nat, j: nat): real
    requires at + 210 <= |d| && sb < 16 && j < 16
  {
    Widen(KernelSix(d, at, sb, j), 32, Times(Half(f, d, at + 208), I8(d[at + 192 + sb])), 0.0)
  }

  lemma Q6Same(f: Floats, d: seq<Byte>, at: nat, sb: nat, j: nat)
    requires at + 210 <= |d| && sb < 16 && j < 16
    ensures Q6Lane(f, d, at, sb, j) == Q6Element(f, d, at, 16 * sb + j)
  {
    hide SixBits, KernelSix, Half, I8, Widen, Scaled, Times;
    var o := 16 * sb + j;
    assert o / 16 == sb;
    SixSame(d, at, sb, j);
    WidenIs(SixBits(d, at, o), 32, Half(f, d, at + 208), I8(d[at + 192 + sb]), 0.0);
  }

  /** The nibble of a Q4_K or Q5_K element, whose nibbles start at `at`. */
  function PackedNibble(d: seq<Byte>, at: nat, o: nat): (r: nat)
    requires at + 128 <= |d| && o < 256
    ensures r < 16
  {
    Shr(d[at + o / 64 * 32 + o % 32], o / 32 % 2 * 4) % 16
  }

  /** The same as the kernels take it. */
  function GroupNibble(d: seq<Byte>, at: nat, sb: nat, j: nat): (r: nat)
    requires at + 128 <= |d| && sb < 8 && j < 32
    ensures r < 16
  {
    var b: int := d[at + sb / 2 * 32 + j];
    if sb % 2 == 1 then b / 16 else b % 16
  }

  lemma NibbleSame(d: seq<Byte>, at: nat, sb: nat, j: nat)
    requires at + 128 <= |d| && sb < 8 && j < 32
    ensures GroupNibble(d, at, sb, j) == PackedNibble(d, at, 32 * sb + j)
  {
    var o := 32 * sb + j;
    assert o % 32 == j && o / 32 == sb && o / 64 == sb / 2;
    ShrNibble(d[at + sb / 2 * 32 + j]);
  }

  function Q5Element(f: Floats, d: seq<Byte>, at: nat, o: nat): real
    requires at + 176 <= |d| && o < 256
  {
    var (sc, mn) := ScaleMin(d, at + 4, o / 32);
    var q := PackedNibble(d, at + 48, o) + Shr(d[at + 16 + o % 32], o / 32) % 2 * 16;
    Scaled(Half(f, d, at), sc, q) - Times(Half(f, d, at + 2), mn)
  }

  function Q5Lane(f: Floats, d: seq<Byte>, at: nat, sb: nat, j: nat): real
    requires at + 176 <= |d| && sb < 8 && j < 32
  {
    var (sc, mn) := ScaleMin(d, at + 4, sb);
    var q := GroupNibble(d, at + 48, sb, j) + Shr(d[at + 16 + (32 * sb + j) % 32], (32 * sb + j) / 32) % 2 * 16;
    Widen(q % 256, 0, Times(Half(f, d, at), sc), 0.0 - Times(Half(f, d, at + 2), mn))
  }

  lemma Q5Same(f: Floats, d: seq<Byte>, at: nat, sb: nat, j: nat)
    requires at + 176 <= |d| && sb < 8 && j < 32
    ensures Q5Lane(f, d, at, sb, j) == Q5Element(f, d, at, 32 * sb + j)
  {
    hide ScaleMin, Half, Shr, PackedNibble, GroupNibble, Widen, Scaled, Times;
    var o := 32 * sb + j;
    assert o / 32 == sb && o % 32 == j;
    NibbleSame(d, at + 48, sb, j);
    NibbleSmall(d, at + 48, sb, j);
    var (sc, mn) := ScaleMin(d, at + 4, sb);
    var q: int := GroupNibble(d, at + 48, sb, j) + Shr(d[at + 16 + j], sb) % 2 * 16;
    assert q % 256 == q;
    WidenIs(q, 0, Half(f, d, at), sc, 0.0 - Times(Half(f, d, at + 2), mn));
  }

  lemma NibbleSmall(d: seq<Byte>, at: nat, sb: nat, j: nat)
    requires at + 128 <= |d| && sb < 8 && j < 32
    ensures 0 <= GroupNibble(d, at, sb, j) < 16
  {
  }

  function Q4Element(f: Floats, d: seq<Byte>, at: nat, o: nat): real
    requires at + 144 <= |d| && o < 256
  {
    var (sc, mn) := ScaleMin(d, at + 4, o / 32);
    Scaled(Half(f, d, at), sc, PackedNibble(d, at + 16, o)) - Times(Half(f, d, at + 2), mn)
  }

  function Q4Lane(f: Floats, d: seq<Byte>, at: nat, sb: nat, j: nat): real
    requires at + 144 <= |d| && sb < 8 && j < 32
  {
    var (sc, mn) := ScaleMin(d, at + 4, sb);
    Widen(GroupNibble(d, at + 16, sb, j), 0, Times(Half(f, d, at), sc), 0.0 - Times(Half(f, d, at + 2), mn))
  }

  lemma Q4Same(f: Floats, d: seq<Byte>, at: nat, sb: nat, j: nat)
    requires at + 144 <= |d| && sb < 8 && j < 32
    ensures Q4Lane(f, d, at, sb, j) == Q4Element(f, d, at, 32 * sb + j)
  {
    hide ScaleMin, Half, PackedNibble, GroupNibble, Widen, Scaled, Times;
    assert (32 * sb + j) / 32 == sb;
    NibbleSame(d, at + 16, sb, j);
    var (sc, mn) := ScaleMin(d, at + 4, sb);
    WidenIs(GroupNibble(d, at + 16, sb, j), 0, Half(f, d, at), sc, 0.0 - Times(Half(f, d, at + 2), mn));
  }

  /** The six-bit scale of a Q3_K sub-block, less 32. */
  function Q3Scale(d: seq<Byte>, at: nat, s: nat, shift: nat): int
    requires at + 110 <= |d| && s < 16
  {
    Shr(d[at + 96 + s % 8], if s >= 8 then 4 else 0) % 16 + Shr(d[at + 104 + s % 4], shift) % 4 * 16 - 32
  }

  function Q3Element(f: Floats, d: seq<Byte>, at: nat, o: nat): real
    requires at + 110 <= |d| && o < 256
  {
    Scaled(Half(f, d, at + 108), Q3Scale(d, at, o / 16, o / 16 / 4 * 2), ThreeBits(d, at, o) - 4)
  }

  /** The three bits as the kernel takes them. */
  function KernelThree(d: seq<Byte>, at: nat, sb: nat, j: nat): nat
    requires at + 110 <= |d| && sb < 16 && j < 16
  {
    var o := 16 * sb + j;
    ThreeOffsets(o);
    var g, pr, bc := Shr(o, 7), And(Shr(o, 5), 3), And(o, 31);
    var lo := And(Shr(d[at + 32 + (g * 32 + bc)], pr * 2), 3);
    var hi := And(Shr(d[at + And(o, 31)], Shr(o, 5)), 1);
    Or(lo, Shl(hi, 2)) % 256
  }

  lemma ThreeOffsets(o: nat)
    requires o < 256
    ensures Shr(o, 7) == o / 128 < 2 && Shr(o, 5) == o / 32 && And(Shr(o, 5), 3) == o / 32 % 4 && And(o, 31) == o % 32
  {
    hide And, Shr;
    Shifts(o);
    Mask3(o / 32);
    Mask31(o);
  }

  lemma ThreeSame(d: seq<Byte>, at: nat, sb: nat, j: nat)
    requires at + 110 <= |d| && sb < 16 && j < 16
    ensures KernelThree(d, at, sb, j) == ThreeBits(d, at, 16 * sb + j)
  {
    hide And, Or, Shr, Shl;
    var o := 16 * sb + j;
    ThreeOffsets(o);
    var low, high := Shr(d[at + 32 + o / 128 * 32 + o % 32], o / 32 % 4 * 2), Shr(d[at + o % 32], o / 32);
    Mask3(low);
    Mask1(high);
    Joined(low % 4, high % 2);
    Shifts(high % 2);
  }

  function Q3Lane(f: Floats, d: seq<Byte>, at: nat, sb: nat, j: nat): real
    requires at + 110 <= |d| && sb < 16 && j < 16
  {
    Widen(KernelThree(d, at, sb, j), 4, Times(Half(f, d, at + 108), Q3Scale(d, at, sb, sb / 4 % 4 * 2)), 0.0)
  }

  lemma Q3Same(f: Floats, d: seq<Byte>, at: nat, sb: nat, j: nat)
    requires at + 110 <= |d| && sb < 16 && j < 16
    ensures Q3Lane(f, d, at, sb, j) == Q3Element(f, d, at, 16 * sb + j)
  {
    hide ThreeBits, KernelThree, Half, Q3Scale, Widen, Scaled, Times;
    var o := 16 * sb + j;
    assert o / 16 == sb && sb / 4 % 4 == sb / 4;
    ThreeSame(d, at, sb, j);
    WidenIs(ThreeBits(d, at, o), 4, Half(f, d, at + 108), Q3Scale(d, at, sb, sb / 4 * 2), 0.0);
  }

  function Q2Scale(d: seq<Byte>, at: nat, sb: nat): int
    requires at + 84 <= |d| && sb < 16
  {
    var b: int := d[at + 64 + sb / 2];
    if sb % 2 == 1 then b / 16 else b % 16
  }

  function Q2Element(f: Floats, d: seq<Byte>, at: nat, o: nat): real
    requires at + 84 <= |d| && o < 256
  {
    Scaled(Half(f, d, at + 80), Q2Scale(d, at, o / 16), TwoBits(d, at, o)) - Half(f, d, at + 82)
  }

  /** The two bits less the sign as the kernel takes them: 32-bit arithmetic that wraps,
      stored as an unsigned byte. */
  function KernelTwo(d: seq<Byte>, at: nat, sb: nat, j: nat): (r: nat)
    requires at + 84 <= |d| && sb < 16 && j < 16
    ensures r < 256
  {
    var o := 16 * sb + j;
    TwoOffsets(o);
    var q2 := And(Shr(d[at + Shr(o, 2)], Shl(And(o, 3), 1)), 3);
    var sign := And(Shr(d[at + Shr(o, 3)], And(o, 7)), 1);
    (q2 - sign * 4) % 0x1_0000_0000 % 256
  }

  lemma TwoOffsets(o: nat)
    requires o < 256
    ensures Shr(o, 2) == o / 4 < 64 && Shr(o, 3) == o / 8 < 32 && And(o, 7) == o % 8 && Shl(And(o, 3), 1) == o % 4 * 2
  {
    hide And, Shr, Shl;
    Shifts(o);
    Mask7(o);
    Mask3(o);
    Shifts(o % 4);
  }

  lemma TwoSame(d: seq<Byte>, at: nat, sb: nat, j: nat)
    requires at + 84 <= |d| && sb < 16 && j < 16
    ensures I8(KernelTwo(d, at, sb, j)) == TwoBits(d, at, 16 * sb + j)
  {
    hide And, Shr, Shl;
    var o := 16 * sb + j;
    TwoOffsets(o);
    Mask3(Shr(d[at + o / 4], o % 4 * 2));
    Mask1(Shr(d[at + o / 8], o % 8));
    Wrapped(TwoBits(d, at, o));
  }

  /** A small negative number survives the wrap and the signed reading. */
  lemma Wrapped(q: int)
    requires -4 <= q < 4
    ensures 0 <= q % 0x1_0000_0000 % 256 < 256 && I8(q % 0x1_0000_0000 % 256) == q
  {
    if q < 0 { assert q % 0x1_0000_0000 == q + 0x1_0000_0000; }
  }

  /** The kernel reads the stored byte back as a signed one. */
  function Q2Lane(f: Floats, d: seq<Byte>, at: nat, sb: nat, j: nat): real
    requires at + 84 <= |d| && sb < 16 && j < 16
  {
    Widen(I8(KernelTwo(d, at, sb, j)), 0, Times(Half(f, d, at + 80), Q2Scale(d, at, sb)), 0.0 - Half(f, d, at + 82))
  }

  lemma Q2Same(f: Floats, d: seq<Byte>, at: nat, sb: nat, j: nat)
    requires at + 84 <= |d| && sb < 16 && j < 16
    ensures Q2Lane(f, d, at, sb, j) == Q2Element(f, d, at, 16 * sb + j)
  {
    hide TwoBits, KernelTwo, Half, Q2Scale, Widen, Scaled, Times;
    var o := 16 * sb + j;
    assert o / 16 == sb;
    TwoSame(d, at, sb, j);
    WidenIs(TwoBits(d, at, o), 0, Half(f, d, at + 80), Q2Scale(d, at, sb), 0.0 - Half(f, d, at + 82));
  }

  function Q8Element(f: Floats, d: seq<Byte>, at: nat, o: nat): real
    requires at + 292 <= |d| && o < 256
  {
    I8(d[at + 36 + o]) as real * Half(f, d, at + 4 + 2 * (o / 16)) * Single(f, d, at)
  }

  function Q8Lane(f: Floats, d: seq<Byte>, at: nat, sb: nat, j: nat): real
    requires at + 292 <= |d| && sb < 16 && j < 16
  {
    Widen(I8(d[at + 36 + 16 * sb + j]), 0, Single(f, d, at) * Half(f, d, at + 4 + 2 * sb), 0.0)
  }

  lemma Q8Same(f: Floats, d: seq<Byte>, at: nat, sb: nat, j: nat)
    requires at + 292 <= |d| && sb < 16 && j < 16
    ensures Q8Lane(f, d, at, sb, j) == Q8Element(f, d, at, 16 * sb + j)
  {
    hide Half, Single, I8;
    assert (16 * sb + j) / 16 == sb;
  }

  // -------------------------------------------------------------------- all the kinds

  /** gguf_dequant for these kinds: element o of the block at `at`. */
  function Element(k: Kind, f: Floats, d: seq<Byte>, at: nat, o: nat): real
    requires at + BytesPer(k) <= |d| && o < ElemsPer(k)
  {
    match k
    case Q2_K => Q2Element(f, d, at, o)
    case Q3_K => Q3Element(f, d, at, o)
    case Q4_K => Q4Element(f, d, at, o)
    case Q5_K => Q5Element(f, d, at, o)
    case Q6_K => Q6Element(f, d, at, o)
    case Q8_K => Q8Element(f, d, at, o)
    case _ => SimpleElement(k, f, d, at, o)
  }

  /** Lane j of round sb of the kernel in the dispatch table. */
  function Lane(k: Kind, f: Floats, d: seq<Byte>, at: nat, sb: nat, j: nat): real
    requires at + BytesPer(k) <= |d| && j < Width(k) && Width(k) * sb < ElemsPer(k)
  {
    match k
    case Q2_K => Q2Lane(f, d, at, sb, j)
    case Q3_K => Q3Lane(f, d, at, sb, j)
    case Q4_K => Q4Lane(f, d, at, sb, j)
    case Q5_K => Q5Lane(f, d, at, sb, j)
    case Q6_K => Q6Lane(f, d, at, sb, j)
    case Q8_K => Q8Lane(f, d, at, sb, j)
    case _ => SimpleLane(k, f, d, at, sb, j)
  }

  /** Every lane of every kernel computes the element it stands for. */
  lemma LaneIsElement(k: Kind, f: Floats, d: seq<Byte>, at: nat, sb: nat, j: nat)
    requires at + BytesPer(k) <= |d| && j < Width(k) && Width(k) * sb < ElemsPer(k)
    ensures Width(k) * sb + j < ElemsPer(k)
    ensures Lane(k, f, d, at, sb, j) == Element(k, f, d, at, Width(k) * sb + j)
  {
    hide Q2Element, Q3Element, Q4Element, Q5Element, Q6Element, Q8Element, SimpleElement;
    hide Q2Lane, Q3Lane, Q4Lane, Q5Lane, Q6Lane, Q8Lane, SimpleLane;
    match k
    case Q2_K => Q2Same(f, d, at, sb, j);
    case Q3_K => Q3Same(f, d, at, sb, j);
    case Q4_K => Q4Same(f, d, at, sb, j);
    case Q5_K => Q5Same(f, d, at, sb, j);
    case Q6_K => Q6Same(f, d, at, sb, j);
    case Q8_K => Q8Same(f, d, at, sb, j);
    case _ => SimpleLaneIs(k, f, d, at, sb, j);
  }
}
