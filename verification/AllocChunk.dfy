/** Size classes and chunk masks of the allocator (src/asctx.c, src/asctx.h). */
module AllocChunk {

  const FREELISTS := 11
  const CHUNK_LIMIT := 8192
  const CONTEXT_HEADER := 104
  const BLOCK_HEADER := 40
  const CHUNK_HEADER := 16
  const MAX_BLOCK := 8 * 1024 * 1024
  const TWO30 := 0x4000_0000
  const TWO32 := 0x1_0000_0000
  const TWO34 := 0x4_0000_0000
  const TWO64 := 0x1_0000_0000_0000_0000

  /** MAXALIGN. */
  function Align8(n: nat): (r: nat)
    ensures r % 8 == 0 && n <= r < n + 8
  {
    (n + 7) / 8 * 8
  }

  function Pow2(n: nat): (r: nat)
    ensures r > 0
  {
    if n == 0 then 1 else 2 * Pow2(n - 1)
  }

  // -------------------------------------------------------------------- size classes

  /** The table leftmost_one_pos, row by row. */
  const LEFTMOST_ONE_POS: seq<seq<nat>> := [
    [0, 0, 1, 1, 2, 2, 2, 2, 3, 3, 3, 3, 3, 3, 3, 3],
    [4, 4, 4, 4, 4, 4, 4, 4, 4, 4, 4, 4, 4, 4, 4, 4],
    [5, 5, 5, 5, 5, 5, 5, 5, 5, 5, 5, 5, 5, 5, 5, 5],
    [5, 5, 5, 5, 5, 5, 5, 5, 5, 5, 5, 5, 5, 5, 5, 5],
    [6, 6, 6, 6, 6, 6, 6, 6, 6, 6, 6, 6, 6, 6, 6, 6],
    [6, 6, 6, 6, 6, 6, 6, 6, 6, 6, 6, 6, 6, 6, 6, 6],
    [6, 6, 6, 6, 6, 6, 6, 6, 6, 6, 6, 6, 6, 6, 6, 6],
    [6, 6, 6, 6, 6, 6, 6, 6, 6, 6, 6, 6, 6, 6, 6, 6],
    [7, 7, 7, 7, 7, 7, 7, 7, 7, 7, 7, 7, 7, 7, 7, 7],
    [7, 7, 7, 7, 7, 7, 7, 7, 7, 7, 7, 7, 7, 7, 7, 7],
    [7, 7, 7, 7, 7, 7, 7, 7, 7, 7, 7, 7, 7, 7, 7, 7],
    [7, 7, 7, 7, 7, 7, 7, 7, 7, 7, 7, 7, 7, 7, 7, 7],
    [7, 7, 7, 7, 7, 7, 7, 7, 7, 7, 7, 7, 7, 7, 7, 7],
    [7, 7, 7, 7, 7, 7, 7, 7, 7, 7, 7, 7, 7, 7, 7, 7],
    [7, 7, 7, 7, 7, 7, 7, 7, 7, 7, 7, 7, 7, 7, 7, 7],
    [7, 7, 7, 7, 7, 7, 7, 7, 7, 7, 7, 7, 7, 7, 7, 7]
  ]

  /** An entry of the table. */
  function LeftmostOnePos(b: nat): nat
    requires b < 256
  {
    TableShape();
    LEFTMOST_ONE_POS[b / 16][b % 16]
  }

  lemma TableShape()
    ensures |LEFTMOST_ONE_POS| == 16 && forall r :: 0 <= r < 16 ==> |LEFTMOST_ONE_POS[r]| == 16
  {
  }

  /** The rows below the first hold one value each. */
  lemma TableRow(r: nat, k: nat)
    requires 0 < r < 16 && k < 16
    ensures |LEFTMOST_ONE_POS| == 16 && |LEFTMOST_ONE_POS[r]| == 16
    ensures LEFTMOST_ONE_POS[r][k] == if r < 2 then 4 else if r < 4 then 5 else if r < 8 then 6 else 7
  {
  }

  /** The highest bit that is set, by halving. */
  function HighestBit(b: nat): (p: nat)
    ensures b > 0 ==> Pow2(p) <= b < Pow2(p + 1)
  {
    if b < 2 then 0 else 1 + HighestBit(b / 2)
  }

  /** The table gives the highest bit that is set, and 0 for 0. */
  lemma LeftmostIsHighest(b: nat)
    requires b < 256
    ensures LeftmostOnePos(b) == HighestBit(b)
  {
    hide LeftmostOnePos;
    if b < 16 {
      FirstRow(b);
    } else {
      LaterRow(b);
    }
  }

  lemma FirstRow(b: nat)
    requires b < 16
    ensures LeftmostOnePos(b) == HighestBit(b)
  {
    FirstBits(b);
  }

  lemma FirstBits(b: nat)
    requires b < 16
    ensures HighestBit(b) == if b < 2 then 0 else if b < 4 then 1 else if b < 8 then 2 else 3
  {
    assert HighestBit(1) == 0 && HighestBit(2) == HighestBit(3) == 1;
  }

  lemma LaterRow(b: nat)
    requires 16 <= b < 256
    ensures LeftmostOnePos(b) == HighestBit(b)
  {
    TableRow(b / 16, b % 16);
    var q := b / 16;
    assert HighestBit(b) == 4 + HighestBit(q) by {
      assert b / 2 / 2 / 2 / 2 == q;
      assert HighestBit(b / 2 / 2) == 1 + HighestBit(b / 2 / 2 / 2) == 2 + HighestBit(q);
    }
    FirstBits(q);
  }

  lemma {:induction false} Pow2Add(a: nat, b: nat)
    ensures Pow2(a + b) == Pow2(a) * Pow2(b)
  {
    if a > 0 { Pow2Add(a - 1, b); }
  }

  lemma {:induction false} Pow2Monotone(a: nat, b: nat)
    requires a <= b
    ensures Pow2(a) <= Pow2(b)
  {
    if a < b { Pow2Monotone(a, b - 1); }
  }

  lemma Pow2Positive(n: nat)
    ensures Pow2(n) > 0
  {
  }

  lemma Pow2Values()
    ensures Pow2(0) == 1 && Pow2(3) == 8 && Pow2(10) == 1024 && Pow2(13) == CHUNK_LIMIT
    ensures Pow2(8) == 0x100 && Pow2(16) == 0x1_0000 && Pow2(24) == 0x100_0000 && Pow2(32) == 0x1_0000_0000
  {
    Pow2Add(5, 5);
    Pow2Add(8, 8);
    Pow2Add(16, 8);
    Pow2Add(16, 16);
  }

  /** word >> shift. */
  function Shr(word: nat, shift: nat): nat {
    if shift == 0 then word else Shr(word, shift - 1) / 2
  }

  lemma {:induction false} ShrIs(word: nat, shift: nat)
    ensures Shr(word, shift) * Pow2(shift) <= word < (Shr(word, shift) + 1) * Pow2(shift)
  {
    if shift > 0 {
      ShrIs(word, shift - 1);
      var q, m := Shr(word, shift - 1), Pow2(shift - 1);
      Halve(q, m, word);
      assert Pow2(shift) == 2 * m by { Pow2Double(shift); }
    }
  }

  lemma ShrNothing(word: nat)
    ensures Shr(word, 0) == word
  {
  }

  lemma ShrOut(word: nat, shift: nat)
    requires Shr(word, shift) == 0
    ensures word < Pow2(shift)
  {
    hide Shr;
    ShrIs(word, shift);
  }

  lemma Pow2Double(n: nat)
    requires n > 0
    ensures Pow2(n) == 2 * Pow2(n - 1)
  {
  }

  lemma Halve(q: nat, m: nat, word: nat)
    requires q * m <= word < (q + 1) * m
    ensures q / 2 * (2 * m) <= word < (q / 2 + 1) * (2 * m)
  {
    var h := q / 2;
    assert h * (2 * m) == 2 * h * m && (h + 1) * (2 * m) == (2 * h + 2) * m;
    Scale(m, 2 * h, q);
    Scale(m, q + 1, 2 * h + 2);
  }

  /** leftmost_32_pos: the position of the highest bit of a word that is not 0. */
  method Leftmost32Pos(word: nat) returns (p: nat)
    requires 0 < word < Pow2(32)
    ensures Pow2(p) <= word < Pow2(p + 1)
  {
    hide Pow2, LeftmostOnePos, Shr;
    var shift: nat := 24;
    ShrNothing(word);
    while Shr(word, shift) == 0
      invariant shift % 8 == 0 && shift <= 24 && word < Pow2(shift + 8)
      decreases shift
    {
      ShrOut(word, shift);
      shift := shift - 8;
    }
    ByteOf(word, shift);
    var b := Shr(word, shift);
    p := shift + LeftmostOnePos(b % 256);
    TableEntry(b);
    ShiftBack(word, shift, LeftmostOnePos(b));
  }

  lemma TableEntry(b: nat)
    requires 0 < b < 256
    ensures Pow2(LeftmostOnePos(b)) <= b < Pow2(LeftmostOnePos(b) + 1)
  {
    LeftmostIsHighest(b);
  }

  lemma ByteOf(word: nat, shift: nat)
    requires word < Pow2(shift + 8) && Shr(word, shift) > 0
    ensures 0 < Shr(word, shift) < 256
  {
    hide Pow2, Shr;
    Pow2Values();
    Pow2Add(8, shift);
    ShrIs(word, shift);
    Pow2Positive(shift);
    if Shr(word, shift) >= 256 { Scale(Pow2(shift), 256, Shr(word, shift)); }
  }

  lemma ShiftBack(word: nat, shift: nat, q: nat)
    requires Pow2(q) <= Shr(word, shift) < Pow2(q + 1)
    ensures Pow2(shift + q) <= word < Pow2(shift + q + 1)
  {
    hide Pow2, Shr;
    var m, b := Pow2(shift), Shr(word, shift);
    Pow2Positive(shift);
    Pow2Add(shift, q);
    Pow2Add(shift, q + 1);
    ShrIs(word, shift);
    Scale(m, Pow2(q), b);
    Scale(m, b + 1, Pow2(q + 1));
  }

  lemma Scale(m: nat, a: nat, b: nat)
    requires a <= b
    ensures m * a <= m * b
  {
  }

  /** The chunk size of free list f. */
  function ClassSize(f: nat): (r: nat)
    ensures r > 0
  {
    8 * Pow2(f)
  }

  /** f is the smallest class whose chunks hold size bytes. */
  predicate IsClass(size: nat, f: nat) {
    size <= ClassSize(f) && (f > 0 ==> ClassSize(f - 1) < size)
  }

  lemma ClassUnique(size: nat, f: nat, g: nat)
    requires IsClass(size, f) && IsClass(size, g)
    ensures f == g
  {
    if f < g { Pow2Monotone(f, g - 1); }
    if g < f { Pow2Monotone(g, f - 1); }
  }

  /** The free lists cover every size that is not external. */
  lemma ClassInRange(size: nat, f: nat)
    requires IsClass(size, f) && size <= CHUNK_LIMIT
    ensures f < FREELISTS && ClassSize(f) <= CHUNK_LIMIT
  {
    Pow2Values();
    if f >= FREELISTS { Pow2Monotone(10, f - 1); }
    Pow2Monotone(f, 10);
  }

  /** The chunk sizes of the eleven classes. */
  lemma ClassSizes(f: nat)
    requires f < 11
    ensures ClassSize(f) == [8, 16, 32, 64, 128, 256, 512, 1024, 2048, 4096, 8192][f]
  {
    SmallPowers(if f > 5 then f - 5 else f);
    SmallPowers(5);
    if f > 5 { Pow2Add(5, f - 5); }
  }

  lemma SmallPowers(n: nat)
    requires n <= 5
    ensures Pow2(n) == [1, 2, 4, 8, 16, 32][n]
  {
    assert Pow2(1) == 2 && Pow2(2) == 4 && Pow2(3) == 8;
    assert Pow2(4) == 16;
  }

  /** alloc_set_free_index. */
  method FreeIndex(size: nat) returns (idx: nat)
    requires size <= CHUNK_LIMIT
    ensures IsClass(size, idx) && idx < FREELISTS && ClassSize(idx) <= CHUNK_LIMIT
  {
    Pow2Values();
    if size > 8 {
      var p := Leftmost32Pos(size - 1);
      if p < 3 { Pow2Monotone(p + 1, 3); }
      idx := p - 3 + 1;
      Pow2Add(3, idx - 1);
      Pow2Add(3, idx);
    } else {
      idx := 0;
    }
    ClassInRange(size, idx);
  }

  // --------------------------------------------------------------------------- masks

  /** ALLOC_CHUNK_MAGIC with the external bit. The magic is 0xBDEADB858E77BABA with its
      four lowest bits cleared. */
  const EXTERNAL_MASK: nat := 0xBDEADB858E77BAB0 + 8

  /** alloc_chunk_set_mask in 64-bit arithmetic: offset << 34 | value << 4. The shifted
      value stays below bit 34, so that `|` adds. */
  function Mask(offset: nat, value: nat): (m: nat)
    requires value < TWO30
    ensures m < TWO64
  {
    offset % TWO30 * TWO34 + value * 16
  }

  predicate IsExternal(mask: nat) {
    mask / 8 % 2 == 1
  }

  function Offset(mask: nat): nat {
    mask / TWO34 % TWO30
  }

  function Value(mask: nat): (v: nat)
    ensures v < TWO30
  {
    mask / 16 % TWO30
  }

  /** A mask gives back its size and is not external; it gives back its offset exactly when
      the chunk starts less than 2^30 bytes into its block. */
  lemma MaskDecodes(offset: nat, value: nat)
    requires value < TWO30
    ensures !IsExternal(Mask(offset, value)) && Value(Mask(offset, value)) == value
    ensures Offset(Mask(offset, value)) == offset <==> offset < TWO30
  {
    var m, o := Mask(offset, value), offset % TWO30;
    assert m / 8 == 2 * (o * (TWO34 / 16) + value);
    assert m / 16 == o * TWO30 + value;
    assert m / TWO34 == o;
  }

  lemma ExternalIsExternal()
    ensures IsExternal(EXTERNAL_MASK)
  {
  }
}
