/** Runs of calls that a new set serves from its keeper block, for every size of the keeper:
    they go well exactly when the sizes are those of a usable set. Nothing here presupposes
    the invariant of a set. */
module AllocRuns {
  import opened AllocChunk
  import opened AllocState
  import opened AllocBlocks
  import opened AllocSteps

  /** A set as alloc_set_memory_context_create leaves it. */
  function NewSet(base: Addr, blockSize: nat): State {
    var keeper := base + CONTEXT_HEADER;
    State(base, keeper, map[keeper := Block(NULL, NULL, keeper + BLOCK_HEADER, base + Align8(CONTEXT_HEADER + blockSize))],
          map[], [keeper], seq(FREELISTS, _ => NULL), seq(FREELISTS, _ => []), map[])
  }

  /** freesize: a difference of two pointers in an unsigned 64-bit variable. */
  function FreeSize(k: Block): nat {
    (k.endptr - k.freeptr) % TWO64
  }

  /** A call for `size` bytes, and the free list that alloc_set_free_index names for it. */
  datatype Call = Call(size: nat, f: nat)

  ghost predicate Served(s: State, c: Call) {
    && s.keeper in s.block && s.keeper <= s.block[s.keeper].freeptr && |s.free| == FREELISTS
    && c.size <= CHUNK_LIMIT && IsClass(c.size, c.f) && c.f < FREELISTS && ClassSize(c.f) <= CHUNK_LIMIT
    && s.order == [s.keeper] && s.free[c.f] == NULL
    && ClassSize(c.f) + CHUNK_HEADER <= FreeSize(s.block[s.keeper])
  }

  /** Every call is for a small chunk, finds its free list empty and, by freesize, room in
      the keeper. */
  ghost predicate AllServed(s: State, calls: seq<Call>)
    decreases |calls|
  {
    calls == [] || (Served(s, calls[0]) && AllServed(Carved(s, s.keeper, calls[0].f, calls[0].size), calls[1..]))
  }

  ghost function After(s: State, calls: seq<Call>): State
    requires AllServed(s, calls)
    decreases |calls|
  {
    if calls == [] then s else After(Carved(s, s.keeper, calls[0].f, calls[0].size), calls[1..])
  }

  /** The header before pointer p leads to the block that holds the bytes asked for. */
  predicate LedHome(s: State, p: Addr)
    requires p in s.live
  {
    && p >= CHUNK_HEADER && p - CHUNK_HEADER in s.chunk
    && var b := HomeOf(p - CHUNK_HEADER, s.chunk[p - CHUNK_HEADER].mask);
       b >= 0 && b in s.block && b + BLOCK_HEADER + CHUNK_HEADER <= p && p + s.live[p] <= s.block[b].endptr
  }

  ghost predicate AllLedHome(s: State) {
    forall p {:trigger LedHome(s, p)} :: p in s.live ==> LedHome(s, p)
  }

  // ------------------------------------------------------------------- new sets

  /** A keeper block too small for its own header starts with its free space behind its
      end, so that block sizes of 32 bytes and less do not make a usable set. */
  lemma KeeperHasRoom(blockSize: nat)
    ensures CONTEXT_HEADER + BLOCK_HEADER <= Align8(CONTEXT_HEADER + blockSize) <==> blockSize > 32
    ensures Align8(CONTEXT_HEADER + blockSize) == CONTEXT_HEADER + Align8(blockSize)
  {
  }

  lemma NewSetGood(base: Addr, blockSize: nat)
    requires base > 0
    ensures Good(NewSet(base, blockSize)) <==> 32 < blockSize <= TWO30 + CHUNK_HEADER
  {
    var s := NewSet(base, blockSize);
    KeeperHasRoom(blockSize);
    assert LinkOk(s.block, s.order, 0);
    if Good(s) {
      assert BlockOk(s.base, s.block, s.keeper);
      assert !ExternalBlock(s.chunk, s.keeper);
    }
  }

  // ------------------------------------------------------------ sizes that go well

  lemma GoodLeads(s: State)
    requires Good(s)
    ensures AllLedHome(s)
  {
    hide Chained, ListsOk, HomeOf, Space;
    forall p | p in s.live ensures LedHome(s, p) {
      var b := LiveInside(s, p);
    }
  }

  /** In a usable set freesize does not wrap. */
  lemma ServedCanCarve(s: State, c: Call)
    requires Good(s) && Served(s, c)
    ensures CanCarve(s.block, s.chunk, s.keeper, c.f) && c.size <= ClassSize(c.f) <= CHUNK_LIMIT
    ensures s.keeper in s.block && s.keeper <= s.block[s.keeper].freeptr
  {
    hide ListsOk, AllLive, ExternalBlock, ClassSize, Linked;
    assert BlockOk(s.base, s.block, s.keeper);
    SmallMod(s.block[s.keeper].endptr - s.block[s.keeper].freeptr);
  }

  lemma SmallMod(n: nat)
    ensures n <= TWO30 + CHUNK_HEADER ==> n % TWO64 == n
  {
  }

  lemma {:induction false} UsableRuns(s: State, calls: seq<Call>)
    requires Good(s) && AllServed(s, calls)
    ensures Good(After(s, calls))
    decreases |calls|
  {
    hide Good, ClassSize, Served, CanCarve, Carved;
    if calls != [] {
      var c := calls[0];
      ServedCanCarve(s, c);
      CarveGood(s, s.keeper, c.f, c.size);
      UsableRuns(Carved(s, s.keeper, c.f, c.size), calls[1..]);
    }
  }

  // ----------------------------------------------------------- sizes that go wrong

  /** The smallest call. */
  const EIGHT := Call(8, 0)

  /** With 32 bytes or less freesize wraps, and the first chunk lies behind its block. */
  lemma TooSmall(base: Addr, blockSize: nat)
    requires blockSize <= 32
    ensures var s := NewSet(base, blockSize); AllServed(s, [EIGHT]) && !AllLedHome(After(s, [EIGHT]))
  {
    var s := NewSet(base, blockSize);
    KeeperHasRoom(blockSize);
    Pow2Values();
    Wraps(s.block[s.keeper].endptr - s.block[s.keeper].freeptr);
    assert Served(s, EIGHT);
    var t := Carved(s, s.keeper, 0, 8);
    assert [EIGHT][1..] == [];
    assert After(s, [EIGHT]) == t;
    var p := s.keeper + BLOCK_HEADER + CHUNK_HEADER;
    MaskDecodes(BLOCK_HEADER, 8);
    assert p in t.live && !LedHome(t, p);
  }

  lemma Wraps(n: int)
    ensures -40 <= n < 0 ==> n % TWO64 == TWO64 + n
  {
  }

  function Eights(n: nat): seq<Call> {
    seq(n, _ => EIGHT)
  }

  /** n calls for eight bytes each put the last chunk 24 * (n - 1) bytes behind the first. */
  lemma {:induction false} EightsReach(s: State, n: nat)
    requires s.keeper in s.block && s.order == [s.keeper] && s.block.Keys == {s.keeper}
    requires |s.free| == FREELISTS && s.free[0] == NULL && n > 0
    requires s.keeper <= s.block[s.keeper].freeptr
    requires s.block[s.keeper].freeptr + 24 * n <= s.block[s.keeper].endptr < s.block[s.keeper].freeptr + TWO64
    ensures AllServed(s, Eights(n))
    ensures var t, c := After(s, Eights(n)), s.block[s.keeper].freeptr + 24 * (n - 1);
            && t.block.Keys == {s.keeper} && c in t.chunk && c + CHUNK_HEADER in t.live
            && t.chunk[c].mask == Mask(c - s.keeper, 8)
    decreases n
  {
    hide Mask, Offset, IsExternal;
    Pow2Values();
    assert Served(s, EIGHT);
    var t := Carved(s, s.keeper, 0, 8);
    assert Eights(n)[0] == EIGHT && Eights(n)[1..] == Eights(n - 1);
    if n > 1 {
      EightsReach(t, n - 1);
    } else {
      assert Eights(0) == [];
    }
  }

  /** The calls for eight bytes after which the next chunk starts 2^30 bytes into the block. */
  const MANY: nat := (TWO30 - BLOCK_HEADER) / 24

  lemma ManyReach()
    ensures BLOCK_HEADER + 24 * MANY == TWO30
  {
  }

  /** Above 2^30 + 16 bytes a chunk fits whose offset is cut to nothing. */
  lemma TooLarge(base: Addr, blockSize: nat)
    requires TWO30 + CHUNK_HEADER < blockSize < TWO32
    ensures var s, calls := NewSet(base, blockSize), Eights(MANY + 1); AllServed(s, calls) && !AllLedHome(After(s, calls))
  {
    hide Mask, AllServed, After, IsExternal, Offset, Eights;
    var s, calls := NewSet(base, blockSize), Eights(MANY + 1);
    KeeperHasRoom(blockSize);
    ManyReach();
    EightsReach(s, MANY + 1);
    var t, p := After(s, calls), s.keeper + TWO30 + CHUNK_HEADER;
    OffsetLost();
    assert p in t.live && !LedHome(t, p);
  }

  lemma OffsetLost()
    ensures !IsExternal(Mask(TWO30, 8)) && Offset(Mask(TWO30, 8)) == 0
  {
    MaskDecodes(TWO30, 8);
  }

  /** The sizes of a new set for which whatever is taken from the keeper lies in it and is
      led back to it. */
  lemma KeeperExactly(base: Addr, blockSize: nat)
    requires base > 0 && blockSize < TWO32
    ensures (forall calls :: AllServed(NewSet(base, blockSize), calls) ==> AllLedHome(After(NewSet(base, blockSize), calls)))
       <==> 32 < blockSize <= TWO30 + CHUNK_HEADER
  {
    hide Good, AllServed, After, AllLedHome, NewSet;
    var s := NewSet(base, blockSize);
    NewSetGood(base, blockSize);
    if 32 < blockSize <= TWO30 + CHUNK_HEADER {
      forall calls | AllServed(s, calls) ensures AllLedHome(After(s, calls)) {
        UsableRuns(s, calls);
        GoodLeads(After(s, calls));
      }
    } else if blockSize <= 32 {
      TooSmall(base, blockSize);
    } else {
      TooLarge(base, blockSize);
    }
  }
}
