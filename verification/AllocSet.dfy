/** The allocation set of src/asctx.c: alloc, realloc, free and reset over a model of the
    memory they run in. The result of every malloc and realloc of the C library is a
    parameter: some address whose memory nothing else occupies. */
module AllocSet {
  import opened Common
  import opened AllocChunk
  import opened AllocState
  import opened AllocBlocks
  import opened AllocSteps
  import opened AllocRuns
  import opened AllocAlign

  /** size bytes copied from one place to another. */
  function Copied(mem: Addr -> Byte, to: Addr, from: Addr, size: nat): Addr -> Byte {
    (a: Addr) => if to <= a < to + size then mem(from + (a - to)) else mem(a)
  }

  function BytesAt(mem: Addr -> Byte, p: Addr, size: nat): seq<Byte> {
    seq(size, i requires 0 <= i < size => mem(p + i))
  }

  function Min(a: nat, b: nat): nat {
    if a < b then a else b
  }

  function Max(a: nat, b: nat): nat {
    if a < b then b else a
  }

  class Set {
    const base: Addr
    const freeList: array<Addr>
    var blocks: Addr
    var nextBlockSize: nat

    // The memory: block headers, chunk headers, and the bytes behind them.
    var block: Blocks
    var chunk: Chunks
    var mem: Addr -> Byte

    // The order of the block list, the free lists, and the size asked for at each pointer.
    ghost var order: seq<Addr>
    ghost var lists: seq<seq<Addr>>
    ghost var live: map<Addr, nat>

    ghost function Now(): State
      reads this, freeList
    {
      State(base, base + CONTEXT_HEADER, block, chunk, order, freeList[..], lists, live)
    }

    ghost predicate Valid()
      reads this, freeList
    {
      Good(Now()) && Aligned(Now()) && blocks == order[0] && nextBlockSize <= TWO30 + CHUNK_HEADER && freeList.Length == FREELISTS
    }

    /** alloc_set_memory_context_create; block_size and next_block_size have 32 bits. The set
        is usable exactly when the keeper block has room for its header and for no chunk
        behind the reach of a mask's 30 bits of offset (`AllocRuns.KeeperExactly`). */
    constructor (base: Addr, blockSize: nat)
      requires base > 0 && base % 8 == 0 && blockSize < TWO32
      ensures Valid() <==> 32 < blockSize <= TWO30 + CHUNK_HEADER
      ensures Now() == NewSet(base, blockSize) && fresh(freeList)
      ensures nextBlockSize == Align8(blockSize) % TWO32
    {
      hide Good;
      var size := Align8(CONTEXT_HEADER + blockSize);
      this.base := base;
      blocks := base + CONTEXT_HEADER;
      block := map[base + CONTEXT_HEADER := Block(NULL, NULL, base + CONTEXT_HEADER + BLOCK_HEADER, base + size)];
      chunk := map[];
      nextBlockSize := Align8(blockSize) % TWO32;
      freeList := new Addr[FREELISTS](_ => NULL);
      mem := _ => 0;
      order, lists, live := [base + CONTEXT_HEADER], seq(FREELISTS, _ => []), map[];
      new;
      NewSetGood(base, blockSize);
      assert freeList[..] == seq(FREELISTS, _ => NULL);
    }

    /** What malloc gives when alloc_set_alloc calls it for `size` bytes. */
    ghost predicate Provided(size: nat, at: Addr)
      reads this
    {
      if size > CHUNK_LIMIT then Unused(base, block, at, Align8(size + BLOCK_HEADER + CHUNK_HEADER))
      else forall f: nat :: IsClass(size, f) && f < |lists| && lists[f] == [] ==> Unused(base, block, at, BlockSizeFor(nextBlockSize, f))
    }

    /** alloc_set_alloc_chunk_from_block. */
    method ChunkFromBlock(b: Addr, f: nat, ghost size: nat) returns (p: Addr)
      requires Valid() && CanCarve(block, chunk, b, f) && size <= ClassSize(f)
      modifies this`block, this`chunk, this`live
      ensures Valid() && p !in old(live) && p > 0 && live == old(live)[p := size]
      ensures p == old(block[b].freeptr) + CHUNK_HEADER && Now() == Carved(old(Now()), b, f, size)
    {
      hide Good, Aligned, CanCarve, ClassSize, Mask;
      ghost var was := Now();
      CarveGood(was, b, f, size);
      CarveFacts(block, chunk, b, f);
      var c := block[b].freeptr;
      block := block[b := block[b].(freeptr := c + CHUNK_HEADER + ClassSize(f))];
      chunk := chunk[c := Chunk(NULL, Mask(c - b, ClassSize(f)))];
      p := c + CHUNK_HEADER;
      live := live[p := size];
      assert Now() == Carved(was, b, f, size);
      CarveAligned(was, b, f, size);
    }

    /** alloc_set_alloc_new_block: the new first block holds the chunk and has the size that was
        next, unless the chunk needs more; the size that is next doubles up to its cap. */
    method NewBlock(f: nat, at: Addr, ghost size: nat) returns (p: Addr)
      requires Valid() && f < FREELISTS && ClassSize(f) <= CHUNK_LIMIT && size <= ClassSize(f)
      requires Unused(base, block, at, BlockSizeFor(nextBlockSize, f))
      modifies this
      ensures Valid() && p !in old(live) && p > 0 && live == old(live)[p := size] && mem == old(mem)
      ensures p == at + BLOCK_HEADER + CHUNK_HEADER && at !in old(block) && block.Keys == old(block.Keys) + {at}
      ensures blocks == at && order == [at] + old(order) && lists == old(lists)
      ensures block[at] == Block(NULL, old(blocks), p + ClassSize(f),
                                 at + Max(old(nextBlockSize), BLOCK_HEADER + CHUNK_HEADER + ClassSize(f)))
      ensures nextBlockSize == if 2 * old(nextBlockSize) > 8_388_608 then 8_388_608 else 2 * old(nextBlockSize)
    {
      hide Good, Aligned, ClassSize, Unused, Carved, Fronted;
      var blkSize := nextBlockSize;
      nextBlockSize := if blkSize > MAX_BLOCK / 2 then MAX_BLOCK else blkSize * 2;
      if blkSize < ClassSize(f) + BLOCK_HEADER + CHUNK_HEADER {
        blkSize := ClassSize(f) + BLOCK_HEADER + CHUNK_HEADER;
      }
      ClassPositive(f);
      ghost var was := Now();
      FrontBlock(at, blkSize);
      FrontCanCarve(was, at, blkSize, f);
      p := ChunkFromBlock(at, f, size);
      FrontCarved(was, at, blkSize, f, size);
    }

    /** The new block in front of the list. */
    method FrontBlock(at: Addr, blkSize: nat)
      requires Valid() && Unused(base, block, at, blkSize) && BLOCK_HEADER < blkSize <= TWO30 + CHUNK_HEADER
      modifies this`block, this`blocks, this`order
      ensures Valid() && blocks == at && old(order) != [] && Now() == Fronted(old(Now()), at, blkSize)
    {
      hide Good, Aligned, Unused;
      ghost var was := Now();
      UnusedAligned(base, block, at, blkSize);
      FrontGood(was, at, blkSize);
      HeadIn(was);
      FrontAligned(was, at, blkSize);
      block := block[at := Block(NULL, blocks, at + BLOCK_HEADER, at + blkSize)];
      if blocks != NULL { block := block[blocks := block[blocks].(pres := at)]; }
      blocks := at;
      order := [at] + order;
      assert Now() == Fronted(was, at, blkSize);
    }

    /** alloc_set_alloc_large. The list always has a first block, which stays first. */
    method AllocLarge(size: nat, at: Addr) returns (p: Addr)
      requires Valid() && Unused(base, block, at, Align8(size + BLOCK_HEADER + CHUNK_HEADER))
      modifies this`block, this`chunk, this`order, this`live
      ensures Valid() && p !in old(live) && p > 0 && live == old(live)[p := size]
      ensures p == at + BLOCK_HEADER + CHUNK_HEADER && old(order) != [] && order == [old(order)[0], at] + old(order)[1..]
    {
      hide Good, Aligned, Unused;
      var blkSize := Align8(size + BLOCK_HEADER + CHUNK_HEADER);
      var link: Addr := *;
      ghost var was := Now();
      UnusedAligned(base, block, at, blkSize);
      SecondGood(was, at, blkSize, link, size);
      HeadIn(was);
      var second := block[blocks].next;
      block := block[at := Block(blocks, second, at + blkSize, at + blkSize)];
      chunk := chunk[at + BLOCK_HEADER := Chunk(link, EXTERNAL_MASK)];
      if second != NULL { block := block[second := block[second].(pres := at)]; }
      block := block[blocks := block[blocks].(next := at)];
      order := [order[0], at] + order[1..];
      p := at + BLOCK_HEADER + CHUNK_HEADER;
      live := live[p := size];
      assert Now() == Seconded(was, at, blkSize, link, size);
      SecondAligned(was, at, blkSize, link, size);
    }

    /** alloc_set_alloc: a pointer that was not in use to a chunk of at least `size` bytes;
        everything in use before stays in use, and no byte changes. */
    method Alloc(size: nat, at: Addr) returns (p: Addr)
      requires Valid() && Provided(size, at)
      modifies this, freeList
      ensures Valid() && p !in old(live) && p > 0 && live == old(live)[p := size] && mem == old(mem)
      ensures forall f :: old(Served(Now(), Call(size, f))) ==> Now() == Carved(old(Now()), base + CONTEXT_HEADER, f, size)
      ensures p % 8 == 0
      ensures forall f: nat :: f < FREELISTS && size <= CHUNK_LIMIT && IsClass(size, f) ==> Chosen(old(Now()), Now(), f, p, at)
      ensures size > CHUNK_LIMIT ==>
                p == at + BLOCK_HEADER + CHUNK_HEADER && old(order) != [] && order == [old(order)[0], at] + old(order)[1..]
    {
      hide Good, Aligned, ClassSize, Unused, CanCarve, IsClass, Served, Carved, Room;
      ServedSmall(Now(), size);
      if size > CHUNK_LIMIT {
        p := AllocLarge(size, at);
        PointerAligned(Now(), p);
        return;
      }
      var b := blocks;
      var fdx := FreeIndex(size);
      ClassHolds(size, fdx);
      var c := freeList[fdx];
      ghost var was := Now();
      FreeHeads(was, fdx);
      HeadIn(was);
      ServedClass(was, size, fdx);
      OnlyClass(size, fdx);
      if c != NULL {
        PopGood(was, fdx, size);
        freeList[fdx] := chunk[c].next;
        p := c + CHUNK_HEADER;
        lists := lists[fdx := lists[fdx][1..]];
        live := live[p := size];
        assert Now() == Popped(was, fdx, size);
        PopAligned(was, fdx, size);
        PointerAligned(Now(), p);
        return;
      }
      var chksize := ClassSize(fdx);
      var freesize := FreeSize(block[b]);
      FreeSizeIs(was);
      RoomIs(was, fdx);
      if freesize < chksize + CHUNK_HEADER {
        p := NewBlock(fdx, at, size);
      } else {
        HeadCanCarve(was, fdx);
        p := ChunkFromBlock(b, fdx, size);
        CarvedLists(was, b, fdx, size);
      }
      PointerAligned(Now(), p);
    }

    /** What realloc of the C library, or malloc, gives when alloc_set_realloc calls it. */
    ghost predicate ReallocProvided(p: Addr, size: nat, at: Addr)
      requires p >= CHUNK_HEADER && p - CHUNK_HEADER in chunk
      reads this
    {
      var c := p - CHUNK_HEADER;
      if IsExternal(chunk[c].mask) then
        c >= BLOCK_HEADER && Unused(base, block - {c - BLOCK_HEADER}, at, Align8(size + BLOCK_HEADER + CHUNK_HEADER))
      else Value(chunk[c].mask) < size ==> Provided(size, at)
    }

    /** alloc_set_free: the chunk, or a large chunk's whole block, is given back. */
    method Free(p: Addr)
      requires Valid() && p in live
      modifies this, freeList
      ensures Valid() && live == old(live) - {p} && mem == old(mem)
      ensures p >= CHUNK_HEADER && p - CHUNK_HEADER in old(chunk) && Returned(old(Now()), Now(), p)
    {
      hide Space, Aligned, Chained, ListsOk, IsExternal, Value, ClassSize, IsClass;
      ghost var was := Now();
      ghost var i := LiveHome(was, p);
      var c := p - CHUNK_HEADER;
      if IsExternal(chunk[c].mask) {
        var b := c - BLOCK_HEADER;
        DropGood(was, i);
        DropLinks(was, i);
        var pres, next := block[b].pres, block[b].next;
        // A large block is never first, so that it has a predecessor.
        block := block[pres := block[pres].(next := next)];
        if next != NULL { block := block[next := block[next].(pres := pres)]; }
        block := block - {b};
        chunk := chunk - {c};
        order := Without(order, i);
        live := live - {p};
        assert Now() == Dropped(was, i);
        DropAligned(was, i);
      } else {
        LiveFacts(was, p);
        var fdx := FreeIndex(Value(chunk[c].mask));
        ClassOfChunk(was, c, fdx);
        PushGood(was, c, fdx);
        FreeHeads(was, fdx);
        chunk := chunk[c := chunk[c].(next := freeList[fdx])];
        freeList[fdx] := c;
        lists := lists[fdx := [c] + lists[fdx]];
        live := live - {p};
        assert Now() == Pushed(was, c, fdx);
        PushAligned(was, c, fdx);
      }
    }

    /** alloc_set_realloc: the bytes in use come along as far as they fit, and no other
        pointer in use loses a byte. */
    method Realloc(p: Addr, size: nat, at: Addr) returns (r: Addr)
      requires Valid() && p in live && p >= CHUNK_HEADER && p - CHUNK_HEADER in chunk && ReallocProvided(p, size, at)
      modifies this, freeList
      ensures Valid() && r > 0 && r !in old(live) - {p} && live == (old(live) - {p})[r := size]
      ensures r % 8 == 0
      ensures var k := Min(old(live[p]), size); BytesAt(mem, r, k) == BytesAt(old(mem), p, k)
      ensures forall q :: q in old(live) && q != p ==> BytesAt(mem, q, live[q]) == BytesAt(old(mem), q, live[q])
      ensures var mask := old(chunk)[p - CHUNK_HEADER].mask;
              if IsExternal(mask) then r == at + BLOCK_HEADER + CHUNK_HEADER && |order| == |old(order)|
              else size <= Value(mask) ==> r == p && mem == old(mem) && block == old(block) && chunk == old(chunk) && lists == old(lists)
    {
      hide Space, Aligned, Chained, ListsOk, IsExternal, Value, Unused, Copied, BytesAt;
      ghost var was := Now();
      ghost var i := LiveHome(was, p);
      LiveFacts(was, p);
      var c := p - CHUNK_HEADER;
      if IsExternal(chunk[c].mask) {
        r := ReallocLarge(p, size, at, i);
        PointerAligned(Now(), r);
        return;
      }
      var oldSize := Value(chunk[c].mask);
      if oldSize >= size {
        ResizeGood(was, p, size);
        live := live[p := size];
        assert Now() == was.(live := live);
        UseAligned(was, live);
        PointerAligned(Now(), p);
        return p;
      }
      r := Alloc(size, at);
      ghost var mid := Now();
      mem := Copied(mem, r, p, oldSize);
      CopiedBytes(old(mem), r, p, oldSize, Min(was.live[p], size));
      forall q | q in was.live && q != p ensures BytesAt(mem, q, was.live[q]) == BytesAt(old(mem), q, was.live[q]) {
        OtherBytes(mid, old(mem), r, p, oldSize, q);
      }
      Free(p);
    }

    /** The part of alloc_set_realloc for a large chunk, whose block the C library moves. */
    method ReallocLarge(p: Addr, size: nat, at: Addr, ghost i: nat) returns (r: Addr)
      requires Valid() && p in live && i < |order| && p == order[i] + BLOCK_HEADER + CHUNK_HEADER
      requires p - CHUNK_HEADER in chunk && IsExternal(chunk[p - CHUNK_HEADER].mask)
      requires Unused(base, block - {order[i]}, at, Align8(size + BLOCK_HEADER + CHUNK_HEADER))
      modifies this
      ensures Valid() && r > 0 && r !in old(live) - {p} && live == (old(live) - {p})[r := size]
      ensures var k := Min(old(live[p]), size); BytesAt(mem, r, k) == BytesAt(old(mem), p, k)
      ensures forall q :: q in old(live) && q != p ==> BytesAt(mem, q, live[q]) == BytesAt(old(mem), q, live[q])
      ensures r == at + BLOCK_HEADER + CHUNK_HEADER && |order| == |old(order)|
    {
      hide Good, Aligned, IsExternal, Unused, Copied, BytesAt, ExternalBlock;
      ghost var was := Now();
      LargeFacts(was, p, i);
      LargeBytes(was, mem, p, i, at, size);
      var b := p - CHUNK_HEADER - BLOCK_HEADER;
      var blkSize := Align8(size + BLOCK_HEADER + CHUNK_HEADER);
      mem := Copied(mem, at, b, Min(block[b].endptr - b, blkSize));
      r := MoveLarge(p, size, at, i);
    }

    /** The block and its chunk header at their new place. */
    method MoveLarge(p: Addr, size: nat, at: Addr, ghost i: nat) returns (r: Addr)
      requires Valid() && p in live && i < |order| && p == order[i] + BLOCK_HEADER + CHUNK_HEADER
      requires p - CHUNK_HEADER in chunk && IsExternal(chunk[p - CHUNK_HEADER].mask)
      requires Unused(base, block - {order[i]}, at, Align8(size + BLOCK_HEADER + CHUNK_HEADER))
      modifies this`block, this`chunk, this`order, this`live
      ensures Valid() && r == at + BLOCK_HEADER + CHUNK_HEADER && r !in old(live) - {p} && live == (old(live) - {p})[r := size]
      ensures |order| == |old(order)|
    {
      hide Good, Aligned, IsExternal, Unused, ExternalBlock, Moved, Relocated, Between;
      ghost var was := Now();
      UnusedAligned(base, block - {order[i]}, at, Align8(size + BLOCK_HEADER + CHUNK_HEADER));
      LargeFacts(was, p, i);
      var b := p - CHUNK_HEADER - BLOCK_HEADER;
      var c := b + BLOCK_HEADER;
      var blkSize := Align8(size + BLOCK_HEADER + CHUNK_HEADER);
      RelocateGood(was, i, at, blkSize, chunk[c].next, size);
      RelocatedIs(was, i, at, blkSize, p, size);
      DropLinks(was, i);
      HeadMoves(was, i, at);
      var header := chunk[c];
      MoveBlock(b, at, at + blkSize);
      chunk := (chunk - {c})[at + BLOCK_HEADER := header];
      order := order[i := at];
      r := at + BLOCK_HEADER + CHUNK_HEADER;
      live := (live - {p})[r := size];
      assert Now() == Relocated(was, i, at, blkSize, header.next, size);
      RelocateAligned(was, i, at, blkSize, header.next, size);
    }

    /** A block header moves with its block, and its neighbours are linked to it again. */
    method MoveBlock(b: Addr, at: Addr, end: nat)
      requires b in block && NULL !in block && at > 0 && Between(block, b)
      modifies this`block
      ensures block == Moved(old(block), b, at, end)
    {
      var pres, next := block[b].pres, block[b].next;
      block := (block - {b})[at := Block(pres, next, end, end)];
      block := block[pres := block[pres].(next := at)];
      if next != NULL { block := block[next := block[next].(pres := at)]; }
    }

    /** Two calls in a row: a small chunk given back is the next one that a request of its
        class is given, and nothing is asked of the C library. */
    method FreeThenAlloc(p: Addr, size: nat, ghost f: nat, at: Addr) returns (q: Addr)
      requires Valid() && p in live && p >= CHUNK_HEADER && p - CHUNK_HEADER in chunk
      requires !IsExternal(chunk[p - CHUNK_HEADER].mask) && Value(chunk[p - CHUNK_HEADER].mask) == ClassSize(f)
      requires f < FREELISTS && size <= CHUNK_LIMIT && IsClass(size, f)
      modifies this, freeList
      ensures Valid() && q == p && live == old(live)[p := size] && mem == old(mem) && block == old(block)
    {
      hide Good, Aligned, IsExternal, Value, ClassSize, IsClass, Room, Unused, Served;
      Free(p);
      ghost var g :| 0 <= g < |old(lists)| && ClassSize(f) == ClassSize(g) && lists == old(lists)[g := [p - CHUNK_HEADER] + old(lists)[g]];
      SameClass(f, g);
      OnlyClass(size, f);
      q := Alloc(size, at);
    }

    method ClearFreeLists()
      requires freeList.Length == FREELISTS
      modifies freeList
      ensures freeList[..] == seq(FREELISTS, _ => NULL)
    {
      for f := 0 to FREELISTS
        invariant forall g :: 0 <= g < f ==> freeList[g] == NULL
      {
        freeList[f] := NULL;
      }
    }

    /** alloc_set_reset: every block but the keeper is given back, and the keeper is empty.
        The size of the next block stays as it has grown. */
    method Reset()
      requires Valid()
      modifies this`blocks, this`block, this`chunk, this`order, this`lists, this`live, freeList
      ensures Valid() && live == map[] && blocks == base + CONTEXT_HEADER
      ensures base + CONTEXT_HEADER in old(block)
      ensures block == map[base + CONTEXT_HEADER := Block(NULL, NULL, base + CONTEXT_HEADER + BLOCK_HEADER,
                                                          old(block)[base + CONTEXT_HEADER].endptr)]
    {
      hide Good, Aligned, Swept, NoRepeats;
      ghost var was := Now();
      ChainFacts(was);
      var b, keeper := blocks, base + CONTEXT_HEADER;
      ClearFreeLists();
      blocks := keeper;
      ghost var i := 0;
      while b != NULL
        invariant 0 <= i <= |was.order| && b == (if i < |was.order| then was.order[i] else NULL)
        invariant Swept(was, block, i)
        modifies this`block
        decreases |was.order| - i
      {
        SweepStep(was, block, i);
        var next := block[b].next;
        if b == keeper {
          block := block[b := Block(NULL, NULL, b + BLOCK_HEADER, block[b].endptr)];
        } else {
          block := block - {b};
        }
        b := next;
        i := i + 1;
      }
      SweepDone(was, block);
      chunk := map[];
      order, lists, live := [keeper], seq(FREELISTS, _ => []), map[];
      KeeperGood(was);
      assert Now() == Emptied(was);
      EmptiedAligned(was);
    }
  }

  /** Block b has a predecessor, and its successor, if any, is a third block. */
  predicate Between(block: Blocks, b: Addr)
    requires b in block
  {
    var k := block[b];
    k.pres in block && k.pres != b && (k.next == NULL || (k.next in block && k.next != b && k.next != k.pres))
  }

  /** The first block has room for another chunk of class f. */
  predicate Room(s: State, f: nat) {
    && s.order != [] && s.order[0] in s.block
    && s.block[s.order[0]].freeptr + CHUNK_HEADER + ClassSize(f) <= s.block[s.order[0]].endptr
  }

  /** Where a chunk of class f comes from: the front of its free list; only if that is empty
      the first block; and only if that has no room a new first block. */
  ghost predicate Chosen(s: State, t: State, f: nat, p: Addr, at: Addr) {
    f < |s.lists| && s.order != [] && s.order[0] in s.block &&
    if s.lists[f] != [] then
      p == s.lists[f][0] + CHUNK_HEADER && t.lists == s.lists[f := s.lists[f][1..]] && t.block == s.block
    else
      t.lists == s.lists &&
      if Room(s, f) then p == s.block[s.order[0]].freeptr + CHUNK_HEADER && t.order == s.order
      else p == at + BLOCK_HEADER + CHUNK_HEADER && t.order == [at] + s.order
  }

  /** Where a pointer in use goes: a small chunk to the front of the list of its class, a large
      one back to the C library with its block. */
  ghost predicate Returned(s: State, t: State, p: Addr)
    requires p >= CHUNK_HEADER && p - CHUNK_HEADER in s.chunk
  {
    var c := p - CHUNK_HEADER;
    if IsExternal(s.chunk[c].mask) then c >= BLOCK_HEADER && c - BLOCK_HEADER in s.block && t.block.Keys == s.block.Keys - {c - BLOCK_HEADER}
    else
      && t.block == s.block
      && exists f :: 0 <= f < |s.lists| && Value(s.chunk[c].mask) == ClassSize(f) && t.lists == s.lists[f := [c] + s.lists[f]]
  }

  lemma SameClass(f: nat, g: nat)
    requires ClassSize(f) == ClassSize(g)
    ensures f == g
  {
    OwnClass(f);
    OwnClass(g);
    hide ClassSize, IsClass;
    ClassUnique(ClassSize(f), f, g);
  }

  lemma OnlyClass(size: nat, f: nat)
    requires IsClass(size, f)
    ensures forall g :: IsClass(size, g) ==> g == f
  {
    hide IsClass;
    forall g | IsClass(size, g) ensures g == f { ClassUnique(size, f, g); }
  }

  lemma RoomIs(s: State, f: nat)
    requires s.order != [] && s.order[0] in s.block
    ensures Room(s, f) <==> s.block[s.order[0]].freeptr + CHUNK_HEADER + ClassSize(f) <= s.block[s.order[0]].endptr
  {
  }

  lemma CarvedLists(s: State, b: Addr, f: nat, size: nat)
    requires b in s.block && b <= s.block[b].freeptr && ClassSize(f) <= CHUNK_LIMIT
    ensures Carved(s, b, f, size).lists == s.lists && Carved(s, b, f, size).order == s.order
  {
  }

  function BlockSizeFor(nextBlockSize: nat, f: nat): nat {
    Max(nextBlockSize, BLOCK_HEADER + CHUNK_HEADER + ClassSize(f))
  }

  lemma UnusedAligned(base: Addr, block: Blocks, at: Addr, size: nat)
    requires Unused(base, block, at, size)
    ensures Multiple(at)
  {
  }

  /** The pointer in the live set is aligned. */
  lemma PointerAligned(s: State, p: Addr)
    requires Good(s) && Aligned(s) && p in s.live
    ensures p % 8 == 0
  {
    hide Chained, ListsOk, Aligned, Space;
    LiveAligned(s, p);
  }

  lemma ClassPositive(f: nat)
    ensures ClassSize(f) > 0
  {
  }

  lemma ClassHolds(size: nat, f: nat)
    requires IsClass(size, f)
    ensures size <= ClassSize(f)
  {
  }

  lemma FrontCanCarve(s: State, at: Addr, size: nat, f: nat)
    requires Good(s) && s.order != [] && Unused(s.base, s.block, at, size)
    requires f < FREELISTS && ClassSize(f) <= CHUNK_LIMIT
    requires BLOCK_HEADER + CHUNK_HEADER + ClassSize(f) <= size <= TWO30 + CHUNK_HEADER
    ensures CanCarve(Fronted(s, at, size).block, s.chunk, at, f)
    ensures Fronted(s, at, size).block[at].freeptr == at + BLOCK_HEADER
  {
    hide Good, ClassSize, Unused;
    FrontGood(s, at, size);
  }

  /** The set with a new first block that holds one chunk. */
  lemma FrontCarved(s: State, at: Addr, size: nat, f: nat, asked: nat)
    requires Good(s) && s.order != [] && Unused(s.base, s.block, at, size)
    requires ClassSize(f) <= CHUNK_LIMIT && BLOCK_HEADER < size <= TWO30 + CHUNK_HEADER
    ensures at in Fronted(s, at, size).block && at <= Fronted(s, at, size).block[at].freeptr && at !in s.block
    ensures var t := Carved(Fronted(s, at, size), at, f, asked);
            && t.order == [at] + s.order && t.block.Keys == s.block.Keys + {at}
            && t.block[at] == Block(NULL, s.order[0], at + BLOCK_HEADER + CHUNK_HEADER + ClassSize(f), at + size)
  {
    hide Good, ClassSize, Unused;
    FrontGood(s, at, size);
    HeadIn(s);
  }

  lemma CarveFacts(block: Blocks, chunk: Chunks, b: Addr, f: nat)
    requires CanCarve(block, chunk, b, f)
    ensures b in block && b < block[b].freeptr && ClassSize(f) <= CHUNK_LIMIT
  {
  }

  /** The list starts with a block that is not external and whose space is well formed. */
  lemma HeadIn(s: State)
    requires Good(s)
    ensures s.order != [] && s.order[0] in s.block && !ExternalBlock(s.chunk, s.order[0]) && NULL !in s.block
    ensures s.order[0] < s.block[s.order[0]].freeptr <= s.block[s.order[0]].endptr
    ensures s.block[s.order[0]].next == NULL || s.block[s.order[0]].next in s.block
  {
    hide ListsOk, AllLive, ExternalBlock, ChunksOk;
    OrderIn(s);
    NullIsNoBlock(s.block, s.order);
    assert LinkOk(s.block, s.order, 0) && BlockOk(s.base, s.block, s.order[0]);
  }

  /** In a usable set freesize does not wrap. */
  lemma FreeSizeIs(s: State)
    requires Good(s)
    ensures s.order != [] && s.order[0] in s.block && s.block[s.order[0]].endptr >= s.block[s.order[0]].freeptr
    ensures FreeSize(s.block[s.order[0]]) == s.block[s.order[0]].endptr - s.block[s.order[0]].freeptr
  {
    hide ListsOk, AllLive, ExternalBlock, ChunkOk;
    HeadIn(s);
    SmallMod(s.block[s.order[0]].endptr - s.block[s.order[0]].freeptr);
  }

  lemma ServedSmall(s: State, size: nat)
    ensures size > CHUNK_LIMIT ==> forall f :: !Served(s, Call(size, f))
  {
  }

  /** What serves a small call from the keeper. */
  lemma ServedClass(s: State, size: nat, f: nat)
    requires IsClass(size, f) && f < FREELISTS && |s.free| == FREELISTS && s.order != [] && s.order[0] in s.block
    ensures forall g :: Served(s, Call(size, g)) ==>
              g == f && s.free[f] == NULL && s.order[0] == s.keeper && ClassSize(f) + CHUNK_HEADER <= FreeSize(s.block[s.keeper])
  {
    forall g | Served(s, Call(size, g)) ensures g == f { ClassUnique(size, f, g); }
  }

  lemma HeadCanCarve(s: State, f: nat)
    requires Good(s) && f < FREELISTS && ClassSize(f) <= CHUNK_LIMIT && s.order != [] && s.order[0] in s.block
    requires s.block[s.order[0]].freeptr + CHUNK_HEADER + ClassSize(f) <= s.block[s.order[0]].endptr
    ensures CanCarve(s.block, s.chunk, s.order[0], f)
  {
    hide Good, ClassSize;
    HeadIn(s);
  }

  /** A free list is empty exactly when its head is NULL. */
  lemma FreeHeads(s: State, f: nat)
    requires Good(s) && f < FREELISTS
    ensures |s.free| == |s.lists| == FREELISTS && (s.free[f] == NULL <==> s.lists[f] == [])
    ensures s.lists[f] != [] ==> s.free[f] == s.lists[f][0] && s.lists[f][0] in s.chunk
  {
    hide Space, Chained;
    if s.lists[f] != [] {
      PopPositive(s, f);
      assert Listed(s.chunk, s.lists, s.live, f, 0);
    }
  }

  lemma PopPositive(s: State, f: nat)
    requires Good(s) && f < FREELISTS && s.lists[f] != []
    ensures s.lists[f][0] > 0
  {
    ClassPositive(f);
    PopGood(s, f, 0);
  }

  /** Where a pointer in use leads: its chunk, and for a large chunk the block's position. */
  lemma LiveHome(s: State, p: Addr) returns (i: nat)
    requires Good(s) && p in s.live
    ensures p >= CHUNK_HEADER && p - CHUNK_HEADER in s.chunk
    ensures IsExternal(s.chunk[p - CHUNK_HEADER].mask) ==>
              p >= CHUNK_HEADER + BLOCK_HEADER && i < |s.order| && s.order[i] == p - CHUNK_HEADER - BLOCK_HEADER
              && s.order[i] in s.block && ExternalBlock(s.chunk, s.order[i])
  {
    hide IsExternal, Value, ListsOk, LinkOk, BlocksOk, IsClassSize, Mask;
    assert LiveOk(s.block, s.chunk, s.live, p);
    var c := p - CHUNK_HEADER;
    assert ChunkOk(s.block, s.chunk, c);
    i := 0;
    if IsExternal(s.chunk[c].mask) {
      i :| 0 <= i < |s.order| && s.order[i] == c - BLOCK_HEADER;
    }
  }

  /** The free index of a chunk's own size is its class. */
  lemma ClassOfChunk(s: State, c: Addr, f: nat)
    requires Good(s) && c in s.chunk && !IsExternal(s.chunk[c].mask) && IsClass(Value(s.chunk[c].mask), f)
    ensures Value(s.chunk[c].mask) == ClassSize(f)
  {
    hide IsExternal, Value, ListsOk, Chained, ClassSize;
    assert ChunkOk(s.block, s.chunk, c);
    var g :| 0 <= g < FREELISTS && Value(s.chunk[c].mask) == ClassSize(g);
    OwnClass(g);
    ClassUnique(ClassSize(g), f, g);
  }

  lemma OwnClass(g: nat)
    ensures IsClass(ClassSize(g), g)
  {
    if g > 0 { ClassesGrow(g - 1, g); }
  }

  /** An inner block of the list has a predecessor. */
  lemma DropLinks(s: State, i: nat)
    requires Good(s) && 0 < i < |s.order|
    ensures s.order[i] in s.block && NULL !in s.block
    ensures Between(s.block, s.order[i])
    ensures Without(s.order, i) != [] && Without(s.order, i)[0] == s.order[0]
  {
    hide ListsOk, Space, ExternalBlock;
    NullIsNoBlock(s.block, s.order);
    assert LinkOk(s.block, s.order, i) && LinkOk(s.block, s.order, i - 1);
    if i + 1 < |s.order| { assert LinkOk(s.block, s.order, i + 1); }
  }

  /** The block of a large chunk in use. */
  lemma LargeFacts(s: State, p: Addr, i: nat)
    requires Good(s) && p in s.live && i < |s.order| && p == s.order[i] + BLOCK_HEADER + CHUNK_HEADER
    requires p - CHUNK_HEADER in s.chunk && IsExternal(s.chunk[p - CHUNK_HEADER].mask)
    ensures s.order[i] in s.block && ExternalBlock(s.chunk, s.order[i]) && s.chunk[p - CHUNK_HEADER].mask == EXTERNAL_MASK
    ensures p + s.live[p] <= s.block[s.order[i]].endptr
  {
    hide Space, Chained, ListsOk, IsExternal;
    LiveFacts(s, p);
  }

  /** The C library copies as much of the block as fits, which takes the bytes in use of
      its chunk along and no byte of any other pointer in use. */
  lemma LargeBytes(s: State, mem: Addr -> Byte, p: Addr, i: nat, at: Addr, size: nat)
    requires Good(s) && p in s.live && i < |s.order| && p == s.order[i] + BLOCK_HEADER + CHUNK_HEADER
    requires p - CHUNK_HEADER in s.chunk && IsExternal(s.chunk[p - CHUNK_HEADER].mask)
    requires Unused(s.base, s.block - {s.order[i]}, at, Align8(size + BLOCK_HEADER + CHUNK_HEADER))
    ensures s.order[i] in s.block && s.block[s.order[i]].endptr >= s.order[i]
    ensures var b, n, k := s.order[i], Align8(size + BLOCK_HEADER + CHUNK_HEADER), Min(s.live[p], size);
            var mem' := Copied(mem, at, b, Min(s.block[b].endptr - b, n));
            && BytesAt(mem', at + BLOCK_HEADER + CHUNK_HEADER, k) == BytesAt(mem, p, k)
            && forall q :: q in s.live && q != p ==> BytesAt(mem', q, s.live[q]) == BytesAt(mem, q, s.live[q])
  {
    hide Good, IsExternal, Unused, Copied, BytesAt, ExternalBlock;
    LargeFacts(s, p, i);
    var b, n, k := s.order[i], Align8(size + BLOCK_HEADER + CHUNK_HEADER), Min(s.live[p], size);
    var moved := Min(s.block[b].endptr - b, n);
    MovedBytes(mem, at, b, moved, k);
    forall q | q in s.live && q != p ensures BytesAt(Copied(mem, at, b, moved), q, s.live[q]) == BytesAt(mem, q, s.live[q]) {
      BytesOutside(s, mem, at, b, n, moved, q, i);
    }
  }

  lemma RelocatedIs(s: State, i: nat, m: Addr, size: nat, p: Addr, asked: nat)
    requires i < |s.order| && s.order[i] in s.block && p == s.order[i] + BLOCK_HEADER + CHUNK_HEADER
    requires p - CHUNK_HEADER in s.chunk && s.chunk[p - CHUNK_HEADER].mask == EXTERNAL_MASK
    ensures var c := p - CHUNK_HEADER;
            Relocated(s, i, m, size, s.chunk[c].next, asked)
            == State(s.base, s.keeper, Moved(s.block, c - BLOCK_HEADER, m, m + size), (s.chunk - {c})[m + BLOCK_HEADER := s.chunk[c]],
                     s.order[i := m], s.free, s.lists, (s.live - {p})[m + BLOCK_HEADER + CHUNK_HEADER := asked])
  {
  }

  lemma HeadMoves(s: State, i: nat, m: Addr)
    requires 0 < i < |s.order|
    ensures s.order[i := m] != [] && s.order[i := m][0] == s.order[0]
  {
  }

  lemma CopiedBytes(mem: Addr -> Byte, to: Addr, from: Addr, size: nat, k: nat)
    requires k <= size
    ensures BytesAt(Copied(mem, to, from, size), to, k) == BytesAt(mem, from, k)
  {
  }

  lemma MovedBytes(mem: Addr -> Byte, to: Addr, from: Addr, size: nat, k: nat)
    requires BLOCK_HEADER + CHUNK_HEADER + k <= size
    ensures BytesAt(Copied(mem, to, from, size), to + BLOCK_HEADER + CHUNK_HEADER, k)
         == BytesAt(mem, from + BLOCK_HEADER + CHUNK_HEADER, k)
  {
  }

  /** A chunk in use may be asked to hold less, or more up to its own size. */
  lemma ResizeGood(s: State, p: Addr, size: nat)
    requires Good(s) && p in s.live && p >= CHUNK_HEADER && p - CHUNK_HEADER in s.chunk
    requires !IsExternal(s.chunk[p - CHUNK_HEADER].mask) && size <= Value(s.chunk[p - CHUNK_HEADER].mask)
    ensures Good(s.(live := s.live[p := size])) && p > 0
  {
    hide Linked, ExternalBlock, BlocksOk, ClassSize, HomeOf, IsExternal, Value;
    ResizeLive(s, p, size);
    hide ChunksOk, AllLive, NoRepeats;
    var t := s.(live := s.live[p := size]);
    forall c | c in t.chunk && c + CHUNK_HEADER !in t.live ensures IsFree(t.chunk, t.lists, c) {
      assert IsFree(s.chunk, s.lists, c);
    }
    forall f, j | 0 <= f < FREELISTS && 0 <= j < |s.lists[f]| ensures Listed(t.chunk, t.lists, t.live, f, j) {
      assert Listed(s.chunk, s.lists, s.live, f, j);
    }
  }

  lemma ResizeLive(s: State, p: Addr, size: nat)
    requires Space(s) && p in s.live && p >= CHUNK_HEADER && p - CHUNK_HEADER in s.chunk
    requires !IsExternal(s.chunk[p - CHUNK_HEADER].mask) && size <= Value(s.chunk[p - CHUNK_HEADER].mask)
    ensures AllLive(s.block, s.chunk, s.live[p := size])
  {
    hide IsExternal, Value, BlocksOk, HomeOf, Mask, IsClassSize, ExternalBlock;
    var live' := s.live[p := size];
    assert LiveOk(s.block, s.chunk, s.live, p);
    forall q | q in live' ensures LiveOk(s.block, s.chunk, live', q) {
      assert LiveOk(s.block, s.chunk, s.live, q);
    }
  }

  /** Copying into one pointer's bytes leaves those of another alone. */
  lemma OtherBytes(s: State, mem: Addr -> Byte, to: Addr, from: Addr, size: nat, q: Addr)
    requires Good(s) && to in s.live && q in s.live && q != to && size <= s.live[to]
    ensures BytesAt(Copied(mem, to, from, size), q, s.live[q]) == BytesAt(mem, q, s.live[q])
  {
    hide Space, Chained, ListsOk;
    LiveApart(s, to, q);
  }

  lemma BytesOutside(s: State, mem: Addr -> Byte, at: Addr, from: Addr, size: nat, moved: nat, q: Addr, i: nat)
    requires Good(s) && q in s.live && i < |s.order| && ExternalBlock(s.chunk, s.order[i])
    requires q != s.order[i] + BLOCK_HEADER + CHUNK_HEADER && moved <= size
    requires Unused(s.base, s.block - {s.order[i]}, at, size)
    ensures BytesAt(Copied(mem, at, from, moved), q, s.live[q]) == BytesAt(mem, q, s.live[q])
  {
    hide Chained, ListsOk, ExternalBlock, ChunksOk, HomeOf, ChunkOk;
    var b := LiveInside(s, q);
    assert LiveOk(s.block, s.chunk, s.live, q);
    NotInExternal(s.block, s.chunk, s.order[i], q - CHUNK_HEADER);
    assert b in s.block - {s.order[i]};
  }


  // ---------------------------------------------------------------------------- reset

  function Emptied(s: State): State
    requires s.keeper in s.block
  {
    State(s.base, s.keeper, map[s.keeper := Block(NULL, NULL, s.keeper + BLOCK_HEADER, s.block[s.keeper].endptr)], map[],
          [s.keeper], seq(FREELISTS, _ => NULL), seq(FREELISTS, _ => []), map[])
  }

  /** The first i blocks are gone but for the keeper, and the others are as they were. */
  ghost predicate Swept(s: State, block: Blocks, i: nat)
    requires i <= |s.order|
  {
    && s.keeper in s.block && block.Keys <= s.block.Keys
    && (forall j :: i <= j < |s.order| ==> s.order[j] in block && s.order[j] in s.block && block[s.order[j]] == s.block[s.order[j]])
    && (forall j :: 0 <= j < i && s.order[j] != s.keeper ==> s.order[j] !in block)
    && (forall j :: 0 <= j < i && s.order[j] == s.keeper ==>
          s.keeper in block && block[s.keeper] == Block(NULL, NULL, s.keeper + BLOCK_HEADER, s.block[s.keeper].endptr))
  }

  lemma ChainFacts(s: State)
    requires Good(s)
    ensures |s.order| > 0 && s.keeper in s.block && NoRepeats(s.order) && Swept(s, s.block, 0)
    ensures forall j :: 0 <= j < |s.order| ==> s.order[j] != NULL
    ensures forall b :: b in s.block ==> b in s.order
  {
    OrderIn(s);
    NullIsNoBlock(s.block, s.order);
  }

  lemma SweepStep(s: State, block: Blocks, i: nat)
    requires Good(s) && i < |s.order| && Swept(s, block, i)
    ensures var b := s.order[i];
            && b in block && block[b].next == (if i + 1 < |s.order| then s.order[i + 1] else NULL)
            && (b == s.keeper ==> Swept(s, block[b := Block(NULL, NULL, b + BLOCK_HEADER, block[b].endptr)], i + 1))
            && (b != s.keeper ==> Swept(s, block - {b}, i + 1))
  {
    hide Space, ListsOk, Swept;
    ChainFacts(s);
    assert LinkOk(s.block, s.order, i);
    hide Good;
    SweptHere(s, block, i);
    if s.order[i] == s.keeper { SweepKeeper(s, block, i); } else { SweepOther(s, block, i); }
  }

  lemma SweptHere(s: State, block: Blocks, i: nat)
    requires i < |s.order| && Swept(s, block, i)
    ensures s.order[i] in block && s.order[i] in s.block && block[s.order[i]] == s.block[s.order[i]]
  {
  }

  lemma SweepKeeper(s: State, block: Blocks, i: nat)
    requires i < |s.order| && Swept(s, block, i) && NoRepeats(s.order) && s.order[i] == s.keeper && s.keeper in block
    ensures Swept(s, block[s.keeper := Block(NULL, NULL, s.keeper + BLOCK_HEADER, block[s.keeper].endptr)], i + 1)
  {
  }

  lemma SweepOther(s: State, block: Blocks, i: nat)
    requires i < |s.order| && Swept(s, block, i) && NoRepeats(s.order) && s.order[i] != s.keeper
    ensures Swept(s, block - {s.order[i]}, i + 1)
  {
  }

  lemma SweepDone(s: State, block: Blocks)
    requires Good(s) && Swept(s, block, |s.order|)
    ensures s.keeper in s.block && block == Emptied(s).block
  {
    hide Space, ListsOk;
    ChainFacts(s);
    var k :| 0 <= k < |s.order| && s.order[k] == s.keeper;
    forall b | b in block ensures b == s.keeper {
      var j :| 0 <= j < |s.order| && s.order[j] == b;
    }
  }

  lemma EmptiedAligned(s: State)
    requires Aligned(s) && s.keeper in s.block
    ensures Aligned(Emptied(s))
  {
  }

  lemma KeeperGood(s: State)
    requires Good(s)
    ensures s.keeper in s.block && Good(Emptied(s))
  {
    var t := Emptied(s);
    assert BlockOk(s.base, s.block, s.keeper);
    assert LinkOk(t.block, t.order, 0);
  }
}
