/** The doubly linked list of blocks, and what adding, removing and moving a block keeps. */
module AllocBlocks {
  import opened AllocChunk
  import opened AllocState

  // ------------------------------------------------------------------ the linked list

  predicate LinkOk(block: Blocks, order: seq<Addr>, i: nat)
    requires i < |order|
  {
    && order[i] in block && order[i] != NULL
    && block[order[i]].next == (if i + 1 < |order| then order[i + 1] else NULL)
    && block[order[i]].pres == (if i > 0 then order[i - 1] else NULL)
  }

  /** order lists all blocks, as next and pres link them in both directions. */
  ghost predicate Linked(block: Blocks, order: seq<Addr>) {
    && order != [] && NoRepeats(order)
    && (forall i :: 0 <= i < |order| ==> LinkOk(block, order, i))
    && (forall b :: b in block ==> b in order)
  }

  function SetNext(block: Blocks, b: Addr, next: Addr): Blocks {
    if b in block then block[b := block[b].(next := next)] else block
  }

  function SetPres(block: Blocks, b: Addr, pres: Addr): Blocks {
    if b in block then block[b := block[b].(pres := pres)] else block
  }

  /** A new block goes in front. */
  lemma PushFront(block: Blocks, order: seq<Addr>, m: Addr, free: nat, end: nat)
    requires Linked(block, order) && m != NULL && m !in block
    ensures var block' := SetPres(block[m := Block(NULL, order[0], free, end)], order[0], m);
            Linked(block', [m] + order)
  {
    var block' := SetPres(block[m := Block(NULL, order[0], free, end)], order[0], m);
    var order' := [m] + order;
    assert LinkOk(block, order, 0);
    forall i | 0 <= i < |order'| ensures LinkOk(block', order', i) {
      if i > 0 { assert LinkOk(block, order, i - 1); }
    }
    forall i | 0 <= i < |order| ensures order[i] != m {
      assert LinkOk(block, order, i);
    }
  }

  /** A new block goes behind the first one. */
  lemma InsertSecond(block: Blocks, order: seq<Addr>, m: Addr, free: nat, end: nat)
    requires Linked(block, order) && m != NULL && m !in block
    ensures order[0] in block
    ensures var second := block[order[0]].next;
            var block' := SetNext(SetPres(block[m := Block(order[0], second, free, end)], second, m), order[0], m);
            Linked(block', [order[0], m] + order[1..])
  {
    assert LinkOk(block, order, 0);
    var second := block[order[0]].next;
    var block' := SetNext(SetPres(block[m := Block(order[0], second, free, end)], second, m), order[0], m);
    var order' := [order[0], m] + order[1..];
    forall i | 0 <= i < |order| ensures order[i] != m {
      assert LinkOk(block, order, i);
    }
    NullIsNoBlock(block, order);
    forall i | 0 <= i < |order'| ensures LinkOk(block', order', i) {
      if i > 1 { assert LinkOk(block, order, i - 1); }
      if |order| > 1 { assert LinkOk(block, order, 1); }
    }
    forall b | b in block' ensures b in order' {
      if b != m {
        var i :| 0 <= i < |order| && order[i] == b;
        assert order'[if i == 0 then 0 else i + 1] == b;
      }
    }
  }

  /** Block order[i] is taken out of the list. */
  function Bypass(block: Blocks, b: Addr): Blocks
    requires b in block
  {
    SetPres(SetNext(block, block[b].pres, block[b].next), block[b].next, block[b].pres)
  }

  lemma NullIsNoBlock(block: Blocks, order: seq<Addr>)
    requires Linked(block, order)
    ensures NULL !in block
  {
    forall b | b in block ensures b != NULL {
      var i :| 0 <= i < |order| && order[i] == b;
      assert LinkOk(block, order, i);
    }
  }

  function Without(order: seq<Addr>, i: nat): seq<Addr>
    requires i < |order|
  {
    order[..i] + order[i + 1..]
  }

  lemma UnlinkAt(block: Blocks, order: seq<Addr>, i: nat, j: nat)
    requires Linked(block, order) && 0 < i < |order| && j < |order| && j != i
    ensures order[i] in block
    ensures LinkOk(Bypass(block, order[i]) - {order[i]}, Without(order, i), if j < i then j else j - 1)
  {
    NullIsNoBlock(block, order);
    assert LinkOk(block, order, i) && LinkOk(block, order, i - 1) && LinkOk(block, order, j);
    if i + 1 < |order| { assert LinkOk(block, order, i + 1); }
    var order' := Without(order, i);
    assert forall k :: 0 <= k < |order'| ==> order'[k] == order[if k < i then k else k + 1];
    assert order[j] != order[i];
    var b := block[order[i]];
    assert b.pres == order[j] <==> j == i - 1;
    assert b.next == order[j] <==> j == i + 1;
    hide Linked, NoRepeats;
  }

  lemma Unlink(block: Blocks, order: seq<Addr>, i: nat)
    requires Linked(block, order) && 0 < i < |order|
    ensures order[i] in block && Linked(Bypass(block, order[i]) - {order[i]}, Without(order, i))
  {
    hide LinkOk;
    var order' := Without(order, i);
    assert forall k :: 0 <= k < |order'| ==> order'[k] == order[if k < i then k else k + 1];
    UnlinkAt(block, order, i, i - 1);
    var block' := Bypass(block, order[i]) - {order[i]};
    forall k | 0 <= k < |order'| ensures LinkOk(block', order', k) {
      UnlinkAt(block, order, i, if k < i then k else k + 1);
    }
    forall x | x in block' ensures x in order' {
      var j :| 0 <= j < |order| && order[j] == x;
      assert order'[if j < i then j else j - 1] == x;
    }
  }

  /** Block order[i] moves to address m, and its neighbours follow. */
  function Moved(block: Blocks, b: Addr, m: Addr, end: nat): Blocks
    requires b in block
  {
    var rest := (block - {b})[m := Block(block[b].pres, block[b].next, end, end)];
    SetPres(SetNext(rest, block[b].pres, m), block[b].next, m)
  }

  lemma MoveAt(block: Blocks, order: seq<Addr>, i: nat, m: Addr, end: nat, j: nat)
    requires Linked(block, order) && 0 < i < |order| && j < |order| && m != NULL && (m == order[i] || m !in block)
    ensures order[i] in block && LinkOk(Moved(block, order[i], m, end), order[i := m], j)
  {
    NullIsNoBlock(block, order);
    assert LinkOk(block, order, i) && LinkOk(block, order, i - 1) && LinkOk(block, order, j);
    if i + 1 < |order| { assert LinkOk(block, order, i + 1); }
    var b := block[order[i]];
    assert j != i ==> order[j] != order[i] && order[j] != m;
    assert b.pres == order[j] <==> j == i - 1;
    assert b.next == order[j] <==> j == i + 1;
    hide Linked, NoRepeats;
  }

  lemma Move(block: Blocks, order: seq<Addr>, i: nat, m: Addr, end: nat)
    requires Linked(block, order) && 0 < i < |order| && m != NULL && (m == order[i] || m !in block)
    ensures order[i] in block && Linked(Moved(block, order[i], m, end), order[i := m])
  {
    var order' := order[i := m];
    MoveAt(block, order, i, m, end, i);
    forall j | 0 <= j < |order| && j != i ensures order[j] != m {
      assert LinkOk(block, order, j);
    }
    hide LinkOk;
    var block' := Moved(block, order[i], m, end);
    forall j | 0 <= j < |order'| ensures LinkOk(block', order', j) {
      MoveAt(block, order, i, m, end, j);
    }
    forall x | x in block' ensures x in order' {
      if x != m {
        var j :| 0 <= j < |order| && order[j] == x;
        assert order'[j] == x;
      } else {
        assert order'[i] == m;
      }
    }
  }

  // -------------------------------------------------------------------------- space

  /** The same blocks in the same places; only the links may differ. */
  ghost predicate SameSpace(block: Blocks, block': Blocks) {
    && block'.Keys == block.Keys
    && forall b :: b in block ==> block'[b].freeptr == block[b].freeptr && block'[b].endptr == block[b].endptr
  }

  lemma SpaceFrame(base: Addr, block: Blocks, block': Blocks, chunk: Chunks, live: map<Addr, nat>)
    requires BlocksOk(base, block) && ChunksOk(block, chunk) && AllLive(block, chunk, live) && SameSpace(block, block')
    ensures BlocksOk(base, block') && ChunksOk(block', chunk) && AllLive(block', chunk, live)
  {
    hide HomeOf, ExternalBlock, IsExternal, Value;
    forall b | b in block' ensures BlockOk(base, block', b) {
      assert BlockOk(base, block, b);
    }
    forall b, c | b in block' && c in block' && b != c ensures BlocksApart(block', b, c) {
      assert BlocksApart(block, b, c);
    }
    forall c | c in chunk ensures ChunkOk(block', chunk, c) && ChunkEnd(block', chunk, c) == ChunkEnd(block, chunk, c) {
      assert ChunkOk(block, chunk, c);
      ChunkFrame(block, chunk, block', chunk, c);
    }
    hide ChunkOk, ChunkEnd;
    forall c, d | c in chunk && d in chunk && c != d ensures ChunksApart(block', chunk, c, d) {
      assert ChunksApart(block, chunk, c, d);
    }
    LiveKeeps(block, chunk, block', chunk, live, live);
  }

  /** No chunk starts or ends in unused memory. */
  lemma UnusedHoldsNoChunk(base: Addr, block: Blocks, chunk: Chunks, at: Addr, size: nat, c: Addr)
    requires BlocksOk(base, block) && ChunksOk(block, chunk) && Unused(base, block, at, size) && c in chunk
    ensures ChunkEnd(block, chunk, c) <= at || at + size <= c
  {
    assert ChunkOk(block, chunk, c);
    ChunkInBlock(base, block, chunk, c);
    assert BlockOk(base, block, HomeOf(c, chunk[c].mask));
  }

  /** A block in unused memory that has no chunk yet. */
  lemma AddPlain(base: Addr, block: Blocks, chunk: Chunks, live: map<Addr, nat>, m: Addr, size: nat, links: Block)
    requires BlocksOk(base, block) && ChunksOk(block, chunk) && AllLive(block, chunk, live)
    requires Unused(base, block, m, size) && BLOCK_HEADER < size <= TWO30 + CHUNK_HEADER
    requires links.freeptr == m + BLOCK_HEADER && links.endptr == m + size
    ensures m !in block && !ExternalBlock(chunk, m)
    ensures var block' := block[m := links];
            BlocksOk(base, block') && ChunksOk(block', chunk) && AllLive(block', chunk, live)
  {
    hide HomeOf, ExternalBlock, IsExternal, Value, IsClassSize, Mask;
    var block' := block[m := links];
    AddBlocks(base, block, m, size, links);
    NotExternalYet(base, block, chunk, m, size);
    forall c | c in chunk ensures ChunkOk(block', chunk, c) && ChunkEnd(block', chunk, c) == ChunkEnd(block, chunk, c) {
      assert ChunkOk(block, chunk, c);
      ChunkFrame(block, chunk, block', chunk, c);
    }
    hide ChunkOk, ChunkEnd;
    forall c, d | c in chunk && d in chunk && c != d ensures ChunksApart(block', chunk, c, d) {
      assert ChunksApart(block, chunk, c, d);
    }
    LiveKeeps(block, chunk, block', chunk, live, live);
  }

  lemma AddBlocks(base: Addr, block: Blocks, m: Addr, size: nat, links: Block)
    requires BlocksOk(base, block) && Unused(base, block, m, size) && BLOCK_HEADER < size
    requires m + BLOCK_HEADER <= links.freeptr <= links.endptr && links.endptr == m + size
    ensures m !in block && BlocksOk(base, block[m := links])
  {
    forall b | b in block ensures b != m {
      assert BlockOk(base, block, b);
    }
    var block' := block[m := links];
    forall b | b in block' ensures BlockOk(base, block', b) {
      if b != m { assert BlockOk(base, block, b); }
    }
    forall b, c | b in block' && c in block' && b != c ensures BlocksApart(block', b, c) {
      if b != m && c != m { assert BlocksApart(block, b, c); }
    }
  }

  lemma NotExternalYet(base: Addr, block: Blocks, chunk: Chunks, m: Addr, size: nat)
    requires BlocksOk(base, block) && ChunksOk(block, chunk) && Unused(base, block, m, size) && BLOCK_HEADER < size
    ensures m + BLOCK_HEADER !in chunk && !ExternalBlock(chunk, m)
  {
    if m + BLOCK_HEADER in chunk {
      assert ChunkOk(block, chunk, m + BLOCK_HEADER);
      ChunkInBlock(base, block, chunk, m + BLOCK_HEADER);
      UnusedHoldsNoChunk(base, block, chunk, m, size, m + BLOCK_HEADER);
      assert false;
    }
  }

  /** The header that alloc_set_alloc_large writes; it leaves the link as it finds it. */
  function ExternalChunk(next: Addr): Chunk {
    Chunk(next, EXTERNAL_MASK)
  }

  /** The new external chunk of a block in unused memory. */
  lemma AddedChunk(base: Addr, block: Blocks, chunk: Chunks, m: Addr, size: nat, links: Block, next: Addr)
    requires BlocksOk(base, block) && ChunksOk(block, chunk)
    requires Unused(base, block, m, size) && BLOCK_HEADER + CHUNK_HEADER <= size
    requires links.freeptr == links.endptr == m + size
    ensures m !in block && m + BLOCK_HEADER !in chunk
    ensures var block', chunk' := block[m := links], chunk[m + BLOCK_HEADER := ExternalChunk(next)];
            && (forall b :: b in block ==> ExternalBlock(chunk', b) == ExternalBlock(chunk, b))
            && ExternalBlock(chunk', m)
            && ChunkOk(block', chunk', m + BLOCK_HEADER) && HomeOf(m + BLOCK_HEADER, EXTERNAL_MASK) == m
            && ChunkEnd(block', chunk', m + BLOCK_HEADER) == m + size
            && IsExternal(chunk'[m + BLOCK_HEADER].mask)
  {
    AddBlocks(base, block, m, size, links);
    NotExternalYet(base, block, chunk, m, size);
    ExternalIsExternal();
    hide IsExternal, Value, IsClassSize, Mask, Offset;
  }

  lemma AddChunks(base: Addr, block: Blocks, chunk: Chunks, m: Addr, size: nat, links: Block, next: Addr)
    requires BlocksOk(base, block) && ChunksOk(block, chunk)
    requires Unused(base, block, m, size) && BLOCK_HEADER + CHUNK_HEADER <= size
    requires links.freeptr == links.endptr == m + size
    ensures var block', chunk' := block[m := links], chunk[m + BLOCK_HEADER := ExternalChunk(next)];
            && ChunksOk(block', chunk')
            && forall d :: d in chunk ==> ChunkOk(block', chunk', d) && ChunkEnd(block', chunk', d) == ChunkEnd(block, chunk, d)
  {
    hide IsExternal, Value, IsClassSize, Mask, HomeOf, ExternalBlock, ChunkEnd, ChunkOk;
    var c := m + BLOCK_HEADER;
    var block', chunk' := block[m := links], chunk[c := ExternalChunk(next)];
    AddedChunk(base, block, chunk, m, size, links, next);
    forall d | d in chunk ensures ChunkOk(block', chunk', d) && ChunkEnd(block', chunk', d) == ChunkEnd(block, chunk, d) {
      ChunkInBlock(base, block, chunk, d);
      ChunkFrame(block, chunk, block', chunk', d);
    }
    forall d, e | d in chunk' && e in chunk' && d != e ensures ChunksApart(block', chunk', d, e) {
      if d == c {
        UnusedHoldsNoChunk(base, block, chunk, m, size, e);
      } else if e == c {
        UnusedHoldsNoChunk(base, block, chunk, m, size, d);
      } else {
        assert ChunksApart(block, chunk, d, e);
      }
    }
  }

  /** A block in unused memory with its one external chunk. */
  lemma AddExternal(base: Addr, block: Blocks, chunk: Chunks, live: map<Addr, nat>, m: Addr, size: nat, links: Block, next: Addr)
    requires BlocksOk(base, block) && ChunksOk(block, chunk) && AllLive(block, chunk, live)
    requires Unused(base, block, m, size) && BLOCK_HEADER + CHUNK_HEADER <= size
    requires links.freeptr == links.endptr == m + size
    ensures var block', chunk' := block[m := links], chunk[m + BLOCK_HEADER := ExternalChunk(next)];
            BlocksOk(base, block') && ChunksOk(block', chunk') && AllLive(block', chunk', live)
  {
    var block', chunk' := block[m := links], chunk[m + BLOCK_HEADER := ExternalChunk(next)];
    AddBlocks(base, block, m, size, links);
    AddedChunk(base, block, chunk, m, size, links, next);
    AddChunks(base, block, chunk, m, size, links, next);
    hide ChunkOk, ChunkEnd, BlocksOk, Unused, HomeOf, ExternalBlock, ChunksApart;
    LiveKeeps(block, chunk, block', chunk', live, live);
  }

  lemma RemoveBlock(base: Addr, block: Blocks, b: Addr)
    requires BlocksOk(base, block)
    ensures BlocksOk(base, block - {b})
  {
    var block' := block - {b};
    forall x | x in block' ensures BlockOk(base, block', x) {
      assert BlockOk(base, block, x);
    }
    forall x, y | x in block' && y in block' && x != y ensures BlocksApart(block', x, y) {
      assert BlocksApart(block, x, y);
    }
  }

  /** A chunk other than its own lies outside an external block. */
  lemma NotInExternal(block: Blocks, chunk: Chunks, b: Addr, d: Addr)
    requires d in chunk && ChunkOk(block, chunk, d) && ExternalBlock(chunk, b) && d != b + BLOCK_HEADER
    ensures HomeOf(d, chunk[d].mask) != b
    ensures var block', chunk' := block - {b}, chunk - {b + BLOCK_HEADER};
            ChunkOk(block', chunk', d) && ChunkEnd(block', chunk', d) == ChunkEnd(block, chunk, d)
  {
    hide Value, Offset, IsClassSize, Mask;
    ChunkFrame(block, chunk, block - {b}, chunk - {b + BLOCK_HEADER}, d);
  }

  lemma OtherExternal(chunk: Chunks, b: Addr, x: Addr)
    requires x != b
    ensures ExternalBlock(chunk - {b + BLOCK_HEADER}, x) == ExternalBlock(chunk, x)
  {
  }

  lemma RemoveChunks(block: Blocks, chunk: Chunks, b: Addr)
    requires ChunksOk(block, chunk) && b in block && ExternalBlock(chunk, b)
    ensures ChunksOk(block - {b}, chunk - {b + BLOCK_HEADER})
    ensures forall x :: x in block - {b} ==> ExternalBlock(chunk - {b + BLOCK_HEADER}, x) == ExternalBlock(chunk, x)
  {
    hide IsExternal, ChunkOk, ChunkEnd, HomeOf, ExternalBlock;
    var block', chunk' := block - {b}, chunk - {b + BLOCK_HEADER};
    forall x | x in block' ensures ExternalBlock(chunk', x) == ExternalBlock(chunk, x) {
      OtherExternal(chunk, b, x);
    }
    forall d | d in chunk' ensures ChunkOk(block, chunk, d) && ChunkOk(block', chunk', d)
      ensures ChunkEnd(block', chunk', d) == ChunkEnd(block, chunk, d) {
      NotInExternal(block, chunk, b, d);
    }
    forall d, e | d in chunk' && e in chunk' && d != e ensures ChunksApart(block', chunk', d, e) {
      assert ChunksApart(block, chunk, d, e);
    }
  }

  lemma RemoveLive(block: Blocks, chunk: Chunks, live: map<Addr, nat>, b: Addr)
    requires ChunksOk(block, chunk) && AllLive(block, chunk, live) && b in block && ExternalBlock(chunk, b)
    ensures AllLive(block - {b}, chunk - {b + BLOCK_HEADER}, live - {b + BLOCK_HEADER + CHUNK_HEADER})
  {
    hide IsExternal, ChunkOk, ChunkEnd, HomeOf, ExternalBlock, ChunksOk;
    var block', chunk', live' := block - {b}, chunk - {b + BLOCK_HEADER}, live - {b + BLOCK_HEADER + CHUNK_HEADER};
    forall p | p in live' ensures LiveOk(block', chunk', live', p) {
      assert LiveOk(block, chunk, live, p);
      NotInExternal(block, chunk, b, p - CHUNK_HEADER);
    }
  }

  /** Giving back an external block takes its one chunk with it and no other. */
  lemma RemoveExternal(base: Addr, block: Blocks, chunk: Chunks, live: map<Addr, nat>, b: Addr)
    requires BlocksOk(base, block) && ChunksOk(block, chunk) && AllLive(block, chunk, live)
    requires b in block && ExternalBlock(chunk, b)
    ensures var block', chunk', live' := block - {b}, chunk - {b + BLOCK_HEADER}, live - {b + BLOCK_HEADER + CHUNK_HEADER};
            && BlocksOk(base, block') && ChunksOk(block', chunk') && AllLive(block', chunk', live')
            && (forall x :: x in block' ==> ExternalBlock(chunk', x) == ExternalBlock(chunk, x))
  {
    hide BlocksOk, ChunksOk, AllLive, ExternalBlock;
    RemoveBlock(base, block, b);
    RemoveChunks(block, chunk, b);
    RemoveLive(block, chunk, live, b);
  }

  /** Dropping an external chunk leaves the free lists alone. */
  lemma DropKeeps(chunk: Chunks, free: seq<Addr>, lists: seq<seq<Addr>>, live: map<Addr, nat>, c: Addr)
    requires ListsOk(chunk, free, lists, live) && c in chunk && IsExternal(chunk[c].mask)
    ensures ListsOk(chunk - {c}, free, lists, live - {c + CHUNK_HEADER})
  {
    hide ClassSize, IsExternal, Value;
    var chunk', live' := chunk - {c}, live - {c + CHUNK_HEADER};
    forall f, j | 0 <= f < FREELISTS && 0 <= j < |lists[f]| ensures Listed(chunk', lists, live', f, j) {
      assert Listed(chunk, lists, live, f, j);
    }
    forall d | d in chunk' && d + CHUNK_HEADER !in live' ensures IsFree(chunk', lists, d) {
      assert IsFree(chunk, lists, d);
    }
  }
}
