/** Each update of an allocation set keeps the whole invariant. */
module AllocSteps {
  import opened AllocChunk
  import opened AllocState
  import opened AllocBlocks

  /** Everything but the bytes: the memory layout and what is in use. */
  datatype State = State(base: Addr, keeper: Addr, block: Blocks, chunk: Chunks, order: seq<Addr>,
                         free: seq<Addr>, lists: seq<seq<Addr>>, live: map<Addr, nat>)

  ghost predicate Space(s: State) {
    BlocksOk(s.base, s.block) && ChunksOk(s.block, s.chunk) && AllLive(s.block, s.chunk, s.live)
  }

  /** The block list starts with a block that is not external, and holds the keeper. */
  ghost predicate Chained(s: State) {
    && Linked(s.block, s.order) && !ExternalBlock(s.chunk, s.order[0])
    && s.keeper == s.base + CONTEXT_HEADER && s.keeper in s.block && !ExternalBlock(s.chunk, s.keeper)
  }

  ghost predicate Good(s: State) {
    Space(s) && Chained(s) && ListsOk(s.chunk, s.free, s.lists, s.live)
  }

  // ---------------------------------------------------------------------- consequences

  /** Two pointers in use never share a byte, nor does either reach a header. */
  lemma LiveApart(s: State, p: Addr, q: Addr)
    requires Space(s) && p in s.live && q in s.live && p != q
    ensures p + s.live[p] + CHUNK_HEADER <= q || q + s.live[q] + CHUNK_HEADER <= p
  {
    hide ChunkEnd, ChunkOk, BlockOk, BlocksApart, ExternalBlock, HomeOf;
    assert LiveOk(s.block, s.chunk, s.live, p) && LiveOk(s.block, s.chunk, s.live, q);
    assert ChunksApart(s.block, s.chunk, p - CHUNK_HEADER, q - CHUNK_HEADER);
    ChunkInBlock(s.base, s.block, s.chunk, p - CHUNK_HEADER);
    ChunkInBlock(s.base, s.block, s.chunk, q - CHUNK_HEADER);
  }

  /** A pointer in use lies between the header and the end of the block that its chunk
      header leads to, and outside all other blocks and the context. */
  lemma LiveInside(s: State, p: Addr) returns (b: Addr)
    requires Space(s) && p in s.live
    ensures p >= CHUNK_HEADER && p - CHUNK_HEADER in s.chunk
    ensures b == HomeOf(p - CHUNK_HEADER, s.chunk[p - CHUNK_HEADER].mask)
    ensures b in s.block && b + BLOCK_HEADER + CHUNK_HEADER <= p && p + s.live[p] <= s.block[b].endptr
    ensures forall c :: c in s.block && c != b ==> p + s.live[p] <= c || s.block[c].endptr <= p - CHUNK_HEADER
    ensures p + s.live[p] <= s.base || s.base + CONTEXT_HEADER <= p - CHUNK_HEADER
  {
    hide ChunkEnd, ChunkOk, HomeOf;
    assert LiveOk(s.block, s.chunk, s.live, p);
    var c := p - CHUNK_HEADER;
    ChunkInBlock(s.base, s.block, s.chunk, c);
    b := HomeOf(c, s.chunk[c].mask);
    assert BlockOk(s.base, s.block, b);
    forall d | d in s.block && d != b ensures p + s.live[p] <= d || s.block[d].endptr <= c {
      assert BlocksApart(s.block, b, d);
    }
  }

  /** What the header of a pointer in use says. */
  lemma LiveFacts(s: State, p: Addr)
    requires Space(s) && p in s.live
    ensures p >= CHUNK_HEADER && p - CHUNK_HEADER in s.chunk
    ensures var c, m := p - CHUNK_HEADER, s.chunk[p - CHUNK_HEADER].mask;
            && (IsExternal(m) ==>
                  && m == EXTERNAL_MASK && c >= BLOCK_HEADER && c - BLOCK_HEADER in s.block
                  && ExternalBlock(s.chunk, c - BLOCK_HEADER) && p + s.live[p] <= s.block[c - BLOCK_HEADER].endptr)
            && (!IsExternal(m) ==> s.live[p] <= Value(m) <= CHUNK_LIMIT)
  {
    hide IsExternal, Value, Offset, IsClassSize, Mask, BlocksOk;
    assert LiveOk(s.block, s.chunk, s.live, p);
  }

  // ----------------------------------------------------------------------- allocation

  function Carved(s: State, b: Addr, f: nat, size: nat): State
    requires b in s.block && b <= s.block[b].freeptr && ClassSize(f) <= CHUNK_LIMIT
  {
    s.(block := CarvedBlocks(s.block, b, f), chunk := CarvedChunks(s.block, s.chunk, b, f),
       live := s.live[s.block[b].freeptr + CHUNK_HEADER := size])
  }

  /** A chunk from the free space of a block. */
  lemma CarveGood(s: State, b: Addr, f: nat, size: nat)
    requires Good(s) && CanCarve(s.block, s.chunk, b, f) && size <= ClassSize(f)
    ensures Good(Carved(s, b, f, size))
    ensures var c := s.block[b].freeptr; c > 0 && c !in s.chunk && c + CHUNK_HEADER !in s.live
  {
    hide ClassSize, Mask, IsExternal, ExternalBlock, HomeOf, ChunkOk, ChunkEnd, Linked, ListsOk;
    var c := s.block[b].freeptr;
    CarveKeeps(s.base, s.block, s.chunk, b, f);
    CarveLive(s, b, f, size);
    CarveLinks(s, b, f);
    UseNew(s.chunk, s.free, s.lists, s.live, c, Chunk(NULL, Mask(c - b, ClassSize(f))), size);
  }

  lemma CarveLive(s: State, b: Addr, f: nat, size: nat)
    requires Space(s) && CanCarve(s.block, s.chunk, b, f) && size <= ClassSize(f) && s.block[b].freeptr !in s.chunk
    ensures AllLive(Carved(s, b, f, size).block, Carved(s, b, f, size).chunk, Carved(s, b, f, size).live)
    ensures s.block[b].freeptr + CHUNK_HEADER !in s.live
  {
    hide ClassSize, Mask, IsExternal, ExternalBlock, HomeOf, ChunkOk, ChunkEnd, Value;
    var c, t := s.block[b].freeptr, Carved(s, b, f, size);
    CarvedChunk(s.base, s.block, s.chunk, b, f);
    forall p | p in s.live ensures p != c + CHUNK_HEADER && LiveOk(t.block, t.chunk, t.live, p) {
      assert LiveOk(s.block, s.chunk, s.live, p);
      CarvedOther(s.base, s.block, s.chunk, b, f, p - CHUNK_HEADER);
    }
  }

  lemma CarveLinks(s: State, b: Addr, f: nat)
    requires BlocksOk(s.base, s.block) && Chained(s) && CanCarve(s.block, s.chunk, b, f) && s.block[b].freeptr !in s.chunk
    ensures Chained(Carved(s, b, f, 0))
  {
    hide ClassSize, ExternalBlock, BlocksOk;
    var block' := CarvedBlocks(s.block, b, f);
    forall i | 0 <= i < |s.order| ensures LinkOk(block', s.order, i) {
      assert LinkOk(s.block, s.order, i);
    }
    assert LinkOk(s.block, s.order, 0);
    CarveExternal(s.base, s.block, s.chunk, b, f, s.order[0]);
    CarveExternal(s.base, s.block, s.chunk, b, f, s.keeper);
  }

  function Popped(s: State, f: nat, size: nat): State
    requires f < |s.lists| && f < |s.free| && s.lists[f] != [] && s.lists[f][0] in s.chunk
  {
    var c := s.lists[f][0];
    s.(free := s.free[f := s.chunk[c].next], lists := s.lists[f := s.lists[f][1..]], live := s.live[c + CHUNK_HEADER := size])
  }

  /** A chunk from a free list. */
  lemma PopGood(s: State, f: nat, size: nat)
    requires Good(s) && f < FREELISTS && s.lists[f] != [] && size <= ClassSize(f)
    ensures s.lists[f][0] in s.chunk && Good(Popped(s, f, size))
    ensures var c := s.lists[f][0]; c > 0 && s.free[f] == c && c + CHUNK_HEADER !in s.live
  {
    hide ClassSize, IsExternal, ExternalBlock, HomeOf, Linked, BlockOk;
    PopKeeps(s.chunk, s.free, s.lists, s.live, f, size);
    var c := s.lists[f][0];
    assert Listed(s.chunk, s.lists, s.live, f, 0);
    assert ChunkOk(s.block, s.chunk, c);
    hide ChunkOk;
    var t := Popped(s, f, size);
    forall p | p in t.live ensures LiveOk(t.block, t.chunk, t.live, p) {
      if p != c + CHUNK_HEADER { assert LiveOk(s.block, s.chunk, s.live, p); }
    }
  }

  function Pushed(s: State, c: Addr, f: nat): State
    requires c in s.chunk && f < |s.free| && f < |s.lists|
  {
    s.(chunk := s.chunk[c := s.chunk[c].(next := s.free[f])], free := s.free[f := c],
       lists := s.lists[f := [c] + s.lists[f]], live := s.live - {c + CHUNK_HEADER})
  }

  lemma PushLive(s: State, c: Addr, f: nat)
    requires ChunksOk(s.block, s.chunk) && AllLive(s.block, s.chunk, s.live) && c in s.chunk && f < |s.free| && f < |s.lists|
    ensures AllLive(s.block, Pushed(s, c, f).chunk, Pushed(s, c, f).live)
  {
    hide ClassSize, ChunksOk, ExternalBlock;
    RelinkKeeps(s.block, s.chunk, c, s.free[f]);
    hide ChunkOk, ChunkEnd;
    var t := Pushed(s, c, f);
    forall p | p in t.live ensures LiveOk(t.block, t.chunk, t.live, p) {
      assert LiveOk(s.block, s.chunk, s.live, p);
    }
  }

  /** A chunk goes back to the list of its class. */
  lemma PushGood(s: State, c: Addr, f: nat)
    requires Good(s) && c + CHUNK_HEADER in s.live && c in s.chunk && f < FREELISTS
    requires !IsExternal(s.chunk[c].mask) && Value(s.chunk[c].mask) == ClassSize(f)
    ensures Good(Pushed(s, c, f))
  {
    ChunkInBlock(s.base, s.block, s.chunk, c);
    hide ClassSize, IsExternal, HomeOf, Linked, Value, ChunkOk, ChunkEnd, ExternalBlock, AllLive, BlocksOk;
    PushKeeps(s.chunk, s.free, s.lists, s.live, f, c);
    PushLive(s, c, f);
    hide ListsOk;
    RelinkKeeps(s.block, s.chunk, c, s.free[f]);
  }

  // --------------------------------------------------------------------------- blocks

  function Fronted(s: State, m: Addr, size: nat): State
    requires s.order != []
  {
    s.(block := SetPres(s.block[m := Block(NULL, s.order[0], m + BLOCK_HEADER, m + size)], s.order[0], m),
       order := [m] + s.order)
  }

  /** A new block in front of the list, with nothing in it yet. */
  lemma FrontGood(s: State, m: Addr, size: nat)
    requires Good(s) && Unused(s.base, s.block, m, size) && BLOCK_HEADER < size <= TWO30 + CHUNK_HEADER
    ensures m !in s.block && Good(Fronted(s, m, size)) && !ExternalBlock(s.chunk, m)
    ensures m in Fronted(s, m, size).block
    ensures Fronted(s, m, size).block[m] == Block(NULL, s.order[0], m + BLOCK_HEADER, m + size)
  {
    hide ExternalBlock, HomeOf, ChunkOk, ChunkEnd, BlockOk, BlocksOk, ChunksOk, AllLive, LinkOk, ListsOk;
    var links := Block(NULL, s.order[0], m + BLOCK_HEADER, m + size);
    AddPlain(s.base, s.block, s.chunk, s.live, m, size, links);
    SpaceFrame(s.base, s.block[m := links], Fronted(s, m, size).block, s.chunk, s.live);
    PushFront(s.block, s.order, m, m + BLOCK_HEADER, m + size);
    OrderIn(s);
  }

  lemma OrderIn(s: State)
    requires Linked(s.block, s.order)
    ensures forall i :: 0 <= i < |s.order| ==> s.order[i] in s.block
  {
    forall i | 0 <= i < |s.order| ensures s.order[i] in s.block {
      assert LinkOk(s.block, s.order, i);
    }
  }

  function Seconded(s: State, m: Addr, size: nat, next: Addr, asked: nat): State
    requires s.order != [] && s.order[0] in s.block
  {
    var head, second := s.order[0], s.block[s.order[0]].next;
    s.(block := SetNext(SetPres(s.block[m := Block(head, second, m + size, m + size)], second, m), head, m),
       chunk := s.chunk[m + BLOCK_HEADER := ExternalChunk(next)],
       order := [head, m] + s.order[1..],
       live := s.live[m + BLOCK_HEADER + CHUNK_HEADER := asked])
  }

  lemma NotInUse(block: Blocks, chunk: Chunks, live: map<Addr, nat>, c: Addr)
    requires AllLive(block, chunk, live) && c !in chunk
    ensures c + CHUNK_HEADER !in live
  {
    forall p | p in live ensures p != c + CHUNK_HEADER {
      assert LiveOk(block, chunk, live, p);
    }
  }

  lemma UseLive(block: Blocks, chunk: Chunks, live: map<Addr, nat>, c: Addr, asked: nat)
    requires AllLive(block, chunk, live) && c in chunk && ChunkOk(block, chunk, c)
    requires c + CHUNK_HEADER + asked <= ChunkEnd(block, chunk, c)
    ensures AllLive(block, chunk, live[c + CHUNK_HEADER := asked])
  {
    hide ChunkOk, ChunkEnd;
    var live' := live[c + CHUNK_HEADER := asked];
    forall p | p in live' ensures LiveOk(block, chunk, live', p) {
      if p != c + CHUNK_HEADER { assert LiveOk(block, chunk, live, p); }
    }
  }

  /** A large chunk in a block of its own behind the first block. */
  lemma SecondGood(s: State, m: Addr, size: nat, next: Addr, asked: nat)
    requires Good(s) && Unused(s.base, s.block, m, size) && BLOCK_HEADER + CHUNK_HEADER + asked <= size
    ensures s.order[0] in s.block && m + BLOCK_HEADER + CHUNK_HEADER !in s.live && m > 0
    ensures Good(Seconded(s, m, size, next, asked))
  {
    hide HomeOf, ChunkOk, ChunkEnd, BlockOk, BlocksOk, ChunksOk, LinkOk, ListsOk, ExternalBlock;
    OrderIn(s);
    var links := Block(s.order[0], s.block[s.order[0]].next, m + size, m + size);
    var t, c := Seconded(s, m, size, next, asked), m + BLOCK_HEADER;
    AddedChunk(s.base, s.block, s.chunk, m, size, links, next);
    AddExternal(s.base, s.block, s.chunk, s.live, m, size, links, next);
    NotInUse(s.block, s.chunk, s.live, c);
    UseLive(s.block[m := links], t.chunk, s.live, c, asked);
    SpaceFrame(s.base, s.block[m := links], t.block, t.chunk, t.live);
    InsertSecond(s.block, s.order, m, m + size, m + size);
    UseNew(s.chunk, s.free, s.lists, s.live, c, ExternalChunk(next), asked);
  }

  function Dropped(s: State, i: nat): State
    requires i < |s.order| && s.order[i] in s.block
  {
    var b := s.order[i];
    s.(block := Bypass(s.block, b) - {b}, chunk := s.chunk - {b + BLOCK_HEADER}, order := Without(s.order, i),
       live := s.live - {b + BLOCK_HEADER + CHUNK_HEADER})
  }

  lemma DropSpace(s: State, i: nat)
    requires Space(s) && i < |s.order| && s.order[i] in s.block && ExternalBlock(s.chunk, s.order[i])
    ensures Space(Dropped(s, i))
    ensures forall x :: x in s.block && x != s.order[i] ==> ExternalBlock(Dropped(s, i).chunk, x) == ExternalBlock(s.chunk, x)
  {
    hide BlocksOk, ChunksOk, AllLive, ExternalBlock;
    var b, t := s.order[i], Dropped(s, i);
    RemoveExternal(s.base, s.block, s.chunk, s.live, b);
    SpaceFrame(s.base, s.block - {b}, t.block, t.chunk, t.live);
  }

  lemma DropChain(s: State, i: nat)
    requires Chained(s) && i < |s.order| && s.order[i] in s.block && ExternalBlock(s.chunk, s.order[i])
    ensures i > 0 && Linked(Dropped(s, i).block, Dropped(s, i).order)
    ensures Dropped(s, i).order[0] == s.order[0] != s.order[i] && s.keeper != s.order[i]
    ensures s.keeper in Dropped(s, i).block && s.order[0] in s.block
  {
    hide ExternalBlock, LinkOk;
    OrderIn(s);
    Unlink(s.block, s.order, i);
  }

  /** A large chunk and its block are given back. */
  lemma DropGood(s: State, i: nat)
    requires Good(s) && i < |s.order| && ExternalBlock(s.chunk, s.order[i])
    ensures i > 0 && s.order[i] in s.block && Good(Dropped(s, i))
  {
    hide ListsOk, Linked, Bypass, BlocksOk, ChunksOk, AllLive, LinkOk, IsExternal, NoRepeats;
    OrderIn(s);
    DropKeeps(s.chunk, s.free, s.lists, s.live, s.order[i] + BLOCK_HEADER);
    DropChain(s, i);
    DropSpace(s, i);
  }

  function Relocated(s: State, i: nat, m: Addr, size: nat, next: Addr, asked: nat): State
    requires i < |s.order| && s.order[i] in s.block
  {
    var b := s.order[i];
    s.(block := Moved(s.block, b, m, m + size),
       chunk := (s.chunk - {b + BLOCK_HEADER})[m + BLOCK_HEADER := ExternalChunk(next)],
       order := s.order[i := m],
       live := (s.live - {b + BLOCK_HEADER + CHUNK_HEADER})[m + BLOCK_HEADER + CHUNK_HEADER := asked])
  }

  lemma RelocateSpace(s: State, i: nat, m: Addr, size: nat, next: Addr, asked: nat)
    requires Space(s) && i < |s.order| && s.order[i] in s.block && ExternalBlock(s.chunk, s.order[i])
    requires Unused(s.base, s.block - {s.order[i]}, m, size) && BLOCK_HEADER + CHUNK_HEADER + asked <= size
    ensures m == s.order[i] || m !in s.block
    ensures m + BLOCK_HEADER !in s.chunk - {s.order[i] + BLOCK_HEADER}
    ensures m + BLOCK_HEADER + CHUNK_HEADER !in s.live - {s.order[i] + BLOCK_HEADER + CHUNK_HEADER}
    ensures Space(Relocated(s, i, m, size, next, asked))
    ensures forall x :: x in s.block && x != s.order[i] ==>
              ExternalBlock(Relocated(s, i, m, size, next, asked).chunk, x) == ExternalBlock(s.chunk, x)
  {
    hide HomeOf, ChunkOk, ChunkEnd, BlocksOk, ChunksOk, AllLive, ExternalBlock, Unused;
    var b := s.order[i];
    var block, chunk, live := s.block - {b}, s.chunk - {b + BLOCK_HEADER}, s.live - {b + BLOCK_HEADER + CHUNK_HEADER};
    RemoveExternal(s.base, s.block, s.chunk, s.live, b);
    var links := Block(s.block[b].pres, s.block[b].next, m + size, m + size);
    AddedChunk(s.base, block, chunk, m, size, links, next);
    AddExternal(s.base, block, chunk, live, m, size, links, next);
    NotInUse(block, chunk, live, m + BLOCK_HEADER);
    var t := Relocated(s, i, m, size, next, asked);
    UseLive(block[m := links], t.chunk, live, m + BLOCK_HEADER, asked);
    SpaceFrame(s.base, block[m := links], t.block, t.chunk, t.live);
  }

  lemma RelocateChain(s: State, i: nat, m: Addr, size: nat)
    requires Chained(s) && i < |s.order| && s.order[i] in s.block && ExternalBlock(s.chunk, s.order[i])
    requires m > 0 && (m == s.order[i] || m !in s.block)
    ensures i > 0 && Linked(Moved(s.block, s.order[i], m, m + size), s.order[i := m])
    ensures s.order[0] != s.order[i] && s.keeper != s.order[i]
    ensures s.keeper in Moved(s.block, s.order[i], m, m + size) && s.order[0] in s.block
  {
    hide ExternalBlock, LinkOk;
    OrderIn(s);
    Move(s.block, s.order, i, m, m + size);
  }

  /** A large chunk moves with its block. */
  lemma RelocateGood(s: State, i: nat, m: Addr, size: nat, next: Addr, asked: nat)
    requires Good(s) && i < |s.order| && ExternalBlock(s.chunk, s.order[i])
    requires Unused(s.base, s.block - {s.order[i]}, m, size) && BLOCK_HEADER + CHUNK_HEADER + asked <= size
    ensures i > 0 && s.order[i] in s.block && m > 0
    ensures m + BLOCK_HEADER + CHUNK_HEADER !in s.live - {s.order[i] + BLOCK_HEADER + CHUNK_HEADER}
    ensures Good(Relocated(s, i, m, size, next, asked))
  {
    hide ListsOk, Linked, Moved, BlocksOk, ChunksOk, AllLive, LinkOk, IsExternal, NoRepeats;
    var c, d := s.order[i] + BLOCK_HEADER, m + BLOCK_HEADER;
    OrderIn(s);
    DropKeeps(s.chunk, s.free, s.lists, s.live, c);
    RelocateSpace(s, i, m, size, next, asked);
    RelocateChain(s, i, m, size);
    UseNew(s.chunk - {c}, s.free, s.lists, s.live - {c + CHUNK_HEADER}, d, ExternalChunk(next), asked);
  }
}
