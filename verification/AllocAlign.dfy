/** Alignment: what the C library gives starts at a multiple of eight, and so does every
    pointer the allocator hands out. */
module AllocAlign {
  import opened AllocChunk
  import opened AllocState
  import opened AllocBlocks
  import opened AllocSteps

  predicate Multiple(n: nat) { n % 8 == 0 }

  lemma Sum(a: nat, b: nat)
    requires Multiple(a) && Multiple(b)
    ensures Multiple(a + b)
  {
  }

  lemma Headers(a: nat)
    requires Multiple(a)
    ensures Multiple(a + BLOCK_HEADER) && Multiple(a + CHUNK_HEADER)
  {
  }

  ghost predicate BlocksAligned(block: Blocks) {
    forall b :: b in block ==> Multiple(b) && Multiple(block[b].freeptr)
  }

  ghost predicate ChunksAligned(chunk: Chunks) {
    forall c :: c in chunk ==> Multiple(c)
  }

  lemma ChunksChange(chunk: Chunks, c: Addr, d: Addr, k: Chunk)
    requires ChunksAligned(chunk)
    ensures ChunksAligned(chunk - {c})
    ensures Multiple(d) ==> ChunksAligned(chunk[d := k]) && ChunksAligned((chunk - {c})[d := k])
  {
  }

  lemma RelinkAligned(block: Blocks, b: Addr, at: Addr)
    requires BlocksAligned(block)
    ensures BlocksAligned(SetNext(block, b, at)) && BlocksAligned(SetPres(block, b, at))
  {
  }

  lemma AddAligned(block: Blocks, b: Addr, k: Block)
    requires BlocksAligned(block) && Multiple(b) && Multiple(k.freeptr)
    ensures BlocksAligned(block[b := k])
  {
  }

  lemma LessAligned(block: Blocks, b: Addr)
    requires BlocksAligned(block)
    ensures BlocksAligned(block - {b})
  {
  }

  /** Blocks, chunks and free space start at multiples of eight. */
  ghost predicate Aligned(s: State) {
    && BlocksAligned(s.block)
    && ChunksAligned(s.chunk)
  }

  lemma ClassAligned(f: nat)
    ensures Multiple(ClassSize(f))
  {
  }

  /** So does every pointer in use. */
  lemma LiveAligned(s: State, p: Addr)
    requires Space(s) && Aligned(s) && p in s.live
    ensures p % 8 == 0
  {
    hide ChunkOk, ChunkEnd;
    assert LiveOk(s.block, s.chunk, s.live, p);
  }

  lemma CarvedAligned(block: Blocks, chunk: Chunks, b: Addr, f: nat)
    requires BlocksAligned(block) && ChunksAligned(chunk) && b in block && b <= block[b].freeptr && ClassSize(f) <= CHUNK_LIMIT
    ensures BlocksAligned(CarvedBlocks(block, b, f)) && ChunksAligned(CarvedChunks(block, chunk, b, f))
  {
    hide ClassSize, Mask, Multiple;
    ClassAligned(f);
    Headers(block[b].freeptr);
    Sum(block[b].freeptr + CHUNK_HEADER, ClassSize(f));
  }

  lemma CarveAligned(s: State, b: Addr, f: nat, size: nat)
    requires Aligned(s) && b in s.block && b <= s.block[b].freeptr && ClassSize(f) <= CHUNK_LIMIT
    ensures Aligned(Carved(s, b, f, size))
  {
    hide ClassSize, Mask, BlocksAligned, ChunksAligned, Multiple;
    CarvedAligned(s.block, s.chunk, b, f);
  }

  lemma PopAligned(s: State, f: nat, size: nat)
    requires Aligned(s) && f < |s.lists| && f < |s.free| && s.lists[f] != [] && s.lists[f][0] in s.chunk
    ensures Aligned(Popped(s, f, size))
  {
  }

  lemma PushAligned(s: State, c: Addr, f: nat)
    requires Aligned(s) && c in s.chunk && f < |s.free| && f < |s.lists|
    ensures Aligned(Pushed(s, c, f))
  {
  }

  lemma UseAligned(s: State, live: map<Addr, nat>)
    requires Aligned(s)
    ensures Aligned(s.(live := live))
  {
  }

  lemma FrontAligned(s: State, m: Addr, size: nat)
    requires Aligned(s) && s.order != [] && Multiple(m)
    ensures Aligned(Fronted(s, m, size))
  {
    hide BlocksAligned, ChunksAligned, SetPres, Multiple;
    Headers(m);
    var k := Block(NULL, s.order[0], m + BLOCK_HEADER, m + size);
    AddAligned(s.block, m, k);
    RelinkAligned(s.block[m := k], s.order[0], m);
  }

  lemma SecondAligned(s: State, m: Addr, size: nat, next: Addr, asked: nat)
    requires Aligned(s) && s.order != [] && s.order[0] in s.block && Multiple(m) && Multiple(size)
    ensures Aligned(Seconded(s, m, size, next, asked))
  {
    hide BlocksAligned, ChunksAligned, SetPres, SetNext, Multiple;
    Sum(m, size);
    Headers(m);
    var head, second := s.order[0], s.block[s.order[0]].next;
    var k := Block(head, second, m + size, m + size);
    AddAligned(s.block, m, k);
    RelinkAligned(s.block[m := k], second, m);
    RelinkAligned(SetPres(s.block[m := k], second, m), head, m);
    ChunksChange(s.chunk, m, m + BLOCK_HEADER, ExternalChunk(next));
  }

  lemma DropAligned(s: State, i: nat)
    requires Aligned(s) && i < |s.order| && s.order[i] in s.block
    ensures Aligned(Dropped(s, i))
  {
    hide BlocksAligned, ChunksAligned, SetPres, SetNext, Multiple;
    var b := s.order[i];
    RelinkAligned(s.block, s.block[b].pres, s.block[b].next);
    RelinkAligned(SetNext(s.block, s.block[b].pres, s.block[b].next), s.block[b].next, s.block[b].pres);
    LessAligned(Bypass(s.block, b), b);
    ChunksChange(s.chunk, b + BLOCK_HEADER, 0, ExternalChunk(NULL));
  }

  lemma RelocateAligned(s: State, i: nat, m: Addr, size: nat, next: Addr, asked: nat)
    requires Aligned(s) && i < |s.order| && s.order[i] in s.block && Multiple(m) && Multiple(size)
    ensures Aligned(Relocated(s, i, m, size, next, asked))
  {
    hide BlocksAligned, ChunksAligned, SetPres, SetNext, Multiple;
    Sum(m, size);
    Headers(m);
    var b := s.order[i];
    var k := Block(s.block[b].pres, s.block[b].next, m + size, m + size);
    LessAligned(s.block, b);
    AddAligned(s.block - {b}, m, k);
    var rest := (s.block - {b})[m := k];
    RelinkAligned(rest, k.pres, m);
    RelinkAligned(SetNext(rest, k.pres, m), k.next, m);
    ChunksChange(s.chunk, b + BLOCK_HEADER, m + BLOCK_HEADER, ExternalChunk(next));
  }
}
