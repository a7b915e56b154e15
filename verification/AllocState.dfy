/** The invariants of an allocation set: where its blocks and chunks lie in memory, how
    they are linked, and which chunks are in use; and what each pointer update keeps. */
module AllocState {
  import opened AllocChunk

  type Addr = nat

  const NULL: Addr := 0

  /** AllocBlockData without its set pointer, and AllocChunkData. */
  datatype Block = Block(pres: Addr, next: Addr, freeptr: nat, endptr: nat)
  datatype Chunk = Chunk(next: Addr, mask: nat)

  type Blocks = map<Addr, Block>
  type Chunks = map<Addr, Chunk>

  // --------------------------------------------------------------------------- layout

  /** The block that the header of chunk c leads to. */
  function HomeOf(c: Addr, mask: nat): int {
    if IsExternal(mask) then c - BLOCK_HEADER else c - Offset(mask)
  }

  predicate ExternalBlock(chunk: Chunks, b: Addr) {
    b + BLOCK_HEADER in chunk && IsExternal(chunk[b + BLOCK_HEADER].mask)
  }

  predicate IsClassSize(v: nat) {
    exists f :: 0 <= f < FREELISTS && v == ClassSize(f)
  }

  /** The header of chunk c leads to the block it lies in, with its right size. */
  predicate ChunkOk(block: Blocks, chunk: Chunks, c: Addr)
    requires c in chunk
  {
    var m, b := chunk[c].mask, HomeOf(c, chunk[c].mask);
    && b >= 0 && b in block && b + BLOCK_HEADER <= c
    && if IsExternal(m) then
         m == EXTERNAL_MASK && block[b].freeptr == block[b].endptr && c + CHUNK_HEADER <= block[b].endptr
       else
         && !ExternalBlock(chunk, b) && IsClassSize(Value(m)) && Value(m) <= CHUNK_LIMIT
         && m == Mask(c - b, Value(m))
         && c + CHUNK_HEADER + Value(m) <= block[b].freeptr
  }

  /** One past the last byte of chunk c. */
  function ChunkEnd(block: Blocks, chunk: Chunks, c: Addr): nat
    requires c in chunk && ChunkOk(block, chunk, c)
  {
    if IsExternal(chunk[c].mask) then block[HomeOf(c, chunk[c].mask)].endptr else c + CHUNK_HEADER + Value(chunk[c].mask)
  }

  predicate ChunksApart(block: Blocks, chunk: Chunks, c: Addr, d: Addr)
    requires c in chunk && d in chunk && ChunkOk(block, chunk, c) && ChunkOk(block, chunk, d)
  {
    ChunkEnd(block, chunk, c) <= d || ChunkEnd(block, chunk, d) <= c
  }

  /** All chunks lie in their blocks and none overlaps another. The smallest chunk takes 24
      bytes, so that a block of up to 2^30 + 16 bytes has no room for one that starts 2^30
      bytes into it. */
  ghost predicate ChunksOk(block: Blocks, chunk: Chunks) {
    && (forall c {:trigger ChunkOk(block, chunk, c)} :: c in chunk ==> ChunkOk(block, chunk, c))
    && (forall c, d {:trigger ChunksApart(block, chunk, c, d)} ::
          c in chunk && d in chunk && c != d ==> ChunksApart(block, chunk, c, d))
    && (forall b :: b in block && !ExternalBlock(chunk, b) ==> block[b].endptr - b <= TWO30 + CHUNK_HEADER)
  }

  predicate BlockOk(base: Addr, block: Blocks, b: Addr)
    requires b in block
  {
    && b > 0 && b + BLOCK_HEADER <= block[b].freeptr <= block[b].endptr
    && (block[b].endptr <= base || base + CONTEXT_HEADER <= b)
  }

  predicate BlocksApart(block: Blocks, b: Addr, c: Addr)
    requires b in block && c in block
  {
    block[b].endptr <= c || block[c].endptr <= b
  }

  /** Blocks overlap neither each other nor the context header at base. */
  ghost predicate BlocksOk(base: Addr, block: Blocks) {
    && (forall b {:trigger BlockOk(base, block, b)} :: b in block ==> BlockOk(base, block, b))
    && (forall b, c {:trigger BlocksApart(block, b, c)} :: b in block && c in block && b != c ==> BlocksApart(block, b, c))
  }

  /** [at, at + size) is memory that no block and no part of the context occupies, at an
      address as the C library gives it. */
  ghost predicate Unused(base: Addr, block: Blocks, at: Addr, size: nat) {
    && at > 0 && at % 8 == 0 && (at + size <= base || base + CONTEXT_HEADER <= at)
    && forall b :: b in block ==> block[b].endptr <= at || at + size <= b
  }

  /** A block holds its chunks. */
  lemma ChunkInBlock(base: Addr, block: Blocks, chunk: Chunks, c: Addr)
    requires BlocksOk(base, block) && c in chunk && ChunkOk(block, chunk, c)
    ensures var b := HomeOf(c, chunk[c].mask);
            b >= 0 && b in block && b + BLOCK_HEADER <= c && c + CHUNK_HEADER <= ChunkEnd(block, chunk, c) <= block[b].freeptr
  {
    assert BlockOk(base, block, HomeOf(c, chunk[c].mask));
  }

  // ------------------------------------------------------------------ bump allocation

  lemma BumpKeeps(base: Addr, block: Blocks, b: Addr, freeptr: nat)
    requires BlocksOk(base, block) && b in block && block[b].freeptr <= freeptr <= block[b].endptr
    ensures BlocksOk(base, block[b := block[b].(freeptr := freeptr)])
  {
    var block' := block[b := block[b].(freeptr := freeptr)];
    forall x | x in block' ensures BlockOk(base, block', x) {
      assert BlockOk(base, block, x);
    }
    forall x, y | x in block' && y in block' && x != y ensures BlocksApart(block', x, y) {
      assert BlocksApart(block, x, y);
    }
  }

  predicate CanCarve(block: Blocks, chunk: Chunks, b: Addr, f: nat) {
    && b in block && !ExternalBlock(chunk, b) && f < FREELISTS && ClassSize(f) <= CHUNK_LIMIT
    && block[b].freeptr + CHUNK_HEADER + ClassSize(f) <= block[b].endptr
    && b < block[b].freeptr
  }

  function CarvedBlocks(block: Blocks, b: Addr, f: nat): Blocks
    requires b in block
  {
    block[b := block[b].(freeptr := block[b].freeptr + CHUNK_HEADER + ClassSize(f))]
  }

  function CarvedChunks(block: Blocks, chunk: Chunks, b: Addr, f: nat): Chunks
    requires b in block && b <= block[b].freeptr && ClassSize(f) <= CHUNK_LIMIT
  {
    chunk[block[b].freeptr := Chunk(NULL, Mask(block[b].freeptr - b, ClassSize(f)))]
  }

  /** No chunk reaches into the free space of a block. */
  lemma FreeSpaceIsFree(base: Addr, block: Blocks, chunk: Chunks, b: Addr, f: nat, d: Addr)
    requires BlocksOk(base, block) && ChunksOk(block, chunk) && CanCarve(block, chunk, b, f) && d in chunk
    ensures d != block[b].freeptr
    ensures ChunkEnd(block, chunk, d) <= block[b].freeptr || block[b].freeptr + CHUNK_HEADER + ClassSize(f) <= d
  {
    hide ClassSize, HomeOf;
    assert ChunkOk(block, chunk, d);
    ChunkInBlock(base, block, chunk, d);
    var h := HomeOf(d, chunk[d].mask);
    assert BlockOk(base, block, b) && BlockOk(base, block, h);
    hide ChunkOk, ChunkEnd;
    if h != b { assert BlocksApart(block, h, b); }
  }

  lemma CarveExternal(base: Addr, block: Blocks, chunk: Chunks, b: Addr, f: nat, x: Addr)
    requires BlocksOk(base, block) && CanCarve(block, chunk, b, f) && x in block
    requires block[b].freeptr !in chunk
    ensures ExternalBlock(CarvedChunks(block, chunk, b, f), x) == ExternalBlock(chunk, x)
  {
    hide ClassSize, Mask, IsExternal;
    MaskDecodes(block[b].freeptr - b, ClassSize(f));
    assert BlockOk(base, block, x) && BlockOk(base, block, b);
    if x != b { assert BlocksApart(block, x, b); }
  }

  /** The new chunk's header leads to its block and holds its size. */
  lemma CarvedChunk(base: Addr, block: Blocks, chunk: Chunks, b: Addr, f: nat)
    requires BlocksOk(base, block) && ChunksOk(block, chunk) && CanCarve(block, chunk, b, f)
    requires block[b].freeptr !in chunk
    ensures var c, block', chunk' := block[b].freeptr, CarvedBlocks(block, b, f), CarvedChunks(block, chunk, b, f);
            && ChunkOk(block', chunk', c) && HomeOf(c, chunk'[c].mask) == b
            && Value(chunk'[c].mask) == ClassSize(f) && !IsExternal(chunk'[c].mask)
            && ChunkEnd(block', chunk', c) == c + CHUNK_HEADER + ClassSize(f)
  {
    hide ClassSize, Mask, IsExternal, Offset;
    MaskDecodes(block[b].freeptr - b, ClassSize(f));
    CarveExternal(base, block, chunk, b, f, b);
    assert IsClassSize(ClassSize(f));
    assert BlockOk(base, block, b);
  }

  /** Every other chunk stays what it was. */
  lemma CarvedOther(base: Addr, block: Blocks, chunk: Chunks, b: Addr, f: nat, d: Addr)
    requires BlocksOk(base, block) && ChunksOk(block, chunk) && CanCarve(block, chunk, b, f)
    requires block[b].freeptr !in chunk && d in chunk
    ensures var block', chunk' := CarvedBlocks(block, b, f), CarvedChunks(block, chunk, b, f);
            ChunkOk(block', chunk', d) && ChunkEnd(block', chunk', d) == ChunkEnd(block, chunk, d)
  {
    hide ClassSize, Mask, IsExternal, Offset, ExternalBlock, IsClassSize, Value;
    var h := HomeOf(d, chunk[d].mask);
    assert ChunkOk(block, chunk, d);
    CarveExternal(base, block, chunk, b, f, h);
    if h == b {
      if IsExternal(chunk[d].mask) { ExternalHome(block, chunk, d); }
    } else {
      hide HomeOf;
      ChunkFrame(block, chunk, CarvedBlocks(block, b, f), CarvedChunks(block, chunk, b, f), d);
    }
  }

  lemma ExternalHome(block: Blocks, chunk: Chunks, d: Addr)
    requires d in chunk && ChunkOk(block, chunk, d) && IsExternal(chunk[d].mask)
    ensures ExternalBlock(chunk, HomeOf(d, chunk[d].mask))
  {
  }

  /** Taking the next piece of a block's free space adds one chunk that overlaps nothing. */
  lemma CarveKeeps(base: Addr, block: Blocks, chunk: Chunks, b: Addr, f: nat)
    requires BlocksOk(base, block) && ChunksOk(block, chunk) && CanCarve(block, chunk, b, f)
    ensures block[b].freeptr !in chunk
    ensures BlocksOk(base, CarvedBlocks(block, b, f))
    ensures ChunksOk(CarvedBlocks(block, b, f), CarvedChunks(block, chunk, b, f))
  {
    hide ClassSize, Mask, IsExternal, Offset, HomeOf, ExternalBlock, Value, IsClassSize;
    var c, block', chunk' := block[b].freeptr, CarvedBlocks(block, b, f), CarvedChunks(block, chunk, b, f);
    BumpKeeps(base, block, b, c + CHUNK_HEADER + ClassSize(f));
    if c in chunk { FreeSpaceIsFree(base, block, chunk, b, f, c); }
    CarvedChunk(base, block, chunk, b, f);
    forall d | d in chunk'
      ensures ChunkOk(block', chunk', d)
      ensures d != c ==> d in chunk && ChunkOk(block, chunk, d) && ChunkEnd(block', chunk', d) == ChunkEnd(block, chunk, d)
    {
      if d != c { CarvedOther(base, block, chunk, b, f, d); }
    }
    hide ChunkOk, ChunkEnd;
    forall d, e | d in chunk' && e in chunk' && d != e ensures ChunksApart(block', chunk', d, e) {
      if d == c {
        FreeSpaceIsFree(base, block, chunk, b, f, e);
      } else if e == c {
        FreeSpaceIsFree(base, block, chunk, b, f, d);
      } else {
        assert ChunksApart(block, chunk, d, e);
      }
    }
    forall x | x in block' && !ExternalBlock(chunk', x) ensures block'[x].endptr - x <= TWO30 + CHUNK_HEADER {
      CarveExternal(base, block, chunk, b, f, x);
    }
  }

  // ----------------------------------------------------------- free lists and live chunks

  /** Entry j of list f is a dead chunk of exactly that class, linked to the next entry. */
  predicate Listed(chunk: Chunks, lists: seq<seq<Addr>>, live: map<Addr, nat>, f: nat, j: nat)
    requires f < |lists| && j < |lists[f]|
  {
    var c := lists[f][j];
    && c in chunk && !IsExternal(chunk[c].mask) && Value(chunk[c].mask) == ClassSize(f)
    && chunk[c].next == (if j + 1 < |lists[f]| then lists[f][j + 1] else NULL)
    && c + CHUNK_HEADER !in live
  }

  /** Chunk c lies in the free list of its class. */
  predicate IsFree(chunk: Chunks, lists: seq<seq<Addr>>, c: Addr)
    requires c in chunk
  {
    !IsExternal(chunk[c].mask) && exists f :: 0 <= f < |lists| && Value(chunk[c].mask) == ClassSize(f) && c in lists[f]
  }

  predicate NoRepeats(l: seq<Addr>) {
    forall i, j :: 0 <= i < j < |l| ==> l[i] != l[j]
  }

  function HeadOf(l: seq<Addr>): Addr {
    if l == [] then NULL else l[0]
  }

  /** The free lists hold only dead chunks of their class, and every chunk that is not in
      use is in one: no memory leaks inside the blocks. */
  ghost predicate ListsOk(chunk: Chunks, free: seq<Addr>, lists: seq<seq<Addr>>, live: map<Addr, nat>) {
    && |free| == FREELISTS && |lists| == FREELISTS
    && (forall f :: 0 <= f < FREELISTS ==> free[f] == HeadOf(lists[f]) && NoRepeats(lists[f]))
    && (forall f, j :: 0 <= f < FREELISTS && 0 <= j < |lists[f]| ==> Listed(chunk, lists, live, f, j))
    && (forall c {:trigger IsFree(chunk, lists, c)} :: c in chunk && c + CHUNK_HEADER !in live ==> IsFree(chunk, lists, c))
  }

  /** The chunk behind a pointer in use, and room for what was asked for. */
  predicate LiveOk(block: Blocks, chunk: Chunks, live: map<Addr, nat>, p: Addr)
    requires p in live
  {
    && p >= CHUNK_HEADER && p - CHUNK_HEADER in chunk && ChunkOk(block, chunk, p - CHUNK_HEADER)
    && p + live[p] <= ChunkEnd(block, chunk, p - CHUNK_HEADER)
  }

  ghost predicate AllLive(block: Blocks, chunk: Chunks, live: map<Addr, nat>) {
    forall p {:trigger LiveOk(block, chunk, live, p)} :: p in live ==> LiveOk(block, chunk, live, p)
  }

  /** A chunk that is in no list yet goes into use. */
  lemma UseNew(chunk: Chunks, free: seq<Addr>, lists: seq<seq<Addr>>, live: map<Addr, nat>, c: Addr, k: Chunk, size: nat)
    requires ListsOk(chunk, free, lists, live) && c !in chunk
    ensures ListsOk(chunk[c := k], free, lists, live[c + CHUNK_HEADER := size])
  {
    hide ClassSize, IsExternal, Value;
    var chunk', live' := chunk[c := k], live[c + CHUNK_HEADER := size];
    forall f, j | 0 <= f < FREELISTS && 0 <= j < |lists[f]| ensures Listed(chunk', lists, live', f, j) {
      assert Listed(chunk, lists, live, f, j);
    }
    forall d | d in chunk' && d + CHUNK_HEADER !in live' ensures IsFree(chunk', lists, d) {
      assert IsFree(chunk, lists, d);
    }
  }

  /** Taking the first chunk of list f into use. */
  lemma PopKeeps(chunk: Chunks, free: seq<Addr>, lists: seq<seq<Addr>>, live: map<Addr, nat>, f: nat, size: nat)
    requires ListsOk(chunk, free, lists, live) && f < FREELISTS && lists[f] != []
    ensures var c := lists[f][0];
            && c in chunk && c + CHUNK_HEADER !in live && free[f] == c
            && ListsOk(chunk, free[f := chunk[c].next], lists[f := lists[f][1..]], live[c + CHUNK_HEADER := size])
  {
    hide ClassSize, IsExternal, Value;
    var c := lists[f][0];
    assert Listed(chunk, lists, live, f, 0);
    var lists', live' := lists[f := lists[f][1..]], live[c + CHUNK_HEADER := size];
    forall g, j | 0 <= g < FREELISTS && 0 <= j < |lists'[g]| ensures Listed(chunk, lists', live', g, j) {
      var i := if g == f then j + 1 else j;
      assert Listed(chunk, lists, live, g, i);
      if g == f {
        assert lists[f][0] != lists[f][i];
      } else {
        ListsDiffer(chunk, lists, live, f, 0, g, j);
      }
    }
    forall d | d in chunk && d + CHUNK_HEADER !in live' ensures IsFree(chunk, lists', d) {
      assert IsFree(chunk, lists, d);
      var g :| 0 <= g < |lists| && Value(chunk[d].mask) == ClassSize(g) && d in lists[g];
      if g == f {
        var i :| 0 <= i < |lists[f]| && lists[f][i] == d;
        assert lists'[f][i - 1] == d;
      }
      assert d in lists'[g];
    }
  }

  /** Different lists hold different chunks. */
  lemma ListsDiffer(chunk: Chunks, lists: seq<seq<Addr>>, live: map<Addr, nat>, f: nat, i: nat, g: nat, j: nat)
    requires f < |lists| && i < |lists[f]| && g < |lists| && j < |lists[g]| && f != g
    requires Listed(chunk, lists, live, f, i) && Listed(chunk, lists, live, g, j)
    ensures lists[f][i] != lists[g][j]
  {
    if f < g { ClassesGrow(f, g); } else { ClassesGrow(g, f); }
  }

  lemma ClassesGrow(f: nat, g: nat)
    requires f < g
    ensures ClassSize(f) < ClassSize(g)
  {
    Pow2Monotone(f + 1, g);
  }

  /** Putting a chunk in use back in front of the list of its class. */
  lemma PushKeeps(chunk: Chunks, free: seq<Addr>, lists: seq<seq<Addr>>, live: map<Addr, nat>, f: nat, c: Addr)
    requires ListsOk(chunk, free, lists, live) && f < FREELISTS && c in chunk && c + CHUNK_HEADER in live && c != NULL
    requires !IsExternal(chunk[c].mask) && Value(chunk[c].mask) == ClassSize(f)
    ensures ListsOk(chunk[c := chunk[c].(next := free[f])], free[f := c], lists[f := [c] + lists[f]], live - {c + CHUNK_HEADER})
  {
    hide ClassSize, IsExternal, Value;
    var chunk', lists', live' := chunk[c := chunk[c].(next := free[f])], lists[f := [c] + lists[f]], live - {c + CHUNK_HEADER};
    forall g, j | 0 <= g < FREELISTS && 0 <= j < |lists[g]| ensures lists[g][j] != c {
      assert Listed(chunk, lists, live, g, j);
    }
    forall g, j | 0 <= g < FREELISTS && 0 <= j < |lists'[g]| ensures Listed(chunk', lists', live', g, j) {
      if g != f {
        assert Listed(chunk, lists, live, g, j);
      } else if j > 0 {
        assert Listed(chunk, lists, live, f, j - 1);
      }
    }
    forall d | d in chunk' && d + CHUNK_HEADER !in live' ensures IsFree(chunk', lists', d) {
      if d == c {
        assert c in lists'[f];
      } else {
        assert IsFree(chunk, lists, d);
        var g :| 0 <= g < |lists| && Value(chunk[d].mask) == ClassSize(g) && d in lists[g];
        assert d in lists'[g];
      }
    }
  }

  /** A chunk depends on its own header, its block and the kind of its block only. */
  lemma ChunkFrame(block: Blocks, chunk: Chunks, block': Blocks, chunk': Chunks, c: Addr)
    requires c in chunk && ChunkOk(block, chunk, c) && c in chunk' && chunk'[c].mask == chunk[c].mask
    requires var b := HomeOf(c, chunk[c].mask);
             b in block' && block'[b].freeptr == block[b].freeptr && block'[b].endptr == block[b].endptr
             && ExternalBlock(chunk', b) == ExternalBlock(chunk, b)
    ensures ChunkOk(block', chunk', c) && ChunkEnd(block', chunk', c) == ChunkEnd(block, chunk, c)
  {
    hide IsExternal, Value, Offset, IsClassSize, Mask, ExternalBlock;
  }

  /** Relinking the header of a chunk moves nothing. */
  lemma RelinkKeeps(block: Blocks, chunk: Chunks, c: Addr, next: Addr)
    requires ChunksOk(block, chunk) && c in chunk
    ensures var chunk' := chunk[c := chunk[c].(next := next)];
            && ChunksOk(block, chunk')
            && (forall b :: ExternalBlock(chunk', b) == ExternalBlock(chunk, b))
            && (forall d :: d in chunk ==> ChunkOk(block, chunk', d) && ChunkEnd(block, chunk', d) == ChunkEnd(block, chunk, d))
  {
    hide IsExternal, Value, HomeOf;
    var chunk' := chunk[c := chunk[c].(next := next)];
    assert forall b :: ExternalBlock(chunk', b) == ExternalBlock(chunk, b);
    forall d | d in chunk ensures ChunkOk(block, chunk', d) && ChunkEnd(block, chunk', d) == ChunkEnd(block, chunk, d) {
      assert ChunkOk(block, chunk, d);
      ChunkFrame(block, chunk, block, chunk', d);
    }
    hide ChunkOk, ChunkEnd, ExternalBlock;
    forall d, e | d in chunk' && e in chunk' && d != e ensures ChunksApart(block, chunk', d, e) {
      assert ChunksApart(block, chunk, d, e);
    }
  }

  /** The same chunks with more room, or fewer pointers in use. */
  lemma LiveKeeps(block: Blocks, chunk: Chunks, block': Blocks, chunk': Chunks, live: map<Addr, nat>, live': map<Addr, nat>)
    requires AllLive(block, chunk, live) && (forall p :: p in live' ==> p in live && live'[p] == live[p])
    requires forall p :: p in live' && p >= CHUNK_HEADER && p - CHUNK_HEADER in chunk ==>
               && p - CHUNK_HEADER in chunk' && ChunkOk(block, chunk, p - CHUNK_HEADER) && ChunkOk(block', chunk', p - CHUNK_HEADER)
               && ChunkEnd(block', chunk', p - CHUNK_HEADER) == ChunkEnd(block, chunk, p - CHUNK_HEADER)
    ensures AllLive(block', chunk', live')
  {
    hide ChunkOk, ChunkEnd;
    forall p | p in live' ensures LiveOk(block', chunk', live', p) {
      assert LiveOk(block, chunk, live, p);
    }
  }
}
