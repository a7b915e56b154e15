/** The static arena plan of src/graph.c: one sweep over the nodes gives every
    output a slot in its backend's arena and hands slots of finished nodes to
    later ones, best fit first. */
module ArenaPlan {
  import opened Graph

  const UINT64_MAX: nat := 0xFFFF_FFFF_FFFF_FFFF

  /** A byte range. */
  datatype Chunk = Chunk(off: nat, size: nat)

  predicate Apart(a: Chunk, b: Chunk) {
    a.off + a.size <= b.off || b.off + b.size <= a.off
  }

  // --------------------------------------------------------------- byte needs

  function Align16(x: nat): (r: nat)
    ensures x <= r < x + 16 && r % 16 == 0
  {
    (x + 15) / 16 * 16
  }

  /** node_cap_rows. */
  function CapRows(node: GraphNode, sink: bool, nUbatch: nat): nat {
    if node.op.Input? then node.ne0 else if sink then 1 else nUbatch
  }

  function NeedOf(node: GraphNode, sink: bool, dim: nat, nUbatch: nat): nat {
    if node.op.Input? then Align16(node.ne0 * 4)
    else Align16(CapRows(node, sink, nUbatch) * dim * 4)
  }

  ghost predicate IsNeed(g: seq<GraphNode>, dims: seq<nat>, nUbatch: nat, need: seq<nat>) {
    && |need| == |g| == |dims|
    && forall i :: 0 <= i < |g| ==> need[i] == NeedOf(g[i], Sink(g, i), dims[i], nUbatch)
  }

  /** The executor's capacity check cannot fail: a batch of n <= n_ubatch rows
      fits the slot, and so do the token ids of an input that can hold them. */
  lemma NeedCovers(g: seq<GraphNode>, dims: seq<nat>, nUbatch: nat, need: seq<nat>, i: nat, n: nat)
    requires IsNeed(g, dims, nUbatch, need) && i < |g| && n <= nUbatch
    ensures need[i] % 16 == 0
    ensures !g[i].op.Input? ==> (if Sink(g, i) then 1 else n) * dims[i] * 4 <= need[i]
    ensures g[i].op.Input? && n <= g[i].ne0 ==> n * 4 <= need[i]
  {
    if !g[i].op.Input? && !Sink(g, i) {
      MulMono(n, nUbatch, dims[i]);
    }
  }

  lemma MulMono(a: nat, b: nat, d: nat)
    requires a <= b
    ensures a * d <= b * d
  {
  }

  /** And no more is taken: the need is the next multiple of 16 of the bytes of the rows, four
      each, where an input holds its ids, a sink one row and any other node n_ubatch rows. */
  lemma NeedExact(g: seq<GraphNode>, dims: seq<nat>, nUbatch: nat, need: seq<nat>, i: nat)
    requires IsNeed(g, dims, nUbatch, need) && i < |g|
    ensures var bytes := if g[i].op.Input? then 4 * g[i].ne0 else (if Sink(g, i) then 1 else nUbatch) * dims[i] * 4;
            bytes <= need[i] < bytes + 16 && need[i] % 16 == 0
  {
  }

  // --------------------------------------------------------------- free lists

  /** A chunk is taken for need bytes only if it holds them; a size of 2^64 - 1 is no chunk. */
  predicate HoldsNeed(c: Chunk, need: nat) {
    need <= c.size < UINT64_MAX
  }

  /** best is the first of the smallest chunks that hold need bytes, or past the end. */
  ghost predicate BestChunk(chunks: seq<Chunk>, need: nat, best: nat) {
    && best <= |chunks|
    && (best < |chunks| ==> HoldsNeed(chunks[best], need))
    && (best < |chunks| ==> forall f :: 0 <= f < |chunks| && HoldsNeed(chunks[f], need) ==>
          chunks[best].size < chunks[f].size || (chunks[best].size == chunks[f].size && best <= f))
    && (best == |chunks| ==> forall f :: 0 <= f < |chunks| ==> !HoldsNeed(chunks[f], need))
  }

  /** The free chunks and the bump pointer of every backend. */
  class FreeLists {
    const n: nat
    const foff: array2<nat>
    const fsz: array2<nat>
    const fcnt: array<nat>
    const bump: array<nat>
    /** The free chunks of each backend. */
    ghost var lists: seq<seq<Chunk>>

    ghost predicate Valid()
      reads this, foff, fsz, fcnt, bump
    {
      && foff.Length0 == fsz.Length0 == fcnt.Length == bump.Length == |lists| == BACKEND_COUNT
      && foff.Length1 == fsz.Length1 == n
      && foff != fsz && fcnt != bump
      && (forall b :: 0 <= b < BACKEND_COUNT ==> fcnt[b] == |lists[b]| <= n)
      && (forall b, f :: 0 <= b < BACKEND_COUNT && 0 <= f < |lists[b]| ==>
            lists[b][f].off == foff[b, f] && lists[b][f].size == fsz[b, f])
    }

    constructor (n: nat)
      ensures Valid() && this.n == n && lists == [[], [], []] && bump[..] == [0, 0, 0]
      ensures fresh(foff) && fresh(fsz) && fresh(fcnt) && fresh(bump)
    {
      this.n := n;
      foff := new nat[BACKEND_COUNT, n]((i, j) => 0);
      fsz := new nat[BACKEND_COUNT, n]((i, j) => 0);
      fcnt := new nat[BACKEND_COUNT](_ => 0);
      bump := new nat[BACKEND_COUNT](_ => 0);
      lists := [[], [], []];
    }

    /** A finished node's slot joins the free list of its backend. */
    method Push(b: Backend, off: nat, size: nat)
      requires Valid() && |lists[b]| < n
      modifies this, foff, fsz, fcnt
      ensures Valid() && bump[..] == old(bump[..])
      ensures lists == old(lists)[b := old(lists)[b] + [Chunk(off, size)]]
    {
      foff[b, fcnt[b]] := off;
      fsz[b, fcnt[b]] := size;
      fcnt[b] := fcnt[b] + 1;
      lists := lists[b := lists[b] + [Chunk(off, size)]];
    }

    /** The first of the smallest free chunks that hold need bytes, or fcnt[b]. */
    method BestFit(b: Backend, need: nat) returns (best: nat)
      requires Valid()
      ensures BestChunk(lists[b], need, best)
    {
      best := fcnt[b];
      var bestSz := UINT64_MAX;
      var f := 0;
      while f < fcnt[b]
        invariant 0 <= f <= fcnt[b]
        invariant best == fcnt[b] ==> bestSz == UINT64_MAX
        invariant best != fcnt[b] ==> best < f && bestSz == lists[b][best].size && need <= bestSz
        invariant forall x :: 0 <= x < f && need <= lists[b][x].size ==> bestSz <= lists[b][x].size
        invariant best != fcnt[b] ==> bestSz < UINT64_MAX && forall x :: 0 <= x < best && need <= lists[b][x].size ==> bestSz < lists[b][x].size
      {
        if fsz[b, f] >= need && fsz[b, f] < bestSz {
          best, bestSz := f, fsz[b, f];
        }
        f := f + 1;
      }
    }

    /** Swap-remove of a chunk that is given away. */
    method Take(b: Backend, best: nat) returns (off: nat)
      requires Valid() && best < |lists[b]|
      modifies this, foff, fsz, fcnt
      ensures Valid() && bump[..] == old(bump[..])
      ensures off == old(lists)[b][best].off
      ensures lists == old(lists)[b := SwapRemove(old(lists)[b], best)]
    {
      off := foff[b, best];
      var last := fcnt[b] - 1;
      fsz[b, best] := fsz[b, last];
      foff[b, best] := foff[b, last];
      fcnt[b] := last;
      lists := lists[b := SwapRemove(lists[b], best)];
    }
  }

  function SwapRemove(s: seq<Chunk>, i: nat): seq<Chunk>
    requires i < |s|
  {
    s[i := s[|s| - 1]][..|s| - 1]
  }

  // ------------------------------------------------------------- the invariant

  function Slot(offs: seq<nat>, need: seq<nat>, i: nat): Chunk
    requires i < |offs| && i < |need|
  {
    Chunk(offs[i], need[i])
  }

  /** The slots of the live nodes and the free chunks are pairwise disjoint
      ranges below the bump pointers. */
  ghost predicate Packed(g: seq<GraphNode>, need: seq<nat>, offs: seq<nat>, live: set<nat>,
                         lists: seq<seq<Chunk>>, bump: seq<nat>)
    requires |offs| <= |g| == |need| && |lists| == |bump| == BACKEND_COUNT
  {
    && (forall j :: j in live ==> j < |offs| && offs[j] + need[j] <= bump[g[j].backend])
    && (forall b, f :: 0 <= b < BACKEND_COUNT && 0 <= f < |lists[b]| ==> lists[b][f].off + lists[b][f].size <= bump[b])
    && (forall j, k :: j in live && k in live && j < k && g[j].backend == g[k].backend ==>
          Apart(Slot(offs, need, j), Slot(offs, need, k)))
    && (forall j, f :: j in live && 0 <= f < |lists[g[j].backend]| ==>
          Apart(Slot(offs, need, j), lists[g[j].backend][f]))
    && (forall b, f, f' :: 0 <= b < BACKEND_COUNT && 0 <= f < f' < |lists[b]| ==> Apart(lists[b][f], lists[b][f']))
  }

  lemma PackedPush(g: seq<GraphNode>, need: seq<nat>, offs: seq<nat>, live: set<nat>,
                   lists: seq<seq<Chunk>>, bump: seq<nat>, j: nat)
    requires |offs| <= |g| == |need| && |lists| == |bump| == BACKEND_COUNT
    requires Packed(g, need, offs, live, lists, bump) && j in live
    ensures var b := g[j].backend;
            Packed(g, need, offs, live - {j}, lists[b := lists[b] + [Slot(offs, need, j)]], bump)
  {
  }

  /** The node that gets a free chunk, or fresh bytes, keeps everything apart. */
  lemma PackedTake(g: seq<GraphNode>, need: seq<nat>, offs: seq<nat>, live: set<nat>,
                   lists: seq<seq<Chunk>>, bump: seq<nat>, best: nat)
    requires |offs| < |g| == |need| && |lists| == |bump| == BACKEND_COUNT
    requires Packed(g, need, offs, live, lists, bump)
    requires var b := g[|offs|].backend; best < |lists[b]| && need[|offs|] <= lists[b][best].size
    ensures var i := |offs|; var b := g[i].backend; var offs' := offs + [lists[b][best].off];
            && Packed(g, need, offs', live + {i}, lists[b := SwapRemove(lists[b], best)], bump)
            && forall j :: j in live && g[j].backend == b ==> Apart(Slot(offs', need, j), Slot(offs', need, i))
  {
  }

  lemma PackedBump(g: seq<GraphNode>, need: seq<nat>, offs: seq<nat>, live: set<nat>,
                   lists: seq<seq<Chunk>>, bump: seq<nat>)
    requires |offs| < |g| == |need| && |lists| == |bump| == BACKEND_COUNT
    requires Packed(g, need, offs, live, lists, bump)
    ensures var i := |offs|; var b := g[i].backend; var offs' := offs + [bump[b]];
            && Packed(g, need, offs', live + {i}, lists, bump[b := bump[b] + need[i]])
            && forall j :: j in live && g[j].backend == b ==> Apart(Slot(offs', need, j), Slot(offs', need, i))
  {
  }

  ghost predicate Aligned(offs: seq<nat>, lists: seq<seq<Chunk>>, bump: seq<nat>)
    requires |lists| == |bump| == BACKEND_COUNT
  {
    && (forall i :: 0 <= i < |offs| ==> offs[i] % 16 == 0)
    && (forall b, f :: 0 <= b < BACKEND_COUNT && 0 <= f < |lists[b]| ==> lists[b][f].off % 16 == 0)
    && (forall b :: 0 <= b < BACKEND_COUNT ==> bump[b] % 16 == 0)
  }

  /** What the plan promises: slots inside their backend's arena, 16-byte
      aligned, and disjoint whenever two lifetimes on one backend meet. */
  ghost predicate PlanOk(g: seq<GraphNode>, release: seq<nat>, need: seq<nat>, offs: seq<nat>, arena: seq<nat>)
    requires |offs| <= |g| == |need| == |release| && |arena| == BACKEND_COUNT
  {
    && (forall i :: 0 <= i < |offs| ==> offs[i] % 16 == 0 && offs[i] + need[i] <= arena[g[i].backend])
    && (forall j, i :: 0 <= j < i < |offs| && g[j].backend == g[i].backend && i <= release[j] ==>
          Apart(Slot(offs, need, j), Slot(offs, need, i)))
  }

  /** The nodes whose slots are held when step i has released those below j. */
  ghost predicate Held(release: seq<nat>, i: nat, j: nat, live: set<nat>)
    requires i <= |release|
  {
    forall k: nat :: k in live <==> k < i && (release[k] >= i || (release[k] + 1 == i && k >= j))
  }

  /** The free lists after the slots of those nodes below j that were read last at step i - 1
      have joined them, in the order of the nodes. */
  ghost function Released(lists: seq<seq<Chunk>>, g: seq<GraphNode>, release: seq<nat>, need: seq<nat>, offs: seq<nat>,
                          i: nat, j: nat): (r: seq<seq<Chunk>>)
    requires |lists| == BACKEND_COUNT && j <= |offs| <= |g| == |release| == |need|
    ensures |r| == BACKEND_COUNT
  {
    if j == 0 then lists
    else
      var before, b := Released(lists, g, release, need, offs, i, j - 1), g[j - 1].backend;
      if release[j - 1] + 1 == i then before[b := before[b] + [Slot(offs, need, j - 1)]] else before
  }

  /** One placement: in the best chunk, which leaves its list, or in fresh bytes when no chunk
      holds the need. */
  ghost predicate Placed(b: Backend, need: nat, lists: seq<seq<Chunk>>, bump: seq<nat>,
                         lists': seq<seq<Chunk>>, bump': seq<nat>, off: nat)
    requires |lists| == |bump| == BACKEND_COUNT
  {
    exists best: nat :: BestChunk(lists[b], need, best) && PlacedAt(best, b, need, lists, bump, lists', bump', off)
  }

  ghost predicate PlacedAt(best: nat, b: Backend, need: nat, lists: seq<seq<Chunk>>, bump: seq<nat>,
                           lists': seq<seq<Chunk>>, bump': seq<nat>, off: nat)
    requires |lists| == |bump| == BACKEND_COUNT
  {
    if best < |lists[b]| then off == lists[b][best].off && lists' == lists[b := SwapRemove(lists[b], best)] && bump' == bump
    else off == bump[b] && lists' == lists && bump' == bump[b := bump[b] + need]
  }

  /** The free lists and bump pointers before each step of the sweep and at its end. */
  ghost predicate Trace(g: seq<GraphNode>, release: seq<nat>, need: seq<nat>, offs: seq<nat>,
                        ls: seq<seq<seq<Chunk>>>, bs: seq<seq<nat>>) {
    && |offs| <= |g| == |release| == |need| && |ls| == |bs| == |offs| + 1
    && (forall i :: 0 <= i <= |offs| ==> |ls[i]| == |bs[i]| == BACKEND_COUNT)
    && ls[0] == [[], [], []] && bs[0] == [0, 0, 0]
    && forall i :: 0 <= i < |offs| ==>
         Placed(g[i].backend, need[i], Released(ls[i], g, release, need, offs, i, i), bs[i], ls[i + 1], bs[i + 1], offs[i])
  }

  /** Every slot is where best fit puts it, and the arenas end where the bump pointers do. */
  ghost predicate BestFitPlan(g: seq<GraphNode>, release: seq<nat>, need: seq<nat>, offs: seq<nat>, arena: seq<nat>) {
    exists ls, bs :: Trace(g, release, need, offs, ls, bs) && arena == bs[|offs|]
  }

  lemma {:induction false} ReleasedPrefix(lists: seq<seq<Chunk>>, g: seq<GraphNode>, release: seq<nat>, need: seq<nat>,
                                          offs: seq<nat>, off: nat, i: nat, j: nat)
    requires |lists| == BACKEND_COUNT && j <= |offs| < |g| == |release| == |need|
    ensures Released(lists, g, release, need, offs + [off], i, j) == Released(lists, g, release, need, offs, i, j)
  {
    if j > 0 { ReleasedPrefix(lists, g, release, need, offs, off, i, j - 1); }
  }

  lemma TraceStart(g: seq<GraphNode>, release: seq<nat>, need: seq<nat>)
    requires |g| == |release| == |need|
    ensures Trace(g, release, need, [], [[[], [], []]], [[0, 0, 0]])
  {
  }

  /** One more step. */
  lemma TraceMore(g: seq<GraphNode>, release: seq<nat>, need: seq<nat>, offs: seq<nat>, ls: seq<seq<seq<Chunk>>>,
                  bs: seq<seq<nat>>, l: seq<seq<Chunk>>, b: seq<nat>, off: nat)
    requires Trace(g, release, need, offs, ls, bs) && |offs| < |g| && |l| == |b| == BACKEND_COUNT
    requires var i := |offs|;
             Placed(g[i].backend, need[i], Released(ls[i], g, release, need, offs, i, i), bs[i], l, b, off)
    ensures Trace(g, release, need, offs + [off], ls + [l], bs + [b])
  {
    hide Placed;
    var offs', ls', bs' := offs + [off], ls + [l], bs + [b];
    forall i | 0 <= i < |offs'|
      ensures Placed(g[i].backend, need[i], Released(ls'[i], g, release, need, offs', i, i), bs'[i], ls'[i + 1], bs'[i + 1], offs'[i])
    {
      ReleasedPrefixFrom(ls'[i], g, release, need, offs, off, i);
    }
  }

  lemma ReleasedPrefixFrom(lists: seq<seq<Chunk>>, g: seq<GraphNode>, release: seq<nat>, need: seq<nat>, offs: seq<nat>, off: nat, i: nat)
    requires |lists| == BACKEND_COUNT && i <= |offs| < |g| == |release| == |need|
    ensures Released(lists, g, release, need, offs + [off], i, i) == Released(lists, g, release, need, offs, i, i)
  {
    ReleasedPrefix(lists, g, release, need, offs, off, i, i);
  }

  /** The release part of one step of the sweep. */
  method ReleaseFinished(g: seq<GraphNode>, release: seq<nat>, need: seq<nat>, ghost offs: seq<nat>, nodeOff: array<nat>,
                         fl: FreeLists, i: nat, ghost live0: set<nat>) returns (ghost live: set<nat>)
    requires fl.Valid() && fl.n == |g| == |need| == |release| == nodeOff.Length && |offs| == i < |g|
    requires nodeOff[..i] == offs && nodeOff != fl.fcnt && nodeOff != fl.bump
    requires forall k :: 0 <= k < |g| ==> k <= release[k]
    requires Packed(g, need, offs, live0, fl.lists, fl.bump[..]) && Aligned(offs, fl.lists, fl.bump[..])
    requires Held(release, i, 0, live0)
    requires forall b :: 0 <= b < BACKEND_COUNT ==> |fl.lists[b]| + |live0| <= i
    modifies fl, fl.foff, fl.fsz, fl.fcnt
    ensures fl.Valid() && fl.bump[..] == old(fl.bump[..])
    ensures Packed(g, need, offs, live, fl.lists, fl.bump[..]) && Aligned(offs, fl.lists, fl.bump[..])
    ensures Held(release, i, i, live)
    ensures forall b :: 0 <= b < BACKEND_COUNT ==> |fl.lists[b]| + |live| <= i
    ensures fl.lists == Released(old(fl.lists), g, release, need, offs, i, i)
  {
    hide Packed, Aligned, Released, Slot;
    live := live0;
    var j := 0;
    NothingReleased(fl.lists, g, release, need, offs, i);
    while j < i
      invariant 0 <= j <= i && fl.Valid() && fl.bump[..] == old(fl.bump[..]) && nodeOff[..i] == offs
      invariant Packed(g, need, offs, live, fl.lists, fl.bump[..]) && Aligned(offs, fl.lists, fl.bump[..])
      invariant Held(release, i, j, live)
      invariant forall b :: 0 <= b < BACKEND_COUNT ==> |fl.lists[b]| + |live| <= i
      invariant fl.lists == Released(old(fl.lists), g, release, need, offs, i, j)
    {
      ReleasedNext(old(fl.lists), g, release, need, offs, i, j);
      if release[j] + 1 == i {
        var b := g[j].backend;
        assert nodeOff[j] == offs[j] && j in live;
        PackedPush(g, need, offs, live, fl.lists, fl.bump[..], j);
        AlignedPush(g, need, offs, fl.lists, fl.bump[..], j);
        fl.Push(b, nodeOff[j], need[j]);
        live := live - {j};
      }
      j := j + 1;
    }
  }

  lemma AlignedPush(g: seq<GraphNode>, need: seq<nat>, offs: seq<nat>, lists: seq<seq<Chunk>>, bump: seq<nat>, j: nat)
    requires |lists| == |bump| == BACKEND_COUNT && j < |offs| <= |g| == |need| && Aligned(offs, lists, bump)
    ensures var b := g[j].backend; Aligned(offs, lists[b := lists[b] + [Slot(offs, need, j)]], bump)
    ensures Slot(offs, need, j) == Chunk(offs[j], need[j])
  {
  }

  lemma NothingReleased(lists: seq<seq<Chunk>>, g: seq<GraphNode>, release: seq<nat>, need: seq<nat>, offs: seq<nat>, i: nat)
    requires |lists| == BACKEND_COUNT && |offs| <= |g| == |release| == |need|
    ensures Released(lists, g, release, need, offs, i, 0) == lists
  {
  }

  lemma ReleasedNext(lists: seq<seq<Chunk>>, g: seq<GraphNode>, release: seq<nat>, need: seq<nat>, offs: seq<nat>, i: nat, j: nat)
    requires |lists| == BACKEND_COUNT && j < |offs| <= |g| == |release| == |need|
    ensures var before, b := Released(lists, g, release, need, offs, i, j), g[j].backend;
            Released(lists, g, release, need, offs, i, j + 1)
            == if release[j] + 1 == i then before[b := before[b] + [Slot(offs, need, j)]] else before
  {
  }

  /** The placement part of one step: the best free chunk, or fresh bytes. */
  method Place(g: seq<GraphNode>, need: seq<nat>, ghost offs: seq<nat>, fl: FreeLists, i: nat, ghost live: set<nat>)
    returns (off: nat)
    requires fl.Valid() && fl.n == |g| == |need| && |offs| == i < |g| && need[i] % 16 == 0
    requires Packed(g, need, offs, live, fl.lists, fl.bump[..]) && Aligned(offs, fl.lists, fl.bump[..])
    modifies fl, fl.foff, fl.fsz, fl.fcnt, fl.bump
    ensures fl.Valid() && forall b :: 0 <= b < BACKEND_COUNT ==> old(fl.bump[b]) <= fl.bump[b]
    ensures forall b :: 0 <= b < BACKEND_COUNT ==> |fl.lists[b]| <= |old(fl.lists)[b]|
    ensures Packed(g, need, offs + [off], live + {i}, fl.lists, fl.bump[..])
    ensures Aligned(offs + [off], fl.lists, fl.bump[..])
    ensures off + need[i] <= fl.bump[g[i].backend]
    ensures forall j :: j in live && g[j].backend == g[i].backend ==>
              Apart(Slot(offs + [off], need, j), Slot(offs + [off], need, i))
    ensures Placed(g[i].backend, need[i], old(fl.lists), old(fl.bump[..]), fl.lists, fl.bump[..], off)
  {
    var b := g[i].backend;
    var best := fl.BestFit(b, need[i]);
    if best < fl.fcnt[b] {
      PackedTake(g, need, offs, live, fl.lists, fl.bump[..], best);
      off := fl.Take(b, best);
    } else {
      PackedBump(g, need, offs, live, fl.lists, fl.bump[..]);
      off := fl.bump[b];
      ghost var was := fl.bump[..];
      fl.bump[b] := fl.bump[b] + need[i];
      assert fl.bump[..] == was[b := was[b] + need[i]];
    }
  }

  /** One more placed node: the plan so far stays a plan. */
  lemma PlanGrows(g: seq<GraphNode>, release: seq<nat>, need: seq<nat>, offs: seq<nat>, arena: seq<nat>,
                  arena': seq<nat>, off: nat, live: set<nat>)
    requires |offs| < |g| == |need| == |release| && |arena| == |arena'| == BACKEND_COUNT
    requires PlanOk(g, release, need, offs, arena) && Held(release, |offs|, |offs|, live)
    requires forall b :: 0 <= b < BACKEND_COUNT ==> arena[b] <= arena'[b]
    requires off % 16 == 0 && off + need[|offs|] <= arena'[g[|offs|].backend]
    requires forall j :: j in live && g[j].backend == g[|offs|].backend ==>
               Apart(Slot(offs + [off], need, j), Slot(offs + [off], need, |offs|))
    ensures PlanOk(g, release, need, offs + [off], arena')
  {
    var offs' := offs + [off];
    forall j, i | 0 <= j < i < |offs'| && g[j].backend == g[i].backend && i <= release[j]
      ensures Apart(Slot(offs', need, j), Slot(offs', need, i))
    {
      if i < |offs| {
        assert Apart(Slot(offs, need, j), Slot(offs, need, i));
      } else {
        assert j in live;
      }
    }
  }

  lemma HeldNext(release: seq<nat>, i: nat, live: set<nat>)
    requires i < |release| && i <= release[i] && Held(release, i, i, live)
    ensures Held(release, i + 1, 0, live + {i}) && i !in live
  {
  }

  lemma SweepStart(g: seq<GraphNode>, release: seq<nat>, need: seq<nat>, bump: seq<nat>)
    requires |g| == |need| == |release| && bump == [0, 0, 0]
    ensures Packed(g, need, [], {}, [[], [], []], bump) && Aligned([], [[], [], []], bump)
    ensures PlanOk(g, release, need, [], bump) && Held(release, 0, 0, {})
  {
  }

  /** One step of the sweep: what is finished is released, and node i is placed. */
  method SweepStep(g: seq<GraphNode>, release: seq<nat>, need: seq<nat>, ghost sofar: seq<nat>, offs: array<nat>,
                   fl: FreeLists, i: nat, ghost live: set<nat>) returns (off: nat, ghost live': set<nat>)
    requires fl.Valid() && fl.n == |g| == |need| == |release| == offs.Length && |sofar| == i < |g|
    requires offs[..i] == sofar && offs != fl.fcnt && offs != fl.bump
    requires forall k :: 0 <= k < |g| ==> k <= release[k] && need[k] % 16 == 0
    requires Packed(g, need, sofar, live, fl.lists, fl.bump[..]) && Aligned(sofar, fl.lists, fl.bump[..])
    requires Held(release, i, 0, live) && PlanOk(g, release, need, sofar, fl.bump[..])
    requires forall b :: 0 <= b < BACKEND_COUNT ==> |fl.lists[b]| + |live| <= i
    modifies fl, fl.foff, fl.fsz, fl.fcnt, fl.bump
    ensures fl.Valid() && PlanOk(g, release, need, sofar + [off], fl.bump[..]) && Held(release, i + 1, 0, live')
    ensures Packed(g, need, sofar + [off], live', fl.lists, fl.bump[..]) && Aligned(sofar + [off], fl.lists, fl.bump[..])
    ensures forall b :: 0 <= b < BACKEND_COUNT ==> |fl.lists[b]| + |live'| <= i + 1
    ensures Placed(g[i].backend, need[i], Released(old(fl.lists), g, release, need, sofar, i, i), old(fl.bump[..]),
                   fl.lists, fl.bump[..], off)
  {
    hide Packed, Aligned, PlanOk, Held, Slot, Apart, Placed, Released;
    ghost var arena0 := fl.bump[..];
    live' := ReleaseFinished(g, release, need, sofar, offs, fl, i, live);
    off := Place(g, need, sofar, fl, i, live');
    PlanGrows(g, release, need, sofar, arena0, fl.bump[..], off, live');
    HeldNext(release, i, live');
    live' := live' + {i};
  }

  /** The sweep of arena_plan. */
  method Sweep(g: seq<GraphNode>, release: seq<nat>, need: seq<nat>) returns (offs: array<nat>, arena: array<nat>)
    requires |g| == |release| == |need|
    requires forall k :: 0 <= k < |g| ==> k <= release[k] && need[k] % 16 == 0
    ensures fresh(offs) && fresh(arena) && offs.Length == |g| && arena.Length == BACKEND_COUNT
    ensures PlanOk(g, release, need, offs[..], arena[..]) && BestFitPlan(g, release, need, offs[..], arena[..])
  {
    hide Packed, Aligned, PlanOk, Held, Slot, Apart, Placed, Released, Trace;
    offs := new nat[|g|];
    var fl := new FreeLists(|g|);
    ghost var live: set<nat> := {};
    SweepStart(g, release, need, fl.bump[..]);
    TraceStart(g, release, need);
    ghost var ls, bs := [fl.lists], [fl.bump[..]];
    assert offs[..0] == [];
    var i := 0;
    while i < |g|
      invariant 0 <= i <= |g| && fl.Valid() && fl.n == |g|
      invariant fresh(fl) && fresh(fl.foff) && fresh(fl.fsz) && fresh(fl.fcnt) && fresh(fl.bump)
      invariant offs != fl.fcnt && offs != fl.bump
      invariant Packed(g, need, offs[..i], live, fl.lists, fl.bump[..]) && Aligned(offs[..i], fl.lists, fl.bump[..])
      invariant Held(release, i, 0, live)
      invariant forall b :: 0 <= b < BACKEND_COUNT ==> |fl.lists[b]| + |live| <= i
      invariant PlanOk(g, release, need, offs[..i], fl.bump[..])
      invariant |ls| == |bs| == i + 1 && Trace(g, release, need, offs[..i], ls, bs) && ls[i] == fl.lists && bs[i] == fl.bump[..]
    {
      ghost var sofar := offs[..i];
      var off;
      off, live := SweepStep(g, release, need, sofar, offs, fl, i, live);
      offs[i] := off;
      assert offs[..i + 1] == sofar + [off];
      TraceMore(g, release, need, sofar, ls, bs, fl.lists, fl.bump[..], off);
      ls, bs := ls + [fl.lists], bs + [fl.bump[..]];
      i := i + 1;
    }
    assert offs[..i] == offs[..];
    arena := fl.bump;
  }

  /** What best fit and release come to on a chain, where every node reads only the one before:
      slots of one size alternate between two places, however long the chain is. */
  lemma ChainNeedsTwo(g: seq<GraphNode>, release: seq<nat>, need: seq<nat>, offs: seq<nat>, arena: seq<nat>, b: Backend, w: nat)
    requires |offs| == |g| == |release| == |need| && BestFitPlan(g, release, need, offs, arena) && 0 < w < UINT64_MAX
    requires forall i :: 0 <= i < |g| ==> g[i].backend == b && need[i] == w
    requires forall i :: 0 <= i < |g| ==> release[i] == if i + 1 < |g| then i + 1 else i
    ensures forall i :: 0 <= i < |g| ==> offs[i] == if i % 2 == 0 then 0 else w
    ensures |arena| == BACKEND_COUNT && arena[b] == if |g| < 2 then |g| * w else 2 * w
  {
    hide Released, Placed;
    var ls, bs :| Trace(g, release, need, offs, ls, bs) && arena == bs[|offs|];
    forall i | 0 <= i < |g| ensures offs[i] == if i % 2 == 0 then 0 else w {
      ChainStep(g, release, need, offs, ls, bs, b, w, i + 1);
    }
    ChainStep(g, release, need, offs, ls, bs, b, w, |g|);
  }

  lemma {:induction false} ChainStep(g: seq<GraphNode>, release: seq<nat>, need: seq<nat>, offs: seq<nat>,
                                     ls: seq<seq<seq<Chunk>>>, bs: seq<seq<nat>>, b: Backend, w: nat, n: nat)
    requires |offs| == |g| == |release| == |need| && Trace(g, release, need, offs, ls, bs) && 0 < w < UINT64_MAX && n <= |g|
    requires forall i :: 0 <= i < |g| ==> g[i].backend == b && need[i] == w
    requires forall i :: 0 <= i < |g| ==> release[i] == if i + 1 < |g| then i + 1 else i
    ensures |ls| == |bs| == |g| + 1 && |ls[n]| == |bs[n]| == BACKEND_COUNT
    ensures ls[n][b] == [] && bs[n][b] == (if n < 2 then n * w else 2 * w)
    ensures forall i :: 0 <= i < n ==> offs[i] == if i % 2 == 0 then 0 else w
  {
    hide Released, Placed;
    if n > 0 {
      var i := n - 1;
      ChainStep(g, release, need, offs, ls, bs, b, w, i);
      ChainReleased(ls[i], g, release, need, offs, b, i, i);
      var mid := Released(ls[i], g, release, need, offs, i, i);
      assert Placed(b, w, mid, bs[i], ls[i + 1], bs[i + 1], offs[i]);
      if i < 2 { PlacedFresh(b, w, mid, bs[i], ls[i + 1], bs[i + 1], offs[i]); }
      else { PlacedReused(b, w, mid, bs[i], ls[i + 1], bs[i + 1], offs[i], Slot(offs, need, i - 2)); }
    }
  }

  lemma PlacedFresh(b: Backend, w: nat, lists: seq<seq<Chunk>>, bump: seq<nat>, lists': seq<seq<Chunk>>, bump': seq<nat>, off: nat)
    requires |lists| == |bump| == BACKEND_COUNT && Placed(b, w, lists, bump, lists', bump', off) && lists[b] == []
    ensures off == bump[b] && lists' == lists && bump' == bump[b := bump[b] + w]
  {
  }

  lemma PlacedReused(b: Backend, w: nat, lists: seq<seq<Chunk>>, bump: seq<nat>, lists': seq<seq<Chunk>>, bump': seq<nat>, off: nat, c: Chunk)
    requires |lists| == |bump| == BACKEND_COUNT && Placed(b, w, lists, bump, lists', bump', off) && lists[b] == [c] && HoldsNeed(c, w)
    ensures off == c.off && lists' == lists[b := []] && bump' == bump
  {
    var best: nat :| BestChunk(lists[b], w, best) && PlacedAt(best, b, w, lists, bump, lists', bump', off);
    assert HoldsNeed(lists[b][0], w);
    assert best == 0 && SwapRemove(lists[b], 0) == [];
  }

  /** At step i of a chain the slot of node i - 2 joins the list. */
  lemma {:induction false} ChainReleased(lists: seq<seq<Chunk>>, g: seq<GraphNode>, release: seq<nat>, need: seq<nat>,
                                         offs: seq<nat>, b: Backend, i: nat, j: nat)
    requires |lists| == BACKEND_COUNT && j <= i < |g| == |offs| == |release| == |need| && lists[b] == []
    requires forall k :: 0 <= k < |g| ==> g[k].backend == b && release[k] == if k + 1 < |g| then k + 1 else k
    ensures Released(lists, g, release, need, offs, i, j)[b] == if i >= 2 && j > i - 2 then [Slot(offs, need, i - 2)] else []
  {
    hide Slot;
    if j > 0 { ChainReleased(lists, g, release, need, offs, b, i, j - 1); }
  }

  /** arena_plan: widths, byte needs, lifetimes and the sweep. */
  method Plan(g: seq<GraphNode>, nUbatch: nat)
    returns (dims: seq<nat>, need: seq<nat>, release: seq<nat>, offs: seq<nat>, arena: seq<nat>)
    requires Backward(g)
    ensures IsDims(g, dims) && IsNeed(g, dims, nUbatch, need) && IsRelease(g, release)
    ensures |offs| == |g| && |arena| == BACKEND_COUNT && PlanOk(g, release, need, offs, arena)
    ensures BestFitPlan(g, release, need, offs, arena)
  {
    var sink := MarkSinks(g);
    dims := ComputeDims(g);
    need := [];
    while |need| < |g|
      invariant |need| <= |g|
      invariant forall i :: 0 <= i < |need| ==> need[i] == NeedOf(g[i], Sink(g, i), dims[i], nUbatch)
    {
      var i := |need|;
      need := need + [NeedOf(g[i], sink[i], dims[i], nUbatch)];
    }
    var rel := ComputeRelease(g);
    release := rel[..];
    var o, a := Sweep(g, release, need);
    offs, arena := o[..], a[..];
  }
}
