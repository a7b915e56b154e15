/** The executor and the micro-batcher of src/graph.c, run over the planned,
    aliased arena slots, a key-value cache and recurrent state buffers. */
module Executor {
  import opened Graph
  import opened ArenaPlan
  import opened GraphValue
  import opened ArenaMemory

  /** Token ids in a slot are the rows of the input node. */
  lemma TokenColumn(m: Model, g: seq<GraphNode>, t: seq<Word>, pos: nat, n: nat, mem: seq<Word>, off: nat)
    requires Backward(g) && g != [] && g[0].op.Input?
    requires pos + n <= |t| && off + n <= |mem| && mem[off..off + n] == t[pos..pos + n]
    ensures Holds(mem, off, 1, Column(m, g, t, 0, pos, pos + n))
  {
    hide Backward, Sources, StateAt;
    var rows := Column(m, g, t, 0, pos, pos + n);
    forall r | 0 <= r < n ensures HoldsRow(mem, off + r * 1, 1, rows[r]) {
      assert rows[r] == Val(m, g, t, 0, pos + r) == [t[pos + r]];
      assert mem[off + r] == mem[off..off + n][r] == t[pos..pos + n][r];
      assert mem[off + r..off + r + 1] == [t[pos + r]];
    }
  }

  lemma CopyFront(mem: seq<Word>, at: nat, w: nat, k: nat, old_: seq<Word>)
    requires at + w <= |mem| && k <= w && k <= |old_|
    ensures (mem[at..at + k] + old_[k..])[..k] == mem[at..at + w][..k]
  {
  }

  lemma AppendChunk(buf: seq<Word>, buf': seq<Word>, t: seq<Word>, lo: nat, n: nat)
    requires lo + n <= |buf| && lo + n <= |t|
    requires buf[..lo] == t[..lo] && buf' == Splice(buf, lo, t[lo..lo + n])
    ensures buf'[..lo + n] == t[..lo + n] && buf'[lo..lo + n] == t[lo..lo + n]
  {
  }

  /** The first row of a slot. */
  lemma FirstRow(m: Model, g: seq<GraphNode>, t: seq<Word>, i: nat, p: nat, mem: seq<Word>, off: nat, w: nat)
    requires Backward(g) && i < |g| && p < |t| && Holds(mem, off, w, Column(m, g, t, i, p, p + 1))
    ensures off + w <= |mem| && mem[off..off + w] == Val(m, g, t, i, p)
  {
    hide Backward, Sources, StateAt, Val;
    var rows := Column(m, g, t, i, p, p + 1);
    assert HoldsRow(mem, off + 0 * w, w, rows[0]);
  }

  /** A graph as the builders make it, for a model whose row functions return
      rows of the widths of the graph, none of them empty. */
  ghost predicate Buildable(m: Model, g: seq<GraphNode>, nLayers: nat, nStates: nat) {
    && Built(g)
    && (forall i :: 0 <= i < |g| && g[i].op.Attn? ==> g[i].op.layer < nLayers)
    && (forall i :: 0 <= i < |g| && g[i].op.Recur? ==> g[i].op.state < nStates)
    && (forall dims :: IsDims(g, dims) ==> Widths(m, g, dims))
    && (forall dims :: IsDims(g, dims) ==> forall i :: 0 < i < |g| ==> dims[i] > 0)
  }

  lemma BuildableFacts(m: Model, g: seq<GraphNode>, nLayers: nat, nStates: nat)
    requires Buildable(m, g, nLayers, nStates)
    ensures Built(g) && Backward(g) && |g| >= 2
    ensures forall i :: 0 <= i < |g| && g[i].op.Attn? ==> g[i].op.layer < nLayers
    ensures forall i :: 0 <= i < |g| && g[i].op.Recur? ==> g[i].op.state < nStates
  {
  }

  method MakePlan(m: Model, g: seq<GraphNode>, nUbatch: nat, nLayers: nat, nStates: nat) returns (pl: Layout)
    requires Buildable(m, g, nLayers, nStates)
    ensures Planned(g, nUbatch, pl) && |pl.dims| == |pl.offs| == |pl.release| == |pl.need| == |g|
    ensures Widths(m, g, pl.dims) && |pl.size| == BACKEND_COUNT
    ensures forall i :: 0 < i < |g| ==> pl.dims[i] > 0
  {
    hide Widths, Backward, PlanOk;
    BuildableFacts(m, g, nLayers, nStates);
    var dims, need, release, offs, size := Plan(g, nUbatch);
    pl := Layout(dims, need, release, offs, size);
    assert IsDims(g, pl.dims);
  }

  method NewArenas(size: seq<nat>) returns (arena: seq<array<Word>>)
    requires |size| == BACKEND_COUNT
    ensures |arena| == BACKEND_COUNT && forall b :: 0 <= b < BACKEND_COUNT ==> fresh(arena[b]) && size[b] <= 4 * arena[b].Length
    ensures forall b, b' :: 0 <= b < b' < BACKEND_COUNT ==> arena[b] != arena[b']
  {
    var a0 := new Word[size[0] / 4 + 1](_ => Float(0.0));
    var a1 := new Word[size[1] / 4 + 1](_ => Float(0.0));
    var a2 := new Word[size[2] / 4 + 1](_ => Float(0.0));
    arena := [a0, a1, a2];
  }

  method NewStates(m: Model, g: seq<GraphNode>, n: nat) returns (st: array<RecState>)
    requires Built(g)
    requires forall i :: 0 <= i < |g| && g[i].op.Recur? ==> g[i].op.state < n
    ensures fresh(st) && st.Length == n
    ensures forall a :: 0 <= a < |g| && g[a].op.Recur? ==> st[g[a].op.state] == m.start(a)
  {
    st := new RecState[n](_ => []);
    var i := 0;
    while i < |g|
      invariant 0 <= i <= |g|
      invariant forall a :: 0 <= a < i && g[a].op.Recur? ==> st[g[a].op.state] == m.start(a)
    {
      if g[i].op.Recur? { st[g[i].op.state] := m.start(i); }
      i := i + 1;
    }
  }

  class Session {
    const m: Model
    const g: seq<GraphNode>
    const ctxSize: nat
    const nUbatch: nat
    const nVocab: nat
    const pl: Layout
    /** One arena per backend. */
    const arena: seq<array<Word>>
    /** Key and value rows by layer and position. */
    const kc: array2<RowData>
    const vc: array2<RowData>
    /** Recurrent state buffers by handle. */
    const state: array<RecState>
    const tokens: array<Word>
    var nTokens: nat
    var logits: RowData

    /** What graph building, planning and cache building establish. */
    ghost predicate Wf() {
      && Backward(g) && |pl.dims| == |pl.offs| == |pl.release| == |pl.need| == |g|
      && Built(g) && Planned(g, nUbatch, pl) && Widths(m, g, pl.dims)
      && nUbatch >= 1 && g[0].ne0 == nUbatch && |pl.size| == BACKEND_COUNT
      && (forall i :: 0 < i < |g| ==> pl.dims[i] > 0)
      && ArenasOk() && (forall b :: 0 <= b < BACKEND_COUNT ==> pl.size[b] <= 4 * arena[b].Length)
      && tokens !in arena && tokens.Length == ctxSize && kc != vc
      && kc.Length0 == vc.Length0 && kc.Length1 == vc.Length1 == ctxSize
      && (forall i :: 0 <= i < |g| && g[i].op.Attn? ==> g[i].op.layer < kc.Length0)
      && (forall i :: 0 <= i < |g| && g[i].op.Recur? ==> g[i].op.state < state.Length)
    }

    ghost predicate ArenasOk() {
      && |arena| == BACKEND_COUNT
      && (forall b, b' :: 0 <= b < b' < BACKEND_COUNT ==> arena[b] != arena[b'])
    }

    ghost function Mem(): (r: seq<seq<Word>>)
      requires |arena| == BACKEND_COUNT
      reads arena
      ensures |r| == BACKEND_COUNT
      ensures forall b :: 0 <= b < BACKEND_COUNT ==> r[b] == arena[b][..]
    {
      [arena[0][..], arena[1][..], arena[2][..]]
    }

    /** The cache of attention node a holds its keys and values before c. */
    ghost predicate KvOk(t: seq<Word>, a: nat, c: nat)
      requires Wf() && a < |g| && g[a].op.Attn? && c <= |t|
      reads kc, vc
    {
      && c <= ctxSize
      && (forall p :: 0 <= p < c ==> kc[g[a].op.layer, p] == Val(m, g, t, g[a].src[1], p))
      && (forall p :: 0 <= p < c ==> vc[g[a].op.layer, p] == Val(m, g, t, g[a].src[2], p))
    }

    ghost predicate StateOk(t: seq<Word>, a: nat, c: nat)
      requires Wf() && a < |g| && g[a].op.Recur? && c <= |t|
      reads state
    {
      state[g[a].op.state] == StateAt(m, g, t, a, c)
    }

    /** Caches and states have seen n more positions for the nodes below i. */
    ghost predicate Advanced(t: seq<Word>, i: nat, pos: nat, n: nat)
      requires Wf() && i <= |g| && pos + n <= |t|
      reads kc, vc, state
    {
      && (forall a :: 0 <= a < |g| && g[a].op.Attn? ==> KvOk(t, a, if a < i then pos + n else pos))
      && (forall a :: 0 <= a < |g| && g[a].op.Recur? ==> StateOk(t, a, if a < i then pos + n else pos))
    }

    lemma SourceFacts(i: nat, k: nat)
      requires Wf() && i < |g| && k < |g[i].src|
      ensures g[i].src[k] < i <= pl.release[g[i].src[k]]
    {
      SourceHeld(g, pl.release, i, k);
    }

    /** session_create, graph_prepare and the cache builder, for a built graph
        (no allocation fails). */
    constructor (m: Model, g: seq<GraphNode>, ctxSize: nat, nUbatch: nat, nVocab: nat, nLayers: nat, nStates: nat)
      requires Buildable(m, g, nLayers, nStates) && nUbatch >= 1 && g[0].ne0 == nUbatch
      ensures Wf() && Synced([]) && this.m == m && this.g == g && this.nUbatch == nUbatch && this.nVocab == nVocab
      ensures this.ctxSize == ctxSize && logits == seq(nVocab, _ => Float(0.0))
      ensures fresh(kc) && fresh(vc) && fresh(state) && fresh(tokens) && forall b :: 0 <= b < |arena| ==> fresh(arena[b])
    {
      hide Buildable, Planned, Widths, Built, Backward;
      BuildableFacts(m, g, nLayers, nStates);
      this.m, this.g, this.ctxSize, this.nUbatch, this.nVocab := m, g, ctxSize, nUbatch, nVocab;
      var plan := MakePlan(m, g, nUbatch, nLayers, nStates);
      pl := plan;
      var ar := NewArenas(plan.size);
      arena := ar;
      var k0 := new RowData[nLayers, ctxSize]((l, p) => []);
      var v0 := new RowData[nLayers, ctxSize]((l, p) => []);
      kc, vc := k0, v0;
      var st := NewStates(m, g, nStates);
      state := st;
      var tk := new Word[ctxSize](_ => Id(0));
      tokens := tk;
      nTokens := 0;
      logits := seq(nVocab, _ => Float(0.0));
      new;
      assert tokens !in arena;
    }

    // ----------------------------------------------------------- arena access

    method WriteRow(b: Backend, at: nat, row: RowData)
      requires ArenasOk() && at + |row| <= arena[b].Length
      modifies arena[b]
      ensures Mem() == old(Mem())[b := Splice(old(Mem())[b], at, row)]
    {
      var k := 0;
      while k < |row|
        invariant 0 <= k <= |row|
        invariant arena[b][..] == old(arena[b][..])[..at] + row[..k] + old(arena[b][..])[at + k..]
      {
        arena[b][at + k] := row[k];
        k := k + 1;
      }
      assert row[..k] == row;
      assert forall c :: 0 <= c < BACKEND_COUNT && c != b ==> arena[c][..] == old(arena[c][..]);
    }

    /** The source rows of node i for row q of the batch. */
    method Gather(i: nat, q: nat, pos: nat, n: nat, ghost t: seq<Word>) returns (args: seq<RowData>)
      requires Wf() && i < |g| && q < n <= nUbatch && pos + n <= |t|
      requires Ready(m, g, pl, t, Mem(), i, pos, n)
      ensures args == Sources(m, g, t, i, pos + q)
    {
      hide Built, Planned, Widths, Ready, Val, ArenasOk, Backward;
      args := [];
      while |args| < |g[i].src|
        invariant |args| <= |g[i].src|
        invariant args == Sources(m, g, t, i, pos + q)[..|args|]
      {
        var row := ReadSource(i, |args|, q, pos, n, t);
        args := args + [row];
      }
    }

    method ReadSource(i: nat, k: nat, q: nat, pos: nat, n: nat, ghost t: seq<Word>) returns (row: RowData)
      requires Wf() && i < |g| && k < |g[i].src| && q < n <= nUbatch && pos + n <= |t|
      requires Ready(m, g, pl, t, Mem(), i, pos, n)
      ensures row == Val(m, g, t, g[i].src[k], pos + q)
    {
      hide Built, Planned, Backward, Widths, Val;
      SourceFacts(i, k);
      var j := g[i].src[k];
      var b, w := g[j].backend, RowWidth(g, pl, j);
      var at := WordOff(pl, j) + q * w;
      assert HasRows(m, g, pl, t, Mem(), j, pos, n);
      assert HoldsRow(Mem()[b], at, w, Column(m, g, t, j, pos, pos + n)[q]);
      row := arena[b][at..at + w];
    }
  
    /** The rows of node i written so far: its values from position from on. */
    ghost predicate Written(t: seq<Word>, i: nat, from: nat, p: nat)
      requires Wf() && i < |g| && from + p <= |t|
      reads arena
    {
      Holds(Mem()[g[i].backend], WordOff(pl, i), pl.dims[i], Column(m, g, t, i, from, from + p))
    }

    /** Batch rows a node computes: a sink only the last one. */
    ghost predicate RowsOf(i: nat, n: nat, r: nat, base: nat) {
      if Sink(g, i) then r == 1 && base + 1 == n else r == n && base == 0
    }

    /** dst row p of node i. */
    method PutRow(i: nat, p: nat, r: nat, base: nat, pos: nat, n: nat, ghost t: seq<Word>, row: RowData)
      requires Wf() && 0 < i < |g| && n <= nUbatch && pos + n <= |t|
      requires RowsOf(i, n, r, base) && p < r
      requires Ready(m, g, pl, t, Mem(), i, pos, n) && Written(t, i, pos + base, p)
      requires row == Val(m, g, t, i, pos + base + p) && |row| == pl.dims[i]
      modifies arena
      ensures Ready(m, g, pl, t, Mem(), i, pos, n) && Written(t, i, pos + base, p + 1)
    {
      hide Ready, Widths, Val, IsDims, IsNeed, IsRelease, PlanOk, Column, Holds, Splice;
      var b, od := g[i].backend, pl.dims[i];
      var at := WordOff(pl, i) + p * od;
      ghost var mem := Mem();
      SlotFits(g, nUbatch, pl, mem, i, r);
      RowInside(p, r, od);
      ReadyFrame(m, g, nUbatch, pl, t, mem, i, pos, n, at, row);
      ColumnNext(t, i, pos + base, p);
      HoldsExtend(mem[b], WordOff(pl, i), od, Column(m, g, t, i, pos + base, pos + base + p), row);
      WriteRow(b, at, row);
    }

    lemma ColumnNext(t: seq<Word>, i: nat, from: nat, p: nat)
      requires Backward(g) && i < |g| && from + p < |t|
      ensures Column(m, g, t, i, from, from + p + 1) == Column(m, g, t, i, from, from + p) + [Val(m, g, t, i, from + p)]
    {
    }

    /** A row operator: row p of the result from row base+p of the sources. */
    method RunRow(i: nat, r: nat, base: nat, pos: nat, n: nat, ghost t: seq<Word>)
      requires Wf() && 0 < i < |g| && g[i].op.Row? && n <= nUbatch && pos + n <= |t| && RowsOf(i, n, r, base)
      requires Ready(m, g, pl, t, Mem(), i, pos, n)
      modifies arena
      ensures Ready(m, g, pl, t, Mem(), i, pos, n) && Written(t, i, pos + base, r)
    {
      hide Ready, Built, Planned, Column, Holds, Backward;
      var p := 0;
      NothingWritten(t, i, pos + base);
      while p < r
        invariant 0 <= p <= r
        invariant Ready(m, g, pl, t, Mem(), i, pos, n) && Written(t, i, pos + base, p)
      {
        var args := Gather(i, base + p, pos, n, t);
        PutRow(i, p, r, base, pos, n, t, m.row(i, pos + base + p, args));
        p := p + 1;
      }
    }

    lemma NothingWritten(t: seq<Word>, i: nat, from: nat)
      requires Wf() && i < |g| && from <= |t|
      ensures Written(t, i, from, 0)
    {
    }
  
    /** The rows of one layer of a cache at positions lo..hi-1. */
    method CacheBlock(cache: array2<RowData>, layer: nat, lo: nat, hi: nat) returns (rows: seq<RowData>)
      requires layer < cache.Length0 && lo <= hi <= cache.Length1
      ensures |rows| == hi - lo && forall k :: 0 <= k < hi - lo ==> rows[k] == cache[layer, lo + k]
    {
      rows := [];
      while |rows| < hi - lo
        invariant |rows| <= hi - lo
        invariant forall k :: 0 <= k < |rows| ==> rows[k] == cache[layer, lo + k]
      {
        rows := rows + [cache[layer, lo + |rows|]];
      }
    }

    /** The write-through of attention: the batch's keys and values go to the
        cache at their absolute positions, before any row is attended. */
    method WriteThrough(i: nat, pos: nat, n: nat, ghost t: seq<Word>)
      requires Wf() && 0 < i < |g| && g[i].op.Attn? && n <= nUbatch && pos + n <= |t| && pos + n <= ctxSize
      requires Ready(m, g, pl, t, Mem(), i, pos, n) && KvOk(t, i, pos)
      modifies kc, vc
      ensures KvOk(t, i, pos + n)
      ensures forall l, p :: 0 <= l < kc.Length0 && l != g[i].op.layer && 0 <= p < ctxSize ==>
                kc[l, p] == old(kc[l, p]) && vc[l, p] == old(vc[l, p])
    {
      hide Ready, Built, Planned, Widths, Column, Holds, Backward, Val;
      var layer := g[i].op.layer;
      AttnSources(i);
      var q := 0;
      while q < n
        invariant 0 <= q <= n && KvOk(t, i, pos + q)
        invariant forall l, p :: 0 <= l < kc.Length0 && l != layer && 0 <= p < ctxSize ==>
                    kc[l, p] == old(kc[l, p]) && vc[l, p] == old(vc[l, p])
      {
        var kr := ReadSource(i, 1, q, pos, n, t);
        var vr := ReadSource(i, 2, q, pos, n, t);
        kc[layer, pos + q] := kr;
        vc[layer, pos + q] := vr;
        q := q + 1;
      }
    }

    lemma AttnSources(i: nat)
      requires Wf() && i < |g| && g[i].op.Attn?
      ensures |g[i].src| == 3 && g[i].op.layer < kc.Length0
    {
    }

    /** One query row: the visible block of the cache, then the row function. */
    method AttendRow(i: nat, q: nat, pos: nat, n: nat, ghost t: seq<Word>) returns (row: RowData)
      requires Wf() && 0 < i < |g| && g[i].op.Attn? && q < n <= nUbatch && pos + n <= |t| && pos + n <= ctxSize
      requires Ready(m, g, pl, t, Mem(), i, pos, n) && KvOk(t, i, pos + n)
      ensures row == Val(m, g, t, i, pos + q) && |row| == pl.dims[i]
    {
      hide Ready, Built, Planned, Widths, Column, Holds, Backward, Val;
      var layer, win := g[i].op.layer, g[i].op.window;
      AttnSources(i);
      var query := ReadSource(i, 0, q, pos, n, t);
      var nKeys := pos + q + 1;
      var start := if win != 0 && nKeys > win then nKeys - win else 0;
      var keys := CacheBlock(kc, layer, start, nKeys);
      var values := CacheBlock(vc, layer, start, nKeys);
      row := m.attn(i, query, keys, values);
      AttnValue(t, i, pos + q, query, keys, values);
    }

    /** Causal, windowed attention over the cache. */
    method RunAttn(i: nat, pos: nat, n: nat, ghost t: seq<Word>)
      requires Wf() && 0 < i < |g| - 1 && g[i].op.Attn? && n <= nUbatch && pos + n <= |t| && pos + n <= ctxSize
      requires Ready(m, g, pl, t, Mem(), i, pos, n) && KvOk(t, i, pos)
      modifies arena, kc, vc
      ensures Ready(m, g, pl, t, Mem(), i, pos, n) && Written(t, i, pos, n) && KvOk(t, i, pos + n)
      ensures forall l, p :: 0 <= l < kc.Length0 && l != g[i].op.layer && 0 <= p < ctxSize ==>
                kc[l, p] == old(kc[l, p]) && vc[l, p] == old(vc[l, p])
    {
      hide Ready, Built, Planned, Widths, Column, Holds, Backward, Val, Written;
      AttnSources(i);
      NotSink(i);
      WriteThrough(i, pos, n, t);
      var q := 0;
      NothingWritten(t, i, pos);
      while q < n
        invariant 0 <= q <= n
        invariant Ready(m, g, pl, t, Mem(), i, pos, n) && Written(t, i, pos, q)
        modifies arena
      {
        var row := AttendRow(i, q, pos, n, t);
        PutRow(i, q, n, 0, pos, n, t, row);
        q := q + 1;
      }
    }

    lemma NotSink(i: nat)
      requires Wf() && i < |g| - 1
      ensures !Sink(g, i)
    {
    }

    lemma AttnValue(t: seq<Word>, i: nat, p: nat, query: RowData, keys: seq<RowData>, values: seq<RowData>)
      requires Wf() && i < |g| && g[i].op.Attn? && p < |t| && |g[i].src| == 3
      requires query == Val(m, g, t, g[i].src[0], p)
      requires var lo := WindowStart(g[i].op.window, p);
               && |keys| == |values| == p + 1 - lo
               && (forall k :: 0 <= k < |keys| ==> keys[k] == Val(m, g, t, g[i].src[1], lo + k))
               && (forall k :: 0 <= k < |keys| ==> values[k] == Val(m, g, t, g[i].src[2], lo + k))
      ensures m.attn(i, query, keys, values) == Val(m, g, t, i, p)
      ensures |Val(m, g, t, i, p)| == pl.dims[i]
    {
      hide Built, Planned, Sources, StateAt;
      var lo := WindowStart(g[i].op.window, p);
      assert keys == Column(m, g, t, g[i].src[1], lo, p + 1);
      assert values == Column(m, g, t, g[i].src[2], lo, p + 1);
    }

    /** A recurrence: row by row, each row advancing the state buffer. */
    method RunRecur(i: nat, pos: nat, n: nat, ghost t: seq<Word>)
      requires Wf() && 0 < i < |g| - 1 && g[i].op.Recur? && n <= nUbatch && pos + n <= |t|
      requires Ready(m, g, pl, t, Mem(), i, pos, n) && StateOk(t, i, pos)
      modifies arena, state
      ensures Ready(m, g, pl, t, Mem(), i, pos, n) && Written(t, i, pos, n) && StateOk(t, i, pos + n)
      ensures forall h :: 0 <= h < state.Length && h != g[i].op.state ==> state[h] == old(state[h])
    {
      hide Ready, Built, Planned, Column, Holds, Backward;
      var st := g[i].op.state;
      NotSink(i);
      var p := 0;
      NothingWritten(t, i, pos);
      while p < n
        invariant 0 <= p <= n && StateOk(t, i, pos + p)
        invariant Ready(m, g, pl, t, Mem(), i, pos, n) && Written(t, i, pos, p)
        invariant forall h :: 0 <= h < state.Length && h != st ==> state[h] == old(state[h])
      {
        var args := Gather(i, p, pos, n, t);
        var row := m.out(i, state[st], args);
        state[st] := m.step(i, state[st], args);
        PutRow(i, p, n, 0, pos, n, t, row);
        p := p + 1;
      }
    }
  
    // ------------------------------------------------------------- one batch

    lemma ReadyNext(t: seq<Word>, mem: seq<seq<Word>>, i: nat, pos: nat, n: nat)
      requires Wf() && i < |g| && pos + n <= |t| && |mem| == BACKEND_COUNT
      requires Ready(m, g, pl, t, mem, i, pos, n)
      requires i < pl.release[i] ==> HasRows(m, g, pl, t, mem, i, pos, n)
      ensures Ready(m, g, pl, t, mem, i + 1, pos, n)
    {
    }

    lemma ReleaseRange(i: nat)
      requires Wf() && i < |g|
      ensures i <= pl.release[i] < |g|
    {
    }

    /** Binding the token ids to the input leaf, which refuses a batch above its capacity. */
    method BindTokens(pos: nat, n: nat, ghost t: seq<Word>) returns (ok: bool)
      requires Wf() && n > 0 && pos + n <= |t| && pos + n <= ctxSize
      requires tokens[pos..pos + n] == t[pos..pos + n]
      modifies arena
      ensures ok == (n <= nUbatch)
      ensures ok ==> HasRows(m, g, pl, t, Mem(), 0, pos, n)
      ensures !ok ==> Mem() == old(Mem())
    {
      hide Built, Planned, Widths, Holds, Backward, Val, Column;
      OnlyInput();
      var i := 0;
      while i < |g|
        invariant 0 <= i <= |g|
        invariant i == 0 ==> Mem() == old(Mem())
        invariant i > 0 ==> n <= nUbatch && HasRows(m, g, pl, t, Mem(), 0, pos, n)
      {
        if g[i].op.Input? {
          if n > g[i].ne0 { return false; }
          var b := g[i].backend;
          SlotFits(g, nUbatch, pl, Mem(), i, n);
          ghost var mem := Mem()[b];
          var ids := tokens[pos..pos + n];
          WriteRow(b, WordOff(pl, i), ids);
          assert Splice(mem, WordOff(pl, i), ids)[WordOff(pl, i)..WordOff(pl, i) + n] == ids;
          TokenColumn(m, g, t, pos, n, Mem()[b], WordOff(pl, i));
        }
        i := i + 1;
      }
      return true;
    }

    lemma OnlyInput()
      requires Wf()
      ensures forall i :: 0 <= i < |g| ==> (g[i].op.Input? <==> i == 0)
      ensures |g| >= 2 && !g[|g| - 1].op.Input? && g[|g| - 1].op.Row?
    {
    }

    lemma OpsDistinct(i: nat, a: nat)
      requires Wf() && i < |g| && a < |g| && i != a
      ensures g[i].op.Attn? && g[a].op.Attn? ==> g[i].op.layer != g[a].op.layer && g[a].op.layer < kc.Length0
      ensures g[i].op.Recur? && g[a].op.Recur? ==> g[i].op.state != g[a].op.state && g[a].op.state < state.Length
    {
    }

    /** The operator table. */
    method Dispatch(i: nat, r: nat, base: nat, pos: nat, n: nat, ghost t: seq<Word>)
      requires Wf() && 0 < i < |g| && 0 < n <= nUbatch && pos + n <= |t| && pos + n <= ctxSize
      requires RowsOf(i, n, r, base)
      requires Ready(m, g, pl, t, Mem(), i, pos, n) && Advanced(t, i, pos, n)
      modifies arena, kc, vc, state
      ensures Ready(m, g, pl, t, Mem(), i, pos, n) && Advanced(t, i + 1, pos, n)
      ensures Written(t, i, pos + base, r)
    {
      hide Built, Planned, Widths, Holds, Backward, Val, Column, Ready, StateAt, Written;
      OnlyInput();
      SinkIsLast(i);
      match g[i].op {
        case Row => RunRow(i, r, base, pos, n, t);
        case Attn(_, _) => RunAttn(i, pos, n, t);
        case Recur(_) => RunRecur(i, pos, n, t);
        case Input => assert false;
      }
      forall a | 0 <= a < |g| && a != i {
        OpsDistinct(i, a);
      }
    }

    /** One node of the walk. */
    method RunNode(i: nat, pos: nat, n: nat, ghost t: seq<Word>) returns (ok: bool)
      requires Wf() && 0 < i < |g| && 0 < n <= nUbatch && pos + n <= |t| && pos + n <= ctxSize
      requires Ready(m, g, pl, t, Mem(), i, pos, n) && Advanced(t, i, pos, n)
      modifies arena, kc, vc, state
      ensures ok && Ready(m, g, pl, t, Mem(), i + 1, pos, n) && Advanced(t, i + 1, pos, n)
      ensures i == |g| - 1 ==> Written(t, i, pos + n - 1, 1)
    {
      hide Built, Planned, Widths, Holds, Backward, Val, Column, Ready;
      OnlyInput();
      ReleaseRange(i);
      var sink := i == |g| - 1;
      SinkIsLast(i);
      var od := pl.dims[i];
      var r, base := if sink then 1 else n, if sink then n - 1 else 0;
      if od == 0 || r == 0 { return false; }
      SlotFits(g, nUbatch, pl, Mem(), i, r);
      if r * od * 4 > pl.need[i] { return false; }
      Dispatch(i, r, base, pos, n, t);
      ReadyNext(t, Mem(), i, pos, n);
      return true;
    }

    lemma SinkIsLast(i: nat)
      requires Wf() && i < |g|
      ensures Sink(g, i) <==> i == |g| - 1
    {
    }
  
    /** Before the first node and after the last. */
    lemma AdvancedStart(t: seq<Word>, pos: nat, n: nat)
      requires Wf() && pos + n <= |t|
      requires forall a :: 0 <= a < |g| && g[a].op.Attn? ==> KvOk(t, a, pos)
      requires forall a :: 0 <= a < |g| && g[a].op.Recur? ==> StateOk(t, a, pos)
      ensures Advanced(t, 0, pos, n) && Advanced(t, 1, pos, n)
    {
      OnlyInput();
    }

    /** Every cache and state has seen the first c positions of t. */
    ghost predicate Caught(t: seq<Word>, c: nat)
      requires Wf() && c <= |t|
      reads kc, vc, state
    {
      && (forall a :: 0 <= a < |g| && g[a].op.Attn? ==> KvOk(t, a, c))
      && (forall a :: 0 <= a < |g| && g[a].op.Recur? ==> StateOk(t, a, c))
    }

    lemma FirstReady(t: seq<Word>, mem: seq<seq<Word>>, pos: nat, n: nat)
      requires Wf() && pos + n <= |t| && |mem| == BACKEND_COUNT
      requires HasRows(m, g, pl, t, mem, 0, pos, n)
      ensures Ready(m, g, pl, t, mem, 1, pos, n)
    {
    }

    /** graph_compute: one batch of n rows at absolute position pos. A batch that does not fit
        the context or the graph is refused, and nothing changes. */
    method Compute(pos: nat, n: nat, ghost t: seq<Word>) returns (ok: bool)
      requires Wf() && pos + n <= |t| && |logits| == nVocab
      requires pos + n <= ctxSize ==> tokens[pos..pos + n] == t[pos..pos + n]
      requires Caught(t, pos)
      modifies arena, kc, vc, state, this`logits
      ensures ok == (n == 0 || (pos + n <= ctxSize && n <= nUbatch)) && |logits| == nVocab
      ensures ok ==> Caught(t, pos + n)
      ensures ok && n > 0 ==> LogitsAre(t, pos + n - 1)
      ensures TailIs(old(logits))
      ensures n == 0 || !ok ==> logits == old(logits) && Mem() == old(Mem()) && unchanged(kc, vc, state)
    {
      hide Built, Planned, Widths, Holds, Backward, Val, Column, Ready, StateAt, Written, KvOk, StateOk;
      if n == 0 { return true; }
      if pos + n > ctxSize { return false; }
      ok := BindTokens(pos, n, t);
      if !ok { return false; }
      OnlyInput();
      AdvancedStart(t, pos, n);
      FirstReady(t, Mem(), pos, n);
      var i := 1;
      while i < |g|
        invariant 1 <= i <= |g|
        invariant Ready(m, g, pl, t, Mem(), i, pos, n) && Advanced(t, i, pos, n)
        invariant i == |g| ==> Written(t, i - 1, pos + n - 1, 1)
        modifies arena, kc, vc, state
      {
        ok := RunNode(i, pos, n, t);
        i := i + 1;
      }
      Publish(pos + n - 1, t);
    }

    ghost predicate LogitsAre(t: seq<Word>, p: nat)
      requires Wf() && p < |t|
      reads this`logits
    {
      var row := Val(m, g, t, |g| - 1, p);
      var k := if |row| < nVocab then |row| else nVocab;
      |logits| == nVocab && logits[..k] == row[..k]
    }

    /** How many logits the sink fills. */
    ghost function Shown(): nat {
      if 0 < |g| <= |pl.dims| && pl.dims[|g| - 1] < nVocab then pl.dims[|g| - 1] else nVocab
    }

    /** The logits behind those are the ones of before. */
    ghost predicate TailIs(was: RowData)
      reads this`logits
    {
      |was| == |logits| == nVocab && forall k :: Shown() <= k < nVocab ==> logits[k] == was[k]
    }

    /** The sink's row becomes the session's logits. */
    method Publish(p: nat, ghost t: seq<Word>)
      requires Wf() && p < |t| && |logits| == nVocab && Written(t, |g| - 1, p, 1)
      modifies this`logits
      ensures LogitsAre(t, p) && TailIs(old(logits))
    {
      hide Built, Planned, Backward, Val, Column, Widths;
      OnlyInput();
      var i := 0;
      while !IsSink(i) || g[i].op.Input?
        invariant 0 <= i <= |g| - 1 && logits == old(logits)
        decreases |g| - i
      {
        SinkIsLast(i);
        i := i + 1;
      }
      SinkIsLast(i);
      FirstRow(m, g, t, i, p, Mem()[g[i].backend], WordOff(pl, i), pl.dims[i]);
      var k := if pl.dims[i] < nVocab then pl.dims[i] else nVocab;
      var at := WordOff(pl, i);
      CopyFront(Mem()[g[i].backend], at, pl.dims[i], k, logits);
      logits := arena[g[i].backend][at..at + k] + logits[k..];
    }

    predicate IsSink(i: nat) { Sink(g, i) }
  
    // ------------------------------------------------------- the micro-batcher

    /** The session has processed exactly the tokens t. */
    ghost predicate Synced(t: seq<Word>)
      requires Wf()
      reads this, kc, vc, state, tokens
    {
      && nTokens == |t| <= ctxSize && tokens[..nTokens] == t && |logits| == nVocab
      && Caught(t, |t|)
    }

    lemma CaughtPrefix(t: seq<Word>, u: seq<Word>, c: nat)
      requires Wf() && c <= |t| && Caught(t, c)
      ensures Caught(t + u, c)
    {
      forall a | 0 <= a < |g| && g[a].op.Attn? ensures KvOk(t + u, a, c) {
        assert KvOk(t, a, c);
        AttnSources(a);
        SourceFacts(a, 1);
        SourceFacts(a, 2);
        forall p | 0 <= p < c
          ensures kc[g[a].op.layer, p] == Val(m, g, t + u, g[a].src[1], p)
          ensures vc[g[a].op.layer, p] == Val(m, g, t + u, g[a].src[2], p)
        {
          ValPrefix(m, g, t, u, g[a].src[1], p);
          ValPrefix(m, g, t, u, g[a].src[2], p);
        }
      }
      forall a | 0 <= a < |g| && g[a].op.Recur? ensures StateOk(t + u, a, c) {
        assert StateOk(t, a, c);
        StatePrefix(m, g, t, u, a, c);
      }
    }

    /** The copy of a chunk into the token buffer. */
    method StoreTokens(at: nat, chunk: seq<Word>)
      requires Wf() && at + |chunk| <= ctxSize
      modifies tokens
      ensures tokens[..] == Splice(old(tokens[..]), at, chunk)
    {
      hide Built, Planned, Widths, Backward;
      var k := 0;
      while k < |chunk|
        invariant 0 <= k <= |chunk|
        invariant tokens[..] == old(tokens[..])[..at] + chunk[..k] + old(tokens[..])[at + k..]
      {
        tokens[at + k] := chunk[k];
        k := k + 1;
      }
      assert chunk[..k] == chunk;
    }

    /** One chunk of the loop: store its tokens and run them. */
    method RunChunk(at: nat, chunk: seq<Word>, ghost t: seq<Word>) returns (ok: bool)
      requires Wf() && 0 < |chunk| <= nUbatch && at + |chunk| <= |t| && at + |chunk| <= ctxSize && |logits| == nVocab
      requires chunk == t[at..at + |chunk|] && tokens[..at] == t[..at] && Caught(t, at)
      modifies arena, kc, vc, state, tokens, this`logits
      ensures ok && tokens[..at + |chunk|] == t[..at + |chunk|] && |logits| == nVocab
      ensures Caught(t, at + |chunk|) && LogitsAre(t, at + |chunk| - 1)
      ensures TailIs(old(logits))
    {
      hide Built, Planned, Widths, Backward, Val, Caught, LogitsAre, Splice;
      ghost var buf := tokens[..];
      StoreTokens(at, chunk);
      AppendChunk(buf, tokens[..], t, at, |chunk|);
      ok := Compute(at, |chunk|, t);
    }

    /** graph_execute: append tokens and run them in chunks of at most n_ubatch.
        The outcome does not mention the chunk size: caches, states and logits
        are those of the whole token sequence. */
    method Execute(toks: seq<Word>, ghost t0: seq<Word>) returns (ok: bool)
      requires Wf() && Synced(t0)
      modifies arena, kc, vc, state, tokens, this
      ensures ok == (toks != [] && |t0| + |toks| <= ctxSize)
      ensures ok ==> Synced(t0 + toks) && LogitsAre(t0 + toks, |t0| + |toks| - 1)
      ensures TailIs(old(logits))
      ensures !ok ==> Synced(t0) && logits == old(logits)
    {
      hide Built, Planned, Widths, Backward, Val, Caught, LogitsAre, Splice;
      if toks == [] { return false; }
      var pos := nTokens;
      if pos + |toks| > ctxSize { return false; }
      ghost var t := t0 + toks;
      CaughtPrefix(t0, toks, pos);
      var done := 0;
      while done < |toks|
        invariant 0 <= done <= |toks| && nTokens == pos && |logits| == nVocab
        invariant tokens[..pos + done] == t[..pos + done]
        invariant Caught(t, pos + done)
        invariant done > 0 ==> LogitsAre(t, pos + done - 1)
        invariant TailIs(old(logits))
      {
        var chunk := |toks| - done;
        if chunk > nUbatch { chunk := nUbatch; }
        assert toks[done..done + chunk] == t[pos + done..pos + done + chunk];
        ok := RunChunk(pos + done, toks[done..done + chunk], t);
        if !ok { return false; }
        done := done + chunk;
      }
      nTokens := pos + |toks|;
      assert t[..pos + done] == t;
      return true;
    }

    /** Another session holds the same cache rows for attention node a. */
    ghost predicate SameKv(other: Session, a: nat, c: nat)
      requires a < |g| && g[a].op.Attn?
      reads kc, vc, other.kc, other.vc
    {
      var l := g[a].op.layer;
      && l < kc.Length0 && l < vc.Length0 && l < other.kc.Length0 && l < other.vc.Length0
      && c <= kc.Length1 && c <= vc.Length1 && c <= other.kc.Length1 && c <= other.vc.Length1
      && (forall p :: 0 <= p < c ==> kc[l, p] == other.kc[l, p])
      && (forall p :: 0 <= p < c ==> vc[l, p] == other.vc[l, p])
    }

    ghost predicate SameState(other: Session, a: nat)
      requires a < |g| && g[a].op.Recur?
      reads state, other.state
    {
      var h := g[a].op.state;
      h < state.Length && h < other.state.Length && state[h] == other.state[h]
    }
  }

  /** Micro-batch invariance: two sessions of one computation that have processed the same
      tokens, with any two micro-batch sizes and in whatever calls, agree on every cache row,
      every state and the logits. */
  lemma SameOutcome(s1: Session, s2: Session, t: seq<Word>)
    requires s1.Wf() && s2.Wf() && s1.m == s2.m && SameCode(s1.g, s2.g) && s1.nVocab == s2.nVocab
    requires s1.Synced(t) && s2.Synced(t)
    ensures s1.nTokens == s2.nTokens
    ensures forall a :: 0 <= a < |s1.g| && s1.g[a].op.Attn? ==> s1.SameKv(s2, a, |t|)
    ensures forall a :: 0 <= a < |s1.g| && s1.g[a].op.Recur? ==> s1.SameState(s2, a)
    ensures t != [] && s1.LogitsAre(t, |t| - 1) && s2.LogitsAre(t, |t| - 1) ==>
              var k := |Val(s1.m, s1.g, t, |s1.g| - 1, |t| - 1)|;
              (if k < s1.nVocab then s1.logits[..k] == s2.logits[..k] else s1.logits == s2.logits)
  {
    hide Built, Planned, Backward, Val, Widths;
    forall a | 0 <= a < |s1.g| && s1.g[a].op.Attn? ensures s1.SameKv(s2, a, |t|) {
      KvAgrees(s1, s2, t, a);
    }
    forall a | 0 <= a < |s1.g| && s1.g[a].op.Recur? ensures s1.SameState(s2, a) {
      assert s1.StateOk(t, a, |t|) && s2.StateOk(t, a, |t|);
      SameStateAt(s1.m, s1.g, s2.g, t, a, |t|);
    }
    if t != [] {
      s1.OnlyInput();
      SameVal(s1.m, s1.g, s2.g, t, |s1.g| - 1, |t| - 1);
    }
  }

  lemma KvAgrees(s1: Session, s2: Session, t: seq<Word>, a: nat)
    requires s1.Wf() && s2.Wf() && s1.m == s2.m && SameCode(s1.g, s2.g) && s1.Synced(t) && s2.Synced(t)
    requires a < |s1.g| && s1.g[a].op.Attn?
    ensures s1.SameKv(s2, a, |t|)
  {
    hide Built, Planned, Backward, Val, Widths;
    assert s1.KvOk(t, a, |t|) && s2.KvOk(t, a, |t|);
    s1.AttnSources(a);
    s1.SourceFacts(a, 1);
    s1.SourceFacts(a, 2);
    forall p | 0 <= p < |t|
      ensures Val(s1.m, s1.g, t, s1.g[a].src[1], p) == Val(s2.m, s2.g, t, s1.g[a].src[1], p)
      ensures Val(s1.m, s1.g, t, s1.g[a].src[2], p) == Val(s2.m, s2.g, t, s1.g[a].src[2], p)
    {
      SameVal(s1.m, s1.g, s2.g, t, s1.g[a].src[1], p);
      SameVal(s1.m, s1.g, s2.g, t, s1.g[a].src[2], p);
    }
  }
}
