/** What a graph means, with no buffers, batches or caches: the value of node i
    at position p of a token sequence. Operators are uninterpreted row functions;
    only what they read is fixed. */
module GraphValue {
  import opened Graph

  /** A 32-bit word: a float or a token id. */
  datatype Word = Float(x: real) | Id(n: int)

  type RowData = seq<Word>
  type RecState = seq<Word>

  /** The row functions of a model: row of node i at position p from its source
      rows; attention from the query row and the visible key and value rows; the
      recurrences as a state step and an output. */
  datatype Model = Model(
    row: (nat, nat, seq<RowData>) -> RowData,
    attn: (nat, RowData, seq<RowData>, seq<RowData>) -> RowData,
    step: (nat, RecState, seq<RowData>) -> RecState,
    out: (nat, RecState, seq<RowData>) -> RowData,
    start: nat -> RecState)

  /** Every node's row has the planned width. */
  ghost predicate Widths(m: Model, g: seq<GraphNode>, dims: seq<nat>)
    requires |dims| == |g|
  {
    && (forall i: nat, p: nat, a: seq<RowData> :: i < |g| ==> |m.row(i, p, a)| == dims[i])
    && (forall i: nat, q: RowData, k: seq<RowData>, v: seq<RowData> :: i < |g| ==> |m.attn(i, q, k, v)| == dims[i])
    && (forall i: nat, s: RecState, a: seq<RowData> :: i < |g| ==> |m.out(i, s, a)| == dims[i])
  }

  /** The graphs the builders make: node 0 is the only input, the last node the
      only sink and a plain row operator; attention has three sources and a layer
      of its own, and no two recurrences share a state buffer. */
  ghost predicate Built(g: seq<GraphNode>) {
    && |g| >= 2 && Backward(g)
    && (forall i :: 0 <= i < |g| ==> (g[i].op.Input? <==> i == 0))
    && (forall i :: 0 <= i < |g| ==> (Sink(g, i) <==> i == |g| - 1))
    && g[|g| - 1].op.Row?
    && (forall i :: 0 <= i < |g| && g[i].op.Attn? ==> |g[i].src| == 3)
    && (forall i, j :: 0 <= i < j < |g| && g[i].op.Attn? && g[j].op.Attn? ==> g[i].op.layer != g[j].op.layer)
    && (forall i, j :: 0 <= i < j < |g| && g[i].op.Recur? && g[j].op.Recur? ==> g[i].op.state != g[j].op.state)
  }

  /** The key at k is visible to the query at p: it is not later, and with a window it is
      fewer than win positions back. */
  predicate Visible(win: nat, p: nat, k: nat) {
    k <= p && (win == 0 || p < k + win)
  }

  /** The first key a query at position p still sees. It sees all of them, or the last win,
      itself included. */
  function WindowStart(win: nat, p: nat): (r: nat)
    ensures r <= p && p + 1 - r == if win == 0 || p + 1 < win then p + 1 else win
    ensures forall k: nat :: r <= k <= p <==> Visible(win, p, k)
  {
    if win != 0 && p + 1 > win then p + 1 - win else 0
  }

  ghost function Val(m: Model, g: seq<GraphNode>, t: seq<Word>, i: nat, p: nat): RowData
    requires Backward(g) && i < |g| && p < |t|
    decreases i, 1, p
  {
    match g[i].op
    case Input => [t[p]]
    case Row => m.row(i, p, Sources(m, g, t, i, p))
    case Attn(_, win) =>
      if |g[i].src| != 3 then []
      else m.attn(i, Val(m, g, t, g[i].src[0], p),
                  Column(m, g, t, g[i].src[1], WindowStart(win, p), p + 1),
                  Column(m, g, t, g[i].src[2], WindowStart(win, p), p + 1))
    case Recur(_) => m.out(i, StateAt(m, g, t, i, p), Sources(m, g, t, i, p))
  }

  /** The rows of all sources of node i at position p. */
  ghost function Sources(m: Model, g: seq<GraphNode>, t: seq<Word>, i: nat, p: nat): (r: seq<RowData>)
    requires Backward(g) && i < |g| && p < |t|
    ensures |r| == |g[i].src|
    decreases i, 0, 0
  {
    seq(|g[i].src|, k requires 0 <= k < |g[i].src| => Val(m, g, t, g[i].src[k], p))
  }

  /** The rows of node j at positions lo..hi-1. */
  ghost function Column(m: Model, g: seq<GraphNode>, t: seq<Word>, j: nat, lo: nat, hi: nat): (r: seq<RowData>)
    requires Backward(g) && j < |g| && lo <= hi <= |t|
    ensures |r| == hi - lo
    decreases j, 2, 0
  {
    seq(hi - lo, k requires 0 <= k < hi - lo => Val(m, g, t, j, lo + k))
  }

  /** The state of recurrence i before position p. */
  ghost function StateAt(m: Model, g: seq<GraphNode>, t: seq<Word>, i: nat, p: nat): RecState
    requires Backward(g) && i < |g| && p <= |t|
    decreases i, 0, p + 1
  {
    if p == 0 then m.start(i)
    else m.step(i, StateAt(m, g, t, i, p - 1), Sources(m, g, t, i, p - 1))
  }

  /** Attention at p reads the query row at p and the last key and value rows up to p, as
      many as the window holds. */
  lemma AttnReads(m: Model, g: seq<GraphNode>, t: seq<Word>, i: nat, p: nat)
    requires Backward(g) && i < |g| && p < |t| && g[i].op.Attn? && |g[i].src| == 3
    ensures var win, q, k, v := g[i].op.window, g[i].src[0], g[i].src[1], g[i].src[2];
            var n: nat := if win == 0 || p + 1 < win then p + 1 else win;
            Val(m, g, t, i, p) ==
            m.attn(i, Val(m, g, t, q, p),
                   seq(n, j requires 0 <= j < n => Val(m, g, t, k, p + 1 - n + j)),
                   seq(n, j requires 0 <= j < n => Val(m, g, t, v, p + 1 - n + j)))
  {
    var k, v, lo := g[i].src[1], g[i].src[2], WindowStart(g[i].op.window, p);
    var n := p + 1 - lo;
    assert Column(m, g, t, k, lo, p + 1) == seq(n, j requires 0 <= j < n => Val(m, g, t, k, p + 1 - n + j));
    assert Column(m, g, t, v, lo, p + 1) == seq(n, j requires 0 <= j < n => Val(m, g, t, v, p + 1 - n + j));
  }

  /** It depends on nothing else: on two texts with the same query at p and the same keys and
      values at the positions p sees, attention gives the same row. */
  lemma AttnDepends(m: Model, g: seq<GraphNode>, t: seq<Word>, u: seq<Word>, i: nat, p: nat)
    requires Backward(g) && i < |g| && p < |t| && p < |u| && g[i].op.Attn? && |g[i].src| == 3
    requires Val(m, g, t, g[i].src[0], p) == Val(m, g, u, g[i].src[0], p)
    requires forall k: nat :: k <= p && (g[i].op.window == 0 || p < k + g[i].op.window) ==>
               && Val(m, g, t, g[i].src[1], k) == Val(m, g, u, g[i].src[1], k)
               && Val(m, g, t, g[i].src[2], k) == Val(m, g, u, g[i].src[2], k)
    ensures Val(m, g, t, i, p) == Val(m, g, u, i, p)
  {
    var win := g[i].op.window;
    var lo := WindowStart(win, p);
    forall k: nat | lo <= k <= p
      ensures Val(m, g, t, g[i].src[1], k) == Val(m, g, u, g[i].src[1], k)
      ensures Val(m, g, t, g[i].src[2], k) == Val(m, g, u, g[i].src[2], k)
    {
      assert Visible(win, p, k);
    }
    assert Column(m, g, t, g[i].src[1], lo, p + 1) == Column(m, g, u, g[i].src[1], lo, p + 1);
    assert Column(m, g, t, g[i].src[2], lo, p + 1) == Column(m, g, u, g[i].src[2], lo, p + 1);
  }

  /** Later tokens do not change earlier values. */
  lemma {:induction false} ValPrefix(m: Model, g: seq<GraphNode>, t: seq<Word>, u: seq<Word>, i: nat, p: nat)
    requires Backward(g) && i < |g| && p < |t|
    ensures Val(m, g, t + u, i, p) == Val(m, g, t, i, p)
    decreases i, 1, p
  {
    var op := g[i].op;
    if op.Row? || op.Recur? {
      SourcesPrefix(m, g, t, u, i, p);
      if op.Recur? { StatePrefix(m, g, t, u, i, p); }
    } else if op.Attn? && |g[i].src| == 3 {
      ValPrefix(m, g, t, u, g[i].src[0], p);
      ColumnPrefix(m, g, t, u, g[i].src[1], WindowStart(op.window, p), p + 1);
      ColumnPrefix(m, g, t, u, g[i].src[2], WindowStart(op.window, p), p + 1);
    }
  }

  lemma {:induction false} SourcesPrefix(m: Model, g: seq<GraphNode>, t: seq<Word>, u: seq<Word>, i: nat, p: nat)
    requires Backward(g) && i < |g| && p < |t|
    ensures Sources(m, g, t + u, i, p) == Sources(m, g, t, i, p)
    decreases i, 0, 0
  {
    forall k | 0 <= k < |g[i].src|
      ensures Val(m, g, t + u, g[i].src[k], p) == Val(m, g, t, g[i].src[k], p)
    {
      ValPrefix(m, g, t, u, g[i].src[k], p);
    }
  }

  lemma {:induction false} ColumnPrefix(m: Model, g: seq<GraphNode>, t: seq<Word>, u: seq<Word>, j: nat, lo: nat, hi: nat)
    requires Backward(g) && j < |g| && lo <= hi <= |t|
    ensures Column(m, g, t + u, j, lo, hi) == Column(m, g, t, j, lo, hi)
    decreases j, 2, 0
  {
    forall k | 0 <= k < hi - lo
      ensures Column(m, g, t + u, j, lo, hi)[k] == Column(m, g, t, j, lo, hi)[k]
    {
      ValPrefix(m, g, t, u, j, lo + k);
    }
  }

  lemma {:induction false} StatePrefix(m: Model, g: seq<GraphNode>, t: seq<Word>, u: seq<Word>, i: nat, p: nat)
    requires Backward(g) && i < |g| && p <= |t|
    ensures StateAt(m, g, t + u, i, p) == StateAt(m, g, t, i, p)
    decreases i, 0, p + 1
  {
    if p > 0 {
      StatePrefix(m, g, t, u, i, p - 1);
      SourcesPrefix(m, g, t, u, i, p - 1);
    }
  }

  // ------------------------------------------------------ graphs of one computation

  /** The same operators on the same sources. Capacity, widths and backends may differ, as
      they do between the graphs that sessions with different micro-batches build. */
  ghost predicate SameCode(g: seq<GraphNode>, h: seq<GraphNode>) {
    |g| == |h| && forall i :: 0 <= i < |g| ==> g[i].op == h[i].op && g[i].src == h[i].src
  }

  /** They mean the same. */
  lemma {:induction false} SameVal(m: Model, g: seq<GraphNode>, h: seq<GraphNode>, t: seq<Word>, i: nat, p: nat)
    requires Backward(g) && Backward(h) && SameCode(g, h) && i < |g| && p < |t|
    ensures Val(m, g, t, i, p) == Val(m, h, t, i, p)
    decreases i, 1, p
  {
    var op := g[i].op;
    if op.Row? || op.Recur? {
      SameSources(m, g, h, t, i, p);
      if op.Recur? { SameStateAt(m, g, h, t, i, p); }
    } else if op.Attn? && |g[i].src| == 3 {
      SameVal(m, g, h, t, g[i].src[0], p);
      SameColumn(m, g, h, t, g[i].src[1], WindowStart(op.window, p), p + 1);
      SameColumn(m, g, h, t, g[i].src[2], WindowStart(op.window, p), p + 1);
    }
  }

  lemma {:induction false} SameSources(m: Model, g: seq<GraphNode>, h: seq<GraphNode>, t: seq<Word>, i: nat, p: nat)
    requires Backward(g) && Backward(h) && SameCode(g, h) && i < |g| && p < |t|
    ensures Sources(m, g, t, i, p) == Sources(m, h, t, i, p)
    decreases i, 0, 0
  {
    forall k | 0 <= k < |g[i].src|
      ensures Val(m, g, t, g[i].src[k], p) == Val(m, h, t, g[i].src[k], p)
    {
      SameVal(m, g, h, t, g[i].src[k], p);
    }
  }

  lemma {:induction false} SameColumn(m: Model, g: seq<GraphNode>, h: seq<GraphNode>, t: seq<Word>, j: nat, lo: nat, hi: nat)
    requires Backward(g) && Backward(h) && SameCode(g, h) && j < |g| && lo <= hi <= |t|
    ensures Column(m, g, t, j, lo, hi) == Column(m, h, t, j, lo, hi)
    decreases j, 2, 0
  {
    forall k | 0 <= k < hi - lo
      ensures Column(m, g, t, j, lo, hi)[k] == Column(m, h, t, j, lo, hi)[k]
    {
      SameVal(m, g, h, t, j, lo + k);
    }
  }

  lemma {:induction false} SameStateAt(m: Model, g: seq<GraphNode>, h: seq<GraphNode>, t: seq<Word>, i: nat, p: nat)
    requires Backward(g) && Backward(h) && SameCode(g, h) && i < |g| && p <= |t|
    ensures StateAt(m, g, t, i, p) == StateAt(m, h, t, i, p)
    decreases i, 0, p + 1
  {
    if p > 0 {
      SameStateAt(m, g, h, t, i, p - 1);
      SameSources(m, g, h, t, i, p - 1);
    }
  }
}
