/** The static execution graph of src/graph.c: nodes with backward edges, their
    widths, and the lifetimes of their outputs. */
module Graph {

  /** CPU, CUDA and Metal. */
  const BACKEND_COUNT: nat := 3
  type Backend = b: nat | b < BACKEND_COUNT witness 0

  /** What an operator's result depends on. Row covers every operator that maps
      row p of its sources to row p (embed, norms, matmul, bias, add, mul, unary,
      RoPE, gate, copies); Recur the convolutions and scans that also advance a
      state buffer row by row. */
  datatype Op = Input | Row | Attn(layer: nat, window: nat) | Recur(state: nat)

  /** Elements per row: fixed by weights or parameters, or those of source 0. */
  datatype Width = Own(w: nat) | Inherit

  datatype GraphNode = GraphNode(op: Op, src: seq<nat>, width: Width, backend: Backend, ne0: nat)

  /** Edges point strictly backward. */
  ghost predicate Backward(g: seq<GraphNode>) {
    forall i, k :: 0 <= i < |g| && 0 <= k < |g[i].src| ==> g[i].src[k] < i
  }

  /** Node j reads node i. */
  predicate Reads(g: seq<GraphNode>, j: nat, i: nat)
    requires j < |g|
  {
    i in g[j].src
  }

  predicate Sink(g: seq<GraphNode>, i: nat) {
    forall j :: 0 <= j < |g| ==> !Reads(g, j, i)
  }

  predicate UnreadBefore(g: seq<GraphNode>, j: nat, i: nat)
    requires j <= |g|
  {
    forall m :: 0 <= m < j ==> !Reads(g, m, i)
  }

  /** node_out_dim, given the widths of the nodes before. */
  function OutDim(node: GraphNode, dims: seq<nat>): nat {
    if node.op.Input? then 0
    else match node.width
      case Own(w) => w
      case Inherit => if node.src != [] && node.src[0] < |dims| then dims[node.src[0]] else 0
  }

  ghost predicate IsDims(g: seq<GraphNode>, dims: seq<nat>) {
    |dims| == |g| && forall i :: 0 <= i < |g| ==> dims[i] == OutDim(g[i], dims[..i])
  }

  /** release[i] is the last node reading node i, or i itself. */
  ghost predicate IsRelease(g: seq<GraphNode>, release: seq<nat>) {
    && |release| == |g|
    && (forall i :: 0 <= i < |g| ==> i <= release[i] < |g|)
    && (forall j, i :: 0 <= j < |g| && 0 <= i < |g| && Reads(g, j, i) ==> j <= release[i])
    && (forall i :: 0 <= i < |g| ==> release[i] == i || Reads(g, release[i], i))
  }

  /** The loops that mark sinks (in arena_plan and in graph_compute). */
  method MarkSinks(g: seq<GraphNode>) returns (sink: array<bool>)
    requires Backward(g)
    ensures fresh(sink) && sink.Length == |g|
    ensures forall i :: 0 <= i < |g| ==> sink[i] == Sink(g, i)
  {
    sink := new bool[|g|](_ => true);
    var j := 0;
    while j < |g|
      invariant 0 <= j <= |g|
      invariant forall i :: 0 <= i < |g| ==> sink[i] == UnreadBefore(g, j, i)
    {
      var k := 0;
      while k < |g[j].src|
        invariant 0 <= k <= |g[j].src|
        invariant forall i :: 0 <= i < |g| ==> sink[i] == (UnreadBefore(g, j, i) && i !in g[j].src[..k])
      {
        sink[g[j].src[k]] := false;
        k := k + 1;
      }
      assert g[j].src[..k] == g[j].src;
      forall i | 0 <= i < |g| ensures UnreadBefore(g, j + 1, i) == (UnreadBefore(g, j, i) && i !in g[j].src) {
        assert Reads(g, j, i) == (i in g[j].src);
      }
      j := j + 1;
    }
  }

  /** The loop that computes the widths. */
  method ComputeDims(g: seq<GraphNode>) returns (dims: seq<nat>)
    ensures IsDims(g, dims)
  {
    dims := [];
    while |dims| < |g|
      invariant |dims| <= |g|
      invariant forall i :: 0 <= i < |dims| ==> dims[i] == OutDim(g[i], dims[..i])
    {
      ghost var before := dims;
      dims := dims + [OutDim(g[|dims|], dims)];
      assert dims[..|before|] == before;
      assert forall i :: 0 <= i < |before| ==> dims[..i] == before[..i];
    }
  }

  /** A node has its own width or, through a chain of them, that of its first source. */
  lemma WidthIs(g: seq<GraphNode>, dims: seq<nat>, i: nat)
    requires Backward(g) && IsDims(g, dims) && i < |g| && !g[i].op.Input?
    ensures g[i].width.Own? ==> dims[i] == g[i].width.w
    ensures g[i].width.Inherit? && g[i].src != [] ==> g[i].src[0] < i && dims[i] == dims[g[i].src[0]]
  {
  }

  /** The loops that compute release. */
  method ComputeRelease(g: seq<GraphNode>) returns (release: array<nat>)
    requires Backward(g)
    ensures fresh(release) && IsRelease(g, release[..])
  {
    release := new nat[|g|](i => i);
    var j := 0;
    while j < |g|
      invariant 0 <= j <= |g|
      invariant forall i :: 0 <= i < |g| ==> i <= release[i] < |g|
      invariant forall i :: 0 <= i < |g| ==> release[i] == i || (release[i] < j && Reads(g, release[i], i))
      invariant forall m, i :: 0 <= m < j && 0 <= i < |g| && Reads(g, m, i) ==> m <= release[i]
    {
      var k := 0;
      while k < |g[j].src|
        invariant 0 <= k <= |g[j].src|
        invariant forall i :: 0 <= i < |g| ==> i <= release[i] < |g|
        invariant forall i :: 0 <= i < |g| ==> release[i] == i || (release[i] <= j && Reads(g, release[i], i))
        invariant forall m, i :: 0 <= m < j && 0 <= i < |g| && Reads(g, m, i) ==> m <= release[i]
        invariant forall i :: 0 <= i < |g| && i in g[j].src[..k] ==> j <= release[i]
      {
        var src := g[j].src[k];
        assert Reads(g, j, src);
        if j > release[src] { release[src] := j; }
        k := k + 1;
      }
      assert g[j].src[..k] == g[j].src;
      j := j + 1;
    }
  }

  /** A source is still held when its reader runs. */
  lemma SourceHeld(g: seq<GraphNode>, release: seq<nat>, i: nat, k: nat)
    requires Backward(g) && IsRelease(g, release) && i < |g| && k < |g[i].src|
    ensures g[i].src[k] < i <= release[g[i].src[k]]
  {
    assert Reads(g, i, g[i].src[k]);
  }
}
