/** The recurrent operators as nodes of a graph: when a node's step is what its operator does
    to one row, then one call of the operator on a batch leaves the rows and the state that
    the reference (`GraphValue`) and the executor give the node. */
module RecurNodes {
  import opened Common
  import opened Graph
  import opened GraphValue
  import opened RowRuns
  import opened Strides
  import C = ConvRing
  import A = MambaConv
  import D = DeltaRows
  import S = MambaScan

  type Row = seq<real>

  function Words(r: Row): (ws: seq<Word>)
    ensures |ws| == |r|
  {
    seq(|r|, k requires 0 <= k < |r| => Float(r[k]))
  }

  function Reals(ws: seq<Word>): (r: Row)
    ensures |r| == |ws|
  {
    seq(|ws|, k requires 0 <= k < |ws| => if ws[k].Float? then ws[k].x else 0.0)
  }

  lemma RealsOfWords(r: Row)
    ensures Reals(Words(r)) == r
  {
  }

  /** Whatever the operator's step leads to from a state and the source rows is what node i
      of the model goes to and gives. */
  ghost predicate Follows<X(!new)>(m: Model, i: nat, step: (Row, X, Row, Row) -> bool, input: seq<RowData> -> X) {
    forall s, args, t, y {:trigger FollowsAt(m, i, step, input, s, args, t, y)} :: FollowsAt(m, i, step, input, s, args, t, y)
  }

  ghost predicate FollowsAt<X(!new)>(m: Model, i: nat, step: (Row, X, Row, Row) -> bool, input: seq<RowData> -> X,
                                     s: Row, args: seq<RowData>, t: Row, y: Row) {
    step(s, input(args), t, y) ==> m.step(i, Words(s), args) == Words(t) && m.out(i, Words(s), args) == Words(y)
  }

  // Some model follows every operator whose step is determined.

  ghost function Chosen<X(!new)>(step: (Row, X, Row, Row) -> bool, s: Row, x: X): (Row, Row) {
    if exists t, y :: step(s, x, t, y) then var t, y :| step(s, x, t, y); (t, y) else ([], [])
  }

  ghost function Following<X(!new)>(m: Model, i: nat, step: (Row, X, Row, Row) -> bool, input: seq<RowData> -> X): Model {
    m.(step := (a: nat, s: RecState, args: seq<RowData>) => if a == i then Words(Chosen(step, Reals(s), input(args)).0) else m.step(a, s, args),
       out := (a: nat, s: RecState, args: seq<RowData>) => if a == i then Words(Chosen(step, Reals(s), input(args)).1) else m.out(a, s, args))
  }

  lemma FollowingFollows<X(!new)>(m: Model, i: nat, step: (Row, X, Row, Row) -> bool, input: seq<RowData> -> X)
    requires Deterministic(step)
    ensures Follows(Following(m, i, step, input), i, step, input)
  {
    var m' := Following(m, i, step, input);
    forall s, args, t, y ensures FollowsAt(m', i, step, input, s, args, t, y) {
      if step(s, input(args), t, y) {
        RealsOfWords(s);
        var c := Chosen(step, s, input(args));
        assert step(s, input(args), c.0, c.1);
      }
    }
  }

  // --------------------------------------------------------------- any operator

  /** One call on n rows, from the state before position pos. */
  lemma {:induction false} BatchIsRun<X(!new)>(m: Model, g: seq<GraphNode>, t: seq<Word>, i: nat, step: (Row, X, Row, Row) -> bool,
                                               input: seq<RowData> -> X, pos: nat, before: Row, xs: seq<X>, after: Row, ys: seq<Row>)
    requires Backward(g) && i < |g| && g[i].op.Recur? && pos + |xs| <= |t| && Follows(m, i, step, input)
    requires forall k :: 0 <= k < |xs| ==> xs[k] == input(Sources(m, g, t, i, pos + k))
    requires StateAt(m, g, t, i, pos) == Words(before) && Rows(step, before, xs, after, ys)
    ensures StateAt(m, g, t, i, pos + |xs|) == Words(after)
    ensures |ys| == |xs| && forall k :: 0 <= k < |xs| ==> Val(m, g, t, i, pos + k) == Words(ys[k])
    decreases |xs|
  {
    hide Follows, Val, StateAt, Words;
    if xs != [] {
      var n := |xs| - 1;
      var mid :| Through(step, before, xs, mid, after, ys);
      BatchIsRun(m, g, t, i, step, input, pos, before, xs[..n], mid, ys[..n]);
      RowFollows(m, g, t, i, step, input, pos + n, mid, after, ys[n]);
      forall k | 0 <= k < |xs| ensures Val(m, g, t, i, pos + k) == Words(ys[k]) {
        if k < n { assert ys[..n][k] == ys[k]; }
      }
    }
  }

  lemma RowFollows<X(!new)>(m: Model, g: seq<GraphNode>, t: seq<Word>, i: nat, step: (Row, X, Row, Row) -> bool,
                            input: seq<RowData> -> X, p: nat, s: Row, u: Row, y: Row)
    requires Backward(g) && i < |g| && g[i].op.Recur? && p < |t| && Follows(m, i, step, input)
    requires StateAt(m, g, t, i, p) == Words(s) && step(s, input(Sources(m, g, t, i, p)), u, y)
    ensures StateAt(m, g, t, i, p + 1) == Words(u) && Val(m, g, t, i, p) == Words(y)
  {
    hide Words;
    assert FollowsAt(m, i, step, input, s, Sources(m, g, t, i, p), u, y);
  }

  /** The buffer holds the rows of node j for positions pos .. pos + n - 1 from row `base` on. */
  ghost predicate RowsAt(buffer: Row, base: nat, width: nat, m: Model, g: seq<GraphNode>, t: seq<Word>, j: nat, pos: nat, n: nat)
    requires Backward(g) && j < |g| && pos + n <= |t|
  {
    forall k {:trigger BatchRow(buffer, base, width, m, g, t, j, pos, k)} :: 0 <= k < n ==>
      BatchRow(buffer, base, width, m, g, t, j, pos, k)
  }

  ghost predicate BatchRow(buffer: Row, base: nat, width: nat, m: Model, g: seq<GraphNode>, t: seq<Word>, j: nat, pos: nat, k: nat)
    requires Backward(g) && j < |g| && pos + k < |t|
  {
    RowAt(buffer, base + k, width, Val(m, g, t, j, pos + k))
  }

  ghost predicate RowAt(buffer: Row, r: nat, width: nat, row: RowData) {
    Stride(r, width) + width <= |buffer| && row == Words(buffer[Stride(r, width)..Stride(r, width) + width])
  }

  /** A row taken out of a buffer is the row at the start of a buffer of its own. */
  lemma RowReals(buffer: Row, r: nat, width: nat, row: RowData)
    requires RowAt(buffer, r, width, row)
    ensures |row| == width && Stride(r, width) + width <= |buffer| && Stride(0, width) == 0
    ensures Reals(row)[0..width] == Reals(row) == buffer[Stride(r, width)..Stride(r, width) + width]
  {
    RealsOfWords(buffer[Stride(r, width)..Stride(r, width) + width]);
  }

  // ------------------------------------------------------------- the delta rule

  ghost function DeltaInput(p: D.Params): seq<RowData> -> D.Input {
    (args: seq<RowData>) =>
      if |args| == 3 && |args[0]| == D.Fused(p) && |args[1]| == |args[2]| == p.heads then
        OneDelta(p, Reals(args[0]), Reals(args[1]), Reals(args[2]))
      else D.Input([], [], [], [], [])
  }

  /** The input row made of one row of each source. */
  function OneDelta(p: D.Params, fused: Row, alpha: Row, beta: Row): D.Input
    requires |fused| == D.Fused(p) && |alpha| == |beta| == p.heads
  {
    D.RowInput(p, fused, alpha, beta, 0)
  }

  lemma DeltaRowIs(p: D.Params, fused: Row, alpha: Row, beta: Row, r: nat, args: seq<RowData>)
    requires |args| == 3 && RowAt(fused, r, D.Fused(p), args[0])
    requires RowAt(alpha, r, p.heads, args[1]) && RowAt(beta, r, p.heads, args[2])
    ensures D.RowInput(p, fused, alpha, beta, r) == DeltaInput(p)(args)
  {
    hide D.Fused, Stride, Words, Reals, RowAt;
    RowReals(fused, r, D.Fused(p), args[0]);
    RowReals(alpha, r, p.heads, args[1]);
    RowReals(beta, r, p.heads, args[2]);
  }

  lemma {:induction false} DeltaInputsAre(p: D.Params, fused: Row, alpha: Row, beta: Row, base: nat, n: nat, k: nat)
    requires D.Sources(p, fused, alpha, beta, base + n) && k < n
    ensures Stride(base + k, D.Fused(p)) + D.Fused(p) <= |fused|
    ensures Stride(base + k, p.heads) + p.heads <= |alpha| && Stride(base + k, p.heads) + p.heads <= |beta|
    ensures D.Inputs(p, fused, alpha, beta, base, n)[k] == D.RowInput(p, fused, alpha, beta, base + k)
    decreases n
  {
    hide D.Sources, D.RowInput, Stride, D.Fused;
    D.Inside(p, fused, alpha, beta, base + n, base + k);
    D.Inside(p, fused, alpha, beta, base + n, base + n - 1);
    if k < n - 1 { DeltaInputsAre(p, fused, alpha, beta, base, n - 1, k); }
  }

  /** One call of op_ssm_delta on the batch. */
  lemma DeltaNode(p: D.Params, m: Model, g: seq<GraphNode>, t: seq<Word>, i: nat, pos: nat, n: nat,
                  fused: Row, alpha: Row, beta: Row, base: nat, before: Row, after: Row, ys: seq<Row>)
    requires Backward(g) && i < |g| && g[i].op.Recur? && |g[i].src| == 3 && pos + n <= |t|
    requires Follows(m, i, D.Relation(p), DeltaInput(p))
    requires RowsAt(fused, base, D.Fused(p), m, g, t, g[i].src[0], pos, n)
    requires RowsAt(alpha, base, p.heads, m, g, t, g[i].src[1], pos, n)
    requires RowsAt(beta, base, p.heads, m, g, t, g[i].src[2], pos, n)
    requires StateAt(m, g, t, i, pos) == Words(before) && D.Sources(p, fused, alpha, beta, base + n)
    requires Rows(D.Relation(p), before, D.Inputs(p, fused, alpha, beta, base, n), after, ys)
    ensures StateAt(m, g, t, i, pos + n) == Words(after)
    ensures |ys| == n && forall k :: 0 <= k < n ==> Val(m, g, t, i, pos + k) == Words(ys[k])
  {
    hide D.Sources, D.Inputs, D.RowInput, Val, Words, StateAt, Stride, D.Fused, Follows, Rows, RowAt, DeltaInput;
    var xs := D.Inputs(p, fused, alpha, beta, base, n);
    forall k | 0 <= k < n ensures xs[k] == DeltaInput(p)(Sources(m, g, t, i, pos + k)) {
      DeltaInputsAre(p, fused, alpha, beta, base, n, k);
      assert BatchRow(fused, base, D.Fused(p), m, g, t, g[i].src[0], pos, k);
      assert BatchRow(alpha, base, p.heads, m, g, t, g[i].src[1], pos, k);
      assert BatchRow(beta, base, p.heads, m, g, t, g[i].src[2], pos, k);
      DeltaRowIs(p, fused, alpha, beta, base + k, Sources(m, g, t, i, pos + k));
    }
    BatchIsRun(m, g, t, i, D.Relation(p), DeltaInput(p), pos, before, xs, after, ys);
  }

  // --------------------------------------------------------- the selective scan

  ghost function ScanInput(p: S.Params): seq<RowData> -> S.Input {
    (args: seq<RowData>) =>
      if |args| == 2 && |args[0]| == S.ConvDim(p) && |args[1]| == S.ProjWidth(p) then
        OneScan(p, Reals(args[0]), Reals(args[1]))
      else S.Input([], [], [], [], [])
  }

  function OneScan(p: S.Params, xbc: Row, proj: Row): S.Input
    requires |xbc| == S.ConvDim(p) && |proj| == S.ProjWidth(p)
  {
    S.RowInput(p, xbc, proj, 0)
  }

  lemma ScanRowIs(p: S.Params, xbc: Row, proj: Row, r: nat, args: seq<RowData>)
    requires |args| == 2 && RowAt(xbc, r, S.ConvDim(p), args[0]) && RowAt(proj, r, S.ProjWidth(p), args[1])
    ensures S.RowInput(p, xbc, proj, r) == ScanInput(p)(args)
  {
    hide S.ConvDim, S.ProjWidth, Stride, Words, Reals, RowAt, S.Inner, S.Width;
    RowReals(xbc, r, S.ConvDim(p), args[0]);
    RowReals(proj, r, S.ProjWidth(p), args[1]);
  }

  lemma {:induction false} ScanInputsAre(p: S.Params, xbc: Row, proj: Row, base: nat, n: nat, k: nat)
    requires S.Sources(p, xbc, proj, base + n) && k < n
    ensures Stride(base + k, S.ConvDim(p)) + S.ConvDim(p) <= |xbc| && Stride(base + k, S.ProjWidth(p)) + S.ProjWidth(p) <= |proj|
    ensures S.Inputs(p, xbc, proj, base, n)[k] == S.RowInput(p, xbc, proj, base + k)
    decreases n
  {
    hide S.Sources, S.RowInput, Stride, S.ConvDim, S.ProjWidth;
    S.Inside(p, xbc, proj, base + n, base + k);
    S.Inside(p, xbc, proj, base + n, base + n - 1);
    if k < n - 1 { ScanInputsAre(p, xbc, proj, base, n - 1, k); }
  }

  /** One call of op_mamba2_scan on the batch. */
  lemma ScanNode(p: S.Params, m: Model, g: seq<GraphNode>, t: seq<Word>, i: nat, pos: nat, n: nat,
                 xbc: Row, proj: Row, base: nat, before: Row, after: Row, ys: seq<Row>)
    requires Backward(g) && i < |g| && g[i].op.Recur? && |g[i].src| == 2 && pos + n <= |t|
    requires Follows(m, i, S.Relation(p), ScanInput(p))
    requires RowsAt(xbc, base, S.ConvDim(p), m, g, t, g[i].src[0], pos, n)
    requires RowsAt(proj, base, S.ProjWidth(p), m, g, t, g[i].src[1], pos, n)
    requires StateAt(m, g, t, i, pos) == Words(before) && S.Sources(p, xbc, proj, base + n)
    requires Rows(S.Relation(p), before, S.Inputs(p, xbc, proj, base, n), after, ys)
    ensures StateAt(m, g, t, i, pos + n) == Words(after)
    ensures |ys| == n && forall k :: 0 <= k < n ==> Val(m, g, t, i, pos + k) == Words(ys[k])
  {
    hide S.Sources, S.Inputs, S.RowInput, Val, Words, StateAt, Stride, S.ConvDim, S.ProjWidth, Follows, Rows, RowAt, ScanInput;
    var xs := S.Inputs(p, xbc, proj, base, n);
    forall k | 0 <= k < n ensures xs[k] == ScanInput(p)(Sources(m, g, t, i, pos + k)) {
      ScanInputsAre(p, xbc, proj, base, n, k);
      assert BatchRow(xbc, base, S.ConvDim(p), m, g, t, g[i].src[0], pos, k);
      assert BatchRow(proj, base, S.ProjWidth(p), m, g, t, g[i].src[1], pos, k);
      ScanRowIs(p, xbc, proj, base + k, Sources(m, g, t, i, pos + k));
    }
    BatchIsRun(m, g, t, i, S.Relation(p), ScanInput(p), pos, before, xs, after, ys);
  }

  // ------------------------------------------------------------ the convolutions

  /** A convolution over `width` channels with `taps` taps, reading the part of a source row
      that starts at `inner`; without bias and with the identity it is op_ssm_conv. */
  datatype Kernel = Kernel(weight: Row, width: nat, taps: nat, inner: nat, bias: Option<Row>, act: real -> real)

  ghost predicate Shaped(c: Kernel) {
    C.WeightsFit(c.weight, c.width, c.taps) && (c.bias.Some? ==> |c.bias.value| == c.width)
  }

  ghost predicate ConvRow(c: Kernel, ring: seq<Row>, s: Row, x: Row, t: Row, y: Row) {
    && Shaped(c) && |ring| == C.Lag(c.taps) && C.AllWide(ring, c.width) && |x| == c.width && s == C.Flat(ring)
    && t == C.Flat((ring + [x])[1..]) && y == A.Active(C.Conv(ring + [x], c.weight, c.width, c.taps), c.bias, c.act)
  }

  ghost predicate ConvStep(c: Kernel, s: Row, x: Row, t: Row, y: Row) {
    exists ring :: ConvRow(c, ring, s, x, t, y)
  }

  ghost function ConvRelation(c: Kernel): (Row, Row, Row, Row) -> bool {
    (s, x, t, y) => ConvStep(c, s, x, t, y)
  }

  lemma FlatUnique(a: seq<Row>, b: seq<Row>, width: nat)
    requires C.AllWide(a, width) && C.AllWide(b, width) && |a| == |b| && C.Flat(a) == C.Flat(b)
    ensures a == b
  {
    hide C.Flat, Stride;
    forall k | 0 <= k < |a| ensures a[k] == b[k] {
      C.FlatAt(a, width, k);
      C.FlatAt(b, width, k);
    }
  }

  lemma ConvDeterministic(c: Kernel)
    ensures Deterministic(ConvRelation(c))
  {
    hide C.Flat, C.Conv, A.Active;
    forall s, x, t, y, t', y' | ConvRelation(c)(s, x, t, y) && ConvRelation(c)(s, x, t', y') ensures t == t' && y == y' {
      var ring :| ConvRow(c, ring, s, x, t, y);
      var ring' :| ConvRow(c, ring', s, x, t', y');
      FlatUnique(ring, ring', c.width);
    }
  }

  ghost predicate ConvReady(c: Kernel, ring: seq<Row>, xs: seq<Row>) {
    Shaped(c) && |ring| == C.Lag(c.taps) && C.AllWide(ring, c.width) && C.AllWide(xs, c.width)
  }

  /** The outputs of a batch, as the operators' contracts give them. */
  ghost function ConvOut(c: Kernel, ring: seq<Row>, xs: seq<Row>): (ys: seq<Row>)
    requires ConvReady(c, ring, xs)
    ensures |ys| == |xs|
  {
    A.ActiveRows(C.ConvRows(ring, xs, c.weight, c.width, c.taps), c.width, c.bias, c.act)
  }

  lemma ConvOutNext(c: Kernel, ring: seq<Row>, xs: seq<Row>)
    requires ConvReady(c, ring, xs) && xs != []
    ensures ConvReady(c, ring, xs[..|xs| - 1])
    ensures var n := |xs| - 1; var mid := C.RingAfter(ring, xs[..n]);
            && |mid| == C.Lag(c.taps) && C.AllWide(mid, c.width) && C.RingAfter(ring, xs) == (mid + [xs[n]])[1..]
            && ConvOut(c, ring, xs) == ConvOut(c, ring, xs[..n])
                 + [A.Active(C.Conv(mid + [xs[n]], c.weight, c.width, c.taps), c.bias, c.act)]
  {
    hide C.Conv, A.Active, Stride;
    var n := |xs| - 1;
    assert (ring + xs)[n..] == C.RingAfter(ring, xs[..n]) + [xs[n]];
  }

  lemma {:induction false} ConvRuns(c: Kernel, ring: seq<Row>, xs: seq<Row>)
    requires ConvReady(c, ring, xs)
    ensures Rows(ConvRelation(c), C.Flat(ring), xs, C.Flat(C.RingAfter(ring, xs)), ConvOut(c, ring, xs))
    decreases |xs|
  {
    hide C.Conv, A.Active, C.Flat, ConvOut, C.WeightsFit;
    if xs == [] {
      assert C.RingAfter(ring, xs) == ring;
    } else {
      var n := |xs| - 1;
      ConvOutNext(c, ring, xs);
      ConvRuns(c, ring, xs[..n]);
      var mid := C.RingAfter(ring, xs[..n]);
      var y := A.Active(C.Conv(mid + [xs[n]], c.weight, c.width, c.taps), c.bias, c.act);
      assert ConvRow(c, mid, C.Flat(mid), xs[n], C.Flat(C.RingAfter(ring, xs)), y);
      Append(ConvRelation(c), C.Flat(ring), xs[..n], C.Flat(mid), ConvOut(c, ring, xs[..n]), xs[n], C.Flat(C.RingAfter(ring, xs)), y);
      assert xs[..n] + [xs[n]] == xs;
    }
  }

  ghost function ConvInput(c: Kernel): seq<RowData> -> Row {
    (args: seq<RowData>) =>
      if |args| == 1 && c.inner + c.width <= |args[0]| then Reals(args[0])[c.inner..c.inner + c.width] else []
  }

  /** One call of op_ssm_conv or op_mamba2_conv on the batch. */
  lemma ConvNode(c: Kernel, m: Model, g: seq<GraphNode>, t: seq<Word>, i: nat, pos: nat, ring: seq<Row>, xs: seq<Row>)
    requires Backward(g) && i < |g| && g[i].op.Recur? && pos + |xs| <= |t|
    requires Follows(m, i, ConvRelation(c), ConvInput(c)) && ConvReady(c, ring, xs)
    requires forall k :: 0 <= k < |xs| ==> xs[k] == ConvInput(c)(Sources(m, g, t, i, pos + k))
    requires StateAt(m, g, t, i, pos) == Words(C.Flat(ring))
    ensures StateAt(m, g, t, i, pos + |xs|) == Words(C.Flat(C.RingAfter(ring, xs)))
    ensures forall k :: 0 <= k < |xs| ==> Val(m, g, t, i, pos + k) == Words(ConvOut(c, ring, xs)[k])
  {
    hide Val, Words, StateAt, Follows, Rows, ConvInput, ConvOut, C.Flat, C.RingAfter, ConvRelation;
    ConvRuns(c, ring, xs);
    BatchIsRun(m, g, t, i, ConvRelation(c), ConvInput(c), pos, C.Flat(ring), xs, C.Flat(C.RingAfter(ring, xs)), ConvOut(c, ring, xs));
  }

  /** Without bias and activation the outputs are the convolutions themselves. */
  lemma PlainConv(c: Kernel, ring: seq<Row>, xs: seq<Row>)
    requires ConvReady(c, ring, xs) && c.bias.None? && forall x :: c.act(x) == x
    ensures ConvOut(c, ring, xs) == C.ConvRows(ring, xs, c.weight, c.width, c.taps)
  {
    hide C.ConvRows;
    var ys := C.ConvRows(ring, xs, c.weight, c.width, c.taps);
    forall k | 0 <= k < |ys| ensures A.Active(ys[k], c.bias, c.act) == ys[k] {
    }
  }

  /** The whole row convolved, with no bias and no activation. */
  function PlainKernel(weight: Row, width: nat, taps: nat): Kernel {
    Kernel(weight, width, taps, 0, None, x => x)
  }

  /** One call of op_ssm_conv on the batch: what its contract (`ConvRing.SsmConv`) gives. */
  lemma SsmConvNode(weight: Row, width: nat, taps: nat, m: Model, g: seq<GraphNode>, t: seq<Word>, i: nat, pos: nat,
                    ring: seq<Row>, xs: seq<Row>)
    requires Backward(g) && i < |g| && g[i].op.Recur? && |g[i].src| == 1 && pos + |xs| <= |t|
    requires var c := PlainKernel(weight, width, taps); Follows(m, i, ConvRelation(c), ConvInput(c)) && ConvReady(c, ring, xs)
    requires forall k :: 0 <= k < |xs| ==> Val(m, g, t, g[i].src[0], pos + k) == Words(xs[k])
    requires StateAt(m, g, t, i, pos) == Words(C.Flat(ring))
    ensures StateAt(m, g, t, i, pos + |xs|) == Words(C.Flat(C.RingAfter(ring, xs)))
    ensures forall k :: 0 <= k < |xs| ==>
              Val(m, g, t, i, pos + k) == Words(C.ConvRows(ring, xs, weight, width, taps)[k])
  {
    hide Val, StateAt, Follows, ConvOut, C.Flat, C.RingAfter, C.ConvRows, ConvRelation;
    var c := PlainKernel(weight, width, taps);
    forall k | 0 <= k < |xs| ensures xs[k] == ConvInput(c)(Sources(m, g, t, i, pos + k)) {
      RealsOfWords(xs[k]);
      assert Reals(Words(xs[k]))[0..width] == xs[k];
    }
    ConvNode(c, m, g, t, i, pos, ring, xs);
    PlainConv(c, ring, xs);
  }
}
