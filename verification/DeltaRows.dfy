/** The rows of the gated delta-rule operator (op_ssm_delta of src/backend/cpu/cpu_op.c):
    gates, normalised queries and keys, the step of every head, and the output norm, one
    row after the other over one state. The elementary functions are left open. */
module DeltaRows {
  import opened Strides
  import opened DeltaRule
  import C = ConvRing
  import opened RowRuns

  type Row = seq<real>

  /** decay is the gate of a head, update the strength of its correction; unit normalises
      a row of queries or keys, post the output. */
  datatype Params = Params(heads: nat, keyHeads: nat, d: nat, decay: (nat, real) -> real, update: real -> real,
                           unit: Row -> Row, scale: real, post: Row -> Row)

  datatype Input = Input(q: Row, k: Row, v: Row, alpha: Row, beta: Row)

  ghost predicate Good(p: Params) {
    p.keyHeads > 0 && (forall r :: |p.unit(r)| == |r|) && forall r :: |p.post(r)| == |r|
  }

  predicate Fits(p: Params, x: Input) {
    |x.q| == |x.k| == Stride(p.keyHeads, p.d) && |x.v| == Stride(p.heads, p.d) && |x.alpha| == |x.beta| == p.heads
  }

  function Scaled(r: Row, f: real): Row {
    seq(|r|, e requires 0 <= e < |r| => Times(r[e], f))
  }

  function Times(x: real, f: real): real {
    x * f
  }

  function Gates(p: Params, alpha: Row): Row {
    seq(|alpha|, i requires 0 <= i < |alpha| => p.decay(i, alpha[i]))
  }

  function Updates(p: Params, beta: Row): Row {
    seq(|beta|, i requires 0 <= i < |beta| => p.update(beta[i]))
  }

  // -------------------------------------------------------------------- one row

  /** The step of every head on one row, before the output norm. */
  ghost predicate Heads(p: Params, s: Row, x: Input, t: Row, y: Row) {
    && Good(p) && Fits(p, x) && |s| == |t| == Stride(p.heads, Stride(p.d, p.d)) && |y| == Stride(p.heads, p.d)
    && forall h :: 0 <= h < p.heads ==>
         HeadOk(h, t, s, y, p.d, p.keyHeads, Scaled(p.unit(x.q), p.scale), p.unit(x.k), x.v, Gates(p, x.alpha), Updates(p, x.beta))
  }

  ghost predicate RowStep(p: Params, s: Row, x: Input, t: Row, o: Row) {
    exists y :: Heads(p, s, x, t, y) && o == p.post(y)
  }

  ghost function Relation(p: Params): (Row, Input, Row, Row) -> bool {
    (s, x, t, o) => RowStep(p, s, x, t, o)
  }

  /** A head's matrix and readout are determined. */
  lemma HeadUnique(t: Row, o: Row, t': Row, o': Row, s: Row, d: nat, q: Row, k: Row, v: Row, g: real, b: real)
    requires Square(s, d) && |q| == |k| == |v| == d
    requires HeadDone(t, o, s, d, q, k, v, g, b) && HeadDone(t', o', s, d, q, k, v, g, b)
    ensures t == t' && o == o'
  {
    forall e | 0 <= e < |t| ensures t[e] == t'[e] {
      var i, j := StrideFind(e, d, d);
      hide Recall, Delta;
      assert At(t, d, i, j) == At(t', d, i, j);
    }
    assert t == t';
    assert o == o';
  }

  lemma HeadsUnique(p: Params, s: Row, x: Input, t: Row, y: Row, t': Row, y': Row)
    requires Heads(p, s, x, t, y) && Heads(p, s, x, t', y')
    ensures t == t' && y == y'
  {
    hide HeadDone, Stride, KeyHead, Square;
    forall h | 0 <= h < p.heads
      ensures Stride(h, Stride(p.d, p.d)) + Stride(p.d, p.d) <= |t| && Stride(h, p.d) + p.d <= |y|
      ensures BlockOf(t, p.d, h) == BlockOf(t', p.d, h) && RowOf(y, p.d, h) == RowOf(y', p.d, h)
    {
      ShapeOf(p.heads, p.keyHeads, p.d, h);
      var q, k, g, b := Scaled(p.unit(x.q), p.scale), p.unit(x.k), Gates(p, x.alpha), Updates(p, x.beta);
      var kh := KeyHead(h, p.keyHeads);
      assert HeadOk(h, t, s, y, p.d, p.keyHeads, q, k, x.v, g, b) && HeadOk(h, t', s, y', p.d, p.keyHeads, q, k, x.v, g, b);
      HeadUnique(BlockOf(t, p.d, h), RowOf(y, p.d, h), BlockOf(t', p.d, h), RowOf(y', p.d, h), BlockOf(s, p.d, h), p.d,
                 RowOf(q, p.d, kh), RowOf(k, p.d, kh), RowOf(x.v, p.d, h), g[h], b[h]);
    }
    C.Pieces(t, t', p.heads, Stride(p.d, p.d));
    C.Pieces(y, y', p.heads, p.d);
  }

  lemma RowsDeterministic(p: Params)
    ensures Deterministic(Relation(p))
  {
    hide Heads;
    forall s, x, t, o, t', o' | Relation(p)(s, x, t, o) && Relation(p)(s, x, t', o') ensures t == t' && o == o' {
      var y :| Heads(p, s, x, t, y) && o == p.post(y);
      var y' :| Heads(p, s, x, t', y') && o' == p.post(y');
      HeadsUnique(p, s, x, t, y, t', y');
    }
  }

  // ------------------------------------------------------------------ the operator

  function Fused(p: Params): nat {
    Stride(p.keyHeads, p.d) + Stride(p.keyHeads, p.d) + Stride(p.heads, p.d)
  }

  ghost predicate Sources(p: Params, fused: Row, alpha: Row, beta: Row, n: nat) {
    Stride(n, Fused(p)) <= |fused| && Stride(n, p.heads) <= |alpha| && Stride(n, p.heads) <= |beta|
  }

  /** What row r of the three sources holds. */
  function RowInput(p: Params, fused: Row, alpha: Row, beta: Row, r: nat): (x: Input)
    requires Stride(r, Fused(p)) + Fused(p) <= |fused|
    requires Stride(r, p.heads) + p.heads <= |alpha| && Stride(r, p.heads) + p.heads <= |beta|
    ensures Fits(p, x)
  {
    var f, kd := fused[Stride(r, Fused(p))..Stride(r, Fused(p)) + Fused(p)], Stride(p.keyHeads, p.d);
    Input(f[..kd], f[kd..kd + kd], f[kd + kd..], alpha[Stride(r, p.heads)..Stride(r, p.heads) + p.heads],
          beta[Stride(r, p.heads)..Stride(r, p.heads) + p.heads])
  }

  ghost function Inputs(p: Params, fused: Row, alpha: Row, beta: Row, base: nat, n: nat): (xs: seq<Input>)
    requires Sources(p, fused, alpha, beta, base + n)
    ensures |xs| == n
  {
    if n == 0 then []
    else
      StrideBelow(base + n - 1, base + n, Fused(p));
      StrideBelow(base + n - 1, base + n, p.heads);
      Inputs(p, fused, alpha, beta, base, n - 1) + [RowInput(p, fused, alpha, beta, base + n - 1)]
  }

  /** The gate loop. */
  method GateRow(p: Params, alpha: Row, beta: Row) returns (g: Row, b: Row)
    requires |alpha| == |beta|
    ensures g == Gates(p, alpha) && b == Updates(p, beta)
  {
    g, b := [], [];
    for i := 0 to |alpha|
      invariant g == Gates(p, alpha)[..i] && b == Updates(p, beta)[..i]
    {
      g, b := g + [p.decay(i, alpha[i])], b + [p.update(beta[i])];
    }
  }

  /** The loop that scales the queries. */
  method ScaleRow(r: Row, f: real) returns (q: Row)
    ensures q == Scaled(r, f)
  {
    hide Times;
    q := [];
    for e := 0 to |r|
      invariant q == Scaled(r, f)[..e]
    {
      q := q + [Times(r[e], f)];
    }
  }

  /** The loop body: one row. */
  method OneRow(p: Params, x: Input, state: array<real>) returns (o: Row)
    requires Good(p) && Fits(p, x) && state.Length == Stride(p.heads, Stride(p.d, p.d))
    modifies state
    ensures RowStep(p, old(state[..]), x, state[..], o) && |o| == Stride(p.heads, p.d)
  {
    hide Stride, HeadOk;
    ghost var s := state[..];
    var g, b := GateRow(p, x.alpha, x.beta);
    var q := ScaleRow(p.unit(x.q), p.scale);
    var y := new real[Stride(p.heads, p.d)](_ => 0.0);
    GatedDeltaStep(q, p.unit(x.k), x.v, state, g, b, y, p.keyHeads, p.d);
    assert state.Length == |s| && |x.v| == Stride(p.heads, p.d) && |g| == p.heads;
    forall h | 0 <= h < p.heads
      ensures HeadOk(h, state[..], s, y[..], p.d, p.keyHeads, Scaled(p.unit(x.q), p.scale), p.unit(x.k), x.v, Gates(p, x.alpha), Updates(p, x.beta))
    {
    }
    assert Heads(p, s, x, state[..], y[..]);
    o := p.post(y[..]);
  }

  /** op_ssm_delta: the rows of the result and the state after them are the run of the
      single steps. */
  method SsmDelta(p: Params, dst: array<real>, fused: Row, alpha: Row, beta: Row, base: nat, rows: nat, state: array<real>)
    returns (ghost ys: seq<Row>)
    requires Good(p) && state != dst && state.Length == Stride(p.heads, Stride(p.d, p.d))
    requires Sources(p, fused, alpha, beta, base + rows) && dst.Length == Stride(rows, Stride(p.heads, p.d))
    modifies dst, state
    ensures dst[..] == C.Flat(ys) && C.AllWide(ys, Stride(p.heads, p.d))
    ensures Rows(Relation(p), old(state[..]), Inputs(p, fused, alpha, beta, base, rows), state[..], ys)
  {
    hide *;
    ys := [];
    ghost var s, w := state[..], Stride(p.heads, p.d);
    PartOf(p, fused, alpha, beta, base + rows, base);
    Nothing(p, fused, alpha, beta, base, s, w);
    var r := 0;
    while r < rows
      invariant 0 <= r <= rows && |ys| == r && C.AllWide(ys, w) && Stride(r, w) <= dst.Length
      invariant Sources(p, fused, alpha, beta, base + r)
      invariant dst[..Stride(r, w)] == C.Flat(ys)
      invariant Rows(Relation(p), s, Inputs(p, fused, alpha, beta, base, r), state[..], ys)
    {
      StrideBelow(r, rows, w);
      Inside(p, fused, alpha, beta, base + rows, base + r);
      ghost var done, mid := dst[..Stride(r, w)], state[..];
      InputsNext(p, fused, alpha, beta, base, r);
      var x := RowInput(p, fused, alpha, beta, base + r);
      var o := OneRow(p, x, state);
      ghost var after := state[..];
      C.CopyRow(dst, Stride(r, Stride(p.heads, p.d)), o, 0, |o|);
      assert state[..] == after;
      StepIs(p, mid, x, after, o);
      Append(Relation(p), s, Inputs(p, fused, alpha, beta, base, r), mid, ys, x, after, o);
      C.FlatAppend(ys, [o]);
      C.FlatOne(o);
      C.WideMore(ys, o, w);
      ys := ys + [o];
      r := r + 1;
      assert dst[..Stride(r, w)] == done + o;
    }
  }

  lemma StepIs(p: Params, s: Row, x: Input, t: Row, o: Row)
    requires RowStep(p, s, x, t, o)
    ensures Relation(p)(s, x, t, o)
  {
  }

  lemma InputsNext(p: Params, fused: Row, alpha: Row, beta: Row, base: nat, n: nat)
    requires Sources(p, fused, alpha, beta, base + n) && Sources(p, fused, alpha, beta, base + n + 1)
    requires Stride(base + n, Fused(p)) + Fused(p) <= |fused|
    requires Stride(base + n, p.heads) + p.heads <= |alpha| && Stride(base + n, p.heads) + p.heads <= |beta|
    ensures Inputs(p, fused, alpha, beta, base, n + 1) == Inputs(p, fused, alpha, beta, base, n) + [RowInput(p, fused, alpha, beta, base + n)]
  {
  }

  lemma PartOf(p: Params, fused: Row, alpha: Row, beta: Row, n: nat, m: nat)
    requires Sources(p, fused, alpha, beta, n) && m <= n
    ensures Sources(p, fused, alpha, beta, m)
  {
    if m < n { Inside(p, fused, alpha, beta, n, m); }
  }

  lemma Inside(p: Params, fused: Row, alpha: Row, beta: Row, n: nat, m: nat)
    requires Sources(p, fused, alpha, beta, n) && m < n
    ensures Stride(m, Fused(p)) + Fused(p) <= |fused| && Stride(m, p.heads) + p.heads <= |alpha| && Stride(m, p.heads) + p.heads <= |beta|
    ensures Sources(p, fused, alpha, beta, m) && Sources(p, fused, alpha, beta, m + 1)
  {
    StrideBelow(m, n, Fused(p));
    StrideBelow(m, n, p.heads);
  }

  /** Any split of the rows into two calls gives the same rows and the same state. */
  lemma SplitDelta(p: Params, s: Row, xs: seq<Input>, mid: Row, ys: seq<Row>, zs: seq<Input>, t: Row, ws: seq<Row>,
                   whole: Row, os: seq<Row>)
    requires Rows(Relation(p), s, xs, mid, ys) && Rows(Relation(p), mid, zs, t, ws)
    requires Rows(Relation(p), s, xs + zs, whole, os)
    ensures whole == t && os == ys + ws
  {
    RowsDeterministic(p);
    SplitSame(Relation(p), s, xs, mid, ys, zs, t, ws, whole, os);
  }

  lemma Nothing(p: Params, fused: Row, alpha: Row, beta: Row, base: nat, s: Row, w: nat)
    requires Sources(p, fused, alpha, beta, base)
    ensures Rows(Relation(p), s, Inputs(p, fused, alpha, beta, base, 0), s, []) && Stride(0, w) == 0 && C.Flat([]) == []
    ensures C.AllWide([], w)
  {
  }
}
