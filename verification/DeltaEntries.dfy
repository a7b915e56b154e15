/** The gated delta-rule step entry by entry, at the positions of the flat arrays of
    src/backend/cpu/cpu_op.c, and what reusing the query and key heads amounts to. */
module DeltaEntries {
  import opened Strides
  import opened FlatSums
  import opened DeltaRule
  import R = DeltaRows

  lemma {:induction false} RecallSum(s: seq<real>, d: nat, k: seq<real>, j: nat, n: nat, f: int -> real)
    requires Square(s, d) && |k| == d && j < d && n <= d
    requires forall i :: 0 <= i < n ==> f(i) == At(s, d, i, j) * k[i]
    ensures Recall(s, d, k, j, n) == Sum(n, f)
  {
    hide At;
    if n > 0 { RecallSum(s, d, k, j, n - 1, f); }
  }

  /** Entry (i, j) of head h, and entry j of a row. */
  lemma Places(s: seq<real>, heads: nat, d: nat, h: nat, i: nat, j: nat)
    requires |s| == Stride(heads, Stride(d, d)) && h < heads && i < d && j < d
    ensures Stride(h, Stride(d, d)) + Stride(d, d) <= |s| && 0 <= h * (d * d) + i * d + j < |s|
    ensures At(BlockOf(s, d, h), d, i, j) == s[h * (d * d) + i * d + j]
  {
    StrideIs(h, Stride(d, d));
    StrideIs(d, d);
    StrideIs(i, d);
    StrideBelow(h, heads, Stride(d, d));
    StrideBelow(i, d, d);
    assert Stride(h, Stride(d, d)) == h * (d * d);
    hide Stride;
  }

  lemma RowPlace(s: seq<real>, heads: nat, d: nat, h: nat, j: nat)
    requires |s| == Stride(heads, d) && h < heads && j < d
    ensures Stride(h, d) + d <= |s| && 0 <= h * d + j < |s| && RowOf(s, d, h)[j] == s[h * d + j]
  {
    StrideIs(h, d);
    StrideBelow(h, heads, d);
    hide Stride;
  }

  /** An entry x of the state becomes y: decayed by g, plus the key's entry times what the
      column lacks, which is the value less the decayed recall, in the share b. */
  predicate Moved(x: real, y: real, g: real, b: real, key: real, value: real, recall: real) {
    y == x * g + key * ((value - recall * g) * b)
  }

  /** What gated_delta_step leaves in the flat arrays: with kh = h mod keyHeads, the state of
      head h decays and gains the outer product of key kh and the corrected value, and the
      output is the new state read with query kh. */
  lemma HeadEntries(h: nat, state: seq<real>, before: seq<real>, output: seq<real>, d: nat, keyHeads: nat,
                    q: seq<real>, k: seq<real>, v: seq<real>, g: seq<real>, b: seq<real>, i: nat, j: nat)
    requires h < |g| == |b| && Shapes(|g|, keyHeads, d, q, k, v) && |output| == Stride(|g|, d)
    requires |state| == |before| == Stride(|g|, Stride(d, d)) && i < d && j < d
    requires HeadOk(h, state, before, output, d, keyHeads, q, k, v, g, b)
    ensures h * (d * d) + i * d + j < |state| && h % keyHeads * d + i < |k| && h * d + j < |output|
    ensures var at, kh := h * (d * d), h % keyHeads * d;
            Moved(Get(before, at + i * d + j), Get(state, at + i * d + j), g[h], b[h], Get(k, kh + i), Get(v, h * d + j),
                  Sum(d, r => Get(before, at + r * d + j) * Get(k, kh + r)))
    ensures var at, kh := h * (d * d), h % keyHeads * d;
            Get(output, h * d + j) == Sum(d, r => Get(state, at + r * d + j) * Get(q, kh + r))
  {
    hide At, Stride, Recall, Get, Sum, BlockOf, RowOf, HeadDone, Moved;
    var kh := h % keyHeads;
    RecallEntries(before, |g|, d, h, k, keyHeads, kh, j);
    RecallEntries(state, |g|, d, h, q, keyHeads, kh, j);
    GetRow(v, |g|, d, h, j);
    GetRow(output, |g|, d, h, j);
    GetRow(k, keyHeads, d, kh, i);
    GetEntry(before, |g|, d, h, i, j);
    GetEntry(state, |g|, d, h, i, j);
    ShapeOf(|g|, keyHeads, d, h);
    DoneAt(BlockOf(state, d, h), RowOf(output, d, h), BlockOf(before, d, h), d, RowOf(q, d, kh), RowOf(k, d, kh), RowOf(v, d, h),
           g[h], b[h], i, j);
  }

  lemma DoneAt(t: seq<real>, o: seq<real>, s: seq<real>, d: nat, q: seq<real>, k: seq<real>, v: seq<real>, g: real, b: real, i: nat, j: nat)
    requires Square(s, d) && |q| == |k| == |v| == d && HeadDone(t, o, s, d, q, k, v, g, b) && i < d && j < d
    ensures Square(t, d) && |o| == d && o[j] == Recall(t, d, q, j, d)
    ensures Moved(At(s, d, i, j), At(t, d, i, j), g, b, k[i], v[j], Recall(s, d, k, j, d))
  {
    hide At, Recall, Delta, Moved;
    DeltaMoves(At(s, d, i, j), At(t, d, i, j), s, d, k, v, g, b, i, j);
  }

  lemma DeltaMoves(x: real, y: real, s: seq<real>, d: nat, k: seq<real>, v: seq<real>, g: real, b: real, i: nat, j: nat)
    requires Square(s, d) && |k| == |v| == d && i < d && j < d
    requires y == x * g + k[i] * Delta(s, d, k, v, g, b, j)
    ensures Moved(x, y, g, b, k[i], v[j], Recall(s, d, k, j, d))
  {
    hide Recall;
  }

  /** Reading the matrix of head h with head kh of the queries or keys. */
  lemma RecallEntries(s: seq<real>, heads: nat, d: nat, h: nat, k: seq<real>, keyHeads: nat, kh: nat, j: nat)
    requires |s| == Stride(heads, Stride(d, d)) && |k| == Stride(keyHeads, d) && h < heads && kh < keyHeads && j < d
    ensures Stride(h, Stride(d, d)) + Stride(d, d) <= |s| && Stride(kh, d) + d <= |k|
    ensures Recall(BlockOf(s, d, h), d, RowOf(k, d, kh), j, d) ==
            Sum(d, r => Get(s, h * (d * d) + r * d + j) * Get(k, kh * d + r))
  {
    hide At, Stride, Recall, Get, Sum, BlockOf, RowOf;
    GetEntry(s, heads, d, h, j, j);
    GetRow(k, keyHeads, d, kh, j);
    forall r: nat | r < d
      ensures Get(s, h * (d * d) + r * d + j) == At(BlockOf(s, d, h), d, r, j) && Get(k, kh * d + r) == RowOf(k, d, kh)[r]
    {
      GetEntry(s, heads, d, h, r, j);
      GetRow(k, keyHeads, d, kh, r);
    }
    RecallSum(BlockOf(s, d, h), d, RowOf(k, d, kh), j, d, r => Get(s, h * (d * d) + r * d + j) * Get(k, kh * d + r));
  }

  lemma GetEntry(s: seq<real>, heads: nat, d: nat, h: nat, i: nat, j: nat)
    requires |s| == Stride(heads, Stride(d, d)) && h < heads && i < d && j < d
    ensures Stride(h, Stride(d, d)) + Stride(d, d) <= |s| && 0 <= h * (d * d) + i * d + j < |s|
    ensures At(BlockOf(s, d, h), d, i, j) == Get(s, h * (d * d) + i * d + j)
  {
    hide BlockOf, At;
    Places(s, heads, d, h, i, j);
  }

  lemma GetRow(s: seq<real>, heads: nat, d: nat, h: nat, j: nat)
    requires |s| == Stride(heads, d) && h < heads && j < d
    ensures Stride(h, d) + d <= |s| && 0 <= h * d + j < |s| && RowOf(s, d, h)[j] == Get(s, h * d + j)
  {
    hide RowOf;
    RowPlace(s, heads, d, h, j);
  }

  // ------------------------------------------------------------------- reused heads

  /** n copies of r, one after the other. */
  function Repeated(r: seq<real>, n: nat): seq<real> {
    if n == 0 then [] else Repeated(r, n - 1) + r
  }

  lemma {:induction false} RepeatedRow(r: seq<real>, n: nat, keyHeads: nat, d: nat, c: nat, h: nat)
    requires |r| == Stride(keyHeads, d) && c < n && h < keyHeads
    ensures |Repeated(r, n)| == Stride(Stride(n, keyHeads), d)
    ensures Stride(h, d) + d <= |r| && Stride(Stride(c, keyHeads) + h, d) + d <= |Repeated(r, n)|
    ensures RowOf(Repeated(r, n), d, Stride(c, keyHeads) + h) == RowOf(r, d, h)
  {
    StrideBelow(h, keyHeads, d);
    RepeatedLength(r, n - 1, keyHeads, d);
    RepeatedLength(r, n, keyHeads, d);
    StrideSum(Stride(n - 1, keyHeads), h, d);
    if c < n - 1 {
      RepeatedRow(r, n - 1, keyHeads, d, c, h);
      hide Stride;
    }
  }

  lemma {:induction false} RepeatedLength(r: seq<real>, n: nat, keyHeads: nat, d: nat)
    requires |r| == Stride(keyHeads, d)
    ensures |Repeated(r, n)| == Stride(Stride(n, keyHeads), d)
  {
    if n > 0 {
      RepeatedLength(r, n - 1, keyHeads, d);
      StrideSum(Stride(n - 1, keyHeads), keyHeads, d);
    }
  }

  lemma {:induction false} StrideSum(a: nat, b: nat, d: nat)
    ensures Stride(a + b, d) == Stride(a, d) + Stride(b, d)
  {
    if b > 0 { StrideSum(a, b - 1, d); }
  }

  /** Value head h reads the head at h of the repeated blocks. */
  lemma ReadsRepeated(r: seq<real>, n: nat, keyHeads: nat, d: nat, h: nat)
    requires keyHeads > 0 && |r| == Stride(keyHeads, d) && h < n * keyHeads
    ensures |Repeated(r, n)| == Stride(n * keyHeads, d) && Stride(h, d) + d <= |Repeated(r, n)|
    ensures Stride(KeyHead(h, keyHeads), d) + d <= |r|
    ensures RowOf(Repeated(r, n), d, h) == RowOf(r, d, KeyHead(h, keyHeads))
  {
    StrideIs(n, keyHeads);
    var c, e := StrideFind(h, n, keyHeads);
    StrideIs(c, keyHeads);
    Remainder(c, e, keyHeads);
    hide RowOf, Repeated;
    RepeatedRow(r, n, keyHeads, d, c, e);
  }

  lemma Remainder(c: nat, e: nat, m: nat)
    requires e < m
    ensures (c * m + e) % m == e
  {
    var x := c * m + e;
    RowOfPosition(c, e, m);
    StrideIs(c, m);
    assert x == m * (x / m) + x % m;
  }

  /** The step on keyHeads query and key heads is the step that has as many of them as value
      heads, on the blocks of queries and keys repeated whole. */
  lemma StepTiles(n: nat, keyHeads: nat, d: nat, q: seq<real>, k: seq<real>, v: seq<real>, g: seq<real>, b: seq<real>,
                  state: seq<real>, before: seq<real>, output: seq<real>)
    requires |g| == |b| == n * keyHeads && Shapes(|g|, keyHeads, d, q, k, v) && |output| == Stride(|g|, d) && n > 0
    requires |state| == |before| == Stride(|g|, Stride(d, d))
    ensures Shapes(|g|, |g|, d, Repeated(q, n), Repeated(k, n), v)
    ensures (forall h :: 0 <= h < |g| ==> HeadOk(h, state, before, output, d, keyHeads, q, k, v, g, b)) <==>
            (forall h :: 0 <= h < |g| ==> HeadOk(h, state, before, output, d, |g|, Repeated(q, n), Repeated(k, n), v, g, b))
  {
    hide HeadDone, Stride, KeyHead, Repeated;
    ReadsRepeated(q, n, keyHeads, d, 0);
    ReadsRepeated(k, n, keyHeads, d, 0);
    forall h | 0 <= h < |g|
      ensures HeadOk(h, state, before, output, d, keyHeads, q, k, v, g, b) <==>
              HeadOk(h, state, before, output, d, |g|, Repeated(q, n), Repeated(k, n), v, g, b)
    {
      ReadsRepeated(q, n, keyHeads, d, h);
      ReadsRepeated(k, n, keyHeads, d, h);
      OwnHead(h, |g|);
      ShapeOf(|g|, keyHeads, d, h);
      ShapeOf(|g|, |g|, d, h);
    }
  }

  /** With as many query and key heads as value heads, each reads its own. */
  lemma OwnHead(h: nat, heads: nat)
    requires h < heads
    ensures KeyHead(h, heads) == h
  {
  }

  // ------------------------------------------------------------------ op_ssm_delta

  /** Row r of the fused source holds the queries, then the keys, then the values. */
  lemma InputEntries(p: R.Params, fused: R.Row, alpha: R.Row, beta: R.Row, r: nat, e: nat)
    requires Stride(r, R.Fused(p)) + R.Fused(p) <= |fused|
    requires Stride(r, p.heads) + p.heads <= |alpha| && Stride(r, p.heads) + p.heads <= |beta|
    ensures var x, kd, vd := R.RowInput(p, fused, alpha, beta, r), p.keyHeads * p.d, p.heads * p.d;
            var at := r * (2 * kd + vd);
            && |x.q| == |x.k| == kd && |x.v| == vd && |x.alpha| == |x.beta| == p.heads
            && (e < kd ==> x.q[e] == Get(fused, at + e) && x.k[e] == Get(fused, at + kd + e))
            && (e < vd ==> x.v[e] == Get(fused, at + 2 * kd + e))
            && (e < p.heads ==> x.alpha[e] == Get(alpha, r * p.heads + e) && x.beta[e] == Get(beta, r * p.heads + e))
  {
    hide R.RowInput, Get;
    StrideIs(p.keyHeads, p.d);
    StrideIs(p.heads, p.d);
    StrideIs(r, R.Fused(p));
    StrideIs(r, p.heads);
    hide Stride;
    InputSlices(p, fused, alpha, beta, r, e);
    FusedWidth(p);
  }

  lemma FusedWidth(p: R.Params)
    ensures R.Fused(p) == 2 * (p.keyHeads * p.d) + p.heads * p.d
  {
    StrideIs(p.keyHeads, p.d);
    StrideIs(p.heads, p.d);
  }

  lemma InputSlices(p: R.Params, fused: R.Row, alpha: R.Row, beta: R.Row, r: nat, e: nat)
    requires Stride(r, R.Fused(p)) + R.Fused(p) <= |fused|
    requires Stride(r, p.heads) + p.heads <= |alpha| && Stride(r, p.heads) + p.heads <= |beta|
    ensures var x, at, kd, vd := R.RowInput(p, fused, alpha, beta, r), Stride(r, R.Fused(p)), Stride(p.keyHeads, p.d), Stride(p.heads, p.d);
            && |x.q| == |x.k| == kd && |x.v| == vd && |x.alpha| == |x.beta| == p.heads
            && (e < kd ==> x.q[e] == Get(fused, at + e) && x.k[e] == Get(fused, at + kd + e))
            && (e < vd ==> x.v[e] == Get(fused, at + 2 * kd + e))
            && (e < p.heads ==> x.alpha[e] == Get(alpha, Stride(r, p.heads) + e) && x.beta[e] == Get(beta, Stride(r, p.heads) + e))
  {
    hide Stride;
    var x, at, kd, vd := R.RowInput(p, fused, alpha, beta, r), Stride(r, R.Fused(p)), Stride(p.keyHeads, p.d), Stride(p.heads, p.d);
    var f := fused[at..at + R.Fused(p)];
    if e < kd { assert x.k[e] == f[kd + e] == fused[at + (kd + e)]; }
    if e < vd { assert x.v[e] == f[2 * kd + e] == fused[at + (2 * kd + e)]; }
  }

  /** Call number r reads row base + r. */
  lemma {:induction false} InputAt(p: R.Params, fused: R.Row, alpha: R.Row, beta: R.Row, base: nat, n: nat, r: nat)
    requires R.Sources(p, fused, alpha, beta, base + n) && r < n
    ensures Stride(base + r, R.Fused(p)) + R.Fused(p) <= |fused|
    ensures Stride(base + r, p.heads) + p.heads <= |alpha| && Stride(base + r, p.heads) + p.heads <= |beta|
    ensures R.Inputs(p, fused, alpha, beta, base, n)[r] == R.RowInput(p, fused, alpha, beta, base + r)
  {
    hide R.RowInput, Stride;
    StrideBelow(base + n - 1, base + n, R.Fused(p));
    StrideBelow(base + n - 1, base + n, p.heads);
    R.Inside(p, fused, alpha, beta, base + n, base + n - 1);
    if r < n - 1 { InputAt(p, fused, alpha, beta, base, n - 1, r); }
  }

  /** What the row x makes of entry (i, j) of head h, from state s to state t with readout y
      before the output norm. */
  ghost predicate Entry(p: R.Params, s: R.Row, x: R.Input, t: R.Row, y: R.Row, h: nat, i: nat, j: nat)
    requires h < |x.alpha| && h < |x.beta| && p.keyHeads > 0
  {
    var at, kh, k, q := h * (p.d * p.d), h % p.keyHeads * p.d, p.unit(x.k), p.unit(x.q);
    var decay, update := p.decay(h, x.alpha[h]), p.update(x.beta[h]);
    var recall := Sum(p.d, r => Get(s, at + r * p.d + j) * Get(k, kh + r));
    && Moved(Get(s, at + i * p.d + j), Get(t, at + i * p.d + j), decay, update, Get(k, kh + i), Get(x.v, h * p.d + j), recall)
    && Get(y, h * p.d + j) == Sum(p.d, r => Get(t, at + r * p.d + j) * (Get(q, kh + r) * p.scale))
  }

  lemma GetScaled(r: R.Row, f: real, e: int)
    ensures Get(R.Scaled(r, f), e) == Get(r, e) * f
  {
  }

  lemma SumScaled(t: seq<real>, q: seq<real>, f: real, at: int, kh: int, d: nat, j: int)
    ensures Sum(d, r => Get(t, at + r * d + j) * Get(R.Scaled(q, f), kh + r)) ==
            Sum(d, r => Get(t, at + r * d + j) * (Get(q, kh + r) * f))
  {
    hide Sum, Get, R.Scaled;
    var before := (r: int) => Get(t, at + r * d + j) * Get(R.Scaled(q, f), kh + r);
    var after := (r: int) => Get(t, at + r * d + j) * (Get(q, kh + r) * f);
    forall r: int | 0 <= r < d ensures before(r) == after(r) {
      GetScaled(q, f, kh + r);
    }
    SumSame(d, before, after);
  }

  lemma HeadOfRow(p: R.Params, s: R.Row, x: R.Input, t: R.Row, y: R.Row, h: nat)
    requires R.Heads(p, s, x, t, y) && h < p.heads
    ensures var g, b, q, k := R.Gates(p, x.alpha), R.Updates(p, x.beta), R.Scaled(p.unit(x.q), p.scale), p.unit(x.k);
            && |x.alpha| == |x.beta| == |g| == |b| == p.heads && Shapes(|g|, p.keyHeads, p.d, q, k, x.v) && |y| == Stride(|g|, p.d)
            && |t| == |s| == Stride(|g|, Stride(p.d, p.d)) && HeadOk(h, t, s, y, p.d, p.keyHeads, q, k, x.v, g, b)
            && g[h] == p.decay(h, x.alpha[h]) && b[h] == p.update(x.beta[h])
  {
    hide HeadOk, Stride;
  }

  lemma EntryOfHeads(p: R.Params, s: R.Row, x: R.Input, t: R.Row, y: R.Row, h: nat, i: nat, j: nat)
    requires R.Heads(p, s, x, t, y) && h < p.heads && i < p.d && j < p.d
    ensures h < |x.alpha| == |x.beta| && p.keyHeads > 0 && Entry(p, s, x, t, y, h, i, j)
  {
    hide HeadOk, Sum, Get, Moved, R.Scaled, Stride, R.Heads, R.Gates, R.Updates;
    HeadOfRow(p, s, x, t, y, h);
    var at, kh, q, k := h * (p.d * p.d), h % p.keyHeads * p.d, p.unit(x.q), p.unit(x.k);
    HeadEntries(h, t, s, y, p.d, p.keyHeads, R.Scaled(q, p.scale), k, x.v, R.Gates(p, x.alpha), R.Updates(p, x.beta), i, j);
    SumScaled(t, q, p.scale, at, kh, p.d, j);
  }

  /** One row of op_ssm_delta, entry by entry: every head decays by its gate, is corrected
      with the normalised key, and is read with the normalised and scaled query. */
  lemma StepEntries(p: R.Params, s: R.Row, x: R.Input, t: R.Row, o: R.Row) returns (y: R.Row)
    requires R.RowStep(p, s, x, t, o)
    ensures p.keyHeads > 0 && |x.alpha| == |x.beta| == p.heads && |t| == |s| && o == p.post(y)
    ensures forall h: nat, i: nat, j: nat :: h < p.heads && i < p.d && j < p.d ==> Entry(p, s, x, t, y, h, i, j)
  {
    hide HeadOk, Entry;
    y :| R.Heads(p, s, x, t, y) && o == p.post(y);
    forall h: nat, i: nat, j: nat | h < p.heads && i < p.d && j < p.d ensures Entry(p, s, x, t, y, h, i, j) {
      EntryOfHeads(p, s, x, t, y, h, i, j);
    }
  }
}
