/** The convolutions and the selective scan of src/backend/cpu/cpu_op.c entry by entry, at
    the positions of the flat arrays. */
module ScanEntries {
  import opened Common
  import opened Strides
  import opened FlatSums
  import opened ConvRing
  import MambaConv
  import M = MambaScan

  // ------------------------------------------------------------------- convolutions

  function Cell(rows: seq<Row>, k: int, c: int): real {
    if 0 <= k < |rows| then Get(rows[k], c) else 0.0
  }

  lemma {:induction false} TapsSum(window: seq<Row>, weight: seq<real>, taps: nat, c: nat, n: nat, f: int -> real)
    requires n <= taps && n <= |window| && (forall k :: 0 <= k < |window| ==> c < |window[k]|)
    requires Stride(c, taps) + taps <= |weight|
    requires forall k :: 0 <= k < n ==> f(k) == Cell(window, k, c) * Get(weight, Stride(c, taps) + k)
    ensures TapSum(window, weight, taps, c, n) == Sum(n, f)
  {
    hide Stride;
    if n > 0 { TapsSum(window, weight, taps, c, n - 1, f); }
  }

  /** Output c of row p is the sum over the taps k of input c of the row taps - 1 - k rows
      back, times weight c * taps + k; the rows before the first are those in the ring. */
  lemma ConvEntries(ring: seq<Row>, xs: seq<Row>, weight: seq<real>, width: nat, taps: nat, p: nat, c: nat)
    requires |ring| == Lag(taps) && AllWide(ring, width) && AllWide(xs, width) && WeightsFit(weight, width, taps)
    requires p < |xs| && c < width
    ensures ConvRows(ring, xs, weight, width, taps)[p][c] ==
            Sum(taps, k => Cell(ring + xs, p + k, c) * Get(weight, c * taps + k))
  {
    hide Stride, TapSum, ConvRows, Conv, Cell, Get, Sum;
    var window := (ring + xs[..p + 1])[p..];
    RowIsConv(ring, xs, weight, width, taps, p);
    ConvIsSum(window, weight, width, taps, c);
    var f, g := (k: int) => Cell(window, k, c) * Get(weight, c * taps + k),
                (k: int) => Cell(ring + xs, p + k, c) * Get(weight, c * taps + k);
    forall k: int | 0 <= k < taps ensures f(k) == g(k) { WindowCell(ring, xs, p, k, c); }
    SumSame(taps, f, g);
  }

  lemma ConvIsSum(window: seq<Row>, weight: seq<real>, width: nat, taps: nat, c: nat)
    requires AllWide(window, width) && taps <= |window| && WeightsFit(weight, width, taps) && c < width
    ensures Conv(window, weight, width, taps)[c] == Sum(taps, k => Cell(window, k, c) * Get(weight, c * taps + k))
  {
    hide Stride, TapSum, Cell, Get, Sum;
    StrideBelow(c, width, taps);
    StrideIs(c, taps);
    TapsSum(window, weight, taps, c, taps, k => Cell(window, k, c) * Get(weight, c * taps + k));
  }

  lemma WindowCell(ring: seq<Row>, xs: seq<Row>, p: nat, k: nat, c: int)
    requires p < |xs| && k <= |ring|
    ensures Cell((ring + xs[..p + 1])[p..], k, c) == Cell(ring + xs, p + k, c)
  {
  }

  lemma {:induction false} RowIsConv(ring: seq<Row>, xs: seq<Row>, weight: seq<real>, width: nat, taps: nat, p: nat)
    requires |ring| == Lag(taps) && AllWide(ring, width) && AllWide(xs, width) && WeightsFit(weight, width, taps) && p < |xs|
    ensures ConvRows(ring, xs, weight, width, taps)[p] == Conv((ring + xs[..p + 1])[p..], weight, width, taps)
    decreases |xs|
  {
    hide Conv;
    var n := |xs| - 1;
    if p < n {
      RowIsConv(ring, xs[..n], weight, width, taps, p);
      assert xs[..n][..p + 1] == xs[..p + 1];
    } else {
      assert xs[..p + 1] == xs;
    }
  }

  /** And afterwards the ring holds the last taps - 1 of all inputs, oldest first. */
  lemma RingEntries(ring: seq<Row>, xs: seq<Row>, taps: nat)
    requires |ring| == Lag(taps)
    ensures taps > 0 ==> |RingAfter(ring, xs)| == taps - 1
    ensures forall k :: 0 <= k < taps - 1 ==> RingAfter(ring, xs)[k] == (ring + xs)[|xs| + k]
  {
  }

  /** With bias and activation on top. */
  lemma ActiveEntries(ring: seq<Row>, xs: seq<Row>, weight: seq<real>, width: nat, taps: nat, bias: Option<Row>, act: real -> real,
                      p: nat, c: nat)
    requires |ring| == Lag(taps) && AllWide(ring, width) && AllWide(xs, width) && WeightsFit(weight, width, taps)
    requires (bias.Some? ==> |bias.value| == width) && p < |xs| && c < width
    ensures MambaConv.ActiveRows(ConvRows(ring, xs, weight, width, taps), width, bias, act)[p][c] ==
            act(Sum(taps, k => Cell(ring + xs, p + k, c) * Get(weight, c * taps + k)) + if bias.Some? then bias.value[c] else 0.0)
  {
    hide ConvRows, Cell, Get;
    ConvEntries(ring, xs, weight, width, taps, p, c);
  }

  // --------------------------------------------------------------------------- scan

  /** The slices of the rows that op_mamba2_scan reads: x, B and C of the convolved row; z,
      then what was convolved, then dt of the projection. */
  lemma InputEntries(p: M.Params, xbc: Row, proj: Row, r: nat, e: nat)
    requires Stride(r, M.ConvDim(p)) + M.ConvDim(p) <= |xbc| && Stride(r, M.ProjWidth(p)) + M.ProjWidth(p) <= |proj|
    ensures var x, nh := M.RowInput(p, xbc, proj, r), p.groups * p.perGroup;
            var inner, w := nh * p.hd, p.groups * p.ds;
            var cd := inner + 2 * w;
            && |x.x| == |x.z| == inner && |x.b| == |x.c| == w && |x.dt| == nh
            && (e < inner ==> x.x[e] == Get(xbc, r * cd + e) && x.z[e] == Get(proj, r * (cd + inner + nh) + e))
            && (e < w ==> x.b[e] == Get(xbc, r * cd + inner + e) && x.c[e] == Get(xbc, r * cd + inner + w + e))
            && (e < nh ==> x.dt[e] == Get(proj, r * (cd + inner + nh) + inner + cd + e))
  {
    hide M.RowInput, Get;
    Widths(p);
    StrideIs(r, M.ConvDim(p));
    StrideIs(r, M.ProjWidth(p));
    hide Stride;
    InputSlices(p, xbc, proj, r, e);
  }

  lemma Widths(p: M.Params)
    ensures M.HeadsOf(p) == p.groups * p.perGroup && M.Inner(p) == p.groups * p.perGroup * p.hd && M.Width(p) == p.groups * p.ds
  {
    StrideIs(p.groups, p.perGroup);
    StrideIs(M.HeadsOf(p), p.hd);
    StrideIs(p.groups, p.ds);
  }

  lemma InputSlices(p: M.Params, xbc: Row, proj: Row, r: nat, e: nat)
    requires Stride(r, M.ConvDim(p)) + M.ConvDim(p) <= |xbc| && Stride(r, M.ProjWidth(p)) + M.ProjWidth(p) <= |proj|
    ensures var x, at, pt := M.RowInput(p, xbc, proj, r), Stride(r, M.ConvDim(p)), Stride(r, M.ProjWidth(p));
            var inner, w := M.Inner(p), M.Width(p);
            && |x.x| == |x.z| == inner && |x.b| == |x.c| == w && |x.dt| == M.HeadsOf(p)
            && (e < inner ==> x.x[e] == Get(xbc, at + e) && x.z[e] == Get(proj, pt + e))
            && (e < w ==> x.b[e] == Get(xbc, at + inner + e) && x.c[e] == Get(xbc, at + inner + w + e))
            && (e < M.HeadsOf(p) ==> x.dt[e] == Get(proj, pt + inner + M.ConvDim(p) + e))
  {
    hide M.Inner, M.Width, M.HeadsOf, Get, Stride;
    ConvolvedSlices(p, xbc, proj, r, e);
    ProjectedSlices(p, xbc, proj, r, e);
    RowShape(p, xbc, proj, r);
  }

  lemma RowShape(p: M.Params, xbc: Row, proj: Row, r: nat)
    requires Stride(r, M.ConvDim(p)) + M.ConvDim(p) <= |xbc| && Stride(r, M.ProjWidth(p)) + M.ProjWidth(p) <= |proj|
    ensures M.Fits(p, M.RowInput(p, xbc, proj, r))
  {
    hide *;
  }

  lemma ConvolvedSlices(p: M.Params, xbc: Row, proj: Row, r: nat, e: nat)
    requires Stride(r, M.ConvDim(p)) + M.ConvDim(p) <= |xbc| && Stride(r, M.ProjWidth(p)) + M.ProjWidth(p) <= |proj|
    ensures var x, at, inner, w := M.RowInput(p, xbc, proj, r), Stride(r, M.ConvDim(p)), M.Inner(p), M.Width(p);
            && |x.x| == inner && |x.b| == |x.c| == w
            && (e < inner ==> x.x[e] == Get(xbc, at + e))
            && (e < w ==> x.b[e] == Get(xbc, at + inner + e) && x.c[e] == Get(xbc, at + inner + w + e))
  {
    hide M.Inner, M.Width, M.HeadsOf, Get, Stride;
    var at, inner, w, cd := Stride(r, M.ConvDim(p)), M.Inner(p), M.Width(p), M.ConvDim(p);
    if e < inner { GetSlice(xbc, at, cd, 0, inner, e); }
    if e < w {
      GetSlice(xbc, at, cd, inner, inner + w, e);
      GetSlice(xbc, at, cd, inner + w, cd, e);
    }
  }

  lemma ProjectedSlices(p: M.Params, xbc: Row, proj: Row, r: nat, e: nat)
    requires Stride(r, M.ConvDim(p)) + M.ConvDim(p) <= |xbc| && Stride(r, M.ProjWidth(p)) + M.ProjWidth(p) <= |proj|
    ensures var x, pt, inner := M.RowInput(p, xbc, proj, r), Stride(r, M.ProjWidth(p)), M.Inner(p);
            && |x.z| == inner && |x.dt| == M.HeadsOf(p)
            && (e < inner ==> x.z[e] == Get(proj, pt + e))
            && (e < M.HeadsOf(p) ==> x.dt[e] == Get(proj, pt + inner + M.ConvDim(p) + e))
  {
    hide M.Inner, M.Width, M.HeadsOf, Get, Stride;
    var pt, inner, cd, pw := Stride(r, M.ProjWidth(p)), M.Inner(p), M.ConvDim(p), M.ProjWidth(p);
    if e < inner { GetSlice(proj, pt, pw, 0, inner, e); }
    if e < M.HeadsOf(p) { GetSlice(proj, pt, pw, inner + cd, pw, e); }
  }

  /** Call number r reads row base + r. */
  lemma {:induction false} InputAt(p: M.Params, xbc: Row, proj: Row, base: nat, n: nat, r: nat)
    requires M.Sources(p, xbc, proj, base + n) && r < n
    ensures Stride(base + r, M.ConvDim(p)) + M.ConvDim(p) <= |xbc| && Stride(base + r, M.ProjWidth(p)) + M.ProjWidth(p) <= |proj|
    ensures M.Inputs(p, xbc, proj, base, n)[r] == M.RowInput(p, xbc, proj, base + r)
  {
    hide M.RowInput, Stride, M.ConvDim, M.ProjWidth;
    M.Inside(p, xbc, proj, base + n, base + n - 1);
    if r < n - 1 { InputAt(p, xbc, proj, base, n - 1, r); }
  }

  lemma {:induction false} ReadoutSum(t: Row, at: nat, c: Row, ca: nat, n: nat, f: int -> real)
    requires at + n <= |t| && ca + n <= |c|
    requires forall i :: 0 <= i < n ==> f(i) == Get(t, at + i) * Get(c, ca + i)
    ensures M.Readout(t, at, c, ca, n) == Sum(n, f)
  {
    if n > 0 {
      ReadoutSum(t, at, c, ca, n - 1, f);
      assert Get(t, at + n - 1) == t[at + n - 1] && Get(c, ca + n - 1) == c[ca + n - 1];
      assert f(n - 1) == M.Times(t[at + n - 1], c[ca + n - 1]);
    }
  }

  /** One row of op_mamba2_scan: entry e of channel d of head h decays, takes in x times the
      step size along the group's B, and is read out with its C; the skip connection is added
      before the gate. */
  lemma ScanEntry(p: M.Params, s: Row, x: M.Input, t: Row, y: Row, h: nat, d: nat, e: nat)
    requires M.Scanned(p, s, x, t, y, M.Inner(p)) && |y| == M.Inner(p)
    requires h < p.groups * p.perGroup && d < p.hd && e < p.ds
    ensures h < |x.dt| == |p.dtBias| == |p.skip| && h * p.hd + d < |y| == |x.x| == |x.z| && p.perGroup > 0
    ensures var ii, g, step := h * p.hd + d, h / p.perGroup, p.softplus(x.dt[h] + p.dtBias[h]);
            && Get(t, ii * p.ds + e) ==
               Get(s, ii * p.ds + e) * p.decayOf(h, step) + Get(x.b, g * p.ds + e) * (x.x[ii] * step)
            && y[ii] == (Sum(p.ds, i => Get(t, ii * p.ds + i) * Get(x.c, g * p.ds + i)) + x.x[ii] * p.skip[h]) * p.gate(x.z[ii])
  {
    hide Stride, Get, Sum, M.Readout, M.Advanced, M.Inner, M.HeadsOf, M.Width, M.Turn, M.ChannelOk;
    Widths(p);
    StrideIs(h, p.hd);
    StrideBelow(h, M.HeadsOf(p), p.hd);
    StrideIs(M.HeadsOf(p), p.hd);
    var ii, g := h * p.hd + d, h / p.perGroup;
    RowOfPosition(h, d, p.hd);
    assert M.Turn(p, s, x, t, y, ii);
    TurnEntry(p, s, x, t, y, h, ii, e);
    StrideIs(ii, p.ds);
    StrideIs(g, p.ds);
    M.Bounds(p, h, ii);
    ReadoutSum(t, Stride(ii, p.ds), x.c, Stride(g, p.ds), p.ds, i => Get(t, ii * p.ds + i) * Get(x.c, g * p.ds + i));
  }

  lemma TurnEntry(p: M.Params, s: Row, x: M.Input, t: Row, y: Row, h: nat, ii: nat, e: nat)
    requires M.Good(p) && M.Fits(p, x) && ii < M.Inner(p) == |y| && |s| == |t| == Stride(M.Inner(p), p.ds)
    requires M.Turn(p, s, x, t, y, ii) && h == ii / p.hd && e < p.ds
    ensures h < M.HeadsOf(p) && Stride(ii, p.ds) + p.ds <= |t| && Stride(h / p.perGroup, p.ds) + p.ds <= M.Width(p)
    ensures var at, g, step := Stride(ii, p.ds), Stride(h / p.perGroup, p.ds), p.softplus(x.dt[h] + p.dtBias[h]);
            && Get(t, at + e) == M.Times(Get(s, at + e), p.decayOf(h, step)) + M.Times(Get(x.b, g + e), M.Times(x.x[ii], step))
            && y[ii] == M.Times(M.Readout(t, at, x.c, g, p.ds) + M.Times(x.x[ii], p.skip[h]), p.gate(x.z[ii]))
  {
    hide Stride, M.Readout, M.Inner, M.HeadsOf, M.Width, M.Times;
    M.HeadIn(p, ii);
    M.Bounds(p, h, ii);
  }
}
