/** The selective scan of the second recurrent architecture (op_mamba2_scan of
    src/backend/cpu/cpu_op.c), over the reals: every channel's state vector decays, takes in
    the row and is read out, one row after the other. The elementary functions are left
    open. */
module MambaScan {
  import opened Strides
  import C = ConvRing
  import opened RowRuns

  type Row = seq<real>

  /** heads heads of hd channels; every perGroup heads share their input and readout
      vectors of ds entries. decayOf is the factor of a head at a step size, gate that of
      an output, post the output norm. */
  datatype Params = Params(groups: nat, perGroup: nat, hd: nat, ds: nat, dtBias: Row, skip: Row,
                           softplus: real -> real, decayOf: (nat, real) -> real, gate: real -> real, post: Row -> Row)

  function HeadsOf(p: Params): nat { Stride(p.groups, p.perGroup) }

  function Inner(p: Params): nat { Stride(HeadsOf(p), p.hd) }

  function Width(p: Params): nat { Stride(p.groups, p.ds) }

  ghost predicate Good(p: Params) {
    && p.perGroup > 0 && p.hd > 0 && |p.dtBias| == |p.skip| == HeadsOf(p)
    && forall r :: |p.post(r)| == |r|
  }

  /** The slices of the two source rows. */
  datatype Input = Input(x: Row, b: Row, c: Row, z: Row, dt: Row)

  predicate Fits(p: Params, x: Input) {
    |x.x| == |x.z| == Inner(p) && |x.b| == |x.c| == Width(p) && |x.dt| == HeadsOf(p)
  }

  function Times(x: real, y: real): real { x * y }

  // ------------------------------------------------------------------ one channel

  /** The state vector t against the first n entries of the readout vector. */
  function Readout(t: Row, at: nat, c: Row, ca: nat, n: nat): real
    requires at + n <= |t| && ca + n <= |c|
  {
    if n == 0 then 0.0 else Readout(t, at, c, ca, n - 1) + Times(t[at + n - 1], c[ca + n - 1])
  }

  /** The vector at `at` decays and takes in x along b. */
  predicate Advanced(s: Row, t: Row, at: nat, ds: nat, dA: real, b: Row, ba: nat, x: real)
    requires at + ds <= |s| == |t| && ba + ds <= |b|
  {
    forall e :: at <= e < at + ds ==> t[e] == Times(s[e], dA) + Times(b[ba + (e - at)], x)
  }

  /** The fused loop of one channel. */
  method Channel(state: array<real>, at: nat, ds: nat, dA: real, b: Row, c: Row, g: nat, x: real) returns (sum: real)
    requires at + ds <= state.Length && g + ds <= |b| == |c|
    modifies state
    ensures Advanced(old(state[..]), state[..], at, ds, dA, b, g, x)
    ensures sum == Readout(state[..], at, c, g, ds)
    ensures forall e :: 0 <= e < state.Length && !(at <= e < at + ds) ==> state[e] == old(state[e])
  {
    hide Times;
    ghost var s := state[..];
    sum := 0.0;
    var i := 0;
    while i < ds
      invariant 0 <= i <= ds && sum == Readout(state[..], at, c, g, i)
      invariant forall e :: at <= e < at + i ==> state[e] == Times(s[e], dA) + Times(b[g + (e - at)], x)
      invariant forall e :: 0 <= e < state.Length && !(at <= e < at + i) ==> state[e] == s[e]
    {
      var v := Times(state[at + i], dA) + Times(b[g + i], x);
      ghost var before := state[..];
      state[at + i] := v;
      SameReadout(before, state[..], at, c, g, i);
      sum := sum + Times(v, c[g + i]);
      i := i + 1;
    }
  }

  lemma {:induction false} SameReadout(s: Row, t: Row, at: nat, c: Row, ca: nat, n: nat)
    requires at + n <= |s| == |t| && ca + n <= |c| && forall e :: at <= e < at + n ==> s[e] == t[e]
    ensures Readout(s, at, c, ca, n) == Readout(t, at, c, ca, n)
  {
    if n > 0 { SameReadout(s, t, at, c, ca, n - 1); }
  }

  // ---------------------------------------------------------------------- one row

  /** Channel ii of head h after the row: its state vector and its output. */
  ghost predicate ChannelOk(p: Params, s: Row, x: Input, t: Row, y: Row, h: nat, ii: nat)
    requires Good(p) && Fits(p, x) && h < HeadsOf(p) && ii < Inner(p) && ii < |y|
    requires |s| == |t| == Stride(Inner(p), p.ds)
  {
    Bounds(p, h, ii);
    var dtv := p.softplus(x.dt[h] + p.dtBias[h]);
    var at, g := Stride(ii, p.ds), Stride(h / p.perGroup, p.ds);
    && Advanced(s, t, at, p.ds, p.decayOf(h, dtv), x.b, g, Times(x.x[ii], dtv))
    && y[ii] == Times(Readout(t, at, x.c, g, p.ds) + Times(x.x[ii], p.skip[h]), p.gate(x.z[ii]))
  }

  lemma Bounds(p: Params, h: nat, ii: nat)
    requires Good(p) && h < HeadsOf(p) && ii < Inner(p)
    ensures Stride(ii, p.ds) + p.ds <= Stride(Inner(p), p.ds)
    ensures h / p.perGroup < p.groups && Stride(h / p.perGroup, p.ds) + p.ds <= Width(p)
  {
    StrideBelow(ii, Inner(p), p.ds);
    var k, c := StrideFind(h, p.groups, p.perGroup);
    RowOfPosition(k, c, p.perGroup);
    StrideBelow(k, p.groups, p.ds);
  }

  /** All channels, ii running through the heads. */
  ghost predicate Scanned(p: Params, s: Row, x: Input, t: Row, y: Row, n: nat) {
    && Good(p) && Fits(p, x) && |s| == |t| == Stride(Inner(p), p.ds) && n <= |y| && n <= Inner(p)
    && forall ii {:trigger Turn(p, s, x, t, y, ii)} :: 0 <= ii < n ==> Turn(p, s, x, t, y, ii)
  }

  ghost predicate Turn(p: Params, s: Row, x: Input, t: Row, y: Row, ii: nat)
    requires Good(p) && Fits(p, x) && ii < Inner(p) && ii < |y| && |s| == |t| == Stride(Inner(p), p.ds)
  {
    HeadIn(p, ii);
    ChannelOk(p, s, x, t, y, ii / p.hd, ii)
  }

  lemma HeadIn(p: Params, ii: nat)
    requires Good(p) && ii < Inner(p)
    ensures ii / p.hd < HeadsOf(p)
  {
    var h, d := StrideFind(ii, HeadsOf(p), p.hd);
    RowOfPosition(h, d, p.hd);
  }

  ghost predicate RowStep(p: Params, s: Row, x: Input, t: Row, o: Row) {
    exists y :: Scanned(p, s, x, t, y, Inner(p)) && |y| == Inner(p) && o == p.post(y)
  }

  ghost function Relation(p: Params): (Row, Input, Row, Row) -> bool {
    (s, x, t, o) => RowStep(p, s, x, t, o)
  }

  /** Work on channel n leaves the ones before it alone. */
  lemma TurnFrame(p: Params, s: Row, x: Input, t: Row, t': Row, y: Row, y': Row, ii: nat, n: nat)
    requires Good(p) && Fits(p, x) && ii < n < Inner(p) && |y| == |y'| == Inner(p)
    requires |s| == |t| == |t'| == Stride(Inner(p), p.ds) && Turn(p, s, x, t, y, ii) && y'[ii] == y[ii]
    requires forall e :: 0 <= e < |t| && !(Stride(n, p.ds) <= e < Stride(n, p.ds) + p.ds) ==> t'[e] == t[e]
    ensures Turn(p, s, x, t', y', ii)
  {
    hide Stride, Times, Inner, HeadsOf, Width;
    HeadIn(p, ii);
    Bounds(p, ii / p.hd, ii);
    StrideApart(ii, n, p.ds);
    SameReadout(t, t', Stride(ii, p.ds), x.c, Stride(ii / p.hd / p.perGroup, p.ds), p.ds);
  }

  /** The loop over the channels of one head, and the loop over the heads. */
  method ScanRow(p: Params, x: Input, state: array<real>) returns (y: array<real>)
    requires Good(p) && Fits(p, x) && state.Length == Stride(Inner(p), p.ds)
    modifies state
    ensures fresh(y) && y.Length == Inner(p) && Scanned(p, old(state[..]), x, state[..], y[..], Inner(p))
  {
    hide *;
    ghost var s := state[..];
    y := new real[Inner(p)](_ => 0.0);
    StartScan(p, s, x, y[..]);
    var h := 0;
    while h < HeadsOf(p)
      invariant 0 <= h <= HeadsOf(p) && Stride(h, p.hd) <= Inner(p)
      invariant Scanned(p, s, x, state[..], y[..], Stride(h, p.hd))
      invariant Rest(p, s, state[..], Stride(h, p.hd))
    {
      HeadRange(p, h);
      var d := 0;
      while d < p.hd
        invariant 0 <= d <= p.hd
        invariant Scanned(p, s, x, state[..], y[..], Stride(h, p.hd) + d)
        invariant Rest(p, s, state[..], Stride(h, p.hd) + d)
      {
        ScanChannel(p, x, state, y, h, d, s);
        d := d + 1;
      }
      h := h + 1;
    }
  }

  /** Nothing from channel n on has changed yet. */
  ghost predicate Rest(p: Params, s: Row, t: Row, n: nat) {
    |s| == |t| && forall e :: Stride(n, p.ds) <= e < |s| ==> t[e] == s[e]
  }

  /** One channel: h * hd + d. */
  method ScanChannel(p: Params, x: Input, state: array<real>, y: array<real>, h: nat, d: nat, ghost s: Row)
    requires Good(p) && Fits(p, x) && h < HeadsOf(p) && d < p.hd && y.Length == Inner(p) && y != state
    requires state.Length == |s| == Stride(Inner(p), p.ds) && Stride(h, p.hd) + d < Inner(p)
    requires Scanned(p, s, x, state[..], y[..], Stride(h, p.hd) + d) && Rest(p, s, state[..], Stride(h, p.hd) + d)
    modifies state, y
    ensures Scanned(p, s, x, state[..], y[..], Stride(h, p.hd) + d + 1) && Rest(p, s, state[..], Stride(h, p.hd) + d + 1)
  {
    hide Stride, Times, Readout, Inner, HeadsOf, Width, Turn, ChannelOk, Advanced;
    var ii := Stride(h, p.hd) + d;
    RowOfPosition(h, d, p.hd);
    Bounds(p, h, ii);
    ghost var t, w := state[..], y[..];
    var dtv := p.softplus(x.dt[h] + p.dtBias[h]);
    var at, g := Stride(ii, p.ds), Stride(h / p.perGroup, p.ds);
    var sum := Channel(state, at, p.ds, p.decayOf(h, dtv), x.b, x.c, g, Times(x.x[ii], dtv));
    y[ii] := Times(sum + Times(x.x[ii], p.skip[h]), p.gate(x.z[ii]));
    StrideNext(ii, p.ds);
    AdvancedFrom(s, t, state[..], at, p.ds, p.decayOf(h, dtv), x.b, g, Times(x.x[ii], dtv));
    NewTurn(p, s, x, state[..], y[..], h, ii);
    forall k | 0 <= k < ii ensures Turn(p, s, x, state[..], y[..], k) {
      assert Turn(p, s, x, t, w, k);
      TurnFrame(p, s, x, t, state[..], w, y[..], k, ii);
    }
  }

  lemma StrideNext(k: nat, w: nat)
    ensures Stride(k + 1, w) == Stride(k, w) + w
  {
  }

  lemma AdvancedFrom(s: Row, t: Row, u: Row, at: nat, ds: nat, dA: real, b: Row, ba: nat, x: real)
    requires at + ds <= |s| == |t| == |u| && ba + ds <= |b| && Advanced(t, u, at, ds, dA, b, ba, x)
    requires forall e :: at <= e < |s| ==> t[e] == s[e]
    ensures Advanced(s, u, at, ds, dA, b, ba, x)
  {
    hide Times;
  }

  lemma NewTurn(p: Params, s: Row, x: Input, t: Row, y: Row, h: nat, ii: nat)
    requires Good(p) && Fits(p, x) && h < HeadsOf(p) && ii < Inner(p) == |y| && |s| == |t| == Stride(Inner(p), p.ds) && ii / p.hd == h
    requires Stride(ii, p.ds) + p.ds <= |s| && Stride(h / p.perGroup, p.ds) + p.ds <= Width(p)
    requires var dtv := p.softplus(x.dt[h] + p.dtBias[h]);
             && Advanced(s, t, Stride(ii, p.ds), p.ds, p.decayOf(h, dtv), x.b, Stride(h / p.perGroup, p.ds), Times(x.x[ii], dtv))
             && y[ii] == Times(Readout(t, Stride(ii, p.ds), x.c, Stride(h / p.perGroup, p.ds), p.ds) + Times(x.x[ii], p.skip[h]), p.gate(x.z[ii]))
    ensures Turn(p, s, x, t, y, ii)
  {
    hide Stride, Times, Readout, Inner, HeadsOf, Width, Advanced;
  }

  lemma StartScan(p: Params, s: Row, x: Input, y: Row)
    requires Good(p) && Fits(p, x) && |s| == Stride(Inner(p), p.ds) && |y| == Inner(p)
    ensures Scanned(p, s, x, s, y, Stride(0, p.hd)) && Rest(p, s, s, Stride(0, p.hd)) && Stride(0, p.hd) <= Inner(p)
    ensures Stride(HeadsOf(p), p.hd) == Inner(p)
  {
  }

  lemma HeadRange(p: Params, h: nat)
    requires h < HeadsOf(p)
    ensures Stride(h + 1, p.hd) == Stride(h, p.hd) + p.hd <= Inner(p)
  {
    StrideBelow(h, HeadsOf(p), p.hd);
  }

  // ----------------------------------------------------------------- determinism

  /** What ChannelOk says, spelt out for the channel's own head. */
  lemma TurnMeans(p: Params, s: Row, x: Input, t: Row, y: Row, ii: nat)
    returns (at: nat, g: nat, dA: real, xdt: real, through: real, gate: real)
    requires Good(p) && Fits(p, x) && ii < Inner(p) == |y| && |s| == |t| == Stride(Inner(p), p.ds)
    requires Turn(p, s, x, t, y, ii)
    ensures at == Stride(ii, p.ds) && at + p.ds <= |t| && g + p.ds <= |x.b| == |x.c|
    ensures Advanced(s, t, at, p.ds, dA, x.b, g, xdt) && y[ii] == Times(Readout(t, at, x.c, g, p.ds) + through, gate)
    ensures (at, g, dA, xdt, through, gate) == Parts(p, x, ii)
  {
    hide Stride, Times, Readout, Inner, HeadsOf, Width, Advanced;
    HeadIn(p, ii);
    Bounds(p, ii / p.hd, ii);
    var q := Parts(p, x, ii);
    at, g, dA, xdt, through, gate := q.0, q.1, q.2, q.3, q.4, q.5;
  }

  function Parts(p: Params, x: Input, ii: nat): (nat, nat, real, real, real, real) {
    var h := if p.hd > 0 then ii / p.hd else 0;
    if h < |x.dt| && h < |p.dtBias| && h < |p.skip| && ii < |x.x| && ii < |x.z| && p.perGroup > 0 then
      var dtv := p.softplus(x.dt[h] + p.dtBias[h]);
      (Stride(ii, p.ds), Stride(h / p.perGroup, p.ds), p.decayOf(h, dtv), Times(x.x[ii], dtv), Times(x.x[ii], p.skip[h]), p.gate(x.z[ii]))
    else (0, 0, 0.0, 0.0, 0.0, 0.0)
  }

  lemma TurnUnique(p: Params, s: Row, x: Input, t: Row, y: Row, t': Row, y': Row, ii: nat)
    requires Good(p) && Fits(p, x) && ii < Inner(p) == |y| == |y'| && |s| == |t| == |t'| == Stride(Inner(p), p.ds)
    requires Turn(p, s, x, t, y, ii) && Turn(p, s, x, t', y', ii)
    ensures Stride(ii, p.ds) + p.ds <= |t|
    ensures t[Stride(ii, p.ds)..Stride(ii, p.ds) + p.ds] == t'[Stride(ii, p.ds)..Stride(ii, p.ds) + p.ds] && y[ii] == y'[ii]
  {
    hide *;
    var at, g, dA, xdt, through, gate := TurnMeans(p, s, x, t, y, ii);
    var at', g', dA', xdt', through', gate' := TurnMeans(p, s, x, t', y', ii);
    AdvancedUnique(s, t, t', at, p.ds, dA, x.b, g, xdt);
    SameReadout(t, t', at, x.c, g, p.ds);
  }

  lemma AdvancedUnique(s: Row, t: Row, t': Row, at: nat, ds: nat, dA: real, b: Row, ba: nat, x: real)
    requires at + ds <= |s| == |t| == |t'| && ba + ds <= |b|
    requires Advanced(s, t, at, ds, dA, b, ba, x) && Advanced(s, t', at, ds, dA, b, ba, x)
    ensures (forall e :: at <= e < at + ds ==> t[e] == t'[e]) && t[at..at + ds] == t'[at..at + ds]
  {
    hide Times;
  }

  lemma ScanUnique(p: Params, s: Row, x: Input, t: Row, y: Row, t': Row, y': Row)
    requires Scanned(p, s, x, t, y, Inner(p)) && Scanned(p, s, x, t', y', Inner(p)) && |y| == |y'| == Inner(p)
    ensures t == t' && y == y'
  {
    hide Stride, Inner, Turn, Good, Fits;
    forall ii | 0 <= ii < Inner(p)
      ensures Stride(ii, p.ds) + p.ds <= |t| && y[ii] == y'[ii]
      ensures t[Stride(ii, p.ds)..Stride(ii, p.ds) + p.ds] == t'[Stride(ii, p.ds)..Stride(ii, p.ds) + p.ds]
    {
      assert Turn(p, s, x, t, y, ii) && Turn(p, s, x, t', y', ii);
      TurnUnique(p, s, x, t, y, t', y', ii);
    }
    C.Pieces(t, t', Inner(p), p.ds);
    assert y == y';
  }

  lemma RowsDeterministic(p: Params)
    ensures Deterministic(Relation(p))
  {
    hide Scanned;
    forall s, x, t, o, t', o' | Relation(p)(s, x, t, o) && Relation(p)(s, x, t', o') ensures t == t' && o == o' {
      var y :| Scanned(p, s, x, t, y, Inner(p)) && |y| == Inner(p) && o == p.post(y);
      var y' :| Scanned(p, s, x, t', y', Inner(p)) && |y'| == Inner(p) && o' == p.post(y');
      ScanUnique(p, s, x, t, y, t', y');
    }
  }

  // ------------------------------------------------------------------ the operator

  function ConvDim(p: Params): nat { Inner(p) + Width(p) + Width(p) }

  function ProjWidth(p: Params): nat { ConvDim(p) + Inner(p) + HeadsOf(p) }

  ghost predicate Sources(p: Params, xbc: Row, proj: Row, n: nat) {
    Stride(n, ConvDim(p)) <= |xbc| && Stride(n, ProjWidth(p)) <= |proj|
  }

  /** What row r of the two sources holds: x, B and C; z, the part that was convolved, and dt. */
  function RowInput(p: Params, xbc: Row, proj: Row, r: nat): (x: Input)
    requires Stride(r, ConvDim(p)) + ConvDim(p) <= |xbc| && Stride(r, ProjWidth(p)) + ProjWidth(p) <= |proj|
    ensures Fits(p, x)
  {
    var xr, pr := xbc[Stride(r, ConvDim(p))..Stride(r, ConvDim(p)) + ConvDim(p)], proj[Stride(r, ProjWidth(p))..Stride(r, ProjWidth(p)) + ProjWidth(p)];
    Input(xr[..Inner(p)], xr[Inner(p)..Inner(p) + Width(p)], xr[Inner(p) + Width(p)..], pr[..Inner(p)], pr[Inner(p) + ConvDim(p)..])
  }

  ghost function Inputs(p: Params, xbc: Row, proj: Row, base: nat, n: nat): (xs: seq<Input>)
    requires Sources(p, xbc, proj, base + n)
    ensures |xs| == n
  {
    if n == 0 then []
    else
      StrideBelow(base + n - 1, base + n, ConvDim(p));
      StrideBelow(base + n - 1, base + n, ProjWidth(p));
      Inputs(p, xbc, proj, base, n - 1) + [RowInput(p, xbc, proj, base + n - 1)]
  }

  lemma Inside(p: Params, xbc: Row, proj: Row, n: nat, m: nat)
    requires Sources(p, xbc, proj, n) && m < n
    ensures Stride(m, ConvDim(p)) + ConvDim(p) <= |xbc| && Stride(m, ProjWidth(p)) + ProjWidth(p) <= |proj|
    ensures Sources(p, xbc, proj, m) && Sources(p, xbc, proj, m + 1)
  {
    StrideBelow(m, n, ConvDim(p));
    StrideBelow(m, n, ProjWidth(p));
  }

  lemma PartOf(p: Params, xbc: Row, proj: Row, n: nat, m: nat)
    requires Sources(p, xbc, proj, n) && m <= n
    ensures Sources(p, xbc, proj, m)
  {
    if m < n { Inside(p, xbc, proj, n, m); }
  }

  lemma InputsNext(p: Params, xbc: Row, proj: Row, base: nat, n: nat)
    requires Sources(p, xbc, proj, base + n) && Sources(p, xbc, proj, base + n + 1)
    requires Stride(base + n, ConvDim(p)) + ConvDim(p) <= |xbc| && Stride(base + n, ProjWidth(p)) + ProjWidth(p) <= |proj|
    ensures Inputs(p, xbc, proj, base, n + 1) == Inputs(p, xbc, proj, base, n) + [RowInput(p, xbc, proj, base + n)]
  {
  }

  lemma Nothing(p: Params, xbc: Row, proj: Row, base: nat, s: Row, w: nat)
    requires Sources(p, xbc, proj, base)
    ensures Rows(Relation(p), s, Inputs(p, xbc, proj, base, 0), s, []) && Stride(0, w) == 0 && C.Flat([]) == []
    ensures C.AllWide([], w)
  {
  }

  lemma StepIs(p: Params, s: Row, x: Input, t: Row, y: Row)
    requires Scanned(p, s, x, t, y, Inner(p)) && |y| == Inner(p)
    ensures Relation(p)(s, x, t, p.post(y)) && |p.post(y)| == Inner(p)
  {
  }

  /** op_mamba2_scan: the rows of the result and the state after them are the run of the
      single steps. */
  method Mamba2Scan(p: Params, dst: array<real>, xbc: Row, proj: Row, base: nat, rows: nat, state: array<real>)
    returns (ghost ys: seq<Row>)
    requires Good(p) && state != dst && state.Length == Stride(Inner(p), p.ds)
    requires Sources(p, xbc, proj, base + rows) && dst.Length == Stride(rows, Inner(p))
    modifies dst, state
    ensures dst[..] == C.Flat(ys) && C.AllWide(ys, Inner(p))
    ensures Rows(Relation(p), old(state[..]), Inputs(p, xbc, proj, base, rows), state[..], ys)
  {
    hide *;
    ys := [];
    ghost var s, w := state[..], Inner(p);
    PartOf(p, xbc, proj, base + rows, base);
    Nothing(p, xbc, proj, base, s, w);
    var r := 0;
    while r < rows
      invariant 0 <= r <= rows && |ys| == r && C.AllWide(ys, w) && Stride(r, w) <= dst.Length
      invariant Sources(p, xbc, proj, base + r) && dst[..Stride(r, w)] == C.Flat(ys)
      invariant Rows(Relation(p), s, Inputs(p, xbc, proj, base, r), state[..], ys)
    {
      StrideBelow(r, rows, w);
      Inside(p, xbc, proj, base + rows, base + r);
      ghost var done, mid := dst[..Stride(r, w)], state[..];
      InputsNext(p, xbc, proj, base, r);
      var x := RowInput(p, xbc, proj, base + r);
      var y := ScanRow(p, x, state);
      ghost var after := state[..];
      StepIs(p, mid, x, after, y[..]);
      var o := p.post(y[..]);
      C.CopyRow(dst, Stride(r, Inner(p)), o, 0, |o|);
      assert state[..] == after;
      Append(Relation(p), s, Inputs(p, xbc, proj, base, r), mid, ys, x, after, o);
      C.FlatAppend(ys, [o]);
      C.FlatOne(o);
      C.WideMore(ys, o, w);
      ys := ys + [o];
      r := r + 1;
      assert dst[..Stride(r, w)] == done + o;
    }
  }

  /** Any split of the rows into two calls gives the same rows and the same state. */
  lemma SplitScan(p: Params, s: Row, xs: seq<Input>, mid: Row, ys: seq<Row>, zs: seq<Input>, t: Row, ws: seq<Row>,
                  whole: Row, os: seq<Row>)
    requires Rows(Relation(p), s, xs, mid, ys) && Rows(Relation(p), mid, zs, t, ws)
    requires Rows(Relation(p), s, xs + zs, whole, os)
    ensures whole == t && os == ys + ws
  {
    RowsDeterministic(p);
    SplitSame(Relation(p), s, xs, mid, ys, zs, t, ws, whole, os);
  }
}
