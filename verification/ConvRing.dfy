/** The causal convolution step of src/backend/cpu/cpu_op.c over its ring of previous
    inputs, over the reals. The step runs in place when output and input are one buffer. */
module ConvRing {
  import opened Strides

  type Row = seq<real>

  predicate AllWide(rows: seq<Row>, width: nat) {
    forall k :: 0 <= k < |rows| ==> |rows[k]| == width
  }

  function Flat(rows: seq<Row>): seq<real> {
    if rows == [] then [] else Flat(rows[..|rows| - 1]) + rows[|rows| - 1]
  }

  lemma {:induction false} FlatAppend(a: seq<Row>, b: seq<Row>)
    ensures Flat(a + b) == Flat(a) + Flat(b)
  {
    if b == [] {
      assert a + b == a;
    } else {
      var n := |b| - 1;
      FlatAppend(a, b[..n]);
      assert (a + b)[..|a| + n] == a + b[..n] && (a + b)[|a| + n] == b[n];
    }
  }

  lemma FlatOne(r: Row)
    ensures Flat([r]) == r
  {
  }

  lemma {:induction false} FlatLength(rows: seq<Row>, width: nat)
    requires AllWide(rows, width)
    ensures |Flat(rows)| == Stride(|rows|, width)
  {
    if rows != [] { FlatLength(rows[..|rows| - 1], width); }
  }

  /** Row k lies at k * width. */
  lemma FlatAt(rows: seq<Row>, width: nat, k: nat)
    requires AllWide(rows, width) && k < |rows|
    ensures Stride(k, width) + width <= |Flat(rows)|
    ensures Flat(rows)[Stride(k, width)..Stride(k, width) + width] == rows[k]
  {
    hide Flat;
    var a, b := rows[..k], rows[k + 1..];
    assert rows == (a + [rows[k]]) + b;
    FlatAppend(a + [rows[k]], b);
    FlatAppend(a, [rows[k]]);
    FlatOne(rows[k]);
    FlatLength(a, width);
  }

  lemma FlatElement(rows: seq<Row>, width: nat, k: nat, c: nat)
    requires AllWide(rows, width) && k < |rows| && c < width
    ensures Stride(k, width) + c < |Flat(rows)| && Flat(rows)[Stride(k, width) + c] == rows[k][c]
  {
    hide Flat, Stride;
    FlatAt(rows, width, k);
    assert Flat(rows)[Stride(k, width)..Stride(k, width) + width][c] == rows[k][c];
  }

  lemma WideMore(ys: seq<Row>, o: Row, w: nat)
    requires AllWide(ys, w) && |o| == w
    ensures AllWide(ys + [o], w)
  {
  }

  /** Rows that agree block by block are equal. */
  lemma Pieces(a: Row, b: Row, n: nat, w: nat)
    requires |a| == |b| == Stride(n, w)
    requires forall k :: 0 <= k < n ==> Stride(k, w) + w <= |a| && a[Stride(k, w)..Stride(k, w) + w] == b[Stride(k, w)..Stride(k, w) + w]
    ensures a == b
  {
    forall e | 0 <= e < |a| ensures a[e] == b[e] {
      var k, c := StrideFind(e, n, w);
      assert a[Stride(k, w)..Stride(k, w) + w][c] == b[Stride(k, w)..Stride(k, w) + w][c];
    }
  }

  // ------------------------------------------------------------- what is computed

  /** How many earlier inputs a kernel of `taps` taps needs. */
  function Lag(taps: nat): nat {
    if taps > 0 then taps - 1 else 0
  }

  /** The first n taps of channel c: tap k meets the k-th oldest row of the window. */
  function TapSum(window: seq<Row>, weight: seq<real>, taps: nat, c: nat, n: nat): real
    requires n <= taps && n <= |window| && (forall k :: 0 <= k < |window| ==> c < |window[k]|)
    requires Stride(c, taps) + taps <= |weight|
  {
    if n == 0 then 0.0 else TapSum(window, weight, taps, c, n - 1) + window[n - 1][c] * weight[Stride(c, taps) + (n - 1)]
  }

  predicate WeightsFit(weight: seq<real>, width: nat, taps: nat) {
    |weight| == Stride(width, taps)
  }

  /** One output row from the window of the last `taps` inputs. */
  function Conv(window: seq<Row>, weight: seq<real>, width: nat, taps: nat): (r: Row)
    requires AllWide(window, width) && taps <= |window| && WeightsFit(weight, width, taps)
    ensures |r| == width
  {
    seq(width, c requires 0 <= c < width => (StrideBelow(c, width, taps); TapSum(window, weight, taps, c, taps)))
  }

  // ---------------------------------------------------------------------- one step

  /** The tap loop of one channel. */
  method Taps(raw: array<real>, ro: nat, weight: seq<real>, state: array<real>, width: nat, taps: nat, c: nat,
              ghost ring: seq<Row>, ghost x: Row) returns (sum: real)
    requires c < width && ro + width <= raw.Length && raw[ro..ro + width] == x
    requires |ring| == Lag(taps) && AllWide(ring, width) && state[..] == Flat(ring) && Stride(c, taps) + taps <= |weight|
    ensures AllWide(ring + [x], width) && sum == TapSum(ring + [x], weight, taps, c, taps)
  {
    hide Flat, Stride;
    ghost var window := ring + [x];
    sum := 0.0;
    var k := 0;
    while k < taps
      invariant 0 <= k <= taps && sum == TapSum(window, weight, taps, c, k)
    {
      var v;
      if k == taps - 1 {
        v := raw[ro + c];
        assert v == x[c] == window[k][c];
      } else {
        FlatElement(ring, width, k, c);
        assert state[..][Stride(k, width) + c] == window[k][c];
        v := state[Stride(k, width) + c];
      }
      sum := sum + v * weight[Stride(c, taps) + k];
      k := k + 1;
    }
  }

  lemma FlatDrop(ring: seq<Row>, x: Row, width: nat)
    requires AllWide(ring, width) && |x| == width && ring != []
    ensures |Flat(ring)| >= width && Flat((ring + [x])[1..]) == Flat(ring)[width..] + x
  {
    var rest := ring[1..];
    assert ring == [ring[0]] + rest;
    FlatAppend([ring[0]], rest);
    FlatOne(ring[0]);
    assert (ring + [x])[1..] == rest + [x];
    FlatAppend(rest, [x]);
    FlatOne(x);
  }

  /** The ring forgets its oldest row and takes the new input. */
  method Shift(state: array<real>, raw: array<real>, ro: nat, width: nat, taps: nat, ghost ring: seq<Row>, ghost x: Row)
    requires ro + width <= raw.Length && raw[ro..ro + width] == x && raw != state
    requires |ring| == Lag(taps) && AllWide(ring, width) && state[..] == Flat(ring)
    modifies state
    ensures state[..] == Flat((ring + [x])[1..])
  {
    hide Flat, Stride;
    if taps > 1 {
      FlatLength(ring, width);
      FlatDrop(ring, x, width);
      StrideBelow(taps - 2, taps - 1, width);
      var shiftLen := Stride(taps - 2, width);
      assert state.Length == shiftLen + width;
      ghost var was := state[..];
      forall i | 0 <= i < shiftLen { state[i] := state[width + i]; }
      assert state[..shiftLen] == was[width..];
      forall i | 0 <= i < width { state[shiftLen + i] := raw[ro + i]; }
      assert state[..] == was[width..] + x;
    } else {
      assert ring == [] && (ring + [x])[1..] == ring;
    }
  }

  /** The channel loop, with the raw input apart from the output. */
  method Convolve(out: array<real>, oo: nat, raw: array<real>, ro: nat, weight: seq<real>, state: array<real>,
                  width: nat, taps: nat, ghost ring: seq<Row>, ghost x: Row)
    requires oo + width <= out.Length && ro + width <= raw.Length && raw[ro..ro + width] == x && state != out && raw != out
    requires |ring| == Lag(taps) && AllWide(ring, width) && state[..] == Flat(ring) && WeightsFit(weight, width, taps)
    modifies out
    ensures AllWide(ring + [x], width)
    ensures out[..oo] == old(out[..oo]) && out[oo + width..] == old(out[oo + width..])
    ensures out[oo..oo + width] == Conv(ring + [x], weight, width, taps)
  {
    hide Flat, Stride, TapSum;
    ghost var before := out[..];
    ghost var row := Conv(ring + [x], weight, width, taps);
    var c := 0;
    while c < width
      invariant 0 <= c <= width
      invariant forall i :: 0 <= i < out.Length ==> out[i] == if oo <= i < oo + c then row[i - oo] else before[i]
    {
      StrideBelow(c, width, taps);
      var sum := Taps(raw, ro, weight, state, width, taps, c, ring, x);
      out[oo + c] := sum;
      c := c + 1;
    }
  }

  /** causal_conv1d_step: output row at out[oo..], input row at inp[io..]; they are the same
      place or different arrays. The ring holds the last inputs, oldest first. */
  method CausalStep(out: array<real>, oo: nat, inp: array<real>, io: nat, weight: seq<real>, state: array<real>,
                    width: nat, taps: nat, ghost ring: seq<Row>)
    requires oo + width <= out.Length && io + width <= inp.Length && state != out && state != inp
    requires (out == inp ==> oo == io) && WeightsFit(weight, width, taps)
    requires |ring| == Lag(taps) && AllWide(ring, width) && state[..] == Flat(ring)
    modifies out, state
    ensures AllWide(ring + [old(inp[io..io + width])], width)
    ensures out[..oo] == old(out[..oo]) && out[oo + width..] == old(out[oo + width..])
    ensures out[oo..oo + width] == Conv(ring + [old(inp[io..io + width])], weight, width, taps)
    ensures state[..] == Flat((ring + [old(inp[io..io + width])])[1..])
  {
    hide Flat, Stride, Conv;
    ghost var x: Row := inp[io..io + width];
    var raw, ro := inp, io;
    if inp == out {
      raw, ro := new real[width](_ => 0.0), 0;
      forall c | 0 <= c < width { raw[c] := inp[io + c]; }
    }
    assert raw[ro..ro + width] == x;
    Convolve(out, oo, raw, ro, weight, state, width, taps, ring, x);
    Shift(state, raw, ro, width, taps, ring, x);
  }

  // ---------------------------------------------------------------------- many rows

  /** The outputs for rows xs after the inputs in the ring. */
  function ConvRows(ring: seq<Row>, xs: seq<Row>, weight: seq<real>, width: nat, taps: nat): (ys: seq<Row>)
    requires |ring| == Lag(taps) && AllWide(ring, width) && AllWide(xs, width) && WeightsFit(weight, width, taps)
    ensures |ys| == |xs| && AllWide(ys, width)
  {
    if xs == [] then []
    else
      ConvRows(ring, xs[..|xs| - 1], weight, width, taps) + [Conv((ring + xs)[|xs| - 1..], weight, width, taps)]
  }

  /** The ring after rows xs: the last inputs of all. */
  function RingAfter(ring: seq<Row>, xs: seq<Row>): seq<Row> {
    (ring + xs)[|xs|..]
  }

  /** Any split of the rows into two calls gives the same outputs and the same ring. */
  lemma {:induction false} SplitRows(ring: seq<Row>, xs: seq<Row>, ys: seq<Row>, weight: seq<real>, width: nat, taps: nat)
    requires |ring| == Lag(taps) && AllWide(ring, width) && AllWide(xs, width) && AllWide(ys, width)
    requires WeightsFit(weight, width, taps)
    ensures |RingAfter(ring, xs)| == Lag(taps) && AllWide(RingAfter(ring, xs), width) && AllWide(xs + ys, width)
    ensures RingAfter(ring, xs + ys) == RingAfter(RingAfter(ring, xs), ys)
    ensures ConvRows(ring, xs + ys, weight, width, taps)
         == ConvRows(ring, xs, weight, width, taps) + ConvRows(RingAfter(ring, xs), ys, weight, width, taps)
    decreases |ys|
  {
    hide Conv;
    var mid := RingAfter(ring, xs);
    assert (ring + xs) + ys == ring + (xs + ys);
    assert mid + ys == (ring + (xs + ys))[|xs|..];
    if ys == [] {
      assert xs + ys == xs;
    } else {
      var n := |ys| - 1;
      SplitRows(ring, xs, ys[..n], weight, width, taps);
      assert (xs + ys)[..|xs| + n] == xs + ys[..n];
      assert (ring + (xs + ys))[|xs| + n..] == (mid + ys)[n..];
    }
  }

  /** op_ssm_conv: each source row is copied to its place in dst and convolved there. */
  method SsmConv(dst: array<real>, src: seq<real>, base: nat, rows: nat, weight: seq<real>, state: array<real>,
                 width: nat, taps: nat, ghost ring: seq<Row>, ghost xs: seq<Row>)
    requires |xs| == rows && AllWide(xs, width) && state != dst && dst.Length == Stride(rows, width)
    requires |src| >= Stride(base, width) + dst.Length
    requires src[Stride(base, width)..Stride(base, width) + dst.Length] == Flat(xs)
    requires |ring| == Lag(taps) && AllWide(ring, width) && state[..] == Flat(ring) && WeightsFit(weight, width, taps)
    modifies dst, state
    ensures dst[..] == Flat(ConvRows(ring, xs, weight, width, taps))
    ensures state[..] == Flat(RingAfter(ring, xs))
  {
    hide Conv, Flat, Stride, ConvRows;
    var p := 0;
    ghost var start := Stride(base, width);
    NoRows(ring, weight, width, taps);
    assert RingAfter(ring, xs[..0]) == ring;
    while p < rows
      invariant 0 <= p <= rows && Stride(p, width) <= dst.Length
      invariant dst[..Stride(p, width)] == Flat(ConvRows(ring, xs[..p], weight, width, taps))
      invariant state[..] == Flat(RingAfter(ring, xs[..p]))
    {
      StrideBelow(p, rows, width);
      var oo := Stride(p, width);
      ghost var done := dst[..oo];
      FlatAt(xs, width, p);
      Within(src, start, dst.Length, oo, width);
      CopyRow(dst, oo, src, Stride(base, width) + oo, width);
      ghost var mid := RingAfter(ring, xs[..p]);
      NextRow(ring, xs, p, weight, width, taps);
      CausalStep(dst, oo, dst, oo, weight, state, width, taps, mid);
      assert dst[..oo + width] == done + Conv(mid + [xs[p]], weight, width, taps);
      p := p + 1;
    }
    assert xs[..rows] == xs;
  }

  lemma NoRows(ring: seq<Row>, weight: seq<real>, width: nat, taps: nat)
    requires |ring| == Lag(taps) && AllWide(ring, width) && WeightsFit(weight, width, taps)
    ensures Flat(ConvRows(ring, [], weight, width, taps)) == [] && Stride(0, width) == 0
  {
  }

  lemma Within(s: seq<real>, a: nat, n: nat, i: nat, m: nat)
    requires a + n <= |s| && i + m <= n
    ensures s[a..a + n][i..i + m] == s[a + i..a + i + m]
  {
    var t := s[a..a + n];
    var u, w := t[i..i + m], s[a + i..a + i + m];
    forall k | 0 <= k < |u| ensures u[k] == w[k] {
      assert t[i + k] == s[a + (i + k)];
    }
  }

  method CopyRow(dst: array<real>, at: nat, src: seq<real>, start: nat, width: nat)
    requires at + width <= dst.Length && start + width <= |src|
    modifies dst
    ensures dst[..at] == old(dst[..at]) && dst[at..at + width] == src[start..start + width]
  {
    forall c | 0 <= c < width { dst[at + c] := src[start + c]; }
  }

  lemma NextRow(ring: seq<Row>, xs: seq<Row>, p: nat, weight: seq<real>, width: nat, taps: nat)
    requires |ring| == Lag(taps) && AllWide(ring, width) && AllWide(xs, width) && WeightsFit(weight, width, taps) && p < |xs|
    ensures var mid := RingAfter(ring, xs[..p]);
            && |mid| == Lag(taps) && AllWide(mid, width) && AllWide(mid + [xs[p]], width)
            && RingAfter(ring, xs[..p + 1]) == (mid + [xs[p]])[1..]
            && Flat(ConvRows(ring, xs[..p + 1], weight, width, taps))
               == Flat(ConvRows(ring, xs[..p], weight, width, taps)) + Conv(mid + [xs[p]], weight, width, taps)
  {
    hide Conv, Flat;
    var mid := RingAfter(ring, xs[..p]);
    var ys := xs[..p + 1];
    assert ys[..p] == xs[..p];
    assert (ring + ys)[p..] == mid + [xs[p]];
    var y := Conv(mid + [xs[p]], weight, width, taps);
    FlatAppend(ConvRows(ring, xs[..p], weight, width, taps), [y]);
    FlatOne(y);
  }
}
