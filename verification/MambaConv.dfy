/** The convolution stage of the second recurrent architecture (op_mamba2_conv of
    src/backend/cpu/cpu_op.c): a slice of a wider input row, a bias and an activation. */
module MambaConv {
  import opened Common
  import opened Strides
  import opened ConvRing

  /** Bias and activation on top of the convolution. */
  function Active(y: Row, bias: Option<Row>, act: real -> real): (r: Row)
    requires bias.Some? ==> |bias.value| == |y|
    ensures |r| == |y|
  {
    seq(|y|, c requires 0 <= c < |y| => act(if bias.Some? then y[c] + bias.value[c] else y[c]))
  }

  function ActiveRows(ys: seq<Row>, width: nat, bias: Option<Row>, act: real -> real): (r: seq<Row>)
    requires AllWide(ys, width) && (bias.Some? ==> |bias.value| == width)
    ensures |r| == |ys| && AllWide(r, width)
  {
    seq(|ys|, k requires 0 <= k < |ys| => Active(ys[k], bias, act))
  }

  /** One row: the channel loop, then the ring. */
  method RowConv(dst: array<real>, oo: nat, src: array<real>, ro: nat, weight: seq<real>, bias: Option<Row>, act: real -> real,
                 state: array<real>, width: nat, taps: nat, ghost ring: seq<Row>, ghost x: Row)
    requires oo + width <= dst.Length && ro + width <= src.Length && src[ro..ro + width] == x
    requires state != dst && src != dst && src != state && (bias.Some? ==> |bias.value| == width)
    requires |ring| == Lag(taps) && AllWide(ring, width) && state[..] == Flat(ring) && WeightsFit(weight, width, taps)
    modifies dst, state
    ensures AllWide(ring + [x], width) && dst[..oo] == old(dst[..oo])
    ensures dst[oo..oo + width] == Active(Conv(ring + [x], weight, width, taps), bias, act)
    ensures state[..] == Flat((ring + [x])[1..])
  {
    hide Flat, Stride, TapSum;
    ghost var before := dst[..];
    ghost var row := Conv(ring + [x], weight, width, taps);
    var c := 0;
    while c < width
      invariant 0 <= c <= width && state[..] == Flat(ring)
      invariant forall i :: 0 <= i < dst.Length ==>
                  dst[i] == if oo <= i < oo + c then Active(row, bias, act)[i - oo] else before[i]
    {
      StrideBelow(c, width, taps);
      var sum := Taps(src, ro, weight, state, width, taps, c, ring, x);
      if bias.Some? { sum := sum + bias.value[c]; }
      dst[oo + c] := act(sum);
      c := c + 1;
    }
    ghost var done := dst[..];
    Shift(state, src, ro, width, taps, ring, x);
    assert dst[..] == done;
  }

  /** op_mamba2_conv: row p of the result from the part of source row base + p that starts
      at `inner`, inside rows of `projW` values. */
  method Mamba2Conv(dst: array<real>, src: array<real>, base: nat, rows: nat, projW: nat, inner: nat, weight: seq<real>,
                    bias: Option<Row>, act: real -> real, state: array<real>, width: nat, taps: nat,
                    ghost ring: seq<Row>, ghost xs: seq<Row>)
    requires state != dst && src != dst && src != state && dst.Length == Stride(rows, width)
    requires inner + width <= projW && Stride(base + rows, projW) <= src.Length && |xs| == rows && AllWide(xs, width)
    requires forall p :: 0 <= p < rows ==> Slice(src[..], Stride(base + p, projW) + inner, xs[p])
    requires |ring| == Lag(taps) && AllWide(ring, width) && state[..] == Flat(ring) && WeightsFit(weight, width, taps)
    requires bias.Some? ==> |bias.value| == width
    modifies dst, state
    ensures dst[..] == Flat(ActiveRows(ConvRows(ring, xs, weight, width, taps), width, bias, act))
    ensures state[..] == Flat(RingAfter(ring, xs))
  {
    hide Conv, Flat, Stride, ConvRows, Active;
    ghost var input := src[..];
    NoActive(ring, weight, width, taps, bias, act);
    assert RingAfter(ring, xs[..0]) == ring;
    var p := 0;
    while p < rows
      invariant 0 <= p <= rows && Stride(p, width) <= dst.Length && src[..] == input
      invariant dst[..Stride(p, width)] == Flat(ActiveRows(ConvRows(ring, xs[..p], weight, width, taps), width, bias, act))
      invariant state[..] == Flat(RingAfter(ring, xs[..p]))
    {
      StrideBelow(p, rows, width);
      StrideBelow(base + p, base + rows, projW);
      var oo, ro := Stride(p, width), Stride(base + p, projW) + inner;
      ghost var done := dst[..oo];
      ghost var mid := RingAfter(ring, xs[..p]);
      NextRow(ring, xs, p, weight, width, taps);
      NextActive(ring, xs, p, weight, width, taps, bias, act);
      assert Slice(src[..], ro, xs[p]);
      assert src[ro..ro + width] == src[..][ro..ro + width];
      RowConv(dst, oo, src, ro, weight, bias, act, state, width, taps, mid, xs[p]);
      assert dst[..oo + width] == done + Active(Conv(mid + [xs[p]], weight, width, taps), bias, act);
      p := p + 1;
    }
    assert xs[..rows] == xs;
    assert dst[..Stride(rows, width)] == dst[..];
  }

  ghost predicate Slice(s: seq<real>, at: nat, x: seq<real>) {
    at + |x| <= |s| && s[at..at + |x|] == x
  }

  lemma NoActive(ring: seq<Row>, weight: seq<real>, width: nat, taps: nat, bias: Option<Row>, act: real -> real)
    requires |ring| == Lag(taps) && AllWide(ring, width) && WeightsFit(weight, width, taps) && (bias.Some? ==> |bias.value| == width)
    ensures Flat(ActiveRows(ConvRows(ring, [], weight, width, taps), width, bias, act)) == [] && Stride(0, width) == 0
  {
  }

  lemma NextActive(ring: seq<Row>, xs: seq<Row>, p: nat, weight: seq<real>, width: nat, taps: nat, bias: Option<Row>, act: real -> real)
    requires |ring| == Lag(taps) && AllWide(ring, width) && AllWide(xs, width) && WeightsFit(weight, width, taps) && p < |xs|
    requires bias.Some? ==> |bias.value| == width
    ensures var mid := RingAfter(ring, xs[..p]);
            && |mid| == Lag(taps) && AllWide(mid + [xs[p]], width)
            && Flat(ActiveRows(ConvRows(ring, xs[..p + 1], weight, width, taps), width, bias, act))
               == Flat(ActiveRows(ConvRows(ring, xs[..p], weight, width, taps), width, bias, act))
                  + Active(Conv(mid + [xs[p]], weight, width, taps), bias, act)
  {
    hide Conv, Flat, Active;
    var mid := RingAfter(ring, xs[..p]);
    var ys := xs[..p + 1];
    assert ys[..p] == xs[..p];
    assert (ring + ys)[p..] == mid + [xs[p]];
    var y := Conv(mid + [xs[p]], weight, width, taps);
    var before := ConvRows(ring, xs[..p], weight, width, taps);
    assert ConvRows(ring, ys, weight, width, taps) == before + [y];
    assert ActiveRows(before + [y], width, bias, act) == ActiveRows(before, width, bias, act) + [Active(y, bias, act)];
    FlatAppend(ActiveRows(before, width, bias, act), [Active(y, bias, act)]);
    FlatOne(Active(y, bias, act));
  }

  /** Any split of the rows into two calls gives the same outputs and the same ring. */
  lemma SplitConv(ring: seq<Row>, xs: seq<Row>, ys: seq<Row>, weight: seq<real>, width: nat, taps: nat, bias: Option<Row>, act: real -> real)
    requires |ring| == Lag(taps) && AllWide(ring, width) && AllWide(xs, width) && AllWide(ys, width)
    requires WeightsFit(weight, width, taps) && (bias.Some? ==> |bias.value| == width)
    ensures |RingAfter(ring, xs)| == Lag(taps) && AllWide(RingAfter(ring, xs), width) && AllWide(xs + ys, width)
    ensures RingAfter(ring, xs + ys) == RingAfter(RingAfter(ring, xs), ys)
    ensures ActiveRows(ConvRows(ring, xs + ys, weight, width, taps), width, bias, act)
         == ActiveRows(ConvRows(ring, xs, weight, width, taps), width, bias, act)
            + ActiveRows(ConvRows(RingAfter(ring, xs), ys, weight, width, taps), width, bias, act)
  {
    hide ConvRows, Active;
    SplitRows(ring, xs, ys, weight, width, taps);
  }
}
