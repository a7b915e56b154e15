/** Matrix products over the reals: the tiled kernels of src/backend/cpu/cpu_x86.c and the
    chunked product of src/backend/cpu/cpu_op.c against the plain sums. */
module MatMul {
  import opened Strides

  /** Entry (r, c) of a row-major matrix of width w. */
  function Cell(s: seq<real>, w: nat, r: nat, c: nat): real
    requires c < w && Stride(r, w) + w <= |s|
  {
    s[Stride(r, w) + c]
  }

  predicate Matrix(s: seq<real>, rows: nat, w: nat) {
    |s| == Stride(rows, w)
  }

  lemma RowFits(r: nat, rows: nat, w: nat)
    requires r < rows
    ensures Stride(r, w) + w <= Stride(rows, w)
  {
    StrideBelow(r, rows, w);
  }

  function Prod(x: real, y: real): real {
    x * y
  }

  /** The first t products of entry (i, j) of A times B. */
  function Dot(a: seq<real>, b: seq<real>, m: nat, k: nat, n: nat, i: nat, j: nat, t: nat): real
    requires Matrix(a, m, k) && Matrix(b, k, n) && i < m && j < n && t <= k
  {
    if t == 0 then 0.0
    else
      RowFits(i, m, k);
      RowFits(t - 1, k, n);
      Dot(a, b, m, k, n, i, j, t - 1) + Prod(Cell(a, k, i, t - 1), Cell(b, n, t - 1, j))
  }

  /** Entry (r, c) of C is the whole sum. */
  predicate Right(s: seq<real>, a: seq<real>, b: seq<real>, m: nat, k: nat, n: nat, r: nat, c: nat)
    requires Matrix(s, m, n) && Matrix(a, m, k) && Matrix(b, k, n) && r < m && c < n
  {
    RowFits(r, m, n);
    Cell(s, n, r, c) == Dot(a, b, m, k, n, r, c, k)
  }

  // ------------------------------------------------------------------- vector lanes

  /** v + x * (the lanes of b from off on). */
  function MulAdd(v: seq<real>, x: real, b: seq<real>, off: nat): (r: seq<real>)
    requires off + |v| <= |b|
    ensures |r| == |v|
  {
    seq(|v|, l requires 0 <= l < |v| => v[l] + Prod(x, b[off + l]))
  }

  /** The lanes of v hold the first t products of row i, columns j and on. */
  predicate Lanes(v: seq<real>, w: nat, a: seq<real>, b: seq<real>, m: nat, k: nat, n: nat, i: nat, j: nat, t: nat)
    requires Matrix(a, m, k) && Matrix(b, k, n) && i < m && j + w <= n && t <= k
  {
    |v| == w && forall l :: 0 <= l < w ==> v[l] == Dot(a, b, m, k, n, i, j + l, t)
  }

  lemma LanesStep(v: seq<real>, w: nat, a: seq<real>, b: seq<real>, m: nat, k: nat, n: nat, i: nat, j: nat, t: nat)
    requires Matrix(a, m, k) && Matrix(b, k, n) && i < m && j + w <= n && t < k && Lanes(v, w, a, b, m, k, n, i, j, t)
    ensures Stride(i, k) + t < |a| && Stride(t, n) + j + w <= |b|
    ensures Lanes(MulAdd(v, a[Stride(i, k) + t], b, Stride(t, n) + j), w, a, b, m, k, n, i, j, t + 1)
  {
    hide Stride, Dot, Prod, MulAdd;
    RowFits(i, m, k);
    RowFits(t, k, n);
    var x, off := a[Stride(i, k) + t], Stride(t, n) + j;
    LanesKept(v, x, b, off);
    var u := MulAdd(v, x, b, off);
    forall l | 0 <= l < w ensures u[l] == Dot(a, b, m, k, n, i, j + l, t + 1) {
      Lane(v, x, b, off, l);
      DotStep(a, b, m, k, n, i, j + l, t);
    }
  }

  lemma LanesKept(v: seq<real>, x: real, b: seq<real>, off: nat)
    requires off + |v| <= |b|
    ensures |MulAdd(v, x, b, off)| == |v|
  {
  }

  lemma Lane(v: seq<real>, x: real, b: seq<real>, off: nat, l: nat)
    requires off + |v| <= |b| && l < |v|
    ensures |MulAdd(v, x, b, off)| == |v| && MulAdd(v, x, b, off)[l] == v[l] + Prod(x, b[off + l])
  {
  }

  lemma DotStep(a: seq<real>, b: seq<real>, m: nat, k: nat, n: nat, i: nat, j: nat, t: nat)
    requires Matrix(a, m, k) && Matrix(b, k, n) && i < m && j < n && t < k
    requires Stride(i, k) + k <= |a| && Stride(t, n) + n <= |b|
    ensures Dot(a, b, m, k, n, i, j, t + 1) == Dot(a, b, m, k, n, i, j, t) + Prod(Cell(a, k, i, t), Cell(b, n, t, j))
  {
  }

  lemma NoLanes(v: seq<real>, w: nat, a: seq<real>, b: seq<real>, m: nat, k: nat, n: nat, i: nat, j: nat)
    requires Matrix(a, m, k) && Matrix(b, k, n) && i < m && j + w <= n && |v| == w && forall l :: 0 <= l < w ==> v[l] == 0.0
    ensures Lanes(v, w, a, b, m, k, n, i, j, 0)
  {
  }

  /** t holds s but for row r, columns j and on, where it holds v. */
  ghost predicate Stored(s: seq<real>, t: seq<real>, m: nat, n: nat, r: nat, j: nat, v: seq<real>)
    requires Matrix(s, m, n) && r < m && j + |v| <= n
  {
    && |t| == |s| && Stride(r, n) + n <= |s|
    && forall e :: 0 <= e < |s| ==>
         t[e] == if Stride(r, n) + j <= e < Stride(r, n) + j + |v| then v[e - Stride(r, n) - j] else s[e]
  }

  lemma StoredCell(s: seq<real>, t: seq<real>, m: nat, n: nat, r: nat, j: nat, v: seq<real>, r': nat, c: nat)
    requires Matrix(s, m, n) && r < m && j + |v| <= n && Stored(s, t, m, n, r, j, v) && r' < m && c < n
    ensures Stride(r', n) + n <= |s| == |t|
    ensures Cell(t, n, r', c) == if r' == r && j <= c < j + |v| then v[c - j] else Cell(s, n, r', c)
  {
    RowFits(r', m, n);
    if r' != r { StrideApart(r', r, n); }
    hide Stride;
  }

  /** Storing the finished lanes of row r makes those entries right and leaves the others. */
  lemma StoredRight(s: seq<real>, t: seq<real>, a: seq<real>, b: seq<real>, m: nat, k: nat, n: nat, r: nat, j: nat, v: seq<real>,
                    r': nat, c: nat)
    requires Matrix(s, m, n) && Matrix(a, m, k) && Matrix(b, k, n) && r < m && j + |v| <= n && r' < m && c < n
    requires Stored(s, t, m, n, r, j, v) && Lanes(v, |v|, a, b, m, k, n, r, j, k)
    ensures Matrix(t, m, n)
    ensures if r' == r && j <= c < j + |v| then Right(t, a, b, m, k, n, r', c)
            else Right(t, a, b, m, k, n, r', c) == Right(s, a, b, m, k, n, r', c)
  {
    StoredCell(s, t, m, n, r, j, v, r', c);
    hide Stored, Cell, Stride, Dot;
    if r' == r && j <= c < j + |v| {
      assert v[c - j] == Dot(a, b, m, k, n, r, j + (c - j), k);
    }
  }

  /** All rows before i are finished, and columns before j of the next h rows. */
  ghost predicate Band(s: seq<real>, a: seq<real>, b: seq<real>, m: nat, k: nat, n: nat, i: nat, h: nat, j: nat)
    requires Matrix(a, m, k) && Matrix(b, k, n) && i + h <= m && j <= n
  {
    && Matrix(s, m, n)
    && (forall r, c :: 0 <= r < i && 0 <= c < n ==> Right(s, a, b, m, k, n, r, c))
    && (forall r, c :: i <= r < i + h && 0 <= c < j ==> Right(s, a, b, m, k, n, r, c))
  }

  /** One vector of lanes is stored: row r of the band. */
  ghost predicate Partial(s: seq<real>, a: seq<real>, b: seq<real>, m: nat, k: nat, n: nat, i: nat, h: nat, j: nat, w: nat, d: nat)
    requires Matrix(a, m, k) && Matrix(b, k, n) && i + h <= m && j + w <= n && d <= h
  {
    && Band(s, a, b, m, k, n, i, h, j)
    && forall r, c :: i <= r < i + d && j <= c < j + w ==> Right(s, a, b, m, k, n, r, c)
  }

  lemma PartialStep(s: seq<real>, t: seq<real>, a: seq<real>, b: seq<real>, m: nat, k: nat, n: nat,
                    i: nat, h: nat, j: nat, w: nat, d: nat, v: seq<real>)
    requires Matrix(a, m, k) && Matrix(b, k, n) && i + h <= m && j + w <= n && d < h
    requires Partial(s, a, b, m, k, n, i, h, j, w, d) && |v| == w && Lanes(v, w, a, b, m, k, n, i + d, j, k)
    requires Matrix(s, m, n) && Stored(s, t, m, n, i + d, j, v)
    ensures Partial(t, a, b, m, k, n, i, h, j, w, d + 1)
  {
    hide Right, Stored, Lanes, Stride;
    forall r, c | 0 <= r < m && 0 <= c < n
      ensures Matrix(t, m, n) && (Right(s, a, b, m, k, n, r, c) ==> Right(t, a, b, m, k, n, r, c))
      ensures r == i + d && j <= c < j + w ==> Right(t, a, b, m, k, n, r, c)
    {
      StoredRight(s, t, a, b, m, k, n, i + d, j, v, r, c);
    }
    assert Matrix(t, m, n) by { SameShape(s, t, m, n, i + d, j, v); }
  }

  lemma SameShape(s: seq<real>, t: seq<real>, m: nat, n: nat, r: nat, j: nat, v: seq<real>)
    requires Matrix(s, m, n) && r < m && j + |v| <= n && Stored(s, t, m, n, r, j, v)
    ensures Matrix(t, m, n)
  {
  }

  // ------------------------------------------------------------------------- kernels

  /** _mm_storeu_ps, or a scalar store when there is one lane. */
  method StoreLanes(c: array<real>, m: nat, n: nat, r: nat, j: nat, v: seq<real>)
    requires Matrix(c[..], m, n) && r < m && j + |v| <= n
    modifies c
    ensures Stored(old(c[..]), c[..], m, n, r, j, v)
  {
    RowFits(r, m, n);
    hide Stride;
    var off := Stride(r, n) + j;
    forall l | 0 <= l < |v| { c[off + l] := v[l]; }
  }

  /** The four-row micro-block: four vectors of w lanes go down B together. The scalar tail
      is the same with one lane. */
  method FourRows(c: array<real>, a: seq<real>, b: seq<real>, m: nat, k: nat, n: nat, i: nat, j: nat, w: nat)
    requires Matrix(a, m, k) && Matrix(b, k, n) && i + 4 <= m && j + w <= n && Band(c[..], a, b, m, k, n, i, 4, j)
    modifies c
    ensures Band(c[..], a, b, m, k, n, i, 4, j + w)
  {
    hide Stride, Band, Lanes, MulAdd, Stored, Partial, Dot;
    var zero := seq(w, _ => 0.0);
    var v0, v1, v2, v3 := zero, zero, zero, zero;
    NoLanes(zero, w, a, b, m, k, n, i, j);
    NoLanes(zero, w, a, b, m, k, n, i + 1, j);
    NoLanes(zero, w, a, b, m, k, n, i + 2, j);
    NoLanes(zero, w, a, b, m, k, n, i + 3, j);
    for t := 0 to k
      invariant Lanes(v0, w, a, b, m, k, n, i, j, t) && Lanes(v1, w, a, b, m, k, n, i + 1, j, t)
      invariant Lanes(v2, w, a, b, m, k, n, i + 2, j, t) && Lanes(v3, w, a, b, m, k, n, i + 3, j, t)
      invariant |v0| == |v1| == |v2| == |v3| == w && Band(c[..], a, b, m, k, n, i, 4, j)
    {
      LanesStep(v0, w, a, b, m, k, n, i, j, t);
      LanesStep(v1, w, a, b, m, k, n, i + 1, j, t);
      LanesStep(v2, w, a, b, m, k, n, i + 2, j, t);
      LanesStep(v3, w, a, b, m, k, n, i + 3, j, t);
      var off := Stride(t, n) + j;
      LanesKept(v0, a[Stride(i, k) + t], b, off);
      LanesKept(v1, a[Stride(i + 1, k) + t], b, off);
      LanesKept(v2, a[Stride(i + 2, k) + t], b, off);
      LanesKept(v3, a[Stride(i + 3, k) + t], b, off);
      v0 := MulAdd(v0, a[Stride(i, k) + t], b, off);
      v1 := MulAdd(v1, a[Stride(i + 1, k) + t], b, off);
      v2 := MulAdd(v2, a[Stride(i + 2, k) + t], b, off);
      v3 := MulAdd(v3, a[Stride(i + 3, k) + t], b, off);
    }
    PartialStart(c[..], a, b, m, k, n, i, 4, j, w);
    PutRow(c, a, b, m, k, n, i, 4, j, w, 0, v0);
    PutRow(c, a, b, m, k, n, i, 4, j, w, 1, v1);
    PutRow(c, a, b, m, k, n, i, 4, j, w, 2, v2);
    PutRow(c, a, b, m, k, n, i, 4, j, w, 3, v3);
    PartialEnd(c[..], a, b, m, k, n, i, 4, j, w);
  }

  /** A single row, for the rows that are left over. */
  method OneRow(c: array<real>, a: seq<real>, b: seq<real>, m: nat, k: nat, n: nat, i: nat, j: nat, w: nat)
    requires Matrix(a, m, k) && Matrix(b, k, n) && i + 1 <= m && j + w <= n && Band(c[..], a, b, m, k, n, i, 1, j)
    modifies c
    ensures Band(c[..], a, b, m, k, n, i, 1, j + w)
  {
    hide Stride, Band, Lanes, MulAdd, Stored, Partial, Dot;
    var v := seq(w, _ => 0.0);
    NoLanes(v, w, a, b, m, k, n, i, j);
    for t := 0 to k
      invariant Lanes(v, w, a, b, m, k, n, i, j, t) && |v| == w && Band(c[..], a, b, m, k, n, i, 1, j)
    {
      LanesStep(v, w, a, b, m, k, n, i, j, t);
      LanesKept(v, a[Stride(i, k) + t], b, Stride(t, n) + j);
      v := MulAdd(v, a[Stride(i, k) + t], b, Stride(t, n) + j);
    }
    PartialStart(c[..], a, b, m, k, n, i, 1, j, w);
    PutRow(c, a, b, m, k, n, i, 1, j, w, 0, v);
    PartialEnd(c[..], a, b, m, k, n, i, 1, j, w);
  }

  method PutRow(c: array<real>, a: seq<real>, b: seq<real>, m: nat, k: nat, n: nat, i: nat, h: nat, j: nat, w: nat, d: nat, v: seq<real>)
    requires Matrix(a, m, k) && Matrix(b, k, n) && i + h <= m && j + w <= n && d < h
    requires Partial(c[..], a, b, m, k, n, i, h, j, w, d) && |v| == w && Lanes(v, w, a, b, m, k, n, i + d, j, k)
    modifies c
    ensures Partial(c[..], a, b, m, k, n, i, h, j, w, d + 1)
  {
    hide Stride, Lanes, Stored, Right;
    ghost var s := c[..];
    StoreLanes(c, m, n, i + d, j, v);
    PartialStep(s, c[..], a, b, m, k, n, i, h, j, w, d, v);
  }

  lemma PartialStart(s: seq<real>, a: seq<real>, b: seq<real>, m: nat, k: nat, n: nat, i: nat, h: nat, j: nat, w: nat)
    requires Matrix(a, m, k) && Matrix(b, k, n) && i + h <= m && j + w <= n && Band(s, a, b, m, k, n, i, h, j)
    ensures Partial(s, a, b, m, k, n, i, h, j, w, 0)
  {
  }

  lemma PartialEnd(s: seq<real>, a: seq<real>, b: seq<real>, m: nat, k: nat, n: nat, i: nat, h: nat, j: nat, w: nat)
    requires Matrix(a, m, k) && Matrix(b, k, n) && i + h <= m && j + w <= n && Partial(s, a, b, m, k, n, i, h, j, w, h)
    ensures Band(s, a, b, m, k, n, i, h, j + w)
  {
    hide Right;
  }

  lemma NextBand(s: seq<real>, a: seq<real>, b: seq<real>, m: nat, k: nat, n: nat, i: nat, h: nat, h': nat)
    requires Matrix(a, m, k) && Matrix(b, k, n) && i + h + h' <= m && Band(s, a, b, m, k, n, i, h, n)
    ensures Band(s, a, b, m, k, n, i + h, h', 0)
  {
    hide Right;
  }

  /** The product C = A B. */
  ghost predicate Product(s: seq<real>, a: seq<real>, b: seq<real>, m: nat, k: nat, n: nat)
    requires Matrix(a, m, k) && Matrix(b, k, n)
  {
    Matrix(s, m, n) && forall r, c :: 0 <= r < m && 0 <= c < n ==> Right(s, a, b, m, k, n, r, c)
  }

  /** mat_mat_sse with four lanes, and mat_mat_avx2 with eight: bands of four rows, then the
      rows left over; vectors of columns, then the columns left over. */
  method MatMat(c: array<real>, a: seq<real>, b: seq<real>, m: nat, k: nat, n: nat, lanes: nat)
    requires lanes > 0 && Matrix(a, m, k) && Matrix(b, k, n) && Matrix(c[..], m, n)
    modifies c
    ensures Product(c[..], a, b, m, k, n)
  {
    hide Stride, Right, Dot;
    var i := 0;
    while i + 4 <= m
      invariant 0 <= i <= m && Band(c[..], a, b, m, k, n, i, 0, 0)
    {
      NextBand(c[..], a, b, m, k, n, i, 0, 4);
      var j := 0;
      while j + lanes <= n
        invariant 0 <= j <= n && Band(c[..], a, b, m, k, n, i, 4, j)
      {
        FourRows(c, a, b, m, k, n, i, j, lanes);
        j := j + lanes;
      }
      while j < n
        invariant 0 <= j <= n && Band(c[..], a, b, m, k, n, i, 4, j)
      {
        FourRows(c, a, b, m, k, n, i, j, 1);
        j := j + 1;
      }
      NextBand(c[..], a, b, m, k, n, i, 4, 0);
      i := i + 4;
    }
    while i < m
      invariant 0 <= i <= m && Band(c[..], a, b, m, k, n, i, 0, 0)
    {
      NextBand(c[..], a, b, m, k, n, i, 0, 1);
      var j := 0;
      while j + lanes <= n
        invariant 0 <= j <= n && Band(c[..], a, b, m, k, n, i, 1, j)
      {
        OneRow(c, a, b, m, k, n, i, j, lanes);
        j := j + lanes;
      }
      while j < n
        invariant 0 <= j <= n && Band(c[..], a, b, m, k, n, i, 1, j)
      {
        OneRow(c, a, b, m, k, n, i, j, 1);
        j := j + 1;
      }
      NextBand(c[..], a, b, m, k, n, i, 1, 0);
      i := i + 1;
    }
  }
}
