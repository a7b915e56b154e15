/** The batch product of src/backend/cpu/cpu_op.c: rows are worked off in chunks of sixteen,
    on one thread or on many, with the weight stored either way round. */
module MatMatMul {
  import opened Strides
  import opened MatMul

  const CHUNK: nat := 16

  /** A weight tensor: its elements by position, its size, and whether it is stored
      transposed. */
  datatype Weight = Weight(get: nat -> real, rows: nat, cols: nat, trans: bool)

  /** Entry (r, c) of the weight matrix. */
  function Entry(w: Weight, r: nat, c: nat): real {
    w.get(if w.trans then Stride(c, w.rows) + r else Stride(r, w.cols) + c)
  }

  /** The first t products of output row r for batch row b. */
  function OutSum(w: Weight, x: seq<real>, batch: nat, b: nat, r: nat, t: nat): real
    requires Matrix(x, batch, w.cols) && b < batch && t <= w.cols
  {
    if t == 0 then 0.0
    else
      RowFits(b, batch, w.cols);
      OutSum(w, x, batch, b, r, t - 1) + Prod(Entry(w, r, t - 1), Cell(x, w.cols, b, t - 1))
  }

  /** Y[b][r] is the inner product of weight row r and batch row b. */
  predicate OutRight(y: seq<real>, w: Weight, x: seq<real>, batch: nat, b: nat, r: nat)
    requires Matrix(x, batch, w.cols) && Matrix(y, batch, w.rows) && b < batch && r < w.rows
  {
    RowFits(b, batch, w.rows);
    Cell(y, w.rows, b, r) == OutSum(w, x, batch, b, r, w.cols)
  }

  predicate Transposed(xt: seq<real>, x: seq<real>, batch: nat, cols: nat)
    requires Matrix(x, batch, cols)
  {
    && Matrix(xt, cols, batch)
    && forall c, b :: 0 <= c < cols && 0 <= b < batch ==> (RowFits(c, cols, batch); RowFits(b, batch, cols); Cell(xt, batch, c, b) == Cell(x, cols, b, c))
  }

  /** wr holds weight rows r0 and on. */
  predicate RowsOf(wr: seq<real>, w: Weight, r0: nat, n: nat) {
    && Matrix(wr, n, w.cols)
    && forall r, c :: 0 <= r < n && 0 <= c < w.cols ==> (RowFits(r, n, w.cols); Cell(wr, w.cols, r, c) == Entry(w, r0 + r, c))
  }

  lemma {:induction false} DotIsOutSum(wr: seq<real>, xt: seq<real>, w: Weight, x: seq<real>, batch: nat, r0: nat, n: nat, r: nat, b: nat, t: nat)
    requires Matrix(x, batch, w.cols) && RowsOf(wr, w, r0, n) && Transposed(xt, x, batch, w.cols)
    requires r < n && b < batch && t <= w.cols
    ensures Dot(wr, xt, n, w.cols, batch, r, b, t) == OutSum(w, x, batch, b, r0 + r, t)
  {
    hide Entry, Prod, Stride;
    if t > 0 {
      DotIsOutSum(wr, xt, w, x, batch, r0, n, r, b, t - 1);
    }
  }

  /** One element is stored. */
  method Put(d: array<real>, rows: nat, w: nat, r: nat, c: nat, v: real)
    requires Matrix(d[..], rows, w) && r < rows && c < w
    modifies d
    ensures Matrix(d[..], rows, w) && Stored(old(d[..]), d[..], rows, w, r, c, [v])
  {
    RowFits(r, rows, w);
    hide Stride;
    d[Stride(r, w) + c] := v;
  }

  // --------------------------------------------------------------------- filling rows

  /** The entries before (r, c) in row order are those of f. */
  ghost predicate Filled(s: seq<real>, rows: nat, w: nat, f: (nat, nat) -> real, r: nat, c: nat) {
    && Matrix(s, rows, w)
    && forall i, j {:trigger f(i, j)} :: 0 <= i < rows && 0 <= j < w && (i < r || (i == r && j < c)) ==>
         (RowFits(i, rows, w); Cell(s, w, i, j) == f(i, j))
  }

  lemma FillStep(s: seq<real>, t: seq<real>, rows: nat, w: nat, f: (nat, nat) -> real, r: nat, c: nat)
    requires Filled(s, rows, w, f, r, c) && r < rows && c < w && Stored(s, t, rows, w, r, c, [f(r, c)])
    ensures Filled(t, rows, w, f, r, c + 1)
  {
    hide Stride, Stored, Cell;
    SameShape(s, t, rows, w, r, c, [f(r, c)]);
    forall i, j | 0 <= i < rows && 0 <= j < w && (i < r || (i == r && j < c + 1))
      ensures Stride(i, w) + w <= |t| && Cell(t, w, i, j) == f(i, j)
    {
      StoredCell(s, t, rows, w, r, c, [f(r, c)], i, j);
    }
  }

  lemma FillRow(s: seq<real>, rows: nat, w: nat, f: (nat, nat) -> real, r: nat)
    requires Filled(s, rows, w, f, r, w) && r < rows
    ensures Filled(s, rows, w, f, r + 1, 0)
  {
    hide Cell;
  }

  lemma FillNone(s: seq<real>, rows: nat, w: nat, f: (nat, nat) -> real)
    requires Matrix(s, rows, w)
    ensures Filled(s, rows, w, f, 0, 0)
  {
  }

  /** The first loops of matmat_chunk: weight rows r0 and on, in either orientation. */
  method LoadRows(w: Weight, r0: nat, n: nat) returns (wr: array<real>)
    ensures fresh(wr) && RowsOf(wr[..], w, r0, n)
  {
    hide Stride, Filled;
    wr := new real[Stride(n, w.cols)](_ => 0.0);
    ghost var f := (r: nat, c: nat) => Entry(w, r0 + r, c);
    FillNone(wr[..], n, w.cols, f);
    for r := 0 to n
      invariant Filled(wr[..], n, w.cols, f, r, 0) && Matrix(wr[..], n, w.cols)
    {
      for c := 0 to w.cols
        invariant Filled(wr[..], n, w.cols, f, r, c) && Matrix(wr[..], n, w.cols)
      {
        ghost var s := wr[..];
        var v := if w.trans then w.get(Stride(c, w.rows) + (r0 + r)) else w.get(Stride(r0 + r, w.cols) + c);
        EntryIs(w, r0 + r, c);
        assert f(r, c) == Entry(w, r0 + r, c);
        Put(wr, n, w.cols, r, c, v);
        FillStep(s, wr[..], n, w.cols, f, r, c);
      }
      FillRow(wr[..], n, w.cols, f, r);
    }
    RowsFilled(wr[..], w, r0, n, f);
  }

  lemma EntryIs(w: Weight, r: nat, c: nat)
    ensures Entry(w, r, c) == if w.trans then w.get(Stride(c, w.rows) + r) else w.get(Stride(r, w.cols) + c)
  {
  }

  lemma RowsFilled(s: seq<real>, w: Weight, r0: nat, n: nat, f: (nat, nat) -> real)
    requires Filled(s, n, w.cols, f, n, 0) && forall r: nat, c: nat :: f(r, c) == Entry(w, r0 + r, c)
    ensures RowsOf(s, w, r0, n)
  {
    hide Entry, Cell;
    forall r, c | 0 <= r < n && 0 <= c < w.cols ensures Stride(r, w.cols) + w.cols <= |s| && Cell(s, w.cols, r, c) == Entry(w, r0 + r, c) {
      RowFits(r, n, w.cols);
      assert f(r, c) == Entry(w, r0 + r, c);
    }
  }

  /** The input is transposed once up front. */
  method Transpose(x: seq<real>, batch: nat, cols: nat) returns (xt: array<real>)
    requires Matrix(x, batch, cols)
    ensures fresh(xt) && Transposed(xt[..], x, batch, cols)
  {
    hide Stride, Filled, Cell;
    xt := new real[Stride(cols, batch)](_ => 0.0);
    ghost var f := (c: nat, b: nat) => if c < cols && b < batch then CellOf(x, batch, cols, b, c) else 0.0;
    FillNone(xt[..], cols, batch, f);
    for c := 0 to cols
      invariant Filled(xt[..], cols, batch, f, c, 0) && Matrix(xt[..], cols, batch)
    {
      for b := 0 to batch
        invariant Filled(xt[..], cols, batch, f, c, b) && Matrix(xt[..], cols, batch)
      {
        ghost var s := xt[..];
        RowFits(b, batch, cols);
        Put(xt, cols, batch, c, b, x[Stride(b, cols) + c]);
        CellIs(x, cols, b, c);
        FillStep(s, xt[..], cols, batch, f, c, b);
      }
      FillRow(xt[..], cols, batch, f, c);
    }
    TransposedFilled(xt[..], x, batch, cols, f);
  }

  function CellOf(x: seq<real>, rows: nat, w: nat, r: nat, c: nat): real
    requires Matrix(x, rows, w) && r < rows && c < w
  {
    RowFits(r, rows, w);
    Cell(x, w, r, c)
  }

  lemma CellIs(x: seq<real>, w: nat, r: nat, c: nat)
    requires c < w && Stride(r, w) + w <= |x|
    ensures Cell(x, w, r, c) == x[Stride(r, w) + c]
  {
  }

  lemma TransposedFilled(s: seq<real>, x: seq<real>, batch: nat, cols: nat, f: (nat, nat) -> real)
    requires Matrix(x, batch, cols) && Filled(s, cols, batch, f, cols, 0)
    requires forall c: nat, b: nat :: c < cols && b < batch ==> f(c, b) == CellOf(x, batch, cols, b, c)
    ensures Transposed(s, x, batch, cols)
  {
    hide Cell;
    forall c, b | 0 <= c < cols && 0 <= b < batch
      ensures Stride(c, batch) + batch <= |s| && Stride(b, cols) + cols <= |x| && Cell(s, batch, c, b) == Cell(x, cols, b, c)
    {
      RowFits(c, cols, batch);
      RowFits(b, batch, cols);
      assert f(c, b) == CellOf(x, batch, cols, b, c);
    }
  }

  // ------------------------------------------------------------------------ one chunk

  /** What has been written of a chunk: rows r0 to r0 + r for every batch row, and row
      r0 + r for the first b of them; entries of other rows are as in y0. */
  ghost predicate Scattered(y: seq<real>, y0: seq<real>, w: Weight, x: seq<real>, batch: nat, r0: nat, r1: nat, r: nat, b: nat)
    requires Matrix(x, batch, w.cols) && Matrix(y0, batch, w.rows) && r0 <= r1 <= w.rows
  {
    && Matrix(y, batch, w.rows)
    && (forall i, j :: 0 <= i < batch && r0 <= j < r1 && (j < r0 + r || (j == r0 + r && i < b)) ==> OutRight(y, w, x, batch, i, j))
    && (forall i, j :: 0 <= i < batch && 0 <= j < w.rows && !(r0 <= j < r1) ==>
          CellOf(y, batch, w.rows, i, j) == CellOf(y0, batch, w.rows, i, j))
  }

  lemma ScatterStep(s: seq<real>, t: seq<real>, y0: seq<real>, w: Weight, x: seq<real>, batch: nat, r0: nat, r1: nat, r: nat, b: nat, v: real)
    requires Matrix(x, batch, w.cols) && Matrix(y0, batch, w.rows) && r0 + r < r1 <= w.rows && b < batch
    requires Scattered(s, y0, w, x, batch, r0, r1, r, b)
    requires Matrix(s, batch, w.rows) && Stored(s, t, batch, w.rows, b, r0 + r, [v]) && v == OutSum(w, x, batch, b, r0 + r, w.cols)
    ensures Scattered(t, y0, w, x, batch, r0, r1, r, b + 1)
  {
    hide Stride, Stored, Cell, OutSum;
    SameShape(s, t, batch, w.rows, b, r0 + r, [v]);
    forall i, j | 0 <= i < batch && 0 <= j < w.rows
      ensures CellOf(t, batch, w.rows, i, j) == if i == b && j == r0 + r then v else CellOf(s, batch, w.rows, i, j)
    {
      StoredCell(s, t, batch, w.rows, b, r0 + r, [v], i, j);
    }
    forall i, j | 0 <= i < batch && r0 <= j < r1 && (j < r0 + r || (j == r0 + r && i < b + 1)) ensures OutRight(t, w, x, batch, i, j) {
      assert CellOf(t, batch, w.rows, i, j) == if i == b && j == r0 + r then v else CellOf(s, batch, w.rows, i, j);
      if !(i == b && j == r0 + r) { assert OutRight(s, w, x, batch, i, j); }
    }
  }

  lemma ScatterRow(y: seq<real>, y0: seq<real>, w: Weight, x: seq<real>, batch: nat, r0: nat, r1: nat, r: nat)
    requires Matrix(x, batch, w.cols) && Matrix(y0, batch, w.rows) && r0 + r < r1 <= w.rows
    requires Scattered(y, y0, w, x, batch, r0, r1, r, batch)
    ensures Scattered(y, y0, w, x, batch, r0, r1, r + 1, 0)
  {
    hide OutRight, CellOf;
  }

  lemma ScatterNone(y: seq<real>, w: Weight, x: seq<real>, batch: nat, r0: nat, r1: nat)
    requires Matrix(x, batch, w.cols) && Matrix(y, batch, w.rows) && r0 <= r1 <= w.rows
    ensures Scattered(y, y, w, x, batch, r0, r1, 0, 0)
  {
  }

  /** matmat_chunk: output rows r0 to r1 through one small product. */
  method Chunk(y: array<real>, w: Weight, xt: seq<real>, x: seq<real>, batch: nat, r0: nat, r1: nat, lanes: nat)
    requires lanes > 0 && Matrix(x, batch, w.cols) && Transposed(xt, x, batch, w.cols)
    requires Matrix(y[..], batch, w.rows) && r0 <= r1 <= w.rows
    modifies y
    ensures Scattered(y[..], old(y[..]), w, x, batch, r0, r1, r1 - r0, 0)
  {
    hide Stride, Scattered, Product, Transposed, RowsOf, Filled;
    ghost var y0 := y[..];
    var n := r1 - r0;
    var wr := LoadRows(w, r0, n);
    ghost var rows := wr[..];
    RowsShape(rows, w, r0, n);
    TransposedShape(xt, x, batch, w.cols);
    var tmp := new real[Stride(n, batch)](_ => 0.0);
    MatMat(tmp, wr[..], xt, n, w.cols, batch, lanes);
    ghost var out := tmp[..];
    ProductShape(out, rows, xt, n, w.cols, batch);
    ScatterNone(y[..], w, x, batch, r0, r1);
    for r := 0 to n
      invariant Scattered(y[..], y0, w, x, batch, r0, r1, r, 0) && Matrix(y[..], batch, w.rows) && tmp[..] == out
    {
      for b := 0 to batch
        invariant Scattered(y[..], y0, w, x, batch, r0, r1, r, b) && Matrix(y[..], batch, w.rows) && tmp[..] == out
      {
        ghost var s := y[..];
        RowFits(r, n, batch);
        Put(y, batch, w.rows, b, r0 + r, tmp[Stride(r, batch) + b]);
        ProductEntry(out, rows, xt, w, x, batch, r0, n, r, b);
        ScatterStep(s, y[..], y0, w, x, batch, r0, r1, r, b, out[Stride(r, batch) + b]);
      }
      ScatterRow(y[..], y0, w, x, batch, r0, r1, r);
    }
  }

  lemma RowsShape(wr: seq<real>, w: Weight, r0: nat, n: nat)
    requires RowsOf(wr, w, r0, n)
    ensures Matrix(wr, n, w.cols)
  {
  }

  lemma TransposedShape(xt: seq<real>, x: seq<real>, batch: nat, cols: nat)
    requires Matrix(x, batch, cols) && Transposed(xt, x, batch, cols)
    ensures Matrix(xt, cols, batch)
  {
  }

  lemma ProductShape(s: seq<real>, a: seq<real>, b: seq<real>, m: nat, k: nat, n: nat)
    requires Matrix(a, m, k) && Matrix(b, k, n) && Product(s, a, b, m, k, n)
    ensures Matrix(s, m, n)
  {
  }

  lemma ProductEntry(out: seq<real>, wr: seq<real>, xt: seq<real>, w: Weight, x: seq<real>, batch: nat, r0: nat, n: nat, r: nat, b: nat)
    requires Matrix(x, batch, w.cols) && RowsOf(wr, w, r0, n) && Transposed(xt, x, batch, w.cols)
    requires Matrix(wr, n, w.cols) && Matrix(xt, w.cols, batch) && Product(out, wr, xt, n, w.cols, batch) && r < n && b < batch
    ensures Stride(r, batch) + b < |out| && out[Stride(r, batch) + b] == OutSum(w, x, batch, b, r0 + r, w.cols)
  {
    hide RowsOf, Transposed, Dot, OutSum, Stride;
    assert Right(out, wr, xt, n, w.cols, batch, r, b);
    RowFits(r, n, batch);
    DotIsOutSum(wr, xt, w, x, batch, r0, n, r, b, w.cols);
  }

  // --------------------------------------------------------------------- all the chunks

  /** The rows of chunk ch are right for every batch row. */
  ghost predicate ChunkDone(y: seq<real>, w: Weight, x: seq<real>, batch: nat, ch: nat)
    requires Matrix(x, batch, w.cols)
  {
    && Matrix(y, batch, w.rows)
    && forall i, j :: 0 <= i < batch && CHUNK * ch <= j < CHUNK * ch + CHUNK && j < w.rows ==> OutRight(y, w, x, batch, i, j)
  }

  lemma ScatteredDone(y: seq<real>, y0: seq<real>, w: Weight, x: seq<real>, batch: nat, ch: nat, r0: nat, r1: nat, other: nat)
    requires Matrix(x, batch, w.cols) && Matrix(y0, batch, w.rows) && r0 == CHUNK * ch && r0 <= r1 <= w.rows
    requires r1 == if r0 + CHUNK > w.rows then w.rows else r0 + CHUNK
    requires Scattered(y, y0, w, x, batch, r0, r1, r1 - r0, 0)
    ensures ChunkDone(y, w, x, batch, ch)
    ensures other != ch && ChunkDone(y0, w, x, batch, other) ==> ChunkDone(y, w, x, batch, other)
  {
    hide OutSum, Stride;
    if other != ch && ChunkDone(y0, w, x, batch, other) {
      forall i, j | 0 <= i < batch && CHUNK * other <= j < CHUNK * other + CHUNK && j < w.rows ensures OutRight(y, w, x, batch, i, j) {
        assert OutRight(y0, w, x, batch, i, j);
        assert CellOf(y, batch, w.rows, i, j) == CellOf(y0, batch, w.rows, i, j);
      }
    }
  }

  /** mat_mat_mul: the thread pool may run the chunks in any order; any order in which every
      chunk occurs gives Y[b] = W X[b] in every entry. The serial path is the order 0, 1, 2
      and so on. */
  method MatMatMul(y: array<real>, w: Weight, x: seq<real>, batch: nat, lanes: nat, schedule: seq<nat>)
    requires lanes > 0 && Matrix(x, batch, w.cols) && Matrix(y[..], batch, w.rows)
    requires forall ch: nat :: CHUNK * ch < w.rows <==> ch in schedule
    modifies y
    ensures Matrix(y[..], batch, w.rows)
    ensures forall b, r :: 0 <= b < batch && 0 <= r < w.rows ==> OutRight(y[..], w, x, batch, b, r)
  {
    hide Stride, Scattered, ChunkDone, Transposed, OutRight;
    var xt := Transpose(x, batch, w.cols);
    ghost var xs := xt[..];
    for i := 0 to |schedule|
      invariant Matrix(y[..], batch, w.rows) && xt[..] == xs
      invariant forall k :: 0 <= k < i ==> ChunkDone(y[..], w, x, batch, schedule[k])
    {
      var ch := schedule[i];
      var r0 := CHUNK * ch;
      assert ch in schedule;
      var r1 := if r0 + CHUNK > w.rows then w.rows else r0 + CHUNK;
      ghost var y0 := y[..];
      Chunk(y, w, xt[..], x, batch, r0, r1, lanes);
      ScatteredDone(y[..], y0, w, x, batch, ch, r0, r1, ch);
      DoneShape(y[..], w, x, batch, ch);
      forall k | 0 <= k < i ensures ChunkDone(y[..], w, x, batch, schedule[k]) {
        ScatteredDone(y[..], y0, w, x, batch, ch, r0, r1, schedule[k]);
      }
    }
    forall b, r | 0 <= b < batch && 0 <= r < w.rows ensures OutRight(y[..], w, x, batch, b, r) {
      var ch := r / CHUNK;
      assert CHUNK * ch < w.rows && ch in schedule;
      DoneEntry(y[..], w, x, batch, ch, b, r);
    }
  }

  lemma DoneShape(y: seq<real>, w: Weight, x: seq<real>, batch: nat, ch: nat)
    requires Matrix(x, batch, w.cols) && ChunkDone(y, w, x, batch, ch)
    ensures Matrix(y, batch, w.rows)
  {
  }

  lemma DoneEntry(y: seq<real>, w: Weight, x: seq<real>, batch: nat, ch: nat, b: nat, r: nat)
    requires Matrix(x, batch, w.cols) && Matrix(y, batch, w.rows) && ChunkDone(y, w, x, batch, ch)
    requires b < batch && CHUNK * ch <= r < CHUNK * ch + CHUNK && r < w.rows
    ensures OutRight(y, w, x, batch, b, r)
  {
  }

  /** The serial path visits every chunk. */
  lemma SerialSchedule(rows: nat)
    ensures var n := (rows + CHUNK - 1) / CHUNK; forall ch: nat :: CHUNK * ch < rows <==> ch in seq(n, i requires 0 <= i < n => i)
  {
    var n := (rows + CHUNK - 1) / CHUNK;
    var s := seq(n, i requires 0 <= i < n => i);
    forall ch: nat ensures CHUNK * ch < rows <==> ch in s {
      if ch < n { assert s[ch] == ch; }
    }
  }
}
