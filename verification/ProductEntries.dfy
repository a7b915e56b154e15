/** The matrix products entry by entry, at the positions of the flat arrays. */
module ProductEntries {
  import opened Strides
  import opened FlatSums
  import opened MatMul
  import opened MatMatMul

  /** Entry (r, c) is at r * w + c. */
  lemma CellPlace(s: seq<real>, rows: nat, w: nat, r: nat, c: nat)
    requires Matrix(s, rows, w) && r < rows && c < w
    ensures Stride(r, w) + w <= |s| && 0 <= r * w + c < |s| && Cell(s, w, r, c) == Get(s, r * w + c)
  {
    RowFits(r, rows, w);
    StrideIs(r, w);
    hide Stride;
  }

  lemma {:induction false} DotSum(a: seq<real>, b: seq<real>, m: nat, k: nat, n: nat, i: nat, j: nat, t: nat, f: int -> real)
    requires Matrix(a, m, k) && Matrix(b, k, n) && i < m && j < n && t <= k
    requires forall e :: 0 <= e < t ==> f(e) == Get(a, i * k + e) * Get(b, e * n + j)
    ensures Dot(a, b, m, k, n, i, j, t) == Sum(t, f)
  {
    hide Stride, Cell, Get;
    if t > 0 {
      DotSum(a, b, m, k, n, i, j, t - 1, f);
      CellPlace(a, m, k, i, t - 1);
      CellPlace(b, k, n, t - 1, j);
    }
  }

  /** C = A B: entry (r, c) is the sum over t of A[r][t] times B[t][c]. */
  lemma ProductEntry(s: seq<real>, a: seq<real>, b: seq<real>, m: nat, k: nat, n: nat, r: nat, c: nat)
    requires Matrix(a, m, k) && Matrix(b, k, n) && Product(s, a, b, m, k, n) && r < m && c < n
    ensures Get(s, r * n + c) == Sum(k, t => Get(a, r * k + t) * Get(b, t * n + c))
  {
    hide Stride, Cell, Get, Dot, Sum;
    assert Right(s, a, b, m, k, n, r, c);
    CellPlace(s, m, n, r, c);
    DotSum(a, b, m, k, n, r, c, k, t => Get(a, r * k + t) * Get(b, t * n + c));
  }

  /** Element e of a weight tensor. */
  function Element(w: Weight, e: int): real {
    if e >= 0 then w.get(e) else 0.0
  }

  lemma EntryPlace(w: Weight, r: nat, c: nat)
    ensures Entry(w, r, c) == Element(w, if w.trans then c * w.rows + r else r * w.cols + c)
  {
    StrideIs(c, w.rows);
    StrideIs(r, w.cols);
    hide Stride;
  }

  lemma {:induction false} OutIsSum(w: Weight, x: seq<real>, batch: nat, b: nat, r: nat, t: nat, f: int -> real)
    requires Matrix(x, batch, w.cols) && b < batch && t <= w.cols
    requires forall c :: 0 <= c < t ==>
               f(c) == Element(w, if w.trans then c * w.rows + r else r * w.cols + c) * Get(x, b * w.cols + c)
    ensures OutSum(w, x, batch, b, r, t) == Sum(t, f)
  {
    hide Stride, Cell, Get, Element, Entry;
    if t > 0 {
      OutIsSum(w, x, batch, b, r, t - 1, f);
      EntryPlace(w, r, t - 1);
      CellPlace(x, batch, w.cols, b, t - 1);
    }
  }

  /** Y[b][r] is the sum over c of W[r][c] times X[b][c], where a weight that is stored
      transposed has its columns one after the other. */
  lemma BatchEntry(y: seq<real>, w: Weight, x: seq<real>, batch: nat, b: nat, r: nat)
    requires Matrix(x, batch, w.cols) && Matrix(y, batch, w.rows) && b < batch && r < w.rows && OutRight(y, w, x, batch, b, r)
    ensures Get(y, b * w.rows + r) ==
            Sum(w.cols, c => Element(w, if w.trans then c * w.rows + r else r * w.cols + c) * Get(x, b * w.cols + c))
  {
    hide Stride, Cell, Get, OutSum, Sum, Element;
    CellPlace(y, batch, w.rows, b, r);
    OutIsSum(w, x, batch, b, r, w.cols,
             c => Element(w, if w.trans then c * w.rows + r else r * w.cols + c) * Get(x, b * w.cols + c));
  }
}
