/** Row-major positions: row k of the given width starts at k * width. */
module Strides {

  function Stride(k: nat, width: nat): nat {
    if k == 0 then 0 else Stride(k - 1, width) + width
  }

  lemma {:induction false} StrideIs(k: nat, width: nat)
    ensures Stride(k, width) == k * width
  {
    if k > 0 { StrideIs(k - 1, width); }
  }

  lemma {:induction false} StrideBelow(k: nat, n: nat, width: nat)
    requires k < n
    ensures Stride(k + 1, width) == Stride(k, width) + width <= Stride(n, width)
  {
    if k + 1 < n { StrideBelow(k, n - 1, width); }
  }

  /** Different rows do not overlap. */
  lemma StrideApart(i: nat, j: nat, width: nat)
    requires i != j
    ensures Stride(i, width) + width <= Stride(j, width) || Stride(j, width) + width <= Stride(i, width)
  {
    if i < j { StrideBelow(i, j, width); } else { StrideBelow(j, i, width); }
  }

  /** Every position lies in some row. */
  lemma {:induction false} StrideFind(e: nat, n: nat, width: nat) returns (k: nat, c: nat)
    requires e < Stride(n, width)
    ensures k < n && c < width && e == Stride(k, width) + c
  {
    if e >= Stride(n - 1, width) {
      k, c := n - 1, e - Stride(n - 1, width);
    } else {
      k, c := StrideFind(e, n - 1, width);
    }
  }

  /** The row of a position, as a quotient. */
  lemma RowOfPosition(k: nat, c: nat, width: nat)
    requires c < width
    ensures (Stride(k, width) + c) / width == k
  {
    StrideIs(k, width);
    assert k * width + c == width * k + c;
    Quotient(k, c, width);
  }

  lemma {:induction false} Quotient(k: nat, c: nat, width: nat)
    requires c < width
    ensures (width * k + c) / width == k
  {
    var x := width * k + c;
    var q := x / width;
    assert x == width * q + x % width;
    if q < k { Larger(q + 1, k, width); }
    if k < q { Larger(k + 1, q, width); }
  }

  lemma Larger(a: nat, b: nat, width: nat)
    requires a <= b
    ensures width * a <= width * b
  {
  }
}
