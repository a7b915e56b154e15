/** gguf_dequant_batch of src/backend/cpu/cpu_x86.c: whole blocks go through a kernel, the
    ends of the range element by element; the result is the same everywhere. */
module Dequant {
  import opened Common
  import opened Quants

  lemma PerKind(k: Kind)
    ensures ElemsPer(k) == 32 || ElemsPer(k) == 256
    ensures ElemsPer(k) % Width(k) == 0 && Width(k) > 0 && BytesPer(k) > 0
  {
  }

  /** The number of the block that holds element i. */
  function BlockOf(k: Kind, i: nat): nat {
    if Simple(k) then i / 32 else i / 256
  }

  lemma BlockBounds(k: Kind, i: nat)
    ensures ElemsPer(k) * BlockOf(k, i) <= i < ElemsPer(k) * BlockOf(k, i) + ElemsPer(k)
  {
  }

  lemma BlockIs(k: Kind, bi: nat, i: nat)
    requires ElemsPer(k) * bi <= i < ElemsPer(k) * bi + ElemsPer(k)
    ensures BlockOf(k, i) == bi
  {
  }

  function BlockAt(k: Kind, bi: nat): nat {
    bi * BytesPer(k)
  }

  /** The data reaches to the end of every block that holds one of the first n elements. */
  predicate Covers(k: Kind, d: seq<Byte>, n: nat) {
    n > 0 ==> BlockAt(k, BlockOf(k, n - 1)) + BytesPer(k) <= |d|
  }

  lemma BlockInside(k: Kind, d: seq<Byte>, n: nat, i: nat)
    requires Covers(k, d, n) && i < n
    ensures BlockAt(k, BlockOf(k, i)) + BytesPer(k) <= |d|
  {
    var a, b := BlockOf(k, i), BlockOf(k, n - 1);
    assert a <= b;
    Rising(a, b, BytesPer(k));
  }

  lemma Rising(a: nat, b: nat, w: nat)
    requires a <= b
    ensures a * w <= b * w
  {
  }

  /** gguf_dequant: element i of the tensor. */
  function Scalar(k: Kind, f: Floats, d: seq<Byte>, n: nat, i: nat): real
    requires Covers(k, d, n) && i < n
  {
    BlockInside(k, d, n, i);
    BlockBounds(k, i);
    Element(k, f, d, BlockAt(k, BlockOf(k, i)), i - ElemsPer(k) * BlockOf(k, i))
  }

  /** A block kernel: rounds of lanes, stored one after the other. */
  method Kernel(k: Kind, f: Floats, d: seq<Byte>, at: nat, out: array<real>, oo: nat)
    requires at + BytesPer(k) <= |d| && oo + ElemsPer(k) <= out.Length
    modifies out
    ensures forall e :: 0 <= e < out.Length ==>
              out[e] == if oo <= e < oo + ElemsPer(k) then Element(k, f, d, at, e - oo) else old(out[e])
  {
    hide Element, Lane;
    PerKind(k);
    var sb := 0;
    while Width(k) * sb < ElemsPer(k)
      invariant 0 <= sb && Width(k) * sb <= ElemsPer(k)
      invariant forall e :: 0 <= e < out.Length ==>
                  out[e] == if oo <= e < oo + Width(k) * sb then Element(k, f, d, at, e - oo) else old(out[e])
    {
      Round(k, f, d, at, sb, out, oo);
      sb := sb + 1;
    }
  }

  /** One round of a kernel. */
  method Round(k: Kind, f: Floats, d: seq<Byte>, at: nat, sb: nat, out: array<real>, oo: nat)
    requires at + BytesPer(k) <= |d| && oo + ElemsPer(k) <= out.Length && Width(k) * sb + Width(k) <= ElemsPer(k)
    modifies out
    ensures var o0, w := Width(k) * sb, Width(k);
            forall e :: 0 <= e < out.Length ==>
              out[e] == if oo + o0 <= e < oo + o0 + w then Element(k, f, d, at, e - oo) else old(out[e])
  {
    hide Element, Lane, Width;
    var o0 := Width(k) * sb;
    PerKind(k);
    for j := 0 to Width(k)
      invariant forall e :: 0 <= e < out.Length ==>
                  out[e] == if oo + o0 <= e < oo + o0 + j then Element(k, f, d, at, e - oo) else old(out[e])
    {
      LaneIsElement(k, f, d, at, sb, j);
      out[oo + o0 + j] := Lane(k, f, d, at, sb, j);
    }
  }

  /** How far the range [i0, end) is done once all blocks before position p are. */
  function DoneAt(p: nat, i0: nat, end: nat): nat {
    if p <= i0 then i0 else if p >= end then end else p
  }

  /** The part of a block that the range cuts off goes element by element. */
  method OneByOne(k: Kind, f: Floats, d: seq<Byte>, n: nat, i0: nat, cs: nat, ce: nat, out: array<real>)
    requires Covers(k, d, n) && i0 <= cs <= ce <= n && ce - i0 <= out.Length
    modifies out
    ensures forall e :: 0 <= e < out.Length ==>
              out[e] == if cs - i0 <= e < ce - i0 then Scalar(k, f, d, n, i0 + e) else old(out[e])
  {
    hide Scalar, Covers;
    for j := cs to ce
      invariant forall e :: 0 <= e < out.Length ==>
                  out[e] == if cs - i0 <= e < j - i0 then Scalar(k, f, d, n, i0 + e) else old(out[e])
    {
      out[j - i0] := Scalar(k, f, d, n, j);
    }
  }

  /** gguf_dequant_batch for the block kinds: elements i0 to i0 + nb of a tensor of n. */
  method Batch(k: Kind, f: Floats, d: seq<Byte>, n: nat, i0: nat, nb: nat, out: array<real>)
    requires Covers(k, d, n) && i0 + nb <= n && nb <= out.Length
    modifies out
    ensures forall j :: 0 <= j < nb ==> out[j] == Scalar(k, f, d, n, i0 + j)
    ensures forall j :: nb <= j < out.Length ==> out[j] == old(out[j])
  {
    hide Scalar, Element, BlockOf, Covers, ElemsPer, BytesPer;
    PerKind(k);
    var E := ElemsPer(k);
    var end := i0 + nb;
    var bi := BlockOf(k, i0);
    var bi1 := BlockOf(k, end + E - 1);
    BlockBounds(k, i0);
    BlockBounds(k, end + E - 1);
    while bi < bi1
      invariant E * BlockOf(k, i0) <= E * bi && (bi < bi1 || E * bi >= end || nb == 0)
      invariant forall j :: 0 <= j < DoneAt(E * bi, i0, end) - i0 ==> out[j] == Scalar(k, f, d, n, i0 + j)
      invariant forall j :: DoneAt(E * bi, i0, end) - i0 <= j < out.Length ==> out[j] == old(out[j])
    {
      var bs := E * bi;
      var be := bs + E;
      assert bs < end by { Below(bi, bi1, E, end); }
      var cs := if i0 > bs then i0 else bs;
      var ce := if end < be then end else be;
      if cs == bs && ce == be {
        BlockIs(k, bi, bs);
        BlockInside(k, d, n, bs);
        Kernel(k, f, d, BlockAt(k, bi), out, cs - i0);
        forall j | cs - i0 <= j < ce - i0 ensures out[j] == Scalar(k, f, d, n, i0 + j) {
          ScalarIs(k, f, d, n, bi, i0 + j);
        }
      } else {
        OneByOne(k, f, d, n, i0, cs, ce, out);
      }
      bi := bi + 1;
      assert E * bi == be;
    }
  }

  lemma Below(bi: nat, bi1: nat, E: nat, end: nat)
    requires bi < bi1 && E * bi1 <= end + E - 1
    ensures E * bi < end
  {
    assert E * (bi + 1) <= E * bi1;
  }

  lemma ScalarIs(k: Kind, f: Floats, d: seq<Byte>, n: nat, bi: nat, i: nat)
    requires Covers(k, d, n) && i < n && ElemsPer(k) * bi <= i < ElemsPer(k) * bi + ElemsPer(k)
    ensures BlockAt(k, bi) + BytesPer(k) <= |d|
    ensures Scalar(k, f, d, n, i) == Element(k, f, d, BlockAt(k, bi), i - ElemsPer(k) * bi)
  {
    hide Element, Covers;
    BlockIs(k, bi, i);
    BlockInside(k, d, n, i);
  }
}
