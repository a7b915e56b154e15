/** The flat byte layout of a radix tree node (src/rax.c): the edge bytes, padding, the
    child pointers and an optional value pointer, edited in place by memmove. */
module RaxLayout {
  import opened Common

  const PTR := 8

  /** A pointer as it is stored. */
  type Pointer = p: seq<Byte> | |p| == PTR witness [0, 0, 0, 0, 0, 0, 0, 0]

  /** What a node that is not compressed stores. */
  datatype Decoded = Decoded(edges: seq<Byte>, children: seq<Pointer>, value: Option<Pointer>)

  /** raxPadding: the data section follows a header of four bytes. */
  function Padding(size: nat): (r: nat)
    ensures r < PTR && (4 + size + r) % PTR == 0
  {
    (PTR - (size + 4) % PTR) % PTR
  }

  /** The first child pointer, as an offset into the data section. */
  function First(size: nat): nat {
    size + Padding(size)
  }

  /** One more edge byte moves the pointers by nothing or by one word. */
  lemma FirstStep(size: nat)
    ensures First(size + 1) == First(size) + (if (size + 5) % PTR == 1 then PTR else 0)
    ensures Padding(size) == 0 ==> First(size + 1) == First(size) + PTR
  {
  }

  /** Where the value pointer lies: behind the child pointers. */
  function ValueOffset(size: nat, compressed: bool): nat {
    First(size) + PTR * (if compressed then 1 else size)
  }

  function DataLength(size: nat, compressed: bool, hasValue: bool): nat {
    ValueOffset(size, compressed) + if hasValue then PTR else 0
  }

  function PtrAt(d: seq<Byte>, off: nat): Pointer
    requires off + PTR <= |d|
  {
    d[off..off + PTR]
  }

  function Decode(d: seq<Byte>, size: nat, hasValue: bool): Decoded
    requires DataLength(size, false, hasValue) <= |d|
  {
    Decoded(d[..size],
            seq(size, i requires 0 <= i < size => PtrAt(d, First(size) + PTR * i)),
            if hasValue then Some(PtrAt(d, ValueOffset(size, false))) else None)
  }

  // --------------------------------------------------------------- what is to happen

  function InsertAt<T>(s: seq<T>, i: nat, x: T): seq<T>
    requires i <= |s|
  {
    s[..i] + [x] + s[i..]
  }

  function RemoveAt<T>(s: seq<T>, i: nat): seq<T>
    requires i < |s|
  {
    s[..i] + s[i + 1..]
  }

  function Added(n: Decoded, pos: nat, c: Byte, child: Pointer): Decoded
    requires pos <= |n.edges| == |n.children|
  {
    Decoded(InsertAt(n.edges, pos, c), InsertAt(n.children, pos, child), n.value)
  }

  function Removed(n: Decoded, pos: nat): Decoded
    requires pos < |n.edges| == |n.children|
  {
    Decoded(RemoveAt(n.edges, pos), RemoveAt(n.children, pos), n.value)
  }

  predicate Ascending(s: seq<Byte>) {
    forall i, j :: 0 <= i < j < |s| ==> s[i] < s[j]
  }

  /** pos is where c belongs among the edges. */
  predicate Slot(edges: seq<Byte>, c: Byte, pos: nat) {
    && pos <= |edges|
    && (forall i :: 0 <= i < pos ==> edges[i] <= c)
    && (pos < |edges| ==> edges[pos] > c)
  }

  /** A new edge at its slot keeps the edges in strict order. */
  lemma AddedAscends(n: Decoded, pos: nat, c: Byte, child: Pointer)
    requires |n.edges| == |n.children| && Ascending(n.edges) && Slot(n.edges, c, pos) && c !in n.edges
    ensures Ascending(Added(n, pos, c, child).edges)
  {
    var s := Added(n, pos, c, child).edges;
    assert forall i :: 0 <= i < |s| ==> s[i] == if i < pos then n.edges[i] else if i == pos then c else n.edges[i - 1];
    assert forall i :: 0 <= i < pos ==> n.edges[i] < c;
  }

  /** Removing the child that was added restores the node. */
  lemma RemoveAfterAdd(n: Decoded, pos: nat, c: Byte, child: Pointer, at: nat)
    requires pos <= |n.edges| == |n.children| && child !in n.children
    requires at <= |n.edges| && Added(n, pos, c, child).children[at] == child
    ensures at == pos && Removed(Added(n, pos, c, child), at) == n
  {
    var m := Added(n, pos, c, child);
    assert forall i :: 0 <= i <= |n.children| && i != pos ==> m.children[i] in n.children;
    assert RemoveAt(m.edges, pos) == n.edges;
    assert RemoveAt(m.children, pos) == n.children;
  }

  // ------------------------------------------------------------------------- memmove

  function Moved(s: seq<Byte>, dst: nat, src: nat, len: nat): (r: seq<Byte>)
    requires dst + len <= |s| && src + len <= |s|
    ensures |r| == |s|
  {
    s[..dst] + s[src..src + len] + s[dst + len..]
  }

  /** memmove inside one array. */
  method MemMove(d: array<Byte>, dst: nat, src: nat, len: nat)
    requires dst + len <= d.Length && src + len <= d.Length
    modifies d
    ensures d[..] == Moved(old(d[..]), dst, src, len)
  {
    forall i | dst <= i < dst + len {
      d[i] := d[src + (i - dst)];
    }
  }

  /** realloc: as many bytes as fit keep their values, the others may hold anything. */
  method Realloc(d: array<Byte>, len: nat) returns (r: array<Byte>)
    ensures fresh(r) && r.Length == len
    ensures forall off: nat, x :: off + |x| <= len && At(d[..], off, x) ==> At(r[..], off, x)
  {
    r := new Byte[len];
    var n := if len < d.Length then len else d.Length;
    for i := 0 to n
      invariant r[..i] == d[..i]
    {
      r[i] := d[i];
    }
    forall off: nat, x | off + |x| <= len && At(d[..], off, x) ensures At(r[..], off, x) {
      SamePrefix(d[..], r[..], n, off, x);
    }
  }

  lemma SamePrefix(s: seq<Byte>, t: seq<Byte>, n: nat, off: nat, x: seq<Byte>)
    requires n <= |s| && n <= |t| && s[..n] == t[..n] && At(s, off, x) && off + |x| <= n
    ensures At(t, off, x)
  {
    var e := off + |x|;
    forall k | off <= k < e ensures t[k] == s[k] {
      assert t[..n][k] == s[..n][k];
    }
    assert t[off..e] == s[off..e];
  }

  /** The bytes x lie at off. */
  ghost predicate At(s: seq<Byte>, off: nat, x: seq<Byte>) {
    off + |x| <= |s| && s[off..off + |x|] == x
  }

  lemma AtKept(s: seq<Byte>, dst: nat, src: nat, len: nat, off: nat, x: seq<Byte>)
    requires dst + len <= |s| && src + len <= |s| && At(s, off, x)
    requires off + |x| <= dst || dst + len <= off
    ensures At(Moved(s, dst, src, len), off, x)
  {
    var r := Moved(s, dst, src, len);
    assert forall i :: 0 <= i < |x| ==> r[off + i] == s[off + i] == x[i];
  }

  lemma AtMoved(s: seq<Byte>, dst: nat, src: nat, x: seq<Byte>)
    requires dst + |x| <= |s| && At(s, src, x)
    ensures At(Moved(s, dst, src, |x|), dst, x)
  {
    var r := Moved(s, dst, src, |x|);
    assert forall i :: 0 <= i < |x| ==> r[dst + i] == x[i];
  }

  /** A part of bytes that lie somewhere lies there too. */
  lemma AtPart(s: seq<Byte>, off: nat, x: seq<Byte>, i: nat, j: nat)
    requires At(s, off, x) && i <= j <= |x|
    ensures At(s, off + i, x[i..j])
  {
    var whole, t, u := s[off..off + |x|], s[off + i..off + j], x[i..j];
    forall k | 0 <= k < |t| ensures t[k] == u[k] {
      assert whole[i + k] == x[i + k];
    }
  }

  lemma AtJoin(s: seq<Byte>, off: nat, x: seq<Byte>, y: seq<Byte>)
    requires At(s, off, x) && At(s, off + |x|, y)
    ensures At(s, off, x + y)
  {
    var mid, end := off + |x|, off + |x| + |y|;
    assert s[off..end] == s[off..mid] + s[mid..end];
  }

  // ------------------------------------------------------------------ decoded and flat

  function Flat(ps: seq<Pointer>): (r: seq<Byte>)
    ensures |r| == PTR * |ps|
  {
    if ps == [] then [] else Flat(ps[..|ps| - 1]) + ps[|ps| - 1]
  }

  function ValueBytes(v: Option<Pointer>): seq<Byte> {
    if v.Some? then v.value else []
  }

  /** The bytes of node n lie where the layout puts them. */
  ghost predicate Holds(d: seq<Byte>, n: Decoded) {
    && |n.edges| == |n.children|
    && At(d, 0, n.edges)
    && At(d, First(|n.edges|), Flat(n.children))
    && At(d, ValueOffset(|n.edges|, false), ValueBytes(n.value))
  }

  lemma {:induction false} FlatAppend(a: seq<Pointer>, b: seq<Pointer>)
    ensures Flat(a + b) == Flat(a) + Flat(b)
  {
    if b == [] {
      assert a + b == a;
    } else {
      var n := |b| - 1;
      FlatAppend(a, b[..n]);
      assert (a + b)[..|a| + n] == a + b[..n] && (a + b)[|a| + n] == b[n];
    }
  }

  lemma {:induction false} FlatAt(ps: seq<Pointer>, i: nat)
    requires i < |ps|
    ensures At(Flat(ps), PTR * i, ps[i])
  {
    var n := |ps| - 1;
    if i < n {
      FlatAt(ps[..n], i);
    }
  }

  /** Reading a node back gives what its bytes hold. */
  lemma HoldsDecodes(d: seq<Byte>, n: Decoded)
    requires Holds(d, n)
    ensures DataLength(|n.edges|, false, n.value.Some?) <= |d| && Decode(d, |n.edges|, n.value.Some?) == n
  {
    hide Padding;
    var size := |n.edges|;
    var m := Decode(d, size, n.value.Some?);
    forall i | 0 <= i < size ensures m.children[i] == n.children[i] {
      FlatAt(n.children, i);
      AtPart(d, First(size), Flat(n.children), PTR * i, PTR * i + PTR);
    }
    assert m.children == n.children;
  }

  lemma DecodeHolds(d: seq<Byte>, size: nat, hasValue: bool)
    requires DataLength(size, false, hasValue) <= |d|
    ensures Holds(d, Decode(d, size, hasValue))
  {
    hide Padding;
    var n := Decode(d, size, hasValue);
    FlatOf(d, n.children, First(size));
  }

  lemma {:induction false} FlatOf(d: seq<Byte>, ps: seq<Pointer>, off: nat)
    requires off + PTR * |ps| <= |d|
    requires forall i :: 0 <= i < |ps| ==> ps[i] == PtrAt(d, off + PTR * i)
    ensures At(d, off, Flat(ps))
  {
    if ps != [] {
      var n := |ps| - 1;
      FlatOf(d, ps[..n], off);
      AtJoin(d, off, Flat(ps[..n]), ps[n]);
    }
  }

  // ------------------------------------------------------------------- runs of bytes

  /** Run k lies at offs[k]. */
  ghost predicate Laid(s: seq<Byte>, runs: seq<seq<Byte>>, offs: seq<nat>) {
    |runs| == |offs| && forall k :: 0 <= k < |runs| ==> At(s, offs[k], runs[k])
  }

  predicate Disjoint(a: nat, m: nat, b: nat, n: nat) {
    a + m <= b || b + n <= a
  }

  /** No run but k lies where run k would lie at dst. */
  ghost predicate Clear(runs: seq<seq<Byte>>, offs: seq<nat>, k: nat, dst: nat) {
    && k < |runs| == |offs|
    && forall j :: 0 <= j < |runs| && j != k ==> Disjoint(dst, |runs[k]|, offs[j], |runs[j]|)
  }

  /** Moving one run to a place where no other run lies moves nothing else. */
  lemma MoveRun(s: seq<Byte>, runs: seq<seq<Byte>>, offs: seq<nat>, k: nat, dst: nat)
    requires Laid(s, runs, offs) && Clear(runs, offs, k, dst) && dst + |runs[k]| <= |s|
    ensures offs[k] + |runs[k]| <= |s|
    ensures Laid(Moved(s, dst, offs[k], |runs[k]|), runs, offs[k := dst])
  {
    hide At, Moved;
    AtFits(s, offs[k], runs[k]);
    AtMoved(s, dst, offs[k], runs[k]);
    forall j | 0 <= j < |runs| && j != k ensures At(Moved(s, dst, offs[k], |runs[k]|), offs[j], runs[j]) {
      assert Disjoint(dst, |runs[k]|, offs[j], |runs[j]|);
      AtKept(s, dst, offs[k], |runs[k]|, offs[j], runs[j]);
    }
  }

  lemma AtFits(s: seq<Byte>, off: nat, x: seq<Byte>)
    requires At(s, off, x)
    ensures off + |x| <= |s|
  {
  }

  /** An empty run lies anywhere. */
  lemma EmptyRun(s: seq<Byte>, runs: seq<seq<Byte>>, offs: seq<nat>, k: nat, dst: nat)
    requires Laid(s, runs, offs) && k < |runs| && runs[k] == [] && dst <= |s|
    ensures Laid(s, runs, offs[k := dst])
  {
    assert At(s, dst, runs[k]);
  }

  // -------------------------------------------------------------------- adding an edge

  ghost function AddRuns(n: Decoded, pos: nat): seq<seq<Byte>>
    requires pos <= |n.edges| == |n.children|
  {
    [n.edges[..pos], n.edges[pos..], Flat(n.children[..pos]), Flat(n.children[pos..]), ValueBytes(n.value)]
  }

  /** Where the runs lie before a new edge is put in at pos. */
  function AddFrom(size: nat, pos: nat): seq<nat> {
    [0, pos, First(size), First(size) + PTR * pos, First(size) + PTR * size]
  }

  /** Where they lie afterwards. */
  function AddTo(size: nat, pos: nat): seq<nat> {
    [0, pos + 1, First(size + 1), First(size + 1) + PTR * (pos + 1), First(size + 1) + PTR * (size + 1)]
  }

  lemma AddRunSizes(n: Decoded, pos: nat)
    requires pos <= |n.edges| == |n.children|
    ensures var r, size := AddRuns(n, pos), |n.edges|;
            |r| == 5 && |r[0]| == pos && |r[1]| == size - pos && |r[2]| == PTR * pos && |r[3]| == PTR * (size - pos)
            && |r[4]| == if n.value.Some? then PTR else 0
  {
  }

  lemma HoldsRuns(d: seq<Byte>, n: Decoded, pos: nat)
    requires Holds(d, n) && pos <= |n.edges|
    ensures Laid(d, AddRuns(n, pos), AddFrom(|n.edges|, pos))
  {
    hide Padding, First, At, Flat;
    var size := |n.edges|;
    var f := First(size);
    assert n.edges[0..pos] == n.edges[..pos] && n.edges[pos..size] == n.edges[pos..];
    AtPart(d, 0, n.edges, 0, pos);
    AtPart(d, 0, n.edges, pos, size);
    var a, b := n.children[..pos], n.children[pos..];
    FlatAppend(a, b);
    FlatSize(a);
    FlatSize(b);
    assert n.children == a + b;
    AtPart(d, f, Flat(n.children), 0, PTR * pos);
    assert Flat(n.children)[0..PTR * pos] == Flat(a);
    AtPart(d, f, Flat(n.children), PTR * pos, PTR * pos + |Flat(b)|);
    assert Flat(n.children)[PTR * pos..PTR * pos + |Flat(b)|] == Flat(b);
  }

  lemma RunsHold(d: seq<Byte>, n: Decoded, pos: nat, c: Byte, child: Pointer)
    requires pos <= |n.edges| == |n.children|
    requires Laid(d, AddRuns(n, pos), AddTo(|n.edges|, pos))
    requires At(d, pos, [c]) && At(d, First(|n.edges| + 1) + PTR * pos, child)
    ensures Holds(d, Added(n, pos, c, child))
  {
    hide Padding, First, At, Flat;
    var size, m := |n.edges|, Added(n, pos, c, child);
    var f' := First(size + 1);
    var r, o := AddRuns(n, pos), AddTo(size, pos);
    AddRunSizes(n, pos);
    assert forall k :: 0 <= k < 5 ==> At(d, o[k], r[k]);
    assert At(d, o[0], r[0]) && At(d, o[1], r[1]) && At(d, o[2], r[2]) && At(d, o[3], r[3]) && At(d, o[4], r[4]);
    AtJoin(d, 0, r[0], [c]);
    AtJoin(d, 0, r[0] + [c], r[1]);
    AtJoin(d, f', r[2], child);
    AtJoin(d, f', r[2] + child, r[3]);
    FlatAppend(n.children[..pos], [child]);
    FlatOne(child);
    FlatAppend(n.children[..pos] + [child], n.children[pos..]);
  }

  lemma FlatOne(p: Pointer)
    ensures Flat([p]) == p
  {
  }

  // ------------------------------------------------------------------ removing an edge

  ghost function RemoveRuns(n: Decoded, pos: nat): seq<seq<Byte>>
    requires pos < |n.edges| == |n.children|
  {
    [n.edges[..pos], n.edges[pos + 1..], Flat(n.children[..pos]), Flat(n.children[pos + 1..]) + ValueBytes(n.value)]
  }

  function RemoveFrom(size: nat, pos: nat): seq<nat> {
    [0, pos + 1, First(size), First(size) + PTR * (pos + 1)]
  }

  function RemoveTo(size: nat, pos: nat): seq<nat>
    requires size > 0
  {
    [0, pos, First(size - 1), First(size - 1) + PTR * pos]
  }

  lemma RemoveRunSizes(n: Decoded, pos: nat)
    requires pos < |n.edges| == |n.children|
    ensures var r, size := RemoveRuns(n, pos), |n.edges|;
            |r| == 4 && |r[0]| == pos && |r[1]| == size - pos - 1 && |r[2]| == PTR * pos
            && |r[3]| == PTR * (size - pos - 1) + if n.value.Some? then PTR else 0
  {
  }

  lemma HoldsRemoveRuns(d: seq<Byte>, n: Decoded, pos: nat)
    requires Holds(d, n) && pos < |n.edges|
    ensures Laid(d, RemoveRuns(n, pos), RemoveFrom(|n.edges|, pos))
  {
    hide Padding, First, At, Flat;
    var size := |n.edges|;
    var f := First(size);
    assert n.edges[0..pos] == n.edges[..pos] && n.edges[pos + 1..size] == n.edges[pos + 1..];
    AtPart(d, 0, n.edges, 0, pos);
    AtPart(d, 0, n.edges, pos + 1, size);
    var a, b := n.children[..pos + 1], n.children[pos + 1..];
    FlatAppend(a, b);
    FlatSize(a);
    FlatSize(b);
    assert n.children == a + b;
    FlatAppend(n.children[..pos], [n.children[pos]]);
    FlatSize(n.children[..pos]);
    assert a == n.children[..pos] + [n.children[pos]];
    AtPart(d, f, Flat(n.children), 0, PTR * pos);
    assert Flat(n.children)[0..PTR * pos] == Flat(n.children[..pos]);
    AtPart(d, f, Flat(n.children), |Flat(a)|, |Flat(a)| + |Flat(b)|);
    assert Flat(n.children)[|Flat(a)|..|Flat(a)| + |Flat(b)|] == Flat(b);
    AtJoin(d, f + PTR * (pos + 1), Flat(b), ValueBytes(n.value));
  }

  lemma FlatSize(ps: seq<Pointer>)
    ensures |Flat(ps)| == PTR * |ps|
  {
  }

  lemma RemoveRunsHold(d: seq<Byte>, n: Decoded, pos: nat)
    requires pos < |n.edges| == |n.children|
    requires Laid(d, RemoveRuns(n, pos), RemoveTo(|n.edges|, pos))
    ensures Holds(d, Removed(n, pos))
  {
    hide Padding, First, At, Flat;
    var size, m := |n.edges|, Removed(n, pos);
    var f' := First(size - 1);
    var r, o := RemoveRuns(n, pos), RemoveTo(size, pos);
    RemoveRunSizes(n, pos);
    assert forall k :: 0 <= k < 4 ==> At(d, o[k], r[k]);
    assert At(d, o[0], r[0]) && At(d, o[1], r[1]) && At(d, o[2], r[2]) && At(d, o[3], r[3]);
    AtJoin(d, 0, r[0], r[1]);
    var b, v := Flat(n.children[pos + 1..]), ValueBytes(n.value);
    FlatSize(n.children[pos + 1..]);
    AtPart(d, o[3], b + v, 0, |b|);
    AtPart(d, o[3], b + v, |b|, |b| + |v|);
    assert (b + v)[0..|b|] == b && (b + v)[|b|..|b| + |v|] == v;
    AtJoin(d, f', r[2], b);
    FlatAppend(n.children[..pos], n.children[pos + 1..]);
  }

  // -------------------------------------------------------------------- moving the runs

  lemma DecodeShape(d: seq<Byte>, size: nat, hasValue: bool)
    requires DataLength(size, false, hasValue) <= |d|
    ensures size <= |d| && |Decode(d, size, hasValue).edges| == |Decode(d, size, hasValue).children| == size
    ensures Decode(d, size, hasValue).edges == d[..size] && Decode(d, size, hasValue).value.Some? == hasValue
  {
  }

  /** memmove of one run. */
  method MoveBytes(d: array<Byte>, dst: nat, src: nat, len: nat, ghost runs: seq<seq<Byte>>, ghost offs: seq<nat>, ghost k: nat)
    requires Laid(d[..], runs, offs) && Clear(runs, offs, k, dst)
    requires src == offs[k] && len == |runs[k]| && dst + len <= d.Length
    modifies d
    ensures Laid(d[..], runs, offs[k := dst])
  {
    MoveRun(d[..], runs, offs, k, dst);
    MemMove(d, dst, src, len);
  }

  /** Storing bytes where no run lies. */
  method Store(d: array<Byte>, off: nat, x: seq<Byte>, ghost runs: seq<seq<Byte>>, ghost offs: seq<nat>)
    requires Laid(d[..], runs, offs) && off + |x| <= d.Length
    requires forall j :: 0 <= j < |runs| ==> Disjoint(off, |x|, offs[j], |runs[j]|)
    modifies d
    ensures Laid(d[..], runs + [x], offs + [off])
  {
    ghost var s := d[..];
    forall i | off <= i < off + |x| {
      d[i] := x[i - off];
    }
    assert At(d[..], off, x);
    forall j | 0 <= j < |runs| ensures At(d[..], offs[j], runs[j]) {
      assert At(s, offs[j], runs[j]) && Disjoint(off, |x|, offs[j], |runs[j]|);
      assert d[..][offs[j]..offs[j] + |runs[j]|] == s[offs[j]..offs[j] + |runs[j]|];
    }
  }

  /** realloc keeps all runs that lie within the new length. */
  method Resize(d: array<Byte>, len: nat, ghost runs: seq<seq<Byte>>, ghost offs: seq<nat>) returns (r: array<Byte>)
    requires Laid(d[..], runs, offs) && forall k :: 0 <= k < |runs| ==> offs[k] + |runs[k]| <= len
    ensures fresh(r) && r.Length == len && Laid(r[..], runs, offs)
  {
    hide At;
    r := Realloc(d, len);
    forall k | 0 <= k < |runs| ensures At(r[..], offs[k], runs[k]) {
      assert At(d[..], offs[k], runs[k]) && offs[k] + |runs[k]| <= len;
    }
  }

  method FindSlot(d: array<Byte>, size: nat, c: Byte) returns (pos: nat)
    requires size <= d.Length
    ensures Slot(d[..size], c, pos)
  {
    pos := 0;
    while pos < size
      invariant pos <= size && forall i :: 0 <= i < pos ==> d[i] <= c
    {
      if d[pos] > c { break; }
      pos := pos + 1;
    }
  }

  /** The four memmove calls of raxAddChild: last things first, so that nothing is
      overwritten before it has moved. */
  method Spread(d: array<Byte>, size: nat, hasValue: bool, pos: nat, ghost n: Decoded)
    requires pos <= size == |n.edges| == |n.children| && n.value.Some? == hasValue
    requires Laid(d[..], AddRuns(n, pos), AddFrom(size, pos)) && d.Length == DataLength(size + 1, false, hasValue)
    modifies d
    ensures Laid(d[..], AddRuns(n, pos), AddTo(size, pos))
  {
    hide Padding, First, AddRuns, Laid, DataLength, ValueOffset, Clear, Flat, Decode;
    ghost var runs, o0 := AddRuns(n, pos), AddFrom(size, pos);
    var curlen, newlen := DataLength(size, false, hasValue), d.Length;
    var shift := newlen - curlen - PTR;
    var f := First(size);
    var g := f + shift;
    AddSpace(size, hasValue);
    AddRunSizes(n, pos);
    ghost var v' := g + PTR * (size + 1);
    AddClear(n, pos, f, g);
    ghost var o1: seq<nat> := [0, pos, f, f + PTR * pos, v'];
    assert o0[4 := v'] == o1;
    if hasValue {
      MoveBytes(d, newlen - PTR, curlen - PTR, PTR, runs, o0, 4);
    } else {
      EmptyRun(d[..], runs, o0, 4, v');
    }
    ghost var o2: seq<nat> := [0, pos, f, g + PTR * (pos + 1), v'];
    assert o1[3 := g + PTR * (pos + 1)] == o2;
    var src := f + PTR * pos;
    MoveBytes(d, src + shift + PTR, src, PTR * (size - pos), runs, o1, 3);
    ghost var o3: seq<nat> := [0, pos, g, g + PTR * (pos + 1), v'];
    assert o2[2 := g] == o3;
    if shift != 0 { MoveBytes(d, f + shift, f, PTR * pos, runs, o2, 2); }
    assert o3[1 := pos + 1] == AddTo(size, pos);
    MoveBytes(d, pos + 1, pos, size - pos, runs, o3, 1);
  }

  /** Each of the four moves goes where nothing else lies. */
  lemma AddClear(n: Decoded, pos: nat, f: nat, g: nat)
    requires pos <= |n.edges| == |n.children| && |n.edges| <= f <= g <= f + PTR && |n.edges| + 1 <= g
    ensures var size, runs := |n.edges|, AddRuns(n, pos);
            var v, v' := f + PTR * size, g + PTR * (size + 1);
            && Clear(runs, [0, pos, f, f + PTR * pos, v], 4, v')
            && Clear(runs, [0, pos, f, f + PTR * pos, v'], 3, g + PTR * (pos + 1))
            && Clear(runs, [0, pos, f, g + PTR * (pos + 1), v'], 2, g)
            && Clear(runs, [0, pos, g, g + PTR * (pos + 1), v'], 1, pos + 1)
  {
    AddRunSizes(n, pos);
    hide AddRuns;
  }

  /** How the sections move when an edge is added. */
  lemma AddSpace(size: nat, hasValue: bool)
    ensures var f, shift := First(size), DataLength(size + 1, false, hasValue) - DataLength(size, false, hasValue) - PTR;
            && (shift == 0 || shift == PTR) && First(size + 1) == f + shift
            && f >= size && f + shift >= size + 1
    ensures DataLength(size, false, hasValue) == First(size) + PTR * size + if hasValue then PTR else 0
  {
    FirstStep(size);
  }

  /** The three memmove calls of raxRemoveChild: first things first. */
  method Gather(d: array<Byte>, size: nat, hasValue: bool, pos: nat, ghost n: Decoded)
    requires pos < size == |n.edges| == |n.children| && n.value.Some? == hasValue
    requires Laid(d[..], RemoveRuns(n, pos), RemoveFrom(size, pos)) && DataLength(size, false, hasValue) <= d.Length
    modifies d
    ensures Laid(d[..], RemoveRuns(n, pos), RemoveTo(size, pos))
  {
    hide Padding, First, RemoveRuns, Laid, DataLength, ValueOffset, Clear, Flat, Decode;
    ghost var runs, o0 := RemoveRuns(n, pos), RemoveFrom(size, pos);
    var f := First(size);
    var shift := if (size + 4) % PTR == 1 then PTR else 0;
    RemoveSpace(size, hasValue);
    RemoveRunSizes(n, pos);
    RemoveClear(n, pos, f, f - shift);
    var taillen := size - pos - 1;
    MoveBytes(d, pos, pos + 1, taillen, runs, o0, 1);
    ghost var o1: seq<nat> := [0, pos, f, f + PTR * (pos + 1)];
    assert o0[1 := pos] == o1;
    ghost var o2: seq<nat> := [0, pos, f - shift, f + PTR * (pos + 1)];
    assert o1[2 := f - shift] == o2;
    if shift != 0 { MoveBytes(d, f - shift, f, PTR * (size - taillen - 1), runs, o1, 2); }
    var valuelen := if hasValue then PTR else 0;
    MoveBytes(d, f + PTR * pos - shift, f + PTR * (pos + 1), PTR * taillen + valuelen, runs, o2, 3);
    assert o2[3 := f + PTR * pos - shift] == RemoveTo(size, pos);
  }

  lemma RemoveClear(n: Decoded, pos: nat, f: nat, g: nat)
    requires pos < |n.edges| == |n.children| && |n.edges| <= f && g <= f <= g + PTR && |n.edges| - 1 <= g
    ensures var runs := RemoveRuns(n, pos);
            && Clear(runs, [0, pos + 1, f, f + PTR * (pos + 1)], 1, pos)
            && Clear(runs, [0, pos, f, f + PTR * (pos + 1)], 2, g)
            && Clear(runs, [0, pos, g, f + PTR * (pos + 1)], 3, g + PTR * pos)
  {
    RemoveRunSizes(n, pos);
    hide RemoveRuns;
  }

  lemma RemoveSpace(size: nat, hasValue: bool)
    requires size > 0
    ensures var f, shift := First(size), if (size + 4) % PTR == 1 then PTR else 0;
            f >= size && f >= shift && First(size - 1) == f - shift && f - shift >= size - 1
    ensures DataLength(size, false, hasValue) == First(size) + PTR * size + if hasValue then PTR else 0
    ensures DataLength(size - 1, false, hasValue) == First(size - 1) + PTR * (size - 1) + if hasValue then PTR else 0
  {
    FirstStep(size - 1);
  }

  // ------------------------------------------------------------- facts for the methods

  /** All runs lie within the bytes that realloc keeps. */
  lemma AddFits(n: Decoded, pos: nat)
    requires pos <= |n.edges| == |n.children|
    ensures var runs, offs, len := AddRuns(n, pos), AddFrom(|n.edges|, pos), DataLength(|n.edges| + 1, false, n.value.Some?);
            forall k :: 0 <= k < |runs| ==> k < |offs| && offs[k] + |runs[k]| <= len
  {
    AddSpace(|n.edges|, n.value.Some?);
    AddRunSizes(n, pos);
    hide AddRuns, Padding, First;
  }

  lemma RemoveFits(n: Decoded, pos: nat)
    requires pos < |n.edges| == |n.children|
    ensures var runs, offs, len := RemoveRuns(n, pos), RemoveTo(|n.edges|, pos), DataLength(|n.edges| - 1, false, n.value.Some?);
            forall k :: 0 <= k < |runs| ==> k < |offs| && offs[k] + |runs[k]| <= len
  {
    RemoveSpace(|n.edges|, n.value.Some?);
    RemoveRunSizes(n, pos);
    hide RemoveRuns, Padding, First;
  }

  lemma AddedShape(n: Decoded, pos: nat, c: Byte, child: Pointer)
    requires pos <= |n.edges| == |n.children|
    ensures |Added(n, pos, c, child).edges| == |n.edges| + 1 && Added(n, pos, c, child).value == n.value
  {
  }

  lemma RemovedShape(n: Decoded, pos: nat)
    requires pos < |n.edges| == |n.children|
    ensures |Removed(n, pos).edges| == |n.edges| - 1 && Removed(n, pos).value == n.value
  {
  }

  /** A node without edges is the smallest of its kind. */
  lemma EmptyNode(size: nat)
    ensures ValueOffset(0, false) == 4 && ValueOffset(size, true) >= 4 + PTR
  {
  }

  lemma EmptyDecodes(d: seq<Byte>, value: Option<Pointer>)
    requires 4 + PTR <= |d| && (value.Some? ==> d[4..4 + PTR] == value.value)
    ensures DataLength(0, false, value.Some?) <= |d| && Decode(d, 0, value.Some?) == Decoded([], [], value)
  {
  }

  /** The search loop of raxRemoveChild. */
  method FindChild(d: array<Byte>, size: nat, hasValue: bool, child: Pointer) returns (e: nat)
    requires DataLength(size, false, hasValue) <= d.Length
    requires child in Decode(d[..], size, hasValue).children
    ensures e < size && Decode(d[..], size, hasValue).children[e] == child
  {
    hide Padding;
    ghost var children := Decode(d[..], size, hasValue).children;
    ghost var at :| 0 <= at < size && children[at] == child;
    e := 0;
    while true
      invariant e <= at
      decreases at - e
    {
      assert children[e] == PtrAt(d[..], First(size) + PTR * e);
      var aux := d[First(size) + PTR * e..First(size) + PTR * e + PTR];
      assert aux == children[e];
      if aux == child { break; }
      e := e + 1;
    }
  }

  /** The new edge byte and the new pointer go into the gaps. */
  method AddStore(d: array<Byte>, size: nat, pos: nat, c: Byte, child: Pointer, ghost n: Decoded)
    requires pos <= size == |n.edges| == |n.children| && d.Length == DataLength(size + 1, false, n.value.Some?)
    requires Laid(d[..], AddRuns(n, pos), AddTo(size, pos))
    modifies d
    ensures Holds(d[..], Added(n, pos, c, child))
  {
    hide Padding, First, Laid, DataLength, AddRuns, Clear, Flat, Holds, At;
    ghost var runs, offs := AddRuns(n, pos), AddTo(size, pos);
    AddRunSizes(n, pos);
    AddSpace(size, n.value.Some?);
    AddSpace(size + 1, n.value.Some?);
    Store(d, pos, [c], runs, offs);
    Store(d, First(size + 1) + PTR * pos, child, runs + [[c]], offs + [pos]);
    LaidFront(d[..], runs, offs, [c], pos, child, First(size + 1) + PTR * pos);
    RunsHold(d[..], n, pos, c, child);
  }

  lemma LaidFront(s: seq<Byte>, runs: seq<seq<Byte>>, offs: seq<nat>, x: seq<Byte>, a: nat, y: seq<Byte>, b: nat)
    requires |runs| == |offs| && Laid(s, (runs + [x]) + [y], (offs + [a]) + [b])
    ensures Laid(s, runs, offs) && At(s, a, x) && At(s, b, y)
  {
    hide At;
    var rs, os := (runs + [x]) + [y], (offs + [a]) + [b];
    var m := |runs|;
    assert At(s, os[m], rs[m]) && At(s, os[m + 1], rs[m + 1]);
    forall k | 0 <= k < m ensures At(s, offs[k], runs[k]) {
      assert At(s, os[k], rs[k]);
    }
  }

  // -------------------------------------------------------------------------- the node

  class Node {
    var iskey: bool
    var isnull: bool
    var iscompr: bool
    var size: nat
    var data: array<Byte>

    predicate HasValue()
      reads this
    {
      iskey && !isnull
    }

    predicate Valid()
      reads this
    {
      DataLength(size, iscompr, HasValue()) <= data.Length
    }

    /** What the node stores. */
    ghost function Contents(): Decoded
      requires Valid() && !iscompr
      reads this, data
    {
      Decode(data[..], size, HasValue())
    }

    /** raxGetData: the value pointer behind the child pointers. */
    function GetData(): Option<Pointer>
      requires Valid() && iskey
      reads this, data
    {
      if isnull then None else Some(PtrAt(data[..], ValueOffset(size, iscompr)))
    }

    /** raxAddChild, with the address of the new child given. The node's own address may
        change with realloc; only its data section is modelled. */
    method AddChild(c: Byte, child: Pointer) returns (pos: nat)
      requires Valid() && !iscompr
      modifies this`size, this`data
      ensures Valid() && fresh(data) && size == old(size) + 1
      ensures Slot(old(Contents()).edges, c, pos)
      ensures Contents() == Added(old(Contents()), pos, c, child)
      ensures iskey == old(iskey) && isnull == old(isnull) && !iscompr
      ensures Ascending(old(Contents()).edges) && c !in old(Contents()).edges ==> Ascending(Contents().edges)
    {
      hide Padding, First, Laid, DataLength, ValueOffset, Decode, Holds, AddRuns, AddFrom, AddTo, At, Clear, Flat, Added;
      hide Ascending;
      ghost var n := Contents();
      var newlen := DataLength(size + 1, false, HasValue());
      DecodeHolds(data[..], size, HasValue());
      DecodeShape(data[..], size, HasValue());
      pos := FindSlot(data, size, c);
      HoldsRuns(data[..], n, pos);
      AddFits(n, pos);
      data := Resize(data, newlen, AddRuns(n, pos), AddFrom(size, pos));
      Spread(data, size, HasValue(), pos, n);
      AddStore(data, size, pos, c, child, n);
      size := size + 1;
      HoldsDecodes(data[..], Added(n, pos, c, child));
      AddedShape(n, pos, c, child);
      if Ascending(n.edges) && c !in n.edges { AddedAscends(n, pos, c, child); }
    }

    /** raxRemoveChild: the edge to the child and no other goes. A compressed node turns into
        one without edges, and keeps its value. */
    method RemoveChild(child: Pointer) returns (ghost pos: nat)
      requires Valid() && (!iscompr ==> child in Contents().children)
      modifies this, data
      ensures Valid() && !iscompr && iskey == old(iskey) && (iskey ==> isnull == old(isnull))
      ensures !old(iscompr) ==> pos < old(size) && old(Contents()).children[pos] == child
                                && Contents() == Removed(old(Contents()), pos)
      ensures old(iscompr) ==> Contents() == Decoded([], [], if old(HasValue()) then old(GetData()) else None)
    {
      hide Padding, First, Laid, Decode, Holds, RemoveRuns, RemoveFrom, RemoveTo, At, Clear, Flat, Removed;
      pos := 0;
      if iscompr {
        EmptyNode(size);
        var value := if iskey then GetData() else None;
        isnull := false;
        iscompr := false;
        size := 0;
        if iskey {
          if value.Some? {
            forall i | ValueOffset(0, false) <= i < ValueOffset(0, false) + PTR {
              data[i] := value.value[i - ValueOffset(0, false)];
            }
          } else {
            isnull := true;
          }
        }
        EmptyDecodes(data[..], value);
        return;
      }
      ghost var n := Contents();
      DecodeHolds(data[..], size, HasValue());
      DecodeShape(data[..], size, HasValue());
      var e := FindChild(data, size, HasValue(), child);
      pos := e;
      HoldsRemoveRuns(data[..], n, e);
      Gather(data, size, HasValue(), e, n);
      RemoveFits(n, e);
      RemoveSpace(size, HasValue());
      size := size - 1;
      data := Resize(data, DataLength(size, false, HasValue()), RemoveRuns(n, e), RemoveTo(size + 1, e));
      RemoveRunsHold(data[..], n, e);
      RemovedShape(n, e);
      HoldsDecodes(data[..], Removed(n, e));
    }

    /** raxRemoveChild after raxAddChild: the node is what it was, although its bytes have
        moved twice. */
    method AddThenRemove(c: Byte, child: Pointer)
      requires Valid() && !iscompr && child !in Contents().children
      modifies this, data
      ensures Valid() && !iscompr && size == old(size) && iskey == old(iskey) && (iskey ==> isnull == old(isnull))
      ensures Contents() == old(Contents())
    {
      hide Padding, First, DataLength, Decode, Added, Removed;
      ghost var n := Contents();
      DecodeShape(data[..], size, HasValue());
      var pos := AddChild(c, child);
      AddedHolds(n, pos, c, child);
      ghost var at := RemoveChild(child);
      RemoveAfterAdd(n, pos, c, child, at);
      DecodeShape(data[..], size, HasValue());
    }
  }

  lemma AddedHolds(n: Decoded, pos: nat, c: Byte, child: Pointer)
    requires pos <= |n.edges| == |n.children|
    ensures |Added(n, pos, c, child).children| == |n.children| + 1 && child in Added(n, pos, c, child).children
  {
    assert Added(n, pos, c, child).children[pos] == child;
  }
}
