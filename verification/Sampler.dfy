/** Candidate selection of src/sampler.c over the reals: the bounded min-heap, the
    sort, the min-p and top-p filters, and the loop that grows the candidate
    window until the filters are resolved inside it. */
module Sampler {

  datatype ProbIdx = ProbIdx(prob: real, idx: nat)

  /** Every value with its index. */
  function Pairs(vals: seq<real>): (r: seq<ProbIdx>)
    ensures |r| == |vals| && forall i :: 0 <= i < |vals| ==> r[i] == ProbIdx(vals[i], i)
  {
    seq(|vals|, i requires 0 <= i < |vals| => ProbIdx(vals[i], i))
  }

  // ----------------------------------------------------------------- the heap

  function Parent(k: nat): nat
    requires k > 0
  {
    (k - 1) / 2
  }

  ghost predicate HeapAt(h: seq<ProbIdx>, k: nat)
    requires k < |h|
  {
    k > 0 ==> h[Parent(k)].prob <= h[k].prob
  }

  ghost predicate IsHeap(h: seq<ProbIdx>) {
    forall k :: 0 <= k < |h| ==> HeapAt(h, k)
  }

  /** A heap but for entry c, which may be too small; its children are not
      smaller than its parent. */
  ghost predicate HeapUp(h: seq<ProbIdx>, c: nat) {
    && c < |h|
    && (forall k :: 0 <= k < |h| && k != c ==> HeapAt(h, k))
    && (forall k :: 0 < k < |h| && Parent(k) == c && c > 0 ==> h[(c - 1) / 2].prob <= h[k].prob)
  }

  /** A heap but for entry p, which may be too large; its children are not
      smaller than its parent. */
  ghost predicate HeapDown(h: seq<ProbIdx>, p: nat) {
    && p < |h|
    && (forall k :: 0 < k < |h| && Parent(k) != p ==> HeapAt(h, k))
    && (forall k :: 0 < k < |h| && Parent(k) == p && p > 0 ==> h[(p - 1) / 2].prob <= h[k].prob)
  }

  lemma {:induction false} RootIsLeast(h: seq<ProbIdx>, k: nat)
    requires IsHeap(h) && k < |h|
    ensures h[0].prob <= h[k].prob
    decreases k
  {
    if k > 0 {
      assert HeapAt(h, k);
      RootIsLeast(h, Parent(k));
    }
  }

  method Swap(heap: array<ProbIdx>, i: nat, j: nat, ghost n: nat)
    requires i < n && j < n && n <= heap.Length
    modifies heap
    ensures heap[i] == old(heap[j]) && heap[j] == old(heap[i])
    ensures forall k :: 0 <= k < heap.Length && k != i && k != j ==> heap[k] == old(heap[k])
    ensures multiset(heap[..n]) == old(multiset(heap[..n]))
  {
    ghost var s := heap[..n];
    heap[i], heap[j] := heap[j], heap[i];
    assert heap[..n] == s[i := s[j]][j := s[i]];
  }

  method SiftUp(heap: array<ProbIdx>, n: nat, c0: nat)
    requires c0 < n <= heap.Length && HeapUp(heap[..n], c0)
    modifies heap
    ensures IsHeap(heap[..n]) && multiset(heap[..n]) == old(multiset(heap[..n]))
  {
    hide HeapUp, IsHeap;
    var c := c0;
    while c > 0
      invariant 0 <= c < n && HeapUp(heap[..n], c)
      invariant multiset(heap[..n]) == old(multiset(heap[..n]))
    {
      var p := Parent(c);
      ghost var h := heap[..n];
      if heap[p].prob <= heap[c].prob { break; }
      Swap(heap, p, c, n);
      UpStep(h, heap[..n], c, p);
      c := p;
    }
    UpDone(heap[..n], c);
  }

  lemma UpDone(h: seq<ProbIdx>, c: nat)
    requires c < |h| && HeapUp(h, c) && HeapAt(h, c)
    ensures IsHeap(h)
  {
  }

  lemma UpStep(h: seq<ProbIdx>, h': seq<ProbIdx>, c: nat, p: nat)
    requires HeapUp(h, c) && c > 0 && p == (c - 1) / 2 && h[p].prob > h[c].prob
    requires h' == h[p := h[c]][c := h[p]]
    ensures HeapUp(h', p)
  {
    forall k | 0 <= k < |h'| && k != p ensures HeapAt(h', k) {
      if k > 0 {
        assert HeapAt(h, if k == c then p else k);
      }
    }
    forall k | 0 < k < |h'| && Parent(k) == p && p > 0 ensures h'[(p - 1) / 2].prob <= h'[k].prob {
      assert HeapAt(h, p);
      assert k != c ==> HeapAt(h, k);
    }
  }

  method SiftDown(heap: array<ProbIdx>, n: nat)
    requires 0 < n <= heap.Length && HeapDown(heap[..n], 0)
    modifies heap
    ensures IsHeap(heap[..n]) && multiset(heap[..n]) == old(multiset(heap[..n]))
  {
    hide HeapDown, IsHeap;
    var p := 0;
    while true
      invariant p < n && HeapDown(heap[..n], p)
      invariant multiset(heap[..n]) == old(multiset(heap[..n]))
      decreases n - p
    {
      var l := 2 * p + 1;
      var r, m := l + 1, p;
      if l < n && heap[l].prob < heap[m].prob { m := l; }
      if r < n && heap[r].prob < heap[m].prob { m := r; }
      ghost var h := heap[..n];
      if m == p {
        DownDone(h, p);
        return;
      }
      Swap(heap, p, m, n);
      DownStep(h, heap[..n], p, m);
      p := m;
    }
  }

  lemma DownDone(h: seq<ProbIdx>, p: nat)
    requires HeapDown(h, p)
    requires 2 * p + 1 < |h| ==> h[p].prob <= h[2 * p + 1].prob
    requires 2 * p + 2 < |h| ==> h[p].prob <= h[2 * p + 2].prob
    ensures IsHeap(h)
  {
    forall k | 0 <= k < |h| ensures HeapAt(h, k) {
      assert k > 0 && Parent(k) == p ==> k == 2 * p + 1 || k == 2 * p + 2;
    }
  }

  lemma DownStep(h: seq<ProbIdx>, h': seq<ProbIdx>, p: nat, m: nat)
    requires HeapDown(h, p) && (m == 2 * p + 1 || m == 2 * p + 2) && m < |h| && h[m].prob < h[p].prob
    requires 2 * p + 1 < |h| ==> h[m].prob <= h[2 * p + 1].prob
    requires 2 * p + 2 < |h| ==> h[m].prob <= h[2 * p + 2].prob
    requires h' == h[p := h[m]][m := h[p]]
    ensures HeapDown(h', m)
  {
    forall k | 0 < k < |h'| && Parent(k) != m ensures HeapAt(h', k) {
      assert Parent(k) == p ==> k == 2 * p + 1 || k == 2 * p + 2;
      if Parent(k) != p && k != p { assert HeapAt(h, k); }
    }
    forall k | 0 < k < |h'| && Parent(k) == m ensures h'[(m - 1) / 2].prob <= h'[k].prob {
      assert HeapAt(h, k);
    }
  }

  // ---------------------------------------------------------------- selection

  /** The heap holds the cap best of the values scanned so far. */
  ghost predicate Selected(h: seq<ProbIdx>, vals: seq<real>, cap: nat) {
    && |h| == (if |vals| < cap then |vals| else cap)
    && IsHeap(h)
    && multiset(h) <= multiset(Pairs(vals))
    && (forall e :: e in multiset(Pairs(vals)) - multiset(h) ==> |h| > 0 && e.prob <= h[0].prob)
  }

  lemma PairsNext(vals: seq<real>, i: nat)
    requires i < |vals|
    ensures Pairs(vals[..i + 1]) == Pairs(vals[..i]) + [ProbIdx(vals[i], i)]
    ensures multiset(Pairs(vals[..i + 1])) == multiset(Pairs(vals[..i])) + multiset{ProbIdx(vals[i], i)}
  {
    assert Pairs(vals[..i + 1]) == Pairs(vals[..i]) + [ProbIdx(vals[i], i)];
  }

  /** The heap is not yet full: the new value joins at the bottom. */
  lemma SelectedGrow(h: seq<ProbIdx>, vals: seq<real>, i: nat, cap: nat, h': seq<ProbIdx>)
    requires i < |vals| && i < cap && Selected(h, vals[..i], cap)
    requires IsHeap(h') && multiset(h') == multiset(h + [ProbIdx(vals[i], i)])
    ensures Selected(h', vals[..i + 1], cap)
  {
    PairsNext(vals, i);
    assert |h'| == |multiset(h')| == |h| + 1;
    assert multiset(Pairs(vals[..i])) == multiset(h) by {
      assert |multiset(Pairs(vals[..i])) - multiset(h)| == 0;
    }
  }

  /** A full heap: the new value replaces the least one. */
  lemma SelectedReplace(h: seq<ProbIdx>, vals: seq<real>, i: nat, cap: nat, h': seq<ProbIdx>)
    requires i < |vals| && 0 < cap <= i && Selected(h, vals[..i], cap) && |h| > 0 && h[0].prob < vals[i]
    requires IsHeap(h') && multiset(h') == multiset(h[0 := ProbIdx(vals[i], i)])
    ensures Selected(h', vals[..i + 1], cap)
  {
    hide IsHeap;
    var e := ProbIdx(vals[i], i);
    PairsNext(vals, i);
    assert h[0 := e] == [e] + h[1..] && h == [h[0]] + h[1..];
    var m, m', rest := multiset(h), multiset(h'), multiset(h[1..]);
    assert m' == multiset{e} + rest && m == multiset{h[0]} + rest;
    assert |h'| == |m'| == |h|;
    assert h'[0] in m';
    LeastKept(h, e, h');
    var all := multiset(Pairs(vals[..i]));
    MultisetSwap(all, rest, h[0], e);
  }

  lemma MultisetSwap(all: multiset<ProbIdx>, rest: multiset<ProbIdx>, x: ProbIdx, e: ProbIdx)
    requires multiset{x} + rest <= all
    ensures multiset{e} + rest <= all + multiset{e}
    ensures all + multiset{e} - (multiset{e} + rest) == (all - (multiset{x} + rest)) + multiset{x}
  {
  }

  lemma LeastKept(h: seq<ProbIdx>, e: ProbIdx, h': seq<ProbIdx>)
    requires |h| > 0 && |h'| > 0 && IsHeap(h) && h[0].prob < e.prob && h'[0] in multiset{e} + multiset(h[1..])
    ensures h[0].prob <= h'[0].prob
  {
    if h'[0] != e {
      assert h'[0] in h[1..];
      var k :| 0 <= k < |h[1..]| && h[1..][k] == h'[0];
      RootIsLeast(h, k + 1);
    }
  }

  lemma SelectedStart(vals: seq<real>, h: seq<ProbIdx>, cap: nat)
    requires h == []
    ensures Selected(h, vals[..0], cap)
  {
    assert Pairs(vals[..0]) == [];
  }

  lemma SelectedSize(h: seq<ProbIdx>, vals: seq<real>, cap: nat)
    requires Selected(h, vals, cap)
    ensures |h| == (if |vals| < cap then |vals| else cap) && IsHeap(h)
  {
  }

  lemma SelectedSkip(h: seq<ProbIdx>, vals: seq<real>, i: nat, cap: nat)
    requires i < |vals| && 0 < cap <= i && Selected(h, vals[..i], cap) && |h| > 0 && vals[i] <= h[0].prob
    ensures Selected(h, vals[..i + 1], cap)
  {
    hide IsHeap;
    PairsNext(vals, i);
  }

  /** select_top. */
  method SelectTop(heap: array<ProbIdx>, cap: nat, vals: seq<real>) returns (filled: nat)
    requires 0 < cap <= heap.Length
    modifies heap
    ensures filled == (if |vals| < cap then |vals| else cap)
    ensures Selected(heap[..filled], vals, cap)
  {
    hide IsHeap, HeapUp, HeapDown, Selected, Pairs;
    filled := 0;
    var i := 0;
    SelectedStart(vals, heap[..filled], cap);
    while i < |vals|
      invariant 0 <= i <= |vals| && filled == (if i < cap then i else cap)
      invariant Selected(heap[..filled], vals[..i], cap)
    {
      var v := vals[i];
      ghost var h := heap[..filled];
      SelectedSize(h, vals[..i], cap);
      if filled < cap {
        heap[filled] := ProbIdx(v, i);
        filled := filled + 1;
        assert heap[..filled] == h + [ProbIdx(v, i)];
        BottomUp(h, ProbIdx(v, i));
        SiftUp(heap, filled, filled - 1);
        SelectedGrow(h, vals, i, cap, heap[..filled]);
      } else {
        if v > heap[0].prob {
          heap[0] := ProbIdx(v, i);
          assert heap[..cap] == h[0 := ProbIdx(v, i)];
          TopDown(h, ProbIdx(v, i));
          SiftDown(heap, cap);
          SelectedReplace(h, vals, i, cap, heap[..cap]);
        } else {
          SelectedSkip(h, vals, i, cap);
        }
      }
      i := i + 1;
    }
    assert vals[..i] == vals;
  }

  lemma BottomUp(h: seq<ProbIdx>, e: ProbIdx)
    requires IsHeap(h)
    ensures HeapUp(h + [e], |h|)
  {
    forall k | 0 <= k < |h + [e]| && k != |h| ensures HeapAt(h + [e], k) {
      assert HeapAt(h, k);
    }
  }

  lemma TopDown(h: seq<ProbIdx>, e: ProbIdx)
    requires IsHeap(h) && |h| > 0
    ensures HeapDown(h[0 := e], 0)
  {
    forall k | 0 < k < |h| && Parent(k) != 0 ensures HeapAt(h[0 := e], k) {
      assert HeapAt(h, k);
    }
  }

  // ------------------------------------------------------------------ sorting

  function Probs(s: seq<ProbIdx>): (r: seq<real>)
    ensures |r| == |s| && forall i :: 0 <= i < |s| ==> r[i] == s[i].prob
  {
    seq(|s|, i requires 0 <= i < |s| => s[i].prob)
  }

  ghost predicate Desc(s: seq<real>) {
    forall i, j :: 0 <= i < j < |s| ==> s[i] >= s[j]
  }

  /** Entries below hi are descending, not looking at entry hole. */
  ghost predicate DescBut(s: seq<ProbIdx>, hi: nat, hole: nat)
    requires hi <= |s|
  {
    forall x, y :: 0 <= x < y < hi && x != hole && y != hole ==> s[x].prob >= s[y].prob
  }

  /** The inner loop of the insertion sort: entry i moves left to its place. */
  method InsertEntry(a: array<ProbIdx>, n: nat, i: nat)
    requires 0 < i < n <= a.Length && DescBut(a[..n], i, n)
    modifies a
    ensures DescBut(a[..n], i + 1, n) && multiset(a[..n]) == old(multiset(a[..n]))
  {
    hide DescBut;
    var v := a[i];
    var j := i;
    OpenHole(a[..n], i);
    while j > 0 && a[j - 1].prob < v.prob
      invariant 0 <= j <= i && DescBut(a[..n], i + 1, j)
      invariant forall y :: j < y <= i ==> a[..n][y].prob < v.prob
      invariant multiset(a[..n][j := v]) == old(multiset(a[..n]))
    {
      ghost var s := a[..n];
      a[j] := a[j - 1];
      assert a[..n] == s[j := s[j - 1]];
      ShiftHole(s, j, v);
      ShiftDesc(s, i, j, v);
      j := j - 1;
    }
    ghost var s := a[..n];
    a[j] := v;
    assert a[..n] == s[j := v];
    FillHole(s, i, j, v);
  }

  lemma OpenHole(s: seq<ProbIdx>, i: nat)
    requires i < |s| && DescBut(s, i, |s|)
    ensures DescBut(s, i + 1, i) && s[i := s[i]] == s
  {
  }

  lemma ShiftDesc(s: seq<ProbIdx>, i: nat, j: nat, v: ProbIdx)
    requires 0 < j <= i < |s| && DescBut(s, i + 1, j) && s[j - 1].prob < v.prob
    requires forall y :: j < y <= i ==> s[y].prob < v.prob
    ensures DescBut(s[j := s[j - 1]], i + 1, j - 1)
    ensures var t := s[j := s[j - 1]]; forall y :: j - 1 < y <= i ==> t[y].prob < v.prob
  {
  }

  lemma FillHole(s: seq<ProbIdx>, i: nat, j: nat, v: ProbIdx)
    requires j <= i < |s| && DescBut(s, i + 1, j) && (j > 0 ==> s[j - 1].prob >= v.prob)
    requires forall y :: j < y <= i ==> s[y].prob < v.prob
    ensures DescBut(s[j := v], i + 1, |s|)
  {
  }

  /** sort_desc: the insertion sort. Above 64 entries the source calls the
      library's qsort, which promises no more than this contract. */
  method SortDesc(a: array<ProbIdx>, n: nat)
    requires n <= a.Length
    modifies a
    ensures Desc(Probs(a[..n])) && multiset(a[..n]) == old(multiset(a[..n]))
  {
    var i := 1;
    while i < n
      invariant 1 <= i && (i <= n || n == 0)
      invariant i <= n ==> DescBut(a[..n], i, n)
      invariant multiset(a[..n]) == old(multiset(a[..n]))
    {
      InsertEntry(a, n, i);
      i := i + 1;
    }
  }

  lemma ShiftHole(s: seq<ProbIdx>, j: nat, v: ProbIdx)
    requires 0 < j < |s|
    ensures multiset(s[j := s[j - 1]][j - 1 := v]) == multiset(s[j := v])
  {
    var t: seq<ProbIdx> := s[j := v];
    var u: seq<ProbIdx> := t[j - 1 := t[j]];
    var w: seq<ProbIdx> := u[j := t[j - 1]];
    assert s[j := s[j - 1]][j - 1 := v] == w;
    assert multiset(w) == multiset(t);
  }

  /** The values in descending order: the vocabulary fully sorted. */
  function Insert(x: real, s: seq<real>): seq<real> {
    if s == [] || x >= s[0] then [x] + s else [s[0]] + Insert(x, s[1..])
  }

  function Sorted(s: seq<real>): seq<real> {
    if s == [] then [] else Insert(s[0], Sorted(s[1..]))
  }

  lemma ConsDesc(x: real, t: seq<real>)
    requires Desc(t) && forall y :: y in multiset(t) ==> x >= y
    ensures Desc([x] + t)
  {
    forall j | 0 <= j < |t| ensures x >= t[j] {
      assert t[j] in multiset(t);
    }
  }

  lemma HeadMax(s: seq<real>, x: real)
    requires Desc(s) && x in multiset(s)
    ensures |s| > 0 && x <= s[0]
  {
    assert x in s;
  }

  lemma HeadTail(s: seq<real>)
    requires s != []
    ensures multiset(s) == multiset([s[0]]) + multiset(s[1..]) && (Desc(s) ==> Desc(s[1..]))
  {
    assert s == [s[0]] + s[1..];
  }

  lemma {:induction false} InsertDesc(x: real, s: seq<real>)
    requires Desc(s)
    ensures Desc(Insert(x, s))
    ensures multiset(Insert(x, s)) == multiset([x]) + multiset(s)
  {
    hide Desc;
    if s != [] && x < s[0] {
      HeadTail(s);
      InsertDesc(x, s[1..]);
      forall y | y in multiset(s[1..]) ensures y <= s[0] {
        HeadMax(s, y);
      }
      ConsDesc(s[0], Insert(x, s[1..]));
    } else {
      forall y | y in multiset(s) ensures y <= x {
        HeadMax(s, y);
      }
      ConsDesc(x, s);
    }
  }

  lemma {:induction false} SortedDesc(s: seq<real>)
    ensures Desc(Sorted(s)) && multiset(Sorted(s)) == multiset(s) && |Sorted(s)| == |s|
  {
    hide Insert;
    if s == [] {
      assert Desc(Sorted(s));
    } else {
      SortedDesc(s[1..]);
      InsertDesc(s[0], Sorted(s[1..]));
      HeadTail(s);
    }
    assert |Sorted(s)| == |multiset(Sorted(s))|;
  }

  lemma MultisetCancel<T>(a: multiset<T>, b: multiset<T>, c: multiset<T>)
    requires a + b == a + c
    ensures b == c
  {
    assert b == (a + b) - a && c == (a + c) - a;
  }

  lemma SameSize(s: seq<real>, t: seq<real>)
    requires multiset(s) == multiset(t)
    ensures |s| == |t|
  {
    assert |s| == |multiset(s)|;
  }

  /** A multiset of reals has one descending arrangement. */
  lemma {:induction false} DescUnique(s: seq<real>, t: seq<real>)
    requires Desc(s) && Desc(t) && multiset(s) == multiset(t)
    ensures s == t
  {
    hide Desc;
    SameSize(s, t);
    if s != [] {
      HeadTail(s);
      HeadTail(t);
      assert s[0] in multiset(s) && t[0] in multiset(t);
      HeadMax(t, s[0]);
      HeadMax(s, t[0]);
      MultisetCancel(multiset([s[0]]), multiset(s[1..]), multiset(t[1..]));
      DescUnique(s[1..], t[1..]);
      assert s == [s[0]] + s[1..] && t == [t[0]] + t[1..];
    }
  }

  // ------------------------------------------------------------------ filters

  const DEFAULT_EPS: real := 0.000001

  /** How many leading entries are at least thr. */
  function AtLeast(ps: seq<real>, thr: real): (r: nat)
    ensures r <= |ps|
  {
    if ps == [] || ps[0] < thr then 0 else 1 + AtLeast(ps[1..], thr)
  }

  /** How many leading entries it takes to reach topP on top of cum; all of them
      when they do not. */
  function Nucleus(ps: seq<real>, cum: real, topP: real): (r: nat)
    ensures r <= |ps|
  {
    if ps == [] then 0 else if cum + ps[0] >= topP then 1 else 1 + Nucleus(ps[1..], cum + ps[0], topP)
  }

  function MinPCut(ps: seq<real>, minP: real): (r: nat)
    ensures r <= |ps|
  {
    if minP > DEFAULT_EPS && ps != [] then
      var k := AtLeast(ps, minP * ps[0]);
      if k > 0 then k else |ps|
    else |ps|
  }

  /** min-p, then top-p, on a descending list of probabilities. */
  function Cutoff(ps: seq<real>, minP: real, topP: real): (r: nat)
    ensures r <= |ps|
  {
    var c := MinPCut(ps, minP);
    if topP < 1.0 then Nucleus(ps[..c], 0.0, topP) else c
  }

  lemma {:induction false} AtLeastMeans(ps: seq<real>, thr: real)
    ensures var k := AtLeast(ps, thr);
            (forall i :: 0 <= i < k ==> ps[i] >= thr) && (k < |ps| ==> ps[k] < thr)
  {
    if ps != [] && ps[0] >= thr {
      AtLeastMeans(ps[1..], thr);
      assert forall i :: 1 <= i < |ps| ==> ps[i] == ps[1..][i - 1];
    }
  }

  /** Of a descending list min-p keeps the entries that are at least minP times the first one;
      all of them when it is switched off or when not even the first one is. */
  lemma MinPKeeps(ps: seq<real>, minP: real)
    requires Desc(ps) && ps != []
    ensures minP > 0.000001 && ps[0] >= minP * ps[0] ==>
              forall i :: 0 <= i < |ps| ==> (i < MinPCut(ps, minP) <==> ps[i] >= minP * ps[0])
    ensures minP <= 0.000001 || ps[0] < minP * ps[0] ==> MinPCut(ps, minP) == |ps|
  {
    var thr := minP * ps[0];
    AtLeastMeans(ps, thr);
    var k := AtLeast(ps, thr);
    assert forall i :: k <= i < |ps| ==> ps[i] <= ps[k];
    hide AtLeast;
    assert MinPCut(ps, minP) == if minP > 0.000001 && k > 0 then k else |ps|;
  }

  lemma {:induction false} AtLeastPrefix(ps: seq<real>, thr: real, k: nat)
    requires k <= |ps|
    ensures var c := AtLeast(ps[..k], thr); if c < k then AtLeast(ps, thr) == c else AtLeast(ps, thr) >= k
  {
    if k > 0 && ps[0] >= thr {
      AtLeastPrefix(ps[1..], thr, k - 1);
      assert ps[..k][1..] == ps[1..][..k - 1];
    }
  }

  lemma {:induction false} NucleusPrefix(ps: seq<real>, cum: real, topP: real, k: nat)
    requires k <= |ps| && Nucleus(ps[..k], cum, topP) < k
    ensures Nucleus(ps, cum, topP) == Nucleus(ps[..k], cum, topP)
  {
    if cum + ps[0] < topP {
      assert ps[..k][1..] == ps[1..][..k - 1];
      NucleusPrefix(ps[1..], cum + ps[0], topP, k - 1);
    }
  }

  function Total(ps: seq<real>): real {
    if ps == [] then 0.0 else Total(ps[..|ps| - 1]) + ps[|ps| - 1]
  }

  /** r entries are the shortest non-empty prefix whose sum reaches topP, or all entries when
      the sum of no shorter prefix does. */
  ghost predicate IsNucleus(ps: seq<real>, topP: real, r: nat) {
    && r <= |ps| && (ps != [] ==> r > 0)
    && (forall k :: 0 < k < r ==> Total(ps[..k]) < topP)
    && (r < |ps| ==> Total(ps[..r]) >= topP)
  }

  lemma TotalStep(ps: seq<real>, k: nat)
    requires k < |ps|
    ensures Total(ps[..k + 1]) == Total(ps[..k]) + ps[k]
  {
    assert ps[..k + 1][..k] == ps[..k];
  }

  /** The loop from entry k on, when no prefix up to there reaches topP. */
  lemma {:induction false} NucleusFrom(ps: seq<real>, topP: real, k: nat)
    requires k <= |ps| && forall i :: 0 < i <= k ==> Total(ps[..i]) < topP
    ensures IsNucleus(ps, topP, k + Nucleus(ps[k..], Total(ps[..k]), topP))
    decreases |ps| - k
  {
    if k < |ps| {
      TotalStep(ps, k);
      assert ps[k..][1..] == ps[k + 1..];
      if Total(ps[..k]) + ps[k] < topP { NucleusFrom(ps, topP, k + 1); }
    }
  }

  lemma NucleusShortest(ps: seq<real>, topP: real, r: nat)
    ensures Nucleus(ps, 0.0, topP) == r <==> IsNucleus(ps, topP, r)
  {
    NucleusFrom(ps, topP, 0);
    assert ps[0..] == ps && ps[..0] == [];
  }

  /** The entries at the given indices. */
  function Chosen(ps: seq<real>, at: seq<nat>): seq<real>
    requires forall j :: 0 <= j < |at| ==> at[j] < |ps|
  {
    seq(|at|, j requires 0 <= j < |at| => ps[at[j]])
  }

  /** Of all sets of that many entries of a descending list, the prefix has the largest sum. */
  lemma {:induction false} PrefixHeaviest(ps: seq<real>, at: seq<nat>)
    requires (forall j :: 0 <= j < |at| ==> at[j] < |ps|) && (forall i, j :: 0 <= i < j < |at| ==> at[i] < at[j])
    requires Desc(ps)
    ensures |at| <= |ps| && Total(Chosen(ps, at)) <= Total(ps[..|at|])
    decreases |at|
  {
    if at == [] {
    } else {
      var n := |at| - 1;
      AtLeastIndex(at, n);
      PrefixHeaviest(ps, at[..n]);
      TotalStep(ps, n);
      assert Chosen(ps, at)[..n] == Chosen(ps, at[..n]);
    }
  }

  lemma {:induction false} AtLeastIndex(at: seq<nat>, n: nat)
    requires n < |at| && forall i, j :: 0 <= i < j < |at| ==> at[i] < at[j]
    ensures at[n] >= n
  {
    if n > 0 { AtLeastIndex(at, n - 1); }
  }

  /** The nucleus of a descending list is the smallest set: no fewer entries, wherever they
      are, have a sum that reaches topP. */
  lemma SmallestSet(ps: seq<real>, topP: real, at: seq<nat>)
    requires (forall j :: 0 <= j < |at| ==> at[j] < |ps|) && (forall i, j :: 0 <= i < j < |at| ==> at[i] < at[j])
    requires Desc(ps)
    requires 0 < |at| < Nucleus(ps, 0.0, topP)
    ensures Total(Chosen(ps, at)) < topP
  {
    NucleusShortest(ps, topP, Nucleus(ps, 0.0, topP));
    PrefixHeaviest(ps, at);
  }

  /** Of those top-p keeps the shortest prefix whose sum reaches topP, unless it is switched
      off with 1. */
  lemma CutoffMeans(ps: seq<real>, minP: real, topP: real)
    ensures topP >= 1.0 ==> Cutoff(ps, minP, topP) == MinPCut(ps, minP)
    ensures topP < 1.0 ==> IsNucleus(ps[..MinPCut(ps, minP)], topP, Cutoff(ps, minP, topP))
  {
    hide MinPCut, IsNucleus;
    var kept := ps[..MinPCut(ps, minP)];
    NucleusShortest(kept, topP, Nucleus(kept, 0.0, topP));
  }

  /** Once the filters cut inside a prefix, the rest of the list is irrelevant. */
  lemma CutoffResolved(ps: seq<real>, minP: real, topP: real, k: nat)
    requires k <= |ps| && Cutoff(ps[..k], minP, topP) < k
    ensures Cutoff(ps, minP, topP) == Cutoff(ps[..k], minP, topP)
  {
    assert ps[..k][0] == ps[0];
    AtLeastPrefix(ps, minP * ps[0], k);
    var c, d := MinPCut(ps[..k], minP), MinPCut(ps, minP);
    if c < k {
      assert d == c && ps[..k][..c] == ps[..c];
    } else {
      assert d >= k && ps[..k][..c] == ps[..k] == ps[..d][..k];
      NucleusPrefix(ps[..d], 0.0, topP, k);
    }
  }

  /** The min-p loop. */
  method MinPLoop(pi: array<ProbIdx>, n: nat, minP: real) returns (cutoff: nat)
    requires n <= pi.Length
    ensures cutoff == MinPCut(Probs(pi[..n]), minP)
  {
    cutoff := n;
    if minP > DEFAULT_EPS && cutoff > 0 {
      var threshold := minP * pi[0].prob;
      ghost var ps := Probs(pi[..n]);
      var newCutoff, i := 0, 0;
      while i < cutoff
        invariant 0 <= i <= n && newCutoff == i
        invariant AtLeast(ps, threshold) == i + AtLeast(ps[i..], threshold)
      {
        if pi[i].prob >= threshold { newCutoff := i + 1; } else { break; }
        assert ps[i..][1..] == ps[i + 1..];
        i := i + 1;
      }
      if newCutoff > 0 { cutoff := newCutoff; }
    }
  }

  /** The top-p loop, below the cutoff left by min-p. */
  method TopPLoop(pi: array<ProbIdx>, n: nat, topP: real) returns (cutoff: nat)
    requires n <= pi.Length
    ensures cutoff == if topP < 1.0 then Nucleus(Probs(pi[..n]), 0.0, topP) else n
    ensures topP < 1.0 ==> IsNucleus(Probs(pi[..n]), topP, cutoff)
  {
    NucleusShortest(Probs(pi[..n]), topP, Nucleus(Probs(pi[..n]), 0.0, topP));
    hide IsNucleus;
    cutoff := n;
    if topP < 1.0 {
      ghost var ps := Probs(pi[..n]);
      var cum, pCutoff, i := 0.0, n, 0;
      while i < n
        invariant 0 <= i <= n && pCutoff == n
        invariant Nucleus(ps, 0.0, topP) == i + Nucleus(ps[i..], cum, topP)
      {
        cum := cum + pi[i].prob;
        if cum >= topP { pCutoff := i + 1; break; }
        assert ps[i..][1..] == ps[i + 1..];
        i := i + 1;
      }
      if pCutoff < cutoff { cutoff := pCutoff; }
    }
  }

  // ------------------------------------------------------------ the cap loop

  function Scale(s: seq<real>, f: real): (r: seq<real>)
    ensures |r| == |s| && forall i :: 0 <= i < |s| ==> r[i] == s[i] * f
  {
    seq(|s|, i requires 0 <= i < |s| => s[i] * f)
  }

  /** One occurrence of x taken out of t. */
  lemma PickOut(t: seq<ProbIdx>, x: ProbIdx) returns (t': seq<ProbIdx>)
    requires x in multiset(t)
    ensures multiset(t) == multiset([x]) + multiset(t') && |t'| == |t| - 1
    ensures multiset(Probs(t)) == multiset([x.prob]) + multiset(Probs(t'))
  {
    var k :| 0 <= k < |t| && t[k] == x;
    var l, r := t[..k], t[k + 1..];
    t' := l + r;
    assert t == l + [x] + r;
    MiddleOut(l, x, r);
    MiddleOut(Probs(l), x.prob, Probs(r));
    ProbsJoin(l, x, r);
  }

  lemma MiddleOut<T>(l: seq<T>, x: T, r: seq<T>)
    ensures multiset(l + [x] + r) == multiset([x]) + multiset(l + r)
  {
  }

  lemma ProbsJoin(l: seq<ProbIdx>, x: ProbIdx, r: seq<ProbIdx>)
    ensures Probs(l + [x] + r) == Probs(l) + [x.prob] + Probs(r) && Probs(l + r) == Probs(l) + Probs(r)
  {
  }

  lemma {:induction false} ProbsPerm(s: seq<ProbIdx>, t: seq<ProbIdx>)
    requires multiset(s) == multiset(t)
    ensures multiset(Probs(s)) == multiset(Probs(t))
    decreases |s|
  {
    hide Probs;
    if s == [] {
      assert |t| == |multiset(t)| == 0;
    } else {
      assert s[0] in multiset(s);
      var s' := PickOut(s, s[0]);
      var t' := PickOut(t, s[0]);
      MultisetCancel(multiset([s[0]]), multiset(s'), multiset(t'));
      ProbsPerm(s', t');
    }
  }

  ghost function Listed(m: multiset<ProbIdx>): (r: seq<ProbIdx>)
    ensures multiset(r) == m
    decreases |m|
  {
    if m == multiset{} then [] else var x :| x in m; [x] + Listed(m - multiset{x})
  }

  /** The selected entries, sorted, carry the largest values in order. */
  lemma SelectedIsPrefix(h: seq<ProbIdx>, a: seq<ProbIdx>, vals: seq<real>, cap: nat)
    requires Selected(h, vals, cap) && multiset(a) == multiset(h) && Desc(Probs(a))
    ensures |a| == |h| && |a| <= |Sorted(vals)|
    ensures Probs(a) == Sorted(vals)[..|a|]
  {
    hide Desc, IsHeap, Sorted, Pairs;
    var rest := Listed(multiset(Pairs(vals)) - multiset(h));
    var tail := Sorted(Probs(rest));
    SortedDesc(Probs(rest));
    SortedDesc(vals);
    JoinDesc(h, a, rest, tail);
    JoinAll(a, rest, tail, vals);
    DescUnique(Probs(a) + tail, Sorted(vals));
    assert |a| == |multiset(a)| && |h| == |multiset(h)|;
    assert (Probs(a) + tail)[..|a|] == Probs(a);
  }

  lemma JoinAll(a: seq<ProbIdx>, rest: seq<ProbIdx>, tail: seq<real>, vals: seq<real>)
    requires multiset(a) + multiset(rest) == multiset(Pairs(vals)) && multiset(tail) == multiset(Probs(rest))
    ensures multiset(Probs(a) + tail) == multiset(vals)
  {
    assert multiset(a + rest) == multiset(a) + multiset(rest);
    ProbsPerm(a + rest, Pairs(vals));
    assert Probs(a + rest) == Probs(a) + Probs(rest);
    assert Probs(Pairs(vals)) == vals;
  }

  /** Descending selected values, then the descending rest. */
  lemma JoinDesc(h: seq<ProbIdx>, a: seq<ProbIdx>, rest: seq<ProbIdx>, tail: seq<real>)
    requires IsHeap(h) && multiset(a) == multiset(h) && Desc(Probs(a)) && Desc(tail)
    requires multiset(tail) == multiset(Probs(rest))
    requires forall e :: e in multiset(rest) ==> |h| > 0 && e.prob <= h[0].prob
    ensures Desc(Probs(a) + tail)
  {
    forall i, j | 0 <= i < |a| && 0 <= j < |tail| ensures a[i].prob >= tail[j] {
      assert a[i] in multiset(h);
      var k :| 0 <= k < |h| && h[k] == a[i];
      RootIsLeast(h, k);
      assert tail[j] in multiset(Probs(rest));
      var x :| 0 <= x < |rest| && Probs(rest)[x] == tail[j];
      assert rest[x] in multiset(rest);
    }
  }

  /** One round of the cap loop: select, sort, scale. */
  method TopCandidates(pi: array<ProbIdx>, cap: nat, vals: seq<real>, invSum: real) returns (filled: nat)
    requires 0 < cap <= pi.Length
    modifies pi
    ensures filled == (if |vals| < cap then |vals| else cap)
    ensures filled <= |Sorted(vals)| && Probs(pi[..filled]) == Scale(Sorted(vals)[..filled], invSum)
    ensures forall k :: 0 <= k < filled ==> pi[k].idx < |vals| && pi[k].prob == vals[pi[k].idx] * invSum
    ensures forall k, l :: 0 <= k < l < filled ==> pi[k].idx != pi[l].idx
  {
    hide Selected, Desc, Sorted;
    filled := SelectTop(pi, cap, vals);
    ghost var h := pi[..filled];
    SortDesc(pi, filled);
    ghost var a := pi[..filled];
    SelectedIsPrefix(h, a, vals, cap);
    SelectedOwn(h, vals, cap);
    OwnValues(a, vals);
    ScaleLoop(pi, filled, invSum);
  }

  lemma SelectedOwn(h: seq<ProbIdx>, vals: seq<real>, cap: nat)
    requires Selected(h, vals, cap)
    ensures multiset(h) <= multiset(Pairs(vals))
  {
  }

  /** inv_sum only touches the survivors. */
  method ScaleLoop(pi: array<ProbIdx>, filled: nat, invSum: real)
    requires filled <= pi.Length
    modifies pi
    ensures Probs(pi[..filled]) == Scale(Probs(old(pi[..filled])), invSum)
    ensures forall k :: 0 <= k < filled ==> pi[k] == Scaled(old(pi[k]), invSum)
  {
    hide Scaled;
    ghost var a := pi[..filled];
    var i := 0;
    while i < filled
      invariant 0 <= i <= filled
      invariant forall k :: 0 <= k < i ==> pi[k] == Scaled(a[k], invSum)
      invariant forall k :: i <= k < filled ==> pi[k] == a[k]
    {
      pi[i] := Scaled(pi[i], invSum);
      i := i + 1;
    }
    ScaledProbs(a, pi[..filled], invSum);
  }

  function Scaled(e: ProbIdx, f: real): ProbIdx { ProbIdx(e.prob * f, e.idx) }

  lemma ScaledProbs(a: seq<ProbIdx>, b: seq<ProbIdx>, f: real)
    requires |a| == |b| && forall k :: 0 <= k < |a| ==> b[k] == Scaled(a[k], f)
    ensures Probs(b) == Scale(Probs(a), f)
  {
    forall k | 0 <= k < |a| ensures Probs(b)[k] == Scale(Probs(a), f)[k] {
      assert b[k] == Scaled(a[k], f);
    }
  }

  lemma ScalePrefix(s: seq<real>, f: real, k: nat)
    requires k <= |s|
    ensures Scale(s[..k], f) == Scale(s, f)[..k]
  {
    forall i | 0 <= i < k ensures Scale(s[..k], f)[i] == Scale(s, f)[..k][i] {
      assert s[..k][i] == s[i];
    }
  }

  /** Entries taken from Pairs carry their own values and distinct indices. */
  lemma OwnValues(a: seq<ProbIdx>, vals: seq<real>)
    requires multiset(a) <= multiset(Pairs(vals))
    ensures forall k :: 0 <= k < |a| ==> a[k].idx < |vals| && a[k].prob == vals[a[k].idx]
    ensures forall k, l :: 0 <= k < l < |a| ==> a[k].idx != a[l].idx
  {
    forall k | 0 <= k < |a| ensures a[k].idx < |vals| && a[k].prob == vals[a[k].idx] {
      assert a[k] in multiset(Pairs(vals));
    }
    forall k, l | 0 <= k < l < |a| ensures a[k].idx != a[l].idx {
      if a[k].idx == a[l].idx {
        assert a[k] == a[l];
        assert a == a[..k] + [a[k]] + a[k + 1..l] + [a[l]] + a[l + 1..];
        assert multiset(a)[a[k]] >= 2;
        PairsOnce(vals, a[k]);
        assert false;
      }
    }
  }

  lemma {:induction false} PairsOnce(vals: seq<real>, e: ProbIdx)
    ensures multiset(Pairs(vals))[e] <= 1
    decreases |vals|
  {
    if vals != [] {
      var n := |vals| - 1;
      PairsOnce(vals[..n], e);
      PairsNext(vals, n);
      assert vals[..n + 1] == vals;
      if e in multiset(Pairs(vals[..n])) { assert e.idx < n; }
    }
  }

  /** min-p and top-p over the candidates. */
  method Filters(pi: array<ProbIdx>, filled: nat, minP: real, topP: real) returns (cutoff: nat)
    requires filled <= pi.Length
    ensures cutoff == Cutoff(Probs(pi[..filled]), minP, topP)
  {
    hide Nucleus, MinPCut;
    cutoff := MinPLoop(pi, filled, minP);
    assert pi[..filled][..cutoff] == pi[..cutoff];
    assert Probs(pi[..cutoff]) == Probs(pi[..filled])[..cutoff];
    cutoff := TopPLoop(pi, cutoff, topP);
  }

  /** The candidate loop of sample_token over the unnormalised probabilities
      vals. canGrow says whether realloc succeeds. */
  method Candidates(vals: seq<real>, invSum: real, topK: nat, minP: real, topP: real, canGrow: bool)
    returns (pi: array<ProbIdx>, filled: nat, cutoff: nat)
    requires vals != [] && invSum > 0.0
    ensures filled <= pi.Length && filled <= |vals| == |Sorted(vals)|
    ensures Probs(pi[..filled]) == Scale(Sorted(vals), invSum)[..filled]
    ensures cutoff == Cutoff(Scale(Sorted(vals), invSum)[..filled], minP, topP)
    ensures topK > 0 ==> filled == if topK < |vals| then topK else |vals|
    ensures topK == 0 && canGrow ==> cutoff == Cutoff(Scale(Sorted(vals), invSum), minP, topP)
    ensures forall k :: 0 <= k < filled ==> pi[k].idx < |vals| && pi[k].prob == vals[pi[k].idx] * invSum
    ensures forall k, l :: 0 <= k < l < filled ==> pi[k].idx != pi[l].idx
  {
    hide Cutoff, Sorted;
    var n := |vals|;
    SortedDesc(vals);
    ghost var all := Scale(Sorted(vals), invSum);
    var cap := if topK > 0 then topK else 64;
    if cap > n { cap := n; }
    pi := new ProbIdx[cap](_ => ProbIdx(0.0, 0));
    while true
      invariant 0 < cap <= n && pi.Length == cap && fresh(pi)
      invariant topK > 0 ==> cap == if topK < n then topK else n
      decreases n - cap
    {
      filled := TopCandidates(pi, cap, vals, invSum);
      ScalePrefix(Sorted(vals), invSum, filled);
      cutoff := Filters(pi, filled, minP, topP);
      if topK > 0 { break; }
      if cutoff < filled || cap >= n {
        if cutoff < filled { CutoffResolved(all, minP, topP, filled); }
        if filled == n { assert all[..filled] == all; }
        break;
      }
      var ncap := if cap > n / 4 then n else cap * 4;
      if !canGrow { break; }
      pi := new ProbIdx[ncap](_ => ProbIdx(0.0, 0));
      cap := ncap;
    }
  }
}
