/** The nodes of the radix tree of src/rax.c, the sorted list of entries they
    spell, and the zipper (the stack of parents kept by the operations)
    through which one node of a tree is rewritten. */
module RaxTree {
  import opened Common

  type Key = seq<Byte>

  /** The largest value of the 29-bit size field. */
  const RAX_NODE_MAX_SIZE: nat := 0x1FFF_FFFF

  /** A value pointer; 0 is NULL. */
  type Ptr = nat

  /** The iskey and isnull bits together with the optional value pointer:
      a key whose value is NULL is Present(0) and stores no pointer. */
  datatype Slot = Absent | Present(data: Ptr)

  /** A compressed node spells all of chars before its only child; a normal
      node has one child per edge byte. */
  datatype Node = Node(slot: Slot, compr: bool, chars: Key, kids: seq<Node>)

  const EMPTY_NODE := Node(Absent, false, [], [])

  type Entry = (Key, Ptr)

  // ------------------------------------------------------------ well-formedness

  ghost predicate SortedBytes(s: Key) {
    forall i, j :: 0 <= i < j < |s| ==> s[i] < s[j]
  }

  /** The header and the two arrays of one node fit together. */
  ghost predicate Shape(n: Node) {
    if n.compr then 2 <= |n.chars| <= RAX_NODE_MAX_SIZE && |n.kids| == 1
    else |n.kids| == |n.chars| && SortedBytes(n.chars)
  }

  /** Below the head, a node without children is a key. */
  predicate KeyLeaf(n: Node) { n.chars == [] ==> n.slot.Present? }

  ghost predicate Wf(n: Node) {
    Shape(n) && forall i :: 0 <= i < |n.kids| ==> KeyLeaf(n.kids[i]) && Wf(n.kids[i])
  }

  // ------------------------------------------------------------------ entries

  /** The bytes on the edge to child i. */
  function Label(n: Node, i: nat): Key {
    if n.compr then n.chars else if i < |n.chars| then [n.chars[i]] else []
  }

  ghost function Own(p: Key, n: Node): seq<Entry> {
    if n.slot.Present? then [(p, n.slot.data)] else []
  }

  /** The entries below a node whose path from the head is p, in tree order. */
  ghost function At(p: Key, n: Node): seq<Entry>
    decreases n, |n.kids| + 1
  {
    Own(p, n) + Kids(p, n, 0, |n.kids|)
  }

  /** The entries of the children lo..hi-1. */
  ghost function Kids(p: Key, n: Node, lo: nat, hi: nat): seq<Entry>
    requires lo <= hi <= |n.kids|
    decreases n, hi - lo
  {
    if lo == hi then [] else At(p + Label(n, lo), n.kids[lo]) + Kids(p, n, lo + 1, hi)
  }

  /** The number of nodes, which numnodes counts. */
  ghost function Nodes(n: Node): nat
    decreases n, |n.kids| + 1
  {
    1 + KidNodes(n, 0, |n.kids|)
  }

  ghost function KidNodes(n: Node, lo: nat, hi: nat): nat
    requires lo <= hi <= |n.kids|
    decreases n, hi - lo
  {
    if lo == hi then 0 else Nodes(n.kids[lo]) + KidNodes(n, lo + 1, hi)
  }

  /** The children lo..hi-1 of n reappear in n', d places further on. */
  ghost predicate SameKids(n: Node, lo: nat, hi: nat, n': Node, d: int)
    requires lo <= hi <= |n.kids| && 0 <= lo + d && hi + d <= |n'.kids|
  {
    forall k :: lo <= k < hi ==> n.kids[k] == n'.kids[k + d] && Label(n, k) == Label(n', k + d)
  }

  lemma {:induction false} KidsSame(p: Key, n: Node, lo: nat, hi: nat, n': Node, d: int)
    requires lo <= hi <= |n.kids| && 0 <= lo + d && hi + d <= |n'.kids|
    requires SameKids(n, lo, hi, n', d)
    ensures Kids(p, n, lo, hi) == Kids(p, n', lo + d, hi + d)
    ensures KidNodes(n, lo, hi) == KidNodes(n', lo + d, hi + d)
    decreases hi - lo
  {
    if lo < hi {
      KidsSame(p, n, lo + 1, hi, n', d);
    }
  }

  lemma {:induction false} KidsSplit(p: Key, n: Node, lo: nat, mid: nat, hi: nat)
    requires lo <= mid <= hi <= |n.kids|
    ensures Kids(p, n, lo, hi) == Kids(p, n, lo, mid) + Kids(p, n, mid, hi)
    ensures KidNodes(n, lo, hi) == KidNodes(n, lo, mid) + KidNodes(n, mid, hi)
    decreases mid - lo
  {
    if lo < mid {
      KidsSplit(p, n, lo + 1, mid, hi);
    }
  }

  // ------------------------------------------------------------------- zipper

  /** One item of the stack of parents: a node and the child that was taken. */
  datatype Frame = Frame(node: Node, idx: nat)

  function Put(fr: Frame, child: Node): Node {
    if fr.idx < |fr.node.kids| then fr.node.(kids := fr.node.kids[fr.idx := child]) else fr.node
  }

  /** The tree in which the bottom of the stack of parents holds child f. */
  function Plug(st: seq<Frame>, f: Node): Node {
    if st == [] then f else Plug(st[..|st| - 1], Put(st[|st| - 1], f))
  }

  function Path(st: seq<Frame>): Key {
    if st == [] then [] else Path(st[..|st| - 1]) + Label(st[|st| - 1].node, st[|st| - 1].idx)
  }

  /** Everything but the child that was taken is well-formed. */
  ghost predicate WfFrame(fr: Frame) {
    && fr.idx < |fr.node.kids| && Shape(fr.node)
    && forall i :: 0 <= i < |fr.node.kids| && i != fr.idx ==> KeyLeaf(fr.node.kids[i]) && Wf(fr.node.kids[i])
  }

  ghost predicate WfStack(st: seq<Frame>) {
    forall k :: 0 <= k < |st| ==> WfFrame(st[k])
  }

  /** The entries that precede, and that follow, the place at the bottom of
      the stack. */
  ghost function Before(st: seq<Frame>): seq<Entry>
    requires WfStack(st)
  {
    if st == [] then []
    else
      var init, fr := st[..|st| - 1], st[|st| - 1];
      Before(init) + Own(Path(init), fr.node) + Kids(Path(init), fr.node, 0, fr.idx)
  }

  ghost function After(st: seq<Frame>): seq<Entry>
    requires WfStack(st)
  {
    if st == [] then []
    else
      var init, fr := st[..|st| - 1], st[|st| - 1];
      Kids(Path(init), fr.node, fr.idx + 1, |fr.node.kids|) + After(init)
  }

  /** The nodes on the stack and beside it. */
  ghost function Around(st: seq<Frame>): nat
    requires WfStack(st)
  {
    if st == [] then 0
    else
      var init, fr := st[..|st| - 1], st[|st| - 1];
      Around(init) + 1 + KidNodes(fr.node, 0, fr.idx) + KidNodes(fr.node, fr.idx + 1, |fr.node.kids|)
  }

  /** The children of a node around one of them. */
  lemma KidsAround(p: Key, n: Node, i: nat)
    requires i < |n.kids|
    ensures Kids(p, n, 0, |n.kids|)
         == Kids(p, n, 0, i) + At(p + Label(n, i), n.kids[i]) + Kids(p, n, i + 1, |n.kids|)
    ensures KidNodes(n, 0, |n.kids|) == KidNodes(n, 0, i) + Nodes(n.kids[i]) + KidNodes(n, i + 1, |n.kids|)
  {
    KidsSplit(p, n, 0, i, |n.kids|);
    var a, b, c := Kids(p, n, 0, i), At(p + Label(n, i), n.kids[i]), Kids(p, n, i + 1, |n.kids|);
    assert a + (b + c) == a + b + c;
  }

  lemma PutEntries(p: Key, fr: Frame, f: Node)
    requires WfFrame(fr)
    ensures At(p, Put(fr, f)) == Own(p, fr.node) + (Kids(p, fr.node, 0, fr.idx)
              + At(p + Label(fr.node, fr.idx), f) + Kids(p, fr.node, fr.idx + 1, |fr.node.kids|))
    ensures Nodes(Put(fr, f)) == 1 + KidNodes(fr.node, 0, fr.idx) + Nodes(f)
                                 + KidNodes(fr.node, fr.idx + 1, |fr.node.kids|)
  {
    hide Kids, KidNodes, Less;
    var n, i, n' := fr.node, fr.idx, Put(fr, f);
    KidsAround(p, n', i);
    KidsSame(p, n, 0, i, n', 0);
    KidsSame(p, n, i + 1, |n.kids|, n', 0);
    assert Own(p, n) == Own(p, n');
  }

  lemma Regroup<T>(a: seq<T>, o: seq<T>, l: seq<T>, m: seq<T>, r: seq<T>, b: seq<T>)
    ensures a + (o + (l + m + r)) + b == (a + o + l) + m + (r + b)
  {
  }

  /** The entries of a plugged tree: those before, those of the child, those after. */
  lemma {:induction false} PlugEntries(st: seq<Frame>, f: Node)
    requires WfStack(st)
    ensures At([], Plug(st, f)) == Before(st) + At(Path(st), f) + After(st)
    ensures Nodes(Plug(st, f)) == Around(st) + Nodes(f)
    decreases |st|
  {
    if st == [] {
      assert [] + At([], f) + [] == At([], f);
    } else {
      var init, fr := st[..|st| - 1], st[|st| - 1];
      var p := Path(init);
      PlugEntries(init, Put(fr, f));
      PutEntries(p, fr, f);
      Regroup(Before(init), Own(p, fr.node), Kids(p, fr.node, 0, fr.idx), At(Path(st), f),
              Kids(p, fr.node, fr.idx + 1, |fr.node.kids|), After(init));
    }
  }

  lemma {:induction false} PlugWf(st: seq<Frame>, f: Node)
    requires WfStack(st) && Wf(f) && (st != [] ==> KeyLeaf(f))
    ensures Wf(Plug(st, f))
    decreases |st|
  {
    if st != [] {
      PlugWf(st[..|st| - 1], Put(st[|st| - 1], f));
    }
  }

  /** A node of a well-formed tree, given by its parents. */
  ghost predicate Place(head: Node, st: seq<Frame>, h: Node) {
    WfStack(st) && Wf(h) && (st != [] ==> KeyLeaf(h)) && Plug(st, h) == head
  }

  lemma AtTop(head: Node)
    requires Wf(head)
    ensures Place(head, [], head) && Path([]) == []
  {
  }

  /** Going down to child c. */
  lemma Descend(head: Node, st: seq<Frame>, h: Node, c: nat)
    requires Place(head, st, h) && c < |h.kids|
    ensures Place(head, st + [Frame(h, c)], h.kids[c])
    ensures Path(st + [Frame(h, c)]) == Path(st) + Label(h, c)
  {
    var st' := st + [Frame(h, c)];
    assert st'[..|st'| - 1] == st;
    assert Put(Frame(h, c), h.kids[c]) == h;
  }

  // ------------------------------------------------------- lexicographic order

  /** memcmp order: byte by byte, a proper prefix first. */
  ghost predicate Less(a: Key, b: Key) {
    b != [] && (a == [] || a[0] < b[0] || (a[0] == b[0] && Less(a[1..], b[1..])))
  }

  /** In terms of the first difference: one key is a proper prefix of the other, or the first
      byte that differs is smaller. */
  lemma {:induction false} LessMeans(a: Key, b: Key)
    ensures Less(a, b) <==>
              exists n :: 0 <= n <= |a| && n < |b| && a[..n] == b[..n] && (n == |a| || a[n] < b[n])
  {
    if a != [] && b != [] && a[0] == b[0] {
      LessMeans(a[1..], b[1..]);
      if n :| 0 <= n <= |a| && n < |b| && a[..n] == b[..n] && (n == |a| || a[n] < b[n]) {
        Deeper(a, b, n);
      }
      if n :| 0 <= n <= |a| - 1 && n < |b| - 1 && a[1..][..n] == b[1..][..n] && (n == |a| - 1 || a[1..][n] < b[1..][n]) {
        assert a[..n + 1] == [a[0]] + a[1..][..n] && b[..n + 1] == [b[0]] + b[1..][..n];
      }
    } else {
      assert a[..0] == b[..0];
      assert forall n :: 0 < n <= |a| && n < |b| && a[..n] == b[..n] ==> a[..n][0] == b[..n][0];
    }
  }

  lemma Deeper(a: Key, b: Key, n: nat)
    requires a != [] && b != [] && a[0] == b[0] && n <= |a| && n < |b| && a[..n] == b[..n] && (n == |a| || a[n] < b[n])
    ensures 0 < n && a[1..][..n - 1] == b[1..][..n - 1]
  {
    if n > 0 { assert a[1..][..n - 1] == a[..n][1..] && b[1..][..n - 1] == b[..n][1..]; }
  }

  lemma {:induction false} LessIrreflexive(a: Key)
    ensures !Less(a, a)
  {
    if a != [] { LessIrreflexive(a[1..]); }
  }

  lemma {:induction false} LessTransitive(a: Key, b: Key, c: Key)
    requires Less(a, b) && Less(b, c)
    ensures Less(a, c)
  {
    if a != [] && a[0] == b[0] && b[0] == c[0] { LessTransitive(a[1..], b[1..], c[1..]); }
  }

  lemma {:induction false} LessPrefix(p: Key, a: Key, b: Key)
    ensures Less(p + a, p + b) == Less(a, b)
  {
    if p == [] {
      assert p + a == a && p + b == b;
    } else {
      assert (p + a)[1..] == p[1..] + a && (p + b)[1..] == p[1..] + b;
      LessPrefix(p[1..], a, b);
    }
  }

  ghost predicate Ascending(es: seq<Entry>) {
    forall i, j :: 0 <= i < j < |es| ==> Less(es[i].0, es[j].0)
  }

  /** Every key below p starts with p. */
  lemma {:induction false} AtPrefix(p: Key, n: Node)
    ensures forall e :: e in At(p, n) ==> p <= e.0
    decreases n, |n.kids| + 1
  {
    KidsPrefix(p, n, 0, |n.kids|);
  }

  lemma {:induction false} KidsPrefix(p: Key, n: Node, lo: nat, hi: nat)
    requires lo <= hi <= |n.kids|
    ensures forall e :: e in Kids(p, n, lo, hi) ==> p <= e.0
    ensures forall e :: e in Kids(p, n, lo, hi) ==> exists k :: lo <= k < hi && p + Label(n, k) <= e.0
    decreases n, hi - lo
  {
    if lo < hi {
      AtPrefix(p + Label(n, lo), n.kids[lo]);
      KidsPrefix(p, n, lo + 1, hi);
      forall e | e in Kids(p, n, lo, hi)
        ensures p <= e.0 && exists k :: lo <= k < hi && p + Label(n, k) <= e.0
      {
        if e in At(p + Label(n, lo), n.kids[lo]) {
          assert p + Label(n, lo) <= e.0;
          assert p <= p + Label(n, lo);
        }
      }
    }
  }

  /** Strings below an earlier edge precede strings below a later one. */
  lemma EdgeOrder(p: Key, n: Node, i: nat, j: nat, a: Key, b: Key)
    requires Shape(n) && i < j < |n.kids|
    requires p + Label(n, i) <= a && p + Label(n, j) <= b
    ensures Less(a, b)
  {
    var x, y := a[|p|..], b[|p|..];
    assert a == p + x && b == p + y;
    assert x[0] == n.chars[i] && y[0] == n.chars[j];
    LessPrefix(p, x, y);
  }

  lemma PrefixLess(p: Key, b: Key)
    requires p <= b && p != b
    ensures Less(p, b)
  {
    assert p + [] == p && p + b[|p|..] == b;
    LessPrefix(p, [], b[|p|..]);
  }

  lemma {:induction false} AtAscending(p: Key, n: Node)
    requires Wf(n)
    ensures Ascending(At(p, n))
    decreases n, |n.kids| + 1
  {
    KidsAscending(p, n, 0, |n.kids|);
    KidsPrefix(p, n, 0, |n.kids|);
    var es := Kids(p, n, 0, |n.kids|);
    forall j | 0 <= j < |es| ensures Less(p, es[j].0) {
      assert es[j] in es;
      var k :| 0 <= k < |n.kids| && p + Label(n, k) <= es[j].0;
      PrefixLess(p, es[j].0);
    }
  }

  lemma {:induction false} KidsAscending(p: Key, n: Node, lo: nat, hi: nat)
    requires Wf(n) && lo <= hi <= |n.kids|
    ensures Ascending(Kids(p, n, lo, hi))
    decreases n, hi - lo
  {
    if lo < hi {
      var a, b := At(p + Label(n, lo), n.kids[lo]), Kids(p, n, lo + 1, hi);
      AtAscending(p + Label(n, lo), n.kids[lo]);
      KidsAscending(p, n, lo + 1, hi);
      AtPrefix(p + Label(n, lo), n.kids[lo]);
      KidsPrefix(p, n, lo + 1, hi);
      forall i, j | 0 <= i < |a| && 0 <= j < |b| ensures Less(a[i].0, b[j].0) {
        assert a[i] in a && b[j] in b;
        var k :| lo + 1 <= k < hi && p + Label(n, k) <= b[j].0;
        EdgeOrder(p, n, lo, k, a[i].0, b[j].0);
      }
    }
  }
}
