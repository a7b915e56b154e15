/** The rewriting steps of raxRemove: freeing a dead branch upwards, and merging
    a chain of single-child nodes that are no keys. */
module RaxRemove {
  import opened Common
  import opened RaxTree
  import opened RaxContents
  import opened RaxInsert

  /** A node that neither holds a key nor branches: the upward clean-up frees it
      and recompression may merge it. */
  predicate Plain(n: Node) {
    n.slot.Absent? && (n.compr || |n.chars| == 1)
  }

  lemma PlainEntries(p: Key, n: Node)
    requires Shape(n) && Plain(n)
    ensures At(p, n) == At(p + n.chars, n.kids[0])
    ensures Nodes(n) == 1 + Nodes(n.kids[0])
  {
    assert n == Link(Absent, n.chars, n.kids[0]);
    LinkEntries(p, Absent, n.chars, n.kids[0]);
    assert Own(p, n) == [];
  }

  /** Every subtree below the head holds a key. */
  lemma {:induction false} HasEntries(p: Key, n: Node)
    requires Wf(n) && KeyLeaf(n)
    ensures At(p, n) != []
    decreases n
  {
    if n.chars != [] {
      KidsAround(p, n, 0);
      HasEntries(p + Label(n, 0), n.kids[0]);
    }
  }

  // ------------------------------------------------------------ removing a child

  /** raxRemoveChild. */
  function RemoveChild(n: Node, idx: nat): Node
    requires idx < |n.kids| && (n.compr || |n.chars| == |n.kids|)
  {
    if n.compr then n.(compr := false, chars := [], kids := [])
    else n.(chars := n.chars[..idx] + n.chars[idx + 1..], kids := n.kids[..idx] + n.kids[idx + 1..])
  }

  lemma RemoveChildShift(n: Node, idx: nat)
    requires !n.compr && |n.kids| == |n.chars| && idx < |n.kids|
    ensures SameKids(n, 0, idx, RemoveChild(n, idx), 0)
    ensures SameKids(n, idx + 1, |n.kids|, RemoveChild(n, idx), -1)
  {
  }

  lemma RemoveNormalChild(p: Key, n: Node, i: nat)
    requires |n.kids| == |n.chars| && !n.compr && i < |n.kids|
    ensures At(p, RemoveChild(n, i)) == Own(p, n) + (Kids(p, n, 0, i) + Kids(p, n, i + 1, |n.kids|))
    ensures Nodes(RemoveChild(n, i)) == 1 + KidNodes(n, 0, i) + KidNodes(n, i + 1, |n.kids|)
  {
    hide Kids, KidNodes, Label;
    var n' := RemoveChild(n, i);
    RemoveChildShift(n, i);
    assert |n'.kids| == |n.kids| - 1 && n'.slot == n.slot;
    KidsSame(p, n, 0, i, n', 0);
    KidsSame(p, n, i + 1, |n.kids|, n', -1);
    KidsSplit(p, n', 0, i, |n'.kids|);
  }

  /** Without a child that holds no key, the entries are the same. */
  lemma RemoveChildEntries(p: Key, fr: Frame, dead: Node)
    requires WfFrame(fr) && At(p + Label(fr.node, fr.idx), dead) == []
    ensures At(p, RemoveChild(fr.node, fr.idx)) == At(p, Put(fr, dead))
    ensures Nodes(Put(fr, dead)) == Nodes(RemoveChild(fr.node, fr.idx)) + Nodes(dead)
  {
    hide At, Nodes, Kids, KidNodes;
    var n, i := fr.node, fr.idx;
    PutEntries(p, fr, dead);
    if n.compr {
      NoKids(p, RemoveChild(n, i));
      assert Own(p, n) == Own(p, RemoveChild(n, i));
      NoneBetween(p, n, 0);
      NoneBetween(p, n, 1);
      assert Own(p, n) + ([] + [] + []) == Own(p, n);
    } else {
      RemoveNormalChild(p, n, i);
      var a, b := Kids(p, n, 0, i), Kids(p, n, i + 1, |n.kids|);
      assert a + [] + b == a + b;
    }
  }

  lemma NoKids(p: Key, n: Node)
    requires n.kids == []
    ensures At(p, n) == Own(p, n) && Nodes(n) == 1
  {
  }

  lemma NoneBetween(p: Key, n: Node, i: nat)
    requires i <= |n.kids|
    ensures Kids(p, n, i, i) == [] && KidNodes(n, i, i) == 0
  {
  }

  lemma RemoveChildWf(fr: Frame)
    requires WfFrame(fr)
    ensures Wf(RemoveChild(fr.node, fr.idx))
  {
    var n, n' := fr.node, RemoveChild(fr.node, fr.idx);
    forall k | 0 <= k < |n'.kids| ensures KeyLeaf(n'.kids[k]) && Wf(n'.kids[k]) {
      assert n'.kids[k] == n.kids[if k < fr.idx then k else k + 1];
    }
  }

  /** Where the upward clean-up ends: the parent that stays, without the dead branch. */
  function Branch(ts: seq<Frame>): (seq<Frame>, Node)
    requires ts != [] && WfFrames(ts)
  {
    var init, fr := ts[..|ts| - 1], ts[|ts| - 1];
    if Plain(fr.node) && init != [] then Branch(init) else (init, RemoveChild(fr.node, fr.idx))
  }

  /** The part of WfStack that RemoveChild needs. */
  predicate WfFrames(ts: seq<Frame>) {
    forall k :: 0 <= k < |ts| ==>
      ts[k].idx < |ts[k].node.kids| && (ts[k].node.compr || |ts[k].node.chars| == |ts[k].node.kids|)
  }

  /** The upward loop of raxRemove: free the childless node h0, which is no
      longer a key, and every plain parent above it, then unlink the branch. */
  method FreeBranch(ts0: seq<Frame>, h0: Node) returns (ts: seq<Frame>, h: Node, freed: nat)
    requires WfStack(ts0) && ts0 != [] && h0 == EMPTY_NODE
    ensures (ts, h) == Branch(ts0)
    ensures WfStack(ts) && Wf(h) && (ts != [] ==> KeyLeaf(h)) && ts <= ts0
    ensures At([], Plug(ts, h)) == At([], Plug(ts0, h0))
    ensures Nodes(Plug(ts0, h0)) == Nodes(Plug(ts, h)) + freed
  {
    hide At, Nodes, Plug, Path;
    ts, freed := ts0, 0;
    ghost var dead := h0;
    NoKids(Path(ts0), h0);
    var fr := ts[|ts| - 1];
    while true
      invariant ts <= ts0 && WfStack(ts) && ts != []
      invariant Plug(ts, dead) == Plug(ts0, h0) && Branch(ts) == Branch(ts0)
      invariant At(Path(ts), dead) == [] && Nodes(dead) == freed + 1
      decreases |ts|
    {
      ghost var was := ts;
      freed := freed + 1;
      fr := ts[|ts| - 1];
      ts := ts[..|ts| - 1];
      assert was == ts + [fr];
      Pop(ts, fr, dead);
      if !Plain(fr.node) || ts == [] { break; }
      assert Label(fr.node, fr.idx) == fr.node.chars;
      PlainEntries(Path(ts), Put(fr, dead));
      dead := Put(fr, dead);
    }
    h := RemoveChild(fr.node, fr.idx);
    RemoveChildEntries(Path(ts), fr, dead);
    RemoveChildWf(fr);
    SwapNode(ts, Put(fr, dead), h);
  }

  lemma Pop(ts: seq<Frame>, fr: Frame, f: Node)
    requires WfStack(ts + [fr])
    ensures WfStack(ts) && WfFrame(fr)
    ensures Plug(ts + [fr], f) == Plug(ts, Put(fr, f))
    ensures Path(ts + [fr]) == Path(ts) + Label(fr.node, fr.idx)
  {
    var st := ts + [fr];
    assert st[..|st| - 1] == ts && st[|st| - 1] == fr;
    assert forall k :: 0 <= k < |ts| ==> ts[k] == st[k];
  }

  // -------------------------------------------------------------- recompression

  /** The topmost node of the chain of plain nodes that h belongs to. */
  function Climb(ts: seq<Frame>, h: Node): (seq<Frame>, Node) {
    if ts != [] && Plain(ts[|ts| - 1].node) then Climb(ts[..|ts| - 1], Put(ts[|ts| - 1], h)) else (ts, h)
  }

  /** The upper loop of the recompression: go up while the parent is plain. */
  method ClimbPlain(ts0: seq<Frame>, h0: Node) returns (ts: seq<Frame>, h: Node)
    requires WfStack(ts0) && Wf(h0) && Plain(h0)
    ensures (ts, h) == Climb(ts0, h0)
    ensures WfStack(ts) && Wf(h) && Plain(h) && ts <= ts0
    ensures Plug(ts, h) == Plug(ts0, h0)
    ensures ts != [] ==> !Plain(ts[|ts| - 1].node)
  {
    ts, h := ts0, h0;
    while ts != [] && Plain(ts[|ts| - 1].node)
      invariant ts <= ts0 && WfStack(ts) && Wf(h) && Plain(h)
      invariant Plug(ts, h) == Plug(ts0, h0) && Climb(ts, h) == Climb(ts0, h0)
      decreases |ts|
    {
      h, ts := Put(ts[|ts| - 1], h), ts[..|ts| - 1];
    }
  }

  /** The bytes on the chain of plain nodes from n down, how many nodes it has, and the
      node it leads to. */
  ghost function ChainKey(n: Node): Key
    requires Wf(n) && Plain(n)
  {
    n.chars + if Plain(n.kids[0]) then ChainKey(n.kids[0]) else []
  }

  ghost function ChainNodes(n: Node): nat
    requires Wf(n) && Plain(n)
  {
    1 + if Plain(n.kids[0]) then ChainNodes(n.kids[0]) else 0
  }

  ghost function ChainEnd(n: Node): Node
    requires Wf(n) && Plain(n)
  {
    if Plain(n.kids[0]) then ChainEnd(n.kids[0]) else n.kids[0]
  }

  /** The chain from n has a second node, and it fits with the first. */
  predicate Merges(n: Node)
    requires |n.kids| == 1
  {
    Plain(n.kids[0]) && |n.chars| + |n.kids[0].chars| <= RAX_NODE_MAX_SIZE
  }

  /** How many bytes of the chain are counted: those of n, on top of c, and of every further
      node until the next one would not fit. */
  ghost function CountFrom(n: Node, c: nat): (r: nat)
    requires Wf(n) && Plain(n) && |n.chars| <= c <= RAX_NODE_MAX_SIZE
    ensures c <= r <= RAX_NODE_MAX_SIZE && r <= c - |n.chars| + |ChainKey(n)|
    ensures r == c - |n.chars| + |ChainKey(n)| <==> c - |n.chars| + |ChainKey(n)| <= RAX_NODE_MAX_SIZE
  {
    var k := n.kids[0];
    if Plain(k) && c + |k.chars| <= RAX_NODE_MAX_SIZE then CountFrom(k, c + |k.chars|) else c
  }

  ghost function Counted(n: Node): (r: nat)
    requires Wf(n) && Plain(n)
    ensures |n.chars| <= r <= RAX_NODE_MAX_SIZE && r <= |ChainKey(n)|
    ensures r == |ChainKey(n)| <==> |ChainKey(n)| <= RAX_NODE_MAX_SIZE
  {
    CountFrom(n, |n.chars|)
  }

  /** The node that takes the place of a chain. Its size is what was counted. */
  ghost function Merged(n: Node): Node
    requires Wf(n) && Plain(n)
  {
    Node(Absent, true, ChainKey(n)[..Counted(n)], [ChainEnd(n)])
  }

  /** The counting scan: how many nodes of the chain that starts here are counted, and how
      many bytes the merged node is given. That is the whole chain exactly when the chain
      fits in a node. */
  method CountChain(start: Node) returns (nodes: nat, comprsize: nat)
    requires Wf(start) && Plain(start)
    ensures nodes > 1 <==> Merges(start)
    ensures comprsize == Counted(start) <= |ChainKey(start)|
    ensures comprsize == |ChainKey(start)| <==> |ChainKey(start)| <= RAX_NODE_MAX_SIZE
    ensures comprsize == |ChainKey(start)| ==> nodes == ChainNodes(start)
  {
    var h := start;
    nodes, comprsize := 1, |start.chars|;
    while h.chars != []
      invariant Wf(h) && Plain(h) && nodes >= 1 && |start.chars| <= comprsize <= RAX_NODE_MAX_SIZE
      invariant |h.chars| <= comprsize && CountFrom(h, comprsize) == Counted(start)
      invariant comprsize + |ChainKey(h)| == |ChainKey(start)| + |h.chars|
      invariant nodes + ChainNodes(h) == ChainNodes(start) + 1
      invariant nodes == 1 ==> h == start && comprsize == |start.chars|
      invariant nodes > 1 ==> Merges(start)
      decreases h
    {
      h := h.kids[0];
      if !Plain(h) { break; }
      if comprsize + |h.chars| > RAX_NODE_MAX_SIZE { break; }
      nodes, comprsize := nodes + 1, comprsize + |h.chars|;
    }
  }

  /** The rewriting scan: one compressed node in place of the whole chain. It writes all
      the bytes of the chain, whatever was counted; of those, the node keeps its size. */
  method MergeChain(start: Node, comprsize: nat) returns (n: Node, freed: nat, written: nat)
    requires Wf(start) && Plain(start) && Merges(start) && comprsize == Counted(start)
    ensures n == Merged(start) && freed == ChainNodes(start) && written == |ChainKey(start)|
  {
    hide ChainKey, ChainNodes, ChainEnd, Shape, Counted;
    var chars: Key := [];
    var h := start;
    freed := 0;
    assert chars + ChainKey(h) == ChainKey(h);
    ChainStep(start);
    while h.chars != []
      invariant Wf(h) && Plain(h) && h.chars != []
      invariant chars + ChainKey(h) == ChainKey(start) && freed + ChainNodes(h) == ChainNodes(start)
      invariant ChainEnd(h) == ChainEnd(start)
      decreases h
    {
      ChainStep(h);
      assert chars + (h.chars + ChainKey'(h.kids[0])) == chars + h.chars + ChainKey'(h.kids[0]);
      chars := chars + h.chars;
      h, freed := h.kids[0], freed + 1;
      if !Plain(h) { break; }
      ChainStep(h);
    }
    n, written := Node(Absent, true, chars[..comprsize], [h]), |chars|;
  }

  /** What of the chain lies below a node. */
  ghost function ChainKey'(n: Node): Key
    requires Wf(n)
  {
    if Plain(n) then ChainKey(n) else []
  }

  lemma ChainStep(n: Node)
    requires Wf(n) && Plain(n)
    ensures |n.kids| == 1 && Wf(n.kids[0]) && KeyLeaf(n.kids[0]) && n.chars != []
    ensures ChainKey(n) == n.chars + ChainKey'(n.kids[0])
    ensures ChainNodes(n) == 1 + (if Plain(n.kids[0]) then ChainNodes(n.kids[0]) else 0)
    ensures ChainEnd(n) == if Plain(n.kids[0]) then ChainEnd(n.kids[0]) else n.kids[0]
  {
  }

  /** The node is well formed whatever was counted, and has the chain's node count; it lists
      what is below the chain, on an edge of the bytes counted. */
  lemma MergedFacts(p: Key, n: Node)
    requires Wf(n) && Plain(n) && Merges(n)
    ensures Wf(Merged(n)) && Plain(Merged(n)) && !Plain(ChainEnd(n))
    ensures Wf(ChainEnd(n)) && KeyLeaf(ChainEnd(n))
    ensures At(p, n) == At(p + ChainKey(n), ChainEnd(n))
    ensures At(p, Merged(n)) == At(p + ChainKey(n)[..Counted(n)], ChainEnd(n))
    ensures Nodes(Merged(n)) + ChainNodes(n) == Nodes(n) + 1 && ChainNodes(n) >= 1
  {
    hide At, Nodes, ChainKey, ChainEnd, ChainNodes, CountFrom;
    var cs, m := ChainKey(n)[..Counted(n)], Merged(n);
    ChainEntries(p, n);
    CountsTwo(n);
    assert m == Link(Absent, cs, ChainEnd(n));
    LinkEntries(p, Absent, cs, ChainEnd(n));
    assert Own(p, m) == [];
  }

  lemma CountsTwo(n: Node)
    requires Wf(n) && Plain(n) && Merges(n)
    ensures Counted(n) >= 2
  {
    assert CountFrom(n.kids[0], |n.chars| + |n.kids[0].chars|) >= |n.chars| + |n.kids[0].chars|;
  }

  // ------------------------------------------------------- after the key is gone

  /** Where the recompression starts, if it is tried. */
  ghost function Start(ts: seq<Frame>, h: Node): Option<(seq<Frame>, Node)>
    requires WfStack(ts) && Wf(h) && h.slot.Absent?
  {
    if h.chars == [] then
      if ts == [] then None
      else
        var (t, n) := Branch(ts);
        if |n.chars| == 1 && n.slot.Absent? then Some(Climb(t, n)) else None
    else if |h.chars| == 1 then Some(Climb(ts, h))
    else None
  }

  /** The place that raxRemove leaves, in a tree whose key at h was taken away. */
  ghost function Removal(ts: seq<Frame>, h: Node): (seq<Frame>, Node)
    requires WfStack(ts) && Wf(h) && h.slot.Absent?
  {
    StartPlain(ts, h);
    match Start(ts, h)
    case None => if h.chars == [] && ts != [] then Branch(ts) else (ts, h)
    case Some(q) => if Merges(q.1) then (q.0, Merged(q.1)) else q
  }

  /** The rewriting scan writes more bytes than the counting scan counted. */
  ghost predicate Overruns(ts: seq<Frame>, h: Node)
    requires WfStack(ts) && Wf(h) && h.slot.Absent?
  {
    StartPlain(ts, h);
    Start(ts, h).Some? && var n := Start(ts, h).value.1;
    Merges(n) && |ChainKey(n)| > RAX_NODE_MAX_SIZE
  }

  lemma {:induction false} BranchWf(ts: seq<Frame>)
    requires WfStack(ts) && ts != []
    ensures WfStack(Branch(ts).0) && Wf(Branch(ts).1) && Branch(ts).0 <= ts
    decreases |ts|
  {
    var init, fr := ts[..|ts| - 1], ts[|ts| - 1];
    if Plain(fr.node) && init != [] { BranchWf(init); } else { RemoveChildWf(fr); }
  }

  lemma {:induction false} ClimbWf(ts: seq<Frame>, h: Node)
    requires WfStack(ts) && Wf(h) && Plain(h)
    ensures var q := Climb(ts, h); WfStack(q.0) && Wf(q.1) && Plain(q.1) && q.0 <= ts
    ensures var q := Climb(ts, h); q.0 != [] ==> !Plain(q.0[|q.0| - 1].node)
    decreases |ts|
  {
    if ts != [] && Plain(ts[|ts| - 1].node) { ClimbWf(ts[..|ts| - 1], Put(ts[|ts| - 1], h)); }
  }

  lemma StartPlain(ts: seq<Frame>, h: Node)
    requires WfStack(ts) && Wf(h) && h.slot.Absent?
    ensures Start(ts, h).Some? ==> var q := Start(ts, h).value;
              WfStack(q.0) && Wf(q.1) && Plain(q.1) && |q.1.kids| == 1 && (q.0 != [] ==> !Plain(q.0[|q.0| - 1].node))
  {
    hide Climb, Branch;
    if h.chars == [] {
      if ts != [] {
        BranchWf(ts);
        var (t, n) := Branch(ts);
        if |n.chars| == 1 && n.slot.Absent? { ClimbWf(t, n); }
      }
    } else if |h.chars| == 1 {
      ClimbWf(ts, h);
    }
  }

  /** The place in the tree whose chain is merged, when more is written than was counted. */
  ghost function Overrun(ts: seq<Frame>, h: Node): (q: (seq<Frame>, Node))
    requires WfStack(ts) && Wf(h) && h.slot.Absent? && Overruns(ts, h)
    ensures WfStack(q.0) && Wf(q.1) && Plain(q.1) && Merges(q.1)
  {
    StartPlain(ts, h);
    Start(ts, h).value
  }

  /** The part of raxRemove after the key is gone: clean-up and recompression. All entries
      are kept unless the merged chain is longer than what was counted for its node; then
      the keys below lose the bytes that were not counted. */
  method RemoveAt(ts0: seq<Frame>, h0: Node) returns (ts: seq<Frame>, h: Node, gone: nat, overrun: bool)
    requires WfStack(ts0) && Wf(h0) && h0.slot.Absent?
    ensures (ts, h) == Removal(ts0, h0) && (overrun <==> Overruns(ts0, h0))
    ensures WfStack(ts) && Wf(h) && (ts != [] ==> KeyLeaf(h))
    ensures Nodes(Plug(ts0, h0)) == Nodes(Plug(ts, h)) + gone
    ensures !overrun ==> At([], Plug(ts, h)) == At([], Plug(ts0, h0))
    ensures overrun ==> var q := Overrun(ts0, h0);
              At([], Plug(ts0, h0)) == At([], Plug(q.0, q.1)) && (ts, h) == (q.0, Merged(q.1)) && |ChainKey(q.1)| > Counted(q.1)
  {
    hide At, Nodes, Plug, Path, Climb, Branch, ChainKey, ChainNodes, ChainEnd, Counted, Merged;
    StartPlain(ts0, h0);
    ts, h, gone, overrun := ts0, h0, 0, false;
    var trycompress := |h.chars| == 1;
    if h.chars == [] && ts != [] {
      ts, h, gone := FreeBranch(ts, h);
      trycompress := |h.chars| == 1 && h.slot.Absent?;
    }
    if trycompress {
      ts, h := ClimbPlain(ts, h);
      var nodes, comprsize := CountChain(h);
      if nodes > 1 {
        var n, freed, written := MergeChain(h, comprsize);
        overrun := written > comprsize;
        ghost var start := h;
        MergedSwap(ts, h);
        h, gone := n, gone + (freed - 1);
      }
    }
  }

  /** The merged node in the place of its chain. */
  lemma MergedSwap(ts: seq<Frame>, n: Node)
    requires WfStack(ts) && Wf(n) && Plain(n) && Merges(n)
    ensures Wf(Merged(n)) && KeyLeaf(Merged(n)) && ChainNodes(n) >= 1
    ensures Nodes(Plug(ts, n)) == Nodes(Plug(ts, Merged(n))) + (ChainNodes(n) - 1)
    ensures Counted(n) == |ChainKey(n)| ==> At([], Plug(ts, Merged(n))) == At([], Plug(ts, n))
  {
    hide At, Nodes, Plug, Path, ChainKey, ChainEnd, ChainNodes, Counted;
    MergedFacts(Path(ts), n);
    PlugEntries(ts, n);
    PlugEntries(ts, Merged(n));
    if Counted(n) == |ChainKey(n)| { assert ChainKey(n)[..Counted(n)] == ChainKey(n); }
  }

  // ------------------------------------------------- what an overrun does to the keys

  /** fs are the entries es, below path q and not p. */
  ghost predicate Rebased(es: seq<Entry>, fs: seq<Entry>, p: Key, q: Key) {
    |es| == |fs| && forall i {:trigger Moved(es[i], fs[i], p, q)} :: 0 <= i < |es| ==> Moved(es[i], fs[i], p, q)
  }

  ghost predicate Moved(e: Entry, f: Entry, p: Key, q: Key) {
    p <= e.0 && f == (q + e.0[|p|..], e.1)
  }

  lemma MovedBelow(e: Entry, f: Entry, p: Key, q: Key, l: Key)
    requires Moved(e, f, p + l, q + l)
    ensures Moved(e, f, p, q)
  {
    assert p <= e.0 by { assert p <= p + l; }
    assert e.0 == (p + l) + e.0[|p + l|..];
    assert e.0[|p|..] == l + e.0[|p + l|..];
    assert f.0 == q + e.0[|p|..];
  }

  lemma {:induction false} AtRebased(p: Key, q: Key, n: Node)
    ensures Rebased(At(p, n), At(q, n), p, q)
    decreases n, |n.kids| + 1
  {
    hide Kids;
    KidsRebased(p, q, n, 0, |n.kids|);
    assert q + p[|p|..] == q;
    assert Rebased(Own(p, n), Own(q, n), p, q);
    Both(Own(p, n), Own(q, n), Kids(p, n, 0, |n.kids|), Kids(q, n, 0, |n.kids|), p, q);
  }

  lemma Both(a: seq<Entry>, a': seq<Entry>, b: seq<Entry>, b': seq<Entry>, p: Key, q: Key)
    requires Rebased(a, a', p, q) && Rebased(b, b', p, q)
    ensures Rebased(a + b, a' + b', p, q)
  {
    hide Moved;
  }

  lemma {:induction false} KidsRebased(p: Key, q: Key, n: Node, lo: nat, hi: nat)
    requires lo <= hi <= |n.kids|
    ensures Rebased(Kids(p, n, lo, hi), Kids(q, n, lo, hi), p, q)
    decreases n, hi - lo
  {
    hide At, Moved;
    if lo < hi {
      var l := Label(n, lo);
      AtRebased(p + l, q + l, n.kids[lo]);
      KidsRebased(p, q, n, lo + 1, hi);
      var a, a' := At(p + l, n.kids[lo]), At(q + l, n.kids[lo]);
      forall i | 0 <= i < |a| ensures Moved(a[i], a'[i], p, q) {
        assert Moved(a[i], a'[i], p + l, q + l);
        MovedBelow(a[i], a'[i], p, q, l);
      }
      Both(a, a', Kids(p, n, lo + 1, hi), Kids(q, n, lo + 1, hi), p, q);
    }
  }

  lemma {:induction false} Longest(es: seq<Entry>) returns (i: nat)
    requires es != []
    ensures i < |es| && forall k :: 0 <= k < |es| ==> |es[k].0| <= |es[i].0|
  {
    i := |es| - 1;
    if |es| > 1 {
      var j := Longest(es[..i]);
      if |es[j].0| > |es[i].0| { i := j; }
    }
  }

  /** The keys below the chain are shortened by what was not counted, so that the longest
      of them is a key no more. */
  lemma OverrunLoses(ts: seq<Frame>, n: Node) returns (k: Key)
    requires WfStack(ts) && Wf(n) && Plain(n) && Merges(n) && |ChainKey(n)| > Counted(n)
    ensures var p, q := Path(ts) + ChainKey(n), Path(ts) + ChainKey(n)[..Counted(n)];
            && At([], Plug(ts, n)) == Before(ts) + At(p, ChainEnd(n)) + After(ts)
            && At([], Plug(ts, Merged(n))) == Before(ts) + At(q, ChainEnd(n)) + After(ts)
            && Rebased(At(p, ChainEnd(n)), At(q, ChainEnd(n)), p, q)
    ensures |k| > RAX_NODE_MAX_SIZE && HasKey(At([], Plug(ts, n)), k) && !HasKey(At([], Plug(ts, Merged(n))), k)
  {
    hide At, Nodes, Plug, Path, ChainKey, ChainEnd, ChainNodes, Counted, Before, After, Rebased, Less;
    var p, q := Path(ts) + ChainKey(n), Path(ts) + ChainKey(n)[..Counted(n)];
    MergedFacts(Path(ts), n);
    PlugEntries(ts, n);
    PlugEntries(ts, Merged(n));
    CutEntries(ts, n);
    AtRebased(p, q, ChainEnd(n));
    HasEntries(p, ChainEnd(n));
    k := Shortened(Before(ts), At(p, ChainEnd(n)), At(q, ChainEnd(n)), After(ts), p, q);
  }

  lemma Shortened(b: seq<Entry>, m: seq<Entry>, m': seq<Entry>, a: seq<Entry>, p: Key, q: Key) returns (k: Key)
    requires m != [] && Rebased(m, m', p, q) && |q| < |p| && Distinct(b + m + a)
    ensures |k| >= |p| && HasKey(b + m + a, k) && !HasKey(b + m' + a, k)
  {
    var i := Longest(m);
    k := m[i].0;
    assert Moved(m[i], m'[i], p, q);
    var old_, new_ := b + m + a, b + m' + a;
    assert old_[|b| + i] == m[i];
    forall j | 0 <= j < |new_| ensures new_[j].0 != k {
      if |b| <= j < |b| + |m| {
        assert Moved(m[j - |b|], m'[j - |b|], p, q);
      } else {
        assert new_[j] == old_[j];
      }
    }
  }

  lemma {:induction false} ChainEntries(p: Key, n: Node)
    requires Wf(n) && Plain(n)
    ensures At(p, n) == At(p + ChainKey(n), ChainEnd(n)) && Wf(ChainEnd(n)) && KeyLeaf(ChainEnd(n))
    ensures !Plain(ChainEnd(n)) && Nodes(n) == ChainNodes(n) + Nodes(ChainEnd(n)) && ChainNodes(n) >= 1
    decreases n
  {
    hide At, Nodes;
    PlainEntries(p, n);
    if Plain(n.kids[0]) {
      ChainEntries(p + n.chars, n.kids[0]);
      assert p + n.chars + ChainKey(n.kids[0]) == p + (n.chars + ChainKey(n.kids[0]));
    } else {
      assert p + (n.chars + []) == p + n.chars;
    }
  }

  /** The node without its value. */
  function Cleared(h: Node): Node { h.(slot := Absent) }

  /** The tree with a merged node of too few bytes has as many entries, but not the same. */
  lemma LostKey(was: Node, ts: seq<Frame>, n: Node)
    requires WfStack(ts) && Wf(n) && Plain(n) && Merges(n) && |ChainKey(n)| > Counted(n)
    requires At([], was) == At([], Plug(ts, n))
    ensures |At([], Plug(ts, Merged(n)))| == |At([], was)|
    ensures exists k :: k in MapOf(At([], was)) && k !in MapOf(At([], Plug(ts, Merged(n)))) && |k| > RAX_NODE_MAX_SIZE
  {
    hide At, Plug, ChainKey, ChainEnd, Counted, MapOf, Before, After, Path, Moved;
    var k := OverrunLoses(ts, n);
    MapOfKeys(At([], was), k);
    MapOfKeys(At([], Plug(ts, Merged(n))), k);
  }

  // -------------------------------------------------------------- the whole step

  /** Taking the value away from a node. */
  lemma ClearSlot(ts: seq<Frame>, f: Node, s: Key)
    requires WfStack(ts) && Wf(f) && Path(ts) == s && f.slot.Present?
    ensures Nodes(Plug(ts, f.(slot := Absent))) == Nodes(Plug(ts, f))
    ensures var es, es' := At([], Plug(ts, f)), At([], Plug(ts, f.(slot := Absent)));
            && s in MapOf(es) && MapOf(es)[s] == f.slot.data
            && MapOf(es') == MapOf(es) - {s} && |es'| == |es| - 1
  {
    hide At, Kids, Nodes, Plug, Path, Before, After, MapOf, Less;
    var g := f.(slot := Absent);
    CutEntries(ts, f);
    PlugEntries(ts, f);
    PlugEntries(ts, g);
    SlotEntries(s, f, g);
    var b, m, a := Before(ts), Kids(s, f, 0, |f.kids|), After(ts);
    assert At(s, g) == m;
    assert b + ([(s, f.slot.data)] + m) + a == b + [(s, f.slot.data)] + (m + a);
    assert b + m + a == b + (m + a);
    MapInsert(b, (s, f.slot.data), m + a);
  }
}
