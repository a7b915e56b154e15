/** When removal and insertion leave no chain of nodes that could be merged, and inputs on
    which they leave one. */
module RaxTight {
  import opened Common
  import opened RaxTree
  import opened RaxContents
  import opened RaxRemove
  import opened RaxInsert

  /** No plain node has a plain child: no chain is left to merge. */
  predicate Tight(n: Node) {
    forall k :: 0 <= k < |n.kids| ==> Tight(n.kids[k]) && !(Plain(n) && Plain(n.kids[k]))
  }

  predicate TightKids(n: Node) {
    forall k :: 0 <= k < |n.kids| ==> Tight(n.kids[k])
  }

  /** The same for everything but the subtree at the bottom of the stack. */
  predicate TightStack(ts: seq<Frame>) {
    && (forall i :: 0 <= i < |ts| ==> TightFrame(ts[i]))
    && (forall i :: 0 <= i < |ts| - 1 ==> !(Plain(ts[i].node) && Plain(ts[i + 1].node)))
  }

  predicate TightFrame(fr: Frame) {
    forall k :: 0 <= k < |fr.node.kids| && k != fr.idx ==> Tight(fr.node.kids[k]) && !(Plain(fr.node) && Plain(fr.node.kids[k]))
  }

  predicate Joins(ts: seq<Frame>, f: Node) {
    ts != [] && Plain(ts[|ts| - 1].node) && Plain(f)
  }

  lemma PutTight(fr: Frame, f: Node)
    requires fr.idx < |fr.node.kids|
    ensures Tight(Put(fr, f)) <==> TightFrame(fr) && Tight(f) && !(Plain(fr.node) && Plain(f))
  {
    var n, n' := fr.node, Put(fr, f);
    assert forall k :: 0 <= k < |n.kids| && k != fr.idx ==> n'.kids[k] == n.kids[k];
    assert n'.kids[fr.idx] == f && Plain(n') == Plain(n);
  }

  lemma {:induction false} PlugTight(ts: seq<Frame>, f: Node)
    requires WfStack(ts)
    ensures Tight(Plug(ts, f)) <==> TightStack(ts) && Tight(f) && !Joins(ts, f)
    decreases |ts|
  {
    hide Tight, TightFrame;
    if ts != [] {
      var init, fr := ts[..|ts| - 1], ts[|ts| - 1];
      PlugTight(init, Put(fr, f));
      PutTight(fr, f);
      assert Plain(Put(fr, f)) == Plain(fr.node);
      TightInit(ts);
    }
  }

  lemma TightInit(ts: seq<Frame>)
    requires ts != []
    ensures TightStack(ts) <==> TightStack(ts[..|ts| - 1]) && TightFrame(ts[|ts| - 1]) && !Joins(ts[..|ts| - 1], ts[|ts| - 1].node)
  {
    hide Tight, TightFrame, Plain;
    var init := ts[..|ts| - 1];
    if TightStack(ts) {
      forall i | 0 <= i < |init| ensures TightFrame(init[i]) { assert TightFrame(ts[i]); }
    }
    if TightStack(init) && TightFrame(ts[|ts| - 1]) && !Joins(init, ts[|ts| - 1].node) {
      forall i | 0 <= i < |ts| ensures TightFrame(ts[i]) {
        if i < |init| { assert TightFrame(init[i]); }
      }
      forall i | 0 <= i < |ts| - 1 ensures !(Plain(ts[i].node) && Plain(ts[i + 1].node)) {
        if i < |init| - 1 { assert !(Plain(init[i].node) && Plain(init[i + 1].node)); }
      }
    }
  }

  lemma TightPrefix(ts: seq<Frame>, us: seq<Frame>)
    requires TightStack(ts) && us <= ts
    ensures TightStack(us)
  {
  }

  // ------------------------------------------------------------------- chains

  /** Under a plain node with tight children, the chain ends in a tight node that is not
      plain. */
  lemma {:induction false} ChainTight(n: Node)
    requires Wf(n) && Plain(n) && TightKids(n)
    ensures Tight(ChainEnd(n)) && !Plain(ChainEnd(n))
    decreases n
  {
    assert Tight(n.kids[0]);
    if Plain(n.kids[0]) { ChainTight(n.kids[0]); }
  }

  lemma {:induction false} ClimbChain(ts: seq<Frame>, h: Node)
    requires WfStack(ts) && Wf(h) && Plain(h)
    ensures var q := Climb(ts, h); Wf(q.1) && Plain(q.1) && ChainEnd(q.1) == ChainEnd(h)
    ensures var q := Climb(ts, h); q == (ts, h) || Plain(q.1.kids[0])
    ensures var q := Climb(ts, h); Plug(q.0, q.1) == Plug(ts, h)
    decreases |ts|
  {
    ClimbWf(ts, h);
    if ts != [] && Plain(ts[|ts| - 1].node) {
      var fr := ts[|ts| - 1];
      ClimbChain(ts[..|ts| - 1], Put(fr, h));
      assert Put(fr, h).kids[0] == h;
    }
  }

  /** What the recompression makes of the top of a chain. */
  ghost function Rewritten(n: Node): Node
    requires Wf(n) && Plain(n) && |n.kids| == 1
  {
    if Merges(n) then Merged(n) else n
  }

  /** The first two nodes of the chain do not fit in one. */
  predicate Stuck(n: Node)
    requires |n.kids| == 1
  {
    Plain(n.kids[0]) && !Merges(n)
  }

  /** A merged chain, or a single plain node, below parents that are not plain. */
  lemma StartTight(ts: seq<Frame>, h: Node)
    requires WfStack(ts) && TightStack(ts) && Wf(h) && Plain(h) && TightKids(h)
    ensures var q := Climb(ts, h); WfStack(q.0) && Wf(q.1) && Plain(q.1) && |q.1.kids| == 1
    ensures var q := Climb(ts, h); Tight(Plug(q.0, Rewritten(q.1))) <==> !Stuck(q.1)
  {
    hide Tight, TightStack, TightKids, TightFrame, ChainKey, ChainEnd, Climb, Counted;
    var q := Climb(ts, h);
    ClimbWf(ts, h);
    ClimbChain(ts, h);
    ChainTight(h);
    TightPrefix(ts, q.0);
    var n := Rewritten(q.1);
    if Merges(q.1) {
      OneKid(n, ChainEnd(q.1));
    } else if Stuck(q.1) {
      PairNotTight(n);
    } else {
      assert q == (ts, h);
      OnlyTightKid(h);
    }
    PlugTight(q.0, n);
  }

  lemma PairNotTight(n: Node)
    requires n.kids != [] && Plain(n) && Plain(n.kids[0])
    ensures !Tight(n)
  {
  }

  lemma OneKid(n: Node, k: Node)
    requires n.kids == [k] && Tight(k) && !Plain(k)
    ensures Tight(n)
  {
  }

  lemma OnlyTightKid(n: Node)
    requires TightKids(n) && |n.kids| == 1 && !Plain(n.kids[0])
    ensures Tight(n)
  {
    assert Tight(n.kids[0]);
  }

  // ------------------------------------------------------------------ the theorem

  /** A key at a compressed node beside a plain node: the only case that is not retried. */
  predicate LeavesPair(ts: seq<Frame>, h: Node) {
    h.compr && ((h.kids != [] && Plain(h.kids[0])) || Joins(ts, h))
  }

  lemma {:induction false} BranchTight(ts: seq<Frame>)
    requires WfStack(ts) && ts != [] && TightStack(ts)
    ensures TightKids(Branch(ts).1) && !Branch(ts).1.compr && Branch(ts).0 <= ts
    decreases |ts|
  {
    var init, fr := ts[..|ts| - 1], ts[|ts| - 1];
    if Plain(fr.node) && init != [] {
      TightInit(ts);
      BranchTight(init);
    } else {
      var n := RemoveChild(fr.node, fr.idx);
      assert TightFrame(fr);
      forall k | 0 <= k < |n.kids| ensures Tight(n.kids[k]) {
        assert n.kids[k] == fr.node.kids[if k < fr.idx then k else k + 1];
      }
    }
  }

  /** The recompression is tried, and the first two nodes of the chain do not fit in one. */
  ghost predicate StaysStuck(ts: seq<Frame>, h: Node)
    requires WfStack(ts) && Wf(h) && h.slot.Absent?
  {
    StartPlain(ts, h);
    Start(ts, h).Some? && Stuck(Start(ts, h).value.1)
  }

  /** Taking away the key at h from a tree without mergeable chains: a pair of plain nodes is
      left exactly when h is a compressed node beside a plain one, or when the pair is too
      long for a node. */
  lemma RemovalTight(ts: seq<Frame>, h: Node)
    requires WfStack(ts) && Wf(h) && h.slot.Present? && Tight(Plug(ts, h))
    ensures var q := Removal(ts, Cleared(h));
            Tight(Plug(q.0, q.1)) <==> !LeavesPair(ts, Cleared(h)) && !StaysStuck(ts, Cleared(h))
  {
    hide At, Plug, Tight, TightStack, Climb, Branch, ChainKey, ChainEnd, Counted;
    var h0 := Cleared(h);
    PlugTight(ts, h);
    ClearedTight(h);
    StartPlain(ts, h0);
    if |h.chars| == 1 {
      StartTight(ts, h0);
    } else if h.chars == [] && ts != [] {
      LeafTight(ts, h0);
    } else {
      PlugTight(ts, h0);
    }
  }

  lemma ClearedTight(h: Node)
    requires Wf(h) && h.slot.Present? && Tight(h)
    ensures TightKids(Cleared(h)) && Wf(Cleared(h))
    ensures h.compr ==> |h.kids| == 1 && (Tight(Cleared(h)) <==> !Plain(h.kids[0]))
    ensures !h.compr && |h.chars| != 1 ==> Tight(Cleared(h)) && !Plain(Cleared(h))
  {
    assert forall k :: 0 <= k < |h.kids| ==> Tight(h.kids[k]);
  }

  lemma LeafTight(ts: seq<Frame>, h: Node)
    requires WfStack(ts) && ts != [] && TightStack(ts) && h == EMPTY_NODE
    ensures var q := Removal(ts, h); Tight(Plug(q.0, q.1)) <==> !StaysStuck(ts, h)
  {
    hide At, Plug, Tight, TightStack, Climb, Branch, ChainKey, ChainEnd, TightKids, Counted;
    StartPlain(ts, h);
    BranchWf(ts);
    BranchTight(ts);
    var (t, n) := Branch(ts);
    TightPrefix(ts, t);
    if |n.chars| == 1 && n.slot.Absent? {
      StartTight(t, n);
    } else {
      NotPlainTight(n);
      PlugTight(t, n);
    }
  }

  lemma NotPlainTight(n: Node)
    requires TightKids(n) && !Plain(n)
    ensures Tight(n)
  {
  }

  // -------------------------------------------------------------------- insertion

  /** What an insertion that stops at h must not do: give the part of an edge that it cuts
      off a node of its own above another plain node, or spell the missing bytes in two
      plain nodes in a row. */
  predicate InsertsTight(h: Node, j: nat, rest: Key) {
    if j >= |rest| then true
    else if h.compr then
      && !(h.slot.Present? && j + 1 < |h.chars| && h.kids != [] && Plain(h.kids[0]))
      && |rest| - j - 1 <= RAX_NODE_MAX_SIZE
    else if h.chars != [] then |rest| - 1 <= RAX_NODE_MAX_SIZE
    else |rest| <= (if h.slot.Present? then 2 * RAX_NODE_MAX_SIZE else RAX_NODE_MAX_SIZE)
  }

  lemma LeafIsTight(v: Ptr)
    ensures Tight(Leaf(v)) && !Plain(Leaf(v))
  {
  }

  lemma OneKidIff(n: Node)
    requires |n.kids| == 1
    ensures Tight(n) <==> Tight(n.kids[0]) && !(Plain(n) && Plain(n.kids[0]))
  {
  }

  /** New nodes on their own: one plain node, or too many. */
  lemma TailTight(rest: Key, v: Ptr)
    requires rest != []
    ensures Plain(Grow(EMPTY_NODE, rest, Leaf(v)))
    ensures Tight(Grow(EMPTY_NODE, rest, Leaf(v))) <==> |rest| <= RAX_NODE_MAX_SIZE
  {
    var g := Grow(EMPTY_NODE, rest, Leaf(v));
    LeafIsTight(v);
    TailNode(rest, Leaf(v));
    OneKidIff(g);
    if |rest| > RAX_NODE_MAX_SIZE { TailNode(rest[RAX_NODE_MAX_SIZE..], Leaf(v)); }
  }

  lemma TailNode(rest: Key, leaf: Node)
    requires rest != []
    ensures var g, n := Grow(EMPTY_NODE, rest, leaf), if |rest| <= RAX_NODE_MAX_SIZE then |rest| else RAX_NODE_MAX_SIZE;
            Plain(g) && g.kids == [Grow(EMPTY_NODE, rest[n..], leaf)] && (n == |rest| ==> g.kids == [leaf])
  {
  }

  lemma SubTight(rest: Key, v: Ptr)
    ensures var g := Grow(EMPTY_NODE, rest, Leaf(v));
            (Tight(g) <==> |rest| <= RAX_NODE_MAX_SIZE) && (Plain(g) <==> rest != [])
  {
    if rest == [] { LeafIsTight(v); } else { TailTight(rest, v); }
  }

  /** A child on one more edge. */
  lemma WithChildTight(n: Node, c: Byte, child: Node)
    requires |n.kids| == |n.chars| && !n.compr && n.chars != [] && TightKids(n)
    ensures !Plain(WithChild(n, c, child)) && (Tight(WithChild(n, c, child)) <==> Tight(child))
  {
    hide Tight, Below;
    var n', pos := WithChild(n, c, child), Below(n.chars, c);
    Inserted(n.kids, pos, child);
    if Tight(child) {
      forall k | 0 <= k < |n'.kids| ensures Tight(n'.kids[k]) {
        if k < pos { assert n'.kids[k] == n.kids[k]; } else if k > pos { assert n'.kids[k] == n.kids[k - 1]; }
      }
      NotPlainTight(n');
    } else {
      KidNotTight(n', pos);
    }
  }

  lemma KidNotTight(n: Node, k: nat)
    requires k < |n.kids| && !Tight(n.kids[k])
    ensures !Tight(n)
  {
  }

  /** h grown by the rest of the string. */
  lemma GrownTight(h: Node, rest: Key, v: Ptr)
    requires Wf(h) && !h.compr && TightKids(h) && rest != [] && |h.kids| == |h.chars|
    ensures var g := Grow(h, rest, Leaf(v));
            && (Plain(g) ==> h.chars == [] && h.slot.Absent?)
            && (Tight(g) <==> if h.chars != [] then |rest| - 1 <= RAX_NODE_MAX_SIZE
                              else |rest| <= (if h.slot.Present? then 2 * RAX_NODE_MAX_SIZE else RAX_NODE_MAX_SIZE))
  {
    hide Tight, Wf, TightKids;
    var n := PieceLen(h, rest);
    SubTight(rest[n..], v);
    if h.chars != [] {
      WithChildTight(h, rest[0], Grow(EMPTY_NODE, rest[n..], Leaf(v)));
    } else {
      OneKidIff(Grow(h, rest, Leaf(v)));
    }
  }

  lemma KidsAreTight(h: Node)
    requires Tight(h)
    ensures TightKids(h) && (Plain(h) && h.kids != [] ==> !Plain(h.kids[0]))
  {
  }

  lemma SameKidsTight(h: Node, h': Node)
    requires TightKids(h) && h'.kids == h.kids && !Plain(h')
    ensures Tight(h')
  {
  }

  /** What is cut off behind byte j. */
  lemma PostfixTight(h: Node, j: nat)
    requires Wf(h) && h.compr && Tight(h) && j < |h.chars|
    ensures Tight(Postfix(h, j)) <==> !(h.slot.Present? && j + 1 < |h.chars| && Plain(h.kids[0]))
  {
    hide Tight, Wf;
    WfShape(h);
    KidsAreTight(h);
    if j + 1 < |h.chars| { OneKidIff(Postfix(h, j)); }
    TightKid(h);
  }

  lemma TightKid(h: Node)
    requires TightKids(h) && |h.kids| == 1
    ensures Tight(h.kids[0])
  {
  }

  /** Algorithm 1: the split node has two children and is not plain. */
  lemma SplitTight(ts: seq<Frame>, h: Node, j: nat, rest: Key, v: Ptr)
    requires WfStack(ts) && Wf(h) && h.compr && Tight(Plug(ts, h)) && j < |h.chars| && rest != []
    ensures Tight(Plug(SplitStack(ts, h, j), Grow(SplitNode(h, j), rest, Leaf(v)))) <==>
              !(h.slot.Present? && j + 1 < |h.chars| && Plain(h.kids[0])) && |rest| - 1 <= RAX_NODE_MAX_SIZE
  {
    hide Tight, TightStack, Plug, Grow, Postfix;
    PlugTight(ts, h);
    PostfixTight(h, j);
    var split := SplitNode(h, j);
    var g := Grow(split, rest, Leaf(v));
    SplitGrown(h, j, rest, v);
    if j == 0 {
      PlugTight(ts, g);
    } else {
      var fr := Frame(Node(h.slot, j > 1, h.chars[..j], [Node(Absent, false, [h.chars[j]], [])]), 0);
      SplitFrame(h, j);
      Push(ts, fr, g);
      OneKidIff(Put(fr, g));
      PlugTight(ts, Put(fr, g));
    }
  }

  lemma SplitFrame(h: Node, j: nat)
    requires Wf(h) && h.compr && 0 < j < |h.chars|
    ensures WfFrame(Frame(Node(h.slot, j > 1, h.chars[..j], [Node(Absent, false, [h.chars[j]], [])]), 0))
  {
  }

  lemma SplitGrown(h: Node, j: nat, rest: Key, v: Ptr)
    requires Wf(h) && h.compr && j < |h.chars| && rest != []
    ensures var g := Grow(SplitNode(h, j), rest, Leaf(v));
            !Plain(g) && (Tight(g) <==> Tight(Postfix(h, j)) && |rest| - 1 <= RAX_NODE_MAX_SIZE)
  {
    hide Tight, Postfix, Below;
    var split := SplitNode(h, j);
    var sub := Grow(EMPTY_NODE, rest[1..], Leaf(v));
    var g := Grow(split, rest, Leaf(v));
    assert g == WithChild(split, rest[0], sub);
    SubTight(rest[1..], v);
    if Tight(Postfix(h, j)) {
      OneTightKid(split);
      WithChildTight(split, rest[0], sub);
    } else {
      var pos := Below(split.chars, rest[0]);
      Inserted(split.kids, pos, sub);
      KidNotTight(g, if pos == 0 then 1 else 0);
    }
  }

  lemma OneTightKid(n: Node)
    requires |n.kids| == 1 && Tight(n.kids[0])
    ensures TightKids(n)
  {
  }

  /** Inserting into a tree without mergeable chains: none appears exactly when no piece of
      a cut edge comes to lie above a plain node, as it can below a key, and the bytes added
      fit. */
  lemma InsertionTight(ts: seq<Frame>, h: Node, j: nat, rest: Key, v: Ptr)
    requires WfStack(ts) && Wf(h) && (ts != [] ==> KeyLeaf(h)) && Stops(h, rest, j) && Tight(Plug(ts, h))
    ensures Tight(Insertion(ts, h, j, rest, v)) <==> InsertsTight(h, j, rest)
  {
    hide Tight, TightStack, Plug, Grow, Wf, TightKids, SplitStack, SplitNode;
    PlugTight(ts, h);
    KidsAreTight(h);
    WfShape(h);
    if j == |rest| && (!h.compr || j == 0) {
      SameKidsTight(h, h.(slot := Present(v)));
      PlugTight(ts, h.(slot := Present(v)));
    } else if h.compr && j < |rest| {
      SplitTight(ts, h, j, rest[j..], v);
    } else if h.compr {
      CutTight(ts, h, j, v);
    } else {
      GrownTight(h, rest, v);
      PlugTight(ts, Grow(h, rest, Leaf(v)));
    }
  }

  /** Algorithm 2: the lower part is a key. */
  lemma CutTight(ts: seq<Frame>, h: Node, j: nat, v: Ptr)
    requires WfStack(ts) && Wf(h) && h.compr && 0 < j < |h.chars| && Tight(Plug(ts, h))
    ensures Tight(Plug(ts, Link(h.slot, h.chars[..j], Link(Present(v), h.chars[j..], h.kids[0]))))
  {
    hide Tight, TightStack, Plug;
    PlugTight(ts, h);
    KidsAreTight(h);
    var low := Link(Present(v), h.chars[j..], h.kids[0]);
    SameKidsTight(h, low);
    OneKidIff(Link(h.slot, h.chars[..j], low));
    PlugTight(ts, Link(h.slot, h.chars[..j], low));
  }

  // ------------------------------------------------------------------- inputs

  const FOO: Key := [0x46, 0x4F, 0x4F]
  const BAR: Key := [0x42, 0x41, 0x52]
  const LEAF := Node(Present(2), false, [], [])

  /** The source's own example of a recompression (src/rax.c:1109-1118): FOO and FOOBAR are
      stored, and FOO is removed. FOO's node is the compressed node BAR, of size three, so
      that nothing is tried and FOO -> BAR stays two nodes. */
  lemma FooStays() returns (head: Node, ts: seq<Frame>, h: Node)
    ensures Place(head, ts, h) && Path(ts) == FOO && h.slot.Present? && Tight(head)
    ensures At([], head) == [(FOO, 1), (FOO + BAR, 2)]
    ensures Start(ts, Cleared(h)) == None && Removal(ts, Cleared(h)) == (ts, Cleared(h))
    ensures !Tight(Plug(ts, Cleared(h)))
  {
    h := Node(Present(1), true, BAR, [LEAF]);
    head := Node(Absent, true, FOO, [h]);
    ts := [Frame(head, 0)];
    assert Put(ts[0], h) == head && ts[..0] == [];
    OneChild([], head, h);
    OneChild(FOO, h, LEAF);
    NoKids(FOO + BAR, LEAF);
    assert Tight(LEAF) && Tight(h);
    var left := Put(ts[0], Cleared(h));
    assert Plug(ts, Cleared(h)) == left && left.kids[0] == Cleared(h);
    assert Plain(left) && Plain(left.kids[0]);
    assert [] + FOO == FOO;
  }

  lemma OneChild(p: Key, n: Node, k: Node)
    requires n.compr && n.kids == [k]
    ensures At(p, n) == Own(p, n) + At(p + n.chars, k)
  {
    assert Kids(p, n, 0, 1) == At(p + n.chars, k) + Kids(p, n, 1, 1);
  }

  /** A key above a compressed node CDE whose child is plain: inserting Z splits the node at
      its first byte, and DE comes to lie above the plain node F. */
  lemma PieceAbovePlain() returns (h: Node)
    ensures Wf(h) && Stops(h, [0x5A], 0) && Tight(h)
    ensures !Tight(Insertion([], h, 0, [0x5A], 3))
  {
    var low := Node(Absent, false, [0x46], [LEAF]);
    h := Node(Present(1), true, [0x43, 0x44, 0x45], [low]);
    assert Wf(LEAF) && Wf(low) && Tight(LEAF) && Tight(low);
    assert [h][..0] == [] && Plug([], h) == h;
    InsertionTight([], h, 0, [0x5A], 3);
  }
}
