/** The rewriting steps of raxGenericInsert: splitting a compressed node, adding
    children, and storing a value. Every step but the last keeps the entries. */
module RaxInsert {
  import opened Common
  import opened RaxTree
  import opened RaxContents

  /** A node with one child and the edge cs: compressed when cs is longer than
      one byte. */
  function Link(slot: Slot, cs: Key, child: Node): Node {
    Node(slot, |cs| > 1, cs, [child])
  }

  lemma LinkEntries(p: Key, slot: Slot, cs: Key, child: Node)
    requires cs != []
    ensures At(p, Link(slot, cs, child)) == Own(p, Link(slot, cs, child)) + At(p + cs, child)
    ensures Nodes(Link(slot, cs, child)) == 1 + Nodes(child)
    ensures Label(Link(slot, cs, child), 0) == cs
  {
    var n := Link(slot, cs, child);
    assert Label(n, 0) == cs;
    KidsAround(p, n, 0);
    assert [] + At(p + cs, child) + [] == At(p + cs, child);
  }

  lemma CompressedEntries(p: Key, h: Node)
    requires Shape(h) && h.compr
    ensures At(p, h) == Own(p, h) + At(p + h.chars, h.kids[0])
    ensures Nodes(h) == 1 + Nodes(h.kids[0])
  {
    assert h == Link(h.slot, h.chars, h.kids[0]);
    LinkEntries(p, h.slot, h.chars, h.kids[0]);
  }

  /** What follows byte j of a compressed node once byte j has a node of its own. */
  function Postfix(h: Node, j: nat): Node
    requires j < |h.chars| && |h.kids| == 1
  {
    if j + 1 < |h.chars| then Link(Absent, h.chars[j + 1..], h.kids[0]) else h.kids[0]
  }

  lemma PostfixEntries(p: Key, h: Node, j: nat)
    requires Wf(h) && h.compr && j < |h.chars|
    ensures At(p + h.chars[..j + 1], Postfix(h, j)) == At(p + h.chars, h.kids[0])
    ensures Nodes(Postfix(h, j)) == Nodes(h.kids[0]) + (if j + 1 < |h.chars| then 1 else 0)
    ensures Wf(Postfix(h, j)) && KeyLeaf(Postfix(h, j))
  {
    if j + 1 < |h.chars| {
      LinkEntries(p + h.chars[..j + 1], Absent, h.chars[j + 1..], h.kids[0]);
      assert p + h.chars[..j + 1] + h.chars[j + 1..] == p + h.chars;
    } else {
      assert h.chars[..j + 1] == h.chars;
    }
  }

  /** A node replaced by one with the same entries. */
  lemma SwapNode(ts: seq<Frame>, h: Node, h': Node)
    requires WfStack(ts) && At(Path(ts), h) == At(Path(ts), h')
    ensures At([], Plug(ts, h)) == At([], Plug(ts, h'))
    ensures Nodes(Plug(ts, h')) - Nodes(Plug(ts, h)) == Nodes(h') - Nodes(h)
  {
    PlugEntries(ts, h);
    PlugEntries(ts, h');
  }

  lemma Push(ts: seq<Frame>, fr: Frame, f: Node)
    requires WfStack(ts) && WfFrame(fr)
    ensures WfStack(ts + [fr])
    ensures Plug(ts + [fr], f) == Plug(ts, Put(fr, f))
    ensures Path(ts + [fr]) == Path(ts) + Label(fr.node, fr.idx)
  {
    assert (ts + [fr])[..|ts + [fr]| - 1] == ts;
  }

  /** The node that takes the place of byte j of h, below what is left of h. */
  function SplitNode(h: Node, j: nat): Node
    requires j < |h.chars| && |h.kids| == 1
  {
    Link(if j == 0 then h.slot else Absent, [h.chars[j]], Postfix(h, j))
  }

  function SplitTop(h: Node, j: nat): Node
    requires j < |h.chars| && |h.kids| == 1
  {
    if j == 0 then SplitNode(h, j) else Link(h.slot, h.chars[..j], SplitNode(h, j))
  }

  lemma SplitTopEntries(p: Key, h: Node, j: nat)
    requires Wf(h) && h.compr && j < |h.chars|
    ensures At(p, SplitTop(h, j)) == At(p, h)
    ensures Nodes(SplitTop(h, j)) == Nodes(h) + (if j > 0 then 1 else 0) + (if j + 1 < |h.chars| then 1 else 0)
  {
    var split := SplitNode(h, j);
    PostfixEntries(p, h, j);
    CompressedEntries(p, h);
    LinkEntries(p + h.chars[..j], split.slot, [h.chars[j]], Postfix(h, j));
    assert p + h.chars[..j] + [h.chars[j]] == p + h.chars[..j + 1];
    if j == 0 {
      assert p + h.chars[..j] == p;
    } else {
      LinkEntries(p, h.slot, h.chars[..j], split);
      assert Own(p + h.chars[..j], split) == [];
    }
  }

  function SplitStack(ts: seq<Frame>, h: Node, j: nat): seq<Frame>
    requires j < |h.chars| && |h.kids| == 1
  {
    if j == 0 then ts else ts + [Frame(Node(h.slot, j > 1, h.chars[..j], [Node(Absent, false, [h.chars[j]], [])]), 0)]
  }

  lemma SplitKeeps(ts: seq<Frame>, h: Node, j: nat)
    requires WfStack(ts) && Wf(h) && h.compr && j < |h.chars|
    ensures WfStack(SplitStack(ts, h, j)) && Wf(SplitNode(h, j))
    ensures Path(SplitStack(ts, h, j)) == Path(ts) + h.chars[..j]
    ensures At([], Plug(SplitStack(ts, h, j), SplitNode(h, j))) == At([], Plug(ts, h))
    ensures Nodes(Plug(SplitStack(ts, h, j), SplitNode(h, j)))
         == Nodes(Plug(ts, h)) + (if j > 0 then 1 else 0) + (if j + 1 < |h.chars| then 1 else 0)
  {
    hide At, Kids, Nodes, KidNodes, Plug, Path, Less;
    PostfixEntries(Path(ts), h, j);
    SplitTopEntries(Path(ts), h, j);
    SwapNode(ts, h, SplitTop(h, j));
    if j > 0 {
      var fr := Frame(Node(h.slot, j > 1, h.chars[..j], [Node(Absent, false, [h.chars[j]], [])]), 0);
      assert Put(fr, SplitNode(h, j)) == SplitTop(h, j);
      Push(ts, fr, SplitNode(h, j));
    }
  }

  /** Algorithm 1: split a compressed node at the byte that does not match.
      Returns the split node, its parents, and how many nodes were added. */
  method SplitAtMismatch(ts: seq<Frame>, h: Node, j: nat) returns (ts': seq<Frame>, split: Node, added: nat)
    requires h.compr && Shape(h) && j < |h.chars|
    ensures ts' == SplitStack(ts, h, j) && split == SplitNode(h, j)
    ensures added == (if j > 0 then 1 else 0) + (if j + 1 < |h.chars| then 1 else 0)
  {
    var next := h.kids[0];
    var trimmedlen, postfixlen := j, |h.chars| - j - 1;
    split := Node(Absent, false, [h.chars[j]], []);
    ts', added := ts, 0;
    var trimmed := h;
    if j == 0 {
      split := split.(slot := h.slot);
    } else {
      trimmed := Node(h.slot, j > 1, h.chars[..j], [split]);
      ts' := ts + [Frame(trimmed, 0)];
      added := added + 1;
    }
    var postfix := next;
    if postfixlen > 0 {
      postfix := Node(Absent, postfixlen > 1, h.chars[j + 1..], [next]);
      added := added + 1;
    }
    split := split.(kids := [postfix]);

  }

  /** How many of the edges are smaller than c. */
  function Below(cs: Key, c: Byte): (pos: nat)
    ensures pos <= |cs|
  {
    if cs == [] || cs[0] > c then 0 else 1 + Below(cs[1..], c)
  }

  lemma {:induction false} BelowUnique(cs: Key, c: Byte, pos: nat)
    requires pos <= |cs| && (forall k :: 0 <= k < pos ==> cs[k] < c) && (pos < |cs| ==> c < cs[pos])
    ensures pos == Below(cs, c)
  {
    if pos > 0 { BelowUnique(cs[1..], c, pos - 1); }
  }

  /** raxAddChild: an empty child on a new edge, in byte order. */
  method AddChild(n: Node, c: Byte) returns (n': Node, pos: nat)
    requires !n.compr && Shape(n) && c !in n.chars
    ensures AddedChild(n, c, pos, n') && pos == Below(n.chars, c)
  {
    pos := 0;
    while pos < |n.chars|
      invariant pos <= |n.chars|
      invariant forall k :: 0 <= k < pos ==> n.chars[k] < c
    {
      if n.chars[pos] > c { break; }
      assert n.chars[pos] in n.chars;
      pos := pos + 1;
    }
    BelowUnique(n.chars, c, pos);
    n' := n.(chars := n.chars[..pos] + [c] + n.chars[pos..],
             kids := n.kids[..pos] + [EMPTY_NODE] + n.kids[pos..]);
  }

  lemma EmptyEntries(p: Key)
    ensures At(p, EMPTY_NODE) == [] && Nodes(EMPTY_NODE) == 1
  {
  }

  ghost predicate AddedChild(n: Node, c: Byte, pos: nat, n': Node) {
    && pos <= |n.chars| && |n.kids| == |n.chars|
    && (forall k :: 0 <= k < pos ==> n.chars[k] < c)
    && (forall k :: pos <= k < |n.chars| ==> c < n.chars[k])
    && n' == n.(chars := n.chars[..pos] + [c] + n.chars[pos..],
                kids := n.kids[..pos] + [EMPTY_NODE] + n.kids[pos..])
  }

  lemma AddChildShape(n: Node, c: Byte, pos: nat, n': Node)
    requires !n.compr && Wf(n) && AddedChild(n, c, pos, n')
    ensures WfFrame(Frame(n', pos)) && Label(n', pos) == [c]
    ensures Put(Frame(n', pos), EMPTY_NODE) == n'
  {
    assert n'.kids[pos := EMPTY_NODE] == n'.kids;
    forall i | 0 <= i < |n'.kids| && i != pos ensures KeyLeaf(n'.kids[i]) && Wf(n'.kids[i]) {
      assert n'.kids[i] == n.kids[if i < pos then i else i - 1];
    }
  }

  lemma AddChildShift(n: Node, c: Byte, pos: nat, n': Node)
    requires !n.compr && AddedChild(n, c, pos, n')
    ensures |n'.kids| == |n.kids| + 1 && pos < |n'.kids| && n'.slot == n.slot
    ensures SameKids(n, 0, pos, n', 0) && SameKids(n, pos, |n.kids|, n', 1)
    ensures Label(n', pos) == [c] && n'.kids[pos] == EMPTY_NODE
  {
    Inserted(n.chars, pos, c);
    Inserted(n.kids, pos, EMPTY_NODE);
    assert forall k :: 0 <= k < pos ==> n.kids[k] == n'.kids[k] && n.chars[k] == n'.chars[k];
    assert forall k :: pos <= k < |n.kids| ==> n.kids[k] == n'.kids[k + 1] && n.chars[k] == n'.chars[k + 1];
  }

  lemma Inserted<T>(xs: seq<T>, pos: nat, x: T)
    requires pos <= |xs|
    ensures var ys := xs[..pos] + [x] + xs[pos..];
            && |ys| == |xs| + 1 && ys[pos] == x
            && (forall i :: 0 <= i < pos ==> ys[i] == xs[i])
            && (forall i :: pos <= i < |xs| ==> ys[i + 1] == xs[i])
  {
  }

  lemma AtIs(p: Key, n: Node)
    ensures At(p, n) == Own(p, n) + Kids(p, n, 0, |n.kids|) && Nodes(n) == 1 + KidNodes(n, 0, |n.kids|)
  {
  }

  lemma OwnIs(p: Key, n: Node, n': Node)
    requires n.slot == n'.slot
    ensures Own(p, n) == Own(p, n')
  {
  }

  /** An empty child adds a node and no entry. */
  lemma AddChildEntries(p: Key, n: Node, c: Byte, pos: nat, n': Node)
    requires !n.compr && AddedChild(n, c, pos, n')
    ensures At(p, n') == At(p, n) && Nodes(n') == Nodes(n) + 1
  {
    hide Kids, KidNodes, At, Nodes, SameKids, AddedChild, Own;
    AddChildShift(n, c, pos, n');
    AddedWithin(n, c, pos, n');
    AtIs(p, n);
    AtIs(p, n');
    OwnIs(p, n, n');
    KidsAround(p, n', pos);
    EmptyEntries(p + [c]);
    KidsSame(p, n, 0, pos, n', 0);
    KidsSame(p, n, pos, |n.kids|, n', 1);
    KidsSplit(p, n, 0, pos, |n.kids|);
    var a, b := Kids(p, n, 0, pos), Kids(p, n, pos, |n.kids|);
    assert a + [] + b == a + b;
  }

  lemma AddedWithin(n: Node, c: Byte, pos: nat, n': Node)
    requires AddedChild(n, c, pos, n')
    ensures pos <= |n.kids|
  {
  }

  /** A childless node turned into a compressed one spells the same entries. */
  lemma CompressEntries(p: Key, h: Node, cs: Key)
    requires Wf(h) && h.chars == [] && 2 <= |cs| <= RAX_NODE_MAX_SIZE
    ensures At(p, Node(h.slot, true, cs, [EMPTY_NODE])) == At(p, h)
    ensures Nodes(Node(h.slot, true, cs, [EMPTY_NODE])) == Nodes(h) + 1
    ensures WfFrame(Frame(Node(h.slot, true, cs, [EMPTY_NODE]), 0))
  {
    LinkEntries(p, h.slot, cs, EMPTY_NODE);
    EmptyEntries(p + cs);
    assert Own(p, h) == Own(p, Link(h.slot, cs, EMPTY_NODE));
  }

  lemma NextPrefix(s: Key, i: nat, n: nat)
    requires i + n <= |s|
    ensures s[..i] + s[i..i + n] == s[..i + n]
  {
  }

  /** Hanging an empty child, reached by fr, below h. */
  lemma Extend(ts: seq<Frame>, h: Node, fr: Frame)
    requires WfStack(ts) && WfFrame(fr) && Put(fr, EMPTY_NODE) == fr.node
    requires At(Path(ts), fr.node) == At(Path(ts), h) && Nodes(fr.node) == Nodes(h) + 1
    ensures WfStack(ts + [fr]) && Path(ts + [fr]) == Path(ts) + Label(fr.node, fr.idx)
    ensures At([], Plug(ts + [fr], EMPTY_NODE)) == At([], Plug(ts, h))
    ensures Nodes(Plug(ts + [fr], EMPTY_NODE)) == Nodes(Plug(ts, h)) + 1
  {
    SwapNode(ts, h, fr.node);
    Push(ts, fr, EMPTY_NODE);
  }

  // ------------------------------------------------------------ the missing nodes

  function WithChild(n: Node, c: Byte, child: Node): Node
    requires |n.kids| == |n.chars|
  {
    var pos := Below(n.chars, c);
    n.(chars := n.chars[..pos] + [c] + n.chars[pos..], kids := n.kids[..pos] + [child] + n.kids[pos..])
  }

  /** How many bytes the next node spells. */
  function PieceLen(h: Node, rest: Key): (n: nat)
    requires rest != []
    ensures 1 <= n <= |rest|
  {
    if h.chars != [] then 1 else if |rest| > RAX_NODE_MAX_SIZE then RAX_NODE_MAX_SIZE else |rest|
  }

  /** h with the nodes that spell the rest below it, down to the leaf. */
  function Grow(h: Node, rest: Key, leaf: Node): Node
    requires |h.kids| == |h.chars|
    decreases |rest|
  {
    if rest == [] then leaf
    else
      var n := PieceLen(h, rest);
      var sub := Grow(EMPTY_NODE, rest[n..], leaf);
      if h.chars == [] && |rest| > 1 then Node(h.slot, true, rest[..n], [sub]) else WithChild(h, rest[0], sub)
  }

  /** One round of the last loop of raxGenericInsert: hang an empty child below
      h, over as many bytes of s as one node can hold. */
  method GrowOnce(p: Key, h: Node, s: Key, i: nat, ghost leaf: Node) returns (fr: Frame, n: nat)
    requires Wf(h) && i < |s| && !h.compr && s[i] !in h.chars
    ensures 1 <= n <= |s| - i && WfFrame(fr) && Label(fr.node, fr.idx) == s[i..i + n]
    ensures Put(fr, EMPTY_NODE) == fr.node
    ensures At(p, fr.node) == At(p, h) && Nodes(fr.node) == Nodes(h) + 1
    ensures Grow(h, s[i..], leaf) == Put(fr, Grow(EMPTY_NODE, s[i + n..], leaf))
  {
    hide At, Nodes, AddedChild, Grow, Below, Wf;
    WfShape(h);
    n := 1;
    if h.chars == [] && |s| - i > 1 {
      n := if |s| - i > RAX_NODE_MAX_SIZE then RAX_NODE_MAX_SIZE else |s| - i;
      fr := Frame(Node(h.slot, true, s[i..i + n], [EMPTY_NODE]), 0);
      CompressEntries(p, h, s[i..i + n]);
    } else {
      var h', pos := AddChild(h, s[i]);
      fr := Frame(h', pos);
      AddChildEntries(p, h, s[i], pos, h');
      AddChildShape(h, s[i], pos, h');
      AddedPut(h, s[i], pos, h', Grow(EMPTY_NODE, s[i + n..], leaf));
      assert s[i..i + n] == [s[i]];
    }
    GrowIs(h, s, i, n, leaf);
  }

  lemma WfShape(h: Node)
    requires Wf(h)
    ensures Shape(h)
  {
  }

  lemma AddedPut(n: Node, c: Byte, pos: nat, n': Node, child: Node)
    requires !n.compr && AddedChild(n, c, pos, n') && pos == Below(n.chars, c)
    ensures pos < |n'.kids| && Put(Frame(n', pos), child) == WithChild(n, c, child)
  {
    hide Below;
    assert n'.kids[pos := child] == n.kids[..pos] + [child] + n.kids[pos..];
  }

  lemma GrowIs(h: Node, s: Key, i: nat, n: nat, leaf: Node)
    requires i < |s| && |h.kids| == |h.chars| && n == PieceLen(h, s[i..])
    ensures var sub := Grow(EMPTY_NODE, s[i + n..], leaf);
            Grow(h, s[i..], leaf)
            == if h.chars == [] && |s| - i > 1 then Node(h.slot, true, s[i..i + n], [sub]) else WithChild(h, s[i], sub)
  {
    hide Below, WithChild;
    assert s[i..][n..] == s[i + n..] && s[i..][..n] == s[i..i + n];
  }

  /** The last loop of raxGenericInsert: add the nodes that spell s[i..] below h. */
  method AppendTail(ts0: seq<Frame>, h0: Node, s: Key, i0: nat, ghost leaf: Node) returns (ts: seq<Frame>, h: Node, added: nat)
    requires WfStack(ts0) && Wf(h0) && i0 < |s| && Path(ts0) == s[..i0]
    requires !h0.compr && s[i0] !in h0.chars
    ensures WfStack(ts) && h == EMPTY_NODE && Path(ts) == s
    ensures At([], Plug(ts, h)) == At([], Plug(ts0, h0))
    ensures Nodes(Plug(ts, h)) == Nodes(Plug(ts0, h0)) + added
    ensures |h0.kids| == |h0.chars| && Plug(ts, leaf) == Plug(ts0, Grow(h0, s[i0..], leaf))
  {
    hide At, Nodes, Plug, Path, WfFrame, Grow;
    ts, h, added := ts0, h0, 0;
    var i := i0;
    while i < |s|
      invariant i0 <= i <= |s| && WfStack(ts) && Wf(h) && Path(ts) == s[..i]
      invariant i < |s| ==> !h.compr && s[i] !in h.chars
      invariant i0 < i ==> h == EMPTY_NODE
      invariant At([], Plug(ts, h)) == At([], Plug(ts0, h0))
      invariant Nodes(Plug(ts, h)) == Nodes(Plug(ts0, h0)) + added
      invariant |h.kids| == |h.chars| && Plug(ts, Grow(h, s[i..], leaf)) == Plug(ts0, Grow(h0, s[i0..], leaf))
    {
      var fr, n := GrowOnce(Path(ts), h, s, i, leaf);
      Extend(ts, h, fr);
      Push(ts, fr, Grow(EMPTY_NODE, s[i + n..], leaf));
      NextPrefix(s, i, n);
      ts, h, i, added := ts + [fr], EMPTY_NODE, i + n, added + 1;
    }
    assert s[..i] == s;
    GrowNothing(h, s[i..], leaf);
  }

  lemma GrowNothing(h: Node, rest: Key, leaf: Node)
    requires |h.kids| == |h.chars| && rest == []
    ensures Grow(h, rest, leaf) == leaf
  {
  }

  function Leaf(v: Ptr): Node { Node(Present(v), false, [], []) }

  /** The tree after the insertion of a string that stops at h with `rest` left and j bytes
      of h's edge matched. */
  ghost function Insertion(ts: seq<Frame>, h: Node, j: nat, rest: Key, v: Ptr): Node
    requires Wf(h) && Stops(h, rest, j)
  {
    if j == |rest| && (!h.compr || j == 0) then Plug(ts, h.(slot := Present(v)))
    else if h.compr && j < |rest| then Plug(SplitStack(ts, h, j), Grow(SplitNode(h, j), rest[j..], Leaf(v)))
    else if h.compr then Plug(ts, Link(h.slot, h.chars[..j], Link(Present(v), h.chars[j..], h.kids[0])))
    else Plug(ts, Grow(h, rest, Leaf(v)))
  }

  lemma InsertHere(ts: seq<Frame>, h: Node, j: nat, rest: Key, v: Ptr)
    requires Wf(h) && Stops(h, rest, j) && j == |rest| && (!h.compr || j == 0)
    ensures Insertion(ts, h, j, rest, v) == Plug(ts, h.(slot := Present(v)))
  {
  }

  lemma InsertCut(ts: seq<Frame>, h: Node, j: nat, rest: Key, v: Ptr, fr: Frame, postfix: Node)
    requires WfStack(ts) && Wf(h) && Stops(h, rest, j) && h.compr && 0 < j == |rest| && WfFrame(fr)
    requires fr.idx == 0 && |fr.node.kids| == 1 && fr.node.(kids := []) == Link(h.slot, h.chars[..j], h).(kids := [])
    requires postfix == Link(Present(v), h.chars[j..], h.kids[0])
    ensures Insertion(ts, h, j, rest, v) == Plug(ts + [fr], postfix)
  {
    Push(ts, fr, postfix);
    assert Put(fr, postfix) == Link(h.slot, h.chars[..j], postfix);
  }

  lemma InsertBelow(ts: seq<Frame>, h: Node, j: nat, rest: Key, v: Ptr)
    requires Wf(h) && Stops(h, rest, j) && j < |rest|
    ensures h.compr ==> Insertion(ts, h, j, rest, v) == Plug(SplitStack(ts, h, j), Grow(SplitNode(h, j), rest[j..], Leaf(v)))
    ensures !h.compr ==> |h.kids| == |h.chars| && Insertion(ts, h, j, rest, v) == Plug(ts, Grow(h, rest[j..], Leaf(v)))
  {
    hide Plug, Grow;
    assert !h.compr ==> rest[j..] == rest;
  }

  /** Algorithm 2 cuts a compressed node where the string ends. */
  lemma CutEntries2(p: Key, h: Node, j: nat)
    requires Wf(h) && h.compr && 0 < j < |h.chars|
    ensures At(p, Link(h.slot, h.chars[..j], Link(Absent, h.chars[j..], h.kids[0]))) == At(p, h)
    ensures Nodes(Link(h.slot, h.chars[..j], Link(Absent, h.chars[j..], h.kids[0]))) == Nodes(h) + 1
  {
    var postfix := Link(Absent, h.chars[j..], h.kids[0]);
    CompressedEntries(p, h);
    LinkEntries(p, h.slot, h.chars[..j], postfix);
    LinkEntries(p + h.chars[..j], Absent, h.chars[j..], h.kids[0]);
    assert p + h.chars[..j] + h.chars[j..] == p + h.chars;
  }

  lemma CutKeeps(ts: seq<Frame>, h: Node, j: nat, fr: Frame, postfix: Node)
    requires WfStack(ts) && Wf(h) && h.compr && 0 < j < |h.chars|
    requires fr.idx == 0 && |fr.node.kids| == 1
    requires fr.node.(kids := []) == Link(h.slot, h.chars[..j], h).(kids := [])
    requires postfix == Link(Absent, h.chars[j..], h.kids[0])
    ensures WfStack(ts + [fr]) && Wf(postfix) && Path(ts + [fr]) == Path(ts) + h.chars[..j]
    ensures At([], Plug(ts + [fr], postfix)) == At([], Plug(ts, h))
    ensures Nodes(Plug(ts + [fr], postfix)) == Nodes(Plug(ts, h)) + 1
  {
    hide At, Kids, Nodes, KidNodes, Plug, Path, Less;
    var top := Link(h.slot, h.chars[..j], postfix);
    assert Put(fr, postfix) == top;
    CutEntries2(Path(ts), h, j);
    SwapNode(ts, h, top);
    Push(ts, fr, postfix);
  }

  /** Storing a value at a node that was no key. */
  lemma StoreNew(ts: seq<Frame>, f: Node, s: Key, v: Ptr)
    requires WfStack(ts) && Wf(f) && Path(ts) == s && f.slot.Absent?
    ensures Wf(Plug(ts, f.(slot := Present(v))))
    ensures Nodes(Plug(ts, f.(slot := Present(v)))) == Nodes(Plug(ts, f))
    ensures var es, es' := At([], Plug(ts, f)), At([], Plug(ts, f.(slot := Present(v))));
            && s !in MapOf(es) && MapOf(es') == MapOf(es)[s := v] && |es'| == |es| + 1
  {
    hide At, Kids, Nodes, Plug, Path, Before, After, MapOf, Less;
    var g := f.(slot := Present(v));
    CutEntries(ts, g);
    PlugEntries(ts, f);
    SlotEntries(s, f, g);
    PlugWf(ts, g);
    PlugEntries(ts, g);
    var b, m, a := Before(ts), Kids(s, f, 0, |f.kids|), After(ts);
    assert b + ([(s, v)] + m) + a == b + [(s, v)] + (m + a);
    assert At(s, f) == m;
    assert b + m + a == b + (m + a);
    MapInsert(b, (s, v), m + a);
  }

  lemma SlotEntries(p: Key, f: Node, g: Node)
    requires g == f.(slot := g.slot)
    ensures At(p, g) == Own(p, g) + Kids(p, f, 0, |f.kids|)
    ensures At(p, f) == Own(p, f) + Kids(p, f, 0, |f.kids|)
    ensures Nodes(g) == Nodes(f)
  {
    KidsSame(p, f, 0, |f.kids|, g, 0);
  }

  /** Replacing the value at a node that is a key. */
  lemma StoreOver(ts: seq<Frame>, f: Node, s: Key, v: Ptr)
    requires WfStack(ts) && Wf(f) && Path(ts) == s && f.slot.Present?
    ensures Wf(Plug(ts, f.(slot := Present(v))))
    ensures Nodes(Plug(ts, f.(slot := Present(v)))) == Nodes(Plug(ts, f))
    ensures var es, es' := At([], Plug(ts, f)), At([], Plug(ts, f.(slot := Present(v))));
            && s in MapOf(es) && MapOf(es)[s] == f.slot.data
            && MapOf(es') == MapOf(es)[s := v] && |es'| == |es|
  {
    hide At, Kids, Nodes, Plug, Path, Before, After, MapOf, Less;
    var g := f.(slot := Present(v));
    CutEntries(ts, f);
    PlugEntries(ts, f);
    SlotEntries(s, f, g);
    PlugWf(ts, g);
    PlugEntries(ts, g);
    var b, m, a := Before(ts), Kids(s, f, 0, |f.kids|), After(ts);
    assert b + ([(s, v)] + m) + a == b + [(s, v)] + (m + a);
    assert b + ([(s, f.slot.data)] + m) + a == b + [(s, f.slot.data)] + (m + a);
    MapUpdate(b, s, f.slot.data, v, m + a);
  }
}
