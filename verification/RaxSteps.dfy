/** The moves of the radix-tree iterator: one step forward, one step back, and
    the descent to the greatest key. A position is a node and its parents; the
    entries of the tree are cut there into those before and those after. */
module RaxSteps {
  import opened Common
  import opened RaxTree

  /** The entries that follow a node's own. */
  ghost function Rest(st: seq<Frame>, n: Node): seq<Entry>
    requires WfStack(st)
  {
    Kids(Path(st), n, 0, |n.kids|) + After(st)
  }

  lemma PushRest(st: seq<Frame>, n: Node, i: nat)
    requires WfStack(st) && Wf(n) && i < |n.kids|
    ensures var st' := st + [Frame(n, i)];
            && WfStack(st') && Path(st') == Path(st) + Label(n, i)
            && Before(st') == Before(st) + Own(Path(st), n) + Kids(Path(st), n, 0, i)
            && After(st') == Kids(Path(st), n, i + 1, |n.kids|) + After(st)
            && Kids(Path(st), n, i, |n.kids|) + After(st) == At(Path(st'), n.kids[i]) + After(st')
  {
    hide At, Kids, Less, Plug, Label, Own, Path, Before, After;
    var p := Path(st);
    PushDefs(st, Frame(n, i));
    KidsStep(p, n, i);
    assert (At(p + Label(n, i), n.kids[i]) + Kids(p, n, i + 1, |n.kids|)) + After(st)
        == At(p + Label(n, i), n.kids[i]) + (Kids(p, n, i + 1, |n.kids|) + After(st));
  }

  lemma KidsStep(p: Key, n: Node, i: nat)
    requires i < |n.kids|
    ensures Kids(p, n, i, |n.kids|) == At(p + Label(n, i), n.kids[i]) + Kids(p, n, i + 1, |n.kids|)
  {
    hide At, Label;
  }

  lemma PushDefs(st: seq<Frame>, fr: Frame)
    requires WfStack(st) && WfFrame(fr)
    ensures WfStack(st + [fr]) && Path(st + [fr]) == Path(st) + Label(fr.node, fr.idx)
    ensures Before(st + [fr]) == Before(st) + Own(Path(st), fr.node) + Kids(Path(st), fr.node, 0, fr.idx)
    ensures After(st + [fr]) == Kids(Path(st), fr.node, fr.idx + 1, |fr.node.kids|) + After(st)
  {
    hide Kids, Own, Label, Shape;
    var st' := st + [fr];
    assert st'[..|st'| - 1] == st && st'[|st'| - 1] == fr;
  }

  /** The first edge greater than c. */
  ghost predicate FirstAbove(chars: Key, c: Byte, i: nat) {
    && i <= |chars|
    && (forall k :: 0 <= k < i ==> chars[k] <= c)
    && (forall k :: i <= k < |chars| ==> chars[k] > c)
  }

  /** The number of edges smaller than c. */
  ghost predicate Below(chars: Key, c: Byte, i: nat) {
    && i <= |chars|
    && (forall k :: 0 <= k < i ==> chars[k] < c)
    && (forall k :: i <= k < |chars| ==> chars[k] >= c)
  }

  /** The scan of raxIteratorNextStep for the next sibling. */
  method ScanNext(chars: Key, prevchild: Byte, ghost g: nat) returns (i: nat)
    requires FirstAbove(chars, prevchild, g)
    ensures i == g
  {
    i := 0;
    while i < |chars|
      invariant i <= g
    {
      if chars[i] > prevchild { break; }
      i := i + 1;
    }
  }

  /** The scan of raxIteratorPrevStep for the previous sibling, from the last. */
  method ScanPrev(chars: Key, prevchild: Byte, ghost g: nat) returns (i: int)
    requires Below(chars, prevchild, g)
    ensures i == g - 1
  {
    i := |chars| - 1;
    while i >= 0
      invariant g - 1 <= i < |chars|
    {
      if chars[i] < prevchild { break; }
      i := i - 1;
    }
  }

  /** The last byte of a path is the edge to the current child. */
  lemma LastByte(st: seq<Frame>, fr: Frame)
    requires WfStack(st) && WfFrame(fr)
    ensures var p := Path(st) + Label(fr.node, fr.idx);
            && |p| >= 1
            && (!fr.node.compr ==>
                 && p[|p| - 1] == fr.node.chars[fr.idx]
                 && FirstAbove(fr.node.chars, p[|p| - 1], fr.idx + 1)
                 && Below(fr.node.chars, p[|p| - 1], fr.idx))
            && p[..|p| - (if fr.node.compr then |fr.node.chars| else 1)] == Path(st)
  {
  }

  lemma NoneLeft(p: Key, n: Node)
    ensures Kids(p, n, |n.kids|, |n.kids|) == []
  {
  }

  lemma PutKids(p: Key, fr: Frame, f: Node)
    requires WfFrame(fr)
    ensures Kids(p, Put(fr, f), fr.idx + 1, |fr.node.kids|) == Kids(p, fr.node, fr.idx + 1, |fr.node.kids|)
    ensures Kids(p, Put(fr, f), 0, fr.idx) == Kids(p, fr.node, 0, fr.idx)
    ensures Own(p, Put(fr, f)) == Own(p, fr.node)
  {
    hide At, Kids, KidNodes, Less, Plug, Path;
    var n, n' := fr.node, Put(fr, f);
    KidsSame(p, n, 0, fr.idx, n', 0);
    KidsSame(p, n, fr.idx + 1, |n.kids|, n', 0);
  }

  /** Going back to the parent. */
  lemma PopPlace(head: Node, st: seq<Frame>, fr: Frame, f: Node)
    requires Place(head, st + [fr], f)
    ensures Place(head, st, Put(fr, f)) && WfFrame(fr)
    ensures Path(st + [fr]) == Path(st) + Label(fr.node, fr.idx)
    ensures Before(st + [fr]) == Before(st) + Own(Path(st), fr.node) + Kids(Path(st), fr.node, 0, fr.idx)
    ensures After(st + [fr]) == Kids(Path(st), fr.node, fr.idx + 1, |fr.node.kids|) + After(st)
  {
    var st' := st + [fr];
    assert st'[..|st'| - 1] == st && st'[|st'| - 1] == fr;
    assert forall k :: 0 <= k < |st| ==> st[k] == st'[k];
  }

  /** The iterator stands at node h, key included, with the children from g on
      still to be visited; c is the edge it came from. */
  ghost predicate Visiting(st: seq<Frame>, h: Node, c: Byte, g: nat, todo: seq<Entry>) {
    && WfStack(st) && g <= |h.kids|
    && (if h.compr then g == |h.kids| else FirstAbove(h.chars, c, g))
    && todo == Kids(Path(st), h, g, |h.kids|) + After(st)
  }

  /** The state in which raxSeek calls a step with noup: the bytes below h's
      path are already on the key. */
  ghost predicate NoUp(st: seq<Frame>, h: Node, key: Key) {
    if h.compr then key == Path(st) + h.chars
    else |key| >= 1 && key[..|key| - 1] == Path(st)
  }

  /** The number of bytes that belong to the edge below h. */
  function EdgeLength(h: Node): nat { if h.compr then |h.chars| else 1 }

  lemma PopNext(head: Node, st: seq<Frame>, fr: Frame, f: Node, g: nat)
    requires Place(head, st + [fr], f)
    requires g == if fr.node.compr then |fr.node.kids| else fr.idx + 1
    ensures var key, h := Path(st + [fr]), Put(fr, f);
            && Place(head, st, h) && EdgeLength(h) <= |key| && 1 <= |key|
            && key[..|key| - EdgeLength(h)] == Path(st)
            && Visiting(st, h, key[|key| - 1], g, After(st + [fr]))
            && (!h.compr && |h.chars| == 1 ==> g == |h.kids|)
  {
    PopPlace(head, st, fr, f);
    LastByte(st, fr);
    PutKids(Path(st), fr, f);
    NoneLeft(Path(st), fr.node);
    NoneLeft(Path(st), Put(fr, f));
  }

  /** The first half of a climb: back to the parent (unless noup), with the key
      cut back to the parent's. */
  method LeaveNext(head: Node, st0: seq<Frame>, h0: Node, key0: Key, noup: bool, ghost g0: nat, ghost todo: seq<Entry>)
    returns (st: seq<Frame>, h: Node, key: Key, prevchild: Byte, ghost g: nat)
    requires Place(head, st0, h0)
    requires noup ==> NoUp(st0, h0, key0) && |key0| >= 1 && Visiting(st0, h0, key0[|key0| - 1], g0, todo)
    requires !noup ==> key0 == Path(st0) && todo == After(st0) && st0 != []
    ensures Place(head, st, h) && key == Path(st) && Visiting(st, h, prevchild, g, todo)
    ensures |st| == |st0| - (if noup then 0 else 1)
    ensures !noup && !h.compr && |h.chars| == 1 ==> g == |h.kids|
  {
    hide At, Kids, Less, Path, Before, After, Plug;
    st, h, g := st0, h0, g0;
    if noup {
      prevchild := key0[|key0| - 1];
    } else {
      var fr := st[|st| - 1];
      assert st == st[..|st| - 1] + [fr];
      g := if fr.node.compr then |fr.node.kids| else fr.idx + 1;
      PopNext(head, st[..|st| - 1], fr, h, g);
      prevchild := key0[|key0| - 1];
      st, h := st[..|st| - 1], Put(fr, h);
    }
    key := key0[..|key0| - EdgeLength(h)];
  }

  /** The climbing loop of raxIteratorNextStep: leave finished subtrees until a
      node has a child greater than the one we came from, and enter it. */
  method ClimbNext(head: Node, st0: seq<Frame>, h0: Node, key0: Key, noup0: bool, ghost g0: nat,
                   ghost todo: seq<Entry>)
    returns (found: bool, st: seq<Frame>, h: Node, key: Key)
    requires Place(head, st0, h0)
    requires noup0 ==> NoUp(st0, h0, key0) && |key0| >= 1 && Visiting(st0, h0, key0[|key0| - 1], g0, todo)
    requires !noup0 ==> key0 == Path(st0) && todo == After(st0)
    ensures !found ==> todo == []
    ensures found ==> Place(head, st, h) && st != [] && key == Path(st) && todo == At(Path(st), h) + After(st)
  {
    hide At, Kids, Less, Path, Before, After, Plug, Own, Rest;
    st, h, key := st0, h0, key0;
    var noup := noup0;
    while true
      invariant Place(head, st, h)
      invariant noup ==> NoUp(st, h, key) && |key| >= 1 && Visiting(st, h, key[|key| - 1], g0, todo)
      invariant !noup ==> key == Path(st) && todo == After(st)
      decreases noup, |st|
    {
      var oldnoup := noup;
      if !noup && st == [] {
        TopAfter();
        return false, st, h, key;
      }
      var st', h', key', prevchild, g := LeaveNext(head, st, h, key, noup, g0, todo);
      st, h, key, noup := st', h', key', false;
      if !h.compr && |h.chars| > (if oldnoup then 0 else 1) {
        var i := ScanNext(h.chars, prevchild, g);
        if i != |h.chars| {
          PushRest(st, h, i);
          Descend(head, st, h, i);
          key := key + [h.chars[i]];
          st, h := st + [Frame(h, i)], h.kids[i];
          return true, st, h, key;
        }
      }
      NoneLeft(Path(st), h);
    }
  }

  lemma TopAfter()
    ensures After([]) == []
  {
  }

  lemma OwnFirst(st: seq<Frame>, h: Node)
    requires WfStack(st)
    ensures At(Path(st), h) + After(st) == Own(Path(st), h) + Rest(st, h)
  {
    var o, k, a := Own(Path(st), h), Kids(Path(st), h, 0, |h.kids|), After(st);
    assert o + k + a == o + (k + a);
  }

  /** Going to the first child. */
  lemma Deeper(head: Node, st: seq<Frame>, h: Node)
    requires Place(head, st, h) && h.kids != []
    ensures var st' := st + [Frame(h, 0)];
            && Place(head, st', h.kids[0]) && Path(st') == Path(st) + Label(h, 0)
            && Rest(st, h) == Own(Path(st'), h.kids[0]) + Rest(st', h.kids[0])
  {
    hide At, Kids, Less, Path, Before, After, Plug;
    PushRest(st, h, 0);
    Descend(head, st, h, 0);
    OwnFirst(st + [Frame(h, 0)], h.kids[0]);
  }

  lemma OwnIs(p: Key, h: Node)
    ensures Own(p, h) == if h.slot.Present? then [(p, h.slot.data)] else []
  {
  }

  lemma ChildlessRest(st: seq<Frame>, h: Node)
    requires WfStack(st) && h.kids == []
    ensures Rest(st, h) == After(st)
  {
  }

  /** raxIteratorNextStep: todo lists what follows the current position. */
  method NextStep(head: Node, st0: seq<Frame>, h0: Node, key0: Key, noup0: bool, ghost g0: nat,
                  ghost todo: seq<Entry>)
    returns (eof: bool, st: seq<Frame>, h: Node, key: Key)
    requires Place(head, st0, h0)
    requires noup0 ==> NoUp(st0, h0, key0) && |key0| >= 1 && Visiting(st0, h0, key0[|key0| - 1], g0, todo)
    requires !noup0 ==> key0 == Path(st0) && todo == Rest(st0, h0)
    ensures eof <==> todo == []
    ensures eof ==> st == st0 && h == h0 && key == key0
    ensures !eof ==> Place(head, st, h) && key == Path(st) && h.slot.Present?
                     && todo == [(key, h.slot.data)] + Rest(st, h)
  {
    hide At, Kids, Less, Path, Before, After, Plug, Rest, Own;
    st, h, key := st0, h0, key0;
    var noup := noup0;
    while true
      invariant Place(head, st, h)
      invariant noup ==> NoUp(st, h, key) && |key| >= 1 && Visiting(st, h, key[|key| - 1], g0, todo)
      invariant !noup ==> key == Path(st) && todo == Rest(st, h)
      decreases noup || h.kids == [], h
    {
      if !noup && h.kids != [] {
        Deeper(head, st, h);
        key := key + Label(h, 0);
        st, h := st + [Frame(h, 0)], h.kids[0];
      } else {
        if !noup { ChildlessRest(st, h); }
        var found, st', h', key' := ClimbNext(head, st, h, key, noup, g0, todo);
        if !found { return true, st0, h0, key0; }
        st, h, key, noup := st', h', key', false;
        OwnFirst(st, h);
      }
      OwnIs(key, h);
      if h.slot.Present? { return false, st, h, key; }
    }
  }

  /** raxSeekGreatest: down the last child of every node. */
  method SeekGreatest(head: Node, st0: seq<Frame>, h0: Node, key0: Key, ghost done: seq<Entry>)
    returns (st: seq<Frame>, h: Node, key: Key)
    requires Place(head, st0, h0) && key0 == Path(st0) && done == Before(st0) + At(Path(st0), h0)
    ensures Place(head, st, h) && key == Path(st) && h.chars == [] && st0 <= st
    ensures (done == Before(st) + Own(key, h)) && (st != [] ==> h.slot.Present?)
    ensures h0.chars != [] ==> st != []
  {
    hide At, Kids, Less, Path, Before, After, Plug;
    st, h, key := st0, h0, key0;
    while h.chars != []
      invariant Place(head, st, h) && key == Path(st) && st0 <= st
      invariant h0.chars != [] && st == [] ==> h == h0
      invariant done == Before(st) + At(Path(st), h)
      decreases h
    {
      var last := |h.kids| - 1;
      GreatestChild(st, h);
      Descend(head, st, h, last);
      key := key + (if h.compr then h.chars else [h.chars[|h.chars| - 1]]);
      st, h := st + [Frame(h, last)], h.kids[last];
    }
    NoKidsAt(Path(st), h);
  }

  lemma NoKidsAt(p: Key, n: Node)
    requires n.kids == []
    ensures At(p, n) == Own(p, n)
  {
  }

  /** The entries up to and including a subtree, seen from its last child. */
  lemma GreatestChild(st: seq<Frame>, h: Node)
    requires WfStack(st) && Wf(h) && h.kids != []
    ensures var last := |h.kids| - 1; var st' := st + [Frame(h, last)];
            WfStack(st') && Before(st) + At(Path(st), h) == Before(st') + At(Path(st'), h.kids[last])
  {
    hide At, Less, Plug;
    var last := |h.kids| - 1;
    PushRest(st, h, last);
    AtDef(Path(st), h);
    KidsAround(Path(st), h, last);
    NoneLeft(Path(st), h);
    Flatten(Before(st), Own(Path(st), h), Kids(Path(st), h, 0, last),
            At(Path(st) + Label(h, last), h.kids[last]));
  }

  lemma Flatten<T>(b: seq<T>, o: seq<T>, k: seq<T>, a: seq<T>)
    ensures b + (o + (k + a + [])) == b + o + k + a
  {
  }

  lemma AtDef(p: Key, n: Node)
    ensures At(p, n) == Own(p, n) + Kids(p, n, 0, |n.kids|)
  {
  }

  /** The mirror image of Visiting: the children before g are still to be
      visited, and then h itself. */
  ghost predicate VisitingBack(st: seq<Frame>, h: Node, c: Byte, g: nat, done: seq<Entry>) {
    && WfStack(st) && g <= |h.kids|
    && (if h.compr then g == 0 else Below(h.chars, c, g))
    && done == Before(st) + Own(Path(st), h) + Kids(Path(st), h, 0, g)
  }

  lemma PopPrev(head: Node, st: seq<Frame>, fr: Frame, f: Node)
    requires Place(head, st + [fr], f)
    ensures var key, h := Path(st + [fr]), Put(fr, f);
            && Place(head, st, h) && EdgeLength(h) <= |key| && 1 <= |key|
            && key[..|key| - EdgeLength(h)] == Path(st)
            && VisitingBack(st, h, key[|key| - 1], fr.idx, Before(st + [fr]))
            && (!h.compr && |h.chars| == 1 ==> fr.idx == 0)
  {
    PopPlace(head, st, fr, f);
    LastByte(st, fr);
    PutKids(Path(st), fr, f);
  }

  /** The left sibling at index i of a node still to be visited backwards. */
  lemma EnterBack(head: Node, st: seq<Frame>, h: Node, c: Byte, g: nat, done: seq<Entry>)
    requires Place(head, st, h) && VisitingBack(st, h, c, g, done) && g > 0
    ensures var st' := st + [Frame(h, g - 1)];
            && Place(head, st', h.kids[g - 1]) && Path(st') == Path(st) + Label(h, g - 1)
            && done == Before(st') + At(Path(st'), h.kids[g - 1])
  {
    hide At, Less, Plug, Kids, Before, After, Path, Own;
    Descend(head, st, h, g - 1);
    PushRest(st, h, g - 1);
    KidsSplit(Path(st), h, 0, g - 1, g);
    OneKid(Path(st), h, g - 1);
    Flatten2(Before(st), Own(Path(st), h), Kids(Path(st), h, 0, g - 1),
             At(Path(st) + Label(h, g - 1), h.kids[g - 1]));
  }

  lemma OneKid(p: Key, n: Node, i: nat)
    requires i < |n.kids|
    ensures Kids(p, n, i, i + 1) == At(p + Label(n, i), n.kids[i])
  {
    NoneBetweenAt(p, n, i + 1);
    assert Kids(p, n, i, i + 1) == At(p + Label(n, i), n.kids[i]) + Kids(p, n, i + 1, i + 1);
  }

  lemma Flatten2<T>(b: seq<T>, o: seq<T>, k: seq<T>, a: seq<T>)
    ensures b + o + (k + a) == b + o + k + a
  {
  }

  lemma NoneBetweenAt(p: Key, n: Node, i: nat)
    requires i <= |n.kids|
    ensures Kids(p, n, i, i) == []
  {
  }

  /** The first half of a backward step: back to the parent (unless noup), with
      the key cut back to the parent's. */
  method LeaveBack(head: Node, st0: seq<Frame>, h0: Node, key0: Key, noup: bool, ghost g0: nat, ghost done: seq<Entry>)
    returns (st: seq<Frame>, h: Node, key: Key, prevchild: Byte, ghost g: nat)
    requires Place(head, st0, h0)
    requires noup ==> NoUp(st0, h0, key0) && |key0| >= 1 && VisitingBack(st0, h0, key0[|key0| - 1], g0, done)
    requires !noup ==> key0 == Path(st0) && done == Before(st0) && st0 != []
    ensures Place(head, st, h) && key == Path(st) && VisitingBack(st, h, prevchild, g, done)
    ensures |st| == |st0| - (if noup then 0 else 1)
    ensures !noup && !h.compr && |h.chars| == 1 ==> g == 0
  {
    hide At, Kids, Less, Path, Before, After, Plug;
    st, h, g := st0, h0, g0;
    if noup {
      prevchild := key0[|key0| - 1];
    } else {
      var fr := st[|st| - 1];
      assert st == st[..|st| - 1] + [fr];
      g := fr.idx;
      PopPrev(head, st[..|st| - 1], fr, h);
      prevchild := key0[|key0| - 1];
      st, h := st[..|st| - 1], Put(fr, h);
    }
    key := key0[..|key0| - EdgeLength(h)];
  }

  /** raxIteratorPrevStep: done lists what precedes the current position. */
  method PrevStep(head: Node, st0: seq<Frame>, h0: Node, key0: Key, noup0: bool, ghost g0: nat,
                  ghost done: seq<Entry>)
    returns (eof: bool, st: seq<Frame>, h: Node, key: Key)
    requires Place(head, st0, h0)
    requires noup0 ==> NoUp(st0, h0, key0) && |key0| >= 1 && VisitingBack(st0, h0, key0[|key0| - 1], g0, done)
    requires !noup0 ==> key0 == Path(st0) && done == Before(st0)
    ensures eof <==> done == []
    ensures eof ==> st == st0 && h == h0 && key == key0
    ensures !eof ==> Place(head, st, h) && key == Path(st) && h.slot.Present?
                     && done == Before(st) + [(key, h.slot.data)]
  {
    hide At, Kids, Less, Path, Before, After, Plug, Own;
    st, h, key := st0, h0, key0;
    var noup := noup0;
    while true
      invariant Place(head, st, h)
      invariant noup ==> NoUp(st, h, key) && |key| >= 1 && VisitingBack(st, h, key[|key| - 1], g0, done)
      invariant !noup ==> key == Path(st) && done == Before(st)
      decreases noup, |st|
    {
      var oldnoup := noup;
      if !noup && st == [] {
        TopBefore();
        return true, st0, h0, key0;
      }
      var st', h', key', prevchild, g := LeaveBack(head, st, h, key, noup, g0, done);
      st, h, key, noup := st', h', key', false;
      if !h.compr && |h.chars| > (if oldnoup then 0 else 1) {
        var i := ScanPrev(h.chars, prevchild, g);
        if i != -1 {
          EnterBack(head, st, h, prevchild, g, done);
          st, h, key := SeekGreatest(head, st + [Frame(h, i)], h.kids[i], key + [h.chars[i]], done);
          OwnIs(key, h);
          return false, st, h, key;
        }
      }
      NoneBetweenAt(Path(st), h, 0);
      OwnIs(key, h);
      if h.slot.Present? { return false, st, h, key; }
    }
  }

  lemma TopBefore()
    ensures Before([]) == []
  {
  }
}
