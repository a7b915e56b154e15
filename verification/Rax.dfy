/** The radix tree of src/rax.c. The nodes are values, rewritten through the
    stack of parents; the head and the two counters are fields. */
module Rax {
  import opened Common
  import opened RaxTree
  import opened RaxContents
  import opened RaxWalk
  import opened RaxInsert
  import opened RaxRemove

  /** The values the free callback is given: those of keys that are not NULL. */
  ghost function Values(es: seq<Entry>): multiset<Ptr> {
    if es == [] then multiset{}
    else (if es[0].1 != 0 then multiset{es[0].1} else multiset{}) + Values(es[1..])
  }

  lemma {:induction false} ValuesConcat(a: seq<Entry>, b: seq<Entry>)
    ensures Values(a + b) == Values(a) + Values(b)
  {
    if a == [] {
      assert a + b == b;
    } else {
      assert (a + b)[1..] == a[1..] + b;
      ValuesConcat(a[1..], b);
    }
  }

  /** raxRecursiveFree: children from the last to the first, then the node. Each
      node is released once and each stored value handed over once. */
  method RecursiveFree(ghost p: Key, n: Node, numnodes: nat) returns (left: nat, given: multiset<Ptr>)
    requires Wf(n) && numnodes >= Nodes(n)
    ensures left == numnodes - Nodes(n)
    ensures given == Values(At(p, n))
    decreases n
  {
    hide At, Kids, Nodes, KidNodes, Values;
    var numchildren := if n.compr then 1 else |n.chars|;
    left, given := numnodes, multiset{};
    NoneLeft(p, n);
    while numchildren > 0
      invariant 0 <= numchildren <= |n.kids|
      invariant left == numnodes - KidNodes(n, numchildren, |n.kids|)
      invariant given == Values(Kids(p, n, numchildren, |n.kids|))
    {
      numchildren := numchildren - 1;
      LastKid(p, n, numchildren);
      var g;
      left, g := RecursiveFree(p + Label(n, numchildren), n.kids[numchildren], left);
      given := given + g;
    }
    WholeNode(p, n);
    if n.slot.Present? && n.slot.data != 0 { given := given + multiset{n.slot.data}; }
    left := left - 1;
  }

  lemma NoneLeft(p: Key, n: Node)
    ensures Values(Kids(p, n, |n.kids|, |n.kids|)) == multiset{} && KidNodes(n, |n.kids|, |n.kids|) == 0
  {
  }

  lemma LastKid(p: Key, n: Node, k: nat)
    requires k < |n.kids|
    ensures KidNodes(n, k, |n.kids|) == Nodes(n.kids[k]) + KidNodes(n, k + 1, |n.kids|) <= Nodes(n)
    ensures Values(Kids(p, n, k, |n.kids|))
         == Values(At(p + Label(n, k), n.kids[k])) + Values(Kids(p, n, k + 1, |n.kids|))
  {
    hide At, Values;
    KidsSplit(p, n, 0, k, |n.kids|);
    ValuesConcat(At(p + Label(n, k), n.kids[k]), Kids(p, n, k + 1, |n.kids|));
  }

  lemma WholeNode(p: Key, n: Node)
    ensures Nodes(n) == 1 + KidNodes(n, 0, |n.kids|)
    ensures Values(At(p, n)) == Values(Kids(p, n, 0, |n.kids|))
              + (if n.slot.Present? && n.slot.data != 0 then multiset{n.slot.data} else multiset{})
  {
    ValuesConcat(Own(p, n), Kids(p, n, 0, |n.kids|));
  }

  class Rax {
    var head: Node
    var numele: nat
    var numnodes: nat

    ghost predicate Valid()
      reads this
    {
      Wf(head) && numele == |At([], head)| && numnodes == Nodes(head)
    }

    /** The map the tree stands for. */
    ghost function Contents(): map<Key, Ptr>
      reads this
    {
      MapOf(At([], head))
    }

    constructor ()
      ensures Valid() && head == EMPTY_NODE && Contents() == map[] && numele == 0 && numnodes == 1
    {
      head, numele, numnodes := EMPTY_NODE, 0, 1;
    }

    /** raxFind. */
    method Find(s: Key) returns (r: Option<Ptr>)
      requires Valid()
      ensures r == if s in Contents() then Some(Contents()[s]) else None
    {
      var i, h, splitpos, ts := LowWalk(head, s);
      StopDecides(ts, h, s, splitpos);
      if i != |s| || (h.compr && splitpos != 0) || !h.slot.Present? {
        return None;
      }
      assert Path(ts) == s;
      return Some(h.slot.data);
    }
  
    /** raxGenericInsert, for raxInsert (overwrite) and raxTryInsert. */
    method GenericInsert(s: Key, data: Ptr, overwrite: bool)
      returns (inserted: bool, old_: Option<Ptr>, ghost at: (seq<Frame>, Node, nat))
      requires Valid()
      modifies this
      ensures Valid()
      ensures inserted == (s !in old(Contents()))
      ensures old_ == if inserted then None else Some(old(Contents())[s])
      ensures Contents() == if inserted || overwrite then old(Contents())[s := data] else old(Contents())
      ensures numele == old(numele) + (if inserted then 1 else 0)
      ensures at == Walk([], old(head), s) && Place(old(head), at.0, at.1)
      ensures Path(at.0) <= s && Stops(at.1, s[|Path(at.0)|..], at.2)
      ensures head == if inserted || overwrite then Insertion(at.0, at.1, at.2, s[|Path(at.0)|..], data) else old(head)
    {
      hide At, Nodes, Plug, Path, MapOf, Walk, Grow, Insertion;
      var i, h, j, ts := LowWalk(head, s);
      at := (ts, h, j);
      ghost var rest := s[|Path(ts)|..];
      StopDecides(ts, h, s, j);
      if i == |s| && (!h.compr || j == 0) {
        assert Path(ts) == s;
        InsertHere(ts, h, j, rest, data);
        if h.slot.Present? {
          StoreOver(ts, h, s, data);
          old_ := Some(h.slot.data);
          if overwrite { head := Plug(ts, h.(slot := Present(data))); }
          return false, old_, at;
        }
        StoreNew(ts, h, s, data);
        head := Plug(ts, h.(slot := Present(data)));
        numele := numele + 1;
        return true, None, at;
      }
      InsertNew(s, data, ts, h, j);
      return true, None, at;
    }

    /** The part of raxGenericInsert for a string that ends at no node: the two splitting
        algorithms, and the nodes that are missing. */
    method InsertNew(s: Key, data: Ptr, ts0: seq<Frame>, h0: Node, j: nat)
      requires Valid() && Place(head, ts0, h0) && Path(ts0) <= s && Stops(h0, s[|Path(ts0)|..], j)
      requires s !in Contents() && !(|Path(ts0)| + j == |s| && (!h0.compr || j == 0))
      modifies this
      ensures Valid() && Contents() == old(Contents())[s := data] && numele == old(numele) + 1
      ensures head == Insertion(ts0, h0, j, s[|Path(ts0)|..], data)
    {
      hide At, Nodes, Plug, Path, MapOf, Grow, Insertion;
      var ts, h, i := ts0, h0, |Path(ts0)| + j;
      ghost var rest := s[|Path(ts0)|..];
      if i != |s| { InsertBelow(ts, h, j, rest, data); }
      if h.compr && i != |s| {
        SplitKeeps(ts, h, j);
        var ts', split, added := SplitAtMismatch(ts, h, j);
        ts, h, numnodes := ts', split, numnodes + added;
      } else if h.compr {
        var postfix := Node(Present(data), |h.chars| - j > 1, h.chars[j..], [h.kids[0]]);
        var trimmed := Node(h.slot, j > 1, h.chars[..j], [postfix]);
        var fr := Frame(trimmed, 0);
        ghost var bare := postfix.(slot := Absent);
        CutKeeps(ts, h, j, fr, bare);
        StoreNew(ts + [fr], bare, s, data);
        InsertCut(ts, h, j, rest, data, fr, postfix);
        head := Plug(ts + [fr], postfix);
        numnodes, numele := numnodes + 1, numele + 1;
        return;
      }
      var ts', h', added := AppendTail(ts, h, s, i, Leaf(data));
      StoreNew(ts', h', s, data);
      head := Plug(ts', h'.(slot := Present(data)));
      numnodes, numele := numnodes + added, numele + 1;
      assert s[i..] == rest[j..];
    }
  
    /** raxRemove. The map loses exactly the key, unless the rewriting scan of the
        recompression writes more bytes than the counting scan counted: then the merged node
        keeps the bytes counted only, and a key left that is longer than a node can hold is
        lost as well. The place of the key decides which. */
    method Remove(s: Key) returns (removed: bool, old_: Option<Ptr>, overrun: bool, ghost at: (seq<Frame>, Node))
      requires Valid()
      modifies this
      ensures Valid() && numele == old(numele) - (if removed then 1 else 0)
      ensures removed == (s in old(Contents()))
      ensures old_ == if removed then Some(old(Contents())[s]) else None
      ensures overrun <==> Contents() != old(Contents()) - {s}
      ensures overrun ==> exists k :: k in old(Contents()) && k != s && k !in Contents() && |k| > RAX_NODE_MAX_SIZE
      ensures Place(old(head), at.0, at.1) && at == (Walk([], old(head), s).0, Walk([], old(head), s).1)
      ensures removed ==> Path(at.0) == s && at.1.slot.Present?
      ensures removed ==> (overrun <==> Overruns(at.0, Cleared(at.1)))
      ensures removed ==> var q := Removal(at.0, Cleared(at.1)); head == Plug(q.0, q.1)
      ensures !removed ==> head == old(head) && !overrun
    {
      hide At, Nodes, Plug, Path, MapOf, Walk, Overruns, Removal, Overrun, Merged, ChainKey, Counted;
      var i, h, splitpos, ts := LowWalk(head, s);
      StopDecides(ts, h, s, splitpos);
      at, overrun := (ts, h), false;
      if i != |s| || (h.compr && splitpos != 0) || !h.slot.Present? {
        return false, None, false, at;
      }
      assert Path(ts) == s;
      old_ := Some(h.slot.data);
      ClearSlot(ts, h, s);
      h := Cleared(h);
      var gone;
      ghost var was, place := Plug(ts, h), (ts, h);
      ts, h, gone, overrun := RemoveAt(ts, h);
      if overrun {
        ghost var q := Overrun(place.0, place.1);
        LostKey(was, q.0, q.1);
      }
      numele, numnodes := numele - 1, numnodes - gone;
      PlugWf(ts, h);
      head := Plug(ts, h);
      return true, old_, overrun, at;
    }

    /** raxFreeWithCallback: the assertion that no node is left holds. */
    method Free() returns (given: multiset<Ptr>)
      requires Valid()
      modifies this
      ensures numnodes == 0 && given == Values(At([], old(head)))
    {
      numnodes, given := RecursiveFree([], head, numnodes);
    }

    /** numele counts the keys. */
    lemma NumeleCountsKeys()
      requires Valid()
      ensures numele == |Contents()|
    {
      AtAscending([], head);
      AscendingDistinct(At([], head));
      MapOfSize(At([], head));
    }
  }
}
