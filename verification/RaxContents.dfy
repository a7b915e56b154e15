/** The finite map a radix tree stands for, and how a place in the tree
    (a stack of parents and the node below it) cuts its sorted entries. */
module RaxContents {
  import opened RaxTree

  /** The map listed by es. */
  ghost function MapOf(es: seq<Entry>): map<Key, Ptr> {
    if es == [] then map[] else MapOf(es[..|es| - 1])[es[|es| - 1].0 := es[|es| - 1].1]
  }

  ghost predicate HasKey(es: seq<Entry>, k: Key) {
    exists i :: 0 <= i < |es| && es[i].0 == k
  }

  ghost predicate Distinct(es: seq<Entry>) {
    forall i, j :: 0 <= i < j < |es| ==> es[i].0 != es[j].0
  }

  lemma AscendingDistinct(es: seq<Entry>)
    requires Ascending(es)
    ensures Distinct(es)
  {
    forall i, j | 0 <= i < j < |es| ensures es[i].0 != es[j].0 {
      LessIrreflexive(es[i].0);
    }
  }

  lemma {:induction false} MapOfKeys(es: seq<Entry>, k: Key)
    ensures k in MapOf(es) <==> HasKey(es, k)
  {
    if es != [] {
      var init, last := es[..|es| - 1], es[|es| - 1];
      MapOfKeys(init, k);
      if HasKey(init, k) {
        var i :| 0 <= i < |init| && init[i].0 == k;
        assert es[i].0 == k;
      }
      if HasKey(es, k) && k != last.0 {
        var i :| 0 <= i < |es| && es[i].0 == k;
        assert init[i].0 == k;
      }
    }
  }

  lemma {:induction false} MapOfValue(es: seq<Entry>, i: nat)
    requires Distinct(es) && i < |es|
    ensures es[i].0 in MapOf(es) && MapOf(es)[es[i].0] == es[i].1
  {
    if i < |es| - 1 {
      MapOfValue(es[..|es| - 1], i);
    }
  }

  lemma {:induction false} MapOfSize(es: seq<Entry>)
    requires Distinct(es)
    ensures |MapOf(es)| == |es|
  {
    if es != [] {
      MapOfSize(es[..|es| - 1]);
      MapOfKeys(es[..|es| - 1], es[|es| - 1].0);
    }
  }

  lemma DistinctInit(es: seq<Entry>)
    requires Distinct(es) && es != []
    ensures Distinct(es[..|es| - 1])
    ensures !HasKey(es[..|es| - 1], es[|es| - 1].0)
  {
  }

  /** One more entry in an ascending list is one more key of its map. */
  lemma {:induction false} MapInsert(a: seq<Entry>, e: Entry, b: seq<Entry>)
    requires Distinct(a + [e] + b)
    ensures MapOf(a + [e] + b) == MapOf(a + b)[e.0 := e.1]
    ensures e.0 !in MapOf(a + b)
    decreases |b|
  {
    hide Distinct, HasKey;
    var big, small := a + [e] + b, a + b;
    DistinctInit(big);
    if b == [] {
      assert big[..|big| - 1] == a && small == a;
      MapOfKeys(a, e.0);
    } else {
      var b', last := b[..|b| - 1], b[|b| - 1];
      assert big[..|big| - 1] == a + [e] + b' && small[..|small| - 1] == a + b';
      MapInsert(a, e, b');
      MapOfKeys(a + [e] + b', last.0);
    }
  }

  /** Changing the value of one entry. */
  lemma MapUpdate(a: seq<Entry>, k: Key, v: Ptr, w: Ptr, b: seq<Entry>)
    requires Distinct(a + [(k, v)] + b)
    ensures k in MapOf(a + [(k, v)] + b) && MapOf(a + [(k, v)] + b)[k] == v
    ensures MapOf(a + [(k, w)] + b) == MapOf(a + [(k, v)] + b)[k := w]
  {
    var e, e' := a + [(k, v)] + b, a + [(k, w)] + b;
    forall i, j | 0 <= i < j < |e'| ensures e'[i].0 != e'[j].0 {
      assert e'[i].0 == e[i].0 && e'[j].0 == e[j].0;
    }
    MapInsert(a, (k, v), b);
    MapInsert(a, (k, w), b);
  }

  // ------------------------------------------------------- where the walk stops

  /** Why raxLowWalk stops at h with the string rest still to be matched below
      h's path: the string is used up, or byte j of h's edge does not match. */
  ghost predicate Stops(h: Node, rest: Key, j: nat) {
    if h.compr then
      && j < |h.chars| && j <= |rest| && h.chars[..j] == rest[..j]
      && (j < |rest| ==> h.chars[j] != rest[j])
    else j == 0 && (rest == [] || rest[0] !in h.chars)
  }

  ghost predicate AllLess(es: seq<Entry>, s: Key) {
    forall e :: e in es ==> Less(e.0, s)
  }

  ghost predicate AllGreater(es: seq<Entry>, s: Key) {
    forall e :: e in es ==> Less(s, e.0)
  }

  /** A string below one child lies between the siblings on either side. */
  lemma SiblingOrder(p: Key, fr: Frame, s: Key)
    requires WfFrame(fr) && p + Label(fr.node, fr.idx) <= s
    ensures AllLess(Own(p, fr.node), s)
    ensures AllLess(Kids(p, fr.node, 0, fr.idx), s)
    ensures AllGreater(Kids(p, fr.node, fr.idx + 1, |fr.node.kids|), s)
  {
    var n, i := fr.node, fr.idx;
    PrefixLess(p, s);
    KidsPrefix(p, n, 0, i);
    KidsPrefix(p, n, i + 1, |n.kids|);
    forall e | e in Kids(p, n, 0, i) ensures Less(e.0, s) {
      var k :| 0 <= k < i && p + Label(n, k) <= e.0;
      EdgeOrder(p, n, k, i, e.0, s);
    }
    forall e | e in Kids(p, n, i + 1, |n.kids|) ensures Less(s, e.0) {
      var k :| i + 1 <= k < |n.kids| && p + Label(n, k) <= e.0;
      EdgeOrder(p, n, i, k, s, e.0);
    }
  }

  /** A string that passes through a place in the tree lies between the
      entries before it and those after it. */
  lemma {:induction false} PlaceOrder(st: seq<Frame>, s: Key)
    requires WfStack(st) && Path(st) <= s
    ensures AllLess(Before(st), s)
    ensures AllGreater(After(st), s)
    decreases |st|
  {
    if st != [] {
      var init, fr := st[..|st| - 1], st[|st| - 1];
      PlaceOrder(init, s);
      SiblingOrder(Path(init), fr, s);
    }
  }

  lemma PrefixCancel(p: Key, a: Key, b: Key)
    requires p + a <= p + b
    ensures a <= b
  {
    forall y | 0 <= y < |a| ensures a[y] == b[y] {
      assert (p + a)[|p| + y] == (p + b)[|p| + y];
    }
  }

  /** Below a node where the walk stops, no child holds the string. */
  lemma StoppedKids(p: Key, h: Node, rest: Key, j: nat)
    requires Wf(h) && Stops(h, rest, j)
    ensures forall e :: e in Kids(p, h, 0, |h.kids|) ==> e.0 != p + rest
  {
    KidsPrefix(p, h, 0, |h.kids|);
    forall e | e in Kids(p, h, 0, |h.kids|) ensures e.0 != p + rest {
      var k :| 0 <= k < |h.kids| && p + Label(h, k) <= e.0;
      if e.0 == p + rest {
        PrefixCancel(p, Label(h, k), rest);
        assert false;
      }
    }
  }

  /** The string can only be h's own key. */
  lemma OnlyHere(st: seq<Frame>, h: Node, s: Key, j: nat, e: Entry)
    requires WfStack(st) && Wf(h)
    requires Path(st) <= s && Stops(h, s[|Path(st)|..], j)
    requires e in Before(st) + At(Path(st), h) + After(st) && e.0 == s
    ensures e in Own(Path(st), h)
  {
    assert s == Path(st) + s[|Path(st)|..];
    PlaceOrder(st, s);
    LessIrreflexive(s);
    StoppedKids(Path(st), h, s[|Path(st)|..], j);
  }

  /** The entries of a well-formed tree, cut at a place. */
  lemma CutEntries(st: seq<Frame>, h: Node)
    requires WfStack(st) && Wf(h) && (st != [] ==> KeyLeaf(h))
    ensures At([], Plug(st, h)) == Before(st) + At(Path(st), h) + After(st)
    ensures Ascending(At([], Plug(st, h))) && Distinct(At([], Plug(st, h)))
  {
    PlugWf(st, h);
    AtAscending([], Plug(st, h));
    AscendingDistinct(At([], Plug(st, h)));
    PlugEntries(st, h);
  }

  lemma OwnHead(p: Key, h: Node)
    requires h.slot.Present?
    ensures At(p, h) != [] && At(p, h)[0] == (p, h.slot.data)
  {
  }

  /** The whole tree around a place where the walk stopped: the string is a key
      exactly when the walk used it up at a node that is a key. */
  lemma StopDecides(st: seq<Frame>, h: Node, s: Key, j: nat)
    requires WfStack(st) && Wf(h) && (st != [] ==> KeyLeaf(h))
    requires Path(st) <= s && Stops(h, s[|Path(st)|..], j)
    ensures s in MapOf(At([], Plug(st, h))) <==> Path(st) == s && h.slot.Present?
    ensures Path(st) == s && h.slot.Present? ==> MapOf(At([], Plug(st, h)))[s] == h.slot.data
  {
    hide At, Kids, Before, After, Plug, MapOf, Less, Label;
    CutEntries(st, h);
    var b, a := Before(st), After(st);
    var mid := At(Path(st), h);
    var all := b + mid + a;
    MapOfKeys(all, s);
    if Path(st) == s && h.slot.Present? {
      OwnHead(Path(st), h);
      assert all[|b|] == mid[0];
      MapOfValue(all, |b|);
    } else if HasKey(all, s) {
      var i :| 0 <= i < |all| && all[i].0 == s;
      OnlyHere(st, h, s, j, all[i]);
      assert false;
    }
  }
}
