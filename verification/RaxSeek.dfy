/** Where a probe string falls among the entries of a radix tree, seen from the
    node at which raxLowWalk stops. */
module RaxSeek {
  import opened Common
  import opened RaxTree
  import opened RaxContents
  import opened RaxSteps

  /** The first byte that differs decides. */
  lemma LessAt(a: Key, b: Key, m: nat)
    requires m < |a| && m < |b| && a[..m] == b[..m] && a[m] < b[m]
    ensures Less(a, b)
  {
    assert a == a[..m] + a[m..] && b == a[..m] + b[m..];
    LessPrefix(a[..m], a[m..], b[m..]);
  }

  /** A child whose edge differs from the probe at byte j. */
  lemma EdgeAgainst(p: Key, n: Node, k: nat, rest: Key, j: nat, e: Key)
    requires p + Label(n, k) <= e && j < |Label(n, k)| && j < |rest|
    requires Label(n, k)[..j] == rest[..j]
    ensures Label(n, k)[j] < rest[j] ==> Less(e, p + rest)
    ensures Label(n, k)[j] > rest[j] ==> Less(p + rest, e)
  {
    var s, m, l := p + rest, |p| + j, Label(n, k);
    assert (p + l)[..m] == p + l[..j] && (p + l)[m] == l[j] && s[..m] == p + rest[..j] && s[m] == rest[j];
    assert e[..m] == s[..m] && e[m] == l[j];
    if l[j] < rest[j] { LessAt(e, s, m); }
    if l[j] > rest[j] { LessAt(s, e, m); }
  }

  /** A normal node without the probe's byte: the children below and above it. */
  lemma NormalMiss(p: Key, n: Node, rest: Key, g: nat)
    requires Shape(n) && !n.compr && rest != [] && rest[0] !in n.chars
    requires FirstAbove(n.chars, rest[0], g)
    ensures AllLess(Kids(p, n, 0, g), p + rest)
    ensures AllGreater(Kids(p, n, g, |n.kids|), p + rest)
  {
    hide Kids, Less;
    KidsPrefix(p, n, 0, g);
    KidsPrefix(p, n, g, |n.kids|);
    forall e | e in Kids(p, n, 0, g) ensures Less(e.0, p + rest) {
      var k :| 0 <= k < g && p + Label(n, k) <= e.0;
      assert n.chars[k] in n.chars;
      EdgeAgainst(p, n, k, rest, 0, e.0);
    }
    forall e | e in Kids(p, n, g, |n.kids|) ensures Less(p + rest, e.0) {
      var k :| g <= k < |n.kids| && p + Label(n, k) <= e.0;
      EdgeAgainst(p, n, k, rest, 0, e.0);
    }
  }

  /** A compressed node that differs from the probe at byte j. */
  lemma ComprMiss(p: Key, n: Node, rest: Key, j: nat)
    requires Shape(n) && n.compr && j < |n.chars| && j < |rest| && n.chars[..j] == rest[..j]
    ensures n.chars[j] < rest[j] ==> AllLess(Kids(p, n, 0, |n.kids|), p + rest)
    ensures n.chars[j] > rest[j] ==> AllGreater(Kids(p, n, 0, |n.kids|), p + rest)
  {
    hide Kids, Less;
    KidsPrefix(p, n, 0, |n.kids|);
    forall e | e in Kids(p, n, 0, |n.kids|)
      ensures n.chars[j] < rest[j] ==> Less(e.0, p + rest)
      ensures n.chars[j] > rest[j] ==> Less(p + rest, e.0)
    {
      var k :| 0 <= k < |n.kids| && p + Label(n, k) <= e.0;
      EdgeAgainst(p, n, k, rest, j, e.0);
    }
  }

  /** A probe that is used up at n, or inside its edge: all children are greater. */
  lemma UsedUp(p: Key, n: Node, rest: Key)
    requires Shape(n) && (rest == [] || (n.compr && |rest| < |n.chars| && n.chars[..|rest|] == rest))
    ensures AllGreater(Kids(p, n, 0, |n.kids|), p + rest)
  {
    hide Kids, Less;
    KidsPrefix(p, n, 0, |n.kids|);
    forall e | e in Kids(p, n, 0, |n.kids|) ensures Less(p + rest, e.0) {
      var k :| 0 <= k < |n.kids| && p + Label(n, k) <= e.0;
      assert (p + Label(n, k))[..|p + rest|] == p + rest;
      PrefixLess(p + rest, e.0);
    }
  }

  lemma OwnOrder(p: Key, n: Node, rest: Key)
    ensures rest != [] ==> AllLess(Own(p, n), p + rest)
    ensures rest == [] ==> forall e :: e in Own(p, n) ==> e.0 == p + rest
  {
    if rest != [] { PrefixLess(p, p + rest); }
  }

  // ------------------------------------------------------------ the six operators

  datatype Op = First | Last | Gt | Ge | Lt | Le | Eq

  ghost predicate Matches(op: Op, ele: Key, k: Key) {
    match op
    case First => true
    case Last => true
    case Gt => Less(ele, k)
    case Ge => ele == k || Less(ele, k)
    case Lt => Less(k, ele)
    case Le => ele == k || Less(k, ele)
    case Eq => ele == k
  }

  predicate Forward(op: Op) { op.First? || op.Gt? || op.Ge? }

  /** Index i holds the entry the operator asks for: the nearest match. */
  ghost predicate Lands(op: Op, ele: Key, es: seq<Entry>, i: nat) {
    && i < |es| && Matches(op, ele, es[i].0)
    && (Forward(op) || op.Eq? ==> forall k :: 0 <= k < i ==> !Matches(op, ele, es[k].0))
    && (!Forward(op) ==> forall k :: i < k < |es| ==> !Matches(op, ele, es[k].0))
  }

  ghost predicate NoMatch(op: Op, ele: Key, es: seq<Entry>) {
    forall k :: 0 <= k < |es| ==> !Matches(op, ele, es[k].0)
  }

  ghost predicate AllMatch(op: Op, ele: Key, es: seq<Entry>) {
    forall e :: e in es ==> Matches(op, ele, e.0)
  }

  ghost predicate NoneMatch(op: Op, ele: Key, es: seq<Entry>) {
    forall e :: e in es ==> !Matches(op, ele, e.0)
  }

  /** Entries cut so that the operator matches exactly the second part. */
  lemma LandForward(op: Op, ele: Key, es: seq<Entry>, lo: seq<Entry>, todo: seq<Entry>)
    requires es == lo + todo && NoneMatch(op, ele, lo) && AllMatch(op, ele, todo) && Forward(op)
    ensures todo == [] ==> NoMatch(op, ele, es)
    ensures todo != [] ==> Lands(op, ele, es, |lo|)
  {
    hide Less;
    forall k | 0 <= k < |lo| ensures !Matches(op, ele, es[k].0) {
      assert es[k] in lo;
    }
    if todo != [] { assert todo[0] in todo; }
  }

  lemma LandBackward(op: Op, ele: Key, es: seq<Entry>, done: seq<Entry>, hi: seq<Entry>)
    requires es == done + hi && NoneMatch(op, ele, hi) && AllMatch(op, ele, done) && (op.Lt? || op.Le? || op.Last?)
    ensures done == [] ==> NoMatch(op, ele, es)
    ensures done != [] ==> Lands(op, ele, es, |done| - 1)
  {
    hide Less;
    forall k | |done| <= k < |es| ensures !Matches(op, ele, es[k].0) {
      assert es[k] == hi[k - |done|];
      assert es[k] in hi;
    }
    if done != [] { assert done[|done| - 1] in done; }
  }

  /** In an ascending list at most one key equals the probe. */
  lemma LandExact(op: Op, ele: Key, es: seq<Entry>, i: nat)
    requires Ascending(es) && i < |es| && es[i].0 == ele && (op.Ge? || op.Le? || op.Eq?)
    ensures Lands(op, ele, es, i)
  {
    LessIrreflexive(ele);
    forall k | 0 <= k < |es| && k != i
      ensures k < i ==> Less(es[k].0, ele) && !Less(ele, es[k].0) && es[k].0 != ele
      ensures k > i ==> Less(ele, es[k].0) && !Less(es[k].0, ele) && es[k].0 != ele
    {
      if Less(ele, es[k].0) && Less(es[k].0, ele) { LessTransitive(ele, es[k].0, ele); }
    }
  }

  /** AllLess and AllGreater in terms of the operators. */
  lemma OrderMatches(ele: Key, es: seq<Entry>)
    ensures AllLess(es, ele) ==> NoneMatch(Gt, ele, es) && NoneMatch(Ge, ele, es)
    ensures AllLess(es, ele) ==> AllMatch(Lt, ele, es) && AllMatch(Le, ele, es) && NoneMatch(Eq, ele, es)
    ensures AllGreater(es, ele) ==> AllMatch(Gt, ele, es) && AllMatch(Ge, ele, es)
    ensures AllGreater(es, ele) ==> NoneMatch(Lt, ele, es) && NoneMatch(Le, ele, es) && NoneMatch(Eq, ele, es)
    ensures (forall e :: e in es ==> e.0 == ele) ==> NoneMatch(Gt, ele, es) && NoneMatch(Lt, ele, es)
  {
    LessIrreflexive(ele);
    forall e | e in es ensures !(Less(ele, e.0) && Less(e.0, ele)) {
      if Less(ele, e.0) && Less(e.0, ele) { LessTransitive(ele, e.0, ele); }
    }
  }

  // ---------------------------------------------------------- cutting at the stop

  /** Entries around a node, cut at its child g. */
  lemma CutAtChild(head: Node, st: seq<Frame>, h: Node, g: nat)
    requires Place(head, st, h) && g <= |h.kids|
    ensures At([], head) == Before(st) + Own(Path(st), h) + Kids(Path(st), h, 0, g)
                            + (Kids(Path(st), h, g, |h.kids|) + After(st))
  {
    hide Kids, Less, Before, After, Plug, Own;
    var p := Path(st);
    PlugEntries(st, h);
    KidsSplit(p, h, 0, g, |h.kids|);
    Flatten4(Before(st), Own(p, h), Kids(p, h, 0, g), Kids(p, h, g, |h.kids|), After(st));
  }

  lemma Flatten4<T>(b: seq<T>, o: seq<T>, k: seq<T>, l: seq<T>, a: seq<T>)
    ensures b + (o + (k + l)) + a == b + o + k + (l + a)
  {
  }

  /** Everything before, or from, child g is on one side of the probe. */
  ghost predicate Divides(st: seq<Frame>, h: Node, g: nat, ele: Key)
    requires WfStack(st) && g <= |h.kids|
  {
    && AllLess(Before(st), ele)
    && AllLess(Kids(Path(st), h, 0, g), ele)
    && AllGreater(Kids(Path(st), h, g, |h.kids|), ele)
    && AllGreater(After(st), ele)
    && (if Path(st) == ele then forall e :: e in Own(Path(st), h) ==> e.0 == ele
        else AllLess(Own(Path(st), h), ele))
  }

  /** At the node where the walk stops, the probe separates the children. */
  lemma StopDivides(head: Node, st: seq<Frame>, h: Node, ele: Key, j: nat, g: nat)
    requires Place(head, st, h) && Path(st) <= ele && Stops(h, ele[|Path(st)|..], j) && g <= |h.kids|
    requires var rest := ele[|Path(st)|..];
             if rest == [] || j == |rest| then g == 0
             else if h.compr then g == if h.chars[j] < rest[j] then |h.kids| else 0
             else FirstAbove(h.chars, rest[0], g)
    ensures Divides(st, h, g, ele)
  {
    hide Kids, Less, Before, After, Plug, Own, At;
    var p := Path(st);
    var rest := ele[|p|..];
    assert ele == p + rest;
    PlaceOrder(st, ele);
    OwnOrder(p, h, rest);
    NoneBetweenAt(p, h, 0);
    NoneBetweenAt(p, h, |h.kids|);
    if rest == [] || j == |rest| {
      UsedUp(p, h, rest);
    } else if h.compr {
      ComprMiss(p, h, rest, j);
    } else {
      NormalMiss(p, h, rest, g);
    }
  }

  /** The edge bound of a missing byte exists. */
  lemma FindAbove(chars: Key, c: Byte) returns (g: nat)
    requires SortedBytes(chars)
    ensures FirstAbove(chars, c, g)
  {
    g := 0;
    while g < |chars| && chars[g] <= c
      invariant g <= |chars| && forall k :: 0 <= k < g ==> chars[k] <= c
    {
      g := g + 1;
    }
  }

  /** Forward operators take what follows child g; the node's own key too when
      it is the probe and the operator includes it (then nothing is skipped). */
  lemma LandAfter(head: Node, st: seq<Frame>, h: Node, g: nat, op: Op, ele: Key)
    requires Place(head, st, h) && g <= |h.kids| && Divides(st, h, g, ele)
    requires op.Gt? || (op.Ge? && (Path(st) == ele ==> h.slot.Absent?))
    ensures var es, todo := At([], head), Kids(Path(st), h, g, |h.kids|) + After(st);
            && |todo| <= |es|
            && (todo == [] ==> NoMatch(op, ele, es))
            && (todo != [] ==> Lands(op, ele, es, |es| - |todo|))
  {
    hide Kids, Less, Before, After, Plug, At, Matches;
    var p := Path(st);
    CutAtChild(head, st, h, g);
    var lo, todo := Before(st) + Own(p, h) + Kids(p, h, 0, g), Kids(p, h, g, |h.kids|) + After(st);
    OrderMatches(ele, Before(st));
    OrderMatches(ele, Own(p, h));
    OrderMatches(ele, Kids(p, h, 0, g));
    OrderMatches(ele, Kids(p, h, g, |h.kids|));
    OrderMatches(ele, After(st));
    LandForward(op, ele, At([], head), lo, todo);
  }

  /** Backward operators take what precedes child g, or what precedes the node
      itself when its key is the probe. */
  lemma LandBefore(head: Node, st: seq<Frame>, h: Node, g: nat, op: Op, ele: Key)
    requires Place(head, st, h) && g <= |h.kids| && Divides(st, h, g, ele)
    requires op.Lt? || (op.Le? && (Path(st) == ele ==> h.slot.Absent?))
    ensures var es := At([], head);
            var done := if Path(st) == ele then Before(st)
                        else Before(st) + Own(Path(st), h) + Kids(Path(st), h, 0, g);
            (Path(st) == ele ==> g == 0) ==>
            && (done == [] ==> NoMatch(op, ele, es))
            && (done != [] ==> Lands(op, ele, es, |done| - 1))
  {
    hide Kids, Less, Before, After, Plug, At, Matches, NoMatch, Lands, Own;
    var p := Path(st);
    CutAtChild(head, st, h, g);
    var b, o, k, r := Before(st), Own(p, h), Kids(p, h, 0, g), Kids(p, h, g, |h.kids|) + After(st);
    OrderMatches(ele, b);
    OrderMatches(ele, o);
    OrderMatches(ele, k);
    OrderMatches(ele, Kids(p, h, g, |h.kids|));
    OrderMatches(ele, After(st));
    if p != ele {
      LandBackward(op, ele, At([], head), b + o + k, r);
    } else if g == 0 {
      NoneBetweenAt(p, h, 0);
      OwnAbsent(p, h);
      assert b + o + [] + r == b + (o + r);
      LandBackward(op, ele, At([], head), b, o + r);
    }
  }

  lemma OwnAbsent(p: Key, h: Node)
    ensures h.slot.Absent? ==> Own(p, h) == []
  {
  }
}
