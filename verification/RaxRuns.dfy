/** Whole runs over a radix tree: any sequence of insertions and removals, and
    walks with the iterator to either end. */
module RaxRuns {
  import Common
  import opened RaxTree
  import opened RaxContents
  import opened RaxSeek
  import Rax
  import RaxIterator

  // ------------------------------------------------------------- updates

  datatype Call = Insert(key: Key, data: Ptr) | TryInsert(key: Key, data: Ptr) | Remove(key: Key)

  /** What a call does to a finite map. */
  function Effect(m: map<Key, Ptr>, c: Call): map<Key, Ptr> {
    match c
    case Insert(k, v) => m[k := v]
    case TryInsert(k, v) => if k in m then m else m[k := v]
    case Remove(k) => m - {k}
  }

  function Effects(m: map<Key, Ptr>, cs: seq<Call>): map<Key, Ptr> {
    if cs == [] then m else Effect(Effects(m, cs[..|cs| - 1]), cs[|cs| - 1])
  }

  ghost predicate ShortKeys(m: map<Key, Ptr>) {
    forall k :: k in m ==> |k| <= RAX_NODE_MAX_SIZE
  }

  /** One call on the tree; false when the map is not what the call makes of it. */
  method Apply(t: Rax.Rax, c: Call) returns (ok: bool)
    requires t.Valid()
    modifies t
    ensures t.Valid() && (ok <==> t.Contents() == Effect(old(t.Contents()), c))
    ensures !ok ==> c.Remove? && !ShortKeys(Effect(old(t.Contents()), c))
  {
    hide Place, Path, MapOf, At, Wf;
    ok := true;
    match c {
      case Insert(k, v) => var _, _, _ := t.GenericInsert(k, v, true);
      case TryInsert(k, v) => var _, _, _ := t.GenericInsert(k, v, false);
      case Remove(k) =>
        var _, _, overrun, _ := t.Remove(k);
        ok := !overrun;
    }
  }

  lemma EffectsStep(m: map<Key, Ptr>, cs: seq<Call>, n: nat)
    requires n < |cs|
    ensures Effects(m, cs[..n + 1]) == Effect(Effects(m, cs[..n]), cs[n])
  {
    assert cs[..n + 1][..n] == cs[..n];
  }

  lemma {:induction false} ShortEffects(m: map<Key, Ptr>, cs: seq<Call>, n: nat)
    requires n <= |cs| && ShortKeys(m) && forall c :: c in cs ==> |c.key| <= RAX_NODE_MAX_SIZE
    ensures ShortKeys(Effects(m, cs[..n]))
  {
    if n > 0 {
      ShortEffects(m, cs, n - 1);
      EffectsStep(m, cs, n - 1);
      assert cs[n - 1] in cs;
    }
  }

  /** Any sequence of calls: the tree holds the map that the calls define, counts
      its keys, and a lookup of any key gives what the map says. That ends with the first
      removal whose recompression writes more than it counted, which takes a key longer
      than a node can hold, and at that removal the map is wrong. */
  method Replay(t: Rax.Rax, cs: seq<Call>, probe: Key) returns (done: nat, r: Common.Option<Ptr>)
    requires t.Valid()
    modifies t
    ensures done <= |cs|
    ensures done == |cs| ==> t.Valid() && t.Contents() == Effects(old(t.Contents()), cs) && t.numele == |t.Contents()|
    ensures done == |cs| ==> r == if probe in t.Contents() then Common.Some(t.Contents()[probe]) else Common.None
    ensures done < |cs| ==> t.Valid() && t.Contents() != Effects(old(t.Contents()), cs[..done + 1])
    ensures done < |cs| ==> cs[done].Remove? && !ShortKeys(Effects(old(t.Contents()), cs[..done + 1]))
    ensures ShortKeys(old(t.Contents())) && (forall c :: c in cs ==> |c.key| <= RAX_NODE_MAX_SIZE) ==> done == |cs|
  {
    hide *;
    done := 0;
    ghost var m := t.Contents();
    EffectsNone(m, cs);
    while done < |cs|
      invariant 0 <= done <= |cs| && t.Valid()
      invariant t.Contents() == Effects(m, cs[..done])
    {
      EffectsStep(m, cs, done);
      var ok := Apply(t, cs[done]);
      if !ok {
        if ShortKeys(m) && forall c :: c in cs ==> |c.key| <= RAX_NODE_MAX_SIZE { ShortEffects(m, cs, done + 1); }
        return done, Common.None;
      }
      done := done + 1;
    }
    assert cs[..done] == cs;
    t.NumeleCountsKeys();
    r := t.Find(probe);
  }

  lemma EffectsNone(m: map<Key, Ptr>, cs: seq<Call>)
    ensures Effects(m, cs[..0]) == m
  {
  }

  // --------------------------------------------------------------- walks

  /** What an operator selects is closed upwards, or downwards. */
  lemma Closed(op: Op, ele: Key, a: Key, b: Key)
    requires Less(a, b)
    ensures Forward(op) && Matches(op, ele, a) ==> Matches(op, ele, b)
    ensures !Forward(op) && !op.Eq? && Matches(op, ele, b) ==> Matches(op, ele, a)
  {
    if Forward(op) && !op.First? && Less(ele, a) { LessTransitive(ele, a, b); }
    if !Forward(op) && !op.Eq? && !op.Last? && Less(b, ele) { LessTransitive(a, b, ele); }
  }

  /** From where a forward operator lands, the rest of the entries are the matches. */
  lemma AllAbove(op: Op, ele: Key, es: seq<Entry>, i: nat)
    requires Ascending(es) && Forward(op) && Lands(op, ele, es, i)
    ensures Ascending(es[i..])
    ensures forall e :: e in es[i..] <==> e in es && Matches(op, ele, e.0)
  {
    forall k | i < k < |es| ensures Matches(op, ele, es[k].0) {
      Closed(op, ele, es[i].0, es[k].0);
    }
  }

  lemma AllBelow(op: Op, ele: Key, es: seq<Entry>, i: nat)
    requires Ascending(es) && !Forward(op) && !op.Eq? && Lands(op, ele, es, i)
    ensures Ascending(es[..i + 1])
    ensures forall e :: e in es[..i + 1] <==> e in es && Matches(op, ele, e.0)
  {
    forall k | 0 <= k < i ensures Matches(op, ele, es[k].0) {
      Closed(op, ele, es[k].0, es[i].0);
    }
  }

  /** The entries in order, and what they are in terms of the map. */
  lemma SortedEntries(rt: Rax.Rax)
    requires rt.Valid()
    ensures Ascending(At([], rt.head))
    ensures forall k, v :: (k, v) in At([], rt.head) <==> k in rt.Contents() && rt.Contents()[k] == v
  {
    hide Less, At, Wf;
    AtAscending([], rt.head);
    EntriesAreMap(At([], rt.head));
  }

  lemma EntriesAreMap(es: seq<Entry>)
    requires Ascending(es)
    ensures forall k, v :: (k, v) in es <==> k in MapOf(es) && MapOf(es)[k] == v
  {
    AscendingDistinct(es);
    forall k, v ensures (k, v) in es <==> k in MapOf(es) && MapOf(es)[k] == v {
      MapOfKeys(es, k);
      forall i | 0 <= i < |es| ensures es[i].0 in MapOf(es) && MapOf(es)[es[i].0] == es[i].1 {
        MapOfValue(es, i);
      }
      if HasKey(es, k) {
        var i :| 0 <= i < |es| && es[i].0 == k;
        assert (k, es[i].1) in es;
      }
    }
  }

  lemma NoneSelected(op: Op, ele: Key, es: seq<Entry>)
    requires NoMatch(op, ele, es)
    ensures Ascending([]) && forall e :: e in es ==> !Matches(op, ele, e.0)
  {
  }

  /** raxNext to the end, after a seek: the entry landed on and all that follow it. */
  method RestOf(it: RaxIterator.Iterator, ghost first: nat) returns (seen: seq<Entry>)
    requires it.Valid() && !it.eof && it.justSeeked && it.On(first)
    modifies it
    ensures first <= |it.Entries()| && seen == it.Entries()[first..]
  {
    hide *;
    ghost var es, at := it.Entries(), first;
    it.OnEntry(first);
    seen := [];
    var more := it.Next(first);
    while more
      invariant it.Valid() && more == !it.eof && first <= at <= |es|
      invariant more ==> !it.justSeeked && it.On(at)
      invariant !more ==> at == |es|
      invariant seen == es[first..at]
      decreases |es| - at, more
    {
      it.OnEntry(at);
      seen := seen + [(it.key, it.data)];
      more := it.Next(at);
      at := at + 1;
    }
  }

  /** raxPrev to the start, after a seek, the entries listed in ascending order. */
  method UpTo(it: RaxIterator.Iterator, ghost last: nat) returns (seen: seq<Entry>)
    requires it.Valid() && !it.eof && it.justSeeked && it.On(last)
    modifies it
    ensures last < |it.Entries()| && seen == it.Entries()[..last + 1]
  {
    hide *;
    ghost var es, at: int := it.Entries(), last;
    it.OnEntry(last);
    seen := [];
    var more := it.Prev(last);
    while more
      invariant it.Valid() && more == !it.eof && -1 <= at <= last < |es|
      invariant more ==> !it.justSeeked && it.On(at) && at >= 0
      invariant !more ==> at == -1
      invariant seen == es[at + 1..last + 1]
      decreases at, more
    {
      it.OnEntry(at);
      seen := [(it.key, it.data)] + seen;
      more := it.Prev(at);
      at := at - 1;
    }
  }

  /** raxSeek with "^", ">" or ">=" and raxNext to the end: every matching key with its
      value, once each, in ascending order. */
  method WalkUp(rt: Rax.Rax, op: string, ele: Key) returns (seen: seq<Entry>)
    requires rt.Valid() && RaxIterator.ParseOp(op).Some? && Forward(RaxIterator.ParseOp(op).value)
    ensures Ascending(seen)
    ensures forall k, v :: (k, v) in seen <==>
              k in rt.Contents() && rt.Contents()[k] == v && Matches(RaxIterator.ParseOp(op).value, ele, k)
  {
    hide Place, Path, Before, RaxIterator.ParseOp, Less, Lands, NoMatch, Ascending, At, Matches, MapOf, Rax.Rax.Valid,
      RaxIterator.Iterator.Valid;
    var it := new RaxIterator.Iterator(rt);
    var _ := it.Seek(op, ele);
    ghost var o, es := RaxIterator.ParseOp(op).value, At([], rt.head);
    SortedEntries(rt);
    if it.eof {
      NoneSelected(o, ele, es);
      return [];
    }
    ghost var first: nat :| it.On(first) && Lands(o, ele, es, first);
    seen := RestOf(it, first);
    AllAbove(o, ele, es, first);
  }

  /** raxSeek with "$", "<" or "<=" and raxPrev to the start: every matching key with its
      value, once each. raxPrev gives them in descending order; `seen` lists them backwards. */
  method WalkDown(rt: Rax.Rax, op: string, ele: Key) returns (seen: seq<Entry>)
    requires rt.Valid() && RaxIterator.ParseOp(op).Some?
    requires var o := RaxIterator.ParseOp(op).value; o.Last? || o.Lt? || o.Le?
    ensures Ascending(seen)
    ensures forall k, v :: (k, v) in seen <==>
              k in rt.Contents() && rt.Contents()[k] == v && Matches(RaxIterator.ParseOp(op).value, ele, k)
  {
    hide Place, Path, Before, RaxIterator.ParseOp, Less, Lands, NoMatch, Ascending, At, Matches, MapOf, Rax.Rax.Valid,
      RaxIterator.Iterator.Valid;
    var it := new RaxIterator.Iterator(rt);
    var _ := it.Seek(op, ele);
    ghost var o, es := RaxIterator.ParseOp(op).value, At([], rt.head);
    SortedEntries(rt);
    if it.eof {
      NoneSelected(o, ele, es);
      return [];
    }
    ghost var last: nat :| it.On(last) && Lands(o, ele, es, last);
    seen := UpTo(it, last);
    AllBelow(o, ele, es, last);
  }
}
