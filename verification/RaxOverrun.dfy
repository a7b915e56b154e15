/** A run of calls after which the radix tree is wrong: the recompression of raxRemove writes
    2^29 + 10 bytes into a node allocated for eleven. */
module RaxOverrun {
  import opened RaxTree
  import opened RaxContents
  import opened RaxWalk
  import opened RaxInsert
  import opened RaxRemove
  import opened RaxRuns
  import RaxLayout
  import Rax

  const BIG: nat := RAX_NODE_MAX_SIZE

  function As(n: nat): (s: Key)
    ensures |s| == n
  {
    seq(n, _ => 0x61)
  }

  lemma AsParts(n: nat, k: nat)
    requires k <= n
    ensures As(n)[..k] == As(k) && As(n)[k..] == As(n - k) && As(k) + As(n - k) == As(n)
  {
  }

  /** Ten bytes above a node, and one byte below a key above a node. */
  function Ten(below: Node): Node { Node(Absent, true, As(10), [below]) }

  function One(slot: Slot, below: Node): Node { Node(slot, false, As(1), [below]) }

  /** As many bytes as a node can hold. */
  function Rest(slot: Slot): Node { Node(slot, true, As(BIG), [Leaf(3)]) }

  lemma AllWf(slot: Slot, slot': Slot)
    ensures Wf(EMPTY_NODE) && Wf(Leaf(1)) && Wf(Leaf(2)) && Wf(Ten(Leaf(1)))
    ensures Wf(One(Present(1), Leaf(2))) && Wf(Ten(One(Present(1), Leaf(2))))
    ensures Wf(Rest(slot')) && Wf(One(slot, Rest(slot'))) && Wf(Ten(One(slot, Rest(slot'))))
  {
    assert Wf(Leaf(3)) && Wf(Rest(slot')) && Wf(One(slot, Rest(slot')));
    assert Wf(Leaf(2)) && Wf(One(Present(1), Leaf(2)));
  }

  /** The parents of what is below these nodes. */
  function OnTen(below: Node): seq<Frame> { [Frame(Ten(below), 0)] }

  function OnOne(slot: Slot, below: Node): seq<Frame> { [Frame(Ten(One(slot, below)), 0), Frame(One(slot, below), 0)] }

  lemma TenStack(below: Node, f: Node)
    ensures Path(OnTen(below)) == As(10) && Plug(OnTen(below), f) == Ten(f)
  {
    hide As;
    assert OnTen(below)[..0] == [];
    assert [] + As(10) == As(10);
    assert Put(OnTen(below)[0], f).kids == [f];
  }

  lemma OneStack(slot: Slot, below: Node, f: Node)
    ensures Path(OnOne(slot, below)) == As(11) && Plug(OnOne(slot, below), f) == Ten(One(slot, f))
  {
    AsParts(11, 10);
    hide As;
    TenStack(One(slot, below), One(slot, f));
    var ts, b := OnOne(slot, below), Frame(One(slot, below), 0);
    assert ts[..1] == OnTen(One(slot, below));
    OneLabel(slot, below);
    assert Put(b, f).kids == [f];
  }

  lemma OneLabel(slot: Slot, below: Node)
    ensures Label(One(slot, below), 0) == As(1)
  {
  }

  /** The walk through the node of ten bytes. */
  lemma ThroughTen(below: Node, n: nat)
    requires Wf(below) && KeyLeaf(below) && n >= 10
    ensures Wf(Ten(below)) && Walk([], Ten(below), As(n)) == Walk(OnTen(below), below, As(n - 10))
  {
    hide Walk;
    AsParts(n, 10);
    hide As;
    assert [] + [Frame(Ten(below), 0)] == OnTen(below);
    assert As(10)[..10] == As(10);
    assert |As(10)| == 10;
    WalkCompressed([], Ten(below), As(n), 10);
  }

  /** And on through the node of one byte. */
  lemma ThroughOne(slot: Slot, below: Node, n: nat)
    requires Wf(below) && KeyLeaf(below) && n >= 11
    ensures Wf(Ten(One(slot, below)))
    ensures Walk([], Ten(One(slot, below)), As(n)) == Walk(OnOne(slot, below), below, As(n - 11))
  {
    hide Walk, Ten;
    OneWf(slot, below);
    ThroughTen(One(slot, below), n);
    OneStep(slot, below, n - 10);
    assert OnTen(One(slot, below)) + [Frame(One(slot, below), 0)] == OnOne(slot, below);
  }

  lemma OneWf(slot: Slot, below: Node)
    requires Wf(below) && KeyLeaf(below)
    ensures Wf(One(slot, below)) && KeyLeaf(One(slot, below))
  {
  }

  lemma OneStep(slot: Slot, below: Node, n: nat)
    requires Wf(below) && KeyLeaf(below) && n >= 1
    ensures Wf(One(slot, below))
    ensures var ts := OnTen(One(slot, below));
            Walk(ts, One(slot, below), As(n)) == Walk(ts + [Frame(One(slot, below), 0)], below, As(n - 1))
  {
    hide Walk, Ten;
    OneWf(slot, below);
    AsParts(n, 1);
    WalkNormal(OnTen(One(slot, below)), One(slot, below), As(n), 0);
  }

  lemma Remaining(n: nat, k: nat)
    requires k <= n
    ensures As(n)[|As(k)|..] == As(n - k)
  {
  }

  lemma FirstInsert()
    ensures Wf(EMPTY_NODE) && Walk([], EMPTY_NODE, As(10)) == ([], EMPTY_NODE, 0)
    ensures Stops(EMPTY_NODE, As(10), 0) && Insertion([], EMPTY_NODE, 0, As(10), 1) == Ten(Leaf(1))
    ensures As(10)[|Path([])|..] == As(10)
  {
    WalkEnd([], EMPTY_NODE, As(10));
    AsParts(10, 10);
    GrowNothing(EMPTY_NODE, As(10)[10..], Leaf(1));
  }

  lemma SecondInsert() returns (ts: seq<Frame>)
    ensures Wf(Ten(Leaf(1))) && Walk([], Ten(Leaf(1)), As(11)) == (ts, Leaf(1), 0)
    ensures |Path(ts)| == 10 && As(11)[|Path(ts)|..] == As(1)
    ensures Wf(Leaf(1)) && Stops(Leaf(1), As(1), 0) && Insertion(ts, Leaf(1), 0, As(1), 2) == Ten(One(Present(1), Leaf(2)))
  {
    hide Walk, Plug, Path, Ten;
    AllWf(Absent, Absent);
    ts := OnTen(Leaf(1));
    ThroughTen(Leaf(1), 11);
    WalkEnd(ts, Leaf(1), As(1));
    TenStack(Leaf(1), One(Present(1), Leaf(2)));
    Remaining(11, 10);
    GrowOne();
  }

  lemma GrowOne()
    ensures |As(1)| == 1 && Grow(Leaf(1), As(1), Leaf(2)) == One(Present(1), Leaf(2))
  {
    AsParts(1, 1);
    GrowNothing(EMPTY_NODE, As(1)[1..], Leaf(2));
  }

  lemma ThirdInsert() returns (ts: seq<Frame>)
    ensures Wf(Ten(One(Present(1), Leaf(2)))) && Walk([], Ten(One(Present(1), Leaf(2))), As(11 + BIG)) == (ts, Leaf(2), 0)
    ensures |Path(ts)| == 11 && As(11 + BIG)[|Path(ts)|..] == As(BIG)
    ensures Wf(Leaf(2)) && Stops(Leaf(2), As(BIG), 0)
    ensures Insertion(ts, Leaf(2), 0, As(BIG), 3) == Ten(One(Present(1), Rest(Present(2))))
  {
    hide Walk, Plug, Path, Ten, One, Grow;
    AllWf(Absent, Absent);
    ts := OnOne(Present(1), Leaf(2));
    ThroughOne(Present(1), Leaf(2), 11 + BIG);
    WalkEnd(ts, Leaf(2), As(BIG));
    OneStack(Present(1), Leaf(2), Rest(Present(2)));
    Remaining(11 + BIG, 11);
    GrowRest();
  }

  lemma GrowRest()
    ensures |As(BIG)| == BIG && Grow(Leaf(2), As(BIG), Leaf(3)) == Rest(Present(2))
  {
    AsParts(BIG, BIG);
    hide As;
    GrowNothing(EMPTY_NODE, As(BIG)[BIG..], Leaf(3));
  }

  /** Removing the key at the long node: nothing is tried. */
  lemma FirstRemove() returns (ts: seq<Frame>)
    ensures Wf(Ten(One(Present(1), Rest(Present(2))))) && WfStack(ts) && Wf(Rest(Absent))
    ensures Walk([], Ten(One(Present(1), Rest(Present(2)))), As(11)) == (ts, Rest(Present(2)), 0)
    ensures Path(ts) == As(11) && Cleared(Rest(Present(2))) == Rest(Absent)
    ensures !Overruns(ts, Rest(Absent)) && Removal(ts, Rest(Absent)) == (ts, Rest(Absent))
    ensures Plug(ts, Rest(Absent)) == Ten(One(Present(1), Rest(Absent)))
  {
    hide Walk, Plug, Path;
    AllWf(Present(1), Present(2));
    AllWf(Present(1), Absent);
    ts := OnOne(Present(1), Rest(Present(2)));
    ThroughOne(Present(1), Rest(Present(2)), 11);
    WalkEnd(ts, Rest(Present(2)), As(0));
    OneStack(Present(1), Rest(Present(2)), Rest(Absent));
  }

  lemma ChainIs()
    ensures var n := Ten(One(Absent, Rest(Absent)));
            && Wf(n) && Plain(n) && Merges(n) && ChainKey(n) == As(11 + BIG) && Counted(n) == 11 && ChainEnd(n) == Leaf(3)
            && Merged(n) == Node(Absent, true, As(11), [Leaf(3)])
  {
    var a, b := One(Absent, Rest(Absent)), Rest(Absent);
    AllWf(Absent, Absent);
    assert Plain(a) && Plain(b) && !Plain(Leaf(3)) && Wf(a) && Wf(b);
    AsParts(1 + BIG, 1);
    AsParts(11 + BIG, 10);
    AsParts(11 + BIG, 11);
    assert ChainKey(b) == As(BIG) && ChainKey(a) == As(1 + BIG);
    assert CountFrom(a, 11) == 11;
  }

  /** Removing the key between: eleven bytes are counted, and all are written. */
  lemma SecondRemove() returns (ts: seq<Frame>)
    ensures Wf(Ten(One(Present(1), Rest(Absent)))) && WfStack(ts) && Wf(One(Absent, Rest(Absent)))
    ensures Walk([], Ten(One(Present(1), Rest(Absent))), As(10)) == (ts, One(Present(1), Rest(Absent)), 0)
    ensures Path(ts) == As(10) && Cleared(One(Present(1), Rest(Absent))) == One(Absent, Rest(Absent))
    ensures Overruns(ts, One(Absent, Rest(Absent)))
    ensures var r := Removal(ts, One(Absent, Rest(Absent))); Plug(r.0, r.1) == Node(Absent, true, As(11), [Leaf(3)])
  {
    hide Walk, Plug, Path, ChainKey, Counted, ChainEnd, Climb;
    AllWf(Present(1), Absent);
    AllWf(Absent, Absent);
    var h := One(Present(1), Rest(Absent));
    ThroughTen(h, 10);
    ts := OnTen(h);
    WalkEnd(ts, h, As(0));
    TenStack(h, h);
    ClimbIs(ts, h, Ten(One(Absent, Rest(Absent))));
    ChainIs();
    PlugNothing(Merged(Ten(One(Absent, Rest(Absent)))));
  }

  lemma PlugNothing(f: Node)
    ensures Plug([], f) == f
  {
  }

  lemma ClimbIs(ts: seq<Frame>, h: Node, n: Node)
    requires ts == [Frame(Ten(h), 0)] && n == Ten(Cleared(h))
    ensures Climb(ts, Cleared(h)) == ([], n)
  {
    assert ts[..0] == [];
    assert Put(ts[0], Cleared(h)) == n;
    assert Climb([], n) == ([], n);
  }

  /** More is written than there is room for in the node: header, bytes, padding and the
      child pointer. */
  lemma PastTheNode()
    ensures var n := Ten(One(Absent, Rest(Absent)));
            Wf(n) && Plain(n) && |ChainKey(n)| > Counted(n) + RaxLayout.Padding(Counted(n)) + RaxLayout.PTR
  {
    ChainIs();
  }

  function Calls(): seq<Call> {
    [Insert(As(10), 1), Insert(As(11), 2), Insert(As(11 + BIG), 3), Remove(As(11)), Remove(As(10))]
  }

  lemma CallsMean()
    ensures Effects(map[], Calls()) == map[As(11 + BIG) := 3]
  {
    hide As;
    var cs := Calls();
    assert |As(10)| == 10 && |As(11)| == 11 && |As(11 + BIG)| == 11 + BIG;
    EffectsNone(map[], cs);
    EffectsStep(map[], cs, 0);
    EffectsStep(map[], cs, 1);
    EffectsStep(map[], cs, 2);
    EffectsStep(map[], cs, 3);
    EffectsStep(map[], cs, 4);
    assert cs[..5] == cs;
  }

  /** What the tree then holds: the one key left is found under the key removed first. */
  lemma LeftOver()
    ensures MapOf(At([], Node(Absent, true, As(11), [Leaf(3)]))) == map[As(11) := 3]
  {
    hide As;
    var n := Node(Absent, true, As(11), [Leaf(3)]);
    assert n == Link(Absent, As(11), Leaf(3));
    LinkEntries([], Absent, As(11), Leaf(3));
    NoKids(As(11), Leaf(3));
    assert [] + As(11) == As(11);
    assert At([], n) == [(As(11), 3)];
    assert MapOf([(As(11), 3)]) == MapOf([])[As(11) := 3];
  }

  /** The five calls, on a new tree. */
  method Run() returns (t: Rax.Rax)
    ensures fresh(t) && t.Valid()
    ensures Effects(map[], Calls()) == map[As(11 + BIG) := 3]
    ensures t.Contents() == map[As(11) := 3]
  {
    hide At, Nodes, Plug, Path, MapOf, Walk, Grow, Insertion, Removal, Overruns, Effects, Wf, Stops, Ten, One, Rest, As, Calls;
    CallsMean();
    t := new Rax.Rax();
    FirstInsert();
    var _, _, a := t.GenericInsert(As(10), 1, true);
    assert t.head == Ten(Leaf(1));
    ghost var ts := SecondInsert();
    var _, _, b := t.GenericInsert(As(11), 2, true);
    assert t.head == Ten(One(Present(1), Leaf(2)));
    ts := ThirdInsert();
    var _, _, c := t.GenericInsert(As(11 + BIG), 3, true);
    assert t.head == Ten(One(Present(1), Rest(Present(2))));
    ts := FirstRemove();
    var _, _, _, d := t.Remove(As(11));
    assert t.head == Ten(One(Present(1), Rest(Absent)));
    ts := SecondRemove();
    var _, _, _, e := t.Remove(As(10));
    LeftOver();
  }
}
