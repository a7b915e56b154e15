/** The tree walk shared by lookup, insertion, removal and seeking. */
module RaxWalk {
  import opened Common
  import opened RaxTree
  import opened RaxContents

  /** The length of the longest common beginning. */
  function Shared(v: Key, r: Key): (j: nat)
    ensures j <= |v| && j <= |r| && v[..j] == r[..j]
    ensures j == |v| || j == |r| || v[j] != r[j]
  {
    if v == [] || r == [] || v[0] != r[0] then 0 else 1 + Shared(v[1..], r[1..])
  }

  lemma {:induction false} SharedUnique(v: Key, r: Key, j: nat)
    requires j <= |v| && j <= |r| && v[..j] == r[..j] && (j == |v| || j == |r| || v[j] != r[j])
    ensures j == Shared(v, r)
  {
    if j > 0 {
      assert v[0] == v[..j][0] == r[..j][0] == r[0];
      assert v[1..][..j - 1] == v[..j][1..] == r[..j][1..] == r[1..][..j - 1];
      SharedUnique(v[1..], r[1..], j - 1);
    }
  }

  /** The first edge with that byte, or the number of edges. */
  function EdgeOf(v: Key, c: Byte): (j: nat)
    ensures j <= |v| && c !in v[..j] && (j < |v| ==> v[j] == c)
  {
    if v == [] || v[0] == c then 0 else 1 + EdgeOf(v[1..], c)
  }

  lemma {:induction false} EdgeUnique(v: Key, c: Byte, j: nat)
    requires j <= |v| && c !in v[..j] && (j < |v| ==> v[j] == c)
    ensures j == EdgeOf(v, c)
  {
    if j > 0 {
      assert v[0] == v[..j][0] && v[1..][..j - 1] == v[..j][1..];
      EdgeUnique(v[1..], c, j - 1);
    }
  }

  /** Where the walk ends: the stack of parents, the node, and how far into a compressed
      node it got. */
  ghost function Walk(ts: seq<Frame>, h: Node, rest: Key): (seq<Frame>, Node, nat)
    requires Wf(h)
    decreases h
  {
    if h.chars == [] || rest == [] then (ts, h, 0)
    else if h.compr then
      var j := Shared(h.chars, rest);
      if j < |h.chars| then (ts, h, j) else Walk(ts + [Frame(h, 0)], h.kids[0], rest[j..])
    else
      var c := EdgeOf(h.chars, rest[0]);
      if c == |h.chars| then (ts, h, 0) else Walk(ts + [Frame(h, c)], h.kids[c], rest[1..])
  }

  lemma WalkCompressed(ts: seq<Frame>, h: Node, rest: Key, j: nat)
    requires Wf(h) && h.compr && rest != []
    requires j <= |h.chars| && j <= |rest| && h.chars[..j] == rest[..j] && (j == |h.chars| || j == |rest| || h.chars[j] != rest[j])
    ensures Walk(ts, h, rest) == if j < |h.chars| then (ts, h, j) else Walk(ts + [Frame(h, 0)], h.kids[0], rest[j..])
  {
    SharedUnique(h.chars, rest, j);
  }

  lemma WalkNormal(ts: seq<Frame>, h: Node, rest: Key, c: nat)
    requires Wf(h) && !h.compr && h.chars != [] && rest != []
    requires c <= |h.chars| && rest[0] !in h.chars[..c] && (c < |h.chars| ==> h.chars[c] == rest[0])
    ensures Walk(ts, h, rest) == if c == |h.chars| then (ts, h, 0) else Walk(ts + [Frame(h, c)], h.kids[c], rest[1..])
  {
    EdgeUnique(h.chars, rest[0], c);
  }

  lemma WalkEnd(ts: seq<Frame>, h: Node, rest: Key)
    requires Wf(h) && (h.chars == [] || rest == [])
    ensures Walk(ts, h, rest) == (ts, h, 0)
  {
  }

  /** The byte loop of raxLowWalk inside a compressed node. */
  method MatchChars(v: Key, s: Key, i: nat) returns (j: nat)
    requires i <= |s|
    ensures j <= |v| && i + j <= |s| && v[..j] == s[i..i + j]
    ensures j == |v| || i + j == |s| || v[j] != s[i + j]
  {
    j := 0;
    while j < |v| && i + j < |s|
      invariant j <= |v| && i + j <= |s| && v[..j] == s[i..i + j]
    {
      if v[j] != s[i + j] { break; }
      j := j + 1;
    }
  }

  /** The edge scan of raxLowWalk in a normal node. */
  method FindEdge(v: Key, c: Byte) returns (j: nat)
    ensures j <= |v| && c !in v[..j] && (j < |v| ==> v[j] == c)
  {
    j := 0;
    while j < |v|
      invariant j <= |v| && c !in v[..j]
    {
      if v[j] == c { break; }
      j := j + 1;
    }
  }

  /** raxLowWalk: follow s from the head. Returns the number of bytes matched,
      the node where the walk ended, how far into a compressed node it got, and
      the stack of parents. */
  method LowWalk(head: Node, s: Key) returns (i: nat, h: Node, splitpos: nat, ts: seq<Frame>)
    requires Wf(head)
    ensures Place(head, ts, h)
    ensures i <= |s| && i == |Path(ts)| + splitpos && Path(ts) <= s
    ensures Stops(h, s[|Path(ts)|..], splitpos)
    ensures (ts, h, splitpos) == Walk([], head, s)
  {
    hide Plug, Path, Less, Walk;
    h, ts, i, splitpos := head, [], 0, 0;
    AtTop(head);
    assert s[0..] == s;
    while h.chars != [] && i < |s|
      invariant Place(head, ts, h)
      invariant i <= |s| && Path(ts) == s[..i]
      invariant Walk(ts, h, s[i..]) == Walk([], head, s)
      decreases h
    {
      ghost var rest := s[i..];
      var v, child := h.chars, 0;
      if h.compr {
        var j := MatchChars(v, s, i);
        assert rest[..j] == s[i..i + j] && rest[j..] == s[i + j..];
        WalkCompressed(ts, h, rest, j);
        if j != |v| {
          i, splitpos := i + j, j;
          return;
        }
        Descend(head, ts, h, 0);
        i := i + j;
      } else {
        child := FindEdge(v, s[i]);
        WalkNormal(ts, h, rest, child);
        assert rest[1..] == s[i + 1..];
        if child == |v| { return; }
        Descend(head, ts, h, child);
        i := i + 1;
      }
      ts, h := ts + [Frame(h, child)], h.kids[child];
    }
    WalkEnd(ts, h, s[i..]);
  }
}
