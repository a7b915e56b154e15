/** The SentencePiece encoder of src/tokenizer.c: normalisation, splitting into UTF-8
    characters, greedy merging over a doubly linked list, and byte fallback. */
module Spm {
  import opened Common
  import opened ByteMap
  import opened Vocabulary
  import Bpe

  const MARK: Bytes := [0xE2, 0x96, 0x81]

  // ---------------------------------------------------------------- what is computed

  /** The text with the word-boundary space in front, when one is asked for. */
  function Prefixed(t: Bytes, prefix: bool): Bytes {
    if prefix then [0x20] + t else t
  }

  /** Every space becomes U+2581. */
  function Normalize(t: Bytes): (s: Bytes)
    ensures |t| <= |s| <= 3 * |t|
  {
    if t == [] then [] else Normalize(t[..|t| - 1]) + NormByte(t[|t| - 1])
  }

  function NormByte(b: Byte): (s: Bytes)
    ensures 1 <= |s| <= 3
  {
    if b == 0x20 then MARK else [b]
  }

  /** utf8_char_len; the source tests the bits with masks. */
  function CharLen(c: Byte): (n: nat)
    ensures 1 <= n <= 4
  {
    if c < 0x80 then 1
    else if c / 32 == 6 then 2
    else if c / 16 == 14 then 3
    else if c / 8 == 30 then 4
    else 1
  }

  /** The length of the first character; a character cut off by the end counts as 1. */
  function FirstLen(s: Bytes): (n: nat)
    requires s != []
    ensures 1 <= n <= |s| && n <= 4
  {
    if CharLen(s[0]) <= |s| then CharLen(s[0]) else 1
  }

  function Split(s: Bytes): seq<Bytes>
    decreases |s|
  {
    if s == [] then [] else [s[..FirstLen(s)]] + Split(s[FirstLen(s)..])
  }

  /** Pieces i and i + 1 make a known piece that fits the length byte of a key. */
  predicate CanJoin(v: Vocab, ps: seq<Bytes>, i: nat)
    requires i + 1 < |ps|
  {
    |ps[i] + ps[i + 1]| <= MAX_KEY && ps[i] + ps[i + 1] in v.ids
  }

  ghost predicate Scored(v: Vocab, scores: seq<real>) {
    Sound(v) && |scores| == |v.pieces|
  }

  function Score(v: Vocab, scores: seq<real>, ps: seq<Bytes>, i: nat): real
    requires Scored(v, scores) && i + 1 < |ps| && CanJoin(v, ps, i)
  {
    scores[v.ids[ps[i] + ps[i + 1]]]
  }

  /** i is the leftmost pair of the highest score. */
  ghost predicate Best(v: Vocab, scores: seq<real>, ps: seq<Bytes>, i: nat)
    requires Scored(v, scores)
  {
    && i + 1 < |ps| && CanJoin(v, ps, i)
    && (forall j :: 0 <= j < |ps| - 1 && CanJoin(v, ps, j) ==> Score(v, scores, ps, j) <= Score(v, scores, ps, i))
    && (forall j :: 0 <= j < i && CanJoin(v, ps, j) ==> Score(v, scores, ps, j) < Score(v, scores, ps, i))
  }

  function JoinAt(ps: seq<Bytes>, i: nat): seq<Bytes>
    requires i + 1 < |ps|
  {
    ps[..i] + [ps[i] + ps[i + 1]] + ps[i + 2..]
  }

  /** Joining best pairs for as long as there is one. */
  ghost function JoinAll(v: Vocab, scores: seq<real>, ps: seq<Bytes>): seq<Bytes>
    requires Scored(v, scores)
    decreases |ps|
  {
    if exists i :: Best(v, scores, ps, i) then
      var i :| Best(v, scores, ps, i);
      JoinAll(v, scores, JoinAt(ps, i))
    else ps
  }

  lemma BestUnique(v: Vocab, scores: seq<real>, ps: seq<Bytes>, i: nat, j: nat)
    requires Scored(v, scores) && Best(v, scores, ps, i) && Best(v, scores, ps, j)
    ensures i == j
  {
  }

  lemma JoinAllStep(v: Vocab, scores: seq<real>, ps: seq<Bytes>, i: nat)
    requires Scored(v, scores) && Best(v, scores, ps, i)
    ensures JoinAll(v, scores, ps) == JoinAll(v, scores, JoinAt(ps, i))
  {
    var j :| Best(v, scores, ps, j) && JoinAll(v, scores, ps) == JoinAll(v, scores, JoinAt(ps, j));
    BestUnique(v, scores, ps, i, j);
  }

  lemma JoinAllEnds(v: Vocab, scores: seq<real>, ps: seq<Bytes>)
    requires Scored(v, scores) && !exists i :: Best(v, scores, ps, i)
    ensures JoinAll(v, scores, ps) == ps
  {
  }

  /** If any pair can be joined, one of them is best. */
  lemma {:induction false} BestExists(v: Vocab, scores: seq<real>, ps: seq<Bytes>, n: nat) returns (i: nat)
    requires Scored(v, scores) && n < |ps| && exists j :: 0 <= j < n && CanJoin(v, ps, j)
    ensures i < n && CanJoin(v, ps, i)
    ensures forall j :: 0 <= j < n && CanJoin(v, ps, j) ==> Score(v, scores, ps, j) <= Score(v, scores, ps, i)
    ensures forall j :: 0 <= j < i && CanJoin(v, ps, j) ==> Score(v, scores, ps, j) < Score(v, scores, ps, i)
    decreases n
  {
    var j :| 0 <= j < n && CanJoin(v, ps, j);
    if exists k :: 0 <= k < n - 1 && CanJoin(v, ps, k) {
      i := BestExists(v, scores, ps, n - 1);
      if CanJoin(v, ps, n - 1) && Score(v, scores, ps, n - 1) > Score(v, scores, ps, i) { i := n - 1; }
    } else {
      i := j;
    }
  }

  function Concat(ps: seq<Bytes>): Bytes {
    if ps == [] then [] else Concat(ps[..|ps| - 1]) + ps[|ps| - 1]
  }

  lemma {:induction false} ConcatAppend(ps: seq<Bytes>, qs: seq<Bytes>)
    ensures Concat(ps + qs) == Concat(ps) + Concat(qs)
  {
    if qs == [] {
      assert ps + qs == ps;
    } else {
      var n := |qs| - 1;
      ConcatAppend(ps, qs[..n]);
      assert (ps + qs)[..|ps| + n] == ps + qs[..n] && (ps + qs)[|ps| + n] == qs[n];
      assert Concat(ps + qs) == (Concat(ps) + Concat(qs[..n])) + qs[n];
    }
  }

  lemma ConcatJoin(ps: seq<Bytes>, i: nat)
    requires i + 1 < |ps|
    ensures Concat(JoinAt(ps, i)) == Concat(ps)
  {
    hide Concat;
    var a, b := ps[i], ps[i + 1];
    assert ps == (ps[..i] + [a, b]) + ps[i + 2..];
    ConcatAppend(ps[..i] + [a, b], ps[i + 2..]);
    ConcatAppend(ps[..i], [a, b]);
    ConcatAppend(ps[..i] + [a + b], ps[i + 2..]);
    ConcatAppend(ps[..i], [a + b]);
    ConcatTwo(a, b);
  }

  lemma ConcatTwo(a: Bytes, b: Bytes)
    ensures Concat([a, b]) == Concat([a + b]) == a + b
  {
    assert [a, b][..1] == [a];
  }

  /** The loop keeps the text, ends with no pair that can be joined, and every piece it
      leaves was there before or is known. */
  lemma {:induction false} JoinAllFacts(v: Vocab, scores: seq<real>, ps: seq<Bytes>)
    requires Scored(v, scores)
    ensures var r := JoinAll(v, scores, ps);
            && Concat(r) == Concat(ps)
            && (forall i :: 0 <= i < |r| - 1 ==> !CanJoin(v, r, i))
            && (forall i :: 0 <= i < |r| ==> r[i] in ps || (r[i] in v.ids && |r[i]| <= MAX_KEY))
    decreases |ps|
  {
    hide Concat;
    if j :| 0 <= j < |ps| - 1 && CanJoin(v, ps, j) {
      var i := BestExists(v, scores, ps, |ps| - 1);
      assert Best(v, scores, ps, i);
      JoinAllStep(v, scores, ps, i);
      ConcatJoin(ps, i);
      var qs := JoinAt(ps, i);
      JoinAllFacts(v, scores, qs);
      assert forall q :: q in qs ==> q in ps || q == ps[i] + ps[i + 1];
    } else {
      JoinAllEnds(v, scores, ps);
    }
  }

  /** The token of a known piece, or else the tokens of its bytes. */
  function PieceTokens(v: Vocab, p: Bytes): seq<int>
    requires Sound(v)
  {
    if p in v.ids then [v.ids[p]] else Bpe.ByteIds(v, p)
  }

  function Emitted(v: Vocab, ps: seq<Bytes>): seq<int>
    requires Sound(v)
  {
    if ps == [] then [] else Emitted(v, ps[..|ps| - 1]) + PieceTokens(v, ps[|ps| - 1])
  }

  ghost function Tokens(v: Vocab, scores: seq<real>, t: Bytes, prefix: bool): seq<int>
    requires Scored(v, scores)
  {
    Emitted(v, JoinAll(v, scores, Split(Normalize(Prefixed(t, prefix)))))
  }

  // ------------------------------------------------------------------ the linked list

  datatype Sym = Sym(text: nat, n: nat, prev: int, next: int)

  /** A symbol that is not empty lies in the text and is linked to a later one that starts
      where it ends, or it is the last and ends with the text. */
  ghost predicate Node(sym: seq<Sym>, norm: Bytes, i: nat)
    requires i < |sym|
  {
    sym[i].n > 0 ==>
      && sym[i].text + sym[i].n <= |norm|
      && (if sym[i].next == -1 then sym[i].text + sym[i].n == |norm|
          else
            && i < sym[i].next < |sym|
            && sym[sym[i].next].n > 0
            && sym[sym[i].next].prev == i
            && sym[sym[i].next].text == sym[i].text + sym[i].n)
  }

  ghost predicate Linked(sym: seq<Sym>, norm: Bytes) {
    && |sym| > 0 && sym[0].n > 0 && sym[0].text == 0 && sym[0].prev == -1
    && forall i :: 0 <= i < |sym| ==> Node(sym, norm, i)
  }

  function PieceOf(s: Sym, norm: Bytes): Bytes
    requires s.text + s.n <= |norm|
  {
    norm[s.text..s.text + s.n]
  }

  /** What the list spells from symbol i on. */
  ghost function PiecesFrom(sym: seq<Sym>, norm: Bytes, i: nat): (ps: seq<Bytes>)
    requires Linked(sym, norm) && i < |sym| && sym[i].n > 0
    ensures ps != []
    decreases |sym| - i
  {
    assert Node(sym, norm, i);
    [PieceOf(sym[i], norm)] + if sym[i].next == -1 then [] else PiecesFrom(sym, norm, sym[i].next)
  }

  /** At any moment the list spells the rest of the text. */
  lemma {:induction false} ListSpells(sym: seq<Sym>, norm: Bytes, i: nat)
    requires Linked(sym, norm) && i < |sym| && sym[i].n > 0
    ensures sym[i].text <= |norm| && Concat(PiecesFrom(sym, norm, i)) == norm[sym[i].text..]
    decreases |sym| - i
  {
    hide Concat;
    assert Node(sym, norm, i);
    var p := PieceOf(sym[i], norm);
    ConcatOne(p);
    if sym[i].next != -1 {
      ListSpells(sym, norm, sym[i].next);
      ConcatAppend([p], PiecesFrom(sym, norm, sym[i].next));
      assert norm[sym[i].text..] == p + norm[sym[sym[i].next].text..];
    } else {
      assert PiecesFrom(sym, norm, i) == [p] && norm[sym[i].text..] == p;
    }
  }

  lemma ConcatOne(p: Bytes)
    ensures Concat([p]) == p
  {
  }

  /** Relinking around symbol r, which joins the end of best. */
  function Unlinked(sym: seq<Sym>, best: nat, r: nat): (sym': seq<Sym>)
    requires best < r < |sym| && (sym[r].next == -1 || r < sym[r].next < |sym|)
    ensures |sym'| == |sym|
  {
    var grown := sym[best := sym[best].(n := sym[best].n + sym[r].n, next := sym[r].next)][r := sym[r].(n := 0)];
    if sym[r].next >= 0 then grown[sym[r].next := grown[sym[r].next].(prev := best)] else grown
  }

  lemma UnlinkLinked(sym: seq<Sym>, norm: Bytes, best: nat, r: nat)
    requires Linked(sym, norm) && best < r < |sym| && sym[best].n > 0 && sym[best].next == r
    ensures (sym[r].next == -1 || r < sym[r].next < |sym|) && sym[r].n > 0
    ensures Linked(Unlinked(sym, best, r), norm)
  {
    assert Node(sym, norm, best) && Node(sym, norm, r);
    var sym' := Unlinked(sym, best, r);
    forall i | 0 <= i < |sym'| ensures Node(sym', norm, i) {
      assert Node(sym, norm, i);
    }
  }

  /** How many links lead from symbol i to symbol best. */
  ghost predicate Reaches(sym: seq<Sym>, norm: Bytes, i: nat, best: nat, k: nat)
    requires Linked(sym, norm) && i < |sym| && sym[i].n > 0
    decreases k
  {
    assert Node(sym, norm, i);
    if k == 0 then i == best else sym[i].next != -1 && Reaches(sym, norm, sym[i].next, best, k - 1)
  }

  lemma {:induction false} UnlinkRest(sym: seq<Sym>, norm: Bytes, best: nat, r: nat, i: nat)
    requires Linked(sym, norm) && best < r < |sym| && sym[best].n > 0 && sym[best].next == r
    requires (sym[r].next == -1 || r < sym[r].next < |sym|) && sym[r].n > 0
    requires Linked(Unlinked(sym, best, r), norm)
    requires r < i < |sym| && sym[i].n > 0
    ensures Unlinked(sym, best, r)[i].n > 0
    ensures PiecesFrom(Unlinked(sym, best, r), norm, i) == PiecesFrom(sym, norm, i)
    decreases |sym| - i
  {
    assert Node(sym, norm, i);
    if sym[i].next != -1 { UnlinkRest(sym, norm, best, r, sym[i].next); }
  }

  lemma UnlinkHere(sym: seq<Sym>, norm: Bytes, best: nat, r: nat)
    requires Linked(sym, norm) && best < r < |sym| && sym[best].n > 0 && sym[best].next == r
    requires (sym[r].next == -1 || r < sym[r].next < |sym|) && sym[r].n > 0
    requires Linked(Unlinked(sym, best, r), norm)
    ensures Unlinked(sym, best, r)[best].n > 0
    ensures |PiecesFrom(sym, norm, best)| > 1
    ensures PiecesFrom(Unlinked(sym, best, r), norm, best) == JoinAt(PiecesFrom(sym, norm, best), 0)
  {
    var sym' := Unlinked(sym, best, r);
    assert Node(sym, norm, best) && Node(sym, norm, r) && Node(sym', norm, best);
    var rest := if sym[r].next == -1 then [] else PiecesFrom(sym, norm, sym[r].next);
    if sym[r].next != -1 { UnlinkRest(sym, norm, best, r, sym[r].next); }
    var a, b := PieceOf(sym[best], norm), PieceOf(sym[r], norm);
    assert PiecesFrom(sym, norm, r) == [b] + rest;
    assert PiecesFrom(sym, norm, best) == [a, b] + rest;
    assert PieceOf(sym'[best], norm) == a + b;
    assert JoinAt([a, b] + rest, 0) == [a + b] + rest;
  }

  /** Unlinking the right half of pair k joins the two pieces and nothing else. */
  lemma {:induction false} UnlinkJoins(sym: seq<Sym>, norm: Bytes, best: nat, r: nat, i: nat, k: nat)
    requires Linked(sym, norm) && best < r < |sym| && sym[best].n > 0 && sym[best].next == r
    requires (sym[r].next == -1 || r < sym[r].next < |sym|) && sym[r].n > 0
    requires Linked(Unlinked(sym, best, r), norm)
    requires i < |sym| && sym[i].n > 0 && Reaches(sym, norm, i, best, k)
    ensures i <= best && Unlinked(sym, best, r)[i].n > 0
    ensures k + 1 < |PiecesFrom(sym, norm, i)|
    ensures PiecesFrom(Unlinked(sym, best, r), norm, i) == JoinAt(PiecesFrom(sym, norm, i), k)
    decreases k
  {
    if k == 0 {
      UnlinkHere(sym, norm, best, r);
    } else {
      hide Unlinked;
      assert Node(sym, norm, i);
      var j := sym[i].next;
      UnlinkJoins(sym, norm, best, r, j, k - 1);
      EarlierSym(sym, norm, best, r, i);
      JoinAtTail([PieceOf(sym[i], norm)], PiecesFrom(sym, norm, j), k - 1);
    }
  }

  /** A symbol before best keeps its bytes and its successor. */
  lemma EarlierSym(sym: seq<Sym>, norm: Bytes, best: nat, r: nat, i: nat)
    requires Linked(sym, norm) && best < r < |sym| && sym[best].next == r && i < |sym| && sym[i].n > 0
    requires (sym[r].next == -1 || r < sym[r].next < |sym|) && sym[i].next != -1 && sym[i].next <= best
    ensures var s := Unlinked(sym, best, r)[i]; s.next == sym[i].next && s.text == sym[i].text && s.n == sym[i].n
  {
    assert Node(sym, norm, i);
  }

  lemma JoinAtTail(p: seq<Bytes>, ps: seq<Bytes>, k: nat)
    requires k + 1 < |ps|
    ensures JoinAt(p + ps, |p| + k) == p + JoinAt(ps, k)
  {
  }

  lemma {:induction false} ReachesNext(sym: seq<Sym>, norm: Bytes, i: nat, j: nat, k: nat)
    requires Linked(sym, norm) && i < |sym| && sym[i].n > 0 && Reaches(sym, norm, i, j, k)
    ensures j < |sym| && sym[j].n > 0 && k < |PiecesFrom(sym, norm, i)|
    ensures PiecesFrom(sym, norm, i)[k..] == PiecesFrom(sym, norm, j)
    ensures sym[j].next != -1 ==> sym[j].next > 0 && Reaches(sym, norm, i, sym[j].next, k + 1)
    decreases k
  {
    assert Node(sym, norm, i);
    if k > 0 {
      ReachesNext(sym, norm, sym[i].next, j, k - 1);
      assert PiecesFrom(sym, norm, i)[k..] == PiecesFrom(sym, norm, sym[i].next)[k - 1..];
    }
  }

  // -------------------------------------------------------------------- the algorithm

  lemma NormalizeStep(s: Bytes, b: Byte)
    ensures Normalize(s + [b]) == Normalize(s) + NormByte(b)
  {
    assert (s + [b])[..|s + [b]| - 1] == s;
  }

  lemma NormalizePrefix(prefix: bool)
    ensures Normalize(if prefix then [0x20] else []) == if prefix then MARK else []
  {
    if prefix { NormalizeStep([], 0x20); assert [] + [0x20] == [0x20 as Byte]; }
  }

  method PutByte(norm: array<Byte>, nn: nat, b: Byte) returns (nn': nat)
    requires nn + 3 <= norm.Length
    modifies norm
    ensures nn < nn' <= nn + 3 && norm[..nn'] == old(norm[..nn]) + NormByte(b)
  {
    if b == 0x20 {
      norm[nn], norm[nn + 1], norm[nn + 2] := 0xE2, 0x96, 0x81;
      nn' := nn + 3;
    } else {
      norm[nn] := b;
      nn' := nn + 1;
    }
  }

  /** The normalisation loops. */
  method NormalizeText(t: Bytes, prefix: bool) returns (norm: array<Byte>, nn: nat)
    ensures fresh(norm) && nn <= norm.Length && norm[..nn] == Normalize(Prefixed(t, prefix))
  {
    hide Normalize;
    norm := new Byte[|t| * 3 + 3](_ => 0);
    nn := 0;
    ghost var before: Bytes := if prefix then [0x20] else [];
    NormalizePrefix(prefix);
    if prefix {
      norm[0], norm[1], norm[2] := 0xE2, 0x96, 0x81;
      nn := 3;
    }
    assert before + t[..0] == before;
    for i := 0 to |t|
      invariant nn <= 3 * i + 3 && norm[..nn] == Normalize(before + t[..i])
    {
      NormalizeStep(before + t[..i], t[i]);
      assert before + t[..i + 1] == before + t[..i] + [t[i]];
      nn := PutByte(norm, nn, t[i]);
    }
    assert before + t[..|t|] == Prefixed(t, prefix);
  }

  /** The symbols cut off so far: each one character, linked to both neighbours. */
  ghost predicate Cut(sym: seq<Sym>, norm: Bytes, off: nat) {
    && off <= |norm|
    && (forall j :: 0 <= j < |sym| ==> sym[j].prev == j - 1 && sym[j].text < |norm| && sym[j].n == FirstLen(norm[sym[j].text..]))
    && (|sym| > 0 ==> sym[0].text == 0)
    && (forall j :: 0 <= j < |sym| - 1 ==> sym[j + 1].text == sym[j].text + sym[j].n)
    && off == if sym == [] then 0 else sym[|sym| - 1].text + sym[|sym| - 1].n
  }

  predicate Following(sym: seq<Sym>, last: int)
    requires |sym| > 0
  {
    (forall j :: 0 <= j < |sym| - 1 ==> sym[j].next == j + 1) && sym[|sym| - 1].next == last
  }

  lemma {:induction false} CutSpells(sym: seq<Sym>, norm: Bytes, i: nat)
    requires Cut(sym, norm, |norm|) && i < |sym| && Following(sym, -1) && Linked(sym, norm)
    ensures PiecesFrom(sym, norm, i) == Split(norm[sym[i].text..])
    decreases |sym| - i
  {
    hide FirstLen;
    var rest := norm[sym[i].text..];
    assert Node(sym, norm, i);
    assert PieceOf(sym[i], norm) == rest[..sym[i].n];
    assert rest[sym[i].n..] == norm[sym[i].text + sym[i].n..];
    if i + 1 < |sym| { CutSpells(sym, norm, i + 1); }
  }

  lemma CutLinked(sym: seq<Sym>, norm: Bytes)
    requires Cut(sym, norm, |norm|) && |sym| > 0 && Following(sym, -1)
    ensures Linked(sym, norm)
  {
    forall i | 0 <= i < |sym| ensures Node(sym, norm, i) {
      FirstLenIs(norm, sym[i].text);
      if i + 1 < |sym| { FirstLenIs(norm, sym[i + 1].text); }
    }
    FirstLenIs(norm, 0);
  }

  lemma FirstLenIs(norm: Bytes, off: nat)
    requires off < |norm|
    ensures FirstLen(norm[off..]) == if off + CharLen(norm[off]) > |norm| then 1 else CharLen(norm[off])
    ensures 1 <= FirstLen(norm[off..]) <= |norm| - off
  {
  }

  lemma CutMore(sym: seq<Sym>, norm: Bytes, off: nat, cl: nat)
    requires Cut(sym, norm, off) && off < |norm| && cl == FirstLen(norm[off..])
    requires |sym| > 0 ==> Following(sym, |sym|)
    ensures var sym' := sym + [Sym(off, cl, |sym| - 1, |sym| + 1)];
            Cut(sym', norm, off + cl) && Following(sym', |sym'|)
  {
    FirstLenIs(norm, off);
    hide FirstLen;
    var sym' := sym + [Sym(off, cl, |sym| - 1, |sym| + 1)];
    assert forall j :: 0 <= j < |sym| ==> sym'[j] == sym[j];
    assert sym'[|sym|].text == off;
  }

  lemma CutDone(sym: seq<Sym>, norm: Bytes)
    requires Cut(sym, norm, |norm|) && |sym| > 0 && Following(sym, |sym|)
    ensures var sym' := sym[|sym| - 1 := sym[|sym| - 1].(next := -1)];
            Linked(sym', norm) && PiecesFrom(sym', norm, 0) == Split(norm)
  {
    hide FirstLen, PiecesFrom, Split, Linked;
    var sym' := sym[|sym| - 1 := sym[|sym| - 1].(next := -1)];
    assert forall j :: 0 <= j < |sym| ==> sym'[j].text == sym[j].text && sym'[j].n == sym[j].n && sym'[j].prev == sym[j].prev;
    assert Cut(sym', norm, |norm|);
    CutLinked(sym', norm);
    FirstReached(sym', norm);
    CutSpells(sym', norm, 0);
    assert norm[0..] == norm;
  }

  /** The splitting loop. */
  method SplitText(norm: Bytes) returns (sym: array<Sym>, nsym: nat)
    ensures fresh(sym) && nsym <= sym.Length && (nsym == 0 <==> norm == [])
    ensures nsym > 0 ==> Linked(sym[..nsym], norm) && PiecesFrom(sym[..nsym], norm, 0) == Split(norm)
  {
    hide Split, FirstLen, Linked, PiecesFrom, Cut, Following;
    sym := new Sym[|norm| + 1](_ => Sym(0, 0, 0, 0));
    nsym := 0;
    var off := 0;
    CutNothing(norm);
    while off < |norm|
      invariant nsym <= off <= |norm| && (nsym == 0 ==> off == 0) && Cut(sym[..nsym], norm, off)
      invariant nsym > 0 ==> Following(sym[..nsym], nsym)
      decreases |norm| - off
    {
      ghost var was := sym[..nsym];
      var cl := CharLen(norm[off]);
      if off + cl > |norm| { cl := 1; }
      FirstLenIs(norm, off);
      CutMore(was, norm, off, cl);
      sym[nsym] := Sym(off, cl, nsym - 1, nsym + 1);
      nsym := nsym + 1;
      off := off + cl;
      assert sym[..nsym] == was + [sym[nsym - 1]];
    }
    if nsym == 0 { return; }
    ghost var was := sym[..nsym];
    CutDone(was, norm);
    sym[nsym - 1] := sym[nsym - 1].(next := -1);
    assert sym[..nsym] == was[nsym - 1 := was[nsym - 1].(next := -1)];
  }

  lemma CutNothing(norm: Bytes)
    ensures Cut([], norm, 0)
  {
  }

  /** One scan for the pair to join; -1 when there is none. */
  method FindBest(v: Vocab, scores: seq<real>, sym: seq<Sym>, norm: Bytes) returns (best: int, ghost kb: nat)
    requires Scored(v, scores) && Linked(sym, norm)
    ensures -1 <= best < |sym|
    ensures best >= 0 ==> Best(v, scores, PiecesFrom(sym, norm, 0), kb) && Reaches(sym, norm, 0, best, kb)
    ensures best < 0 ==> !exists i :: Best(v, scores, PiecesFrom(sym, norm, 0), i)
  {
    hide Reaches, PiecesFrom, Linked, Node;
    FirstReached(sym, norm);
    ghost var ps := PiecesFrom(sym, norm, 0);
    best, kb := -1, 0;
    var bestScore := 0.0;
    var i := 0;
    ghost var k := 0;
    while sym[i].next >= 0
      invariant 0 <= i < |sym| && sym[i].n > 0 && 0 <= k < |ps| && Reaches(sym, norm, 0, i, k)
      invariant -1 <= best < i || (best == -1 && i == 0)
      invariant best < 0 ==> forall j :: 0 <= j < k ==> !CanJoin(v, ps, j)
      invariant best >= 0 ==> kb < k && Reaches(sym, norm, 0, best, kb) && CanJoin(v, ps, kb)
      invariant best >= 0 ==> bestScore == Score(v, scores, ps, kb)
      invariant best >= 0 ==> forall j :: 0 <= j < k && CanJoin(v, ps, j) ==> Score(v, scores, ps, j) <= bestScore
      invariant best >= 0 ==> forall j :: 0 <= j < kb && CanJoin(v, ps, j) ==> Score(v, scores, ps, j) < bestScore
      decreases |sym| - i
    {
      Ahead(sym, norm, i, k);
      var r := sym[i].next;
      var len := sym[i].n + sym[r].n;
      ghost var p := norm[sym[i].text..sym[i].text + len];
      assert CanJoin(v, ps, k) <==> len <= MAX_KEY && p in v.ids;
      if len <= MAX_KEY && norm[sym[i].text..sym[i].text + len] in v.ids {
        var id := v.ids[norm[sym[i].text..sym[i].text + len]];
        if id < |v.pieces| {
          var sc := scores[id];
          assert sc == Score(v, scores, ps, k);
          if best < 0 || sc > bestScore || (sc == bestScore && i < best) {
            best, bestScore, kb := i, sc, k;
          }
        }
      }
      i := r;
      k := k + 1;
    }
    Ahead(sym, norm, i, k);
  }

  lemma FirstReached(sym: seq<Sym>, norm: Bytes)
    requires Linked(sym, norm)
    ensures |sym| > 0 && sym[0].n > 0 && |PiecesFrom(sym, norm, 0)| > 0 && Reaches(sym, norm, 0, 0, 0)
  {
  }

  /** The two pieces at position k of the list, and the step to the next one. */
  lemma Ahead(sym: seq<Sym>, norm: Bytes, i: nat, k: nat)
    requires Linked(sym, norm) && i < |sym| && sym[i].n > 0 && Reaches(sym, norm, 0, i, k)
    ensures var ps, r := PiecesFrom(sym, norm, 0), sym[i].next;
            && k < |ps| && -1 <= r < |sym| && (r == -1 <==> k + 1 == |ps|)
            && (r != -1 ==>
                  && i < r && sym[r].n > 0 && Reaches(sym, norm, 0, r, k + 1)
                  && sym[i].text + sym[i].n + sym[r].n <= |norm|
                  && ps[k] + ps[k + 1] == norm[sym[i].text..sym[i].text + sym[i].n + sym[r].n])
  {
    ReachesNext(sym, norm, 0, i, k);
    assert Node(sym, norm, i);
    var ps, r := PiecesFrom(sym, norm, 0), sym[i].next;
    assert ps[k] == ps[k..][0];
    if r != -1 {
      assert Node(sym, norm, r);
      assert ps[k + 1] == ps[k..][1] == PiecesFrom(sym, norm, r)[0];
      assert ps[k] == PieceOf(sym[i], norm) && ps[k + 1] == PieceOf(sym[r], norm);
    }
  }

  /** The greedy merge loop, relinking sym in place. */
  method JoinLoop(v: Vocab, scores: seq<real>, sym: array<Sym>, nsym: nat, norm: Bytes)
    requires Scored(v, scores) && nsym <= sym.Length && Linked(sym[..nsym], norm)
    modifies sym
    ensures Linked(sym[..nsym], norm)
    ensures PiecesFrom(sym[..nsym], norm, 0) == JoinAll(v, scores, PiecesFrom(old(sym[..nsym]), norm, 0))
  {
    hide Linked, PiecesFrom, JoinAll, Best, Reaches, Node, Scored;
    FirstReached(sym[..nsym], norm);
    ghost var goal := JoinAll(v, scores, PiecesFrom(sym[..nsym], norm, 0));
    while true
      invariant nsym > 0 && sym[0].n > 0 && Linked(sym[..nsym], norm)
      invariant JoinAll(v, scores, PiecesFrom(sym[..nsym], norm, 0)) == goal
      decreases |PiecesFrom(sym[..nsym], norm, 0)|
    {
      ghost var was := sym[..nsym];
      var best, kb := FindBest(v, scores, sym[..nsym], norm);
      if best < 0 {
        JoinAllEnds(v, scores, PiecesFrom(was, norm, 0));
        break;
      }
      JoinStep(v, scores, was, norm, best, kb);
      var r := sym[best].next;
      sym[best] := sym[best].(n := sym[best].n + sym[r].n);
      sym[r] := sym[r].(n := 0);
      sym[best] := sym[best].(next := sym[r].next);
      if sym[r].next >= 0 { sym[sym[r].next] := sym[sym[r].next].(prev := best); }
      assert sym[..nsym] == Unlinked(was, best, r);
    }
  }

  lemma JoinStep(v: Vocab, scores: seq<real>, sym: seq<Sym>, norm: Bytes, best: nat, k: nat)
    requires Scored(v, scores) && Linked(sym, norm) && best < |sym|
    requires Best(v, scores, PiecesFrom(sym, norm, 0), k) && Reaches(sym, norm, 0, best, k)
    ensures var r := sym[best].next;
            && best < r < |sym| && (sym[r].next == -1 || r < sym[r].next < |sym|)
            && Linked(Unlinked(sym, best, r), norm) && Unlinked(sym, best, r)[0].n > 0
            && |PiecesFrom(Unlinked(sym, best, r), norm, 0)| < |PiecesFrom(sym, norm, 0)|
            && JoinAll(v, scores, PiecesFrom(Unlinked(sym, best, r), norm, 0)) == JoinAll(v, scores, PiecesFrom(sym, norm, 0))
  {
    hide PiecesFrom, JoinAll, Reaches, Node, CanJoin, Unlinked;
    ReachesNext(sym, norm, 0, best, k);
    Ahead(sym, norm, best, k);
    var r := sym[best].next;
    UnlinkLinked(sym, norm, best, r);
    UnlinkJoins(sym, norm, best, r, 0, k);
    JoinAllStep(v, scores, PiecesFrom(sym, norm, 0), k);
  }

  /** Appending one token when there is room: tokens holds the first n of all. */
  method PutToken(tokens: array<int>, n: nat, maxTokens: nat, id: int, ghost all: seq<int>) returns (n': nat)
    requires maxTokens <= tokens.Length && n == Bpe.Min(|all|, maxTokens) && tokens[..n] == all[..n]
    modifies tokens
    ensures n' == Bpe.Min(|all + [id]|, maxTokens) && tokens[..n'] == (all + [id])[..n']
  {
    n' := n;
    if n < maxTokens {
      tokens[n] := id;
      n' := n + 1;
    }
  }

  method EmitPiece(v: Vocab, p: Bytes, tokens: array<int>, n: nat, maxTokens: nat, ghost all: seq<int>) returns (n': nat)
    requires Sound(v)
    requires maxTokens <= tokens.Length && n == Bpe.Min(|all|, maxTokens) && tokens[..n] == all[..n]
    modifies tokens
    ensures n' == Bpe.Min(|all + PieceTokens(v, p)|, maxTokens) && tokens[..n'] == (all + PieceTokens(v, p))[..n']
  {
    n' := n;
    if p in v.ids {
      n' := PutToken(tokens, n', maxTokens, v.ids[p], all);
    } else {
      assert all + Bpe.ByteIds(v, p[..0]) == all;
      for j := 0 to |p|
        invariant n' == Bpe.Min(|all + Bpe.ByteIds(v, p[..j])|, maxTokens)
        invariant tokens[..n'] == (all + Bpe.ByteIds(v, p[..j]))[..n']
      {
        assert p[..j + 1][..j] == p[..j];
        var bid := v.bytes[p[j]];
        if bid >= 0 {
          n' := PutToken(tokens, n', maxTokens, bid, all + Bpe.ByteIds(v, p[..j]));
          assert all + Bpe.ByteIds(v, p[..j + 1]) == all + Bpe.ByteIds(v, p[..j]) + [bid];
        }
      }
      assert p[..|p|] == p;
    }
  }

  /** The emission loop, which follows the links. */
  method Emit(v: Vocab, sym: seq<Sym>, norm: Bytes, tokens: array<int>, maxTokens: nat) returns (n: nat)
    requires Sound(v) && Linked(sym, norm) && maxTokens <= tokens.Length
    modifies tokens
    ensures n == Bpe.Min(|Emitted(v, PiecesFrom(sym, norm, 0))|, maxTokens)
    ensures tokens[..n] == Emitted(v, PiecesFrom(sym, norm, 0))[..n]
  {
    hide Linked, PiecesFrom, Reaches, Node, Sound, PieceTokens;
    FirstReached(sym, norm);
    ghost var ps := PiecesFrom(sym, norm, 0);
    n := 0;
    var i := 0;
    ghost var k := 0;
    while i >= 0
      invariant 0 <= k <= |ps| && (i == -1 <==> k == |ps|)
      invariant -1 <= i < |sym| && (i >= 0 ==> sym[i].n > 0 && Reaches(sym, norm, 0, i, k))
      invariant n == Bpe.Min(|Emitted(v, ps[..k])|, maxTokens) && tokens[..n] == Emitted(v, ps[..k])[..n]
      decreases |ps| - k
    {
      Ahead(sym, norm, i, k);
      PieceAt(sym, norm, i, k);
      assert ps[..k + 1][..k] == ps[..k];
      n := EmitPiece(v, norm[sym[i].text..sym[i].text + sym[i].n], tokens, n, maxTokens, Emitted(v, ps[..k]));
      i := sym[i].next;
      k := k + 1;
    }
    assert ps[..|ps|] == ps;
  }

  lemma PieceAt(sym: seq<Sym>, norm: Bytes, i: nat, k: nat)
    requires Linked(sym, norm) && i < |sym| && sym[i].n > 0 && Reaches(sym, norm, 0, i, k)
    ensures var ps := PiecesFrom(sym, norm, 0);
            k < |ps| && sym[i].text + sym[i].n <= |norm| && ps[k] == norm[sym[i].text..sym[i].text + sym[i].n]
  {
    ReachesNext(sym, norm, 0, i, k);
    assert Node(sym, norm, i);
    assert PiecesFrom(sym, norm, 0)[k] == PiecesFrom(sym, norm, 0)[k..][0];
  }

  /** tokenize_spm: exactly the first maxTokens of Tokens(v, scores, t, prefix). Without
      scores it hands the text to the byte-pair encoder. */
  method TokenizeSpm(v: Vocab, scores: Option<seq<real>>, t: Bytes, tokens: array<int>,
                     maxTokens: nat, prefix: bool) returns (n: nat)
    requires Sound(v) && (scores.Some? ==> Scored(v, scores.value)) && maxTokens <= tokens.Length
    modifies tokens
    ensures var all := if scores.Some? then Tokens(v, scores.value, t, prefix) else Bpe.Tokens(v, t);
            var cap := if scores.Some? then maxTokens else Bpe.Min(4096, maxTokens);
            n == Bpe.Min(|all|, cap) && tokens[..n] == all[..n]
  {
    hide Linked, PiecesFrom, Split, Normalize, JoinAll, Bpe.Tokens;
    if scores.None? {
      n := Bpe.TokenizeBpe(v, t, tokens, maxTokens);
      return;
    }
    var norm, nn := NormalizeText(t, prefix);
    var sym, nsym := SplitText(norm[..nn]);
    if nsym == 0 {
      NothingToSay(v, scores.value);
      return 0;
    }
    JoinLoop(v, scores.value, sym, nsym, norm[..nn]);
    n := Emit(v, sym[..nsym], norm[..nn], tokens, maxTokens);
  }

  lemma NothingToSay(v: Vocab, scores: seq<real>)
    requires Scored(v, scores)
    ensures Emitted(v, JoinAll(v, scores, Split([]))) == []
  {
  }
}
