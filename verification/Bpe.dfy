/** The byte-pair encoder of src/tokenizer.c, and the proof that qwen25_decode undoes it. */
module Bpe {
  import opened ByteMap
  import opened Vocabulary
  import opened Pretokenizer

  const MAX_CHUNK_SYMS := 512
  const MAX_SYMBOLS := 4096

  function Min(a: int, b: int): int {
    if a < b then a else b
  }

  // ---------------------------------------------------------------- what is computed

  /** The tokens of the single bytes of a chunk; bytes without a token are skipped. */
  function ByteIds(v: Vocab, c: Bytes): (s: seq<int>)
    requires Sound(v)
    ensures |s| <= |c|
  {
    if c == [] then []
    else ByteIds(v, c[..|c| - 1]) + if v.bytes[c[|c| - 1]] >= 0 then [v.bytes[c[|c| - 1]]] else []
  }

  function RankAt(v: Vocab, s: seq<int>, i: nat): int
    requires i + 1 < |s|
  {
    MergeRank(v, s[i], s[i + 1])
  }

  predicate CanMerge(v: Vocab, s: seq<int>, i: nat)
    requires i + 1 < |s|
  {
    0 <= RankAt(v, s, i) < INT32_MAX
  }

  /** i is the leftmost pair of the lowest rank. */
  ghost predicate Best(v: Vocab, s: seq<int>, i: nat) {
    && i + 1 < |s| && CanMerge(v, s, i)
    && (forall j :: 0 <= j < |s| - 1 && CanMerge(v, s, j) ==> RankAt(v, s, i) <= RankAt(v, s, j))
    && (forall j :: 0 <= j < i && CanMerge(v, s, j) ==> RankAt(v, s, i) < RankAt(v, s, j))
  }

  lemma BestUnique(v: Vocab, s: seq<int>, i: nat, j: nat)
    requires Best(v, s, i) && Best(v, s, j)
    ensures i == j
  {
  }

  function Joint(v: Vocab, s: seq<int>, i: nat): int
    requires i + 1 < |s|
  {
    MergeResult(v, s[i], s[i + 1])
  }

  function MergeAt(s: seq<int>, i: nat, id: int): seq<int>
    requires i + 1 < |s|
  {
    s[..i] + [id] + s[i + 2..]
  }

  /** The outcome of merging best pairs until none is left or one has no token. */
  ghost function Merged(v: Vocab, s: seq<int>): seq<int>
    decreases |s|
  {
    if exists i :: Best(v, s, i) then
      var i :| Best(v, s, i);
      if Joint(v, s, i) == NONE then s else Merged(v, MergeAt(s, i, Joint(v, s, i)))
    else s
  }

  lemma MergedStep(v: Vocab, s: seq<int>, i: nat)
    requires Best(v, s, i)
    ensures Merged(v, s) == if Joint(v, s, i) == NONE then s else Merged(v, MergeAt(s, i, Joint(v, s, i)))
  {
    var j :| Best(v, s, j) && Merged(v, s) == if Joint(v, s, j) == NONE then s else Merged(v, MergeAt(s, j, Joint(v, s, j)));
    BestUnique(v, s, i, j);
  }

  ghost function ChunkTokens(v: Vocab, c: Bytes): seq<int>
    requires Sound(v)
  {
    Merged(v, ByteIds(v, c)[..Min(|ByteIds(v, c)|, MAX_CHUNK_SYMS)])
  }

  ghost function SegmentTokens(v: Vocab, s: Segment, t: Bytes): seq<int>
    requires Sound(v) && t != [] && s == Head(v, t)
  {
    match s
    case Special(n) => [v.ids[t[..n]]]
    case Chunk(n) => ChunkTokens(v, t[..n])
  }

  /** The tokens of a text before the two output caps. */
  ghost function Tokens(v: Vocab, t: Bytes): seq<int>
    requires Sound(v)
    decreases |t|
  {
    if t == [] then []
    else SegmentTokens(v, Head(v, t), t) + Tokens(v, t[Head(v, t).len..])
  }

  // -------------------------------------------------------------------- the algorithm

  /** One scan of bpe_encode_chunk for the pair to merge; -1 when there is none. */
  method FindBest(v: Vocab, syms: array<int>, n: nat) returns (bestIdx: int)
    requires n <= syms.Length
    ensures -1 <= bestIdx && (bestIdx >= 0 ==> Best(v, syms[..n], bestIdx))
    ensures bestIdx < 0 ==> !exists i :: Best(v, syms[..n], i)
  {
    hide MergeRank;
    ghost var s := syms[..n];
    bestIdx := -1;
    var bestRank := INT32_MAX;
    var i := 0;
    while i < n - 1
      invariant 0 <= i && (i == 0 || i < n)
      invariant -1 <= bestIdx && (bestIdx < 0 || bestIdx + 1 < n)
      invariant bestIdx < 0 ==> bestRank == INT32_MAX
      invariant bestIdx >= 0 ==> CanMerge(v, s, bestIdx) && bestRank == RankAt(v, s, bestIdx)
      invariant forall j :: 0 <= j < i && CanMerge(v, s, j) ==> bestRank <= RankAt(v, s, j)
      invariant forall j :: 0 <= j < bestIdx && CanMerge(v, s, j) ==> bestRank < RankAt(v, s, j)
      invariant bestIdx < 0 ==> forall j :: 0 <= j < i ==> !CanMerge(v, s, j)
    {
      var rank := MergeRank(v, syms[i], syms[i + 1]);
      assert rank == RankAt(v, s, i);
      if rank >= 0 && rank < bestRank { bestRank, bestIdx := rank, i; }
      i := i + 1;
    }
  }

  /** The merge loop of bpe_encode_chunk: syms[..n] is compacted in place. */
  method MergeAll(v: Vocab, syms: array<int>, n: nat) returns (m: nat)
    requires n <= syms.Length
    modifies syms
    ensures m <= n && syms[..m] == Merged(v, old(syms[..n]))
  {
    hide Best, Merged;
    m := n;
    while m > 1
      invariant m <= n
      invariant Merged(v, syms[..m]) == Merged(v, old(syms[..n]))
    {
      var bestIdx := FindBest(v, syms, m);
      ghost var s := syms[..m];
      if bestIdx < 0 {
        MergedEnds(v, s);
        break;
      }
      BestIsPair(v, s, bestIdx);
      MergedStep(v, s, bestIdx);
      var merged := MergeResult(v, syms[bestIdx], syms[bestIdx + 1]);
      if merged == NONE { break; }
      syms[bestIdx] := merged;
      forall k | bestIdx + 1 <= k < m - 1 { syms[k] := syms[k + 1]; }
      m := m - 1;
      assert syms[..m] == MergeAt(s, bestIdx, merged);
    }
    if m <= 1 { MergedShort(v, syms[..m]); }
  }

  lemma MergedEnds(v: Vocab, s: seq<int>)
    requires !exists i :: Best(v, s, i)
    ensures Merged(v, s) == s
  {
  }

  lemma MergedShort(v: Vocab, s: seq<int>)
    requires |s| <= 1
    ensures Merged(v, s) == s
  {
  }

  lemma BestIsPair(v: Vocab, s: seq<int>, i: nat)
    requires Best(v, s, i)
    ensures i + 1 < |s|
  {
  }

  /** The first loop of bpe_encode_chunk: at most 512 byte tokens go to syms. */
  method ByteSyms(v: Vocab, c: Bytes, syms: array<int>) returns (n: nat)
    requires Sound(v)
    modifies syms
    ensures n == Min(|ByteIds(v, c)|, syms.Length) && syms[..n] == ByteIds(v, c)[..n]
  {
    n := 0;
    var i := 0;
    assert c[..0] == [];
    while i < |c| && n < syms.Length
      invariant 0 <= i <= |c| && n <= syms.Length && syms[..n] == ByteIds(v, c[..i])
    {
      assert c[..i + 1][..i] == c[..i];
      ghost var was := syms[..n];
      var id := v.bytes[c[i]];
      if id >= 0 {
        syms[n] := id;
        n := n + 1;
        assert syms[..n] == was + [id];
      }
      i := i + 1;
    }
    ByteIdsPrefix(v, c, i);
    assert c[..|c|] == c;
  }

  /** bpe_encode_chunk, writing to out from index at. */
  method EncodeChunk(v: Vocab, c: Bytes, out: array<int>, at: nat, maxOut: nat) returns (n: nat)
    requires Sound(v) && at + maxOut <= out.Length
    modifies out
    ensures n == Min(|ChunkTokens(v, c)|, maxOut)
    ensures out[..at + n] == old(out[..at]) + ChunkTokens(v, c)[..n]
  {
    hide Merged, ByteIds;
    var syms := new int[MAX_CHUNK_SYMS];
    n := ByteSyms(v, c, syms);
    n := MergeAll(v, syms, n);
    ghost var result := syms[..n];
    assert result == ChunkTokens(v, c);
    n := Min(n, maxOut);
    forall k | 0 <= k < n { out[at + k] := syms[k]; }
    assert forall k :: 0 <= k < n ==> out[at + k] == result[k];
  }

  lemma {:induction false} ByteIdsPrefix(v: Vocab, c: Bytes, i: nat)
    requires Sound(v) && i <= |c|
    ensures ByteIds(v, c[..i]) <= ByteIds(v, c)
    decreases |c|
  {
    if i < |c| {
      ByteIdsPrefix(v, c[..|c| - 1], i);
      assert c[..|c| - 1][..i] == c[..i];
    } else {
      assert c[..i] == c;
    }
  }

  /** The loop body of tokenize_bpe: one segment is taken off at pos and its tokens are
      appended to the first n symbols, as far as they fit. */
  method OneSegment(v: Vocab, t: Bytes, pos: nat, symbols: array<int>, n: nat) returns (pos': nat, n': nat)
    requires Sound(v) && pos < |t| && n < symbols.Length
    modifies symbols
    ensures pos' == pos + Head(v, t[pos..]).len <= |t|
    ensures n' == Min(n + |SegmentTokens(v, Head(v, t[pos..]), t[pos..])|, symbols.Length)
    ensures symbols[..n'] == old(symbols[..n]) + SegmentTokens(v, Head(v, t[pos..]), t[pos..])[..n' - n]
  {
    hide Head, ChunkTokens, SpecialLen;
    var rest := t[pos..];
    var id, len := MatchSpecial(v, rest);
    SpecialHead(v, rest);
    if id >= 0 {
      symbols[n] := id;
      return pos + len, n + 1;
    }
    var end := NextChunk(v, t, pos);
    assert rest[..end - pos] == t[pos..end];
    var added := EncodeChunk(v, t[pos..end], symbols, n, symbols.Length - n);
    return end, n + added;
  }

  lemma SpecialHead(v: Vocab, t: Bytes)
    requires Sound(v) && t != []
    ensures SpecialLen(v, t) > 0 <==> Head(v, t).Special?
    ensures SpecialLen(v, t) > 0 ==>
              Head(v, t).len == SpecialLen(v, t) && t[..SpecialLen(v, t)] in v.ids && v.ids[t[..SpecialLen(v, t)]] >= 0
    ensures 1 <= Head(v, t).len <= |t|
  {
  }

  /** tokenize_bpe: exactly the first tokens of Tokens(v, t) that fit both caps. */
  method TokenizeBpe(v: Vocab, t: Bytes, tokens: array<int>, maxTokens: nat) returns (n: nat)
    requires Sound(v) && maxTokens <= tokens.Length
    modifies tokens
    ensures n == Min(|Tokens(v, t)|, Min(4096, maxTokens))
    ensures tokens[..n] == Tokens(v, t)[..n]
  {
    hide Head, SegmentTokens, Tokens;
    var symbols := new int[MAX_SYMBOLS];
    n := 0;
    var pos := 0;
    ghost var all := Tokens(v, t);
    assert t[0..] == t;
    while pos < |t| && n < MAX_SYMBOLS
      invariant 0 <= pos <= |t| && n <= MAX_SYMBOLS && n <= |all|
      invariant symbols[..n] == all[..n]
      invariant n < MAX_SYMBOLS ==> all == symbols[..n] + Tokens(v, t[pos..])
      decreases |t| - pos
    {
      ghost var rest, done := t[pos..], symbols[..n];
      TokensStep(v, rest);
      pos, n := OneSegment(v, t, pos, symbols, n);
      assert rest[Head(v, rest).len..] == t[pos..];
      ghost var next := SegmentTokens(v, Head(v, rest), rest);
      assert all == (done + next) + Tokens(v, t[pos..]);
    }
    if n < MAX_SYMBOLS {
      NoTokens(v, t[pos..]);
      assert all == symbols[..n];
    }
    n := Min(n, maxTokens);
    forall k | 0 <= k < n { tokens[k] := symbols[k]; }
    assert forall k :: 0 <= k < n ==> tokens[k] == all[k];
  }

  lemma NoTokens(v: Vocab, t: Bytes)
    requires Sound(v) && t == []
    ensures Tokens(v, t) == []
  {
  }

  lemma TokensStep(v: Vocab, t: Bytes)
    requires Sound(v) && t != []
    ensures 1 <= Head(v, t).len <= |t|
    ensures Tokens(v, t) == SegmentTokens(v, Head(v, t), t) + Tokens(v, t[Head(v, t).len..])
  {
  }
}
