/** Decoding the tokens of a text gives the text back: exactly when, and a simple case
    in which it always does. */
module BpeRoundTrip {
  import opened Common
  import opened ByteMap
  import opened Vocabulary
  import opened Pretokenizer
  import opened Bpe

  /** What qwen25_decode prints for a run of tokens, one call per token. */
  function TextOf(v: Vocab, s: seq<int>): Bytes {
    if s == [] then []
    else TextOf(v, s[..|s| - 1]) + if IsId(v, s[|s| - 1]) then Dec(v.pieces[s[|s| - 1]]) else []
  }

  lemma {:induction false} TextAppend(v: Vocab, s: seq<int>, t: seq<int>)
    ensures TextOf(v, s + t) == TextOf(v, s) + TextOf(v, t)
  {
    if t == [] {
      assert s + t == s;
    } else {
      TextAppend(v, s, t[..|t| - 1]);
      assert (s + t)[..|s + t| - 1] == s + t[..|t| - 1];
    }
  }

  /** The piece spells whole bytes. */
  ghost predicate Whole(p: Bytes) {
    exists bs :: p == EncAll(bs)
  }

  ghost predicate AllWhole(v: Vocab, s: seq<int>) {
    forall i :: 0 <= i < |s| ==> IsId(v, s[i]) && v.pieces[s[i]] != [] && Whole(v.pieces[s[i]])
  }

  lemma WholeAppend(p: Bytes, q: Bytes)
    requires Whole(p) && Whole(q)
    ensures Whole(p + q) && Dec(p + q) == Dec(p) + Dec(q)
  {
    hide EncAll, Dec;
    var bs :| p == EncAll(bs);
    var cs :| q == EncAll(cs);
    EncAllAppend(bs, cs);
    DecEncAll(bs, q);
    DecEncAll(bs, []);
    assert p + [] == p;
    DecNothing();
  }

  lemma DecNothing()
    ensures Dec([]) == []
  {
  }

  // ---------------------------------------------------------------------- merging

  /** A merge replaces two pieces by one that reads the same. */
  lemma MergeKeeps(v: Vocab, s: seq<int>, i: nat)
    requires Sound(v) && AllWhole(v, s) && i + 1 < |s| && Joint(v, s, i) != NONE
    ensures AllWhole(v, MergeAt(s, i, Joint(v, s, i)))
    ensures TextOf(v, MergeAt(s, i, Joint(v, s, i))) == TextOf(v, s)
  {
    hide EncAll, Dec, Whole;
    var p, q, id := v.pieces[s[i]], v.pieces[s[i + 1]], Joint(v, s, i);
    WholeAppend(p, q);
    assert v.pieces[id] == p + q;
    assert TextOf(v, [id]) == TextOf(v, [s[i], s[i + 1]]) by { TextOfTwo(v, s[i], s[i + 1]); TextOfOne(v, id); }
    assert MergeAt(s, i, id) == (s[..i] + [id]) + s[i + 2..];
    assert s == (s[..i] + [s[i], s[i + 1]]) + s[i + 2..];
    TextAppend(v, s[..i] + [id], s[i + 2..]);
    TextAppend(v, s[..i], [id]);
    TextAppend(v, s[..i] + [s[i], s[i + 1]], s[i + 2..]);
    TextAppend(v, s[..i], [s[i], s[i + 1]]);
  }

  lemma TextOfOne(v: Vocab, a: int)
    requires IsId(v, a)
    ensures TextOf(v, [a]) == Dec(v.pieces[a])
  {
  }

  lemma TextOfTwo(v: Vocab, a: int, b: int)
    requires IsId(v, a) && IsId(v, b)
    ensures TextOf(v, [a, b]) == Dec(v.pieces[a]) + Dec(v.pieces[b])
  {
    assert [a, b] == [a] + [b];
    TextAppend(v, [a], [b]);
  }

  /** The whole merge loop keeps the text, and never makes more symbols. */
  lemma {:induction false} MergedKeeps(v: Vocab, s: seq<int>)
    requires Sound(v) && AllWhole(v, s)
    ensures AllWhole(v, Merged(v, s)) && TextOf(v, Merged(v, s)) == TextOf(v, s)
    ensures |Merged(v, s)| <= |s|
    decreases |s|
  {
    hide AllWhole, TextOf;
    if i :| Best(v, s, i) {
      MergedStep(v, s, i);
      var id := Joint(v, s, i);
      if id != NONE {
        MergeKeeps(v, s, i);
        MergedKeeps(v, MergeAt(s, i, id));
      }
    }
  }

  // ----------------------------------------------------------------------- chunks

  /** The bytes of a chunk that have a token of their own. */
  function Known(v: Vocab, c: Bytes): (s: Bytes)
    requires Sound(v)
    ensures |s| <= |c|
  {
    if c == [] then []
    else Known(v, c[..|c| - 1]) + if v.bytes[c[|c| - 1]] >= 0 then [c[|c| - 1]] else []
  }

  predicate AllKnown(v: Vocab, c: Bytes)
    requires Sound(v)
  {
    forall i :: 0 <= i < |c| ==> v.bytes[c[i]] >= 0
  }

  lemma {:induction false} KnownAll(v: Vocab, c: Bytes)
    requires Sound(v)
    ensures AllKnown(v, c) ==> Known(v, c) == c
    ensures |Known(v, c)| == |c| ==> AllKnown(v, c)
  {
    if c != [] {
      KnownAll(v, c[..|c| - 1]);
      assert c == c[..|c| - 1] + [c[|c| - 1]];
    }
  }

  /** The piece of a byte token reads as that byte. */
  lemma BytePiece(v: Vocab, b: Byte)
    requires ByteLevel(v) && v.bytes[b] >= 0
    ensures v.pieces[v.bytes[b]] != [] && Whole(v.pieces[v.bytes[b]]) && Dec(v.pieces[v.bytes[b]]) == [b]
  {
    assert v.pieces[v.bytes[b]] == Enc(b);
    DecEnc(b, []);
    assert Enc(b) + [] == Enc(b);
    EncAllOne(b);
  }

  lemma EncAllOne(b: Byte)
    ensures Enc(b) == EncAll([b])
  {
  }

  lemma {:induction false} ByteIdsRead(v: Vocab, c: Bytes)
    requires ByteLevel(v)
    ensures AllWhole(v, ByteIds(v, c)) && |ByteIds(v, c)| == |Known(v, c)|
    ensures forall i :: 0 <= i < |Known(v, c)| ==> Dec(v.pieces[ByteIds(v, c)[i]]) == [Known(v, c)[i]]
  {
    hide Dec, Enc, Whole;
    if c != [] {
      ByteIdsRead(v, c[..|c| - 1]);
      var b := c[|c| - 1];
      if v.bytes[b] >= 0 { BytePiece(v, b); }
    }
  }

  lemma {:induction false} TextOfBytes(v: Vocab, s: seq<int>, bs: Bytes)
    requires AllWhole(v, s) && |s| == |bs|
    requires forall i :: 0 <= i < |s| ==> Dec(v.pieces[s[i]]) == [bs[i]]
    ensures TextOf(v, s) == bs
  {
    hide Dec, Whole;
    if s != [] {
      TextOfBytes(v, s[..|s| - 1], bs[..|bs| - 1]);
    }
  }

  /** A chunk decodes to its first 512 known bytes, whatever was merged. */
  lemma ChunkText(v: Vocab, c: Bytes)
    requires ByteLevel(v)
    ensures AllWhole(v, ChunkTokens(v, c)) && |ChunkTokens(v, c)| <= |c|
    ensures TextOf(v, ChunkTokens(v, c)) == Known(v, c)[..Min(|Known(v, c)|, 512)]
  {
    hide Dec, Whole, Merged, Known, ByteIds, TextOf;
    var n := Min(|ByteIds(v, c)|, MAX_CHUNK_SYMS);
    ByteIdsRead(v, c);
    ByteIdsShort(v, c);
    TextOfBytes(v, ByteIds(v, c)[..n], Known(v, c)[..n]);
    MergedKeeps(v, ByteIds(v, c)[..n]);
  }

  lemma ByteIdsShort(v: Vocab, c: Bytes)
    requires Sound(v)
    ensures |ByteIds(v, c)| <= |c|
  {
  }

  // ---------------------------------------------------------------------- segments

  /** Nothing of the segment that opens t is lost: a special token whose piece reads as
      itself, or a chunk of at most 512 bytes that all have tokens. */
  predicate Exact(v: Vocab, t: Bytes)
    requires Sound(v) && t != []
  {
    match Head(v, t)
    case Special(n) => Dec(t[..n]) == t[..n]
    case Chunk(n) => n <= MAX_CHUNK_SYMS && AllKnown(v, t[..n])
  }

  ghost predicate Nonempty(v: Vocab, s: seq<int>) {
    forall i :: 0 <= i < |s| ==> IsId(v, s[i]) && v.pieces[s[i]] != []
  }

  lemma SegmentText(v: Vocab, t: Bytes)
    requires ByteLevel(v) && t != []
    ensures var n, s := Head(v, t).len, SegmentTokens(v, Head(v, t), t);
            && Nonempty(v, s) && |s| <= n && |TextOf(v, s)| <= n
            && (Exact(v, t) ==> TextOf(v, s) == t[..n])
            && (|TextOf(v, s)| == n ==> Exact(v, t))
  {
    hide Dec, Whole, Known, SpecialLen, Merged;
    SpecialHead(v, t);
    match Head(v, t)
    case Special(n) =>
      TextOfOne(v, v.ids[t[..n]]);
      DecIsIdentity(t[..n]);
      DecShorter(t[..n]);
    case Chunk(n) =>
      ChunkText(v, t[..n]);
      KnownAll(v, t[..n]);
      KnownShort(v, t[..n]);
  }

  lemma DecShorter(p: Bytes)
    ensures |Dec(p)| <= |p| && (p != [] ==> Dec(p) != [])
  {
  }

  lemma KnownShort(v: Vocab, c: Bytes)
    requires Sound(v)
    ensures |Known(v, c)| <= |c|
  {
  }

  predicate AllExact(v: Vocab, t: Bytes)
    requires Sound(v)
    decreases |t|
  {
    t == [] || (Exact(v, t) && AllExact(v, t[Head(v, t).len..]))
  }

  /** Before the output caps, decoding never gives more bytes than the text has, and
      gives the text itself exactly when no segment loses anything. */
  lemma {:induction false} WholeText(v: Vocab, t: Bytes)
    requires ByteLevel(v)
    ensures Nonempty(v, Tokens(v, t)) && |Tokens(v, t)| <= |t| && |TextOf(v, Tokens(v, t))| <= |t|
    ensures AllExact(v, t) ==> TextOf(v, Tokens(v, t)) == t
    ensures |TextOf(v, Tokens(v, t))| == |t| ==> AllExact(v, t)
    decreases |t|
  {
    hide Head, SegmentTokens, TextOf, Exact, BpeByte;
    if t != [] {
      HeadProgress(v, t);
      var n, s := Head(v, t).len, SegmentTokens(v, Head(v, t), t);
      SegmentText(v, t);
      WholeText(v, t[n..]);
      TextAppend(v, s, Tokens(v, t[n..]));
      assert t == t[..n] + t[n..];
    } else {
      NoText(v);
    }
  }

  lemma NoText(v: Vocab)
    ensures TextOf(v, []) == []
  {
  }

  lemma {:induction false} NonemptyText(v: Vocab, s: seq<int>)
    requires Nonempty(v, s)
    ensures |s| <= |TextOf(v, s)|
  {
    if s != [] {
      NonemptyText(v, s[..|s| - 1]);
      DecShorter(v.pieces[s[|s| - 1]]);
    }
  }

  /** The tokens that tokenize_bpe returns decode to the text exactly when no segment
      loses anything and the tokens fit both caps. */
  lemma RoundTripIff(v: Vocab, t: Bytes, maxTokens: nat)
    requires ByteLevel(v)
    ensures var n := Min(|Tokens(v, t)|, Min(MAX_SYMBOLS, maxTokens));
            TextOf(v, Tokens(v, t)[..n]) == t <==>
              AllExact(v, t) && |Tokens(v, t)| <= Min(MAX_SYMBOLS, maxTokens)
  {
    hide TextOf, Tokens, AllExact, BpeByte;
    var all := Tokens(v, t);
    var n := Min(|all|, Min(MAX_SYMBOLS, maxTokens));
    WholeText(v, t);
    assert all == all[..n] + all[n..];
    TextAppend(v, all[..n], all[n..]);
    NonemptyText(v, all[n..]);
    if n == |all| { assert all[..n] == all; }
  }

  /** A vocabulary with a token for every byte, and no two-byte form in a piece that opens
      with "<|" (printable ASCII pieces hold none). */
  ghost predicate Lossless(v: Vocab) {
    && ByteLevel(v) && (forall b: Byte :: Enc(b) in v.ids)
    && (forall p :: p in v.ids && |p| >= 2 && p[..2] == [0x3C, 0x7C] ==> Dec(p) == p)
  }

  /** With such a vocabulary, a text whose segments have at most 512 bytes and that is no
      longer than both caps comes back, whatever the merge list says. */
  lemma RoundTrip(v: Vocab, t: Bytes, maxTokens: nat)
    requires Lossless(v) && |t| <= Min(MAX_SYMBOLS, maxTokens)
    requires forall s :: s in Segments(v, t) ==> |s| <= MAX_CHUNK_SYMS
    ensures |Tokens(v, t)| <= Min(MAX_SYMBOLS, maxTokens) && TextOf(v, Tokens(v, t)) == t
  {
    WholeText(v, t);
    ShortExact(v, t);
  }

  /** What can be read off a vocabulary: a token for every byte, and ASCII bytes only in the
      pieces that open with "<|". */
  lemma AsciiSpecialsRoundTrip(v: Vocab, t: Bytes, maxTokens: nat)
    requires ByteLevel(v) && (forall b: Byte :: Enc(b) in v.ids)
    requires forall p :: p in v.ids && |p| >= 2 && p[..2] == [0x3C, 0x7C] ==> forall i :: 0 <= i < |p| ==> p[i] < 0x80
    requires |t| <= Min(MAX_SYMBOLS, maxTokens)
    requires forall s :: s in Segments(v, t) ==> |s| <= MAX_CHUNK_SYMS
    ensures |Tokens(v, t)| <= Min(MAX_SYMBOLS, maxTokens) && TextOf(v, Tokens(v, t)) == t
  {
    hide Dec, Enc, Segments, Tokens, TextOf, ByteLevel;
    forall p | p in v.ids && |p| >= 2 && p[..2] == [0x3C, 0x7C] ensures Dec(p) == p {
      AsciiIsIdentity(p);
    }
    RoundTrip(v, t, maxTokens);
  }

  lemma {:induction false} ShortExact(v: Vocab, t: Bytes)
    requires Lossless(v)
    requires forall s :: s in Segments(v, t) ==> |s| <= MAX_CHUNK_SYMS
    ensures AllExact(v, t)
    decreases |t|
  {
    hide Dec, Enc, ContractionLen;
    if t != [] {
      var n := Head(v, t).len;
      assert Segments(v, t) == [t[..n]] + Segments(v, t[n..]);
      assert t[..n] in Segments(v, t);
      ShortExact(v, t[n..]);
      if Head(v, t).Special? {
        assert t[..n][..2] == t[..2];
        assert t[..n] in v.ids;
      }
    }
  }

  /** A special token with a two-byte form in it does not come back: the decoder reads
      the raw bytes that matched as if they were byte-level text. */
  lemma SpecialBreaks(v: Vocab, maxTokens: nat)
    requires ByteLevel(v) && [0x3C, 0x7C, 0xC3, 0xA9] in v.ids && maxTokens > 0
    ensures var t := [0x3C, 0x7C, 0xC3, 0xA9];
            var n := Min(|Tokens(v, t)|, Min(MAX_SYMBOLS, maxTokens));
            TextOf(v, Tokens(v, t)[..n]) != t
  {
    var t: Bytes := [0x3C, 0x7C, 0xC3, 0xA9];
    assert t[..4] == t;
    assert Longest(v, t, 4) == 4;
    assert Head(v, t) == Special(4);
    assert t[2..] == [0xC3, 0xA9] && Pair(t[2..]);
    DecIsIdentity(t);
    assert !Exact(v, t);
    RoundTripIff(v, t, maxTokens);
  }
}
