/** Which merges the merge list of a BPE vocabulary allows, said of the strings of the
    model file that vocab_load_for_bpe (src/core.c) reads. */
module MergeList {
  import opened Common
  import opened ByteMap
  import opened Vocabulary
  import opened Bpe

  /** The tables are those that LoadBpe makes of the pieces and lines of a file. */
  ghost predicate Loaded(v: Vocab, strings: seq<Bytes>, lines: seq<Bytes>) {
    && v.pieces == Cuts(strings) && v.ids == TableOf(Cuts(strings)) && v.merges == TableOf(Cuts(lines))
    && ByteLevel(v)
  }

  /** A string of the file counts as key: it is key, of at most 255 bytes, or key with a
      multiple of 256 bytes behind it. */
  predicate Reads(s: Bytes, key: Bytes) {
    |key| <= 255 && key <= s && (|s| - |key|) % 256 == 0
  }

  /** String r counts as key and no later one does. */
  predicate LastAt(strings: seq<Bytes>, key: Bytes, r: int) {
    0 <= r < |strings| && Reads(strings[r], key) && forall j :: r < j < |strings| ==> !Reads(strings[j], key)
  }

  lemma ReadsCut(s: Bytes, key: Bytes)
    ensures Reads(s, key) <==> Cut(s) == key
  {
    if Reads(s, key) { Multiple(|Cut(s)|, |key|, |s|); }
  }

  lemma Multiple(a: nat, b: nat, n: nat)
    requires a <= 255 && b <= 255 && a <= n && b <= n && (n - a) % 256 == 0 && (n - b) % 256 == 0
    ensures a == b
  {
  }

  /** What a table made of the strings of the file holds. */
  lemma TableLast(strings: seq<Bytes>, key: Bytes)
    ensures var t := TableOf(Cuts(strings));
            && (key in t ==> LastAt(strings, key, t[key]))
            && (key !in t ==> forall r :: 0 <= r < |strings| ==> !Reads(strings[r], key))
  {
    hide TableOf, Reads, Cut;
    var keys := Cuts(strings);
    TableOfSound(keys);
    forall r | 0 <= r < |strings| ensures Reads(strings[r], key) <==> keys[r] == key {
      ReadsCut(strings[r], key);
    }
  }

  lemma LastUnique(strings: seq<Bytes>, key: Bytes, r: int, q: int)
    requires LastAt(strings, key, r) && LastAt(strings, key, q)
    ensures r == q
  {
    hide Reads;
  }

  /** A pair has a rank exactly when the merge file has the line of its first piece, a space
      and its second piece, and the rank is the number of the last such line. */
  lemma RankListed(v: Vocab, strings: seq<Bytes>, lines: seq<Bytes>, a: int, b: int)
    requires Loaded(v, strings, lines)
    ensures MergeRank(v, a, b) != NONE <==>
              IsId(v, a) && IsId(v, b) && exists r :: 0 <= r < |lines| && Reads(lines[r], v.pieces[a] + [0x20] + v.pieces[b])
    ensures MergeRank(v, a, b) != NONE ==> LastAt(lines, v.pieces[a] + [0x20] + v.pieces[b], MergeRank(v, a, b))
  {
    hide TableOf, Reads, Cuts, ByteLevel;
    if IsId(v, a) && IsId(v, b) {
      var key := v.pieces[a] + [0x20] + v.pieces[b];
      TableLast(lines, key);
      if key in v.merges { ReadShort(lines[v.merges[key]], key); }
    }
  }

  lemma ReadShort(s: Bytes, key: Bytes)
    requires Reads(s, key)
    ensures |key| <= MAX_KEY
  {
  }

  /** A pair merges into the last piece that spells both, if there is one. */
  lemma JointListed(v: Vocab, strings: seq<Bytes>, lines: seq<Bytes>, a: int, b: int)
    requires Loaded(v, strings, lines)
    ensures MergeResult(v, a, b) != NONE <==>
              IsId(v, a) && IsId(v, b) && exists r :: 0 <= r < |strings| && Reads(strings[r], v.pieces[a] + v.pieces[b])
    ensures MergeResult(v, a, b) != NONE ==> LastAt(strings, v.pieces[a] + v.pieces[b], MergeResult(v, a, b))
  {
    hide TableOf, Reads, Cuts, ByteLevel;
    if IsId(v, a) && IsId(v, b) {
      var key := v.pieces[a] + v.pieces[b];
      TableLast(strings, key);
      if key in v.ids { ReadShort(strings[v.ids[key]], key); }
    }
  }

  // --------------------------------------------------------------------- the merge loop

  /** The tokens at i and i + 1 are the pair of line r. A rank is a 32-bit integer whose
      highest value stands for none. */
  ghost predicate Ranked(v: Vocab, lines: seq<Bytes>, s: seq<int>, i: int, r: int) {
    && 0 <= i < |s| - 1 && IsId(v, s[i]) && IsId(v, s[i + 1]) && r < 0x7FFF_FFFF
    && LastAt(lines, v.pieces[s[i]] + [0x20] + v.pieces[s[i + 1]], r)
  }

  /** The pair at i has the lowest rank, and the pairs before it have higher ones. */
  ghost predicate First(v: Vocab, lines: seq<Bytes>, s: seq<int>, i: int, r: int) {
    && Ranked(v, lines, s, i, r)
    && forall j, q :: Ranked(v, lines, s, j, q) ==> r < q || (r == q && i <= j)
  }

  lemma RankedIs(v: Vocab, strings: seq<Bytes>, lines: seq<Bytes>, s: seq<int>, i: nat)
    requires Loaded(v, strings, lines) && i + 1 < |s|
    ensures CanMerge(v, s, i) ==> Ranked(v, lines, s, i, RankAt(v, s, i))
    ensures forall r :: Ranked(v, lines, s, i, r) ==> CanMerge(v, s, i) && RankAt(v, s, i) == r
  {
    hide MergeRank, Loaded, Reads;
    RankListed(v, strings, lines, s[i], s[i + 1]);
    forall r | Ranked(v, lines, s, i, r) ensures CanMerge(v, s, i) && RankAt(v, s, i) == r {
      LastUnique(lines, v.pieces[s[i]] + [0x20] + v.pieces[s[i + 1]], r, RankAt(v, s, i));
    }
  }

  lemma FirstIsBest(v: Vocab, strings: seq<Bytes>, lines: seq<Bytes>, s: seq<int>, i: int, r: int)
    requires Loaded(v, strings, lines) && First(v, lines, s, i, r)
    ensures 0 <= i && Best(v, s, i)
  {
    hide Loaded, CanMerge, RankAt, LastAt;
    forall j: nat | j < |s| - 1 && CanMerge(v, s, j)
      ensures RankAt(v, s, i) <= RankAt(v, s, j) && (j < i ==> RankAt(v, s, i) < RankAt(v, s, j))
    {
      RankedIs(v, strings, lines, s, j);
      RankedIs(v, strings, lines, s, i);
    }
    RankedIs(v, strings, lines, s, i);
  }

  lemma BestIsFirst(v: Vocab, strings: seq<Bytes>, lines: seq<Bytes>, s: seq<int>, i: nat)
    requires Loaded(v, strings, lines) && Best(v, s, i)
    ensures First(v, lines, s, i, RankAt(v, s, i))
  {
    hide Loaded, CanMerge, RankAt, LastAt;
    RankedIs(v, strings, lines, s, i);
    forall j, q | Ranked(v, lines, s, j, q) ensures RankAt(v, s, i) < q || (RankAt(v, s, i) == q && i <= j) {
      RankedIs(v, strings, lines, s, j);
    }
  }

  /** If any pair of the first n + 1 tokens can be merged, one of them is best. */
  lemma {:induction false} BestExists(v: Vocab, s: seq<int>, n: nat) returns (i: nat)
    requires n < |s| && exists j :: 0 <= j < n && CanMerge(v, s, j)
    ensures i < n && CanMerge(v, s, i)
    ensures forall j :: 0 <= j < n && CanMerge(v, s, j) ==> RankAt(v, s, i) <= RankAt(v, s, j)
    ensures forall j :: 0 <= j < i && CanMerge(v, s, j) ==> RankAt(v, s, i) < RankAt(v, s, j)
    decreases n
  {
    hide MergeRank;
    var j :| 0 <= j < n && CanMerge(v, s, j);
    if exists k :: 0 <= k < n - 1 && CanMerge(v, s, k) {
      i := BestExists(v, s, n - 1);
      if CanMerge(v, s, n - 1) && RankAt(v, s, n - 1) < RankAt(v, s, i) { i := n - 1; }
    } else {
      i := j;
    }
  }

  /** The loop merges the first pair: into the last piece that spells it, and goes on. */
  lemma MergesFirst(v: Vocab, strings: seq<Bytes>, lines: seq<Bytes>, s: seq<int>, i: int, r: int, id: int)
    requires Loaded(v, strings, lines) && First(v, lines, s, i, r)
    requires LastAt(strings, v.pieces[s[i]] + v.pieces[s[i + 1]], id)
    ensures Merged(v, s) == Merged(v, s[..i] + [id] + s[i + 2..])
  {
    hide Loaded, Best, Reads, Merged, MergeResult;
    FirstIsBest(v, strings, lines, s, i, r);
    MergedStep(v, s, i);
    JointListed(v, strings, lines, s[i], s[i + 1]);
    LastUnique(strings, v.pieces[s[i]] + v.pieces[s[i + 1]], id, Joint(v, s, i));
  }

  /** It stops only where no two neighbours are a line of the file, or where no piece spells
      the first pair that is one. */
  ghost predicate Stops(v: Vocab, strings: seq<Bytes>, lines: seq<Bytes>, s: seq<int>) {
    || (forall i, r :: !Ranked(v, lines, s, i, r))
    || exists i, r :: First(v, lines, s, i, r)
                      && forall j :: 0 <= j < |strings| ==> !Reads(strings[j], v.pieces[s[i]] + v.pieces[s[i + 1]])
  }

  lemma StopsThere(v: Vocab, strings: seq<Bytes>, lines: seq<Bytes>, s: seq<int>)
    requires Loaded(v, strings, lines) && Stops(v, strings, lines, s)
    ensures Merged(v, s) == s
  {
    hide Loaded, Best, Reads, Merged, MergeResult, LastAt;
    if forall i, r :: !Ranked(v, lines, s, i, r) {
      if i :| Best(v, s, i) {
        BestIsFirst(v, strings, lines, s, i);
        assert false;
      }
      MergedEnds(v, s);
    } else {
      var i, r :| First(v, lines, s, i, r)
                  && forall j :: 0 <= j < |strings| ==> !Reads(strings[j], v.pieces[s[i]] + v.pieces[s[i + 1]]);
      FirstIsBest(v, strings, lines, s, i, r);
      MergedStep(v, s, i);
      JointListed(v, strings, lines, s[i], s[i + 1]);
    }
  }

  lemma {:induction false} MergedStops(v: Vocab, strings: seq<Bytes>, lines: seq<Bytes>, s: seq<int>)
    requires Loaded(v, strings, lines)
    ensures Stops(v, strings, lines, Merged(v, s))
    decreases |s|
  {
    hide Loaded, Best, Reads, Merged, MergeResult, LastAt;
    if i: nat :| Best(v, s, i) {
      MergedStep(v, s, i);
      BestIsFirst(v, strings, lines, s, i);
      JointListed(v, strings, lines, s[i], s[i + 1]);
      if Joint(v, s, i) != NONE {
        MergedStops(v, strings, lines, MergeAt(s, i, Joint(v, s, i)));
      }
    } else {
      MergedEnds(v, s);
      NoneRanked(v, strings, lines, s);
    }
  }

  lemma NoneRanked(v: Vocab, strings: seq<Bytes>, lines: seq<Bytes>, s: seq<int>)
    requires Loaded(v, strings, lines) && !exists i :: Best(v, s, i)
    ensures forall i, r :: !Ranked(v, lines, s, i, r)
  {
    hide *;
    forall i, r | Ranked(v, lines, s, i, r) ensures false {
      var b := BestOfRanked(v, strings, lines, s, i, r);
    }
  }

  lemma BestOfRanked(v: Vocab, strings: seq<Bytes>, lines: seq<Bytes>, s: seq<int>, i: int, r: int) returns (b: nat)
    requires Loaded(v, strings, lines) && Ranked(v, lines, s, i, r)
    ensures Best(v, s, b)
  {
    hide Loaded, LastAt;
    RankedIs(v, strings, lines, s, i);
    hide CanMerge;
    b := BestExists(v, s, |s| - 1);
  }

  /** A chunk that bpe_encode_chunk is done with: no two neighbouring tokens are a line of the
      merge file any more, or the first pair that is one has no token of its own. */
  lemma ChunkStops(v: Vocab, strings: seq<Bytes>, lines: seq<Bytes>, c: Bytes)
    requires Loaded(v, strings, lines)
    ensures Stops(v, strings, lines, ChunkTokens(v, c))
  {
    hide Stops, Merged, Loaded;
    SoundLoaded(v, strings, lines);
    MergedStops(v, strings, lines, ByteIds(v, c)[..Min(|ByteIds(v, c)|, MAX_CHUNK_SYMS)]);
  }

  lemma SoundLoaded(v: Vocab, strings: seq<Bytes>, lines: seq<Bytes>)
    requires Loaded(v, strings, lines)
    ensures Sound(v) && ByteLevel(v)
  {
  }

  /** Two bytes whose pieces are a line of the file, and whose joint spelling is a piece, are
      one token. */
  lemma TwoBytes(v: Vocab, strings: seq<Bytes>, lines: seq<Bytes>, x: Byte, y: Byte, a: int, b: int, r: int, id: int)
    requires Loaded(v, strings, lines) && LastAt(strings, Enc(x), a) && LastAt(strings, Enc(y), b)
    requires r < 0x7FFF_FFFF && LastAt(lines, Enc(x) + [0x20] + Enc(y), r) && LastAt(strings, Enc(x) + Enc(y), id)
    ensures ChunkTokens(v, [x, y]) == [id]
  {
    hide LastAt, Merged, Enc;
    SoundLoaded(v, strings, lines);
    ByteAt(v, strings, lines, x, a);
    ByteAt(v, strings, lines, y, b);
    TwoIds(v, x, y);
    var s := [a, b];
    assert Ranked(v, lines, s, 0, r);
    forall j, q | Ranked(v, lines, s, j, q) ensures r == q && j == 0 {
      LastUnique(lines, Enc(x) + [0x20] + Enc(y), r, q);
    }
    MergesFirst(v, strings, lines, s, 0, r, id);
    assert s[..0] + [id] + s[2..] == [id];
    MergedShort(v, [id]);
    assert ByteIds(v, [x, y])[..2] == s;
  }

  /** The token of a byte is the last piece that spells it. */
  lemma ByteAt(v: Vocab, strings: seq<Bytes>, lines: seq<Bytes>, x: Byte, a: int)
    requires Loaded(v, strings, lines) && LastAt(strings, Enc(x), a)
    ensures Sound(v) && v.bytes[x] == a && IsId(v, a) && v.pieces[a] == Enc(x)
  {
    hide Enc, TableOf, Reads, Cuts;
    TableLast(strings, Enc(x));
    LastUnique(strings, Enc(x), a, v.ids[Enc(x)]);
  }

  lemma TwoIds(v: Vocab, x: Byte, y: Byte)
    requires Sound(v) && v.bytes[x] >= 0 && v.bytes[y] >= 0
    ensures ByteIds(v, [x, y]) == [v.bytes[x], v.bytes[y]]
  {
    assert [x, y][..1] == [x] && [x][..0] == [];
    assert ByteIds(v, [x]) == [v.bytes[x]];
  }
}
