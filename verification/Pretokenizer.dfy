/** The pre-tokenizer of src/tokenizer.c: how a text is cut into special tokens and
    chunks before byte-pair merging. */
module Pretokenizer {
  import opened Common
  import opened ByteMap
  import opened Vocabulary

  datatype Category = Letter | Digit | Space | Other

  /** char_category, in the C locale; every byte above ASCII counts as a letter. */
  function CategoryOf(c: Byte): Category {
    if c >= 0x80 || 0x41 <= c <= 0x5A || 0x61 <= c <= 0x7A then Letter
    else if 0x30 <= c <= 0x39 then Digit
    else if c == 0x20 || 9 <= c <= 13 then Space
    else Other
  }

  /** In terms of characters; 11 and 12 are the vertical tab and the form feed. */
  lemma CategoryChars(c: Byte)
    ensures CategoryOf(c) == Letter <==> c > 127 || 'a' <= c as char <= 'z' || 'A' <= c as char <= 'Z'
    ensures CategoryOf(c) == Digit <==> '0' <= c as char <= '9'
    ensures CategoryOf(c) == Space <==> c in {11, 12} || c as char in " \t\n\r"
  {
  }

  /** How many bytes of category k open the text. */
  function Run(t: Bytes, k: Category): (n: nat)
    ensures n <= |t| && (n < |t| ==> CategoryOf(t[n]) != k)
    ensures forall i :: 0 <= i < n ==> CategoryOf(t[i]) == k
  {
    if t == [] || CategoryOf(t[0]) != k then 0 else 1 + Run(t[1..], k)
  }

  lemma RunIs(t: Bytes, k: Category, n: nat)
    requires n <= |t| && (n < |t| ==> CategoryOf(t[n]) != k)
    requires forall i :: 0 <= i < n ==> CategoryOf(t[i]) == k
    ensures Run(t, k) == n
  {
    if t != [] && n > 0 { RunIs(t[1..], k, n - 1); }
  }

  /** The longest of the first n lengths at which the text opens with a piece. */
  function Longest(v: Vocab, t: Bytes, n: nat): (r: nat)
    requires n <= |t|
    ensures r == 0 || (2 <= r <= n && t[..r] in v.ids)
    ensures forall m :: 2 <= m <= n && t[..m] in v.ids ==> m <= r
  {
    if n < 2 then 0 else if t[..n] in v.ids then n else Longest(v, t, n - 1)
  }

  /** The text opens with the characters of w. */
  predicate Starts(t: Bytes, w: string) {
    |w| <= |t| && forall i :: 0 <= i < |w| ==> t[i] == w[i] as int
  }

  /** match_special_token: the length of the special token that opens t, or 0. Any piece
      that starts with "<|" is taken, the longest one of at most 64 bytes. */
  function SpecialLen(v: Vocab, t: Bytes): (r: nat)
    ensures r > 0 ==> 2 <= r <= |t| && r <= 64 && t[..r] in v.ids && t[..2] == [0x3C, 0x7C]
  {
    if |t| < 3 || t[0] != 0x3C || t[1] != 0x7C then 0
    else Longest(v, t, if |t| < 64 then |t| else 64)
  }

  /** No longer one is: of at least three bytes that open with "<|" any piece of two to 64
      bytes counts. */
  lemma SpecialLongest(v: Vocab, t: Bytes, m: nat)
    requires |t| >= 3 && Starts(t, "<|") && 2 <= m <= |t| && m <= 64 && t[..m] in v.ids
    ensures m <= SpecialLen(v, t)
  {
    assert t[0] == '<' as int && t[1] == '|' as int;
  }

  method MatchSpecial(v: Vocab, t: Bytes) returns (id: int, len: nat)
    requires Sound(v)
    ensures len == SpecialLen(v, t)
    ensures id == if len > 0 then v.ids[t[..len]] else NONE
  {
    if |t| < 3 || t[0] != 0x3C || t[1] != 0x7C { return NONE, 0; }
    var maxTry := if |t| < 64 then |t| else 64;
    id, len := NONE, 0;
    for n := 2 to maxTry + 1
      invariant len == Longest(v, t, n - 1)
      invariant id == if len > 0 then v.ids[t[..len]] else NONE
    {
      if t[..n] in v.ids { id, len := v.ids[t[..n]], n; }
    }
  }

  /** 's 't 'm 'd, 're 've and 'll. */
  function ContractionLen(t: Bytes): (r: nat)
    ensures r > 0 ==> 2 <= r <= |t| && r <= 3
  {
    if |t| < 2 || t[0] != 0x27 then 0
    else if t[1] in [0x73, 0x74, 0x6D, 0x64] then 2
    else if (t[1] == 0x72 || t[1] == 0x76) && |t| > 2 && t[2] == 0x65 then 3
    else if t[1] == 0x6C && |t| > 2 && t[2] == 0x6C then 3
    else 0
  }

  /** Exactly these seven are taken, each with its own length. */
  lemma Contractions(t: Bytes)
    ensures ContractionLen(t) > 0 <==> exists w :: w in ["'s", "'t", "'m", "'d", "'re", "'ve", "'ll"] && Starts(t, w)
    ensures forall w :: w in ["'s", "'t", "'m", "'d", "'re", "'ve", "'ll"] && Starts(t, w) ==> ContractionLen(t) == |w|
  {
    hide Starts, ContractionLen;
    Taken(t);
    var words := ["'s", "'t", "'m", "'d", "'re", "'ve", "'ll"];
    assert words[0] in words && words[1] in words && words[2] in words && words[3] in words;
    assert words[4] in words && words[5] in words && words[6] in words;
  }

  lemma Taken(t: Bytes)
    ensures ContractionLen(t) == 2 <==> Starts(t, "'s") || Starts(t, "'t") || Starts(t, "'m") || Starts(t, "'d")
    ensures ContractionLen(t) == 3 <==> Starts(t, "'re") || Starts(t, "'ve") || Starts(t, "'ll")
    ensures ContractionLen(t) in {0, 2, 3}
  {
  }

  /** What the loop of tokenize_bpe takes off the front of the text. */
  datatype Segment = Special(len: nat) | Chunk(len: nat)

  function Head(v: Vocab, t: Bytes): (s: Segment)
    requires t != []
    ensures 1 <= s.len <= |t|
  {
    if SpecialLen(v, t) > 0 then Special(SpecialLen(v, t))
    else if ContractionLen(t) > 0 then Chunk(ContractionLen(t))
    else
      var w := Run(t, Space);
      if w > 1 || w == |t| then Chunk(w)
      else Chunk(w + Run(t[w..], CategoryOf(t[w])))
  }

  /** The first n bytes are a maximal run of category k behind at most one whitespace byte. */
  predicate MaximalRun(t: Bytes, n: nat, k: Category) {
    && 0 < n <= |t| && k != Space
    && CategoryOf(t[0]) in {k, Space} && CategoryOf(t[n - 1]) == k
    && (forall i :: 1 <= i < n ==> CategoryOf(t[i]) == k)
    && (n < |t| ==> CategoryOf(t[n]) != k)
  }

  /** A chunk is a contraction; or else, where two whitespace bytes or only one at the end of
      the text come next, all of that whitespace; or else a maximal run of letters, digits or
      other signs with the one whitespace byte in front of it. */
  lemma ChunkShape(v: Vocab, t: Bytes)
    requires t != [] && Head(v, t).Chunk?
    ensures var n := Head(v, t).len;
            if ContractionLen(t) > 0 then n == ContractionLen(t)
            else if CategoryOf(t[0]) == Space && (|t| == 1 || CategoryOf(t[1]) == Space) then
              (forall i :: 0 <= i < n ==> CategoryOf(t[i]) == Space) && (n < |t| ==> CategoryOf(t[n]) != Space)
            else exists k :: MaximalRun(t, n, k)
  {
    hide SpecialLen, ContractionLen;
    var w := Run(t, Space);
    if ContractionLen(t) == 0 {
      hide Run;
      RunFacts(t, Space);
      RunStarts(t);
      if !(w > 1 || w == |t|) {
        var k, n := CategoryOf(t[w]), Head(v, t).len;
        var rest := t[w..];
        assert n == w + Run(rest, k);
        RunFacts(rest, k);
        assert MaximalRun(t, n, k) by {
          assert rest[0] == t[w] && n - w > 0;
          assert forall i :: w <= i < n ==> t[i] == rest[i - w];
          assert n < |t| ==> t[n] == rest[n - w];
        }
      }
    }
  }

  lemma RunStarts(t: Bytes)
    requires t != []
    ensures Run(t, Space) > 1 || Run(t, Space) == |t| <==> CategoryOf(t[0]) == Space && (|t| == 1 || CategoryOf(t[1]) == Space)
  {
    if |t| > 1 { assert t[1..][0] == t[1]; }
  }

  lemma RunFacts(t: Bytes, k: Category)
    ensures Run(t, k) <= |t| && (Run(t, k) < |t| ==> CategoryOf(t[Run(t, k)]) != k)
    ensures forall i :: 0 <= i < Run(t, k) ==> CategoryOf(t[i]) == k
  {
  }

  /** The segments of a text, as byte strings. */
  function Segments(v: Vocab, t: Bytes): seq<Bytes>
    decreases |t|
  {
    if t == [] then [] else [t[..Head(v, t).len]] + Segments(v, t[Head(v, t).len..])
  }

  function Joined(ss: seq<Bytes>): Bytes {
    if ss == [] then [] else ss[0] + Joined(ss[1..])
  }

  lemma HeadProgress(v: Vocab, t: Bytes)
    requires t != []
    ensures 1 <= Head(v, t).len <= |t|
  {
  }

  lemma JoinedCons(x: Bytes, ss: seq<Bytes>)
    ensures Joined([]) == [] && Joined([x] + ss) == x + Joined(ss)
  {
    assert ([x] + ss)[1..] == ss;
  }

  lemma SegmentsStep(v: Vocab, t: Bytes)
    ensures t == [] ==> Segments(v, t) == []
    ensures t != [] ==> Segments(v, t) == [t[..Head(v, t).len]] + Segments(v, t[Head(v, t).len..])
  {
    hide Head;
  }

  /** The segments are not empty and partition the text. */
  lemma {:induction false} SegmentsPartition(v: Vocab, t: Bytes)
    ensures Joined(Segments(v, t)) == t
    ensures forall i :: 0 <= i < |Segments(v, t)| ==> Segments(v, t)[i] != []
    decreases |t|
  {
    hide *;
    SegmentsStep(v, t);
    if t == [] {
      JoinedCons([], []);
    } else {
      HeadProgress(v, t);
      var n := Head(v, t).len;
      SegmentsPartition(v, t[n..]);
      JoinedCons(t[..n], Segments(v, t[n..]));
    }
  }

  /** The length of the run of category k at pos, found by stepping pos. */
  method SkipRun(t: Bytes, pos: nat, k: Category) returns (end: nat)
    requires pos <= |t|
    ensures end == pos + Run(t[pos..], k)
  {
    end := pos;
    while end < |t| && CategoryOf(t[end]) == k
      invariant pos <= end <= |t|
      invariant forall i :: pos <= i < end ==> CategoryOf(t[i]) == k
    {
      end := end + 1;
    }
    RunIs(t[pos..], k, end - pos);
  }

  /** The part of the loop body of tokenize_bpe that finds the chunk at pos. */
  method NextChunk(v: Vocab, t: Bytes, at: nat) returns (end: nat)
    requires at < |t| && SpecialLen(v, t[at..]) == 0
    ensures at < end <= |t| && Head(v, t[at..]) == Chunk(end - at)
  {
    hide SpecialLen, Run;
    var pos := at;
    ghost var rest := t[at..];
    if t[pos] == 0x27 && pos + 1 < |t| {
      var nxt := t[pos + 1];
      var clen: nat := 0;
      if nxt == 0x73 || nxt == 0x74 || nxt == 0x6D || nxt == 0x64 {
        clen := 2;
      } else if (nxt == 0x72 || nxt == 0x76) && pos + 2 < |t| && t[pos + 2] == 0x65 {
        clen := 3;
      } else if nxt == 0x6C && pos + 2 < |t| && t[pos + 2] == 0x6C {
        clen := 3;
      }
      assert clen == ContractionLen(rest);
      if clen > 0 { return pos + clen; }
    }
    assert ContractionLen(rest) == 0;
    SpaceRun(rest);
    if CategoryOf(t[pos]) == Space {
      pos := SkipRun(t, at, Space);
      if pos - at != 1 || pos >= |t| { return pos; }
      pos := at;
    }
    if CategoryOf(t[pos]) == Space { pos := pos + 1; }
    assert rest[pos - at..] == t[pos..];
    end := SkipRun(t, pos, CategoryOf(t[pos]));
  }

  lemma SpaceRun(t: Bytes)
    requires t != []
    ensures Run(t, Space) > 0 <==> CategoryOf(t[0]) == Space
  {
  }
}
