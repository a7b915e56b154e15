/** gemma3_decode (src/model/gemma3.c) against the SentencePiece encoder: when the text
    comes back, and the one way in which it does not. */
module SpmRoundTrip {
  import opened Common
  import opened ByteMap
  import opened Vocabulary
  import opened Spm
  import Bpe
  import BpeRoundTrip

  // ------------------------------------------------------------------- the decoder

  predicate AtMark(s: Bytes) {
    |s| >= 3 && s[0] == 0xE2 && s[1] == 0x96 && s[2] == 0x81
  }

  /** U+2581 turns back into a space. */
  function Unmark(s: Bytes): (r: Bytes)
    ensures |r| <= |s| && (s != [] ==> r != [])
  {
    if s == [] then [] else if AtMark(s) then [0x20] + Unmark(s[3..]) else [s[0]] + Unmark(s[1..])
  }

  /** What gemma3_decode writes when it has room. */
  function Decoded(raw: Bytes): (r: Bytes)
    ensures raw != [] ==> r != []
  {
    if ByteTokenValue(raw) >= 0 then [ByteTokenValue(raw)] else Unmark(raw)
  }

  lemma UnmarkStep(s: Bytes, i: nat)
    requires i < |s|
    ensures AtMark(s[i..]) <==> s[i] == 0xE2 && i + 2 < |s| && s[i + 1] == 0x96 && s[i + 2] == 0x81
    ensures Unmark(s[i..]) == if AtMark(s[i..]) then [0x20] + Unmark(s[i + 3..]) else [s[i]] + Unmark(s[i + 1..])
  {
    assert s[i..][1..] == s[i + 1..];
    assert i + 2 < |s| ==> s[i..][3..] == s[i + 3..];
  }

  lemma UnmarkNothing(s: Bytes)
    ensures Unmark(s[|s|..]) == []
  {
  }

  /** The copying loop of gemma3_decode. */
  method DecodePlain(raw: Bytes, out: array<Byte>, maxLen: nat) returns (w: nat)
    requires maxLen <= out.Length
    modifies out
    ensures w == Bpe.Min(|Unmark(raw)|, maxLen) && out[..w] == Unmark(raw)[..w]
    ensures w < maxLen ==> out[w] == 0
    ensures forall k :: w < k < out.Length ==> out[k] == old(out[k])
  {
    hide Unmark;
    w := 0;
    var i := 0;
    assert raw[0..] == raw;
    while i < |raw| && w < maxLen
      invariant 0 <= i <= |raw| && w <= maxLen
      invariant Unmark(raw) == out[..w] + Unmark(raw[i..])
      invariant forall k :: w <= k < out.Length ==> out[k] == old(out[k])
      decreases |raw| - i
    {
      ghost var was, start := out[..w], i;
      UnmarkStep(raw, i);
      var c := raw[i];
      if raw[i] == 0xE2 && i + 2 < |raw| && raw[i + 1] == 0x96 && raw[i + 2] == 0x81 {
        c := 0x20;
        i := i + 3;
      } else {
        i := i + 1;
      }
      out[w] := c;
      w := w + 1;
      assert out[..w] == was + [c];
      assert Unmark(raw[start..]) == [c] + Unmark(raw[i..]);
    }
    ghost var done := out[..w];
    if i == |raw| { UnmarkNothing(raw); }
    if w < maxLen { out[w] := 0; }
    assert out[..w] == done;
  }

  /** gemma3_decode. */
  method Decode(raw: Bytes, out: array<Byte>, maxLen: nat) returns (w: nat)
    requires maxLen <= out.Length
    modifies out
    ensures w == Bpe.Min(|Decoded(raw)|, maxLen) && out[..w] == Decoded(raw)[..w]
    ensures w < maxLen ==> out[w] == 0
    ensures forall k :: w < k < out.Length ==> out[k] == old(out[k])
  {
    hide Unmark;
    if |raw| == 6 && raw[0] == 0x3C && raw[1] == 0x30 && raw[2] == 0x78 && raw[5] == 0x3E {
      var hi, lo := HexDigit(raw[3]), HexDigit(raw[4]);
      if hi >= 0 && lo >= 0 {
        w := 0;
        if w < maxLen { out[w] := hi * 16 + lo; w := w + 1; }
        if w < maxLen { out[w] := 0; }
        return;
      }
    }
    w := DecodePlain(raw, out, maxLen);
  }

  /** What gemma3_decode prints for a run of tokens, one call per token. */
  function TextOf(v: Vocab, s: seq<int>): Bytes {
    if s == [] then []
    else TextOf(v, s[..|s| - 1]) + if IsId(v, s[|s| - 1]) then Decoded(v.pieces[s[|s| - 1]]) else []
  }

  lemma {:induction false} TextAppend(v: Vocab, s: seq<int>, t: seq<int>)
    ensures TextOf(v, s + t) == TextOf(v, s) + TextOf(v, t)
  {
    hide Decoded;
    if t == [] {
      assert s + t == s;
    } else {
      TextAppend(v, s, t[..|t| - 1]);
      assert (s + t)[..|s + t| - 1] == s + t[..|t| - 1];
    }
  }

  // ---------------------------------------------------------- normalising and splitting

  lemma {:induction false} NormalizeAppend(a: Bytes, b: Bytes)
    ensures Normalize(a + b) == Normalize(a) + Normalize(b)
  {
    hide NormByte;
    if b == [] {
      assert a + b == a;
    } else {
      var n := |b| - 1;
      NormalizeAppend(a, b[..n]);
      assert (a + b)[..|a| + n] == a + b[..n] && (a + b)[|a| + n] == b[n];
      assert Normalize(a + b) == (Normalize(a) + Normalize(b[..n])) + NormByte(b[n]);
    }
  }

  /** Every space becomes the UTF-8 form of U+2581, and nothing else changes. */
  lemma NormalizeSpaces(a: Bytes, c: Byte, b: Bytes)
    ensures Normalize(a + [c] + b) == Normalize(a) + (if c == 0x20 then Utf8(0x2581) else [c]) + Normalize(b)
  {
    NormalizeOne(c);
    hide Normalize, Utf8;
    NormalizeAppend(a + [c], b);
    NormalizeAppend(a, [c]);
  }

  lemma NormalizeOne(c: Byte)
    ensures Normalize([c]) == if c == 0x20 then Utf8(0x2581) else [c]
  {
    assert [c][..0] == [];
  }

  lemma NormalizeFront(u: Bytes)
    requires u != []
    ensures Normalize(u) == NormByte(u[0]) + Normalize(u[1..])
  {
    assert u == [u[0]] + u[1..];
    NormalizeAppend([u[0]], u[1..]);
    NormalizeStep([], u[0]);
    assert [] + [u[0]] == [u[0]];
  }

  predicate Spaceless(u: Bytes) {
    forall i :: 0 <= i < |u| ==> u[i] != 0x20
  }

  lemma {:induction false} NormalizeSpaceless(u: Bytes)
    requires Spaceless(u)
    ensures Normalize(u) == u
  {
    if u != [] { NormalizeSpaceless(u[..|u| - 1]); }
  }

  /** The text holds no U+2581. */
  predicate NoMark(u: Bytes) {
    forall i :: 0 <= i < |u| - 2 ==> !(u[i] == 0xE2 && u[i + 1] == 0x96 && u[i + 2] == 0x81)
  }

  /** Decoding undoes normalising: no marker appears that was not a space. */
  lemma {:induction false} UnmarkNormalize(u: Bytes)
    requires NoMark(u)
    ensures Unmark(Normalize(u)) == u
  {
    hide Normalize;
    if u == [] {
      NothingThere();
    } else {
      var rest, s := u[1..], Normalize(u);
      assert NoMark(rest) by { assert forall i :: 0 <= i < |rest| ==> rest[i] == u[i + 1]; }
      UnmarkNormalize(rest);
      NormalizeFront(u);
      if u[0] == 0x20 {
        assert s[3..] == Normalize(rest);
      } else {
        assert s[1..] == Normalize(rest);
        if AtMark(s) {
          NormalizeFront(rest);
          assert rest[0] == 0x96;
          if rest[1..] == [] { NothingThere(); } else { NormalizeFront(rest[1..]); }
        }
      }
    }
  }

  /** Every character is complete and holds no space but a space alone. */
  predicate WellSplit(t: Bytes)
    decreases |t|
  {
    t == [] || (CharLen(t[0]) <= |t| && Spaceless(t[1..CharLen(t[0])]) && WellSplit(t[CharLen(t[0])..]))
  }

  function Normed(us: seq<Bytes>): (ps: seq<Bytes>)
    ensures |ps| == |us|
  {
    seq(|us|, i requires 0 <= i < |us| => Normalize(us[i]))
  }

  /** A single character: a space alone, or no space at all. */
  predicate Simple(u: Bytes) {
    u != [] && (u == [0x20] || Spaceless(u))
  }

  /** Spaces become characters of their own, and all other characters stay. */
  lemma {:induction false} SplitNormalize(t: Bytes)
    requires WellSplit(t)
    ensures Split(Normalize(t)) == Normed(Split(t)) && Concat(Split(t)) == t
    ensures forall u :: u in Split(t) ==> Simple(u)
    decreases |t|
  {
    hide Normalize, NormByte, CharLen, Concat;
    if t != [] {
      var n := CharLen(t[0]);
      CharLenRange(t[0]);
      var u, rest := t[..n], t[n..];
      SplitNormalize(rest);
      assert Split(t) == [u] + Split(rest);
      assert t == u + rest;
      NormalizeAppend(u, rest);
      ConcatAppend([u], Split(rest));
      ConcatOne(u);
      FirstChar(t, n);
      var s := Normalize(t);
      assert s[..|Normalize(u)|] == Normalize(u) && s[|Normalize(u)|..] == Normalize(rest);
      assert Split(s) == [Normalize(u)] + Split(Normalize(rest));
      assert Normed([u] + Split(rest)) == [Normalize(u)] + Normed(Split(rest));
    } else {
      NothingThere();
    }
  }

  lemma CharLenRange(c: Byte)
    ensures 1 <= CharLen(c) <= 4
  {
  }

  lemma NothingThere()
    ensures Normalize([]) == [] && Concat([]) == []
  {
  }

  lemma FirstChar(t: Bytes, n: nat)
    requires t != [] && n == CharLen(t[0]) && n <= |t| && Spaceless(t[1..n])
    ensures Simple(t[..n]) && Normalize(t) != [] && FirstLen(Normalize(t)) == |Normalize(t[..n])|
  {
    var u, rest := t[..n], t[n..];
    assert t == u + rest;
    NormalizeAppend(u, rest);
    SimpleChar(t, n);
    if t[0] == 0x20 {
      NormalizeSpace();
    } else {
      NormalizeSpaceless(u);
    }
    hide Normalize, NormByte, Simple;
    assert Normalize(t)[0] == Normalize(u)[0];
  }

  lemma SimpleChar(t: Bytes, n: nat)
    requires t != [] && n == CharLen(t[0]) && n <= |t| && Spaceless(t[1..n])
    ensures Simple(t[..n]) && if t[0] == 0x20 then t[..n] == [0x20] else Spaceless(t[..n])
  {
    if t[0] != 0x20 { assert forall i :: 1 <= i < n ==> t[..n][i] == t[1..n][i - 1]; }
  }

  lemma NormalizeSpace()
    ensures Normalize([0x20]) == MARK
  {
    NormalizeStep([], 0x20);
    var space: Bytes := [0x20];
    assert [] + space == space;
  }

  // ------------------------------------------------------------------------- merging

  /** Some stretch holds a whole U+2581. */
  ghost predicate Marked(us: seq<Bytes>) {
    exists i :: 0 <= i < |us| && !NoMark(us[i])
  }

  lemma MarkedJoin(us: seq<Bytes>, i: nat)
    requires i + 1 < |us|
    ensures Marked(us) ==> Marked(JoinAt(us, i))
  {
    hide NoMark;
    if Marked(us) {
      var k :| 0 <= k < |us| && !NoMark(us[k]);
      var next := JoinAt(us, i);
      var j := if k <= i then k else k - 1;
      if k == i || k == i + 1 {
        if NoMark(us[i] + us[i + 1]) { NoMarkParts(us[i], us[i + 1]); }
        assert next[i] == us[i] + us[i + 1];
      }
      assert !NoMark(next[j]);
    }
  }

  /** The merge loop never splits a character: what it leaves is the normal form of
      stretches of the text, each one character or a known piece. */
  lemma {:induction false} JoinAllNormed(v: Vocab, scores: seq<real>, us: seq<Bytes>) returns (us': seq<Bytes>)
    requires Scored(v, scores)
    requires forall u :: u in us ==> u != [] && (Simple(u) || Normalize(u) in v.ids)
    ensures JoinAll(v, scores, Normed(us)) == Normed(us') && Concat(us') == Concat(us)
    ensures forall u :: u in us' ==> u != [] && (Simple(u) || Normalize(u) in v.ids)
    ensures Marked(us) ==> Marked(us')
    ensures forall u :: u in us' ==> u in us || Normalize(u) in v.ids
    decreases |us|
  {
    hide Normalize, Simple, Concat, Marked;
    var ps := Normed(us);
    if i: nat :| Best(v, scores, ps, i) {
      JoinAllStep(v, scores, ps, i);
      var next := JoinAt(us, i);
      NormalizeAppend(us[i], us[i + 1]);
      assert Normed(next) == JoinAt(ps, i);
      ConcatJoin(us, i);
      assert forall u :: u in next ==> u in us || u == us[i] + us[i + 1];
      MarkedJoin(us, i);
      us' := JoinAllNormed(v, scores, next);
    } else {
      JoinAllEnds(v, scores, ps);
      us' := us;
    }
  }

  // ------------------------------------------------------------------------ decoding

  /** The piece comes back: a known piece that does not look like a byte token, or an
      unknown one whose bytes all have tokens. */
  predicate Fine(v: Vocab, p: Bytes)
    requires Sound(v)
  {
    if p in v.ids then ByteTokenValue(p) < 0 else BpeRoundTrip.AllKnown(v, p)
  }

  /** Every token names a piece that is not empty. */
  predicate Named(v: Vocab, s: seq<int>) {
    forall i :: 0 <= i < |s| ==> IsId(v, s[i]) && v.pieces[s[i]] != []
  }

  lemma ByteTokenText(v: Vocab, b: Byte)
    requires ByteFallback(v) && v.bytes[b] >= 0
    ensures Named(v, [v.bytes[b]]) && TextOf(v, [v.bytes[b]]) == [b]
  {
    TextOfOne(v, v.bytes[b]);
    ByteFormLength(v.pieces[v.bytes[b]]);
  }

  lemma {:induction false} BytesText(v: Vocab, p: Bytes)
    requires ByteFallback(v)
    ensures TextOf(v, Bpe.ByteIds(v, p)) == BpeRoundTrip.Known(v, p)
    ensures Named(v, Bpe.ByteIds(v, p))
  {
    hide ByteTokenValue, TextOf;
    if p == [] {
      NoText(v);
    } else {
      var q, b := p[..|p| - 1], p[|p| - 1];
      BytesText(v, q);
      if v.bytes[b] >= 0 {
        TextAppend(v, Bpe.ByteIds(v, q), [v.bytes[b]]);
        ByteTokenText(v, b);
      } else {
        assert Bpe.ByteIds(v, p) == Bpe.ByteIds(v, q) && BpeRoundTrip.Known(v, p) == BpeRoundTrip.Known(v, q);
      }
    }
  }

  lemma ByteFormLength(p: Bytes)
    requires ByteTokenValue(p) >= 0
    ensures |p| == 6 && Decoded(p) == [ByteTokenValue(p)]
  {
  }

  /** One stretch of text decodes to itself exactly when its piece is fine, and to less
      otherwise. */
  lemma PieceText(v: Vocab, u: Bytes)
    requires ByteFallback(v) && MARK in v.ids && NoMark(u) && u != []
    requires Simple(u) || Normalize(u) in v.ids
    ensures var p, s := Normalize(u), PieceTokens(v, Normalize(u));
            && Named(v, s) && |TextOf(v, s)| <= |u|
            && (Fine(v, p) ==> TextOf(v, s) == u)
            && (|TextOf(v, s)| == |u| ==> Fine(v, p))
  {
    var p := Normalize(u);
    UnmarkNormalize(u);
    if p in v.ids {
      assert v.pieces[v.ids[p]] == p;
      assert TextOf(v, [v.ids[p]]) == Decoded(p) by { TextOfOne(v, v.ids[p]); }
      if ByteTokenValue(p) >= 0 { ByteFormLength(p); }
    } else {
      if u == [0x20] { NormalizeSpace(); }
      NormalizeSpaceless(u);
      BytesText(v, p);
      BpeRoundTrip.KnownAll(v, p);
    }
  }

  lemma TextOfOne(v: Vocab, a: int)
    requires IsId(v, a)
    ensures TextOf(v, [a]) == Decoded(v.pieces[a])
  {
  }

  lemma {:induction false} EmittedText(v: Vocab, us: seq<Bytes>)
    requires ByteFallback(v) && MARK in v.ids && NoMark(Concat(us))
    requires forall u :: u in us ==> u != [] && (Simple(u) || Normalize(u) in v.ids)
    ensures var s := Emitted(v, Normed(us));
            && Named(v, s) && |TextOf(v, s)| <= |Concat(us)|
            && ((forall p :: p in Normed(us) ==> Fine(v, p)) ==> TextOf(v, s) == Concat(us))
            && (|TextOf(v, s)| == |Concat(us)| ==> forall p :: p in Normed(us) ==> Fine(v, p))
  {
    hide TextOf, Normalize, PieceTokens, Simple, Fine, NoMark, ByteFallback;
    if us == [] {
      NoText(v);
    } else {
      var n := |us| - 1;
      var front, u := us[..n], us[n];
      NoMarkParts(Concat(front), u);
      assert forall x :: x in front ==> x in us;
      EmittedText(v, front);
      FallbackSound(v);
      assert u in us;
      PieceText(v, u);
      assert Normed(us) == Normed(front) + [Normalize(u)];
      TextAppend(v, Emitted(v, Normed(front)), PieceTokens(v, Normalize(u)));
      assert forall p :: p in Normed(us) <==> p in Normed(front) || p == Normalize(u);
    }
  }

  lemma FallbackSound(v: Vocab)
    requires ByteFallback(v)
    ensures Sound(v)
  {
  }

  lemma NoText(v: Vocab)
    ensures TextOf(v, []) == []
  {
  }

  lemma NoMarkParts(a: Bytes, b: Bytes)
    requires NoMark(a + b)
    ensures NoMark(a) && NoMark(b)
  {
    assert forall i :: 0 <= i < |a| ==> (a + b)[i] == a[i];
    assert forall i :: 0 <= i < |b| ==> b[i] == (a + b)[|a| + i];
  }

  // -------------------------------------------------------------------- the round trip

  lemma {:induction false} TokensText(v: Vocab, s: seq<int>, n: nat)
    requires n <= |s| && Named(v, s)
    ensures |TextOf(v, s)| >= |TextOf(v, s[..n])| + |s| - n
    decreases |s|
  {
    if n < |s| {
      TokensText(v, s[..|s| - 1], n);
      assert s[..|s| - 1][..n] == s[..n];
      DecodedSome(v.pieces[s[|s| - 1]]);
    } else {
      assert s[..n] == s;
    }
  }

  lemma DecodedSome(p: Bytes)
    requires p != []
    ensures Decoded(p) != []
  {
  }

  /** The tokens that tokenize_spm returns decode to the text, with the space in front when
      one was asked for, exactly when every piece the merge loop leaves is fine and the
      tokens fit. */
  lemma RoundTripIff(v: Vocab, scores: seq<real>, t: Bytes, prefix: bool, maxTokens: nat)
    requires ByteFallback(v) && Scored(v, scores) && MARK in v.ids
    requires WellSplit(t) && NoMark(t)
    ensures var all := Tokens(v, scores, t, prefix);
            TextOf(v, all[..Bpe.Min(|all|, maxTokens)]) == (if prefix then [0x20] + t else t) <==>
              |all| <= maxTokens &&
              forall p :: p in JoinAll(v, scores, Split(Normalize(Prefixed(t, prefix)))) ==> Fine(v, p)
  {
    hide TextOf, Normalize, WellSplit, NoMark, Simple, Fine, Concat;
    var t' := Prefixed(t, prefix);
    PrefixedOk(t, prefix);
    SplitNormalize(t');
    NoneEmpty(Split(t'));
    var us := JoinAllNormed(v, scores, Split(t'));
    EmittedText(v, us);
    var all := Tokens(v, scores, t, prefix);
    assert all == Emitted(v, Normed(us));
    var n := Bpe.Min(|all|, maxTokens);
    TokensText(v, all, n);
    if n == |all| { assert all[..n] == all; }
  }

  lemma NoneEmpty(us: seq<Bytes>)
    ensures forall u :: u in us && Simple(u) ==> u != []
  {
  }

  lemma PrefixedOk(t: Bytes, prefix: bool)
    requires WellSplit(t) && NoMark(t)
    ensures WellSplit(Prefixed(t, prefix)) && NoMark(Prefixed(t, prefix))
  {
    if prefix {
      var t' := [0x20] + t;
      assert t'[1..] == t && t'[1..1] == [];
      assert forall i :: 1 <= i < |t'| ==> t'[i] == t[i - 1];
    }
  }

  // ------------------------------------------------------------------------ valid UTF-8

  predicate Tail(c: Byte) {
    0x80 <= c <= 0xBF
  }

  /** The length of the UTF-8 sequence that opens t, by section 4 of RFC 3629, or 0. */
  function SequenceLen(t: Bytes): (n: nat)
    ensures n <= |t|
  {
    if t == [] then 0
    else if t[0] <= 0x7F then 1
    else if |t| >= 2 && 0xC2 <= t[0] <= 0xDF && Tail(t[1]) then 2
    else if |t| >= 3 && Tail(t[2]) && (
      || (t[0] == 0xE0 && 0xA0 <= t[1] <= 0xBF)
      || (0xE1 <= t[0] <= 0xEC && Tail(t[1]))
      || (t[0] == 0xED && 0x80 <= t[1] <= 0x9F)
      || (0xEE <= t[0] <= 0xEF && Tail(t[1]))) then 3
    else if |t| >= 4 && Tail(t[2]) && Tail(t[3]) && (
      || (t[0] == 0xF0 && 0x90 <= t[1] <= 0xBF)
      || (0xF1 <= t[0] <= 0xF3 && Tail(t[1]))
      || (t[0] == 0xF4 && 0x80 <= t[1] <= 0x8F)) then 4
    else 0
  }

  predicate ValidUtf8(t: Bytes)
    decreases |t|
  {
    t == [] || (SequenceLen(t) > 0 && ValidUtf8(t[SequenceLen(t)..]))
  }

  lemma {:induction false} Utf8WellSplit(t: Bytes)
    requires ValidUtf8(t)
    ensures WellSplit(t)
    decreases |t|
  {
    if t != [] {
      var n := SequenceLen(t);
      Utf8WellSplit(t[n..]);
      SequenceIsChar(t);
    }
  }

  lemma SequenceIsChar(t: Bytes)
    requires t != [] && SequenceLen(t) > 0
    ensures CharLen(t[0]) == SequenceLen(t) && Spaceless(t[1..SequenceLen(t)])
  {
  }

  /** For valid UTF-8 without U+2581, with "<0xHH>" tokens for all bytes, U+2581 as a piece
      and enough room, the text comes back exactly when the merge loop leaves no piece
      that is itself spelt "<0xHH>". */
  lemma RoundTripUtf8(v: Vocab, scores: seq<real>, t: Bytes, prefix: bool, maxTokens: nat)
    requires ByteFallback(v) && Scored(v, scores) && MARK in v.ids && (forall b: Byte :: v.bytes[b] >= 0)
    requires ValidUtf8(t) && NoMark(t) && |Tokens(v, scores, t, prefix)| <= maxTokens
    ensures TextOf(v, Tokens(v, scores, t, prefix)) == (if prefix then [0x20] + t else t) <==>
              forall p :: p in JoinAll(v, scores, Split(Normalize(Prefixed(t, prefix)))) ==> ByteTokenValue(p) < 0
  {
    hide TextOf, Normalize, NoMark, ByteTokenValue, WellSplit, Split;
    Utf8WellSplit(t);
    RoundTripIff(v, scores, t, prefix, maxTokens);
    var all := Tokens(v, scores, t, prefix);
    assert all[..|all|] == all;
    var ps := JoinAll(v, scores, Split(Normalize(Prefixed(t, prefix))));
    JoinAllFacts(v, scores, Split(Normalize(Prefixed(t, prefix))));
    forall p | p in ps ensures Fine(v, p) <==> ByteTokenValue(p) < 0 {
      if p !in v.ids {
        SplitShort(Normalize(Prefixed(t, prefix)));
        ByteFormLong(p);
      }
    }
  }

  lemma ByteFormLong(p: Bytes)
    requires |p| <= 4
    ensures ByteTokenValue(p) < 0
  {
  }

  lemma {:induction false} SplitShort(s: Bytes)
    ensures forall u :: u in Split(s) ==> |u| <= 4
    decreases |s|
  {
    if s != [] { SplitShort(s[FirstLen(s)..]); }
  }

  /** Six bytes at i look like a byte token. */
  predicate ByteFormAt(t: Bytes, i: nat) {
    i + 6 <= |t| && ByteTokenValue(t[i..i + 6]) >= 0
  }

  /** A text in which no six bytes in a row look like a byte token always comes back. */
  lemma RoundTrip(v: Vocab, scores: seq<real>, t: Bytes, prefix: bool, maxTokens: nat)
    requires ByteFallback(v) && Scored(v, scores) && MARK in v.ids && (forall b: Byte :: v.bytes[b] >= 0)
    requires ValidUtf8(t) && NoMark(t) && |Tokens(v, scores, t, prefix)| <= maxTokens
    requires forall i :: !ByteFormAt(t, i)
    ensures TextOf(v, Tokens(v, scores, t, prefix)) == if prefix then [0x20] + t else t
  {
    hide TextOf, Normalize, NoMark, ByteTokenValue, WellSplit, Split, Simple, Concat, Tokens, ByteFormAt, JoinAll;
    RoundTripUtf8(v, scores, t, prefix, maxTokens);
    Utf8WellSplit(t);
    PrefixedOk(t, prefix);
    var t' := Prefixed(t, prefix);
    SplitNormalize(t');
    NoneEmpty(Split(t'));
    var us := JoinAllNormed(v, scores, Split(t'));
    forall p | p in Normed(us) ensures ByteTokenValue(p) < 0 {
      var i :| 0 <= i < |us| && Normalize(us[i]) == p;
      PartOf(us, i);
      if ByteTokenValue(p) >= 0 {
        var k := ByteFormInText(us[i], t, prefix, Concat(us[..i]));
        assert false;
      }
    }
  }

  /** us[i] is a stretch of the whole. */
  lemma PartOf(us: seq<Bytes>, i: nat)
    requires i < |us|
    ensures |Concat(us[..i])| + |us[i]| <= |Concat(us)|
    ensures Concat(us)[|Concat(us[..i])|..|Concat(us[..i])| + |us[i]|] == us[i]
  {
    hide Concat;
    assert us == (us[..i] + [us[i]]) + us[i + 1..];
    ConcatAppend(us[..i] + [us[i]], us[i + 1..]);
    ConcatAppend(us[..i], [us[i]]);
    ConcatOne(us[i]);
  }

  lemma ByteFormInText(u: Bytes, t: Bytes, prefix: bool, before: Bytes) returns (i: nat)
    requires ByteTokenValue(Normalize(u)) >= 0
    requires var t' := Prefixed(t, prefix); |before| + |u| <= |t'| && t'[|before|..|before| + |u|] == u
    ensures ByteFormAt(t, i)
  {
    hide Normalize, ByteTokenValue;
    ByteFormPlain(u);
    var t' := Prefixed(t, prefix);
    assert t'[|before|] == u[0] == 0x3C;
    assert prefix ==> t'[0] == 0x20;
    i := if prefix then |before| - 1 else |before|;
    assert t[i..i + 6] == u;
  }

  /** A normal form that looks like a byte token comes from the same six bytes. */
  lemma ByteFormPlain(u: Bytes)
    requires ByteTokenValue(Normalize(u)) >= 0
    ensures Normalize(u) == u && |u| == 6 && u[0] == 0x3C
  {
    hide Normalize, ByteTokenValue;
    NormalizeNoMark(u);
    ByteFormAscii(Normalize(u));
    NormalizeSpaceless(u);
  }

  lemma ByteFormAscii(p: Bytes)
    requires ByteTokenValue(p) >= 0
    ensures |p| == 6 && p[0] == 0x3C && 0xE2 !in p
  {
  }

  lemma {:induction false} NormalizeNoMark(u: Bytes)
    ensures 0xE2 !in Normalize(u) ==> Spaceless(u)
  {
    if u != [] { NormalizeNoMark(u[..|u| - 1]); }
  }

  // ----------------------------------------------------------- text with U+2581

  /** Decoding a normal form never lengthens it, and shortens it where the text has U+2581. */
  lemma {:induction false} UnmarkShorter(u: Bytes)
    ensures |Unmark(Normalize(u))| <= |u| && (!NoMark(u) ==> |Unmark(Normalize(u))| < |u|)
    decreases |u|
  {
    hide Normalize, Unmark;
    if u == [] {
      NothingThere();
      UnmarkNothing([]);
    } else {
      var rest, s := u[1..], Normalize(u);
      assert forall i :: 0 <= i < |rest| ==> rest[i] == u[i + 1];
      UnmarkShorter(rest);
      NormalizeFront(u);
      UnmarkStep(s, 0);
      assert s[0..] == s;
      if u[0] == 0x20 {
        assert s[3..] == Normalize(rest);
      } else {
        assert s[1..] == Normalize(rest);
        MarkFront(u);
        if AtMark(s) { UnmarkShorter(u[3..]); }
      }
    }
  }

  /** A normal form opens with the marker when the text does. */
  lemma MarkFront(u: Bytes)
    requires u != [] && u[0] != 0x20
    ensures AtMark(Normalize(u)) <==> AtMark(u)
    ensures AtMark(u) ==> Normalize(u)[3..] == Normalize(u[3..])
  {
    hide Normalize;
    NormalizeFront(u);
    NothingThere();
    if |u| >= 2 {
      NormalizeFront(u[1..]);
      if |u| >= 3 {
        assert u[1..][1..] == u[2..];
        NormalizeFront(u[2..]);
        assert u[2..][1..] == u[3..];
      } else {
        assert u[1..][1..] == [];
      }
    }
  }

  /** What a stretch decodes to is no longer than the stretch, and shorter if it holds U+2581. */
  lemma PieceShorter(v: Vocab, u: Bytes)
    requires ByteFallback(v) && MARK in v.ids && u != [] && ((Simple(u) && NoMark(u)) || Normalize(u) in v.ids)
    ensures var s := PieceTokens(v, Normalize(u));
            && Named(v, s) && |TextOf(v, s)| <= |u| && (!NoMark(u) ==> |TextOf(v, s)| < |u|)
  {
    hide NoMark, ByteTokenValue, Unmark;
    var p := Normalize(u);
    if p in v.ids {
      TextOfOne(v, v.ids[p]);
      UnmarkShorter(u);
      if ByteTokenValue(p) >= 0 {
        ByteFormLength(p);
        ByteFormPlain(u);
      }
      NormalizeSome(u);
    } else {
      if u == [0x20] { NormalizeSpace(); }
      NormalizeSpaceless(u);
      BytesText(v, p);
      BpeRoundTrip.KnownAll(v, p);
    }
  }

  lemma NormalizeSome(u: Bytes)
    requires u != []
    ensures Normalize(u) != []
  {
  }
  /** Each stretch is a character that the vocabulary spells by its bytes, or a known piece. */
  ghost predicate Stretches(v: Vocab, us: seq<Bytes>) {
    forall u :: u in us ==> u != [] && ((Simple(u) && NoMark(u)) || Normalize(u) in v.ids)
  }

  lemma {:induction false} EmittedShorter(v: Vocab, us: seq<Bytes>)
    requires ByteFallback(v) && MARK in v.ids && Stretches(v, us)
    ensures var s := Emitted(v, Normed(us));
            Named(v, s) && |TextOf(v, s)| <= |Concat(us)| && (Marked(us) ==> |TextOf(v, s)| < |Concat(us)|)
  {
    hide TextOf, Normalize, PieceTokens, Simple, NoMark, ByteFallback, MARK;
    FallbackSound(v);
    if us == [] {
      NoText(v);
    } else {
      var n := |us| - 1;
      var front, u := us[..n], us[n];
      assert forall x :: x in front ==> x in us;
      EmittedShorter(v, front);
      assert u in us;
      PieceShorter(v, u);
      assert Normed(us) == Normed(front) + [Normalize(u)];
      TextAppend(v, Emitted(v, Normed(front)), PieceTokens(v, Normalize(u)));
      assert Marked(us) ==> Marked(front) || !NoMark(u);
    }
  }

  /** The first character of valid UTF-8 is U+2581, or no U+2581 reaches into it. */
  lemma MarkIsAChar(t: Bytes)
    requires t != [] && SequenceLen(t) > 0
    ensures var n := SequenceLen(t); var u := t[..n];
            && FirstLen(t) == n && (NoMark(u) || u == MARK)
            && (!NoMark(t) ==> u == MARK || !NoMark(t[n..]))
  {
    var n := SequenceLen(t);
    SequenceIsChar(t);
    assert forall i :: 1 <= i < n ==> t[i] != 0xE2;
    if !NoMark(t) {
      var i :| 0 <= i < |t| - 2 && t[i] == 0xE2 && t[i + 1] == 0x96 && t[i + 2] == 0x81;
      if i >= n { assert t[n..][i - n] == 0xE2 && t[n..][i - n + 1] == 0x96 && t[n..][i - n + 2] == 0x81; }
    }
  }

  lemma {:induction false} MarkInSplit(t: Bytes)
    requires ValidUtf8(t)
    ensures !NoMark(t) ==> Marked(Split(t))
    ensures forall u :: u in Split(t) ==> NoMark(u) || u == MARK
    decreases |t|
  {
    hide NoMark;
    if t == [] {
      EmptyNoMark();
    } else {
      var n := SequenceLen(t);
      MarkIsAChar(t);
      MarkInSplit(t[n..]);
      assert Split(t) == [t[..n]] + Split(t[n..]);
      MarkHasMark();
      if !NoMark(t) {
        if t[..n] == MARK {
          assert Split(t)[0] == MARK;
        } else {
          var k :| 0 <= k < |Split(t[n..])| && !NoMark(Split(t[n..])[k]);
          assert Split(t)[k + 1] == Split(t[n..])[k];
        }
      }
    }
  }

  lemma EmptyNoMark()
    ensures NoMark([])
  {
  }

  lemma MarkHasMark()
    ensures !NoMark(MARK) && Normalize(MARK) == MARK
  {
    assert MARK[0] == 0xE2 && MARK[1] == 0x96 && MARK[2] == 0x81;
    NormalizeSpaceless(MARK);
  }

  lemma PrefixedValid(t: Bytes, prefix: bool)
    requires ValidUtf8(t)
    ensures ValidUtf8(Prefixed(t, prefix)) && (!NoMark(t) ==> !NoMark(Prefixed(t, prefix)))
  {
    if prefix {
      var t' := [0x20] + t;
      assert t'[1..] == t && SequenceLen(t') == 1;
      if !NoMark(t) {
        var i :| 0 <= i < |t| - 2 && t[i] == 0xE2 && t[i + 1] == 0x96 && t[i + 2] == 0x81;
        assert t'[i + 1] == 0xE2 && t'[i + 2] == 0x96 && t'[i + 3] == 0x81;
      }
    }
  }

  lemma StretchesOf(v: Vocab, us: seq<Bytes>, us': seq<Bytes>)
    requires MARK in v.ids && forall u :: u in us ==> NoMark(u) || u == MARK
    requires forall u :: u in us' ==> u in us || Normalize(u) in v.ids
    requires forall u :: u in us' ==> u != [] && (Simple(u) || Normalize(u) in v.ids)
    ensures Stretches(v, us')
  {
    hide NoMark, Simple, Normalize;
    MarkHasMark();
  }

  /** Valid UTF-8 with a U+2581 never comes back: what the tokens decode to is shorter. */
  lemma MarkLost(v: Vocab, scores: seq<real>, t: Bytes, prefix: bool, maxTokens: nat)
    requires ByteFallback(v) && Scored(v, scores) && MARK in v.ids && ValidUtf8(t) && !NoMark(t)
    ensures var all := Tokens(v, scores, t, prefix);
            |TextOf(v, all[..Bpe.Min(|all|, maxTokens)])| < |t| + if prefix then 1 else 0
  {
    hide TextOf, Normalize, WellSplit, NoMark, Simple, Concat, Marked, ValidUtf8, ByteFallback, Stretches, MARK;
    var t' := Prefixed(t, prefix);
    PrefixedValid(t, prefix);
    Utf8WellSplit(t');
    SplitNormalize(t');
    NoneEmpty(Split(t'));
    MarkInSplit(t');
    var us := JoinAllNormed(v, scores, Split(t'));
    StretchesOf(v, Split(t'), us);
    EmittedShorter(v, us);
    var all := Tokens(v, scores, t, prefix);
    assert all == Emitted(v, Normed(us));
    TokensText(v, all, Bpe.Min(|all|, maxTokens));
  }

  /** The exact condition for valid UTF-8. */
  lemma RoundTripExactly(v: Vocab, scores: seq<real>, t: Bytes, prefix: bool, maxTokens: nat)
    requires ByteFallback(v) && Scored(v, scores) && MARK in v.ids && ValidUtf8(t)
    ensures var all := Tokens(v, scores, t, prefix);
            TextOf(v, all[..Bpe.Min(|all|, maxTokens)]) == (if prefix then [0x20] + t else t) <==>
              NoMark(t) && |all| <= maxTokens &&
              forall p :: p in JoinAll(v, scores, Split(Normalize(Prefixed(t, prefix)))) ==> Fine(v, p)
  {
    hide TextOf, Normalize, WellSplit, NoMark, Fine, ValidUtf8;
    if NoMark(t) {
      Utf8WellSplit(t);
      RoundTripIff(v, scores, t, prefix, maxTokens);
    } else {
      MarkLost(v, scores, t, prefix, maxTokens);
    }
  }

  // -------------------------------------------------------------- a text that is lost

  function Singles(t: Bytes): seq<Bytes> {
    seq(|t|, i requires 0 <= i < |t| => [t[i]])
  }

  /** The first k bytes as one piece, the others one by one. */
  function Ladder(t: Bytes, k: nat): seq<Bytes>
    requires 1 <= k <= |t|
  {
    [t[..k]] + Singles(t[k..])
  }

  /** Only the beginnings of t are known among the stretches of t longer than a byte. */
  ghost predicate OnlyBeginnings(v: Vocab, t: Bytes) {
    forall i, j :: 0 <= i && i + 2 <= j <= |t| ==> (t[i..j] in v.ids <==> i == 0)
  }

  /** Then the merge loop climbs from byte to byte up to t itself. */
  lemma {:induction false} LadderJoins(v: Vocab, scores: seq<real>, t: Bytes, k: nat)
    requires Scored(v, scores) && OnlyBeginnings(v, t) && 1 <= k <= |t| <= MAX_KEY
    ensures JoinAll(v, scores, Ladder(t, k)) == [t]
    decreases |t| - k
  {
    hide JoinAll, Best;
    var ps := Ladder(t, k);
    if k < |t| {
      LadderStep(t, k);
      LadderBest(v, scores, t, k);
      JoinAllStep(v, scores, ps, 0);
      LadderJoins(v, scores, t, k + 1);
    } else {
      assert t[..k] == t && ps == [t];
      OneEnds(v, scores, t);
    }
  }

  lemma OneEnds(v: Vocab, scores: seq<real>, t: Bytes)
    requires Scored(v, scores)
    ensures JoinAll(v, scores, [t]) == [t]
  {
    JoinAllEnds(v, scores, [t]);
  }

  lemma LadderStep(t: Bytes, k: nat)
    requires 1 <= k < |t|
    ensures var ps := Ladder(t, k);
            && |ps| == |t| - k + 1 && ps[0] + ps[1] == t[0..k + 1] && JoinAt(ps, 0) == Ladder(t, k + 1)
            && forall i :: 1 <= i < |ps| - 1 ==> ps[i] + ps[i + 1] == t[k + i - 1..k + i + 1]
  {
    var ps := Ladder(t, k);
    forall i | 1 <= i < |ps| - 1 ensures ps[i] + ps[i + 1] == t[k + i - 1..k + i + 1] {
      assert ps[i] == [t[k + i - 1]] && ps[i + 1] == [t[k + i]];
    }
    assert ps[0] + ps[1] == t[0..k + 1];
    assert ps[2..] == Singles(t[k + 1..]);
  }

  lemma LadderBest(v: Vocab, scores: seq<real>, t: Bytes, k: nat)
    requires Scored(v, scores) && OnlyBeginnings(v, t) && 1 <= k < |t| <= MAX_KEY
    ensures Best(v, scores, Ladder(t, k), 0)
  {
    LadderStep(t, k);
    hide Ladder;
    var ps := Ladder(t, k);
    forall i | 1 <= i < |ps| - 1 ensures !CanJoin(v, ps, i) {
      assert ps[i] + ps[i + 1] == t[k + i - 1..k + i + 1];
    }
    assert CanJoin(v, ps, 0);
  }

  lemma {:induction false} SplitAscii(t: Bytes)
    requires forall i :: 0 <= i < |t| ==> t[i] < 0x80
    ensures Split(t) == Singles(t)
    decreases |t|
  {
    if t != [] {
      SplitAscii(t[1..]);
      assert FirstLen(t) == 1 && t[..1] == [t[0]];
      assert Singles(t) == [[t[0]]] + Singles(t[1..]);
    }
  }

  const BYTE_FORM: Bytes := [0x3C, 0x30, 0x78, 0x34, 0x31, 0x3E]

  /** The six characters "<0x41>" do not come back when the vocabulary knows them and their
      beginnings as pieces: the one token they become is printed as the letter A. */
  lemma ByteFormLost(v: Vocab, scores: seq<real>)
    requires ByteFallback(v) && Scored(v, scores) && OnlyBeginnings(v, BYTE_FORM)
    ensures TextOf(v, Tokens(v, scores, BYTE_FORM, false)) == [0x41]
  {
    var t := BYTE_FORM;
    assert t[0..6] == t && t in v.ids;
    ByteFormAlone(v, scores);
    hide Split, ByteTokenValue;
    TextOfOne(v, v.ids[t]);
    ByteFormOfA();
    ByteFormLength(t);
  }

  lemma ByteFormAlone(v: Vocab, scores: seq<real>)
    requires Scored(v, scores) && OnlyBeginnings(v, BYTE_FORM) && BYTE_FORM in v.ids
    ensures Tokens(v, scores, BYTE_FORM, false) == [v.ids[BYTE_FORM]]
  {
    hide Normalize, Split, JoinAll;
    NormalizeSpaceless(BYTE_FORM);
    SplitAscii(BYTE_FORM);
    SinglesLadder(BYTE_FORM);
    LadderJoins(v, scores, BYTE_FORM, 1);
    EmittedOne(v, BYTE_FORM);
  }

  lemma SinglesLadder(t: Bytes)
    requires t != []
    ensures Singles(t) == Ladder(t, 1)
  {
    assert t[..1] == [t[0]];
    assert forall i :: 0 <= i < |t| - 1 ==> t[1..][i] == t[i + 1];
  }

  lemma EmittedOne(v: Vocab, p: Bytes)
    requires Sound(v)
    ensures Emitted(v, [p]) == PieceTokens(v, p)
  {
  }

  lemma ByteFormOfA()
    ensures ByteTokenValue(BYTE_FORM) == 0x41
  {
  }
}
