/** The vocabulary of src/core.c: pieces by id, ids by piece, merge ranks, and the
    table that gives the token of every single byte. */
module Vocabulary {
  import opened Common
  import TokenTable
  import opened ByteMap

  const NONE := -1
  const INT32_MAX := 0x7FFF_FFFF
  const MAX_KEY := 255

  datatype Vocab = Vocab(pieces: seq<Bytes>, ids: map<Bytes, int>, merges: map<Bytes, int>, bytes: seq<int>)

  /** An id that a lookup returns names the piece that was looked up. */
  ghost predicate Sound(v: Vocab) {
    && |v.bytes| == 256
    && (forall k :: k in v.ids ==> 0 <= v.ids[k] < |v.pieces| && v.pieces[v.ids[k]] == k)
    && (forall b :: 0 <= b < 256 ==> NONE <= v.bytes[b] < |v.pieces|)
  }

  /** The byte table of a BPE vocabulary: the piece that spells the byte, if present. */
  ghost predicate ByteLevel(v: Vocab) {
    Sound(v) && forall b: Byte :: v.bytes[b] == BpeByte(v.ids, b)
  }

  function BpeByte(ids: map<Bytes, int>, b: Byte): int {
    if Enc(b) in ids then ids[Enc(b)] else NONE
  }

  /** The byte table of a SentencePiece vocabulary: only "<0xHH>" pieces. */
  ghost predicate ByteFallback(v: Vocab) {
    Sound(v) && forall b: Byte :: v.bytes[b] != NONE ==> ByteTokenValue(v.pieces[v.bytes[b]]) == b
  }

  predicate IsId(v: Vocab, id: int) {
    0 <= id < |v.pieces|
  }

  /** vocab_merge_rank. */
  function MergeRank(v: Vocab, a: int, b: int): int {
    if !IsId(v, a) || !IsId(v, b) then NONE
    else
      var key := v.pieces[a] + [0x20] + v.pieces[b];
      if |key| <= MAX_KEY && key in v.merges then v.merges[key] else NONE
  }

  /** vocab_merge_result. */
  function MergeResult(v: Vocab, a: int, b: int): (r: int)
    ensures Sound(v) && r != NONE ==>
              IsId(v, a) && IsId(v, b) && IsId(v, r) && v.pieces[r] == v.pieces[a] + v.pieces[b]
  {
    if !IsId(v, a) || !IsId(v, b) then NONE
    else
      var key := v.pieces[a] + v.pieces[b];
      if |key| <= MAX_KEY && key in v.ids then v.ids[key] else NONE
  }

  // --------------------------------------------------------------- byte pieces

  function HexDigit(c: Byte): (r: int)
    ensures -1 <= r < 16
  {
    if 0x30 <= c <= 0x39 then c - 0x30
    else if 0x61 <= c <= 0x66 then c - 0x61 + 10
    else if 0x41 <= c <= 0x46 then c - 0x41 + 10
    else -1
  }

  /** spm_byte_token_value: the byte of a "<0xHH>" piece, or -1. */
  function ByteTokenValue(k: Bytes): (r: int)
    ensures -1 <= r < 256
  {
    if |k| != 6 || k[0] != 0x3C || k[1] != 0x30 || k[2] != 0x78 || k[5] != 0x3E then -1
    else
      var hi, lo := HexDigit(k[3]), HexDigit(k[4]);
      if hi < 0 || lo < 0 then -1 else hi * 16 + lo
  }

  /** The pieces with a value are spelt "<0x", two hexadecimal digits in either case, ">". */
  lemma SpeltByte(k: Bytes)
    ensures ByteTokenValue(k) >= 0 <==> exists h: Byte, l: Byte :: IsHex(h) && IsHex(l) && k == [0x3C, 0x30, 0x78, h, l, 0x3E]
    ensures ByteTokenValue(k) >= 0 ==>
              |k| == 6 && HexIs(k[3], ByteTokenValue(k) / 16) && HexIs(k[4], ByteTokenValue(k) % 16)
  {
    hide IsHex, HexIs, HexDigit;
    HexAll();
    if ByteTokenValue(k) >= 0 {
      assert k == [0x3C, 0x30, 0x78, k[3], k[4], 0x3E];
    }
  }

  predicate IsHex(c: Byte) {
    '0' <= c as char <= '9' || 'a' <= c as char <= 'f' || 'A' <= c as char <= 'F'
  }

  /** c is the digit of value d. */
  predicate HexIs(c: Byte, d: int) {
    0 <= d < 16 && (c as char == "0123456789abcdef"[d] || c as char == "0123456789ABCDEF"[d])
  }

  lemma HexAll()
    ensures forall c: Byte :: HexDigit(c) >= 0 <==> IsHex(c)
    ensures forall c: Byte :: HexDigit(c) >= 0 ==> HexIs(c, HexDigit(c))
  {
  }

  // ------------------------------------------------------------------- loading

  /** A string of the model file as cursor_key keeps it: the length goes into 8 bits. */
  function Cut(s: Bytes): (k: Bytes)
    ensures |k| <= MAX_KEY && (k == s <==> |s| <= MAX_KEY)
    ensures k <= s && (|s| - |k|) % 256 == 0
  {
    s[..|s| % 256]
  }

  function Cuts(strings: seq<Bytes>): (keys: seq<Bytes>)
    ensures |keys| == |strings|
  {
    seq(|strings|, i requires 0 <= i < |strings| => Cut(strings[i]))
  }

  /** The loop that reads an array of strings. */
  method ReadKeys(strings: seq<Bytes>) returns (keys: seq<Bytes>)
    ensures keys == Cuts(strings)
  {
    keys := [];
    for i := 0 to |strings|
      invariant keys == Cuts(strings)[..i]
    {
      keys := keys + [Cut(strings[i])];
    }
  }

  /** A piece of the file has its own spelling in the tables exactly up to 255 bytes; a
      longer one is found under its first |piece| % 256 bytes only, where it takes the place
      of any earlier piece spelt so. */
  lemma LongPieces(strings: seq<Bytes>, i: nat)
    requires i < |strings|
    ensures strings[i] in TableOf(Cuts(strings)) <==> |strings[i]| <= MAX_KEY
    ensures Cut(strings[i]) in TableOf(Cuts(strings)) && TableOf(Cuts(strings))[Cut(strings[i])] >= i
  {
    var keys := Cuts(strings);
    TableOfSound(keys);
    assert keys[i] == Cut(strings[i]);
  }

  function Puts(keys: seq<Bytes>): seq<(Bytes, int)> {
    seq(|keys|, i requires 0 <= i < |keys| => (keys[i], i))
  }

  function TableOf(keys: seq<Bytes>): map<Bytes, int> {
    TokenTable.Last(Puts(keys))
  }

  /** Every key is found, under the last position that holds it. */
  lemma {:induction false} TableOfSound(keys: seq<Bytes>)
    ensures forall k :: k in keys <==> k in TableOf(keys)
    ensures forall k :: k in TableOf(keys) ==> 0 <= TableOf(keys)[k] < |keys| && keys[TableOf(keys)[k]] == k
    ensures forall i :: 0 <= i < |keys| ==> i <= TableOf(keys)[keys[i]]
  {
    if keys != [] {
      var n := |keys| - 1;
      TableOfSound(keys[..n]);
      assert Puts(keys)[..n] == Puts(keys[..n]);
      assert keys == keys[..n] + [keys[n]];
    }
  }

  lemma {:induction false} FewDistinct(puts: seq<(Bytes, int)>)
    ensures |TokenTable.Distinct(puts)| <= |puts|
  {
    if puts != [] {
      var n := |puts| - 1;
      FewDistinct(puts[..n]);
      assert puts == puts[..n] + [puts[n]];
      assert TokenTable.Distinct(puts) == TokenTable.Distinct(puts[..n]) + {puts[n].0};
    }
  }

  method FillTable(hash: Bytes -> nat, keys: seq<Bytes>) returns (t: TokenTable.Table)
    ensures fresh(t) && t.Valid() && t.used < t.entry.Length && t.Contents() == TableOf(keys)
  {
    FewDistinct(Puts(keys));
    t := TokenTable.Fill(hash, Puts(keys), |keys|);
  }

  /** The id of the piece that spells byte b. */
  method BpeByteId(tokens: TokenTable.Table, b: Byte) returns (id: int)
    requires tokens.Valid() && tokens.used < tokens.entry.Length
    ensures id == BpeByte(tokens.Contents(), b)
  {
    hide Utf8, IsSelf;
    var cp: nat := b;
    if !IsSelf(b) {
      var off := CountShifted(b);
      cp := 256 + off;
    }
    assert cp == CodePoint(b);
    ShiftedClosed(b);
    var r := tokens.Get(Utf8(cp));
    id := if r.Some? then r.value else NONE;
  }

  method BpeTable(tokens: TokenTable.Table) returns (bytes: seq<int>)
    requires tokens.Valid() && tokens.used < tokens.entry.Length
    ensures |bytes| == 256 && forall b: Byte :: bytes[b] == BpeByte(tokens.Contents(), b)
  {
    hide TokenTable.Ok, TokenTable.ContentsOf, BpeByte;
    bytes := [];
    for b: int := 0 to 256
      invariant |bytes| == b
      invariant forall i: Byte :: i < b ==> bytes[i] == BpeByte(tokens.Contents(), i)
    {
      var id := BpeByteId(tokens, b);
      bytes := bytes + [id];
    }
  }

  /** The table part of vocab_load_for_bpe, from the strings of the file. */
  method LoadBpe(hash: Bytes -> nat, strings: seq<Bytes>, mergeStrings: seq<Bytes>) returns (v: Vocab)
    ensures v.pieces == Cuts(strings) && v.ids == TableOf(Cuts(strings)) && v.merges == TableOf(Cuts(mergeStrings))
    ensures ByteLevel(v)
  {
    hide TokenTable.Ok, TokenTable.ContentsOf, TableOf, Enc, Cuts;
    var pieces := ReadKeys(strings);
    var merges := ReadKeys(mergeStrings);
    var tokens := FillTable(hash, pieces);
    var ranks := FillTable(hash, merges);
    var bytes := BpeTable(tokens);
    TableOfSound(pieces);
    v := Vocab(pieces, TableOf(pieces), TableOf(merges), bytes);
  }

  /** Entry i may serve as a byte token; 6 is the token type BYTE. */
  predicate Eligible(types: Option<seq<int>>, i: nat)
    requires types.Some? ==> i < |types.value|
  {
    types.None? || types.value[i] == 6
  }

  /** The byte table after the first n pieces. */
  ghost predicate SpmBytes(bytes: seq<int>, pieces: seq<Bytes>, types: Option<seq<int>>, n: nat)
    requires n <= |pieces| && (types.Some? ==> |types.value| == |pieces|)
  {
    && |bytes| == 256
    && (forall b: Byte :: bytes[b] == NONE ||
          (0 <= bytes[b] < n && ByteTokenValue(pieces[bytes[b]]) == b && Eligible(types, bytes[b])))
    && (forall i :: 0 <= i < n && Eligible(types, i) && ByteTokenValue(pieces[i]) >= 0 ==>
          bytes[ByteTokenValue(pieces[i])] >= i)
  }

  method SpmTable(pieces: seq<Bytes>, types: Option<seq<int>>) returns (bytes: seq<int>)
    requires types.Some? ==> |types.value| == |pieces|
    ensures SpmBytes(bytes, pieces, types, |pieces|)
  {
    hide ByteTokenValue;
    bytes := seq(256, _ => NONE);
    for i := 0 to |pieces|
      invariant SpmBytes(bytes, pieces, types, i)
    {
      if !Eligible(types, i) { continue; }
      var byte := ByteTokenValue(pieces[i]);
      ByteTokenRange(pieces[i]);
      if byte >= 0 { bytes := bytes[byte := i]; }
    }
  }

  /** The token of byte b is the last piece that spells it and, where the file gives types, has
      type 6. */
  lemma ByteTokens(bytes: seq<int>, pieces: seq<Bytes>, types: Option<seq<int>>, b: Byte, i: nat)
    requires (types.Some? ==> |types.value| == |pieces|) && SpmBytes(bytes, pieces, types, |pieces|) && i < |pieces|
    ensures |bytes| == 256 && (bytes[b] == i ==> ByteTokenValue(pieces[i]) == b && (types.Some? ==> types.value[i] == 6))
    ensures ByteTokenValue(pieces[i]) == b && (types.Some? ==> types.value[i] == 6) ==> i <= bytes[b] < |pieces|
  {
    hide ByteTokenValue;
  }

  /** The table part of vocab_load_for_spm, from the strings of the file. With token types
      only entries of type 6 are byte tokens, and without them every "<0xHH>" piece is. */
  method LoadSpm(hash: Bytes -> nat, strings: seq<Bytes>, types: Option<seq<int>>) returns (v: Vocab)
    requires types.Some? ==> |types.value| == |strings|
    ensures v.pieces == Cuts(strings) && v.ids == TableOf(Cuts(strings)) && v.merges == map[]
    ensures ByteFallback(v) && SpmBytes(v.bytes, Cuts(strings), types, |strings|)
  {
    hide TableOf, ByteTokenValue, Cuts;
    var pieces := ReadKeys(strings);
    var tokens := FillTable(hash, pieces);
    TableOfSound(pieces);
    var bytes := SpmTable(pieces, types);
    v := Vocab(pieces, TableOf(pieces), map[], bytes);
  }

  lemma ByteTokenRange(k: Bytes)
    ensures -1 <= ByteTokenValue(k) < 256
  {
  }
}
