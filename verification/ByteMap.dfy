/** The byte-level alphabet of GPT-2 vocabularies: every byte is spelt in a piece by
    the UTF-8 form of a printable code point (src/core.c), and qwen25_decode
    (src/model/qwen25.c) turns pieces back into bytes. */
module ByteMap {
  import opened Common
  import TokenTable

  type Bytes = TokenTable.Key

  // ------------------------------------------------------------------ byte to piece

  /** The bytes that stand for themselves. */
  predicate IsSelf(b: int) {
    33 <= b <= 126 || 161 <= b <= 172 || 174 <= b <= 255
  }

  /** How many bytes below b do not stand for themselves. */
  function ShiftedBelow(b: nat): nat {
    if b == 0 then 0 else ShiftedBelow(b - 1) + if IsSelf(b - 1) then 0 else 1
  }

  function CodePoint(b: Byte): nat {
    if IsSelf(b) then b else 256 + ShiftedBelow(b)
  }

  /** Section 3 of RFC 3629, for code points of the basic plane: the shortest form, whose
      payload bits are the code point. */
  function Utf8(cp: nat): (s: Bytes)
    requires cp < 0x10000
    ensures 1 <= |s| <= 3
    ensures |s| == 1 ==> cp == s[0] && cp < 0x80
    ensures |s| == 2 ==> 0x80 <= cp < 0x800 && 0xC2 <= s[0] < 0xE0 && Continues(s[1]) && cp == 64 * Payload(s[0], 0xC0) + Payload(s[1], 0x80)
    ensures |s| == 3 ==> 0x800 <= cp && 0xE0 <= s[0] < 0xF0 && Continues(s[1]) && Continues(s[2])
                         && cp == 4096 * Payload(s[0], 0xE0) + 64 * Payload(s[1], 0x80) + Payload(s[2], 0x80)
  {
    if cp < 0x80 then [cp]
    else if cp < 0x800 then [0xC0 + cp / 64, 0x80 + cp % 64]
    else [0xE0 + cp / 4096, 0x80 + cp / 64 % 64, 0x80 + cp % 64]
  }

  predicate Continues(b: Byte) { 0x80 <= b < 0xC0 }

  /** The bits of a byte without its marker. */
  function Payload(b: Byte, marker: int): int {
    var v: int := b;
    v - marker
  }

  lemma {:induction false} ShiftedClosed(b: nat)
    requires b <= 256
    ensures ShiftedBelow(b) == if b <= 33 then b else if b <= 127 then 33 else
                               if b <= 161 then b - 94 else if b <= 173 then 67 else 68
  {
    if b > 0 { ShiftedClosed(b - 1); }
  }

  /** The piece of one byte. */
  function Enc(b: Byte): (s: Bytes)
    ensures 1 <= |s| <= 3
  {
    ShiftedClosed(b);
    Utf8(CodePoint(b))
  }

  function EncAll(s: Bytes): (r: Bytes)
    ensures |s| <= |r|
  {
    if s == [] then [] else Enc(s[0]) + EncAll(s[1..])
  }

  /** The inner loop of the loader, which counts the shifted bytes afresh. */
  method CountShifted(b: Byte) returns (off: nat)
    ensures off == ShiftedBelow(b)
  {
    off := 0;
    for i := 0 to b
      invariant off == ShiftedBelow(i)
    {
      if !IsSelf(i) { off := off + 1; }
    }
  }

  // ------------------------------------------------------------------ piece to byte

  /** The byte that the two-byte form c, nc stands for, or -1. */
  function Unshift(c: Byte, nc: Byte): (r: int)
    ensures -1 <= r < 256
  {
    if !(0xC2 <= c <= 0xC5 && 0x80 <= nc <= 0xBF) then -1
    else if c == 0xC2 then nc
    else if c == 0xC3 then nc + 0x40
    else if c == 0xC4 then
      (if nc <= 0xA0 then nc - 0x80 else if nc == 0xA1 then 0x7F else nc - 0x22)
    else if nc == 0x80 then 0x9E
    else if nc == 0x81 then 0x9F
    else if nc == 0x82 then 0xA0
    else if nc == 0x83 then 0xAD
    else -1
  }

  /** The piece opens with a two-byte form. */
  predicate Pair(raw: Bytes) {
    |raw| >= 2 && Unshift(raw[0], raw[1]) >= 0
  }

  function Dec(raw: Bytes): (s: Bytes)
    ensures |s| <= |raw| && (raw != [] ==> s != [])
  {
    if raw == [] then []
    else if Pair(raw) then [Unshift(raw[0], raw[1])] + Dec(raw[2..])
    else [raw[0]] + Dec(raw[1..])
  }

  /** Every byte comes back from its piece, whatever follows. */
  lemma DecEnc(b: Byte, rest: Bytes)
    ensures Dec(Enc(b) + rest) == [b] + Dec(rest)
  {
    ShiftedClosed(b);
    var s := Enc(b);
    assert |s| <= 2;
    if |s| == 1 {
      assert (s + rest)[1..] == rest;
      assert s[0] == b && !Pair(s + rest);
    } else {
      assert (s + rest)[2..] == rest;
      EncUnshift(b);
    }
  }

  lemma EncUnshift(b: Byte)
    ensures |Enc(b)| == 2 ==> Unshift(Enc(b)[0], Enc(b)[1]) == b
  {
    ShiftedClosed(b);
    var cp := CodePoint(b);
    if |Enc(b)| == 2 {
      assert 0xA1 <= cp <= 0x143;
      if cp < 0xC0 {
        assert cp / 64 == 2;
      } else if cp < 0x100 {
        assert cp / 64 == 3;
      } else if cp < 0x140 {
        assert cp / 64 == 4;
      } else {
        assert cp / 64 == 5;
      }
    }
  }

  /** The decoder undoes the byte map on any text, and leaves what follows alone. */
  lemma {:induction false} DecEncAll(s: Bytes, rest: Bytes)
    ensures Dec(EncAll(s) + rest) == s + Dec(rest)
  {
    hide Enc, Dec;
    if s == [] {
      assert EncAll(s) + rest == rest;
    } else {
      assert EncAll(s) == Enc(s[0]) + EncAll(s[1..]);
      assert EncAll(s) + rest == Enc(s[0]) + (EncAll(s[1..]) + rest);
      DecEnc(s[0], EncAll(s[1..]) + rest);
      DecEncAll(s[1..], rest);
      assert s == [s[0]] + s[1..];
    }
  }

  lemma EncCons(b: Byte, s: Bytes)
    ensures EncAll([]) == [] && EncAll([b] + s) == Enc(b) + EncAll(s)
  {
    hide Enc;
    assert ([b] + s)[1..] == s;
  }

  lemma {:induction false} EncAllAppend(s: Bytes, t: Bytes)
    ensures EncAll(s + t) == EncAll(s) + EncAll(t)
  {
    hide *;
    if s == [] {
      EncCons(0, []);
      assert s + t == t;
    } else {
      var b, rest := s[0], s[1..];
      EncAllAppend(rest, t);
      EncCons(b, rest);
      EncCons(b, rest + t);
      assert s == [b] + rest && s + t == [b] + (rest + t);
      assert Enc(b) + (EncAll(rest) + EncAll(t)) == Enc(b) + EncAll(rest) + EncAll(t);
    }
  }

  /** A piece is its own text exactly when no two-byte form occurs in it; printable
      ASCII pieces never hold one. */
  lemma {:induction false} DecIsIdentity(raw: Bytes)
    ensures Dec(raw) == raw <==> |Dec(raw)| == |raw|
    ensures Dec(raw) == raw <==> forall i :: 0 <= i < |raw| ==> !Pair(raw[i..])
  {
    if raw != [] {
      var k := if Pair(raw) then 2 else 1;
      DecIsIdentity(raw[k..]);
      assert raw[0..] == raw;
      if k == 1 {
        assert raw == [raw[0]] + raw[1..];
        var rest := raw[1..];
        assert forall i :: 0 <= i < |rest| ==> rest[i..] == raw[i + 1..];
        assert forall i :: 0 < i < |raw| ==> raw[i..] == rest[i - 1..];
      }
    }
  }

  lemma AsciiIsIdentity(raw: Bytes)
    requires forall i :: 0 <= i < |raw| ==> raw[i] < 0x80
    ensures Dec(raw) == raw
  {
    DecIsIdentity(raw);
  }

  lemma DecStep(s: Bytes, b: nat)
    requires b < |s|
    ensures b + 1 < |s| && Unshift(s[b], s[b + 1]) >= 0 ==>
              Dec(s[b..]) == [Unshift(s[b], s[b + 1])] + Dec(s[b + 2..])
    ensures !(b + 1 < |s| && Unshift(s[b], s[b + 1]) >= 0) ==> Dec(s[b..]) == [s[b]] + Dec(s[b + 1..])
  {
    assert s[b..][1..] == s[b + 1..];
    assert b + 1 < |s| ==> s[b..][2..] == s[b + 2..];
  }

  /** The two bytes that decode to a byte without being its piece: the code points that the
      byte map moves away, spelt directly. */
  predicate Moved(c: Byte, nc: Byte) {
    c == 0xC2 && (0x80 <= nc <= 0xA0 || nc == 0xAD)
  }

  /** On the pieces of two bytes the decoder inverts the byte map; any other form it takes
      is a code point that the map moves away. */
  lemma UnshiftEnc(c: Byte, nc: Byte)
    ensures forall b: Byte :: Enc(b) == [c, nc] ==> Unshift(c, nc) == b
    ensures Unshift(c, nc) >= 0 ==> (Enc(Unshift(c, nc)) == [c, nc] <==> !Moved(c, nc))
  {
    hide Unshift, Enc;
    forall b: Byte | Enc(b) == [c, nc] ensures Unshift(c, nc) == b {
      EncUnshift(b);
    }
    if Unshift(c, nc) >= 0 {
      UnshiftPoint(c, nc);
      EncForm(Unshift(c, nc), c, nc);
    }
  }

  /** The code point of the byte that a two-byte form decodes to. */
  lemma UnshiftPoint(c: Byte, nc: Byte)
    requires Unshift(c, nc) >= 0
    ensures 0xC2 <= c && 0x80 <= nc < 0xC0
    ensures CodePoint(Unshift(c, nc)) == (c - 0xC0) * 64 + (nc - 0x80) <==> !Moved(c, nc)
  {
    hide ShiftedBelow;
    ShiftedClosed(Unshift(c, nc));
  }

  lemma EncForm(b: Byte, c: Byte, nc: Byte)
    requires 0xC2 <= c && 0x80 <= nc < 0xC0
    ensures Enc(b) == [c, nc] <==> CodePoint(b) == (c - 0xC0) * 64 + (nc - 0x80)
  {
    hide ShiftedBelow;
    ShiftedClosed(b);
    assert CodePoint(b) < 0x144;
  }

  /** The switch of qwen25_decode on the two bytes of a two-byte form. */
  method TwoByteForm(c: Byte, nc: Byte) returns (byte: int)
    requires 0xC2 <= c <= 0xC5
    ensures byte == Unshift(c, nc)
    ensures forall b: Byte :: Enc(b) == [c, nc] ==> byte == b
    ensures byte >= 0 ==> byte < 256 && (Enc(byte) == [c, nc] <==> !Moved(c, nc))
  {
    UnshiftEnc(c, nc);
    byte := -1;
    if 0x80 <= nc <= 0xBF {
      if c == 0xC2 {
        byte := nc;
      } else if c == 0xC3 {
        byte := nc + 0x40;
      } else if c == 0xC4 {
        byte := if nc <= 0xA0 then nc - 0x80 else if nc == 0xA1 then 0x7F else nc - 0x22;
      } else if c == 0xC5 {
        byte := if nc == 0x80 then 0x9E else if nc == 0x81 then 0x9F else
                if nc == 0x82 then 0xA0 else if nc == 0x83 then 0xAD else -1;
      }
    }
  }

  /** qwen25_decode: the bytes are written to out, cut at maxLen, and followed by a NUL
      when there is room for one. */
  method Decode(raw: Bytes, out: array<Byte>, maxLen: nat) returns (w: nat)
    requires maxLen <= out.Length
    modifies out
    ensures w == if |Dec(raw)| < maxLen then |Dec(raw)| else maxLen
    ensures out[..w] == Dec(raw)[..w] && (w < maxLen ==> out[w] == 0)
    ensures forall k :: w < k < out.Length ==> out[k] == old(out[k])
  {
    hide Dec, Enc, Moved;
    w := 0;
    var b := 0;
    assert raw[0..] == raw;
    while b < |raw| && w < maxLen
      invariant 0 <= b <= |raw| && w <= maxLen
      invariant Dec(raw) == out[..w] + Dec(raw[b..])
      invariant forall k :: w <= k < out.Length ==> out[k] == old(out[k])
      decreases |raw| - b
    {
      ghost var was, start := out[..w], b;
      var c := raw[b];
      DecStep(raw, b);
      var v := c;
      if 0x21 <= c <= 0x7E {
      } else if 0xC2 <= c <= 0xC5 && b + 1 < |raw| {
        var byte := TwoByteForm(c, raw[b + 1]);
        if 0 <= byte <= 255 {
          v := byte;
          b := b + 1;
        }
      }
      out[w] := v;
      w := w + 1;
      b := b + 1;
      assert out[..w] == was + [v];
      assert Dec(raw[start..]) == [v] + Dec(raw[b..]);
    }
    ghost var done := out[..w];
    if b == |raw| { NothingLeft(raw); }
    if w < maxLen { out[w] := 0; }
    assert out[..w] == done;
  }

  lemma NothingLeft(raw: Bytes)
    ensures Dec(raw[|raw|..]) == []
  {
  }
}
