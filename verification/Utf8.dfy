/** UTF-8, the encoding behind every string that travels as bytes: an AMQP short string is limited in
    bytes, and a header value is text only when its bytes are the encoding of one. */
module Utf8 {
  import opened Wrappers

  type Byte = b: int | 0 <= b < 256
  type Bytes = seq<Byte>

  function EncodeChar(c: char): (r: Bytes)
    ensures 1 <= |r| <= 4
  {
    var u := c as int;
    if u < 0x80 then
      [u]
    else if u < 0x800 then
      [0xC0 + u / 64, 0x80 + u % 64]
    else if u < 0x10000 then
      [0xE0 + u / 4096, 0x80 + u / 64 % 64, 0x80 + u % 64]
    else
      [0xF0 + u / 262144, 0x80 + u / 4096 % 64, 0x80 + u / 64 % 64, 0x80 + u % 64]
  }

  function Encode(s: string): Bytes {
    if s == [] then [] else EncodeChar(s[0]) + Encode(s[1..])
  }

  lemma {:induction false} AsciiLength(s: string)
    requires forall i | 0 <= i < |s| :: s[i] as int < 0x80
    ensures |Encode(s)| == |s| && forall i | 0 <= i < |s| :: Encode(s)[i] == s[i] as int
  {
    if s != [] {
      AsciiLength(s[1..]);
    }
  }

  /** The examples of section 7 of RFC 3629, and one of two bytes: every length of encoding. */
  lemma ExamplesOfTheStandard()
    ensures EncodeChar('A') == [0x41]
    ensures EncodeChar('\U{391}') == [0xCE, 0x91]
    ensures EncodeChar('\U{2262}') == [0xE2, 0x89, 0xA2]
    ensures EncodeChar('\U{D55C}') == [0xED, 0x95, 0x9C]
    ensures EncodeChar('\U{65E5}') == [0xE6, 0x97, 0xA5]
    ensures EncodeChar('\U{233B4}') == [0xF0, 0xA3, 0x8E, 0xB4]
  {
  }

  predicate IsContinuation(b: Byte) {
    0x80 <= b < 0xC0
  }

  /** What is left of a byte once its marker bits are taken off. */
  function Bits(b: int, marker: int): int {
    b - marker
  }

  predicate IsScalar(u: int) {
    0 <= u < 0xD800 || 0xE000 <= u < 0x110000
  }

  /** The first scalar value of `b` and what follows it; overlong forms and surrogates are refused. */
  function DecodeChar(b: Bytes): (r: Option<(char, Bytes)>)
    ensures r.Some? ==> |r.value.1| < |b|
  {
    if b == [] then
      None
    else if b[0] < 0x80 then
      Some((b[0] as char, b[1..]))
    else if 0xC0 <= b[0] < 0xE0 && |b| >= 2 && IsContinuation(b[1]) then
      var u := Bits(b[0], 0xC0) * 64 + Bits(b[1], 0x80);
      if u >= 0x80 then Some((u as char, b[2..])) else None
    else if 0xE0 <= b[0] < 0xF0 && |b| >= 3 && IsContinuation(b[1]) && IsContinuation(b[2]) then
      var u := Bits(b[0], 0xE0) * 4096 + Bits(b[1], 0x80) * 64 + Bits(b[2], 0x80);
      if u >= 0x800 && IsScalar(u) then Some((u as char, b[3..])) else None
    else if
      && 0xF0 <= b[0] < 0xF8 && |b| >= 4
      && IsContinuation(b[1]) && IsContinuation(b[2]) && IsContinuation(b[3])
    then
      var u := Bits(b[0], 0xF0) * 262144 + Bits(b[1], 0x80) * 4096 + Bits(b[2], 0x80) * 64 + Bits(b[3], 0x80);
      if u >= 0x10000 && IsScalar(u) then Some((u as char, b[4..])) else None
    else
      None
  }

  /** The text `b` encodes, if it encodes one. */
  function Decode(b: Bytes): (r: Option<string>) {
    if b == [] then Some("")
    else
      var head := DecodeChar(b);
      if head.None? then None
      else
        var tail := Decode(head.value.1);
        if tail.None? then None else Some([head.value.0] + tail.value)
  }

  lemma DecodeCharOfEncoded(c: char, rest: Bytes)
    ensures DecodeChar(EncodeChar(c) + rest) == Some((c, rest))
  {
    var u := c as int;
    var b := EncodeChar(c) + rest;
    if u < 0x80 {
      assert b[1..] == rest;
    } else if u < 0x800 {
      assert b[2..] == rest;
    } else if u < 0x10000 {
      Groups(u);
      assert b[3..] == rest;
    } else {
      Groups(u);
      assert b[4..] == rest;
    }
  }

  lemma EncodedOfDecodeChar(b: Bytes)
    requires DecodeChar(b).Some?
    ensures b == EncodeChar(DecodeChar(b).value.0) + DecodeChar(b).value.1
  {
    if 0xE0 <= b[0] < 0xF0 {
      SixBits(Bits(b[0], 0xE0) * 64 + Bits(b[1], 0x80), Bits(b[2], 0x80));
      SixBits(Bits(b[0], 0xE0), Bits(b[1], 0x80));
      Groups((Bits(b[0], 0xE0) * 64 + Bits(b[1], 0x80)) * 64 + Bits(b[2], 0x80));
    } else if 0xF0 <= b[0] {
      EncodedOfFour(b);
    }
  }

  lemma EncodedOfFour(b: Bytes)
    requires DecodeChar(b).Some? && 0xF0 <= b[0]
    ensures b == EncodeChar(DecodeChar(b).value.0) + DecodeChar(b).value.1
  {
    var top := Bits(b[0], 0xF0) * 64 + Bits(b[1], 0x80);
    SixBits(top * 64 + Bits(b[2], 0x80), Bits(b[3], 0x80));
    SixBits(top, Bits(b[2], 0x80));
    SixBits(Bits(b[0], 0xF0), Bits(b[1], 0x80));
    Groups((top * 64 + Bits(b[2], 0x80)) * 64 + Bits(b[3], 0x80));
  }

  lemma SixBits(high: nat, low: nat)
    requires low < 64
    ensures (high * 64 + low) / 64 == high && (high * 64 + low) % 64 == low
  {
  }

  lemma Groups(u: nat)
    ensures u / 64 / 64 == u / 4096 && u / 64 / 64 / 64 == u / 262144
  {
  }

  /** Decoding is the exact inverse of encoding: `b` is text when, and only when, it encodes it. */
  lemma {:induction false} DecodesIffEncodes(b: Bytes, s: string)
    ensures Decode(b) == Some(s) <==> Encode(s) == b
    decreases |b| + |s|
  {
    if s != [] {
      DecodeCharOfEncoded(s[0], Encode(s[1..]));
      if b != [] && DecodeChar(b).Some? {
        var (head, rest) := DecodeChar(b).value;
        EncodedOfDecodeChar(b);
        DecodesIffEncodes(rest, s[1..]);
        assert s == [s[0]] + s[1..];
        assert Decode(b).Some? ==> Decode(b).value[0] == head && Decode(b).value[1..] == Decode(rest).value;
      }
    }
  }
}
