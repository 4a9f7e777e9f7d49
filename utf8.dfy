/**
 * UTF-8, as `str.encode()` produces it with its default codec, and a
 * decoder that accepts exactly the shortest forms of Unicode scalar values.
 */
module Utf8 {
  import opened Wrappers
  import opened Bytes

  predicate IsScalar(cp: int) {
    0 <= cp < 0xD800 || 0xE000 <= cp < 0x11_0000
  }

  /** The bytes of one code point: one to four of them, by its size. */
  function EncodeChar(c: char): (bs: seq<Byte>)
    ensures 1 <= |bs| <= 4
  {
    var cp := c as int;
    if cp < 0x80 then [cp]
    else if cp < 0x800 then [0xC0 + cp / 64, 0x80 + cp % 64]
    else if cp < 0x1_0000 then [0xE0 + cp / 0x1000, 0x80 + cp / 64 % 64, 0x80 + cp % 64]
    else [0xF0 + cp / 0x4_0000, 0x80 + cp / 0x1000 % 64, 0x80 + cp / 64 % 64, 0x80 + cp % 64]
  }

  /** `s.encode()` */
  function Encode(s: string): seq<Byte> {
    if s == [] then [] else EncodeChar(s[0]) + Encode(s[1..])
  }

  /** The length of the sequence a lead byte opens; 0 when it cannot lead. */
  function SequenceLength(lead: Byte): nat {
    if lead < 0x80 then 1
    else if 0xC0 <= lead < 0xE0 then 2
    else if 0xE0 <= lead < 0xF0 then 3
    else if 0xF0 <= lead < 0xF8 then 4
    else 0
  }

  predicate IsContinuation(b: Byte) {
    0x80 <= b < 0xC0
  }

  /** The code point a lead byte and its continuation bytes spell. */
  function CodePoint(bs: seq<Byte>, n: nat): int
    requires 1 <= n <= 4 && n <= |bs|
  {
    var b0, b1 := bs[0] as int, if n > 1 then bs[1] as int else 0;
    var b2, b3 := if n > 2 then bs[2] as int else 0, if n > 3 then bs[3] as int else 0;
    if n == 1 then b0
    else if n == 2 then (b0 - 0xC0) * 64 + (b1 - 0x80)
    else if n == 3 then (b0 - 0xE0) * 0x1000 + (b1 - 0x80) * 64 + (b2 - 0x80)
    else (b0 - 0xF0) * 0x4_0000 + (b1 - 0x80) * 0x1000 + (b2 - 0x80) * 64 + (b3 - 0x80)
  }

  /** The smallest code point an `n`-byte sequence may carry. */
  function MinCodePoint(n: nat): int {
    if n == 1 then 0 else if n == 2 then 0x80 else if n == 3 then 0x800 else 0x1_0000
  }

  /** The first character of `bs` and the number of bytes it takes. */
  function DecodeChar(bs: seq<Byte>): (r: Option<(char, nat)>)
    ensures r.Some? ==> 1 <= r.value.1 <= |bs|
  {
    if |bs| == 0 then None
    else
      var n := SequenceLength(bs[0]);
      if n == 0 || |bs| < n then None
      else if exists k | 1 <= k < n :: !IsContinuation(bs[k]) then None
      else
        var cp := CodePoint(bs, n);
        if cp < MinCodePoint(n) || !IsScalar(cp) then None
        else Some((cp as char, n))
  }

  function Decode(bs: seq<Byte>): Option<string>
    decreases |bs|
  {
    if bs == [] then Some("")
    else
      match DecodeChar(bs)
      case None => None
      case Some(first) =>
        match Decode(bs[first.1..])
        case None => None
        case Some(rest) => Some([first.0] + rest)
  }

  lemma Digits64(cp: nat)
    requires cp < 0x11_0000
    ensures cp == cp / 0x4_0000 * 0x4_0000 + cp / 0x1000 % 64 * 0x1000 + cp / 64 % 64 * 64 + cp % 64
    ensures cp < 0x1_0000 ==> cp == cp / 0x1000 * 0x1000 + cp / 64 % 64 * 64 + cp % 64
    ensures cp < 0x800 ==> cp == cp / 64 * 64 + cp % 64
  {
    var a, r0 := cp / 64, cp % 64;
    var b, r1 := a / 64, a % 64;
    var c, r2 := b / 64, b % 64;
    assert cp == a * 64 + r0;
    assert a == b * 64 + r1;
    assert b == c * 64 + r2;
    assert cp == b * 0x1000 + (r1 * 64 + r0) && 0 <= r1 * 64 + r0 < 0x1000;
    assert cp / 0x1000 == b;
    assert cp == c * 0x4_0000 + (r2 * 0x1000 + r1 * 64 + r0) && 0 <= r2 * 0x1000 + r1 * 64 + r0 < 0x4_0000;
    assert cp / 0x4_0000 == c;
  }

  /** Each character's bytes decode to that character, whatever follows. */
  lemma DecodeCharOfEncode(c: char, t: seq<Byte>)
    ensures DecodeChar(EncodeChar(c) + t) == Some((c, |EncodeChar(c)|))
  {
    var cp := c as int;
    var e := EncodeChar(c);
    var bs := e + t;
    Digits64(cp);
    assert bs[..|e|] == e;
    if cp < 0x80 {
      assert CodePoint(bs, 1) == cp;
    } else if cp < 0x800 {
      assert CodePoint(bs, 2) == cp;
    } else if cp < 0x1_0000 {
      assert CodePoint(bs, 3) == cp;
    } else {
      assert CodePoint(bs, 4) == cp;
    }
  }

  lemma DecodeChunk(c: char, t: seq<Byte>, rest: string)
    requires Decode(t) == Some(rest)
    ensures Decode(EncodeChar(c) + t) == Some([c] + rest)
  {
    DecodeCharOfEncode(c, t);
    assert (EncodeChar(c) + t)[|EncodeChar(c)|..] == t;
  }

  /** Decoding an encoding gives the text back. */
  lemma {:induction false} DecodeEncode(s: string)
    ensures Decode(Encode(s)) == Some(s)
  {
    if s != [] {
      DecodeEncode(s[1..]);
      DecodeChunk(s[0], Encode(s[1..]), s[1..]);
      assert s == [s[0]] + s[1..];
    }
  }

  /** ASCII text is its own encoding, one byte per character. */
  lemma {:induction false} EncodeAscii(s: string)
    requires forall i :: 0 <= i < |s| ==> s[i] as int < 0x80
    ensures |Encode(s)| == |s|
    ensures forall i :: 0 <= i < |s| ==> Encode(s)[i] == s[i] as int
  {
    if s != [] {
      EncodeAscii(s[1..]);
    }
  }
}
