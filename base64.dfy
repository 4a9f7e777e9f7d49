/**
 * Base 64 encoding with the standard alphabet and `=` padding, section 4 of
 * RFC 4648, as `base64.b64encode` produces it, together with a decoder.
 */
module Base64 {
  import opened Wrappers
  import opened Bytes

  /** The character of a 6-bit value in the standard alphabet (Table 1 of RFC 4648). */
  function CharOf(v: nat): (c: char)
    requires v < 64
  {
    if v < 26 then ('A' as int + v) as char
    else if v < 52 then ('a' as int + v - 26) as char
    else if v < 62 then ('0' as int + v - 52) as char
    else if v == 62 then '+'
    else '/'
  }

  /** The 6-bit value of an alphabet character; `None` outside the alphabet. */
  function ValueOf(c: char): (r: Option<nat>)
    ensures r.Some? ==> r.value < 64
  {
    if 'A' <= c <= 'Z' then Some(c as int - 'A' as int)
    else if 'a' <= c <= 'z' then Some(c as int - 'a' as int + 26)
    else if '0' <= c <= '9' then Some(c as int - '0' as int + 52)
    else if c == '+' then Some(62)
    else if c == '/' then Some(63)
    else None
  }

  lemma ValueOfCharOf(v: nat)
    requires v < 64
    ensures ValueOf(CharOf(v)) == Some(v)
    ensures CharOf(v) != '=' && CharOf(v) != '"'
  {
  }

  predicate InAlphabet(c: char) {
    ValueOf(c).Some? || c == '='
  }

  /** The four output characters of a 24-bit group. */
  function Quad(n: nat): string
    requires n < 0x100_0000
  {
    [CharOf(n / 0x4_0000), CharOf(n / 0x1000 % 64), CharOf(n / 64 % 64), CharOf(n % 64)]
  }

  /** `base64.b64encode(bs)`, as text. */
  function Encode(bs: seq<Byte>): (s: string)
    decreases |bs|
  {
    if |bs| == 0 then ""
    else if |bs| == 1 then Quad((bs[0] as int) * 0x1_0000)[..2] + "=="
    else if |bs| == 2 then Quad((bs[0] as int) * 0x1_0000 + (bs[1] as int) * 0x100)[..3] + "="
    else Quad((bs[0] as int) * 0x1_0000 + (bs[1] as int) * 0x100 + bs[2]) + Encode(bs[3..])
  }

  lemma QuadInAlphabet(n: nat)
    requires n < 0x100_0000
    ensures forall k :: 0 <= k < 4 ==> ValueOf(Quad(n)[k]).Some?
  {
    ValueOfCharOf(n / 0x4_0000);
    ValueOfCharOf(n / 0x1000 % 64);
    ValueOfCharOf(n / 64 % 64);
    ValueOfCharOf(n % 64);
  }

  /** Four output characters per started group of three bytes, all from the
      alphabet or the padding character. */
  lemma EncodeShape(bs: seq<Byte>)
    ensures |Encode(bs)| == 4 * ((|bs| + 2) / 3)
    ensures forall k :: 0 <= k < |Encode(bs)| ==> InAlphabet(Encode(bs)[k])
  {
    EncodeLength(bs);
    EncodeInAlphabet(bs);
  }

  lemma {:induction false} EncodeLength(bs: seq<Byte>)
    ensures |Encode(bs)| == 4 * ((|bs| + 2) / 3)
    decreases |bs|
  {
    if |bs| >= 3 {
      var n := (bs[0] as int) * 0x1_0000 + (bs[1] as int) * 0x100 + bs[2];
      var rest := bs[3..];
      EncodeLength(rest);
      assert Encode(bs) == Quad(n) + Encode(rest);
      assert |rest| == |bs| - 3;
      assert (|bs| + 2) / 3 == (|rest| + 2) / 3 + 1;
    }
  }

  lemma {:induction false} EncodeInAlphabet(bs: seq<Byte>)
    ensures forall k :: 0 <= k < |Encode(bs)| ==> InAlphabet(Encode(bs)[k])
    decreases |bs|
  {
    if |bs| == 1 {
      QuadInAlphabet((bs[0] as int) * 0x1_0000);
    } else if |bs| == 2 {
      QuadInAlphabet((bs[0] as int) * 0x1_0000 + (bs[1] as int) * 0x100);
    } else if |bs| >= 3 {
      var n := (bs[0] as int) * 0x1_0000 + (bs[1] as int) * 0x100 + bs[2];
      var q, rest := Quad(n), Encode(bs[3..]);
      QuadInAlphabet(n);
      EncodeInAlphabet(bs[3..]);
      assert Encode(bs) == q + rest;
      forall k | 0 <= k < |q + rest|
        ensures InAlphabet((q + rest)[k])
      {
        if k >= |q| {
          assert (q + rest)[k] == rest[k - |q|];
        }
      }
    }
  }

  /** Decodes text made of complete four-character groups; padding may only
      close the last group. `None` for anything else. */
  function Decode(s: string): Option<seq<Byte>>
    decreases |s|
  {
    if |s| == 0 then Some([])
    else if |s| < 4 then None
    else
      var v0, v1 := ValueOf(s[0]), ValueOf(s[1]);
      if v0.None? || v1.None? then None
      else if |s| == 4 && s[2] == '=' && s[3] == '=' then
        Some([v0.value * 4 + v1.value / 16])
      else
        var v2 := ValueOf(s[2]);
        if v2.None? then None
        else if |s| == 4 && s[3] == '=' then
          var n := v0.value * 0x4_0000 + v1.value * 0x1000 + v2.value * 64;
          Some([n / 0x1_0000, n / 0x100 % 0x100])
        else
          var v3 := ValueOf(s[3]);
          if v3.None? then None
          else
            var n := v0.value * 0x4_0000 + v1.value * 0x1000 + v2.value * 64 + v3.value;
            match Decode(s[4..])
            case None => None
            case Some(rest) => Some([n / 0x1_0000, n / 0x100 % 0x100, n % 0x100] + rest)
  }

  lemma SplitGroup(n: nat)
    requires n < 0x100_0000
    ensures n == (n / 0x4_0000) * 0x4_0000 + (n / 0x1000 % 64) * 0x1000 + (n / 64 % 64) * 64 + n % 64
  {
    var a, r0 := n / 64, n % 64;
    var b, r1 := a / 64, a % 64;
    var c, r2 := b / 64, b % 64;
    assert n == 64 * a + r0 && 0 <= r0 < 64;
    assert a == 64 * b + r1 && 0 <= r1 < 64;
    assert b == 64 * c + r2 && 0 <= r2 < 64;
    assert n == 0x1000 * b + (64 * r1 + r0) && 0 <= 64 * r1 + r0 < 0x1000;
    assert n / 0x1000 == b;
    assert n == 0x4_0000 * c + (0x1000 * r2 + 64 * r1 + r0) && 0 <= 0x1000 * r2 + 64 * r1 + r0 < 0x4_0000;
    assert n / 0x4_0000 == c;
  }

  lemma Unpack(b0: Byte, b1: Byte, b2: Byte)
    ensures var n := b0 * 0x1_0000 + b1 * 0x100 + b2;
            n < 0x100_0000 && n / 0x1_0000 == b0 && n / 0x100 % 0x100 == b1 && n % 0x100 == b2
  {
    var n := b0 * 0x1_0000 + b1 * 0x100 + b2;
    var w := b0 * 0x100 + b1;
    assert n == w * 0x100 + b2;
    assert n / 0x100 == w && n % 0x100 == b2;
    assert w % 0x100 == b1 && w / 0x100 == b0;
    assert n == b0 * 0x1_0000 + (b1 * 0x100 + b2) && 0 <= b1 * 0x100 + b2 < 0x1_0000;
  }

  lemma OneByteGroup(b: Byte)
    ensures (b * 0x1_0000) / 0x4_0000 == b / 4
    ensures (b * 0x1_0000) / 0x1000 % 64 == (b % 4) * 16
    ensures (b / 4) * 4 + (b % 4) * 16 / 16 == b
  {
    var q, r := b / 4, b % 4;
    assert b == 4 * q + r && 0 <= r < 4;
    assert b * 0x1_0000 == q * 0x4_0000 + r * 0x1_0000 && 0 <= r * 0x1_0000 < 0x4_0000;
    assert (b * 0x1_0000) / 0x1000 == b * 16;
    assert b * 16 == q * 64 + r * 16 && 0 <= r * 16 < 64;
    assert r * 16 / 16 == r;
  }

  /** A group closed by two padding characters yields one byte. */
  lemma DecodeOneByte(b: Byte)
    ensures Decode(Encode([b])) == Some([b])
  {
    var s := Encode([b]);
    OneByteGroup(b);
    ValueOfCharOf(b / 4);
    ValueOfCharOf((b % 4) * 16);
    assert s == [CharOf(b / 4), CharOf((b % 4) * 16), '=', '='];
  }

  /** A group closed by one padding character yields two bytes. */
  lemma DecodePadded(v0: nat, v1: nat, v2: nat)
    requires v0 < 64 && v1 < 64 && v2 < 64
    ensures var n := v0 * 0x4_0000 + v1 * 0x1000 + v2 * 64;
            Decode([CharOf(v0), CharOf(v1), CharOf(v2), '=']) == Some([n / 0x1_0000, n / 0x100 % 0x100])
  {
    ValueOfCharOf(v0);
    ValueOfCharOf(v1);
    ValueOfCharOf(v2);
  }

  /** A group holding two bytes decodes back to them. */
  lemma DecodePaddedGroup(n: nat)
    requires n < 0x100_0000 && n % 0x100 == 0
    ensures Decode(Quad(n)[..3] + "=") == Some([n / 0x1_0000, n / 0x100 % 0x100])
  {
    var d0, d1, d2 := n / 0x4_0000, n / 0x1000 % 64, n / 64 % 64;
    assert Quad(n)[..3] + "=" == [CharOf(d0), CharOf(d1), CharOf(d2), '='];
    DecodePadded(d0, d1, d2);
    SplitGroup(n);
    var q := n / 0x100;
    assert n == 64 * (4 * q);
    MultipleOf64(4 * q);
  }

  lemma MultipleOf64(m: nat)
    ensures (64 * m) % 64 == 0
  {
  }

  lemma DecodeTwoBytes(b0: Byte, b1: Byte)
    ensures Decode(Encode([b0, b1])) == Some([b0, b1])
  {
    var n := b0 * 0x1_0000 + b1 * 0x100;
    UnpackTwo(b0, b1);
    assert Encode([b0, b1]) == Quad(n)[..3] + "=";
    DecodePaddedGroup(n);
  }

  lemma UnpackTwo(b0: Byte, b1: Byte)
    ensures var n := b0 * 0x1_0000 + b1 * 0x100;
            n < 0x100_0000 && n % 0x100 == 0 && n / 0x1_0000 == b0 && n / 0x100 % 0x100 == b1
  {
    var n := b0 * 0x1_0000 + b1 * 0x100;
    var w := b0 * 0x100 + b1;
    assert n == w * 0x100;
    assert n / 0x100 == w;
    assert w % 0x100 == b1 && w / 0x100 == b0;
    assert 0 <= b1 * 0x100 < 0x1_0000;
  }

  /** A full group is decoded back to the 24 bits it was made from. */
  lemma DecodeQuad(n: nat, t: string, rest: seq<Byte>)
    requires n < 0x100_0000 && Decode(t) == Some(rest)
    ensures Decode(Quad(n) + t) == Some([n / 0x1_0000, n / 0x100 % 0x100, n % 0x100] + rest)
  {
    var s := Quad(n) + t;
    var v0, v1, v2, v3 := n / 0x4_0000, n / 0x1000 % 64, n / 64 % 64, n % 64;
    ValueOfCharOf(v0);
    ValueOfCharOf(v1);
    ValueOfCharOf(v2);
    ValueOfCharOf(v3);
    assert s[..4] == [CharOf(v0), CharOf(v1), CharOf(v2), CharOf(v3)];
    assert s[4..] == t;
    DecodeGroup(s, v0, v1, v2, v3, rest);
    SplitGroup(n);
  }

  /** One unpadded group followed by text that decodes. */
  lemma DecodeGroup(s: string, v0: nat, v1: nat, v2: nat, v3: nat, rest: seq<Byte>)
    requires |s| >= 4 && ValueOf(s[0]) == Some(v0) && ValueOf(s[1]) == Some(v1)
    requires ValueOf(s[2]) == Some(v2) && ValueOf(s[3]) == Some(v3) && s[2] != '=' && s[3] != '='
    requires Decode(s[4..]) == Some(rest)
    ensures var n := v0 * 0x4_0000 + v1 * 0x1000 + v2 * 64 + v3;
            Decode(s) == Some([n / 0x1_0000, n / 0x100 % 0x100, n % 0x100] + rest)
  {
  }

  lemma EncodeFullGroup(bs: seq<Byte>)
    requires |bs| >= 3
    ensures Encode(bs) == Quad((bs[0] as int) * 0x1_0000 + (bs[1] as int) * 0x100 + bs[2]) + Encode(bs[3..])
  {
  }

  lemma DecodeFullGroup(bs: seq<Byte>, t: string)
    requires |bs| >= 3 && Decode(t) == Some(bs[3..])
    ensures Decode(Quad((bs[0] as int) * 0x1_0000 + (bs[1] as int) * 0x100 + bs[2]) + t) == Some(bs)
  {
    var b0, b1, b2, rest := bs[0], bs[1], bs[2], bs[3..];
    var n: nat := (b0 as int) * 0x1_0000 + (b1 as int) * 0x100 + b2;
    Unpack(b0, b1, b2);
    DecodeQuad(n, t, rest);
    assert [n / 0x1_0000, n / 0x100 % 0x100, n % 0x100] == [b0, b1, b2];
    assert [b0, b1, b2] + rest == bs;
  }

  /** Decoding an encoding gives the bytes back. */
  lemma {:induction false} DecodeEncode(bs: seq<Byte>)
    ensures Decode(Encode(bs)) == Some(bs)
    decreases |bs|
  {
    if |bs| == 1 {
      DecodeOneByte(bs[0]);
      assert bs == [bs[0]];
    } else if |bs| == 2 {
      DecodeTwoBytes(bs[0], bs[1]);
      assert bs == [bs[0], bs[1]];
    } else if |bs| >= 3 {
      DecodeEncode(bs[3..]);
      EncodeFullGroup(bs);
      DecodeFullGroup(bs, Encode(bs[3..]));
    }
  }
}
