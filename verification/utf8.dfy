/** UTF-8 as `TextEncoder` produces it for well-formed text (section 3 of RFC 3629), and its inverse. */
module Utf8 {
  type Byte = b: nat | b < 256

  function EncodeChar(c: char): (r: seq<Byte>)
    ensures 1 <= |r| <= 4
  {
    var u := c as int;
    var u1 := u / 64;
    var u2 := u1 / 64;
    var u3 := u2 / 64;
    if u < 0x80 then [u]
    else if u < 0x800 then [0xC0 + u1, 0x80 + u % 64]
    else if u < 0x10000 then [0xE0 + u2, 0x80 + u1 % 64, 0x80 + u % 64]
    else [0xF0 + u3, 0x80 + u2 % 64, 0x80 + u1 % 64, 0x80 + u % 64]
  }

  function Encode(s: string): seq<Byte> {
    if s == [] then [] else EncodeChar(s[0]) + Encode(s[1..])
  }

  /** The code point whose encoding starts `b`, and the number of bytes it takes. */
  function LeadingPoint(b: seq<Byte>): (int, nat)
    requires |b| > 0
  {
    var b0: int := b[0];
    var b1: int := if |b| > 1 then b[1] else 0x80;
    var b2: int := if |b| > 2 then b[2] else 0x80;
    var b3: int := if |b| > 3 then b[3] else 0x80;
    if b0 < 0x80 then (b0, 1)
    else if b0 < 0xE0 then ((b0 - 0xC0) * 64 + (b1 - 0x80), 2)
    else if b0 < 0xF0 then ((b0 - 0xE0) * 4096 + (b1 - 0x80) * 64 + (b2 - 0x80), 3)
    else ((b0 - 0xF0) * 262144 + (b1 - 0x80) * 4096 + (b2 - 0x80) * 64 + (b3 - 0x80), 4)
  }

  lemma LeadingPointOfEncoding(c: char, rest: seq<Byte>)
    ensures LeadingPoint(EncodeChar(c) + rest) == (c as int, |EncodeChar(c)|)
  {
    var b := EncodeChar(c) + rest;
    assert b[..|EncodeChar(c)|] == EncodeChar(c);
  }

  /** Different texts have different encodings. */
  lemma {:induction false} EncodeInjective(s: string, t: string)
    requires Encode(s) == Encode(t)
    ensures s == t
  {
    if s == [] || t == [] {
    } else {
      LeadingPointOfEncoding(s[0], Encode(s[1..]));
      LeadingPointOfEncoding(t[0], Encode(t[1..]));
      assert s[0] == t[0];
      var n := |EncodeChar(s[0])|;
      assert Encode(s)[n..] == Encode(s[1..]);
      assert Encode(t)[n..] == Encode(t[1..]);
      EncodeInjective(s[1..], t[1..]);
      assert s == [s[0]] + s[1..] && t == [t[0]] + t[1..];
    }
  }

  lemma {:induction false} EncodeLength(s: string)
    ensures |s| <= |Encode(s)| <= 4 * |s|
  {
    if s == [] {
    } else {
      EncodeLength(s[1..]);
    }
  }
}
