/** UTF-8 (section 3 of RFC 3629): the bytes of a text and the strict reader of them. */
module Utf8 {
  import opened Common

  function EncodeChar(c: char): (b: bytes)
    ensures 1 <= |b| <= 4
  {
    var v := c as int;
    if v < 0x80 then [v]
    else if v < 0x800 then [0xC0 + v / 0x40, 0x80 + v % 0x40]
    else if v < 0x1_0000 then [0xE0 + v / 0x40 / 0x40, 0x80 + v / 0x40 % 0x40, 0x80 + v % 0x40]
    else [0xF0 + v / 0x40 / 0x40 / 0x40, 0x80 + v / 0x40 / 0x40 % 0x40, 0x80 + v / 0x40 % 0x40, 0x80 + v % 0x40]
  }

  function Encode(s: string): bytes {
    if s == "" then [] else EncodeChar(s[0]) + Encode(s[1..])
  }

  predicate Continuation(b: byte) {
    0x80 <= b < 0xC0
  }

  /** Six more bits. */
  function Join(high: nat, low: nat): nat {
    high * 0x40 + low
  }

  /** The value of the first character and its length; overlong forms and surrogates are rejected. */
  function DecodeChar(b: bytes): (r: Option<(char, nat)>)
    ensures r.Some? ==> 1 <= r.value.1 <= |b|
  {
    if b == [] then None
    else if b[0] < 0x80 then Some((b[0] as char, 1))
    else if 0xC2 <= b[0] < 0xE0 && |b| >= 2 && Continuation(b[1]) then
      Some((Join(b[0] - 0xC0, b[1] - 0x80) as char, 2))
    else if 0xE0 <= b[0] < 0xF0 && |b| >= 3 && Continuation(b[1]) && Continuation(b[2]) then
      var v := Join(Join(b[0] - 0xE0, b[1] - 0x80), b[2] - 0x80);
      if v < 0x800 || 0xD800 <= v < 0xE000 then None else Some((v as char, 3))
    else if 0xF0 <= b[0] < 0xF5 && |b| >= 4 && Continuation(b[1]) && Continuation(b[2]) && Continuation(b[3]) then
      var v := Join(Join(Join(b[0] - 0xF0, b[1] - 0x80), b[2] - 0x80), b[3] - 0x80);
      if v < 0x1_0000 || v >= 0x11_0000 then None else Some((v as char, 4))
    else None
  }

  /** `std::str::from_utf8` */
  function Decode(b: bytes): Option<string> {
    if b == [] then Some("")
    else
      var c := DecodeChar(b);
      if c.None? then None
      else
        var rest := Decode(b[c.value.1..]);
        if rest.None? then None else Some([c.value.0] + rest.value)
  }

  lemma DecodeCharOfEncoded(c: char, rest: bytes)
    ensures DecodeChar(EncodeChar(c) + rest) == Some((c, |EncodeChar(c)|))
  {
    var v := c as int;
    var b := EncodeChar(c) + rest;
    assert b[..|EncodeChar(c)|] == EncodeChar(c);
    var w := v / 0x40;
    var x := w / 0x40;
    if v < 0x80 {
    } else if v < 0x800 {
      assert b[0] == 0xC0 + w && b[1] == 0x80 + v % 0x40;
    } else if v < 0x1_0000 {
      assert b[0] == 0xE0 + x && b[1] == 0x80 + w % 0x40 && b[2] == 0x80 + v % 0x40;
    } else {
      assert b[0] == 0xF0 + x / 0x40 && b[1] == 0x80 + x % 0x40 && b[2] == 0x80 + w % 0x40 && b[3] == 0x80 + v % 0x40;
    }
  }

  lemma {:induction false} DecodeEncoded(s: string)
    ensures Decode(Encode(s)) == Some(s)
  {
    if s != "" {
      DecodeCharOfEncoded(s[0], Encode(s[1..]));
      assert Encode(s)[|EncodeChar(s[0])|..] == Encode(s[1..]);
      DecodeEncoded(s[1..]);
      assert [s[0]] + s[1..] == s;
    }
  }

  lemma JoinParts(high: nat, low: nat)
    requires low < 0x40
    ensures Join(high, low) / 0x40 == high && Join(high, low) % 0x40 == low
  {}

  lemma DecodedCharIsEncoded(b: bytes)
    requires DecodeChar(b).Some?
    ensures var (c, n) := DecodeChar(b).value; EncodeChar(c) == b[..n]
  {
    var (c, n) := DecodeChar(b).value;
    if n == 2 {
      JoinParts(b[0] - 0xC0, b[1] - 0x80);
    } else if n == 3 {
      JoinParts(b[0] - 0xE0, b[1] - 0x80);
      JoinParts(Join(b[0] - 0xE0, b[1] - 0x80), b[2] - 0x80);
    } else if n == 4 {
      var w := Join(b[0] - 0xF0, b[1] - 0x80);
      JoinParts(b[0] - 0xF0, b[1] - 0x80);
      JoinParts(w, b[2] - 0x80);
      JoinParts(Join(w, b[2] - 0x80), b[3] - 0x80);
    }
  }

  /** The strict reader accepts exactly the encodings of texts: no octets but those that a text is written as. */
  lemma {:induction false} DecodesExactly(b: bytes, s: string)
    ensures Decode(b) == Some(s) <==> b == Encode(s)
  {
    hide EncodeChar, DecodeChar;
    DecodeEncoded(s);
    if Decode(b) == Some(s) && b != [] {
      DecodedCharIsEncoded(b);
      var (c, n) := DecodeChar(b).value;
      DecodesExactly(b[n..], s[1..]);
      assert s[0] == c && b == b[..n] + b[n..];
    }
  }

  predicate IsAscii(s: string) {
    forall i :: 0 <= i < |s| ==> s[i] < '\U{80}'
  }

  /** An ASCII text is encoded character by character. */
  lemma {:induction false} EncodeAscii(s: string)
    requires IsAscii(s)
    ensures |Encode(s)| == |s|
    ensures forall i :: 0 <= i < |s| ==> Encode(s)[i] == s[i] as int
  {
    if s != "" { EncodeAscii(s[1..]); }
  }

  /** An ASCII octet occurs in the encoding only where the character itself occurs in the text. */
  lemma {:induction false} AsciiOctetIsAsciiChar(s: string, c: char)
    requires c < '\U{80}' && c !in s
    ensures (c as int) !in Encode(s)
  {
    if s != "" { AsciiOctetIsAsciiChar(s[1..], c); }
  }
}
