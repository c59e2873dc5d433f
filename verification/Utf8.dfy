/** UTF-8 as in section 3 of RFC 3629, for strings of Unicode scalar values. */
module Utf8 {
  import opened Basics

  function EncodeChar(c: char): (octets: seq<byte>)
    ensures 1 <= |octets| <= 4
  {
    var u := c as int;
    if u < 0x80 then [u as byte]
    else if u < 0x800 then [(0xC0 + u / 0x40) as byte, (0x80 + u % 0x40) as byte]
    else if u < 0x10000 then
      var v := u / 0x40;
      [(0xE0 + v / 0x40) as byte, (0x80 + v % 0x40) as byte, (0x80 + u % 0x40) as byte]
    else
      var (v, w) := (u / 0x40, u / 0x40 / 0x40);
      [(0xF0 + w / 0x40) as byte, (0x80 + w % 0x40) as byte, (0x80 + v % 0x40) as byte, (0x80 + u % 0x40) as byte]
  }

  function Encode(text: string): seq<byte>
  {
    if text == "" then [] else EncodeChar(text[0]) + Encode(text[1..])
  }

  /** The payload of a continuation octet, or -1. */
  function Tail(b: byte): int
  {
    if 0x80 <= b < 0xC0 then b as int - 0x80 else -1
  }

  /** How many octets a sequence starting with this one has, or 0. */
  function Length(lead: byte): int
  {
    if lead < 0x80 then 1
    else if lead < 0xC0 then 0
    else if lead < 0xE0 then 2
    else if lead < 0xF0 then 3
    else if lead < 0xF8 then 4
    else 0
  }

  /** The code point of one sequence, or -1 when a continuation is wrong. */
  function CodePoint(s: seq<byte>): int
    requires 1 <= |s| <= 4
  {
    var a := s[0] as int;
    if |s| == 1 then a
    else if Tail(s[1]) < 0 then -1
    else if |s| == 2 then (a - 0xC0) * 0x40 + Tail(s[1])
    else if Tail(s[2]) < 0 then -1
    else if |s| == 3 then (a - 0xE0) * 0x1000 + Tail(s[1]) * 0x40 + Tail(s[2])
    else if Tail(s[3]) < 0 then -1
    else (a - 0xF0) * 0x40000 + Tail(s[1]) * 0x1000 + Tail(s[2]) * 0x40 + Tail(s[3])
  }

  /** Surrogates, overlong forms and values past the last plane are refused. */
  predicate WellFormed(u: int, length: int)
  {
    && (0 <= u < 0xD800 || 0xE000 <= u < 0x110000)
    && (length == 2 ==> 0x80 <= u) && (length == 3 ==> 0x800 <= u) && (length == 4 ==> 0x10000 <= u)
  }

  function Decode(octets: seq<byte>): Option<string>
  {
    if octets == [] then Some("")
    else
      var n := Length(octets[0]);
      if n == 0 || |octets| < n then None
      else
        var u := CodePoint(octets[..n]);
        if !WellFormed(u, n) then None
        else
          match Decode(octets[n..])
          case None => None
          case Some(rest) => Some([u as char] + rest)
  }

  lemma CharRoundTrip(c: char)
    ensures var s := EncodeChar(c);
      && Length(s[0]) == |s|
      && CodePoint(s) == c as int
      && WellFormed(c as int, |s|)
  {
    var u := c as int;
    var v, w := u / 0x40, u / 0x40 / 0x40;
    assert u == v * 0x40 + u % 0x40 && v == w * 0x40 + v % 0x40 && w == w / 0x40 * 0x40 + w % 0x40;
  }

  /** Decoding inverts encoding on every string. */
  lemma {:induction false} RoundTrip(text: string)
    ensures Decode(Encode(text)) == Some(text)
  {
    if text == "" {
    } else {
      RoundTrip(text[1..]);
      CharRoundTrip(text[0]);
      var s, octets := EncodeChar(text[0]), Encode(text);
      assert octets[..|s|] == s && octets[|s|..] == Encode(text[1..]);
      assert Length(octets[0]) == |s|;
      assert text == [CodePoint(s) as char] + text[1..];
    }
  }

  lemma CharDecodes(s: seq<byte>)
    requires 1 <= |s| <= 4 && Length(s[0]) == |s| && WellFormed(CodePoint(s), |s|)
    ensures EncodeChar(CodePoint(s) as char) == s
  {
    var u := CodePoint(s);
    if |s| == 2 {
      assert u / 0x40 == s[0] as int - 0xC0 && u % 0x40 == Tail(s[1]);
    } else if |s| == 3 {
      assert u / 0x40 == (s[0] as int - 0xE0) * 0x40 + Tail(s[1]) && u % 0x40 == Tail(s[2]);
    } else if |s| == 4 {
      assert u / 0x40 == (s[0] as int - 0xF0) * 0x1000 + Tail(s[1]) * 0x40 + Tail(s[2]) && u % 0x40 == Tail(s[3]);
      assert u / 0x40 / 0x40 == (s[0] as int - 0xF0) * 0x40 + Tail(s[1]) && u / 0x40 % 0x40 == Tail(s[2]);
    }
  }

  /** Octets are decoded exactly if they are the encoding of a string. */
  lemma {:induction false} DecodesExactly(octets: seq<byte>, text: string)
    ensures Decode(octets) == Some(text) <==> octets == Encode(text)
    decreases |octets|
  {
    RoundTrip(text);
    if octets != [] && Decode(octets) == Some(text) {
      var n := Length(octets[0]);
      CharDecodes(octets[..n]);
      DecodesExactly(octets[n..], text[1..]);
      assert octets == octets[..n] + octets[n..];
    }
  }

  /** Sequences of one to four octets; U+2262 is an example of section 7. */
  lemma Examples()
    ensures EncodeChar('A') == [0x41] && EncodeChar('\U{e9}') == [0xC3, 0xA9]
    ensures EncodeChar('\U{2262}') == [0xE2, 0x89, 0xA2] && EncodeChar('\U{20ac}') == [0xE2, 0x82, 0xAC]
    ensures EncodeChar('\U{1f600}') == [0xF0, 0x9F, 0x98, 0x80]
  {
  }
}
