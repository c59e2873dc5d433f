/** Base64 as in section 4 of RFC 4648, with the decoders of both languages. */
module Base64 {
  import opened Basics
  import opened Strings

  function Symbol(v: int): (c: char)
    requires 0 <= v < 64
    ensures Value(c) == Some(v)
  {
    if v < 26 then ('A' as int + v) as char
    else if v < 52 then ('a' as int + v - 26) as char
    else if v < 62 then ('0' as int + v - 52) as char
    else if v == 62 then '+' else '/'
  }

  function Value(c: char): Option<int>
  {
    if 'A' <= c <= 'Z' then Some(c as int - 'A' as int)
    else if 'a' <= c <= 'z' then Some(c as int - 'a' as int + 26)
    else if '0' <= c <= '9' then Some(c as int - '0' as int + 52)
    else if c == '+' then Some(62)
    else if c == '/' then Some(63)
    else None
  }

  /** The four symbols of three octets. */
  function Quantum(a: byte, b: byte, c: byte): string
  {
    var (x, y, z) := (a as int, b as int, c as int);
    [Symbol(x / 4), Symbol(x % 4 * 16 + y / 16), Symbol(y % 16 * 4 + z / 64), Symbol(z % 64)]
  }

  function Encode(data: seq<byte>): string
  {
    if data == [] then ""
    else if |data| == 1 then Quantum(data[0], 0, 0)[..2] + "=="
    else if |data| == 2 then Quantum(data[0], data[1], 0)[..3] + "="
    else Quantum(data[0], data[1], data[2]) + Encode(data[3..])
  }

  /** Both decoders want whole groups of four with padding only at the very end,
      and neither looks at the unused low bits of a padded group. */
  function Decode(text: string): Option<seq<byte>>
  {
    if text == "" then Some([])
    else if |text| < 4 then None
    else
      var (a, b, c, d) := (Value(text[0]), Value(text[1]), Value(text[2]), Value(text[3]));
      if a.None? || b.None? then None
      else
        var first := a.value * 4 + b.value / 16;
        if text[3] == '=' && |text| == 4 then
          if text[2] == '=' then Some([Octet(first)])
          else if c.None? then None
          else Some([Octet(first), Octet(b.value % 16 * 16 + c.value / 4)])
        else if c.None? || d.None? then None
        else
          match Decode(text[4..])
          case None => None
          case Some(rest) =>
            Some([Octet(first), Octet(b.value % 16 * 16 + c.value / 4), Octet(c.value % 4 * 64 + d.value)] + rest)
  }

  function Octet(v: int): byte
  {
    if 0 <= v < 256 then v as byte else 0
  }

  /** Go's decoder passes over line breaks wherever they stand. */
  function WithoutLineBreaks(text: string): string
  {
    if text == "" then ""
    else (if text[0] == '\r' || text[0] == '\n' then "" else [text[0]]) + WithoutLineBreaks(text[1..])
  }

  function DecodeGo(text: string): Option<seq<byte>>
  {
    Decode(WithoutLineBreaks(text))
  }

  predicate IsCode(c: char)
  {
    Value(c).Some? || c == '='
  }

  predicate AllCode(text: string)
  {
    forall i :: 0 <= i < |text| ==> IsCode(text[i])
  }

  lemma QuantumIsCode(a: byte, b: byte, c: byte)
    ensures var q := Quantum(a, b, c); AllCode(q) && AllCode(q[..2] + "==") && AllCode(q[..3] + "=")
  {
    var q := Quantum(a, b, c);
    assert Value(q[0]).Some? && Value(q[1]).Some? && Value(q[2]).Some? && Value(q[3]).Some?;
  }

  lemma {:induction false} EncodeIsCode(data: seq<byte>)
    ensures AllCode(Encode(data))
    ensures |Encode(data)| == (|data| + 2) / 3 * 4
  {
    if |data| == 1 {
      QuantumIsCode(data[0], 0, 0);
    } else if |data| == 2 {
      QuantumIsCode(data[0], data[1], 0);
    } else if |data| >= 3 {
      QuantumIsCode(data[0], data[1], data[2]);
      EncodeIsCode(data[3..]);
      OneMoreGroup(Quantum(data[0], data[1], data[2]), Encode(data[3..]), |data|);
    }
  }

  lemma OneMoreGroup(q: string, others: string, n: nat)
    requires |q| == 4 && AllCode(q) && AllCode(others) && n >= 3 && |others| == (n - 3 + 2) / 3 * 4
    ensures AllCode(q + others) && |q + others| == (n + 2) / 3 * 4
  {
    assert (n + 2) / 3 == (n - 1) / 3 + 1;
  }

  /** `q` spells the octets `a`, `b`, `c`. */
  predicate Spells(q: string, a: byte, b: byte, c: byte)
  {
    && |q| == 4
    && Value(q[0]).Some? && Value(q[1]).Some? && Value(q[2]).Some? && Value(q[3]).Some?
    && Octet(Value(q[0]).value * 4 + Value(q[1]).value / 16) == a
    && Octet(Value(q[1]).value % 16 * 16 + Value(q[2]).value / 4) == b
    && Octet(Value(q[2]).value % 4 * 64 + Value(q[3]).value) == c
  }

  lemma QuantumSpells(a: byte, b: byte, c: byte)
    ensures Spells(Quantum(a, b, c), a, b, c)
  {
  }

  lemma DecodeSpelled(q: string, a: byte, b: byte, c: byte, rest: string)
    requires Spells(q, a, b, c)
    ensures Decode([q[0], q[1], '=', '=']) == Some([a])
    ensures Decode([q[0], q[1], q[2], '=']) == Some([a, b])
    ensures Decode(rest).Some? ==> Decode(q + rest) == Some([a, b, c] + Decode(rest).value)
  {
    DecodeGroup(q, a, b, c, rest);
  }

  lemma DecodeGroup(q: string, a: byte, b: byte, c: byte, rest: string)
    requires Spells(q, a, b, c)
    ensures Decode(rest).Some? ==> Decode(q + rest) == Some([a, b, c] + Decode(rest).value)
  {
    var text := q + rest;
    assert text[4..] == rest;
    assert text[0] == q[0] && text[1] == q[1] && text[2] == q[2] && text[3] == q[3];
    DecodeFour(text);
  }

  /** A group without padding, and what follows it. */
  lemma DecodeFour(text: string)
    requires |text| >= 4
    requires Value(text[0]).Some? && Value(text[1]).Some? && Value(text[2]).Some? && Value(text[3]).Some?
    ensures var (a, b, c, d) := (Value(text[0]).value, Value(text[1]).value, Value(text[2]).value, Value(text[3]).value);
      Decode(text[4..]).Some? ==>
        Decode(text) == Some([Octet(a * 4 + b / 16), Octet(b % 16 * 16 + c / 4), Octet(c % 4 * 64 + d)]
                             + Decode(text[4..]).value)
  {
    assert Value('=').None?;
  }

  lemma RoundTrip1(data: seq<byte>)
    requires |data| == 1
    ensures Decode(Encode(data)) == Some(data)
  {
    var q := Quantum(data[0], 0, 0);
    QuantumSpells(data[0], 0, 0);
    DecodeSpelled(q, data[0], 0, 0, "");
    assert Encode(data) == [q[0], q[1], '=', '='];
    assert data == [data[0]];
  }

  lemma RoundTrip2(data: seq<byte>)
    requires |data| == 2
    ensures Decode(Encode(data)) == Some(data)
  {
    var q := Quantum(data[0], data[1], 0);
    QuantumSpells(data[0], data[1], 0);
    DecodeSpelled(q, data[0], data[1], 0, "");
    assert Encode(data) == [q[0], q[1], q[2], '='];
    assert data == [data[0], data[1]];
  }

  /** The same text, except that the last symbol before padding may have other
      unused bits. */
  ghost predicate SameButUnused(text: string, code: string)
  {
    |text| == |code| && forall i :: 0 <= i < |text| ==> SameAt(text, code, i)
  }

  predicate SameAt(text: string, code: string, i: int)
    requires 0 <= i < |text| == |code|
  {
    text[i] == code[i] || (i + 1 < |text| && text[i + 1] == '=' && text[i] != '=')
  }

  lemma SymbolOf(c: char)
    requires Value(c).Some?
    ensures 0 <= Value(c).value < 64 && Symbol(Value(c).value) == c
  {
  }

  /** Four times six bits, taken apart into octets and put together again. */
  lemma BitsBack(a: int, b: int, c: int, d: int)
    requires 0 <= a < 64 && 0 <= b < 64 && 0 <= c < 64 && 0 <= d < 64
    ensures var (x, y, z) := (a * 4 + b / 16, b % 16 * 16 + c / 4, c % 4 * 64 + d);
      && 0 <= x < 256 && 0 <= y < 256 && 0 <= z < 256
      && x / 4 == a && x % 4 * 16 + y / 16 == b && y % 16 * 4 + z / 64 == c && z % 64 == d
  {
  }

  lemma QuantumOf(a: int, b: int, c: int, d: int)
    requires 0 <= a < 64 && 0 <= b < 64 && 0 <= c < 64 && 0 <= d < 64
    ensures Quantum(Octet(a * 4 + b / 16), Octet(b % 16 * 16 + c / 4), Octet(c % 4 * 64 + d)) ==
            [Symbol(a), Symbol(b), Symbol(c), Symbol(d)]
  {
    BitsBack(a, b, c, d);
  }

  lemma GroupAgrees(q: string)
    requires |q| == 4 && Value(q[0]).Some? && Value(q[1]).Some? && Value(q[2]).Some? && Value(q[3]).Some?
    ensures var (a, b, c, d) := (Value(q[0]).value, Value(q[1]).value, Value(q[2]).value, Value(q[3]).value);
      Quantum(Octet(a * 4 + b / 16), Octet(b % 16 * 16 + c / 4), Octet(c % 4 * 64 + d)) == q
  {
    SymbolOf(q[0]);
    SymbolOf(q[1]);
    SymbolOf(q[2]);
    SymbolOf(q[3]);
    assert q == [q[0], q[1], q[2], q[3]];
    QuantumOf(Value(q[0]).value, Value(q[1]).value, Value(q[2]).value, Value(q[3]).value);
  }

  /** One octet: the first symbol is as it was. */
  lemma TwoPadsAgree(text: string)
    requires |text| == 4 && text[2] == '=' && text[3] == '=' && Value(text[0]).Some? && Value(text[1]).Some?
    ensures SameButUnused(text, Encode([Octet(Value(text[0]).value * 4 + Value(text[1]).value / 16)]))
  {
    var a, b := Value(text[0]).value, Value(text[1]).value;
    SymbolOf(text[0]);
    SymbolOf(text[1]);
    BitsBack(a, b, 0, 0);
  }

  /** Two octets: the first two symbols are as they were. */
  lemma OnePadAgrees(text: string)
    requires |text| == 4 && text[3] == '='
    requires Value(text[0]).Some? && Value(text[1]).Some? && Value(text[2]).Some?
    ensures var (a, b, c) := (Value(text[0]).value, Value(text[1]).value, Value(text[2]).value);
      SameButUnused(text, Encode([Octet(a * 4 + b / 16), Octet(b % 16 * 16 + c / 4)]))
  {
    SymbolOf(text[0]);
    SymbolOf(text[1]);
    SymbolOf(text[2]);
    BitsBack(Value(text[0]).value, Value(text[1]).value, Value(text[2]).value, 0);
  }

  lemma AfterGroup(q: string, text: string, code: string)
    requires |q| == 4 && SameButUnused(text, code)
    ensures SameButUnused(q + text, q + code)
  {
    forall i | 0 <= i < 4 + |text| ensures SameAt(q + text, q + code, i) {
      if i >= 4 {
        assert SameAt(text, code, i - 4);
      }
    }
  }

  /** A whole group is decoded to its three octets. */
  lemma GroupDecodes(q: string, text: string)
    requires |q| == 4 && (text == "" ==> q[3] != '=') && Decode(q + text).Some?
    ensures Decode(text).Some?
    ensures var data := Decode(q + text).value;
      |data| >= 3 && data[3..] == Decode(text).value && Quantum(data[0], data[1], data[2]) == q
  {
    assert (q + text)[4..] == text;
    GroupAgrees(q);
    assert Decode(q + text).value[3..] == Decode(text).value;
  }

  lemma TwoPadsDecode(text: string)
    requires |text| == 4 && text[2] == '=' && text[3] == '=' && Decode(text).Some?
    ensures Value(text[0]).Some? && Value(text[1]).Some?
    ensures Decode(text).value == [Octet(Value(text[0]).value * 4 + Value(text[1]).value / 16)]
  {
  }

  lemma OnePadDecodes(text: string)
    requires |text| == 4 && text[2] != '=' && text[3] == '=' && Decode(text).Some?
    ensures Value(text[0]).Some? && Value(text[1]).Some? && Value(text[2]).Some?
    ensures var (a, b, c) := (Value(text[0]).value, Value(text[1]).value, Value(text[2]).value);
      Decode(text).value == [Octet(a * 4 + b / 16), Octet(b % 16 * 16 + c / 4)]
  {
  }

  lemma GroupAndRest(q: string, text: string)
    requires |q| == 4 && (text == "" ==> q[3] != '=') && Decode(q + text).Some? && Decode(text).Some?
    requires SameButUnused(text, Encode(Decode(text).value))
    ensures SameButUnused(q + text, Encode(Decode(q + text).value))
  {
    GroupDecodes(q, text);
    AfterGroup(q, text, Encode(Decode(text).value));
  }

  /** Nothing is decoded but what encoding writes, up to unused bits. */
  lemma {:induction false} DecodesOnlyCode(text: string)
    requires Decode(text).Some?
    ensures SameButUnused(text, Encode(Decode(text).value))
  {
    if text == "" {
    } else if text[3] == '=' && |text| == 4 {
      if text[2] == '=' {
        TwoPadsDecode(text);
        TwoPadsAgree(text);
      } else {
        OnePadDecodes(text);
        OnePadAgrees(text);
      }
    } else {
      var q, rest := text[..4], text[4..];
      assert q + rest == text;
      GroupDecodes(q, rest);
      DecodesOnlyCode(rest);
      GroupAndRest(q, rest);
    }
  }

  /** Decoding inverts encoding on every octet string. */
  lemma {:induction false} RoundTrip(data: seq<byte>)
    ensures Decode(Encode(data)) == Some(data)
  {
    if |data| == 1 {
      RoundTrip1(data);
    } else if |data| == 2 {
      RoundTrip2(data);
    } else if |data| >= 3 {
      RoundTrip(data[3..]);
      QuantumSpells(data[0], data[1], data[2]);
      DecodeSpelled(Quantum(data[0], data[1], data[2]), data[0], data[1], data[2], Encode(data[3..]));
      assert data == [data[0], data[1], data[2]] + data[3..];
    }
  }

  lemma {:induction false} NoLineBreaksToDrop(text: string)
    requires forall c :: c in text ==> IsCode(c)
    ensures WithoutLineBreaks(text) == text
  {
    if text == "" {
    } else {
      assert IsCode(text[0]);
      NoLineBreaksToDrop(text[1..]);
    }
  }

  /** Go reads back what either language encodes. */
  lemma RoundTripGo(data: seq<byte>)
    ensures DecodeGo(Encode(data)) == Some(data)
  {
    EncodeIsCode(data);
    NoLineBreaksToDrop(Encode(data));
    RoundTrip(data);
  }

  lemma SpaceIsNotCode(c: char)
    ensures IsSpaceGo(c) || IsSpacePython(c) ==> !IsCode(c)
  {
  }

  /** Trimming takes white space off a code and leaves the code. */
  lemma TrimsToCode(space: char -> bool, code: string, before: string, after: string)
    requires space == IsSpaceGo || space == IsSpacePython
    requires AllCode(code) && forall c :: c in before || c in after ==> space(c)
    ensures Trim(space, before + code + after) == code
  {
    if code != "" {
      SpaceIsNotCode(code[0]);
      SpaceIsNotCode(code[|code| - 1]);
    }
    TrimTo(space, before, code, after);
  }

  /** A character outside the code makes a text unreadable. */
  lemma {:induction false} ForeignIsRefused(text: string, i: nat)
    requires i < |text| && !IsCode(text[i])
    ensures Decode(text) == None
    decreases |text|
  {
    if |text| > 4 && i >= 4 {
      ForeignIsRefused(text[4..], i - 4);
    }
  }

  /** A text that decodes has no character outside the code, and its length
      follows from the number of octets up to the last group. */
  lemma {:induction false} DecodedIsCode(text: string)
    requires Decode(text).Some?
    ensures AllCode(text)
    ensures |text| % 4 == 0 && |text| / 4 * 3 - 2 <= |Decode(text).value| <= |text| / 4 * 3
    decreases |text|
  {
    if text != "" && !(text[3] == '=' && |text| == 4) {
      DecodedIsCode(text[4..]);
      assert forall i :: 4 <= i < |text| ==> text[i] == text[4..][i - 4];
    }
  }

  /** Dropping line breaks drops no other character. */
  lemma {:induction false} LineBreaksAreNotSolid(text: string)
    ensures Solid(IsSpaceGo, text) <= |WithoutLineBreaks(text)|
  {
    if text == "" {
    } else {
      LineBreaksAreNotSolid(text[1..]);
    }
  }

  /** White space is never part of a code. */
  lemma CodeIsSolid(text: string)
    requires AllCode(text)
    ensures Solid(IsSpaceGo, text) == Solid(IsSpacePython, text) == |text|
  {
    SolidBounds(IsSpaceGo, text);
    SolidBounds(IsSpacePython, text);
  }

  // ---------------------------------------------------------------------
  // The code itself
  // ---------------------------------------------------------------------

  /** The alphabet of table 1: three runs of characters and two more. */
  lemma Alphabet(v: nat)
    requires v < 63
    ensures Symbol(0) == 'A' && Symbol(25) == 'Z' && Symbol(26) == 'a' && Symbol(51) == 'z'
    ensures Symbol(52) == '0' && Symbol(61) == '9' && Symbol(62) == '+' && Symbol(63) == '/'
    ensures v !in {25, 51, 61, 62} ==> Symbol(v + 1) as int == Symbol(v) as int + 1
  {
  }

  /** Three octets and their four symbols are the same 24 bits. */
  lemma SameBits(a: byte, b: byte, c: byte)
    ensures var q := Quantum(a, b, c);
      && Value(q[0]).Some? && Value(q[1]).Some? && Value(q[2]).Some? && Value(q[3]).Some?
      && Value(q[0]).value * 0x40000 + Value(q[1]).value * 0x1000 + Value(q[2]).value * 0x40 + Value(q[3]).value
         == a as int * 0x10000 + b as int * 0x100 + c as int
  {
    var (x, y, z) := (a as int, b as int, c as int);
    assert x == x / 4 * 4 + x % 4 && y == y / 16 * 16 + y % 16 && z == z / 64 * 64 + z % 64;
  }

  lemma PartialExamples()
    ensures Encode([102]) == "Zg==" && Encode([102, 111]) == "Zm8="
  {
    assert Quantum(102, 0, 0)[..2] == "Zg";
    assert Quantum(102, 111, 0)[..3] == "Zm8";
  }

  lemma GroupExamples()
    ensures Quantum(102, 111, 111) == "Zm9v" && Quantum(98, 97, 114) == "YmFy"
  {
  }

  /** Test vectors of section 10. */
  lemma Examples()
    ensures Encode([]) == "" && Encode([102]) == "Zg==" && Encode([102, 111]) == "Zm8="
    ensures Encode([102, 111, 111]) == "Zm9v" && Encode([102, 111, 111, 98, 97, 114]) == "Zm9vYmFy"
  {
    PartialExamples();
    GroupExamples();
    assert [102, 111, 111][3..] == [] && [102, 111, 111, 98, 97, 114][3..] == [98, 97, 114] && [98, 97, 114][3..] == [];
  }
}
