/** Text operations of the two languages' libraries. */
module Strings {
  import opened Basics

  /** White space removed by Go's strings.TrimSpace. */
  predicate IsSpaceGo(c: char)
  {
    '\t' <= c <= '\r' || c == ' ' || c == '\U{85}' || c == '\U{a0}' || c == '\U{1680}'
    || '\U{2000}' <= c <= '\U{200a}' || c == '\U{2028}' || c == '\U{2029}' || c == '\U{202f}'
    || c == '\U{205f}' || c == '\U{3000}'
  }

  /** White space removed by Python's str.strip, which adds four separators. */
  predicate IsSpacePython(c: char)
  {
    IsSpaceGo(c) || '\U{1c}' <= c <= '\U{1f}'
  }

  function Trim(space: char -> bool, text: string): string
  {
    if text == "" then ""
    else if space(text[0]) then Trim(space, text[1..])
    else if space(text[|text| - 1]) then Trim(space, text[..|text| - 1])
    else text
  }

  /** Trimming removes exactly the white space around a text that neither starts
      nor ends with any. */
  lemma {:induction false} TrimTo(space: char -> bool, before: string, core: string, after: string)
    requires forall c :: c in before || c in after ==> space(c)
    requires core != "" ==> !space(core[0]) && !space(core[|core| - 1])
    ensures Trim(space, before + core + after) == core
    decreases |before| + |after|
  {
    var text := before + core + after;
    if before != "" {
      assert text[1..] == before[1..] + core + after;
      TrimTo(space, before[1..], core, after);
    } else if core == "" {
      if after != "" {
        assert text[1..] == before + core + after[1..];
        TrimTo(space, before, core, after[1..]);
      }
    } else if after != "" {
      assert text[0] == core[0];
      assert text[..|text| - 1] == before + core + after[..|after| - 1];
      TrimTo(space, before, core, after[..|after| - 1]);
    } else {
      assert text == core;
    }
  }

  /** How many characters are not white space. */
  function Solid(space: char -> bool, text: string): nat
  {
    if text == "" then 0 else (if space(text[0]) then 0 else 1) + Solid(space, text[1..])
  }

  lemma {:induction false} SolidConcat(space: char -> bool, a: string, b: string)
    ensures Solid(space, a + b) == Solid(space, a) + Solid(space, b)
    decreases |a|
  {
    if a == "" {
      assert a + b == b;
    } else {
      assert (a + b)[1..] == a[1..] + b;
      SolidConcat(space, a[1..], b);
    }
  }

  /** Trimming loses white space only. */
  lemma {:induction false} TrimKeepsSolid(space: char -> bool, text: string)
    ensures Solid(space, Trim(space, text)) == Solid(space, text)
    decreases |text|
  {
    if text == "" {
    } else {
      if space(text[0]) {
        TrimKeepsSolid(space, text[1..]);
      } else if space(text[|text| - 1]) {
        var front, last := text[..|text| - 1], [text[|text| - 1]];
        assert text == front + last;
        SolidConcat(space, front, last);
        TrimKeepsSolid(space, front);
      }
    }
  }

  lemma {:induction false} SolidBounds(space: char -> bool, text: string)
    ensures Solid(space, text) <= |text|
    ensures Solid(space, text) == 0 <==> forall i :: 0 <= i < |text| ==> space(text[i])
    ensures Solid(space, text) == |text| <==> forall i :: 0 <= i < |text| ==> !space(text[i])
    decreases |text|
  {
    if text == "" {
    } else {
      SolidBounds(space, text[1..]);
      assert forall i :: 1 <= i < |text| ==> text[i] == text[1..][i - 1];
    }
  }

  /** The lines of a text, each with its line break. */
  function Unlines(lines: seq<string>): string
  {
    if lines == [] then "" else lines[0] + "\n" + Unlines(lines[1..])
  }

  /** `"\n".join(lines)`. */
  function Join(lines: seq<string>): string
  {
    if lines == [] then ""
    else if |lines| == 1 then lines[0]
    else lines[0] + "\n" + Join(lines[1..])
  }

  lemma {:induction false} JoinIsUnlines(lines: seq<string>)
    requires lines != []
    ensures Join(lines) + "\n" == Unlines(lines)
    ensures Join(lines + [""]) == Unlines(lines)
  {
    if |lines| == 1 {
      assert Unlines(lines[1..]) == "";
      assert (lines + [""])[1..] == [""];
    } else {
      JoinIsUnlines(lines[1..]);
      assert (lines + [""])[1..] == lines[1..] + [""];
      assert Join(lines) + "\n" == lines[0] + "\n" + (Join(lines[1..]) + "\n");
    }
  }

  /** The first and last characters of joined lines. */
  lemma {:induction false} JoinEnds(lines: seq<string>)
    requires lines != [] && lines[0] != "" && lines[|lines| - 1] != ""
    ensures Join(lines) != ""
    ensures Join(lines)[0] == lines[0][0]
    ensures var end := lines[|lines| - 1]; Join(lines)[|Join(lines)| - 1] == end[|end| - 1]
  {
    if |lines| > 1 {
      JoinLast(lines);
    }
  }

  lemma {:induction false} JoinLast(lines: seq<string>)
    requires lines != [] && lines[|lines| - 1] != ""
    ensures var end := lines[|lines| - 1]; Join(lines) != "" && Join(lines)[|Join(lines)| - 1] == end[|end| - 1]
  {
    if |lines| > 1 {
      JoinLast(lines[1..]);
    }
  }

  /** How far the first line break is. */
  function LineLength(s: string): (n: nat)
    ensures n <= |s| && '\n' !in s[..n] && (n < |s| ==> s[n] == '\n')
  {
    if s == "" || s[0] == '\n' then 0
    else
      var n := LineLength(s[1..]);
      assert s[..1 + n] == [s[0]] + s[1..][..n];
      1 + n
  }

  lemma {:induction false} LineBreakFound(line: string, rest: string)
    requires '\n' !in line
    ensures LineLength(line + "\n" + rest) == |line|
  {
    var s := line + "\n" + rest;
    if line == "" {
    } else {
      assert line[0] in line;
      assert s[1..] == line[1..] + "\n" + rest;
      LineBreakFound(line[1..], rest);
    }
  }

  /** The line length lies between any start without a break and any break. */
  lemma LineLengthBounds(s: string, lo: nat, hi: nat)
    requires lo <= hi < |s| && s[hi] == '\n' && '\n' !in s[..lo]
    ensures lo <= LineLength(s) <= hi
  {
    var n := LineLength(s);
    forall i | 0 <= i < lo ensures s[i] != '\n' {
      assert s[..lo][i] == s[i];
    }
    forall i | 0 <= i < n ensures s[i] != '\n' {
      assert s[..n][i] == s[i];
    }
  }

  /** One more character of a text being read. */
  function Prepend(c: char, r: Option<(string, string)>): Option<(string, string)>
  {
    match r
    case None => None
    case Some((text, rest)) => Some(([c] + text, rest))
  }

  function Spaces(n: nat): string
  {
    if n == 0 then "" else " " + Spaces(n - 1)
  }

  /** The value of a hexadecimal digit in either case, or -1. */
  function HexValue(c: char): int
  {
    if '0' <= c <= '9' then c as int - '0' as int
    else if 'a' <= c <= 'f' then c as int - 'a' as int + 10
    else if 'A' <= c <= 'F' then c as int - 'A' as int + 10
    else -1
  }

  /** Decimal digits of a natural number. */
  function Digits(n: nat): string
  {
    if n < 10 then [('0' as int + n) as char] else Digits(n / 10) + [('0' as int + n % 10) as char]
  }

  predicate IsDigit(c: char)
  {
    '0' <= c <= '9'
  }

  /** The number written by a string of digits. */
  function Natural(digits: string): nat
    requires forall c :: c in digits ==> IsDigit(c)
  {
    if digits == "" then 0
    else
      assert IsDigit(digits[|digits| - 1]);
      Natural(digits[..|digits| - 1]) * 10 + (digits[|digits| - 1] as int - '0' as int)
  }

  lemma {:induction false} DigitsRoundTrip(n: nat)
    ensures Digits(n) != "" && forall c :: c in Digits(n) ==> IsDigit(c)
    ensures Natural(Digits(n)) == n
    ensures Digits(n)[0] == '0' ==> n == 0 && |Digits(n)| == 1
  {
    if n < 10 {
      assert Digits(n)[..0] == "";
    } else {
      DigitsRoundTrip(n / 10);
      var d := Digits(n);
      assert d[..|d| - 1] == Digits(n / 10);
    }
  }
}
