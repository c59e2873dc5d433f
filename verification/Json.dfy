/** JSON as in RFC 8259: the two indenting printers and one reference reader.
    Numbers and the two boolean literals never occur in a registry and are
    refused by the reader. */
module Json {
  import opened Basics
  import opened Strings

  datatype Json =
    | Null
    | Text(text: string)
    | List(items: seq<Json>)
    | Object(members: seq<Member>)

  datatype Member = Member(name: string, value: Json)

  /** Who prints: they differ in what they escape. */
  datatype Language = Python | Go

  // ---------------------------------------------------------------------
  // Printing
  // ---------------------------------------------------------------------

  function HexDigit(n: int): char
    requires 0 <= n < 16
  {
    if n < 10 then ('0' as int + n) as char else ('a' as int + n - 10) as char
  }

  function Hex4(u: int): string
    requires 0 <= u < 0x10000
  {
    var (p, q) := (u / 16, u / 16 / 16);
    [HexDigit(q / 16), HexDigit(q % 16), HexDigit(p % 16), HexDigit(u % 16)]
  }

  /** The \u form of a character; beyond the first plane, a surrogate pair. */
  function UnicodeEscape(c: char): string
  {
    var u := c as int;
    if u < 0x10000 then "\\u" + Hex4(u)
    else "\\u" + Hex4(0xD800 + (u - 0x10000) / 0x400) + "\\u" + Hex4(0xDC00 + (u - 0x10000) % 0x400)
  }

  function EscapeChar(language: Language, c: char): string
  {
    if c == '\"' then "\\\""
    else if c == '\\' then "\\\\"
    else if c == '\n' then "\\n"
    else if c == '\r' then "\\r"
    else if c == '\t' then "\\t"
    else if c == '\U{8}' then "\\b"
    else if c == '\U{c}' then "\\f"
    else if language.Python? then
      if ' ' <= c <= '~' then [c] else UnicodeEscape(c)
    else
      if c < ' ' || c == '<' || c == '>' || c == '&' || c == '\U{2028}' || c == '\U{2029}' then UnicodeEscape(c)
      else [c]
  }

  function Escape(language: Language, s: string): string
  {
    if s == "" then "" else EscapeChar(language, s[0]) + Escape(language, s[1..])
  }

  function NewLine(depth: nat): string
  {
    "\n" + Spaces(2 * depth)
  }

  function PrintText(language: Language, s: string): string
  {
    "\"" + (Escape(language, s) + "\"")
  }

  /** `json.dumps(..., indent=2)` and `json.MarshalIndent(..., "", "  ")`. */
  function Print(language: Language, v: Json, depth: nat): string
    decreases v, 1
  {
    match v
    case Null => "null"
    case Text(s) => PrintText(language, s)
    case List(items) => if items == [] then "[]" else "[" + PrintItems(language, items, depth + 1)
    case Object(members) => if members == [] then "{}" else "{" + PrintMembers(language, members, depth + 1)
  }

  function PrintItems(language: Language, items: seq<Json>, depth: nat): string
    requires items != [] && depth > 0
    decreases items, 0
  {
    NewLine(depth) + (Print(language, items[0], depth) +
      if |items| == 1 then NewLine(depth - 1) + "]"
      else "," + PrintItems(language, items[1..], depth))
  }

  function PrintMembers(language: Language, members: seq<Member>, depth: nat): string
    requires members != [] && depth > 0
    decreases members, 0
  {
    NewLine(depth) + (PrintText(language, members[0].name) + (": " + (Print(language, members[0].value, depth) +
      if |members| == 1 then NewLine(depth - 1) + "}"
      else "," + PrintMembers(language, members[1..], depth))))
  }

  // ---------------------------------------------------------------------
  // Reading
  // ---------------------------------------------------------------------

  function SkipWhiteSpace(s: string): (rest: string)
    ensures |rest| <= |s|
  {
    if s != "" && (s[0] == ' ' || s[0] == '\n' || s[0] == '\t' || s[0] == '\r') then SkipWhiteSpace(s[1..]) else s
  }

  /** The unit written by the four digits at the front, or -1. */
  function ReadHex4(s: string): int
  {
    if |s| < 4 || HexValue(s[0]) < 0 || HexValue(s[1]) < 0 || HexValue(s[2]) < 0 || HexValue(s[3]) < 0 then -1
    else HexValue(s[0]) * 0x1000 + HexValue(s[1]) * 0x100 + HexValue(s[2]) * 0x10 + HexValue(s[3])
  }

  /** What follows "\u". A surrogate counts only as half of a pair. */
  function ReadUnicodeEscape(s: string): (r: Option<(char, string)>)
    ensures r.Some? ==> |r.value.1| < |s|
  {
    var high := ReadHex4(s);
    if high < 0 then None
    else if !(0xD800 <= high < 0xE000) then Some((high as char, s[4..]))
    else if high >= 0xDC00 || |s| < 10 || s[4] != '\\' || s[5] != 'u' then None
    else
      var low := ReadHex4(s[6..]);
      if !(0xDC00 <= low < 0xE000) then None
      else Some(((0x10000 + (high - 0xD800) * 0x400 + (low - 0xDC00)) as char, s[10..]))
  }

  /** What follows a backslash. */
  function ReadEscape(s: string): (r: Option<(char, string)>)
    ensures r.Some? ==> |r.value.1| < |s|
  {
    if s == "" then None
    else if s[0] == '\"' || s[0] == '\\' || s[0] == '/' then Some((s[0], s[1..]))
    else if s[0] == 'b' then Some(('\U{8}', s[1..]))
    else if s[0] == 'f' then Some(('\U{c}', s[1..]))
    else if s[0] == 'n' then Some(('\n', s[1..]))
    else if s[0] == 'r' then Some(('\r', s[1..]))
    else if s[0] == 't' then Some(('\t', s[1..]))
    else if s[0] == 'u' then ReadUnicodeEscape(s[1..])
    else None
  }

  /** The rest of a string whose opening quote has been passed. */
  function ReadText(s: string): (r: Option<(string, string)>)
    ensures r.Some? ==> |r.value.1| < |s|
    decreases |s|
  {
    if s == "" || s[0] < ' ' then None
    else if s[0] == '\"' then Some(("", s[1..]))
    else if s[0] == '\\' then
      match ReadEscape(s[1..])
      case None => None
      case Some((c, rest)) => Prepend(c, ReadText(rest))
    else Prepend(s[0], ReadText(s[1..]))
  }

  function ReadValue(s: string): (r: Option<(Json, string)>)
    ensures r.Some? ==> |r.value.1| < |s|
    decreases |s|, 0
  {
    if s == "" then None
    else if s[0] == 'n' then
      if |s| >= 4 && s[..4] == "null" then Some((Null, s[4..])) else None
    else if s[0] == '\"' then
      match ReadText(s[1..])
      case None => None
      case Some((text, rest)) => Some((Text(text), rest))
    else if s[0] == '[' then
      var t := SkipWhiteSpace(s[1..]);
      if t != "" && t[0] == ']' then Some((List([]), t[1..]))
      else
        match ReadItems(t)
        case None => None
        case Some((items, rest)) => Some((List(items), rest))
    else if s[0] == '{' then
      var t := SkipWhiteSpace(s[1..]);
      if t != "" && t[0] == '}' then Some((Object([]), t[1..]))
      else
        match ReadMembers(t)
        case None => None
        case Some((members, rest)) => Some((Object(members), rest))
    else None
  }

  function ReadItems(s: string): (r: Option<(seq<Json>, string)>)
    ensures r.Some? ==> |r.value.1| < |s|
    decreases |s|, 1
  {
    match ReadValue(s)
    case None => None
    case Some((first, rest)) =>
      var t := SkipWhiteSpace(rest);
      if t != "" && t[0] == ']' then Some(([first], t[1..]))
      else if t != "" && t[0] == ',' then
        match ReadItems(SkipWhiteSpace(t[1..]))
        case None => None
        case Some((others, end)) => Some(([first] + others, end))
      else None
  }

  function ReadMembers(s: string): (r: Option<(seq<Member>, string)>)
    ensures r.Some? ==> |r.value.1| < |s|
    decreases |s|, 1
  {
    if s == "" || s[0] != '\"' then None
    else
      match ReadText(s[1..])
      case None => None
      case Some((name, rest)) =>
        var colon := SkipWhiteSpace(rest);
        if colon == "" || colon[0] != ':' then None
        else
          match ReadValue(SkipWhiteSpace(colon[1..]))
          case None => None
          case Some((first, after)) =>
            var t := SkipWhiteSpace(after);
            if t != "" && t[0] == '}' then Some(([Member(name, first)], t[1..]))
            else if t != "" && t[0] == ',' then
              match ReadMembers(SkipWhiteSpace(t[1..]))
              case None => None
              case Some((others, end)) => Some(([Member(name, first)] + others, end))
            else None
  }

  /** A whole document: one value with blanks around it. */
  function Parse(text: string): Option<Json>
  {
    match ReadValue(SkipWhiteSpace(text))
    case None => None
    case Some((v, rest)) => if SkipWhiteSpace(rest) == "" then Some(v) else None
  }

  // ---------------------------------------------------------------------
  // Either printer is undone by the reader
  // ---------------------------------------------------------------------

  lemma HexDigitRoundTrip(n: int)
    requires 0 <= n < 16
    ensures HexValue(HexDigit(n)) == n
  {
  }

  lemma ReadHexDigits(a: int, b: int, c: int, d: int, rest: string)
    requires 0 <= a < 16 && 0 <= b < 16 && 0 <= c < 16 && 0 <= d < 16
    ensures ReadHex4([HexDigit(a), HexDigit(b), HexDigit(c), HexDigit(d)] + rest) ==
            a * 0x1000 + b * 0x100 + c * 0x10 + d
  {
    HexDigitRoundTrip(a);
    HexDigitRoundTrip(b);
    HexDigitRoundTrip(c);
    HexDigitRoundTrip(d);
    var s := [HexDigit(a), HexDigit(b), HexDigit(c), HexDigit(d)] + rest;
    assert s[0] == HexDigit(a) && s[1] == HexDigit(b) && s[2] == HexDigit(c) && s[3] == HexDigit(d);
  }

  lemma HexRoundTrip(u: int, rest: string)
    requires 0 <= u < 0x10000
    ensures ReadHex4(Hex4(u) + rest) == u
  {
    var p, q := u / 16, u / 16 / 16;
    ReadHexDigits(q / 16, q % 16, p % 16, u % 16, rest);
  }

  lemma ReadPair(high: int, low: int, s: string, rest: string)
    requires 0xD800 <= high < 0xDC00 <= low < 0xE000
    requires |s| == 10 && s[4] == '\\' && s[5] == 'u'
    requires ReadHex4(s + rest) == high && ReadHex4((s + rest)[6..]) == low
    ensures ReadUnicodeEscape(s + rest) ==
            Some(((0x10000 + (high - 0xD800) * 0x400 + (low - 0xDC00)) as char, rest))
  {
    assert (s + rest)[10..] == rest;
  }

  lemma PairRoundTrip(high: int, low: int, rest: string)
    requires 0xD800 <= high < 0xDC00 <= low < 0xE000
    ensures ReadUnicodeEscape(Hex4(high) + "\\u" + Hex4(low) + rest) ==
            Some(((0x10000 + (high - 0xD800) * 0x400 + (low - 0xDC00)) as char, rest))
  {
    var s := Hex4(high) + "\\u" + Hex4(low);
    assert s + rest == Hex4(high) + ("\\u" + Hex4(low) + rest);
    HexRoundTrip(high, "\\u" + Hex4(low) + rest);
    assert (s + rest)[6..] == Hex4(low) + rest;
    HexRoundTrip(low, rest);
    ReadPair(high, low, s, rest);
  }

  lemma UnicodeEscapeRoundTrip(c: char, rest: string)
    ensures |UnicodeEscape(c)| >= 2 && UnicodeEscape(c)[..2] == "\\u"
    ensures ReadUnicodeEscape(UnicodeEscape(c)[2..] + rest) == Some((c, rest))
  {
    var u, e := c as int, UnicodeEscape(c);
    if u < 0x10000 {
      HexRoundTrip(u, rest);
      assert e[2..] == Hex4(u);
      assert (Hex4(u) + rest)[4..] == rest;
    } else {
      var high, low := 0xD800 + (u - 0x10000) / 0x400, 0xDC00 + (u - 0x10000) % 0x400;
      var s := Hex4(high) + "\\u" + Hex4(low);
      assert e == "\\u" + s;
      assert e[2..] == s;
      PairRoundTrip(high, low, rest);
    }
  }

  lemma ReadEscaped(s: string, c: char, rest: string)
    requires s != "" && s[0] == '\\' && ReadEscape(s[1..]) == Some((c, rest))
    ensures ReadText(s) == Prepend(c, ReadText(rest))
  {
  }

  lemma ReadPlain(c: char, rest: string)
    requires ' ' <= c && c != '\"' && c != '\\'
    ensures ReadText([c] + rest) == Prepend(c, ReadText(rest))
  {
    assert ([c] + rest)[1..] == rest;
  }

  lemma BackslashU(e: string, rest: string)
    requires |e| >= 2 && e[..2] == "\\u"
    ensures (e + rest)[0] == '\\' && |e + rest| >= 2 && (e + rest)[1..][0] == 'u'
    ensures (e + rest)[1..][1..] == e[2..] + rest
  {
    assert e[0] == e[..2][0] && e[1] == e[..2][1];
  }

  lemma ReadEscapedUnicode(s: string, c: char, rest: string)
    requires |s| >= 2 && s[0] == '\\' && s[1..][0] == 'u'
    requires ReadUnicodeEscape(s[1..][1..]) == Some((c, rest))
    ensures ReadText(s) == Prepend(c, ReadText(rest))
  {
    ReadEscaped(s, c, rest);
  }

  lemma ReadLong(c: char, rest: string)
    ensures ReadText(UnicodeEscape(c) + rest) == Prepend(c, ReadText(rest))
  {
    UnicodeEscapeRoundTrip(c, rest);
    BackslashU(UnicodeEscape(c), rest);
    ReadEscapedUnicode(UnicodeEscape(c) + rest, c, rest);
  }

  /** The escapes of two characters, as letter and meaning. */
  predicate Abbreviates(letter: char, c: char)
  {
    (letter == c && c in "\"\\") || (letter == 'n' && c == '\n') || (letter == 'r' && c == '\r')
    || (letter == 't' && c == '\t') || (letter == 'b' && c == '\U{8}') || (letter == 'f' && c == '\U{c}')
  }

  lemma ReadShort(letter: char, c: char, rest: string)
    requires Abbreviates(letter, c)
    ensures ReadText(['\\', letter] + rest) == Prepend(c, ReadText(rest))
  {
    var s := ['\\', letter] + rest;
    assert s[1..][0] == letter && s[1..][1..] == rest;
    ReadEscaped(s, c, rest);
  }

  lemma EscapeCharShapes(language: Language, c: char)
    ensures var e := EscapeChar(language, c);
      || e == UnicodeEscape(c)
      || (e == [c] && ' ' <= c && c != '\"' && c != '\\')
      || (|e| == 2 && e == ['\\', e[1]] && Abbreviates(e[1], c))
  {
  }

  lemma EscapeCharRoundTrip(language: Language, c: char, rest: string)
    ensures ReadText(EscapeChar(language, c) + rest) == Prepend(c, ReadText(rest))
  {
    var e := EscapeChar(language, c);
    EscapeCharShapes(language, c);
    if e == UnicodeEscape(c) {
      ReadLong(c, rest);
    } else if e == [c] {
      ReadPlain(c, rest);
    } else {
      ReadShort(e[1], c, rest);
    }
  }

  lemma {:induction false} EscapeRoundTrip(language: Language, text: string, rest: string)
    ensures ReadText(Escape(language, text) + "\"" + rest) == Some((text, rest))
  {
    var s := Escape(language, text) + "\"" + rest;
    if text == "" {
      assert s[1..] == rest;
    } else {
      var others := Escape(language, text[1..]) + "\"" + rest;
      EscapeRoundTrip(language, text[1..], rest);
      assert s == EscapeChar(language, text[0]) + others;
      EscapeCharRoundTrip(language, text[0], others);
      assert [text[0]] + text[1..] == text;
    }
  }

  lemma {:induction false} SkipSpaces(n: nat, rest: string)
    requires rest != "" && rest[0] !in " \n\t\r"
    ensures SkipWhiteSpace(Spaces(n) + rest) == rest
  {
    var s := Spaces(n) + rest;
    if n == 0 {
      assert s == rest;
    } else {
      assert s[1..] == Spaces(n - 1) + rest;
      SkipSpaces(n - 1, rest);
    }
  }

  lemma SkipNewLine(depth: nat, rest: string)
    requires rest != "" && rest[0] !in " \n\t\r"
    ensures SkipWhiteSpace(NewLine(depth) + rest) == rest
  {
    assert (NewLine(depth) + rest)[1..] == Spaces(2 * depth) + rest;
    SkipSpaces(2 * depth, rest);
  }

  lemma PrintStarts(language: Language, v: Json, depth: nat)
    ensures Print(language, v, depth) != ""
    ensures Print(language, v, depth)[0] in "n\"[{"
  {
  }

  // How the reader advances, one rule per shape of input.

  lemma ReadList(s: string, items: seq<Json>, rest: string)
    requires s != "" && s[0] == '['
    requires var t := SkipWhiteSpace(s[1..]); t != "" && t[0] != ']' && ReadItems(t) == Some((items, rest))
    ensures ReadValue(s) == Some((List(items), rest))
  {
  }

  lemma ReadObject(s: string, members: seq<Member>, rest: string)
    requires s != "" && s[0] == '{'
    requires var t := SkipWhiteSpace(s[1..]); t != "" && t[0] != '}' && ReadMembers(t) == Some((members, rest))
    ensures ReadValue(s) == Some((Object(members), rest))
  {
  }

  lemma ReadLastItem(s: string, v: Json, after: string, rest: string)
    requires ReadValue(s) == Some((v, after)) && SkipWhiteSpace(after) == "]" + rest
    ensures ReadItems(s) == Some(([v], rest))
  {
    assert ("]" + rest)[1..] == rest;
  }

  lemma ReadMoreItems(s: string, v: Json, after: string, others: seq<Json>, rest: string)
    requires ReadValue(s) == Some((v, "," + after)) && ReadItems(SkipWhiteSpace(after)) == Some((others, rest))
    ensures ReadItems(s) == Some(([v] + others, rest))
  {
    assert ("," + after)[1..] == after;
  }

  lemma ReadLastMember(s: string, name: string, value: string, v: Json, after: string, rest: string)
    requires s != "" && s[0] == '\"' && ReadText(s[1..]) == Some((name, ": " + value))
    requires SkipWhiteSpace(" " + value) == value && ReadValue(value) == Some((v, after))
    requires SkipWhiteSpace(after) == "}" + rest
    ensures ReadMembers(s) == Some(([Member(name, v)], rest))
  {
    assert (": " + value)[1..] == " " + value;
    assert ("}" + rest)[1..] == rest;
  }

  lemma ReadComma(s: string, name: string, colon: string, v: Json, comma: string, others: seq<Member>, rest: string)
    requires s != "" && s[0] == '\"'
    requires ReadText(s[1..]).Some? && ReadText(s[1..]).value.0 == name
    requires colon == SkipWhiteSpace(ReadText(s[1..]).value.1) && colon != "" && colon[0] == ':'
    requires var value := ReadValue(SkipWhiteSpace(colon[1..]));
      value.Some? && value.value.0 == v && comma == SkipWhiteSpace(value.value.1)
    requires comma != "" && comma[0] == ',' && ReadMembers(SkipWhiteSpace(comma[1..])) == Some((others, rest))
    ensures ReadMembers(s) == Some(([Member(name, v)] + others, rest))
  {
  }

  lemma ReadMoreMembers(
      s: string, name: string, value: string, v: Json, after: string, others: seq<Member>, rest: string)
    requires s != "" && s[0] == '\"' && ReadText(s[1..]) == Some((name, ": " + value))
    requires SkipWhiteSpace(" " + value) == value && ReadValue(value) == Some((v, "," + after))
    requires ReadMembers(SkipWhiteSpace(after)) == Some((others, rest))
    ensures ReadMembers(s) == Some(([Member(name, v)] + others, rest))
  {
    assert (": " + value)[1..] == " " + value;
    assert ("," + after)[1..] == after;
    ReadComma(s, name, ": " + value, v, "," + after, others, rest);
  }

  lemma ReadNull(rest: string)
    ensures ReadValue("null" + rest) == Some((Null, rest))
  {
    var s := "null" + rest;
    assert s[0] == 'n' && s[..4] == "null" && s[4..] == rest;
  }

  lemma ReadEmptyList(rest: string)
    ensures ReadValue("[]" + rest) == Some((List([]), rest))
  {
    var s := "[]" + rest;
    assert s[0] == '[' && s[1..] == "]" + rest && ("]" + rest)[1..] == rest;
  }

  lemma ReadEmptyObject(rest: string)
    ensures ReadValue("{}" + rest) == Some((Object([]), rest))
  {
    var s := "{}" + rest;
    assert s[0] == '{' && s[1..] == "}" + rest && ("}" + rest)[1..] == rest;
  }

  lemma TextRoundTrip(language: Language, text: string, rest: string)
    ensures ReadValue(PrintText(language, text) + rest) == Some((Text(text), rest))
  {
    var s := PrintText(language, text) + rest;
    EscapeRoundTrip(language, text, rest);
    assert s[0] == '\"' && s[1..] == Escape(language, text) + "\"" + rest;
  }

  lemma FlatRoundTrip(language: Language, v: Json, depth: nat, rest: string)
    requires v.Null? || v.Text? || v == List([]) || v == Object([])
    ensures ReadValue(Print(language, v, depth) + rest) == Some((v, rest))
  {
    match v
    case Null => ReadNull(rest);
    case Text(text) => TextRoundTrip(language, text, rest);
    case List(items) => ReadEmptyList(rest);
    case Object(members) => ReadEmptyObject(rest);
  }

  lemma OpenedBy(open: char, inner: string, rest: string)
    ensures var s := [open] + inner + rest; s[0] == open && s[1..] == inner + rest
  {
  }

  lemma {:induction false} PrintRoundTrip(language: Language, v: Json, depth: nat, rest: string)
    ensures ReadValue(Print(language, v, depth) + rest) == Some((v, rest))
    decreases v, 1
  {
    var s := Print(language, v, depth) + rest;
    if v.List? && v.items != [] {
      OpenedBy('[', PrintItems(language, v.items, depth + 1), rest);
      ItemsRoundTrip(language, v.items, depth + 1, rest);
      ReadList(s, v.items, rest);
    } else if v.Object? && v.members != [] {
      OpenedBy('{', PrintMembers(language, v.members, depth + 1), rest);
      MembersRoundTrip(language, v.members, depth + 1, rest);
      ReadObject(s, v.members, rest);
    } else {
      FlatRoundTrip(language, v, depth, rest);
    }
  }

  lemma {:induction false} ItemsRoundTrip(language: Language, items: seq<Json>, depth: nat, rest: string)
    requires items != [] && depth > 0
    ensures var t := SkipWhiteSpace(PrintItems(language, items, depth) + rest);
      t != "" && t[0] != ']' && ReadItems(t) == Some((items, rest))
    decreases items, 0
  {
    var first := Print(language, items[0], depth);
    var after := if |items| == 1 then "" else PrintItems(language, items[1..], depth) + rest;
    var tail := if |items| == 1 then NewLine(depth - 1) + ("]" + rest) else "," + after;
    PrintedItem(language, items, depth, tail, rest);
    PrintRoundTrip(language, items[0], depth, tail);
    if |items| == 1 {
      SkipNewLine(depth - 1, "]" + rest);
    } else {
      ItemsRoundTrip(language, items[1..], depth, rest);
    }
    ItemReads(language, items, depth, tail, after, rest);
  }

  lemma ItemReads(language: Language, items: seq<Json>, depth: nat, tail: string, after: string, rest: string)
    requires items != []
    requires ReadValue(Print(language, items[0], depth) + tail) == Some((items[0], tail))
    requires |items| == 1 ==> SkipWhiteSpace(tail) == "]" + rest
    requires |items| > 1 ==> tail == "," + after && ReadItems(SkipWhiteSpace(after)) == Some((items[1..], rest))
    ensures var t := Print(language, items[0], depth) + tail;
      SkipWhiteSpace(NewLine(depth) + t) == t && t != "" && t[0] != ']' && ReadItems(t) == Some((items, rest))
  {
    var t := Print(language, items[0], depth) + tail;
    ItemStarts(language, items[0], depth, tail);
    if |items| == 1 {
      ReadLastItem(t, items[0], tail, rest);
      assert items == [items[0]];
    } else {
      ReadMoreItems(t, items[0], after, items[1..], rest);
      FirstApart(items);
    }
  }

  lemma ItemStarts(language: Language, v: Json, depth: nat, tail: string)
    ensures var t := Print(language, v, depth) + tail;
      SkipWhiteSpace(NewLine(depth) + t) == t && t != "" && t[0] != ']'
  {
    var first := Print(language, v, depth);
    PrintStarts(language, v, depth);
    assert (first + tail)[0] == first[0];
    SkipNewLine(depth, first + tail);
  }

  lemma PrintedItem(language: Language, items: seq<Json>, depth: nat, tail: string, rest: string)
    requires items != [] && depth > 0
    requires tail == if |items| == 1 then NewLine(depth - 1) + ("]" + rest)
                     else "," + (PrintItems(language, items[1..], depth) + rest)
    ensures PrintItems(language, items, depth) + rest == NewLine(depth) + (Print(language, items[0], depth) + tail)
  {
    var line, first := NewLine(depth), Print(language, items[0], depth);
    var close := if |items| == 1 then NewLine(depth - 1) + "]" else "," + PrintItems(language, items[1..], depth);
    assert close + rest == tail;
    assert line + (first + close) + rest == line + (first + (close + rest));
  }

  lemma {:induction false} MembersRoundTrip(
      language: Language, members: seq<Member>, depth: nat, rest: string)
    requires members != [] && depth > 0
    ensures var t := SkipWhiteSpace(PrintMembers(language, members, depth) + rest);
      t != "" && t[0] == '\"' && ReadMembers(t) == Some((members, rest))
    decreases members, 0
  {
    var name, first := members[0].name, members[0].value;
    var close := NewLine(depth - 1) + ("}" + rest);
    var after := if |members| == 1 then "" else PrintMembers(language, members[1..], depth) + rest;
    var tail := if |members| == 1 then close else "," + after;
    assert tail == (if |members| == 1 then NewLine(depth - 1) + "}"
                    else "," + PrintMembers(language, members[1..], depth)) + rest;
    PrintedMember(language, members, depth, tail, rest);
    PrintRoundTrip(language, first, depth, tail);
    SkipNewLine(depth - 1, "}" + rest);
    if |members| > 1 {
      MembersRoundTrip(language, members[1..], depth, rest);
    }
    MemberReads(language, members, depth, tail, after, rest);
  }

  lemma MemberReads(
      language: Language, members: seq<Member>, depth: nat, tail: string, after: string, rest: string)
    requires members != [] && depth > 0
    requires var first := Print(language, members[0].value, depth);
      ReadValue(first + tail) == Some((members[0].value, tail))
    requires |members| == 1 ==> SkipWhiteSpace(tail) == "}" + rest
    requires |members| > 1 ==> tail == "," + after && ReadMembers(SkipWhiteSpace(after)) == Some((members[1..], rest))
    ensures var t := PrintText(language, members[0].name) + (": " + (Print(language, members[0].value, depth) + tail));
      SkipWhiteSpace(NewLine(depth) + t) == t && t != "" && t[0] == '\"' && ReadMembers(t) == Some((members, rest))
  {
    var name, first := members[0].name, members[0].value;
    var value := Print(language, first, depth) + tail;
    var t := PrintText(language, name) + (": " + value);
    FirstApart(members);
    MemberStarts(language, name, value, depth);
    ValueStarts(language, first, depth, tail);
    if |members| == 1 {
      ReadLastMember(t, name, value, first, tail, rest);
      assert members == [Member(name, first)];
    } else {
      ReadMoreMembers(t, name, value, first, after, members[1..], rest);
    }
  }

  lemma ValueStarts(language: Language, v: Json, depth: nat, tail: string)
    ensures var value := Print(language, v, depth) + tail; SkipWhiteSpace(" " + value) == value
  {
    var value := Print(language, v, depth) + tail;
    PrintStarts(language, v, depth);
    assert value[0] == Print(language, v, depth)[0];
    assert (" " + value)[1..] == value;
  }

  lemma PrintedMember(language: Language, members: seq<Member>, depth: nat, tail: string, rest: string)
    requires members != [] && depth > 0
    requires tail == (if |members| == 1 then NewLine(depth - 1) + "}"
                      else "," + PrintMembers(language, members[1..], depth)) + rest
    ensures PrintMembers(language, members, depth) + rest ==
            NewLine(depth) + (PrintText(language, members[0].name) +
                              (": " + (Print(language, members[0].value, depth) + tail)))
  {
    var end := if |members| == 1 then NewLine(depth - 1) + "}" else "," + PrintMembers(language, members[1..], depth);
    MovesInside(NewLine(depth), PrintText(language, members[0].name), Print(language, members[0].value, depth), end, rest);
  }

  lemma MovesInside(a: string, b: string, c: string, d: string, rest: string)
    ensures a + (b + (": " + (c + d))) + rest == a + (b + (": " + (c + (d + rest))))
  {
  }

  lemma MemberStarts(language: Language, name: string, value: string, depth: nat)
    ensures var t := PrintText(language, name) + (": " + value);
      && t != "" && t[0] == '\"'
      && ReadText(t[1..]) == Some((name, ": " + value))
      && SkipWhiteSpace(NewLine(depth) + t) == t
  {
    var t := PrintText(language, name) + (": " + value);
    SkipNewLine(depth, t);
    assert t[1..] == Escape(language, name) + "\"" + (": " + value);
    EscapeRoundTrip(language, name, ": " + value);
  }

  /** Reading what either language prints gives back the document. */
  lemma ParsePrinted(language: Language, v: Json)
    ensures Parse(Print(language, v, 0)) == Some(v)
  {
    var text := Print(language, v, 0);
    PrintStarts(language, v, 0);
    PrintRoundTrip(language, v, 0, "");
    assert text + "" == text;
  }

  lemma NewLines()
    ensures NewLine(0) == "\n" && NewLine(1) == "\n  " && NewLine(2) == "\n    "
  {
  }

  lemma PrintedPair(language: Language)
    ensures PrintText(language, "a") == "\"a\"" && PrintText(language, "b") == "\"b\""
  {
    assert Escape(language, "a") == "a" && Escape(language, "b") == "b";
  }

  lemma PrintedObject(language: Language)
    ensures Print(language, Object([Member("a", Text("b"))]), 1) == "{\n    \"a\": \"b\"\n  }"
  {
    PrintedPair(language);
    NewLines();
  }

  /** What either printer makes of an array with one small object. */
  lemma PrintedShape(language: Language)
    ensures Print(language, List([Object([Member("a", Text("b"))])]), 0) ==
            "[" + ("\n  " + ("{\n    \"a\": \"b\"\n  }" + ("\n" + "]")))
  {
    PrintedObject(language);
    NewLines();
    var entry := Object([Member("a", Text("b"))]);
    assert PrintItems(language, [entry], 1) == NewLine(1) + (Print(language, entry, 1) + (NewLine(0) + "]"));
  }

  lemma HexExamples()
    ensures Hex4(0xe9) == "00e9" && Hex4(0x3c) == "003c"
  {
  }

  lemma HighHex()
    ensures Hex4(0xd83d) == "d83d"
  {
  }

  lemma LowHex()
    ensures Hex4(0xde00) == "de00"
  {
  }

  lemma SurrogateExample()
    ensures UnicodeEscape('\U{1f600}') == "\\ud83d\\ude00"
  {
    var c := '\U{1f600}';
    assert (c as int - 0x10000) / 0x400 == 0x3d && (c as int - 0x10000) % 0x400 == 0x200;
    HighHex();
    LowHex();
  }

  /** Python writes printable ASCII only; Go no control character, and none that
      means something in HTML or ends a line of JavaScript. */
  predicate IsSafe(language: Language, c: char)
  {
    match language
    case Python => ' ' <= c <= '~'
    case Go => ' ' <= c && c !in {'<', '>', '&', '\U{2028}', '\U{2029}'}
  }

  predicate AllSafe(language: Language, s: string)
  {
    forall i :: 0 <= i < |s| ==> IsSafe(language, s[i])
  }

  lemma HexIsSafe(language: Language, u: int)
    requires 0 <= u < 0x10000
    ensures AllSafe(language, Hex4(u))
  {
    var (p, q) := (u / 16, u / 16 / 16);
    DigitIsSafe(language, q / 16);
    DigitIsSafe(language, q % 16);
    DigitIsSafe(language, p % 16);
    DigitIsSafe(language, u % 16);
  }

  lemma DigitIsSafe(language: Language, n: int)
    requires 0 <= n < 16
    ensures IsSafe(language, HexDigit(n))
  {
  }

  lemma SafeUnit(language: Language, u: int)
    requires 0 <= u < 0x10000
    ensures AllSafe(language, "\\u" + Hex4(u))
  {
    HexIsSafe(language, u);
  }

  lemma SafeTogether(language: Language, a: string, b: string)
    requires AllSafe(language, a) && AllSafe(language, b)
    ensures AllSafe(language, a + b)
  {
  }

  lemma UnicodeEscapeIsSafe(language: Language, c: char)
    ensures AllSafe(language, UnicodeEscape(c))
  {
    var u := c as int;
    if u < 0x10000 {
      SafeUnit(language, u);
    } else {
      var high, low := 0xD800 + (u - 0x10000) / 0x400, 0xDC00 + (u - 0x10000) % 0x400;
      SafeUnit(language, high);
      SafeUnit(language, low);
      SafeTogether(language, "\\u" + Hex4(high), "\\u" + Hex4(low));
      assert UnicodeEscape(c) == "\\u" + Hex4(high) + ("\\u" + Hex4(low));
    }
  }

  /** A character stands as it is exactly if it is safe, and neither a quote nor
      a backslash. */
  lemma EscapesExactly(language: Language, c: char)
    ensures EscapeChar(language, c) == [c] <==> IsSafe(language, c) && c != '\"' && c != '\\'
    ensures AllSafe(language, EscapeChar(language, c))
  {
    if !IsSafe(language, c) {
      UnicodeEscapeIsSafe(language, c);
    }
  }

  lemma {:induction false} EscapedIsSafe(language: Language, s: string)
    ensures AllSafe(language, Escape(language, s))
  {
    if s != "" {
      EscapesExactly(language, s[0]);
      EscapedIsSafe(language, s[1..]);
    }
  }

  /** What is escaped, and how. */
  lemma EscapeExamples()
    ensures EscapeChar(Python, '\U{e9}') == "\\u00e9" && EscapeChar(Go, '\U{e9}') == "\U{e9}"
    ensures EscapeChar(Python, '<') == "<" && EscapeChar(Go, '<') == "\\u003c"
    ensures EscapeChar(Python, '\U{1f600}') == "\\ud83d\\ude00" && EscapeChar(Go, '\U{1f600}') == "\U{1f600}"
  {
    HexExamples();
    SurrogateExample();
    assert UnicodeEscape('\U{e9}') == "\\u" + "00e9";
    assert UnicodeEscape('<') == "\\u" + "003c";
  }
}
