/** The hand-written TOML emitter of the local overlay, and a reference reader
    for the part of TOML v1.0.0 it writes: comments, table headers, bare keys,
    basic strings, integers and booleans. */
module Toml {
  import opened Basics
  import opened Strings
  import opened Lookup

  /** `Other` is any value that is not a string, an integer or a boolean (a
      float, a date, an array, a table in a table): the emitter prints its text
      form between quotes. */
  datatype Scalar = Text(text: string) | Number(n: int) | Flag(b: bool) | Other(shown: string)

  type Entry = Keyed<Scalar>

  datatype Item = Leaf(value: Scalar) | Table(entries: seq<Entry>)

  type Top = Keyed<Item>

  /** A document in insertion order. */
  type Doc = seq<Top>

  // ---------------------------------------------------------------------
  // Emitting
  // ---------------------------------------------------------------------

  function Render(v: Scalar): string
  {
    match v
    case Flag(b) => if b then "true" else "false"
    case Number(n) => if n < 0 then "-" + Digits(-n) else Digits(n)
    case Text(text) => "\"" + text + "\""
    case Other(shown) => "\"" + shown + "\""
  }

  datatype Line = Pair(key: string, value: Scalar) | Header(name: string) | Blank

  function Show(line: Line): string
  {
    match line
    case Pair(key, value) => key + " = " + Render(value)
    case Header(name) => "[" + name + "]"
    case Blank => ""
  }

  function ShowAll(lines: seq<Line>): seq<string>
  {
    if lines == [] then [] else [Show(lines[0])] + ShowAll(lines[1..])
  }

  function EntryLines(entries: seq<Entry>): seq<Line>
  {
    if entries == [] then [] else [Pair(entries[0].key, entries[0].value)] + EntryLines(entries[1..])
  }

  /** The scalars of the top level; TOML wants them before any table. */
  function Scalars(doc: Doc): Doc
  {
    if doc == [] then [] else (if doc[0].value.Leaf? then [doc[0]] else []) + Scalars(doc[1..])
  }

  function Tables(doc: Doc): Doc
  {
    if doc == [] then [] else (if doc[0].value.Table? then [doc[0]] else []) + Tables(doc[1..])
  }

  /** The same document in the order in which it is printed. */
  function Reordered(doc: Doc): Doc
  {
    Scalars(doc) + Tables(doc)
  }

  function ItemLines(top: Top): seq<Line>
  {
    match top.value
    case Leaf(value) => [Pair(top.key, value)]
    case Table(entries) => [Header(top.key)] + EntryLines(entries) + [Blank]
  }

  function DocLines(doc: Doc): seq<Line>
  {
    if doc == [] then [] else ItemLines(doc[0]) + DocLines(doc[1..])
  }

  /** `_emit_toml`. */
  function Emit(doc: Doc): string
  {
    Trim(IsSpacePython, Join(ShowAll(DocLines(Reordered(doc))))) + "\n"
  }

  /** One table of the emitter's second loop. */
  method AppendTable(before: seq<string>, name: string, values: seq<Entry>) returns (lines: seq<string>)
    ensures lines == before + ShowAll(ItemLines(Keyed(name, Table(values))))
  {
    var heading := "[" + name + "]";
    lines := before + [heading];
    assert values[..0] == [];
    for j := 0 to |values|
      invariant lines == before + ([heading] + ShowAll(EntryLines(values[..j])))
    {
      PairAppended(values, j);
      var line := values[j].key + " = " + Render(values[j].value);
      Regroup(before, [heading], ShowAll(EntryLines(values[..j])), [line]);
      lines := lines + [line];
    }
    TableShown(name, values);
    assert values[..|values|] == values;
    Regroup(before, [heading], ShowAll(EntryLines(values)), [""]);
    lines := lines + [""];
  }

  lemma Regroup(a: seq<string>, b: seq<string>, c: seq<string>, d: seq<string>)
    ensures a + (b + c) + d == a + (b + (c + d)) == a + (b + c + d)
  {
    assert b + c + d == b + (c + d);
  }

  lemma PairAppended(values: seq<Entry>, j: nat)
    requires j < |values|
    ensures ShowAll(EntryLines(values[..j + 1])) ==
            ShowAll(EntryLines(values[..j])) + [values[j].key + " = " + Render(values[j].value)]
  {
    var pair := Pair(values[j].key, values[j].value);
    assert values[..j + 1] == values[..j] + [values[j]];
    EntryLinesSnoc(values[..j], values[j]);
    ShowAllConcat(EntryLines(values[..j]), [pair]);
    ShowOne(pair);
  }

  lemma ShowOne(line: Line)
    ensures ShowAll([line]) == [Show(line)]
  {
    assert [line][1..] == [];
  }

  lemma TableShown(name: string, values: seq<Entry>)
    ensures ShowAll(ItemLines(Keyed(name, Table(values)))) ==
            ["[" + name + "]"] + ShowAll(EntryLines(values)) + [""]
  {
    ShowAllConcat([Header(name)], EntryLines(values));
    ShowAllConcat([Header(name)] + EntryLines(values), [Blank]);
    ShowOne(Header(name));
    ShowOne(Blank);
  }

  lemma ScalarShown(top: Top)
    requires top.value.Leaf?
    ensures ShowAll(ItemLines(top)) == [top.key + " = " + Render(top.value.value)]
  {
    ShowOne(Pair(top.key, top.value.value));
  }

  /** What the first items print as. */
  ghost function Shown(doc: Doc, count: nat): seq<string>
    requires count <= |doc|
  {
    ShowAll(DocLines(doc[..count]))
  }

  lemma ItemAppended(doc: Doc, i: nat)
    requires i < |doc|
    ensures Shown(doc, i + 1) == Shown(doc, i) + ShowAll(ItemLines(doc[i]))
  {
    assert doc[..i + 1] == doc[..i] + [doc[i]];
    DocLinesSnoc(doc[..i], doc[i]);
    ShowAllConcat(DocLines(doc[..i]), ItemLines(doc[i]));
  }

  lemma ShownBounds(doc: Doc)
    ensures Shown(doc, 0) == [] && Shown(doc, |doc|) == ShowAll(DocLines(doc))
  {
    assert doc[..0] == [] && doc[..|doc|] == doc;
  }

  lemma PartsOf(doc: Doc)
    ensures var (n, all) := (|Scalars(doc)|, Reordered(doc));
      && |all| == n + |Tables(doc)|
      && (forall i :: 0 <= i < n ==> all[i] == Scalars(doc)[i] && all[i].value.Leaf?)
      && (forall i :: 0 <= i < |Tables(doc)| ==> all[n + i] == Tables(doc)[i] && all[n + i].value.Table?)
  {
    PartsAreUniform(doc);
  }

  /** The emitter as it runs: lines collected in a list. */
  method EmitToml(doc: Doc) returns (text: string)
    ensures text == Emit(doc)
  {
    var scalars, tables := Scalars(doc), Tables(doc);
    ghost var all, n := Reordered(doc), |scalars|;
    var lines: seq<string> := [];
    PartsOf(doc);
    ShownBounds(all);
    for i := 0 to |scalars|
      invariant lines == Shown(all, i)
    {
      ItemAppended(all, i);
      ScalarShown(all[i]);
      lines := lines + [scalars[i].key + " = " + Render(scalars[i].value.value)];
    }
    for i := 0 to |tables|
      invariant lines == Shown(all, n + i)
    {
      ItemAppended(all, n + i);
      assert all[n + i] == Keyed(tables[i].key, Table(tables[i].value.entries));
      lines := AppendTable(lines, tables[i].key, tables[i].value.entries);
    }
    return Trim(IsSpacePython, Join(lines)) + "\n";
  }

  lemma {:induction false} PartsAreUniform(doc: Doc)
    ensures forall i :: 0 <= i < |Scalars(doc)| ==> Scalars(doc)[i].value.Leaf?
    ensures forall i :: 0 <= i < |Tables(doc)| ==> Tables(doc)[i].value.Table?
  {
    if doc == [] {
    } else {
      PartsAreUniform(doc[1..]);
    }
  }

  lemma {:induction false} ShowAllConcat(a: seq<Line>, b: seq<Line>)
    ensures ShowAll(a + b) == ShowAll(a) + ShowAll(b)
  {
    if a == [] {
      assert a + b == b;
    } else {
      assert (a + b)[1..] == a[1..] + b;
      ShowAllConcat(a[1..], b);
    }
  }

  lemma {:induction false} EntryLinesSnoc(entries: seq<Entry>, e: Entry)
    ensures EntryLines(entries + [e]) == EntryLines(entries) + [Pair(e.key, e.value)]
  {
    if entries == [] {
    } else {
      assert (entries + [e])[1..] == entries[1..] + [e];
      EntryLinesSnoc(entries[1..], e);
    }
  }

  lemma {:induction false} DocLinesSnoc(doc: Doc, top: Top)
    ensures DocLines(doc + [top]) == DocLines(doc) + ItemLines(top)
  {
    if doc == [] {
      assert (doc + [top])[1..] == [];
    } else {
      assert (doc + [top])[1..] == doc[1..] + [top];
      DocLinesSnoc(doc[1..], top);
    }
  }

  // ---------------------------------------------------------------------
  // Reading
  // ---------------------------------------------------------------------

  /** Characters of a bare key. */
  predicate IsBareChar(c: char)
  {
    'a' <= c <= 'z' || 'A' <= c <= 'Z' || '0' <= c <= '9' || c == '_' || c == '-'
  }

  predicate Bare(key: string)
  {
    key != "" && forall c :: c in key ==> IsBareChar(c)
  }

  /** Control characters; a tab may stand in a string or a comment. */
  predicate IsControl(c: char)
  {
    (c < ' ' && c != '\t') || c == '\U{7f}'
  }

  /** What a basic string can hold without escapes. */
  predicate Plain(text: string)
  {
    forall c :: c in text ==> c != '\"' && c != '\\' && !IsControl(c)
  }

  function SkipBlanks(s: string): (rest: string)
    ensures |rest| <= |s|
  {
    if s != "" && (s[0] == ' ' || s[0] == '\t') then SkipBlanks(s[1..]) else s
  }

  function BareLength(s: string): (n: nat)
    ensures n <= |s|
    ensures n > 0 ==> Bare(s[..n])
  {
    if s == "" || !IsBareChar(s[0]) then 0
    else
      var n := BareLength(s[1..]);
      assert s[..1 + n] == [s[0]] + s[1..][..n];
      1 + n
  }

  function DigitLength(s: string): (n: nat)
    ensures n <= |s|
    ensures forall c :: c in s[..n] ==> IsDigit(c)
  {
    if s == "" || !IsDigit(s[0]) then 0
    else
      var n := DigitLength(s[1..]);
      assert s[..1 + n] == [s[0]] + s[1..][..n];
      1 + n
  }

  function HexNumber(s: string): int
  {
    if s == "" then 0
    else
      var front := HexNumber(s[..|s| - 1]);
      if front < 0 || HexValue(s[|s| - 1]) < 0 then -1 else front * 16 + HexValue(s[|s| - 1])
  }

  /** What follows a backslash in a basic string. */
  function ReadEscape(s: string): (r: Option<(char, string)>)
    ensures r.Some? ==> |r.value.1| < |s|
  {
    if s == "" then None
    else if s[0] == 'b' then Some(('\U{8}', s[1..]))
    else if s[0] == 't' then Some(('\t', s[1..]))
    else if s[0] == 'n' then Some(('\n', s[1..]))
    else if s[0] == 'f' then Some(('\U{c}', s[1..]))
    else if s[0] == 'r' then Some(('\r', s[1..]))
    else if s[0] == '\"' || s[0] == '\\' then Some((s[0], s[1..]))
    else
      var n := if s[0] == 'u' then 4 else if s[0] == 'U' then 8 else 0;
      if n == 0 || |s| < 1 + n then None
      else
        var u := HexNumber(s[1..1 + n]);
        if 0 <= u < 0xD800 || 0xE000 <= u < 0x110000 then Some((u as char, s[1 + n..])) else None
  }

  /** The rest of a basic string whose opening quote has been passed. */
  function ReadBasic(s: string): Option<(string, string)>
    decreases |s|
  {
    if s == "" || IsControl(s[0]) then None
    else if s[0] == '\"' then Some(("", s[1..]))
    else if s[0] == '\\' then
      match ReadEscape(s[1..])
      case None => None
      case Some((c, rest)) => Prepend(c, ReadBasic(rest))
    else Prepend(s[0], ReadBasic(s[1..]))
  }

  function ReadNumber(s: string): Option<(Scalar, string)>
  {
    var signed := s != "" && (s[0] == '-' || s[0] == '+');
    var t := if signed then s[1..] else s;
    var n := DigitLength(t);
    if n == 0 || (n > 1 && t[0] == '0') then None
    else
      var magnitude: int := Natural(t[..n]);
      Some((Number(if signed && s[0] == '-' then -magnitude else magnitude), t[n..]))
  }

  /** A value. Three quotes would open a multi-line string, which is refused. */
  function ReadScalar(s: string): Option<(Scalar, string)>
  {
    if s == "" then None
    else if s[0] == '\"' then
      if |s| >= 3 && s[1] == '\"' && s[2] == '\"' then None
      else
        match ReadBasic(s[1..])
        case None => None
        case Some((text, rest)) => Some((Text(text), rest))
    else if |s| >= 4 && s[..4] == "true" then Some((Flag(true), s[4..]))
    else if |s| >= 5 && s[..5] == "false" then Some((Flag(false), s[5..]))
    else ReadNumber(s)
  }

  /** Nothing but blanks and a comment. */
  predicate EndOfLine(s: string)
  {
    var t := SkipBlanks(s);
    t == "" || (t[0] == '#' && forall c :: c in t ==> !IsControl(c))
  }

  /** The document so far; after a header, its last item is the table being
      filled. */
  datatype Reader = Reader(doc: Doc, inTable: bool)

  /** A key may be defined only once. */
  function Define(r: Reader, key: string, value: Scalar): Option<Reader>
  {
    if r.inTable && r.doc != [] && r.doc[|r.doc| - 1].value.Table? then
      var last := |r.doc| - 1;
      var entries := r.doc[last].value.entries;
      if key in Keys(entries) then None
      else Some(r.(doc := r.doc[last := Keyed(r.doc[last].key, Table(entries + [Keyed(key, value)]))]))
    else if key in Keys(r.doc) then None
    else Some(r.(doc := r.doc + [Keyed(key, Leaf(value))]))
  }

  function OpenTable(r: Reader, name: string): Option<Reader>
  {
    if name in Keys(r.doc) then None else Some(Reader(r.doc + [Keyed(name, Table([]))], true))
  }

  function ReadPair(r: Reader, s: string): Option<Reader>
  {
    var n := BareLength(s);
    var t := SkipBlanks(s[n..]);
    if n == 0 || t == "" || t[0] != '=' then None
    else
      match ReadScalar(SkipBlanks(t[1..]))
      case None => None
      case Some((value, rest)) => if EndOfLine(rest) then Define(r, s[..n], value) else None
  }

  function ReadHeader(r: Reader, s: string): Option<Reader>
  {
    var t := SkipBlanks(s);
    var n := BareLength(t);
    var u := SkipBlanks(t[n..]);
    if n == 0 || u == "" || u[0] != ']' || !EndOfLine(u[1..]) then None else OpenTable(r, t[..n])
  }

  function ReadLine(r: Reader, line: string): Option<Reader>
  {
    if EndOfLine(line) then Some(r)
    else
      var t := SkipBlanks(line);
      if t != "" && t[0] == '[' then ReadHeader(r, t[1..]) else ReadPair(r, t)
  }

  /** A line break may be written "\r\n". */
  function WithoutReturn(line: string): string
  {
    if line != "" && line[|line| - 1] == '\r' then line[..|line| - 1] else line
  }

  function ReadLines(r: Reader, s: string): Option<Reader>
    decreases |s|
  {
    if s == "" then Some(r)
    else
      var n := LineLength(s);
      match ReadLine(r, if n < |s| then WithoutReturn(s[..n]) else s[..n])
      case None => None
      case Some(next) => ReadLines(next, if n < |s| then s[n + 1..] else "")
  }

  function Read(text: string): Option<Doc>
  {
    match ReadLines(Reader([], false), text)
    case None => None
    case Some(r) => Some(r.doc)
  }
}
