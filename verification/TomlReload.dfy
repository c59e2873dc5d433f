/** Reloading what the emitter wrote: exactly which documents come back. */
module TomlReload {
  import opened Basics
  import opened Strings
  import opened Lookup
  import opened Toml
  import opened Dictionary

  /** A value the emitter prints so that it reads back. */
  predicate Printable(v: Scalar)
  {
    match v
    case Text(text) => Plain(text)
    case Other(_) => false
    case _ => true
  }

  // ---------------------------------------------------------------------
  // Values
  // ---------------------------------------------------------------------

  lemma {:induction false} PlainReads(text: string, rest: string)
    requires Plain(text)
    ensures ReadBasic(text + "\"" + rest) == Some((text, rest))
  {
    var s := text + "\"" + rest;
    if text == "" {
      assert s[1..] == rest;
    } else {
      assert text[0] in text;
      assert s[1..] == text[1..] + "\"" + rest;
      forall c | c in text[1..] ensures c in text {
      }
      PlainReads(text[1..], rest);
      FirstApart(text);
    }
  }

  /** Reading never yields more than it consumes, and yields as much only from
      plain text. */
  lemma {:induction false} BasicLength(s: string)
    requires ReadBasic(s).Some?
    ensures var (text, rest) := ReadBasic(s).value;
      && |text| + 1 + |rest| <= |s|
      && (|text| + 1 + |rest| == |s| ==> Plain(text))
    decreases |s|
  {
    if s[0] == '\"' {
    } else if s[0] == '\\' {
      var (c, rest) := ReadEscape(s[1..]).value;
      BasicLength(rest);
    } else {
      BasicLength(s[1..]);
    }
  }

  lemma {:induction false} DigitsRead(digits: string)
    requires forall c :: c in digits ==> IsDigit(c)
    ensures DigitLength(digits) == |digits|
  {
    if digits == "" {
    } else {
      assert digits[0] in digits;
      DigitsRead(digits[1..]);
    }
  }

  lemma NotAWord(s: string)
    requires s != "" && s[0] != '\"' && s[0] != 't' && s[0] != 'f'
    ensures ReadScalar(s) == ReadNumber(s)
  {
    assert |s| >= 4 ==> s[..4][0] == s[0] && "true"[0] == 't';
    assert |s| >= 5 ==> s[..5][0] == s[0] && "false"[0] == 'f';
  }

  lemma UnsignedReads(m: nat)
    ensures Digits(m) != "" && IsDigit(Digits(m)[0])
    ensures DigitLength(Digits(m)) == |Digits(m)| && Natural(Digits(m)) == m
    ensures |Digits(m)| > 1 ==> Digits(m)[0] != '0'
  {
    DigitsRoundTrip(m);
    DigitsRead(Digits(m));
    assert Digits(m)[0] in Digits(m);
  }

  lemma DigitsAreANumber(d: string, m: int)
    requires d != "" && IsDigit(d[0]) && DigitLength(d) == |d| && Natural(d) == m && (|d| > 1 ==> d[0] != '0')
    ensures ReadNumber(d) == Some((Number(m), ""))
  {
    Whole(d);
    assert d[0] != '-' && d[0] != '+' && d[|d|..] == "" && Natural(d[..|d|]) == m;
  }

  lemma SignedDigitsAreANumber(s: string, m: int)
    requires s != "" && s[0] == '-' && DigitLength(s[1..]) == |s| - 1 > 0 && Natural(s[1..]) == m
    requires |s| > 2 ==> s[1..][0] != '0'
    ensures ReadNumber(s) == Some((Number(-m), ""))
  {
    Whole(s[1..]);
    assert s[1..][|s| - 1..] == "";
  }

  lemma NumberReads(n: int)
    ensures ReadScalar(Render(Number(n))) == Some((Number(n), ""))
  {
    var m: nat := if n < 0 then -n else n;
    UnsignedReads(m);
    if n < 0 {
      assert Render(Number(n))[1..] == Digits(m);
      SignedDigitsAreANumber(Render(Number(n)), m);
    } else {
      DigitsAreANumber(Digits(m), m);
    }
    NotAWord(Render(Number(n)));
  }

  lemma ScalarReads(v: Scalar)
    requires Printable(v)
    ensures ReadScalar(Render(v)) == Some((v, ""))
  {
    match v
    case Text(text) =>
      PlainReads(text, "");
      assert Render(v)[1..] == text + "\"" + "";
      if |Render(v)| >= 3 {
        assert Render(v)[1] in text;
      }
    case Number(n) => NumberReads(n);
    case Flag(b) =>
      var s := Render(v);
      assert s[..4][0] == s[0] && "true"[0] == 't';
      assert b ==> s[..4] == "true" && s[4..] == "";
      assert !b ==> s[..5] == "false" && s[5..] == "";
  }

  /** Any other value is misread, or not read at all, from however much of its
      text is left on the line. */
  lemma UnprintableIsMisread(v: Scalar, m: nat)
    requires !Printable(v) && 1 <= m <= |Render(v)|
    ensures var r := ReadScalar(Render(v)[..m]); r.Some? ==> r.value.0 != v
  {
    var t := Render(v)[..m];
    assert t[0] == '\"';
    if ReadScalar(t).Some? && v.Text? {
      BasicLength(t[1..]);
    }
  }

  // ---------------------------------------------------------------------
  // Lines
  // ---------------------------------------------------------------------

  predicate BareLine(line: Line)
  {
    match line
    case Pair(key, _) => Bare(key)
    case Header(name) => Bare(name)
    case Blank => true
  }

  predicate GoodLine(line: Line)
  {
    BareLine(line) && (line.Pair? ==> Printable(line.value))
  }

  function Apply(r: Reader, line: Line): Option<Reader>
  {
    match line
    case Pair(key, value) => Define(r, key, value)
    case Header(name) => OpenTable(r, name)
    case Blank => Some(r)
  }

  function ApplyAll(r: Reader, lines: seq<Line>): Option<Reader>
    decreases |lines|
  {
    if lines == [] then Some(r)
    else
      match Apply(r, lines[0])
      case None => None
      case Some(next) => ApplyAll(next, lines[1..])
  }

  lemma {:induction false} BareKeyEnds(key: string, rest: string)
    requires forall c :: c in key ==> IsBareChar(c)
    requires rest != "" ==> !IsBareChar(rest[0])
    ensures BareLength(key + rest) == |key|
  {
    var s := key + rest;
    if key == "" {
      assert s == rest;
    } else {
      assert key[0] in key;
      assert s[1..] == key[1..] + rest;
      BareKeyEnds(key[1..], rest);
    }
  }

  lemma PairSplits(key: string, value: string)
    requires Bare(key) && value != "" && value[0] != ' ' && value[0] != '\t'
    ensures var line := key + " = " + value;
      && BareLength(line) == |key| && line[..|key|] == key
      && SkipBlanks(line[|key|..]) == "= " + value
      && SkipBlanks(("= " + value)[1..]) == value
      && SkipBlanks(line) == line && line[0] != '#' && line[0] != '['
  {
    var line := key + " = " + value;
    assert key[0] in key;
    BareKeyEnds(key, " = " + value);
    assert line == key + (" = " + value);
    assert line[|key|..] == " = " + value;
    assert (" = " + value)[1..] == "= " + value;
    assert ("= " + value)[1..] == " " + value && (" " + value)[1..] == value;
  }

  /** A pair whose value text starts with something is read by its key and by
      what the value text says. */
  lemma PairReads(r: Reader, key: string, value: string)
    requires Bare(key) && value != "" && value[0] != ' ' && value[0] != '\t'
    ensures ReadLine(r, key + " = " + value) ==
            match ReadScalar(value)
            case None => None
            case Some((v, rest)) => if EndOfLine(rest) then Define(r, key, v) else None
  {
    var line := key + " = " + value;
    PairSplits(key, value);
    assert ReadLine(r, line) == ReadPair(r, line);
  }

  lemma HeaderReads(r: Reader, name: string)
    requires Bare(name)
    ensures ReadLine(r, "[" + name + "]") == OpenTable(r, name)
  {
    var line := "[" + name + "]";
    assert line[1..] == name + "]";
    assert name[0] in name;
    assert SkipBlanks(line[1..]) == line[1..];
    BareKeyEnds(name, "]");
    assert (name + "]")[|name|..] == "]" && (name + "]")[..|name|] == name;
    assert SkipBlanks("]") == "]" && "]"[1..] == "";
  }

  lemma GoodLineReads(r: Reader, line: Line)
    requires GoodLine(line)
    ensures ReadLine(r, Show(line)) == Apply(r, line)
  {
    match line
    case Pair(key, value) =>
      RenderEnds(value);
      PairReads(r, key, Render(value));
      ScalarReads(value);
    case Header(name) => HeaderReads(r, name);
    case Blank =>
  }

  /** No printed value starts or ends with white space. */
  lemma NumberEnds(n: int)
    ensures var s := Render(Number(n));
      s != "" && !IsSpacePython(s[0]) && !IsSpacePython(s[|s| - 1])
  {
    var d := Digits(if n < 0 then -n else n);
    DigitsRoundTrip(if n < 0 then -n else n);
    DigitsEnd(d);
  }

  lemma DigitsEnd(d: string)
    requires d != "" && forall c :: c in d ==> IsDigit(c)
    ensures !IsSpacePython(d[0]) && !IsSpacePython(d[|d| - 1])
    ensures var s := "-" + d; !IsSpacePython(s[0]) && !IsSpacePython(s[|s| - 1])
  {
    assert d[0] in d && d[|d| - 1] in d;
    var s := "-" + d;
    assert s[|s| - 1] == d[|d| - 1];
  }

  lemma QuotedEnds(text: string)
    ensures var s := "\"" + text + "\""; s[0] == '\"' && s[|s| - 1] == '\"'
  {
  }

  lemma RenderEnds(v: Scalar)
    ensures Render(v) != ""
    ensures var (a, z) := (Render(v)[0], Render(v)[|Render(v)| - 1]); !IsSpacePython(a) && !IsSpacePython(z)
  {
    match v
    case Number(n) =>
      NumberEnds(n);
    case Flag(b) =>
    case Text(text) =>
      QuotedEnds(text);
    case Other(shown) =>
      QuotedEnds(shown);
  }

  lemma PrintableHasNoBreak(v: Scalar)
    requires Printable(v)
    ensures '\n' !in Render(v)
  {
    if v.Number? {
      DigitsRoundTrip(if v.n < 0 then -v.n else v.n);
    }
  }

  lemma ShownEnds(line: Line)
    requires BareLine(line) && !line.Blank?
    ensures Show(line) != ""
    ensures var (a, z) := (Show(line)[0], Show(line)[|Show(line)| - 1]); !IsSpacePython(a) && !IsSpacePython(z)
  {
    if line.Pair? {
      RenderEnds(line.value);
      assert line.key[0] in line.key;
    }
  }

  lemma GoodLineIsOneLine(line: Line)
    requires GoodLine(line)
    ensures '\n' !in Show(line) && WithoutReturn(Show(line)) == Show(line)
  {
    if !line.Blank? {
      ShownEnds(line);
    }
    if line.Pair? {
      PrintableHasNoBreak(line.value);
    }
  }

  lemma ReadOneLine(r: Reader, line: string, rest: string)
    requires '\n' !in line && WithoutReturn(line) == line
    ensures ReadLines(r, line + "\n" + rest) ==
            match ReadLine(r, line) case None => None case Some(next) => ReadLines(next, rest)
  {
    var s := line + "\n" + rest;
    LineBreakFound(line, rest);
    assert s[..|line|] == line && s[|line| + 1..] == rest;
  }

  lemma ReadGoodLine(r: Reader, line: Line, rest: string)
    requires GoodLine(line)
    ensures ReadLines(r, Show(line) + "\n" + rest) ==
            match Apply(r, line) case None => None case Some(next) => ReadLines(next, rest)
  {
    GoodLineIsOneLine(line);
    ReadOneLine(r, Show(line), rest);
    GoodLineReads(r, line);
  }

  lemma UnlinesCons(lines: seq<Line>, rest: string)
    requires lines != []
    ensures Unlines(ShowAll(lines)) + rest == Show(lines[0]) + "\n" + (Unlines(ShowAll(lines[1..])) + rest)
  {
    assert ShowAll(lines)[1..] == ShowAll(lines[1..]);
  }

  // ---------------------------------------------------------------------
  // The shape of the emitted text
  // ---------------------------------------------------------------------

  ghost predicate AllBare(doc: Doc)
  {
    forall i :: 0 <= i < |doc| ==>
      Bare(doc[i].key) &&
      (doc[i].value.Table? ==> forall j :: 0 <= j < |doc[i].value.entries| ==> Bare(doc[i].value.entries[j].key))
  }

  function WithoutFinalBlank(lines: seq<Line>): seq<Line>
  {
    if lines == [] then [Blank]
    else if lines[|lines| - 1].Blank? then lines[..|lines| - 1] else lines
  }

  /** The lines of the text, without the blank one that is stripped off. */
  function Body(doc: Doc): seq<Line>
  {
    WithoutFinalBlank(DocLines(Reordered(doc)))
  }

  lemma {:induction false} EntryLinesAt(entries: seq<Entry>)
    ensures |EntryLines(entries)| == |entries|
    ensures forall i :: 0 <= i < |entries| ==> EntryLines(entries)[i] == Pair(entries[i].key, entries[i].value)
  {
    if entries == [] {
    } else {
      EntryLinesAt(entries[1..]);
    }
  }

  /** Lines with bare keys that do not begin blank and end with at most one
      blank line. */
  predicate Shapely(lines: seq<Line>)
  {
    && (forall i :: 0 <= i < |lines| ==> BareLine(lines[i]))
    && (lines != [] ==> !lines[0].Blank?)
    && (lines != [] && lines[|lines| - 1].Blank? ==> |lines| > 1 && !lines[|lines| - 2].Blank?)
  }

  lemma ShapelyConcat(a: seq<Line>, b: seq<Line>)
    requires Shapely(a) && Shapely(b)
    ensures Shapely(a + b)
  {
  }

  lemma ItemLinesShape(top: Top)
    requires AllBare([top])
    ensures Shapely(ItemLines(top)) && ItemLines(top) != []
  {
    assert [top][0] == top;
    if top.value.Table? {
      EntryLinesAt(top.value.entries);
    }
  }

  lemma {:induction false} DocLinesShape(doc: Doc)
    requires AllBare(doc)
    ensures Shapely(DocLines(doc)) && (doc != [] ==> DocLines(doc) != [])
  {
    if doc == [] {
    } else {
      AllBareParts(doc);
      ItemLinesShape(doc[0]);
      DocLinesShape(doc[1..]);
      ShapelyConcat(ItemLines(doc[0]), DocLines(doc[1..]));
    }
  }

  lemma AllBareParts(doc: Doc)
    requires doc != []
    ensures AllBare(doc) <==> AllBare([doc[0]]) && AllBare(doc[1..])
  {
    assert [doc[0]][0] == doc[0];
    assert forall i :: 1 <= i < |doc| ==> doc[i] == doc[1..][i - 1];
  }

  lemma AllBareConcat(a: Doc, b: Doc)
    requires AllBare(a) && AllBare(b)
    ensures AllBare(a + b)
  {
  }

  lemma {:induction false} ReorderedIsBare(doc: Doc)
    requires AllBare(doc)
    ensures AllBare(Scalars(doc)) && AllBare(Tables(doc)) && AllBare(Reordered(doc))
  {
    if doc != [] {
      AllBareParts(doc);
      ReorderedIsBare(doc[1..]);
      AllBareConcat([doc[0]], Scalars(doc[1..]));
      AllBareConcat([doc[0]], Tables(doc[1..]));
      assert [] + Scalars(doc[1..]) == Scalars(doc[1..]) && [] + Tables(doc[1..]) == Tables(doc[1..]);
    }
    AllBareConcat(Scalars(doc), Tables(doc));
  }

  lemma {:induction false} ShowAllAt(lines: seq<Line>)
    ensures |ShowAll(lines)| == |lines|
    ensures forall i :: 0 <= i < |lines| ==> ShowAll(lines)[i] == Show(lines[i])
  {
    if lines == [] {
    } else {
      ShowAllAt(lines[1..]);
    }
  }

  /** Stripping joined lines that begin and end with something other than white
      space takes off at most a final blank line. */
  lemma StripJoined(shown: seq<string>)
    requires shown != [] && shown[0] != "" && shown[|shown| - 1] != ""
    requires !IsSpacePython(shown[0][0])
    requires var end := shown[|shown| - 1]; !IsSpacePython(end[|end| - 1])
    ensures Trim(IsSpacePython, Join(shown)) + "\n" == Unlines(shown)
    ensures Trim(IsSpacePython, Join(shown + [""])) + "\n" == Unlines(shown)
  {
    JoinIsUnlines(shown);
    JoinEnds(shown);
    StripText(Join(shown));
  }

  lemma StripText(text: string)
    requires text != "" && !IsSpacePython(text[0]) && !IsSpacePython(text[|text| - 1])
    ensures Trim(IsSpacePython, text) == text && Trim(IsSpacePython, text + "\n") == text
  {
    TrimTo(IsSpacePython, "", text, "\n");
    TrimTo(IsSpacePython, "", text, "");
    assert "" + text + "\n" == text + "\n";
    assert "" + text + "" == text;
  }

  lemma CutShape(lines: seq<Line>)
    requires Shapely(lines) && lines != []
    ensures var body := WithoutFinalBlank(lines);
      && (lines == body || lines == body + [Blank])
      && body != [] && !body[0].Blank? && !body[|body| - 1].Blank?
      && BareLine(body[0]) && BareLine(body[|body| - 1])
  {
  }

  lemma BodyShape(doc: Doc)
    requires AllBare(doc) && Reordered(doc) != []
    ensures var (lines, body) := (DocLines(Reordered(doc)), Body(doc));
      && (lines == body || lines == body + [Blank])
      && body != [] && !body[0].Blank? && !body[|body| - 1].Blank?
      && BareLine(body[0]) && BareLine(body[|body| - 1])
  {
    ReorderedIsBare(doc);
    DocLinesShape(Reordered(doc));
    CutShape(DocLines(Reordered(doc)));
  }

  lemma StripLines(lines: seq<Line>, body: seq<Line>)
    requires lines == body || lines == body + [Blank]
    requires body != [] && !body[0].Blank? && !body[|body| - 1].Blank?
    requires BareLine(body[0]) && BareLine(body[|body| - 1])
    ensures Trim(IsSpacePython, Join(ShowAll(lines))) + "\n" == Unlines(ShowAll(body))
  {
    ShowAllAt(body);
    ShownEnds(body[0]);
    ShownEnds(body[|body| - 1]);
    StripJoined(ShowAll(body));
    ShowAllConcat(body, [Blank]);
    assert ShowAll([Blank]) == [""];
  }

  /** Stripping removes the final blank line and nothing else. */
  lemma EmitShape(doc: Doc)
    requires AllBare(doc)
    ensures Emit(doc) == Unlines(ShowAll(Body(doc)))
  {
    if Reordered(doc) == [] {
      assert ShowAll([Blank]) == [""];
      assert Unlines([""]) == "\n";
    } else {
      BodyShape(doc);
      StripLines(DocLines(Reordered(doc)), Body(doc));
    }
  }

  function SampleTable(): Top
  {
    Keyed("ssh", Table([Keyed("user", Text("ops"))]))
  }

  function SampleNumber(): Top
  {
    Keyed("port", Leaf(Number(22)))
  }

  function SampleLines(): seq<Line>
  {
    [Pair("port", Number(22)), Header("ssh"), Pair("user", Text("ops"))]
  }

  lemma SampleReordered()
    ensures Reordered([SampleTable(), SampleNumber()]) == [SampleNumber(), SampleTable()]
  {
    var doc := [SampleTable(), SampleNumber()];
    assert doc[1..] == [SampleNumber()] && doc[1..][1..] == [];
    assert Scalars(doc[1..]) == [SampleNumber()] && Tables(doc[1..]) == [];
    assert Scalars(doc) == [SampleNumber()] && Tables(doc) == [SampleTable()];
  }

  lemma SampleBody()
    ensures DocLines([SampleNumber(), SampleTable()]) == SampleLines() + [Blank]
  {
    var docs, entries := [SampleNumber(), SampleTable()], [Keyed("user", Text("ops"))];
    assert docs[1..] == [SampleTable()] && docs[1..][1..] == [] && entries[1..] == [];
    assert EntryLines(entries) == [Pair("user", Text("ops"))];
    assert ItemLines(SampleTable()) == [Header("ssh"), Pair("user", Text("ops")), Blank];
  }

  lemma ShowThree(a: Line, b: Line, c: Line)
    ensures ShowAll([a, b, c]) == [Show(a), Show(b), Show(c)]
  {
    assert [a, b, c][1..] == [b, c] && [b, c][1..] == [c] && [c][1..] == [];
    assert ShowAll([c]) == [Show(c)] && ShowAll([b, c]) == [Show(b), Show(c)];
  }

  lemma SampleShown()
    ensures ShowAll(SampleLines()) == ["port = 22", "[ssh]", "user = \"ops\""]
  {
    var lines := SampleLines();
    ShowThree(lines[0], lines[1], lines[2]);
    assert Digits(2) == "2";
    assert Digits(22) == "22";
    assert Show(lines[0]) == "port = 22" && Show(lines[1]) == "[ssh]" && Show(lines[2]) == "user = \"ops\"";
  }

  /** A table and, after it, a number; the number is printed first. */
  lemma EmitExample()
    ensures Emit([SampleTable(), SampleNumber()]) == Unlines(["port = 22", "[ssh]", "user = \"ops\""])
  {
    var doc := [SampleTable(), SampleNumber()];
    SampleReordered();
    SampleBody();
    SampleShown();
    EmitShape(doc);
  }

  // ---------------------------------------------------------------------
  // Building the document back
  // ---------------------------------------------------------------------

  lemma {:induction false} ApplyConcat(r: Reader, a: seq<Line>, b: seq<Line>)
    ensures ApplyAll(r, a + b) == match ApplyAll(r, a) case None => None case Some(next) => ApplyAll(next, b)
    decreases |a|
  {
    if a == [] {
      assert a + b == b;
    } else {
      assert (a + b)[1..] == a[1..] + b;
      if Apply(r, a[0]).Some? {
        ApplyConcat(Apply(r, a[0]).value, a[1..], b);
      }
    }
  }

  lemma {:induction false} ApplyEntries(done: Doc, name: string, filled: seq<Entry>, rest: seq<Entry>)
    requires NoDuplicates(Keys(filled + rest))
    ensures ApplyAll(Reader(done + [Keyed(name, Table(filled))], true), EntryLines(rest)) ==
            Some(Reader(done + [Keyed(name, Table(filled + rest))], true))
    decreases |rest|
  {
    if rest == [] {
      assert filled + rest == filled;
    } else {
      var e := rest[0];
      assert Keys(filled + rest)[|filled|] == e.key;
      assert forall i :: 0 <= i < |filled| ==> Keys(filled + rest)[i] == Keys(filled)[i];
      var r := Reader(done + [Keyed(name, Table(filled))], true);
      assert e.key !in Keys(filled);
      var grown := Keyed(name, Table(filled + [e]));
      assert r.doc[|done| := grown] == done + [grown];
      assert [Keyed(e.key, e.value)] == [e];
      assert Define(r, e.key, e.value) == Some(Reader(done + [grown], true));
      assert filled + [e] + rest[1..] == filled + rest;
      ApplyEntries(done, name, filled + [e], rest[1..]);
    }
  }

  lemma {:induction false} ApplyScalars(done: Doc, rest: Doc)
    requires forall i :: 0 <= i < |rest| ==> rest[i].value.Leaf?
    requires NoDuplicates(Keys(done + rest))
    ensures ApplyAll(Reader(done, false), DocLines(rest)) == Some(Reader(done + rest, false))
    decreases |rest|
  {
    if rest == [] {
      assert done + rest == done;
    } else {
      assert Keys(done + rest)[|done|] == rest[0].key;
      assert forall i :: 0 <= i < |done| ==> Keys(done + rest)[i] == Keys(done)[i];
      assert done + [rest[0]] + rest[1..] == done + rest;
      ApplyScalars(done + [rest[0]], rest[1..]);
      ApplyConcat(Reader(done, false), ItemLines(rest[0]), DocLines(rest[1..]));
      assert ApplyAll(Reader(done, false), ItemLines(rest[0])) == Some(Reader(done + [rest[0]], false));
    }
  }

  lemma ApplyTable(done: Doc, inTable: bool, top: Top)
    requires top.value.Table? && NoDuplicates(Keys(top.value.entries)) && top.key !in Keys(done)
    ensures ApplyAll(Reader(done, inTable), ItemLines(top)) == Some(Reader(done + [top], true))
  {
    var entries := top.value.entries;
    var started := Reader(done + [Keyed(top.key, Table([]))], true);
    assert ItemLines(top) == [Header(top.key)] + (EntryLines(entries) + [Blank]);
    ApplyConcat(Reader(done, inTable), [Header(top.key)], EntryLines(entries) + [Blank]);
    assert ApplyAll(Reader(done, inTable), [Header(top.key)]) == Some(started);
    assert [] + entries == entries;
    ApplyEntries(done, top.key, [], entries);
    ApplyConcat(started, EntryLines(entries), [Blank]);
  }

  lemma {:induction false} ApplyTables(done: Doc, inTable: bool, rest: Doc)
    requires forall i :: 0 <= i < |rest| ==> rest[i].value.Table? && NoDuplicates(Keys(rest[i].value.entries))
    requires NoDuplicates(Keys(done + rest))
    ensures ApplyAll(Reader(done, inTable), DocLines(rest)) == Some(Reader(done + rest, inTable || rest != []))
    decreases |rest|
  {
    if rest == [] {
      assert done + rest == done;
    } else {
      assert Keys(done + rest)[|done|] == rest[0].key;
      assert forall i :: 0 <= i < |done| ==> Keys(done + rest)[i] == Keys(done)[i];
      assert done + [rest[0]] + rest[1..] == done + rest;
      ApplyTable(done, inTable, rest[0]);
      ApplyTables(done + [rest[0]], true, rest[1..]);
      ApplyConcat(Reader(done, inTable), ItemLines(rest[0]), DocLines(rest[1..]));
    }
  }

  lemma {:induction false} PartKeys(doc: Doc)
    ensures forall k :: k in Keys(Scalars(doc)) ==> k in Keys(doc)
    ensures forall k :: k in Keys(Tables(doc)) ==> k in Keys(doc)
  {
    if doc == [] {
    } else {
      var rest := doc[1..];
      PartKeys(rest);
      assert Keys(doc) == [doc[0].key] + Keys(rest);
      assert doc[0].value.Leaf? ==> Keys(Scalars(doc)) == [doc[0].key] + Keys(Scalars(rest));
      assert doc[0].value.Table? ==> Keys(Tables(doc)) == [doc[0].key] + Keys(Tables(rest));
      assert doc[0].value.Leaf? ==> Tables(doc) == Tables(rest);
      assert doc[0].value.Table? ==> Scalars(doc) == Scalars(rest);
    }
  }

  lemma KeysCons(top: Top, rest: Doc)
    requires NoDuplicates(Keys(rest)) && top.key !in Keys(rest)
    ensures Keys([top] + rest) == [top.key] + Keys(rest) && NoDuplicates(Keys([top] + rest))
  {
  }

  lemma {:induction false} ScalarKeys(doc: Doc)
    requires NoDuplicates(Keys(doc))
    ensures NoDuplicates(Keys(Scalars(doc)))
  {
    if doc == [] {
    } else {
      HeadIsFresh(doc);
      ScalarKeys(doc[1..]);
      PartKeys(doc[1..]);
      assert doc[0].value.Table? ==> Scalars(doc) == Scalars(doc[1..]);
      KeysCons(doc[0], Scalars(doc[1..]));
    }
  }

  lemma {:induction false} TableKeys(doc: Doc)
    requires NoDuplicates(Keys(doc))
    ensures NoDuplicates(Keys(Tables(doc)))
  {
    if doc == [] {
    } else {
      HeadIsFresh(doc);
      TableKeys(doc[1..]);
      PartKeys(doc[1..]);
      assert doc[0].value.Leaf? ==> Tables(doc) == Tables(doc[1..]);
      KeysCons(doc[0], Tables(doc[1..]));
    }
  }

  lemma {:induction false} PartsShareNoKey(doc: Doc)
    requires NoDuplicates(Keys(doc))
    ensures forall k :: k in Keys(Scalars(doc)) ==> k !in Keys(Tables(doc))
  {
    if doc == [] {
    } else {
      var rest := doc[1..];
      HeadIsFresh(doc);
      PartsShareNoKey(rest);
      PartKeys(rest);
      if doc[0].value.Leaf? {
        assert Tables(doc) == Tables(rest);
        assert forall k :: k in Keys(Scalars(doc)) ==> k == doc[0].key || k in Keys(Scalars(rest)) by {
          ScalarKeys(rest);
          KeysCons(doc[0], Scalars(rest));
        }
      } else {
        assert Scalars(doc) == Scalars(rest);
        assert forall k :: k in Keys(Tables(doc)) ==> k == doc[0].key || k in Keys(Tables(rest)) by {
          TableKeys(rest);
          KeysCons(doc[0], Tables(rest));
        }
      }
    }
  }

  lemma ReorderedKeys(doc: Doc)
    requires NoDuplicates(Keys(doc))
    ensures NoDuplicates(Keys(Scalars(doc)) + Keys(Tables(doc)))
  {
    ScalarKeys(doc);
    TableKeys(doc);
    PartsShareNoKey(doc);
    var a, b := Keys(Scalars(doc)), Keys(Tables(doc));
    forall i, j | 0 <= i < j < |a + b| ensures (a + b)[i] != (a + b)[j] {
      assert i < |a| && j >= |a| ==> a[i] in a && b[j - |a|] in b;
    }
  }

  lemma {:induction false} TablesAreFromDoc(doc: Doc)
    ensures forall i :: 0 <= i < |Tables(doc)| ==> Tables(doc)[i] in doc && Tables(doc)[i].value.Table?
    ensures forall i :: 0 <= i < |Scalars(doc)| ==> Scalars(doc)[i] in doc && Scalars(doc)[i].value.Leaf?
  {
    if doc == [] {
    } else {
      TablesAreFromDoc(doc[1..]);
    }
  }

  lemma PartsAreDistinct(doc: Doc)
    requires Distinct(doc)
    ensures NoDuplicates(Keys(Reordered(doc))) && NoDuplicates(Keys(Scalars(doc)))
    ensures forall i :: 0 <= i < |Scalars(doc)| ==> Scalars(doc)[i].value.Leaf?
    ensures forall i :: 0 <= i < |Tables(doc)| ==>
              Tables(doc)[i].value.Table? && NoDuplicates(Keys(Tables(doc)[i].value.entries))
  {
    ReorderedKeys(doc);
    TablesAreFromDoc(doc);
    assert Keys(Reordered(doc)) == Keys(Scalars(doc)) + Keys(Tables(doc));
    assert forall i :: 0 <= i < |Scalars(doc)| ==> Keys(Reordered(doc))[i] == Keys(Scalars(doc))[i];
    forall i | 0 <= i < |Tables(doc)| ensures NoDuplicates(Keys(Tables(doc)[i].value.entries)) {
      var j :| 0 <= j < |doc| && doc[j] == Tables(doc)[i];
    }
  }

  lemma ApplyDoc(doc: Doc)
    requires Distinct(doc)
    ensures ApplyAll(Reader([], false), DocLines(Reordered(doc))) == Some(Reader(Reordered(doc), Tables(doc) != []))
  {
    var scalars, tables := Scalars(doc), Tables(doc);
    PartsAreDistinct(doc);
    assert [] + scalars == scalars;
    ApplyScalars([], scalars);
    ApplyTables(scalars, false, tables);
    DocLinesConcat(scalars, tables);
    ApplyConcat(Reader([], false), DocLines(scalars), DocLines(tables));
  }

  lemma {:induction false} DocLinesConcat(a: Doc, b: Doc)
    ensures DocLines(a + b) == DocLines(a) + DocLines(b)
  {
    if a == [] {
      assert a + b == b;
    } else {
      assert (a + b)[1..] == a[1..] + b;
      DocLinesConcat(a[1..], b);
    }
  }

  lemma FinalBlankIsIdle(r: Reader, lines: seq<Line>)
    ensures ApplyAll(r, lines + [Blank]) == ApplyAll(r, lines)
  {
    ApplyConcat(r, lines, [Blank]);
    if ApplyAll(r, lines).Some? {
      var next := ApplyAll(r, lines).value;
      assert [Blank][1..] == [] && ApplyAll(next, [Blank]) == ApplyAll(next, []);
    }
  }

  lemma BodyAndBlank(lines: seq<Line>)
    requires lines != [] && lines[|lines| - 1].Blank?
    ensures lines == lines[..|lines| - 1] + [Blank]
  {
  }

  /** The stripped text has the same effect. */
  lemma ApplyBody(doc: Doc)
    requires Distinct(doc)
    ensures ApplyAll(Reader([], false), Body(doc)).Some?
    ensures ApplyAll(Reader([], false), Body(doc)).value.doc == Reordered(doc)
  {
    var lines := DocLines(Reordered(doc));
    ApplyDoc(doc);
    if lines == [] {
      FinalBlankIsIdle(Reader([], false), []);
    } else if lines[|lines| - 1].Blank? {
      BodyAndBlank(lines);
      FinalBlankIsIdle(Reader([], false), lines[..|lines| - 1]);
    }
  }

  // ---------------------------------------------------------------------
  // The exact condition
  // ---------------------------------------------------------------------

  /** Every key is bare and every value prints so that it reads back. */
  ghost predicate Clean(doc: Doc)
  {
    && AllBare(doc)
    && forall i :: 0 <= i < |doc| ==>
         match doc[i].value
         case Leaf(value) => Printable(value)
         case Table(entries) => forall j :: 0 <= j < |entries| ==> Printable(entries[j].value)
  }

  /** `d` grew into `d'`: nothing that was defined has changed. */
  ghost predicate Extends(d: Doc, d': Doc)
  {
    && |d| <= |d'|
    && forall i :: 0 <= i < |d| ==>
         && d'[i].key == d[i].key
         && match d[i].value
            case Leaf(value) => d'[i].value == Leaf(value)
            case Table(entries) => d'[i].value.Table? && entries <= d'[i].value.entries
  }

  lemma ExtendsOn(a: Doc, b: Doc, c: Doc)
    requires Extends(a, b) && Extends(b, c)
    ensures Extends(a, c)
  {
  }

  lemma ApplyExtends(r: Reader, line: Line)
    requires Apply(r, line).Some?
    ensures Extends(r.doc, Apply(r, line).value.doc)
  {
  }

  lemma {:induction false} ApplyAllExtends(r: Reader, lines: seq<Line>)
    requires ApplyAll(r, lines).Some?
    ensures Extends(r.doc, ApplyAll(r, lines).value.doc)
    decreases |lines|
  {
    if lines == [] {
    } else {
      ApplyExtends(r, lines[0]);
      ApplyAllExtends(Apply(r, lines[0]).value, lines[1..]);
    }
  }

  /** The reader only ever defines bare keys, and never redefines one. */
  lemma ReadLineGrows(r: Reader, line: string)
    requires ReadLine(r, line).Some?
    ensures Extends(r.doc, ReadLine(r, line).value.doc)
    ensures AllBare(r.doc) ==> AllBare(ReadLine(r, line).value.doc)
  {
    if !EndOfLine(line) {
      var t := SkipBlanks(line);
      if t != "" && t[0] == '[' {
        var u := SkipBlanks(t[1..]);
        ApplyExtends(r, Header(u[..BareLength(u)]));
      } else {
        var n := BareLength(t);
        var (value, _) := ReadScalar(SkipBlanks(SkipBlanks(t[n..])[1..])).value;
        ApplyExtends(r, Pair(t[..n], value));
      }
    }
  }

  lemma {:induction false} ReadLinesGrows(r: Reader, s: string)
    requires ReadLines(r, s).Some?
    ensures Extends(r.doc, ReadLines(r, s).value.doc)
    ensures AllBare(r.doc) ==> AllBare(ReadLines(r, s).value.doc)
    decreases |s|
  {
    if s == "" {
    } else {
      var n := LineLength(s);
      var line := if n < |s| then WithoutReturn(s[..n]) else s[..n];
      ReadLineGrows(r, line);
      var next, rest := ReadLine(r, line).value, if n < |s| then s[n + 1..] else "";
      ReadLinesGrows(next, rest);
      ExtendsOn(r.doc, next.doc, ReadLines(next, rest).value.doc);
    }
  }

  lemma AppendedKey<V>(list: seq<Keyed<V>>, head: Keyed<V>)
    requires NoDuplicates(Keys(list)) && head.key !in Keys(list)
    ensures NoDuplicates(Keys(list + [head]))
  {
    forall i, j | 0 <= i < j < |list| + 1 ensures Keys(list + [head])[i] != Keys(list + [head])[j] {
      assert Keys(list)[i] in Keys(list);
      assert j < |list| ==> Keys(list)[i] != Keys(list)[j];
    }
  }

  lemma DefineKeepsDistinct(r: Reader, key: string, value: Scalar)
    requires Distinct(r.doc) && Define(r, key, value).Some?
    ensures Distinct(Define(r, key, value).value.doc)
  {
    if r.inTable && r.doc != [] && r.doc[|r.doc| - 1].value.Table? {
      var last := |r.doc| - 1;
      var after := Define(r, key, value).value.doc;
      AppendedKey(r.doc[last].value.entries, Keyed(key, value));
      assert Keys(after) == Keys(r.doc);
    } else {
      AppendedKey(r.doc, Keyed(key, Leaf(value)));
    }
  }

  lemma ApplyKeepsDistinct(r: Reader, line: Line)
    requires Distinct(r.doc) && Apply(r, line).Some?
    ensures Distinct(Apply(r, line).value.doc)
  {
    match line
    case Pair(key, value) => DefineKeepsDistinct(r, key, value);
    case Header(name) => AppendedKey(r.doc, Keyed(name, Table([])));
    case Blank =>
  }

  /** Whatever line is read has the effect of some line of the document. */
  lemma ReadLineApplies(r: Reader, line: string) returns (read: Line)
    requires ReadLine(r, line).Some?
    ensures Apply(r, read) == ReadLine(r, line)
  {
    read := Blank;
    if !EndOfLine(line) {
      var t := SkipBlanks(line);
      if t != "" && t[0] == '[' {
        var u := SkipBlanks(t[1..]);
        read := Header(u[..BareLength(u)]);
      } else {
        var n := BareLength(t);
        var (value, _) := ReadScalar(SkipBlanks(SkipBlanks(t[n..])[1..])).value;
        read := Pair(t[..n], value);
      }
    }
  }

  lemma {:induction false} ReadLinesKeepDistinct(r: Reader, s: string)
    requires Distinct(r.doc) && ReadLines(r, s).Some?
    ensures Distinct(ReadLines(r, s).value.doc)
    decreases |s|
  {
    if s == "" {
    } else {
      var n := LineLength(s);
      var line := if n < |s| then WithoutReturn(s[..n]) else s[..n];
      var read := ReadLineApplies(r, line);
      ApplyKeepsDistinct(r, read);
      ReadLinesKeepDistinct(ReadLine(r, line).value, if n < |s| then s[n + 1..] else "");
    }
  }

  /** Whatever text is read, no key is defined twice. */
  lemma ReadIsDistinct(text: string)
    requires Read(text).Some?
    ensures Distinct(Read(text).value) && AllBare(Read(text).value)
  {
    ReadLinesKeepDistinct(Reader([], false), text);
    ReadLinesGrows(Reader([], false), text);
  }

  /** A definition made on the way is found in the end, where it was made. */
  lemma DefinitionIsFound(r: Reader, key: string, v: Scalar, doc: Doc)
    requires Define(r, key, v).Some? && Extends(Define(r, key, v).value.doc, doc) && Distinct(doc)
    ensures if r.inTable && r.doc != [] && r.doc[|r.doc| - 1].value.Table?
            then var table := Find(doc, r.doc[|r.doc| - 1].key);
                 table.Some? && table.value.Table? && Find(table.value.entries, key) == Some(v)
            else Find(doc, key) == Some(Leaf(v))
  {
    var grown := Define(r, key, v).value.doc;
    if r.inTable && r.doc != [] && r.doc[|r.doc| - 1].value.Table? {
      var last := |r.doc| - 1;
      var n := |r.doc[last].value.entries|;
      assert doc[last].value.entries[n] == grown[last].value.entries[n] == Keyed(key, v);
      FindAt(doc, last);
      FindAt(doc[last].value.entries, n);
    } else {
      assert grown[|r.doc|] == Keyed(key, Leaf(v));
      FindAt(doc, |r.doc|);
    }
  }

  /** Two values for one key grow into the same dictionary only if they agree. */
  lemma SameDefinition(r: Reader, key: string, v: Scalar, w: Scalar, a: Doc, b: Doc)
    requires Define(r, key, v).Some? && Extends(Define(r, key, v).value.doc, a) && Distinct(a)
    requires Define(r, key, w).Some? && Extends(Define(r, key, w).value.doc, b) && Distinct(b)
    requires SameDict(a, b)
    ensures v == w
  {
    DefinitionIsFound(r, key, v, a);
    DefinitionIsFound(r, key, w, b);
    if r.inTable && r.doc != [] && r.doc[|r.doc| - 1].value.Table? {
      var name := r.doc[|r.doc| - 1].key;
      assert SameItem(Find(a, name), Find(b, name));
      assert Find(Find(a, name).value.entries, key) == Find(Find(b, name).value.entries, key);
    } else {
      assert SameItem(Find(a, key), Find(b, key));
    }
  }

  /** The line an unprintable value ends up on: a start of it is left. */
  lemma CutLine(key: string, v: Scalar, rest: string) returns (m: nat)
    requires Bare(key) && !Printable(v)
    ensures 1 <= m <= |Render(v)|
    ensures var s := key + " = " + Render(v) + "\n" + rest;
      var n := LineLength(s);
      n < |s| && WithoutReturn(s[..n]) == key + " = " + Render(v)[..m]
  {
    var shown := key + " = " + Render(v);
    var s := shown + "\n" + rest;
    BreakAfter(key, Render(v), rest);
    var n := LineLength(s);
    var line := WithoutReturn(s[..n]);
    assert s[..n][|key| + 3] == '\"';
    m := |line| - |key| - 3;
    StartOfPair(key, Render(v), "\n" + rest, |line|);
    assert s == shown + ("\n" + rest);
    assert line == s[..|line|];
  }

  lemma StartOfPair(key: string, value: string, tail: string, n: nat)
    requires |key| + 3 <= n <= |key| + 3 + |value|
    ensures (key + " = " + value + tail)[..n] == key + " = " + value[..n - |key| - 3]
  {
  }

  lemma BreakAfter(key: string, value: string, rest: string)
    requires Bare(key) && value != "" && value[0] == '\"'
    ensures |key| + 4 <= LineLength(key + " = " + value + "\n" + rest) <= |key| + 3 + |value|
  {
    var s := key + " = " + value + "\n" + rest;
    var head := key + " = \"";
    assert s[..|key| + 4] == head;
    assert '\n' !in head;
    LineLengthBounds(s, |key| + 4, |key| + 3 + |value|);
  }

  lemma UnprintableLine(r: Reader, key: string, v: Scalar, rest: string, doc: Doc)
    requires Bare(key) && !Printable(v)
    requires Define(r, key, v).Some? && Extends(Define(r, key, v).value.doc, doc)
    requires Distinct(doc) && Distinct(r.doc)
    ensures var out := ReadLines(r, key + " = " + Render(v) + "\n" + rest); out.Some? ==> !SameDict(doc, out.value.doc)
  {
    var s := key + " = " + Render(v) + "\n" + rest;
    var m := CutLine(key, v, rest);
    var value := Render(v)[..m];
    RenderEnds(v);
    assert value[0] == '\"';
    PairReads(r, key, value);
    UnprintableIsMisread(v, m);
    var next := ReadLine(r, key + " = " + value);
    if next.Some? {
      var w := ReadScalar(value).value.0;
      assert next == Define(r, key, w);
      var n := LineLength(s);
      var out := ReadLines(next.value, s[n + 1..]);
      if out.Some? {
        ReadLinesGrows(next.value, s[n + 1..]);
        DefineKeepsDistinct(r, key, w);
        ReadLinesKeepDistinct(next.value, s[n + 1..]);
        if SameDict(doc, out.value.doc) {
          SameDefinition(r, key, v, w, doc, out.value.doc);
        }
      }
    }
  }

  /** Good lines read as what they stand for; with any other among them, not
      even the same dictionary comes out. */
  lemma {:induction false} LinesReadExactly(r: Reader, lines: seq<Line>, doc: Doc)
    requires forall i :: 0 <= i < |lines| ==> BareLine(lines[i])
    requires ApplyAll(r, lines).Some? && ApplyAll(r, lines).value.doc == doc
    requires Distinct(r.doc) && Distinct(doc)
    ensures var out := ReadLines(r, Unlines(ShowAll(lines)));
      if forall i :: 0 <= i < |lines| ==> GoodLine(lines[i]) then out.Some? && out.value.doc == doc
      else out.Some? ==> !SameDict(doc, out.value.doc)
    decreases |lines|
  {
    if lines == [] {
    } else {
      var line, others := lines[0], lines[1..];
      var next := Apply(r, line).value;
      var rest := Unlines(ShowAll(others));
      UnlinesCons(lines, "");
      assert Unlines(ShowAll(lines)) + "" == Unlines(ShowAll(lines)) && rest + "" == rest;
      if GoodLine(line) {
        ReadGoodLine(r, line, rest);
        ApplyKeepsDistinct(r, line);
        LinesReadExactly(next, others, doc);
        assert (forall i :: 0 <= i < |lines| ==> GoodLine(lines[i])) <==>
               (forall i :: 0 <= i < |others| ==> GoodLine(others[i])) by { SplitGood(lines); }
      } else {
        ApplyAllExtends(next, others);
        UnprintableLine(r, line.key, line.value, rest, doc);
      }
    }
  }

  lemma SplitGood(lines: seq<Line>)
    requires lines != [] && GoodLine(lines[0])
    ensures (forall i :: 0 <= i < |lines| ==> GoodLine(lines[i])) <==>
            (forall i :: 0 <= i < |lines[1..]| ==> GoodLine(lines[1..][i]))
  {
    if forall i :: 0 <= i < |lines[1..]| ==> GoodLine(lines[1..][i]) {
      forall i | 0 <= i < |lines| ensures GoodLine(lines[i]) {
        if i > 0 {
          assert lines[i] == lines[1..][i - 1];
        }
      }
    }
  }

  lemma {:induction false} ReorderedMembers(doc: Doc)
    ensures forall top :: top in Scalars(doc) || top in Tables(doc) <==> top in doc
  {
    if doc == [] {
    } else {
      ReorderedMembers(doc[1..]);
      FirstApart(doc);
    }
  }

  ghost predicate GoodItem(item: Item)
  {
    match item
    case Leaf(value) => Printable(value)
    case Table(entries) => forall j :: 0 <= j < |entries| ==> Printable(entries[j].value)
  }

  lemma ItemLinesGood(top: Top)
    requires AllBare([top])
    ensures GoodItem(top.value) <==> forall i :: 0 <= i < |ItemLines(top)| ==> GoodLine(ItemLines(top)[i])
  {
    assert [top][0] == top;
    ItemLinesShape(top);
    var lines := ItemLines(top);
    match top.value
    case Leaf(value) =>
      assert lines[0] == Pair(top.key, value);
    case Table(entries) =>
      EntryLinesAt(entries);
      assert forall j :: 0 <= j < |entries| ==> lines[j + 1] == Pair(entries[j].key, entries[j].value);
      if forall i :: 0 <= i < |lines| ==> GoodLine(lines[i]) {
        forall j | 0 <= j < |entries| ensures Printable(entries[j].value) {
          assert GoodLine(lines[j + 1]);
        }
      }
  }

  lemma {:induction false} DocLinesGood(doc: Doc)
    requires AllBare(doc)
    ensures (forall i :: 0 <= i < |doc| ==> GoodItem(doc[i].value)) <==>
            (forall line :: line in DocLines(doc) ==> GoodLine(line))
  {
    if doc == [] {
    } else {
      DocLinesGood(doc[1..]);
      ItemLinesGood(doc[0]);
      var here, later := ItemLines(doc[0]), DocLines(doc[1..]);
      assert forall line :: line in DocLines(doc) <==> line in here || line in later;
      assert (forall i :: 0 <= i < |here| ==> GoodLine(here[i])) <==> (forall line :: line in here ==> GoodLine(line));
      FirstApart(doc);
      assert (forall i :: 0 <= i < |doc| ==> GoodItem(doc[i].value)) <==>
             GoodItem(doc[0].value) && (forall i :: 0 <= i < |doc[1..]| ==> GoodItem(doc[1..][i].value));
    }
  }

  lemma ItemsByMembership(doc: Doc)
    ensures (forall i :: 0 <= i < |doc| ==> GoodItem(doc[i].value)) <==> (forall top :: top in doc ==> GoodItem(top.value))
  {
    if forall top :: top in doc ==> GoodItem(top.value) {
      forall i | 0 <= i < |doc| ensures GoodItem(doc[i].value) {
        assert doc[i] in doc;
      }
    }
  }

  lemma LinesByMembership(lines: seq<Line>)
    ensures (forall i :: 0 <= i < |lines| ==> GoodLine(lines[i])) <==> (forall line :: line in lines ==> GoodLine(line))
  {
  }

  /** The lines of the text are all good exactly when the values are. */
  lemma BodyGood(doc: Doc)
    requires AllBare(doc)
    ensures (forall i :: 0 <= i < |Body(doc)| ==> GoodLine(Body(doc)[i])) <==> Clean(doc)
  {
    var reordered := Reordered(doc);
    ReorderedIsBare(doc);
    DocLinesGood(reordered);
    ItemsByMembership(doc);
    ItemsByMembership(reordered);
    ReorderedMembers(doc);
    assert forall top :: top in reordered <==> top in doc;
    LinesByMembership(Body(doc));
    BodyMembers(doc);
    assert Clean(doc) <==> forall i :: 0 <= i < |doc| ==> GoodItem(doc[i].value);
  }

  lemma BodyMembers(doc: Doc)
    ensures forall line :: line != Blank ==> (line in Body(doc) <==> line in DocLines(Reordered(doc)))
  {
    var lines := DocLines(Reordered(doc));
    if lines != [] && lines[|lines| - 1].Blank? {
      assert lines == Body(doc) + [Blank];
    }
  }

  lemma BareBodyLines(doc: Doc)
    requires AllBare(doc)
    ensures forall i :: 0 <= i < |Body(doc)| ==> BareLine(Body(doc)[i])
  {
    ReorderedIsBare(doc);
    DocLinesShape(Reordered(doc));
  }

  lemma BareBothWays(doc: Doc)
    ensures AllBare(Reordered(doc)) <==> AllBare(doc)
  {
    ReorderedMembers(doc);
    var reordered := Reordered(doc);
    if AllBare(doc) {
      ReorderedIsBare(doc);
    }
    if AllBare(reordered) {
      forall i | 0 <= i < |doc|
        ensures AllBare([doc[i]])
      {
        assert doc[i] in doc;
        assert doc[i] in reordered;
        var j :| 0 <= j < |reordered| && reordered[j] == doc[i];
      }
      assert forall i :: 0 <= i < |doc| ==> [doc[i]][0] == doc[i];
    }
  }

  /** Reordering moves no entry out of reach. */
  lemma FindReordered(doc: Doc, key: string)
    requires Distinct(doc)
    ensures Find(Reordered(doc), key) == Find(doc, key)
  {
    PartsAreDistinct(doc);
    ReorderedMembers(doc);
    FindIsMembership(doc, key);
    FindIsMembership(Reordered(doc), key);
    assert forall top :: top in Reordered(doc) <==> top in doc;
    var before, after := Find(doc, key), Find(Reordered(doc), key);
    assert before.Some? ==> Keyed(key, before.value) in Reordered(doc);
    assert after.Some? ==> Keyed(key, after.value) in doc;
  }

  lemma ReorderedIsDistinct(doc: Doc)
    requires Distinct(doc)
    ensures Distinct(Reordered(doc)) && SameDict(Reordered(doc), doc)
  {
    var all, n := Reordered(doc), |Scalars(doc)|;
    PartsAreDistinct(doc);
    forall i | 0 <= i < |all| && all[i].value.Table? ensures NoDuplicates(Keys(all[i].value.entries)) {
      assert i >= n && all[i] == Tables(doc)[i - n];
    }
    forall k ensures SameItem(Find(all, k), Find(doc, k)) {
      FindReordered(doc, k);
    }
  }

  /** A key that is not bare is lost. */
  lemma ForeignKeysAreLost(doc: Doc, out: Doc)
    requires Distinct(doc) && Distinct(out) && AllBare(out) && SameDict(doc, out)
    ensures AllBare(doc)
  {
    forall i | 0 <= i < |doc| ensures AllBare([doc[i]]) {
      FindAt(doc, i);
      assert SameItem(Find(doc, doc[i].key), Find(out, doc[i].key));
      FindIsMembership(out, doc[i].key);
      var item := Find(out, doc[i].key).value;
      var j :| 0 <= j < |out| && out[j] == Keyed(doc[i].key, item);
      if item.Table? {
        SameEntriesAreBare(doc[i].value.entries, item.entries);
      }
      assert [doc[i]][0] == doc[i];
    }
    assert forall i :: 0 <= i < |doc| ==> [doc[i]][0] == doc[i];
  }

  lemma SameEntriesAreBare(a: seq<Entry>, b: seq<Entry>)
    requires NoDuplicates(Keys(a)) && NoDuplicates(Keys(b)) && SameTable(a, b)
    requires forall j :: 0 <= j < |b| ==> Bare(b[j].key)
    ensures forall j :: 0 <= j < |a| ==> Bare(a[j].key)
  {
    forall j | 0 <= j < |a| ensures Bare(a[j].key) {
      SameEntryIsBare(a, b, j);
    }
  }

  lemma SameEntryIsBare(a: seq<Entry>, b: seq<Entry>, j: nat)
    requires NoDuplicates(Keys(a)) && NoDuplicates(Keys(b)) && SameTable(a, b) && j < |a|
    requires forall j :: 0 <= j < |b| ==> Bare(b[j].key)
    ensures Bare(a[j].key)
  {
    FindAt(a, j);
    SameTableAt(a, b, a[j].key);
    KeyIsBare(b, a[j].key);
  }

  lemma SameTableAt(a: seq<Entry>, b: seq<Entry>, k: string)
    requires SameTable(a, b)
    ensures Find(a, k) == Find(b, k)
  {
  }

  lemma KeyIsBare(list: seq<Entry>, key: string)
    requires NoDuplicates(Keys(list)) && Find(list, key).Some?
    requires forall j :: 0 <= j < |list| ==> Bare(list[j].key)
    ensures Bare(key)
  {
    FoundIsThere(list, key);
  }

  lemma FoundIsThere<V>(list: seq<Keyed<V>>, key: string)
    requires NoDuplicates(Keys(list)) && Find(list, key).Some?
    ensures exists i :: 0 <= i < |list| && list[i].key == key
  {
    FindIsMembership(list, key);
    var found := Keyed(key, Find(list, key).value);
    var i :| 0 <= i < |list| && list[i] == found;
  }

  /** What comes back from the emitted text is the document, scalars first, and
      indeed the same dictionary in any order, exactly when all its keys are bare
      and all its values are integers, booleans and strings free of quotes,
      backslashes and control characters. */
  lemma ReloadsExactly(doc: Doc)
    requires Distinct(doc)
    ensures Read(Emit(doc)) == Some(Reordered(doc)) <==> Clean(doc)
    ensures Read(Emit(doc)).Some? && SameDict(doc, Read(Emit(doc)).value) <==> Clean(doc)
  {
    var start := Reader([], false);
    BareBothWays(doc);
    ReorderedIsDistinct(doc);
    if AllBare(doc) {
      EmitShape(doc);
      BareBodyLines(doc);
      ApplyBody(doc);
      LinesReadExactly(start, Body(doc), Reordered(doc));
      BodyGood(doc);
      if Read(Emit(doc)).Some? {
        SameAsReordered(doc, Read(Emit(doc)).value);
      }
    } else if Read(Emit(doc)).Some? {
      ReadIsDistinct(Emit(doc));
      if SameDict(doc, Read(Emit(doc)).value) {
        ForeignKeysAreLost(doc, Read(Emit(doc)).value);
      }
    }
  }

  lemma SameAsReordered(doc: Doc, out: Doc)
    requires SameDict(Reordered(doc), doc)
    ensures SameDict(doc, out) <==> SameDict(Reordered(doc), out)
  {
    SameDictOn(Reordered(doc), doc, out);
    SameDictSymmetric(Reordered(doc), doc);
    SameDictOn(doc, Reordered(doc), out);
  }

  lemma SameDictOn(a: Doc, b: Doc, c: Doc)
    requires SameDict(a, b)
    ensures SameDict(b, c) ==> SameDict(a, c)
  {
    if SameDict(b, c) {
      forall k ensures SameItem(Find(a, k), Find(c, k)) {
        assert SameItem(Find(a, k), Find(b, k)) && SameItem(Find(b, k), Find(c, k));
      }
    }
  }

  lemma SameDictSymmetric(a: Doc, b: Doc)
    requires SameDict(a, b)
    ensures SameDict(b, a)
  {
    forall k ensures SameItem(Find(b, k), Find(a, k)) {
      assert SameItem(Find(a, k), Find(b, k));
    }
  }
}
