/** Quoting a string as one word of a POSIX shell command, and a tokenizer after
    sections 2.2.1 to 2.2.3 and 2.3 of the Shell Command Language (POSIX.1-2017). */
module Shell {
  import opened Basics

  function EscapedChar(c: char): string
  {
    if c == '\'' then "'\\''" else [c]
  }

  /** `value.replace("'", "'\\''")`. */
  function Escaped(value: string): string
  {
    if value == "" then "" else EscapedChar(value[0]) + Escaped(value[1..])
  }

  /** `_shell_quote`. */
  function ShellQuote(value: string): string
  {
    "'" + (Escaped(value) + "'")
  }

  // ---------------------------------------------------------------------
  // The tokenizer
  // ---------------------------------------------------------------------

  datatype Token = Word(text: string) | Operator(c: char)

  datatype Mode = Unquoted | SingleQuoted | DoubleQuoted

  /** Tokens so far, the word being collected if there is one, and the quoting
      in force. */
  datatype Scanner = Scanner(tokens: seq<Token>, word: Option<string>, mode: Mode)

  function Append(st: Scanner, text: string): Scanner
  {
    st.(word := Some((if st.word.Some? then st.word.value else "") + text))
  }

  /** The word being collected, if any, is complete. */
  function Delimit(st: Scanner): Scanner
  {
    if st.word.None? then st else st.(tokens := st.tokens + [Word(st.word.value)], word := None)
  }

  predicate IsOperator(c: char)
  {
    c == '|' || c == '&' || c == ';' || c == '<' || c == '>' || c == '(' || c == ')' || c == '\n'
  }

  /** One step: the scanner after it and how many characters it took. A null
      character cannot occur in a command; expansions and comments are outside
      this reader and refused, as is a trailing backslash. */
  function Next(st: Scanner, s: string): (r: Option<(Scanner, nat)>)
    requires s != ""
    ensures r.Some? ==> 1 <= r.value.1 <= 2 && r.value.1 <= |s|
  {
    var c, after := s[0], if |s| > 1 then s[1] else '\0';
    if c == '\0' then None
    else
      match st.mode
      case SingleQuoted => Some((if c == '\'' then st.(mode := Unquoted) else Append(st, [c]), 1))
      case DoubleQuoted =>
        if c == '\"' then Some((st.(mode := Unquoted), 1))
        else if c == '$' || c == '`' then None
        else if c == '\\' && after == '\n' then Some((st, 2))
        else if c == '\\' && (after == '$' || after == '`' || after == '\"' || after == '\\') then
          Some((Append(st, [after]), 2))
        else Some((Append(st, [c]), 1))
      case Unquoted =>
        if c == ' ' || c == '\t' then Some((Delimit(st), 1))
        else if c == '\'' then Some((Append(st, "").(mode := SingleQuoted), 1))
        else if c == '\"' then Some((Append(st, "").(mode := DoubleQuoted), 1))
        else if c == '\\' then
          if after == '\0' then None
          else if after == '\n' then Some((st, 2))
          else Some((Append(st, [after]), 2))
        else if c == '$' || c == '`' || (c == '#' && st.word.None?) then None
        else if IsOperator(c) then Some((Delimit(st).(tokens := Delimit(st).tokens + [Operator(c)]), 1))
        else Some((Append(st, [c]), 1))
  }

  /** Read the rest of the command. */
  function Scan(st: Scanner, s: string): Option<Scanner>
    decreases |s|
  {
    if s == "" then Some(st)
    else
      match Next(st, s)
      case None => None
      case Some((next, n)) => Scan(next, s[n..])
  }

  const START := Scanner([], None, Unquoted)

  /** The tokens of a whole command; a quote left open is an error. */
  function Tokens(command: string): Option<seq<Token>>
  {
    match Scan(START, command)
    case None => None
    case Some(end) => if end.mode.Unquoted? then Some(Delimit(end).tokens) else None
  }

  // ---------------------------------------------------------------------
  // A quoted string is one word
  // ---------------------------------------------------------------------

  /** One escaped character, read between single quotes. */
  lemma EscapedCharReads(st: Scanner, c: char, rest: string)
    requires st.mode.SingleQuoted? && st.word.Some? && c != '\0'
    ensures Scan(st, EscapedChar(c) + rest) == Scan(Append(st, [c]), rest)
  {
    var s := EscapedChar(c) + rest;
    if c == '\'' {
      assert EscapedChar(c) == "'\\''";
      var plain := st.(mode := Unquoted);
      var added := Append(plain, "'");
      assert s[0] == '\'' && Next(st, s) == Some((plain, 1));
      assert Scan(st, s) == Scan(plain, s[1..]);
      assert s[1..][0] == '\\' && s[1..][1] == '\'' && s[1..][2..] == s[3..];
      assert Scan(plain, s[1..]) == Scan(added, s[3..]);
      assert s[3..][0] == '\'' && s[3..][1..] == rest;
      assert added.word.value + "" == added.word.value;
    } else {
      assert EscapedChar(c) == [c];
      assert s[0] == c && s[1..] == rest;
    }
  }

  lemma EscapedCons(value: string, rest: string)
    requires value != ""
    ensures Escaped(value) + rest == EscapedChar(value[0]) + (Escaped(value[1..]) + rest)
  {
  }

  lemma AppendTwice(st: Scanner, a: string, b: string)
    ensures Append(Append(st, a), b) == Append(st, a + b)
    ensures st.word.Some? ==> Append(st, "") == st
  {
    var w := if st.word.Some? then st.word.value else "";
    assert w + a + b == w + (a + b) && w + "" == w;
  }

  lemma {:induction false} EscapedReads(st: Scanner, value: string, rest: string)
    requires st.mode.SingleQuoted? && st.word.Some? && '\0' !in value
    ensures Scan(st, Escaped(value) + ("'" + rest)) == Scan(Append(st, value).(mode := Unquoted), rest)
    decreases |value|
  {
    AppendTwice(st, "", "");
    if value == "" {
      assert Escaped(value) + ("'" + rest) == "'" + rest;
      assert ("'" + rest)[1..] == rest;
    } else {
      var c, others := value[0], value[1..];
      assert value == [c] + others && c in value;
      EscapedCons(value, "'" + rest);
      EscapedCharReads(st, c, Escaped(others) + ("'" + rest));
      EscapedReads(Append(st, [c]), others, rest);
      AppendTwice(st, [c], others);
    }
  }

  /** Outside other quotes, a quoted string adds exactly itself to the word it
      stands in, and leaves the quoting as it was. */
  lemma QuoteReads(st: Scanner, value: string, rest: string)
    requires st.mode.Unquoted? && '\0' !in value
    ensures Scan(st, ShellQuote(value) + rest) == Scan(Append(st, value), rest)
  {
    var s := ShellQuote(value) + rest;
    var inside := Append(st, "").(mode := SingleQuoted);
    assert s[1..] == Escaped(value) + ("'" + rest);
    EscapedReads(inside, value, rest);
    assert Append(inside, value).(mode := Unquoted) == Append(st, value) by {
      assert inside.word.value + value == (if st.word.Some? then st.word.value else "") + value;
    }
  }

  /** A null character inside makes the command unreadable. */
  lemma {:induction false} NulIsRefused(st: Scanner, value: string, rest: string)
    requires st.mode.SingleQuoted? && st.word.Some? && '\0' in value
    ensures Scan(st, Escaped(value) + rest) == None
    decreases |value|
  {
    var others := Escaped(value[1..]) + rest;
    EscapedCons(value, rest);
    if value[0] == '\0' {
      assert (Escaped(value) + rest)[0] == '\0';
    } else {
      EscapedCharReads(st, value[0], others);
      FirstApart(value);
      NulIsRefused(Append(st, [value[0]]), value[1..], rest);
    }
  }

  /** A step looks at two characters at most. */
  lemma NextLooksAtTwo(st: Scanner, s: string, t: string)
    requires s != "" && t != "" && s[0] == t[0] && (|s| > 1 <==> |t| > 1) && (|s| > 1 ==> s[1] == t[1])
    ensures Next(st, s) == Next(st, t)
  {
  }

  /** Reading is done from left to right: what a command means up to a blank
      that ends a word does not depend on what comes after. */
  lemma {:induction false} ScanContinues(st: Scanner, s: string, blank: char, rest: string)
    requires blank == ' ' || blank == '\t'
    requires Scan(st, s + [blank]).Some?
    requires var end := Scan(st, s + [blank]).value; end.mode.Unquoted? && end.word.None?
    ensures Scan(st, s + [blank] + rest) == Scan(Scan(st, s + [blank]).value, rest)
    decreases |s|
  {
    var t, u := s + [blank], s + [blank] + rest;
    var (next, n) := Next(st, t).value;
    if s == "" {
      assert t == [blank] && u == [blank] + rest;
      BlankContinues(st, blank, rest);
    } else {
      NextLooksAtTwo(st, t, u);
      StepStopsBefore(st, s, blank);
      assert t[n..] == s[n..] + [blank] && u[n..] == s[n..] + [blank] + rest;
      ScanContinues(next, s[n..], blank, rest);
    }
  }

  lemma BlankContinues(st: Scanner, blank: char, rest: string)
    requires (blank == ' ' || blank == '\t') && Scan(st, [blank]).Some?
    requires var end := Scan(st, [blank]).value; end.mode.Unquoted? && end.word.None?
    ensures Scan(st, [blank] + rest) == Scan(Scan(st, [blank]).value, rest)
  {
    assert [blank][1..] == "" && ([blank] + rest)[1..] == rest;
  }

  /** The step before a blank that ends a word does not swallow the blank. */
  lemma StepStopsBefore(st: Scanner, s: string, blank: char)
    requires s != "" && (blank == ' ' || blank == '\t') && Scan(st, s + [blank]).Some?
    requires var end := Scan(st, s + [blank]).value; end.mode.Unquoted? && end.word.None?
    ensures Next(st, s + [blank]).value.1 <= |s|
  {
    var t := s + [blank];
    var (next, n) := Next(st, t).value;
    var left := t[n..];
    assert |left| == |t| - n && t[1] == (if |s| > 1 then s[1] else blank);
    assert left == "" ==> Scan(next, left) == Some(next);
  }

  lemma {:induction false} TokensGrow(st: Scanner, before: seq<Token>, s: string)
    ensures Scan(st.(tokens := before + st.tokens), s) ==
            match Scan(st, s) case None => None case Some(end) => Some(end.(tokens := before + end.tokens))
    decreases |s|
  {
    if s == "" {
    } else {
      var longer := st.(tokens := before + st.tokens);
      assert forall x: seq<Token> :: before + st.tokens + x == before + (st.tokens + x);
      if Next(st, s).Some? {
        var (next, n) := Next(st, s).value;
        assert Next(longer, s) == Some((next.(tokens := before + next.tokens), n)) by {
          assert forall w, c ::
              before + st.tokens + [Word(w)] + [Operator(c)] == before + (st.tokens + [Word(w)] + [Operator(c)]);
        }
        TokensGrow(next, before, s[n..]);
      }
    }
  }

  /** The command text before the quoted word has been read to its end: all its
      words are complete. */
  ghost predicate Complete(prefix: string)
  {
    prefix == "" ||
    (Scan(START, prefix + " ").Some? &&
     var end := Scan(START, prefix + " ").value; end.mode.Unquoted? && end.word.None?)
  }

  function TokensOfPrefix(prefix: string): seq<Token>
    requires Complete(prefix)
  {
    if prefix == "" then [] else Scan(START, prefix + " ").value.tokens
  }

  lemma PrefixIsRead(prefix: string, tail: string)
    requires Complete(prefix)
    ensures Scan(START, (if prefix == "" then "" else prefix + " ") + tail) ==
            Scan(START.(tokens := TokensOfPrefix(prefix)), tail)
  {
    if prefix == "" {
      assert "" + tail == tail;
    } else {
      assert prefix + [' '] == prefix + " ";
      ScanContinues(START, prefix, ' ', tail);
    }
  }

  lemma WordThenRest(tokens: seq<Token>, value: string, rest: string)
    requires '\0' !in value
    ensures Scan(START.(tokens := tokens), ShellQuote(value) + (" " + rest)) ==
            match Scan(START, rest)
            case None => None
            case Some(end) => Some(end.(tokens := tokens + [Word(value)] + end.tokens))
  {
    var st, read := START.(tokens := tokens), tokens + [Word(value)];
    QuoteReads(st, value, " " + rest);
    assert "" + value == value;
    assert (" " + rest)[1..] == rest;
    assert Scan(Append(st, value), " " + rest) == Scan(START.(tokens := read), rest);
    assert read + START.tokens == read;
    TokensGrow(START, read, rest);
  }

  lemma NulAnywhere(tokens: seq<Token>, value: string, rest: string)
    requires '\0' in value
    ensures Scan(START.(tokens := tokens), ShellQuote(value) + rest) == None
  {
    var st := START.(tokens := tokens);
    assert (ShellQuote(value) + rest)[1..] == Escaped(value) + ("'" + rest);
    NulIsRefused(Append(st, "").(mode := SingleQuoted), value, "'" + rest);
  }

  /** Wherever a quoted string stands between blanks in a command, the shell
      reads it as exactly one word, equal to the string, and reads the rest of
      the command as it would on its own; a null character anywhere in it makes
      the whole command unreadable. */
  lemma QuotedIsOneWord(prefix: string, value: string, rest: string)
    requires Complete(prefix)
    ensures var command := (if prefix == "" then "" else prefix + " ") + (ShellQuote(value) + (" " + rest));
      Tokens(command) ==
      if '\0' in value || Tokens(rest).None? then None
      else Some(TokensOfPrefix(prefix) + [Word(value)] + Tokens(rest).value)
  {
    var before := TokensOfPrefix(prefix);
    PrefixIsRead(prefix, ShellQuote(value) + (" " + rest));
    if '\0' in value {
      NulAnywhere(before, value, " " + rest);
    } else {
      WordThenRest(before, value, rest);
      if Scan(START, rest).Some? {
        var end := Scan(START, rest).value;
        DelimitGrows(end, before + [Word(value)]);
      }
    }
  }

  lemma DelimitGrows(end: Scanner, before: seq<Token>)
    ensures Delimit(end.(tokens := before + end.tokens)).tokens == before + Delimit(end).tokens
  {
  }

  /** The same at the end of a command. */
  lemma QuotedAtTheEnd(prefix: string, value: string)
    requires Complete(prefix)
    ensures Tokens((if prefix == "" then "" else prefix + " ") + ShellQuote(value)) ==
            if '\0' in value then None else Some(TokensOfPrefix(prefix) + [Word(value)])
  {
    var before := TokensOfPrefix(prefix);
    PrefixIsRead(prefix, ShellQuote(value));
    assert ShellQuote(value) + "" == ShellQuote(value);
    if '\0' in value {
      NulAnywhere(before, value, "");
    } else {
      QuoteReads(START.(tokens := before), value, "");
      assert "" + value == value;
    }
  }

  /** The privileged commands of the deployment, without a password and with one:
      the script reaches the inner shell unchanged, whatever it contains. */
  lemma SudoShScript(script: string)
    requires '\0' !in script
    ensures Tokens("sudo -n sh -c" + " " + ShellQuote(script)) ==
            Some([Word("sudo"), Word("-n"), Word("sh"), Word("-c"), Word(script)])
    ensures Tokens("sudo -S -p '' sh -c" + " " + ShellQuote(script)) ==
            Some([Word("sudo"), Word("-S"), Word("-p"), Word(""), Word("sh"), Word("-c"), Word(script)])
  {
    PasswordlessPrefix();
    QuotedAtTheEnd("sudo -n sh -c", script);
    assert [Word("sudo"), Word("-n"), Word("sh"), Word("-c")] + [Word(script)]
        == [Word("sudo"), Word("-n"), Word("sh"), Word("-c"), Word(script)];
    PasswordPrefix();
    QuotedAtTheEnd("sudo -S -p '' sh -c", script);
    assert [Word("sudo"), Word("-S"), Word("-p"), Word(""), Word("sh"), Word("-c")] + [Word(script)]
        == [Word("sudo"), Word("-S"), Word("-p"), Word(""), Word("sh"), Word("-c"), Word(script)];
  }

  predicate IsOrdinary(c: char)
  {
    'a' <= c <= 'z' || 'A' <= c <= 'Z' || c == '-'
  }

  lemma OrdinaryChar(st: Scanner, c: char, rest: string)
    requires st.mode.Unquoted? && IsOrdinary(c)
    ensures Scan(st, [c] + rest) == Scan(Append(st, [c]), rest)
  {
    assert ([c] + rest)[1..] == rest;
  }

  predicate AllOrdinary(w: string)
  {
    forall i :: 0 <= i < |w| ==> IsOrdinary(w[i])
  }

  lemma {:induction false} OrdinaryWord(st: Scanner, w: string, rest: string)
    requires st.mode.Unquoted? && st.word.Some? && AllOrdinary(w)
    ensures Scan(st, w + rest) == Scan(Append(st, w), rest)
    decreases |w|
  {
    if w == "" {
      assert w + rest == rest;
      AppendTwice(st, "", "");
    } else {
      StepInWord(st, w, rest);
      OrdinaryWord(Append(st, [w[0]]), w[1..], rest);
      AppendTwice(st, [w[0]], w[1..]);
      assert [w[0]] + w[1..] == w;
    }
  }

  lemma StepInWord(st: Scanner, w: string, rest: string)
    requires st.mode.Unquoted? && w != "" && AllOrdinary(w)
    ensures Scan(st, w + rest) == Scan(Append(st, [w[0]]), w[1..] + rest)
  {
    assert w + rest == [w[0]] + (w[1..] + rest);
    OrdinaryChar(st, w[0], w[1..] + rest);
  }

  lemma WholeWord(st: Scanner, w: string, rest: string)
    requires st.mode.Unquoted? && w != "" && AllOrdinary(w)
    ensures Scan(st, w + rest) == Scan(Append(st, w), rest)
  {
    StepInWord(st, w, rest);
    OrdinaryWord(Append(st, [w[0]]), w[1..], rest);
    AppendTwice(st, [w[0]], w[1..]);
    assert [w[0]] + w[1..] == w;
  }

  /** A word of a command line as it is typed: plain, or the empty string. */
  datatype Typed = Plain(w: string) | EmptyQuotes

  predicate Typable(t: Typed)
  {
    t.Plain? ==> t.w != "" && AllOrdinary(t.w)
  }

  function Type(t: Typed): string
  {
    match t case Plain(w) => w case EmptyQuotes => "''"
  }

  function Meant(t: Typed): Token
  {
    match t case Plain(w) => Word(w) case EmptyQuotes => Word("")
  }

  lemma TypedWord(tokens: seq<Token>, t: Typed, rest: string)
    requires Typable(t)
    ensures Scan(START.(tokens := tokens), Type(t) + (" " + rest)) == Scan(START.(tokens := tokens + [Meant(t)]), rest)
  {
    var st := START.(tokens := tokens);
    assert (" " + rest)[1..] == rest;
    match t
    case Plain(w) =>
      WholeWord(st, w, " " + rest);
      assert "" + w == w;
    case EmptyQuotes =>
      assert ShellQuote("") == "''";
      QuoteReads(st, "", " " + rest);
      assert Append(st, "").word == Some("" + "") && "" + "" == "";
      assert Delimit(Append(st, "")) == START.(tokens := tokens + [Word("")]);
  }

  function TypeAll(words: seq<Typed>): string
  {
    if words == [] then "" else Type(words[0]) + (" " + TypeAll(words[1..]))
  }

  function MeantAll(words: seq<Typed>): seq<Token>
  {
    if words == [] then [] else [Meant(words[0])] + MeantAll(words[1..])
  }

  lemma {:induction false} TypedWords(tokens: seq<Token>, words: seq<Typed>)
    requires forall i :: 0 <= i < |words| ==> Typable(words[i])
    ensures Scan(START.(tokens := tokens), TypeAll(words)) == Some(START.(tokens := tokens + MeantAll(words)))
    decreases |words|
  {
    if words == [] {
      assert tokens + [] == tokens;
    } else {
      TypedWord(tokens, words[0], TypeAll(words[1..]));
      TypedWords(tokens + [Meant(words[0])], words[1..]);
      assert tokens + [Meant(words[0])] + MeantAll(words[1..]) == tokens + MeantAll(words);
    }
  }

  lemma TypedPrefix(prefix: string, words: seq<Typed>)
    requires prefix != "" && prefix + " " == TypeAll(words) && forall i :: 0 <= i < |words| ==> Typable(words[i])
    ensures Complete(prefix) && TokensOfPrefix(prefix) == MeantAll(words)
  {
    TypedWords([], words);
    assert START.(tokens := []) == START && [] + MeantAll(words) == MeantAll(words);
  }

  lemma TypedCons(t: Typed, words: seq<Typed>)
    ensures TypeAll([t] + words) == Type(t) + (" " + TypeAll(words))
    ensures MeantAll([t] + words) == [Meant(t)] + MeantAll(words)
  {
    assert ([t] + words)[1..] == words;
  }

  /** The inner shell's part of the command. */
  lemma ShellWords() returns (words: seq<Typed>)
    ensures words == [Plain("sh"), Plain("-c")]
    ensures TypeAll(words) == "sh -c " && MeantAll(words) == [Word("sh"), Word("-c")]
  {
    words := [Plain("sh")] + ([Plain("-c")] + []);
    TypedCons(Plain("-c"), []);
    TypedCons(Plain("sh"), [Plain("-c")] + []);
  }

  lemma PasswordlessPrefix()
    ensures Complete("sudo -n sh -c")
    ensures TokensOfPrefix("sudo -n sh -c") == [Word("sudo"), Word("-n"), Word("sh"), Word("-c")]
  {
    var shell := ShellWords();
    var n := [Plain("-n")] + shell;
    TypedCons(Plain("-n"), shell);
    TypedCons(Plain("sudo"), n);
    TypedPrefix("sudo -n sh -c", [Plain("sudo")] + n);
  }

  lemma PrefixesJoin()
    ensures "-S" + (" " + "-p '' sh -c ") == "-S -p '' sh -c "
    ensures "sudo" + (" " + "-S -p '' sh -c ") == "sudo -S -p '' sh -c" + " "
  {
  }

  lemma PromptWords() returns (words: seq<Typed>)
    ensures forall i :: 0 <= i < |words| ==> Typable(words[i])
    ensures TypeAll(words) == "-p '' sh -c "
    ensures MeantAll(words) == [Word("-p"), Word(""), Word("sh"), Word("-c")]
  {
    var shell := ShellWords();
    var quotes := [EmptyQuotes] + shell;
    TypedCons(EmptyQuotes, shell);
    words := [Plain("-p")] + quotes;
    TypedCons(Plain("-p"), quotes);
  }

  lemma PasswordWords() returns (words: seq<Typed>)
    ensures forall i :: 0 <= i < |words| ==> Typable(words[i])
    ensures TypeAll(words) == "-S -p '' sh -c "
    ensures MeantAll(words) == [Word("-S"), Word("-p"), Word(""), Word("sh"), Word("-c")]
  {
    var prompt := PromptWords();
    words := [Plain("-S")] + prompt;
    TypedCons(Plain("-S"), prompt);
    PrefixesJoin();
  }

  lemma PasswordPrefix()
    ensures Complete("sudo -S -p '' sh -c")
    ensures TokensOfPrefix("sudo -S -p '' sh -c") ==
            [Word("sudo"), Word("-S"), Word("-p"), Word(""), Word("sh"), Word("-c")]
  {
    var words := PasswordWords();
    TypedCons(Plain("sudo"), words);
    PrefixesJoin();
    TypedPrefix("sudo -S -p '' sh -c", [Plain("sudo")] + words);
  }
}
