/** The cloud-init seed documents: validated, rendered by hand, and read line
    by line. */
module Seed {
  import opened Basics
  import opened Strings

  // ---------------------------------------------------------------------
  // Validation
  // ---------------------------------------------------------------------

  predicate IsAlphanumeric(c: char)
  {
    'a' <= c <= 'z' || 'A' <= c <= 'Z' || '0' <= c <= '9'
  }

  /** A host label, section 2.1 of RFC 1123. */
  predicate IsLabel(s: string)
  {
    && 1 <= |s| <= 63
    && IsAlphanumeric(s[0]) && IsAlphanumeric(s[|s| - 1])
    && forall i :: 0 <= i < |s| ==> IsAlphanumeric(s[i]) || s[i] == '-'
  }

  /** A portable account name. */
  predicate IsAccount(s: string)
  {
    && 1 <= |s| <= 32
    && ('a' <= s[0] <= 'z' || s[0] == '_')
    && forall i :: 0 <= i < |s| ==> 'a' <= s[i] <= 'z' || '0' <= s[i] <= '9' || s[i] == '_' || s[i] == '-'
  }

  /** A `$` also matches before one final line break, so both patterns let that
      through. */
  function WithoutFinalBreak(s: string): string
  {
    if s != "" && s[|s| - 1] == '\n' then s[..|s| - 1] else s
  }

  predicate AcceptsHostname(s: string)
  {
    IsLabel(s) || IsLabel(WithoutFinalBreak(s))
  }

  predicate AcceptsAccount(s: string)
  {
    IsAccount(s) || IsAccount(WithoutFinalBreak(s))
  }

  const KEY_TYPES := [
    "ssh-ed25519", "ssh-rsa", "ecdsa-sha2-nistp256", "ecdsa-sha2-nistp384", "ecdsa-sha2-nistp521",
    "sk-ssh-ed25519@openssh.com", "sk-ecdsa-sha2-nistp256@openssh.com"]

  /** The key without white space around it, if it is one recognised line. */
  function AcceptedKey(publicKey: string): Option<string>
  {
    var candidate := Trim(IsSpacePython, publicKey);
    if candidate == "" || '\n' in candidate || '\r' in candidate then None
    else if forall i :: 0 <= i < |KEY_TYPES| ==> !(KEY_TYPES[i] <= candidate) then None
    else Some(candidate)
  }

  // ---------------------------------------------------------------------
  // Rendering
  // ---------------------------------------------------------------------

  function Doubled(value: string): string
  {
    if value == "" then "" else (if value[0] == '\'' then "''" else [value[0]]) + Doubled(value[1..])
  }

  /** `_yaml_quote`. */
  function YamlQuote(value: string): string
  {
    "'" + (Doubled(value) + "'")
  }

  datatype Scalar = Bare(text: string) | Quoted(text: string)

  /** One line of a document. */
  datatype Line =
    | Comment(text: string)
    | Pair(indent: nat, dash: bool, key: string, value: Scalar)
    | Section(indent: nat, key: string)
    | Item(indent: nat, value: Scalar)

  function ShowScalar(v: Scalar): string
  {
    match v
    case Bare(text) => text
    case Quoted(text) => YamlQuote(text)
  }

  function Show(line: Line): string
  {
    match line
    case Comment(text) => "#" + text
    case Pair(indent, dash, key, value) =>
      Spaces(indent) + ((if dash then "- " else "") + (key + (": " + ShowScalar(value))))
    case Section(indent, key) => Spaces(indent) + (key + ":")
    case Item(indent, value) => Spaces(indent) + ("- " + ShowScalar(value))
  }

  function ShowLines(lines: seq<Line>): seq<string>
  {
    if lines == [] then [] else [Show(lines[0])] + ShowLines(lines[1..])
  }

  function HostLines(hostname: string): seq<Line>
  {
    [Comment("cloud-config"),
     Pair(0, false, "hostname", Quoted(hostname)),
     Pair(0, false, "fqdn", Quoted(hostname)),
     Pair(0, false, "preserve_hostname", Bare("false")),
     Pair(0, false, "manage_etc_hosts", Bare("true")),
     Pair(0, false, "ssh_deletekeys", Bare("true"))]
  }

  function AccountLines(username: string, key: string): seq<Line>
  {
    [Section(0, "users"),
     Pair(2, true, "name", Quoted(username)),
     Pair(4, false, "shell", Bare("/bin/bash")),
     Pair(4, false, "lock_passwd", Bare("true")),
     Pair(4, false, "sudo", Quoted("ALL=(ALL) NOPASSWD:ALL")),
     Section(4, "ssh_authorized_keys"),
     Item(6, Quoted(key))]
  }

  function AccessLines(): seq<Line>
  {
    [Pair(0, false, "ssh_pwauth", Bare("false")),
     Pair(0, false, "disable_root", Bare("true"))]
  }

  function UserData(hostname: string, username: string, key: string): seq<Line>
  {
    HostLines(hostname) + AccountLines(username, key) + AccessLines()
  }

  function MetaData(hostname: string, instanceId: string): seq<Line>
  {
    [Pair(0, false, "instance-id", Quoted(instanceId)),
     Pair(0, false, "local-hostname", Quoted(hostname))]
  }

  /** Rendering fails exactly when a validator objects. */
  function RenderUserData(hostname: string, username: string, publicKey: string): Option<string>
  {
    if !AcceptsHostname(hostname) || !AcceptsAccount(username) then None
    else
      match AcceptedKey(publicKey)
      case None => None
      case Some(key) => Some(Join(ShowLines(UserData(hostname, username, key)) + [""]))
  }

  function RenderMetaData(hostname: string, instanceId: string): Option<string>
  {
    if !AcceptsHostname(hostname) then None
    else Some(Join(ShowLines(MetaData(hostname, instanceId)) + [""]))
  }

  /** The name itself, or the name and one line break. */
  predicate WithBreak(s: string, name: string)
  {
    s == name || s == name + "\n"
  }

  lemma BreakAtMost(s: string)
    ensures WithBreak(s, WithoutFinalBreak(s))
    ensures forall name: string :: s == name + "\n" ==> name == WithoutFinalBreak(s)
  {
    if s != "" {
      LastApart(s);
    }
  }

  lemma AcceptedHostnames(s: string)
    ensures AcceptsHostname(s) <==> exists name :: IsLabel(name) && WithBreak(s, name)
  {
    BreakAtMost(s);
    if IsLabel(s) {
      assert WithBreak(s, s);
    }
  }

  lemma AcceptedAccounts(s: string)
    ensures AcceptsAccount(s) <==> exists name :: IsAccount(name) && WithBreak(s, name)
  {
    BreakAtMost(s);
    if IsAccount(s) {
      assert WithBreak(s, s);
    }
  }

  /** A user-data document is written exactly for a label, an account name, each
      with at most a line break after it, and a key of a known type on one line. */
  lemma RendersExactly(hostname: string, username: string, publicKey: string)
    ensures RenderUserData(hostname, username, publicKey).Some? <==>
            && (exists name :: IsLabel(name) && WithBreak(hostname, name))
            && (exists name :: IsAccount(name) && WithBreak(username, name))
            && var key := Trim(IsSpacePython, publicKey);
            && key != "" && '\n' !in key && '\r' !in key
            && exists i :: 0 <= i < |KEY_TYPES| && KEY_TYPES[i] <= key
  {
    AcceptedHostnames(hostname);
    AcceptedAccounts(username);
  }

  // ---------------------------------------------------------------------
  // Reading
  // ---------------------------------------------------------------------

  /** nb-json of section 5.1 of YAML 1.2.2: what a quoted scalar may hold. */
  predicate IsJsonChar(c: char)
  {
    c == '\t' || c >= ' '
  }

  predicate IsKeyChar(c: char)
  {
    'a' <= c <= 'z' || c == '_' || c == '-'
  }

  /** Plain scalars of the one shape that occurs: letters and slashes. */
  predicate IsPlainChar(c: char)
  {
    'a' <= c <= 'z' || c == '/'
  }

  predicate AllIn(s: string, p: char -> bool)
  {
    forall i :: 0 <= i < |s| ==> p(s[i])
  }

  /** The rest of a single-quoted scalar (section 7.3.2): a doubled quote stands
      for one, a single one ends it. */
  function ReadQuoted(s: string): Option<(string, string)>
    decreases |s|
  {
    if s == "" || !IsJsonChar(s[0]) then None
    else if s[0] != '\'' then Prepend(s[0], ReadQuoted(s[1..]))
    else if |s| > 1 && s[1] == '\'' then Prepend('\'', ReadQuoted(s[2..]))
    else Some(("", s[1..]))
  }

  /** A scalar that takes up the rest of the line. */
  function ReadScalar(s: string): Option<Scalar>
  {
    if s != "" && s[0] == '\'' then
      match ReadQuoted(s[1..])
      case None => None
      case Some((text, rest)) => if rest == "" then Some(Quoted(text)) else None
    else if s != "" && AllIn(s, IsPlainChar) then Some(Bare(s))
    else None
  }

  function KeyLength(s: string): (n: nat)
    ensures n <= |s|
  {
    if s == "" || !IsKeyChar(s[0]) then 0 else 1 + KeyLength(s[1..])
  }

  function ReadPair(indent: nat, dash: bool, s: string): Option<Line>
  {
    var n := KeyLength(s);
    var t := s[n..];
    if n == 0 then None
    else if t == ":" then if dash then None else Some(Section(indent, s[..n]))
    else if |t| >= 2 && t[0] == ':' && t[1] == ' ' then
      match ReadScalar(t[2..])
      case None => None
      case Some(v) => Some(Pair(indent, dash, s[..n], v))
    else None
  }

  function ReadLine(indent: nat, s: string): Option<Line>
    decreases |s|
  {
    if s == "" then None
    else if s[0] == ' ' then ReadLine(indent + 1, s[1..])
    else if s[0] == '#' then if indent == 0 then Some(Comment(s[1..])) else None
    else if |s| >= 2 && s[0] == '-' && s[1] == ' ' then
      if |s| > 2 && s[2] == '\'' then
        match ReadScalar(s[2..])
        case None => None
        case Some(v) => Some(Item(indent, v))
      else ReadPair(indent, true, s[2..])
    else ReadPair(indent, false, s)
  }

  /** Every line of a text that ends with a line break. */
  function Read(s: string): Option<seq<Line>>
    decreases |s|
  {
    if s == "" then Some([])
    else
      var n := LineLength(s);
      if n == |s| then None
      else
        match ReadLine(0, s[..n])
        case None => None
        case Some(line) =>
          match Read(s[n + 1..])
          case None => None
          case Some(others) => Some([line] + others)
  }

  // ---------------------------------------------------------------------
  // Quoted scalars
  // ---------------------------------------------------------------------

  lemma {:induction false} QuotedReads(value: string, rest: string)
    requires AllIn(value, IsJsonChar) && (rest != "" ==> rest[0] != '\'')
    ensures ReadQuoted(Doubled(value) + ("'" + rest)) == Some((value, rest))
  {
    var s := Doubled(value) + ("'" + rest);
    if value == "" {
      assert s == "'" + rest && s[1..] == rest;
    } else {
      QuotedReads(value[1..], rest);
      DoubledCons(value, "'" + rest);
      FirstApart(value);
    }
  }

  /** A quoted scalar that is cut off, or that holds a character YAML does not
      allow there, is not read at all. */
  lemma {:induction false} UnclosedIsRefused(value: string, rest: string)
    requires AllIn(value, IsJsonChar) && (rest != "" ==> !IsJsonChar(rest[0]))
    ensures ReadQuoted(Doubled(value) + rest) == None
  {
    if value == "" {
      assert Doubled(value) + rest == rest;
    } else {
      UnclosedIsRefused(value[1..], rest);
      DoubledCons(value, rest);
    }
  }

  lemma DoubledCons(value: string, rest: string)
    requires value != "" && IsJsonChar(value[0])
    ensures ReadQuoted(Doubled(value) + rest) == Prepend(value[0], ReadQuoted(Doubled(value[1..]) + rest))
  {
    var others := Doubled(value[1..]);
    if value[0] == '\'' {
      assert Doubled(value) + rest == ['\'', '\''] + (others + rest);
      ReadTwoQuotes(others + rest);
    } else {
      assert Doubled(value) + rest == [value[0]] + (others + rest);
      ReadOneChar(value[0], others + rest);
    }
  }

  lemma ReadTwoQuotes(rest: string)
    ensures ReadQuoted(['\'', '\''] + rest) == Prepend('\'', ReadQuoted(rest))
  {
    var s := ['\'', '\''] + rest;
    assert s[0] == '\'' && s[1] == '\'' && s[2..] == rest;
  }

  lemma ReadOneChar(c: char, rest: string)
    requires c != '\'' && IsJsonChar(c)
    ensures ReadQuoted([c] + rest) == Prepend(c, ReadQuoted(rest))
  {
    var s := [c] + rest;
    assert s[0] == c && s[1..] == rest;
  }

  lemma {:induction false} DoubledConcat(a: string, b: string)
    ensures Doubled(a + b) == Doubled(a) + Doubled(b)
  {
    if a == "" {
      assert a + b == b;
    } else {
      assert (a + b)[1..] == a[1..] + b;
      DoubledConcat(a[1..], b);
    }
  }

  lemma {:induction false} DoubledHasNoBreak(value: string)
    ensures '\n' !in value ==> '\n' !in Doubled(value)
  {
    if value == "" {
    } else {
      assert value[0] in value;
      DoubledHasNoBreak(value[1..]);
    }
  }

  // ---------------------------------------------------------------------
  // Lines
  // ---------------------------------------------------------------------

  predicate GoodKey(key: string)
  {
    key != "" && key[0] != '-' && AllIn(key, IsKeyChar)
  }

  /** The shapes of line the renderers use. */
  predicate WellShaped(line: Line)
  {
    match line
    case Comment(text) => '\n' !in text
    case Pair(_, _, key, value) => GoodKey(key) && (value.Bare? ==> value.text != "" && AllIn(value.text, IsPlainChar))
    case Section(_, key) => GoodKey(key)
    case Item(_, value) => value.Quoted?
  }

  /** Its quoted text, if it has any, holds only characters YAML allows there. */
  predicate Allowed(line: Line)
  {
    (line.Pair? || line.Item?) && line.value.Quoted? ==> AllIn(line.value.text, IsJsonChar)
  }

  /** What stands before the scalar on a line that has one. */
  function Lead(line: Line): string
    requires line.Pair? || line.Item?
  {
    match line
    case Pair(_, dash, key, _) => (if dash then "- " else "") + (key + ": ")
    case Item(_, _) => "- "
  }

  lemma {:induction false} IndentReads(indent: nat, n: nat, s: string)
    ensures ReadLine(indent, Spaces(n) + s) == ReadLine(indent + n, s)
    decreases n
  {
    if n == 0 {
      assert Spaces(n) + s == s;
    } else {
      assert (Spaces(n) + s)[1..] == Spaces(n - 1) + s;
      IndentReads(indent + 1, n - 1, s);
    }
  }

  lemma {:induction false} KeyEnds(key: string, rest: string)
    requires AllIn(key, IsKeyChar) && (rest != "" ==> !IsKeyChar(rest[0]))
    ensures KeyLength(key + rest) == |key|
  {
    if key == "" {
      assert key + rest == rest;
    } else {
      assert (key + rest)[1..] == key[1..] + rest;
      KeyEnds(key[1..], rest);
    }
  }

  lemma PairReads(indent: nat, dash: bool, key: string, scalar: string)
    requires GoodKey(key)
    ensures ReadPair(indent, dash, key + (": " + scalar)) ==
            match ReadScalar(scalar) case None => None case Some(v) => Some(Pair(indent, dash, key, v))
  {
    var s := key + (": " + scalar);
    KeyEnds(key, ": " + scalar);
    assert s[|key|..] == ": " + scalar && s[..|key|] == key;
    assert (": " + scalar)[2..] == scalar;
  }

  lemma PlainPairReads(indent: nat, key: string, rest: string)
    requires GoodKey(key)
    ensures ReadLine(indent, key + rest) == ReadPair(indent, false, key + rest)
  {
    assert IsKeyChar(key[0]);
    assert (key + rest)[0] == key[0];
  }

  lemma DashPairReads(indent: nat, key: string, rest: string)
    requires GoodKey(key)
    ensures ReadLine(indent, "- " + (key + rest)) == ReadPair(indent, true, key + rest)
  {
    var s := "- " + (key + rest);
    assert IsKeyChar(key[0]);
    assert s[2..] == key + rest && s[2] == key[0];
  }

  lemma PairLeadReads(indent: nat, dash: bool, key: string, scalar: string)
    requires GoodKey(key)
    ensures ReadLine(indent, (if dash then "- " else "") + (key + (": " + scalar))) ==
            match ReadScalar(scalar) case None => None case Some(v) => Some(Pair(indent, dash, key, v))
  {
    PairReads(indent, dash, key, scalar);
    if dash {
      DashPairReads(indent, key, ": " + scalar);
    } else {
      PlainPairReads(indent, key, ": " + scalar);
      assert "" + (key + (": " + scalar)) == key + (": " + scalar);
    }
  }

  lemma ItemLeadReads(indent: nat, scalar: string)
    requires scalar != "" && scalar[0] == '\''
    ensures ReadLine(indent, "- " + scalar) ==
            match ReadScalar(scalar) case None => None case Some(v) => Some(Item(indent, v))
  {
    assert ("- " + scalar)[2..] == scalar;
  }

  lemma IndentedPairReads(indent: nat, dash: bool, key: string, scalar: string)
    requires GoodKey(key)
    ensures ReadLine(0, Spaces(indent) + ((if dash then "- " else "") + (key + ": ") + scalar)) ==
            match ReadScalar(scalar) case None => None case Some(v) => Some(Pair(indent, dash, key, v))
  {
    var start := if dash then "- " else "";
    assert start + (key + ": ") + scalar == start + (key + (": " + scalar));
    IndentReads(0, indent, start + (key + (": " + scalar)));
    PairLeadReads(indent, dash, key, scalar);
  }

  /** A line is read by its lead and by whatever is left of its scalar. */
  lemma LeadReads(line: Line, scalar: string)
    requires WellShaped(line) && (line.Pair? || line.Item?)
    requires line.Item? ==> scalar != "" && scalar[0] == '\''
    ensures ReadLine(0, Spaces(line.indent) + (Lead(line) + scalar)) ==
            match ReadScalar(scalar) case None => None case Some(v) => Some(line.(value := v))
  {
    match line
    case Pair(indent, dash, key, _) =>
      IndentedPairReads(indent, dash, key, scalar);
    case Item(indent, _) =>
      IndentReads(0, indent, "- " + scalar);
      ItemLeadReads(indent, scalar);
  }

  lemma AllowedLineReads(line: Line)
    requires WellShaped(line) && Allowed(line)
    ensures ReadLine(0, Show(line)) == Some(line)
  {
    match line
    case Comment(text) =>
      assert Show(line)[1..] == text;
    case Section(indent, key) =>
      IndentReads(0, indent, key + ":");
      KeyEnds(key, ":");
      assert (key + ":")[|key|..] == ":" && (key + ":")[..|key|] == key;
      assert (key + ":")[0] == key[0];
    case Pair(indent, dash, key, value) =>
      ScalarReads(value);
      LeadReads(line, ShowScalar(value));
      assert Show(line) == Spaces(indent) + (Lead(line) + ShowScalar(value)) by {
        assert (if dash then "- " else "") + (key + (": " + ShowScalar(value))) == Lead(line) + ShowScalar(value);
      }
    case Item(indent, value) =>
      ScalarReads(value);
      LeadReads(line, ShowScalar(value));
  }

  lemma ScalarReads(v: Scalar)
    requires v.Quoted? ==> AllIn(v.text, IsJsonChar)
    requires v.Bare? ==> v.text != "" && AllIn(v.text, IsPlainChar)
    ensures ReadScalar(ShowScalar(v)) == Some(v)
  {
    if v.Quoted? {
      QuotedReads(v.text, "");
      assert ShowScalar(v)[1..] == Doubled(v.text) + ("'" + "");
    }
  }

  // ---------------------------------------------------------------------
  // Documents
  // ---------------------------------------------------------------------

  lemma {:induction false} SpacesHaveNoBreak(n: nat)
    ensures '\n' !in Spaces(n)
  {
    if n == 0 {
    } else {
      SpacesHaveNoBreak(n - 1);
    }
  }

  lemma LeadHasNoBreak(line: Line)
    requires WellShaped(line) && (line.Pair? || line.Item?)
    ensures '\n' !in Spaces(line.indent) + Lead(line)
  {
    SpacesHaveNoBreak(line.indent);
    if line.Pair? {
      assert '\n' !in line.key;
    }
  }

  lemma AllowedLineIsOneLine(line: Line)
    requires WellShaped(line) && Allowed(line)
    ensures '\n' !in Show(line)
  {
    match line
    case Comment(_) =>
    case Section(indent, key) =>
      SpacesHaveNoBreak(indent);
      assert '\n' !in key;
    case _ =>
      LeadHasNoBreak(line);
      assert '\n' !in line.value.text;
      DoubledHasNoBreak(line.value.text);
      assert forall c :: c in Show(line) ==> c in Spaces(line.indent) + Lead(line) || c in ShowScalar(line.value);
  }

  /** How much of a scalar that holds a forbidden character is left on its line:
      everything up to that character, and never a closing quote. */
  lemma CutTwice(s: string, m: nat, n: nat)
    requires m <= n <= |s|
    ensures s[..n] == s[..m] + s[m..n]
  {
  }

  lemma Regroup(a: string, b: string, c: string, d: string)
    ensures a + (b + c) + d == a + (b + (c + d))
  {
  }

  lemma CutScalar(lead: string, text: string, rest: string) returns (good: string, tail: string)
    requires '\n' !in lead && !AllIn(text, IsJsonChar)
    ensures AllIn(good, IsJsonChar) && (tail != "" ==> !IsJsonChar(tail[0]))
    ensures var s := lead + YamlQuote(text) + "\n" + rest;
      LineLength(s) < |s| && s[..LineLength(s)] == lead + ("'" + (Doubled(good) + tail))
  {
    var i := FirstForbidden(text);
    good := text[..i];
    var c, quoted, head := text[i], lead + YamlQuote(text), lead + ("'" + Doubled(good));
    var s := quoted + "\n" + rest;
    assert '\n' !in good;
    DoubledHasNoBreak(good);
    QuotedUpTo(lead, text, i);
    LineUpTo(quoted, |head|, rest);
    var n := LineLength(s);
    tail := s[|head|..n];
    CutTwice(s, |head|, n);
    Regroup(lead, "'", Doubled(good), tail);
  }

  lemma LineUpTo(line: string, start: nat, rest: string)
    requires start < |line| && '\n' !in line[..start]
    ensures var s := line + "\n" + rest;
      start <= LineLength(s) <= |line| && s[start] == line[start] && s[..start] == line[..start]
  {
    var s := line + "\n" + rest;
    assert s[..start] == line[..start];
    LineLengthBounds(s, start, |line|);
  }

  lemma QuotedUpTo(lead: string, text: string, i: nat)
    requires i < |text| && text[i] != '\''
    ensures var (line, head) := (lead + YamlQuote(text), lead + ("'" + Doubled(text[..i])));
      |head| < |line| && line[..|head|] == head && line[|head|] == text[i]
  {
    var good, c, others := text[..i], text[i], text[i + 1..];
    var head := lead + ("'" + Doubled(good));
    assert text == good + ([c] + others);
    DoubledConcat(good, [c] + others);
    assert ([c] + others)[1..] == others;
    assert lead + YamlQuote(text) == head + ([c] + (Doubled(others) + "'"));
  }

  lemma {:induction false} FirstForbidden(text: string) returns (i: nat)
    requires !AllIn(text, IsJsonChar)
    ensures i < |text| && !IsJsonChar(text[i]) && AllIn(text[..i], IsJsonChar)
  {
    if !IsJsonChar(text[0]) {
      i := 0;
    } else {
      var j := FirstForbidden(text[1..]);
      i := j + 1;
      assert text[..i] == [text[0]] + text[1..][..j];
    }
  }

  lemma CutLineIsRefused(line: Line, good: string, tail: string)
    requires WellShaped(line) && (line.Pair? || line.Item?)
    requires AllIn(good, IsJsonChar) && (tail != "" ==> !IsJsonChar(tail[0]))
    ensures ReadLine(0, Spaces(line.indent) + Lead(line) + ("'" + (Doubled(good) + tail))) == None
  {
    var scalar := "'" + (Doubled(good) + tail);
    UnclosedIsRefused(good, tail);
    assert scalar[1..] == Doubled(good) + tail;
    LeadReads(line, scalar);
    assert Spaces(line.indent) + (Lead(line) + scalar) == Spaces(line.indent) + Lead(line) + scalar;
  }

  lemma ShowSplits(line: Line)
    requires line.Pair? || line.Item?
    ensures Show(line) == Spaces(line.indent) + Lead(line) + ShowScalar(line.value)
  {
  }

  lemma ForbiddenLineIsRefused(line: Line, rest: string)
    requires WellShaped(line) && !Allowed(line)
    ensures Read(Show(line) + "\n" + rest) == None
  {
    LeadHasNoBreak(line);
    ShowSplits(line);
    var good, tail := CutScalar(Spaces(line.indent) + Lead(line), line.value.text, rest);
    CutLineIsRefused(line, good, tail);
  }

  lemma AllowedLineIsRead(line: Line, rest: string)
    requires WellShaped(line) && Allowed(line)
    ensures Read(Show(line) + "\n" + rest) ==
            match Read(rest) case None => None case Some(others) => Some([line] + others)
  {
    var s := Show(line) + "\n" + rest;
    AllowedLineIsOneLine(line);
    LineBreakFound(Show(line), rest);
    AllowedLineReads(line);
    assert s[..|Show(line)|] == Show(line) && s[|Show(line)| + 1..] == rest;
  }

  /** A rendered document reads back exactly when all its quoted texts consist
      of characters YAML allows there. */
  lemma {:induction false} ReadsExactly(lines: seq<Line>)
    requires forall i :: 0 <= i < |lines| ==> WellShaped(lines[i])
    ensures Read(Unlines(ShowLines(lines))) ==
            if forall i :: 0 <= i < |lines| ==> Allowed(lines[i]) then Some(lines) else None
  {
    if lines == [] {
    } else {
      var rest := Unlines(ShowLines(lines[1..]));
      assert ShowLines(lines)[1..] == ShowLines(lines[1..]);
      assert Unlines(ShowLines(lines)) == Show(lines[0]) + "\n" + rest;
      ReadsExactly(lines[1..]);
      if Allowed(lines[0]) {
        AllowedLineIsRead(lines[0], rest);
        FirstApart(lines);
      } else {
        ForbiddenLineIsRefused(lines[0], rest);
      }
    }
  }

  lemma RenderedIsUnlines(lines: seq<Line>)
    requires lines != []
    ensures Join(ShowLines(lines) + [""]) == Unlines(ShowLines(lines))
  {
    assert ShowLines(lines) != [];
    JoinIsUnlines(ShowLines(lines));
  }

  lemma HostLiterals()
    ensures GoodKey("hostname") && GoodKey("fqdn") && GoodKey("preserve_hostname")
    ensures GoodKey("manage_etc_hosts") && GoodKey("ssh_deletekeys")
    ensures AllIn("true", IsPlainChar) && AllIn("false", IsPlainChar)
  {
  }

  lemma HostLinesAllowed(hostname: string)
    ensures var lines := HostLines(hostname);
      && (forall i :: 0 <= i < |lines| ==> WellShaped(lines[i]))
      && ((forall i :: 0 <= i < |lines| ==> Allowed(lines[i])) <==> AllIn(hostname, IsJsonChar))
  {
    var lines := HostLines(hostname);
    HostLiterals();
    assert Allowed(lines[1]) <==> AllIn(hostname, IsJsonChar);
    assert Allowed(lines[2]) <==> AllIn(hostname, IsJsonChar);
    assert Allowed(lines[0]) && Allowed(lines[3]) && Allowed(lines[4]) && Allowed(lines[5]);
  }

  lemma AccountLiterals()
    ensures GoodKey("users") && GoodKey("name") && GoodKey("shell") && GoodKey("lock_passwd")
    ensures GoodKey("sudo") && GoodKey("ssh_authorized_keys")
    ensures AllIn("/bin/bash", IsPlainChar) && AllIn("true", IsPlainChar)
    ensures AllIn("ALL=(ALL) NOPASSWD:ALL", IsJsonChar)
  {
  }

  lemma AccountLinesAllowed(username: string, key: string)
    ensures var lines := AccountLines(username, key);
      && (forall i :: 0 <= i < |lines| ==> WellShaped(lines[i]))
      && ((forall i :: 0 <= i < |lines| ==> Allowed(lines[i])) <==>
          AllIn(username, IsJsonChar) && AllIn(key, IsJsonChar))
  {
    var lines := AccountLines(username, key);
    AccountLiterals();
    assert lines[1].value == Quoted(username) && lines[6].value == Quoted(key);
    assert Allowed(lines[1]) <==> AllIn(username, IsJsonChar);
    assert Allowed(lines[6]) <==> AllIn(key, IsJsonChar);
  }

  lemma AccessLinesAllowed()
    ensures var lines := AccessLines();
      forall i :: 0 <= i < |lines| ==> WellShaped(lines[i]) && Allowed(lines[i])
  {
    var lines := AccessLines();
    assert WellShaped(lines[0]) && WellShaped(lines[1]);
  }

  lemma ReadsPartsExactly(a: seq<Line>, b: seq<Line>, c: seq<Line>)
    requires forall i :: 0 <= i < |a| ==> WellShaped(a[i])
    requires forall i :: 0 <= i < |b| ==> WellShaped(b[i])
    requires forall i :: 0 <= i < |c| ==> WellShaped(c[i])
    requires forall i :: 0 <= i < |c| ==> Allowed(c[i])
    ensures Read(Unlines(ShowLines(a + b + c))) ==
            if (forall i :: 0 <= i < |a| ==> Allowed(a[i])) && (forall i :: 0 <= i < |b| ==> Allowed(b[i]))
            then Some(a + b + c) else None
  {
    var all := a + b + c;
    ReadsExactly(all);
    if forall i :: 0 <= i < |all| ==> Allowed(all[i]) {
      assert forall i :: 0 <= i < |a| ==> a[i] == all[i];
      assert forall i :: 0 <= i < |b| ==> b[i] == all[|a| + i];
    }
  }

  /** The lines of the user-data are read if and only if neither name ends in a
      line break and the key holds no control character. */
  lemma UserDataLines(hostname: string, username: string, publicKey: string)
    requires RenderUserData(hostname, username, publicKey).Some?
    ensures var key := AcceptedKey(publicKey).value;
      Read(RenderUserData(hostname, username, publicKey).value) ==
      if '\n' !in hostname && '\n' !in username && AllIn(key, IsJsonChar)
      then Some(UserData(hostname, username, key)) else None
  {
    var key := AcceptedKey(publicKey).value;
    HostLinesAllowed(hostname);
    AccountLinesAllowed(username, key);
    AccessLinesAllowed();
    AcceptedNames(hostname, username);
    RenderedIsUnlines(UserData(hostname, username, key));
    ReadsPartsExactly(HostLines(hostname), AccountLines(username, key), AccessLines());
  }

  lemma MetaDataLines(hostname: string, instanceId: string)
    requires RenderMetaData(hostname, instanceId).Some?
    ensures Read(RenderMetaData(hostname, instanceId).value) ==
      if '\n' !in hostname && AllIn(instanceId, IsJsonChar) then Some(MetaData(hostname, instanceId)) else None
  {
    var lines := MetaData(hostname, instanceId);
    MetaLinesAllowed(hostname, instanceId);
    AcceptedHostname(hostname);
    RenderedIsUnlines(lines);
    ReadsExactly(lines);
  }

  lemma MetaLinesAllowed(hostname: string, instanceId: string)
    ensures var lines := MetaData(hostname, instanceId);
      && (forall i :: 0 <= i < |lines| ==> WellShaped(lines[i]))
      && ((forall i :: 0 <= i < |lines| ==> Allowed(lines[i])) <==>
          AllIn(hostname, IsJsonChar) && AllIn(instanceId, IsJsonChar))
  {
    var lines := MetaData(hostname, instanceId);
    assert lines[0].key[0] == 'i' && lines[1].key[0] == 'l';
    assert WellShaped(lines[0]) && WellShaped(lines[1]);
    assert Allowed(lines[0]) <==> AllIn(instanceId, IsJsonChar);
    assert Allowed(lines[1]) <==> AllIn(hostname, IsJsonChar);
  }

  lemma AcceptedHostname(hostname: string)
    requires AcceptsHostname(hostname)
    ensures AllIn(hostname, IsJsonChar) <==> '\n' !in hostname
    ensures '\n' !in hostname ==> IsLabel(hostname)
  {
    if !IsLabel(hostname) {
      assert hostname[|hostname| - 1] == '\n' && hostname[|hostname| - 1] in hostname;
    }
  }

  lemma AcceptedNames(hostname: string, username: string)
    requires AcceptsHostname(hostname) && AcceptsAccount(username)
    ensures AllIn(hostname, IsJsonChar) <==> '\n' !in hostname
    ensures AllIn(username, IsJsonChar) <==> '\n' !in username
  {
    AcceptedHostname(hostname);
    if !IsAccount(username) {
      assert username[|username| - 1] == '\n' && username[|username| - 1] in username;
    }
  }
}
