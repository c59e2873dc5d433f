/** Rewriting the machine-local overlay after setup. */
module Overlay {
  import opened Basics
  import opened Strings
  import opened Lookup
  import opened Toml
  import opened Dictionary
  import opened TomlReload

  // ---------------------------------------------------------------------
  // The update
  // ---------------------------------------------------------------------

  /** A copy of the ssh table: empty when absent, and also for an empty string
      or array; any other value that is not a table cannot be copied. */
  function SshEntries(doc: Doc): Option<seq<Entry>>
  {
    match Find<Item>(doc, "ssh")
    case None => Some([])
    case Some(Table(entries)) => Some(entries)
    case Some(Leaf(value)) => if value == Text("") || value == Other("[]") then Some([]) else None
  }

  function Identity(entries: seq<Entry>, user: string, keyPath: string): seq<Entry>
  {
    Set(Set(entries, "user", Text(user)), "key_path", Text(keyPath))
  }

  function Updated(doc: Doc, user: string, keyPath: string): Option<Doc>
  {
    match SshEntries(doc)
    case None => None
    case Some(entries) => Some(Set(doc, "ssh", Table(Identity(entries, user, keyPath))))
  }

  predicate Visible(s: string)
  {
    forall i :: 0 <= i < |s| ==> ' ' <= s[i] <= '~'
  }

  /** Any comment lines will do as a header. */
  predicate IsHeader(header: seq<string>)
  {
    forall i :: 0 <= i < |header| ==> header[i] != "" && header[i][0] == '#' && Visible(header[i])
  }

  /** The header, a blank line, and the document. */
  function OverlayText(header: seq<string>, doc: Doc): string
  {
    Unlines(header) + ("\n" + Emit(doc))
  }

  /** A TOML parser, known by what it makes of texts: every key once, values of
      any kind, and whatever the reference reader reads, read the same way. */
  type Parser = string -> Option<Doc>

  ghost predicate Faithful(parse: Parser)
  {
    && (forall t :: parse(t).Some? ==> Distinct(parse(t).value))
    && forall t :: Read(t).Some? ==> parse(t) == Read(t)
  }

  /** A missing file is an empty document. */
  function Stored(parse: Parser, text: Option<string>): Option<Doc>
  {
    match text case None => Some([]) case Some(t) => parse(t)
  }

  /** What the file is rewritten to, unless it does not parse or has an ssh
      entry that cannot be copied. */
  function Rewritten(parse: Parser, header: seq<string>, text: Option<string>, user: string, keyPath: string)
    : Option<string>
  {
    match Stored(parse, text)
    case None => None
    case Some(doc) =>
      match Updated(doc, user, keyPath)
      case None => None
      case Some(after) => Some(OverlayText(header, after))
  }

  /** Every key that will be printed is bare, and every value prints so that it
      reads back. */
  ghost predicate WillReload(parse: Parser, text: Option<string>, user: string, keyPath: string)
    requires Stored(parse, text).Some? && Updated(Stored(parse, text).value, user, keyPath).Some?
  {
    Clean(Updated(Stored(parse, text).value, user, keyPath).value)
  }

  /** The text reads as the new user and key path and, for the rest, as what was
      there before. */
  ghost predicate CarriesOver(before: Doc, text: string, user: string, keyPath: string)
    requires SshEntries(before).Some?
  {
    && Read(text).Some?
    && var after := Read(text).value;
    && (forall k :: k != "ssh" ==> SameItem(Find(after, k), Find(before, k)))
    && Find(after, "ssh").Some? && Find(after, "ssh").value.Table?
    && Identifies(SshEntries(before).value, Find(after, "ssh").value.entries, user, keyPath)
  }

  /** How a rewrite ends; when writing fails the file may hold anything. */
  datatype Ending = Written | Refused | Torn

  datatype FileCall = ReadOverlay | WriteOverlay(text: string)

  /** The calls a rewrite makes: it reads the file if there is one, and writes it
      once. It refuses only where reading fails or there is nothing to write. */
  ghost predicate Rewrites(calls: seq<Step<FileCall>>, existed: bool, rewritten: Option<string>, ending: Ending)
  {
    var before := if existed then [ReadOverlay] else [];
    match ending
    case Written => rewritten.Some? && InOrder(calls, before + [WriteOverlay(rewritten.value)], true)
    case Torn =>
      && rewritten.Some? && |calls| == |before| + 1
      && InOrder(calls, before + [WriteOverlay(rewritten.value)], false)
    case Refused => (existed && calls == [Step(ReadOverlay, false)]) || (rewritten.None? && InOrder(calls, before, true))
  }

  /** The overlay file beside the base configuration. */
  class OverlayFile {
    const parse: Parser
    const header: seq<string>
    var text: Option<string>
    ghost var calls: seq<Step<FileCall>>

    constructor (parse: Parser, header: seq<string>, text: Option<string>)
      ensures this.parse == parse && this.header == header && this.text == text && calls == []
    {
      this.parse, this.header, this.text := parse, header, text;
      calls := [];
    }

    method ReadFile() returns (content: Option<string>)
      requires text.Some?
      modifies this`calls
      ensures content.Some? ==> content == text
      ensures calls == old(calls) + [Step(ReadOverlay, content.Some?)]
    {
      var readable: bool := *;
      calls := calls + [Step(ReadOverlay, readable)];
      return if readable then text else None;
    }

    method WriteFile(content: string) returns (ok: bool)
      modifies this
      ensures ok ==> text == Some(content)
      ensures calls == old(calls) + [Step(WriteOverlay(content), ok)]
    {
      ok := *;
      var partial: Option<string> := *;
      text := if ok then Some(content) else partial;
      calls := calls + [Step(WriteOverlay(content), ok)];
    }

    /** What is there, as a document; None is an error. */
    method LoadExisting() returns (existing: Option<Doc>, ghost taken: seq<Step<FileCall>>)
      modifies this`calls
      ensures calls == old(calls) + taken
      ensures existing.Some? ==> existing == Stored(parse, text)
                                 && taken == if text.Some? then [Step(ReadOverlay, true)] else []
      ensures existing.None? ==>
                && text.Some? && |taken| == 1 && taken[0].op == ReadOverlay
                && (taken[0].ok ==> Stored(parse, text) == None)
    {
      taken := [];
      if text.None? {
        return Some([]), taken;
      }
      var content := ReadFile();
      taken := [Step(ReadOverlay, content.Some?)];
      return if content.Some? then parse(content.value) else None, taken;
    }

    /** Reads the overlay if there is one, points it at the new identity and
        writes it back. A text that cannot be read or does not parse, or an ssh
        entry that cannot be copied, is an error and leaves the file alone. */
    method WriteLocalOverlay(user: string, keyPath: string) returns (ending: Ending, ghost taken: seq<Step<FileCall>>)
      requires IsHeader(header) && Faithful(parse)
      modifies this
      ensures calls == old(calls) + taken
      ensures Rewrites(taken, old(text).Some?, Rewritten(parse, header, old(text), user, keyPath), ending)
      ensures ending == Refused ==> text == old(text)
      ensures Rewritten(parse, header, old(text), user, keyPath) == None ==> ending == Refused
      ensures ending == Written ==> text.Some? && text == Rewritten(parse, header, old(text), user, keyPath)
      ensures ending == Written ==>
                (CarriesOver(Stored(parse, old(text)).value, text.value, user, keyPath) <==>
                 WillReload(parse, old(text), user, keyPath))
      ensures ending == Written && WillReload(parse, old(text), user, keyPath) ==>
                Rewritten(parse, header, text, user, keyPath) == text
    {
      ghost var before := text;
      var loaded;
      loaded, taken := LoadExisting();
      if loaded.None? {
        return Refused, taken;
      }
      var existing := loaded.value;
      var entries := SshEntries(existing);
      if entries.None? {
        return Refused, taken;
      }
      var table := Set(entries.value, "user", Text(user));
      table := Set(table, "key_path", Text(keyPath));
      existing := Set(existing, "ssh", Table(table));
      var body := EmitToml(existing);
      RewritingPreserves(parse, header, text, user, keyPath);
      if WillReload(parse, text, user, keyPath) {
        RewritingTwiceChangesNothing(parse, header, text, user, keyPath);
      }
      var content := Unlines(header) + ("\n" + body);
      var written := WriteFile(content);
      OneWrite(taken, before.Some?, content, written);
      taken := taken + [Step(WriteOverlay(content), written)];
      return if written then Written else Torn, taken;
    }
  }

  lemma OneWrite(taken: seq<Step<FileCall>>, existed: bool, content: string, ok: bool)
    requires taken == if existed then [Step(ReadOverlay, true)] else []
    ensures Rewrites(taken + [Step(WriteOverlay(content), ok)], existed, Some(content), if ok then Written else Torn)
  {
  }

  // ---------------------------------------------------------------------
  // What the rewritten overlay says
  // ---------------------------------------------------------------------

  /** What the update makes of the ssh table. */
  ghost predicate Identifies(entries: seq<Entry>, after: seq<Entry>, user: string, keyPath: string)
  {
    && Find(after, "user") == Some(Text(user))
    && Find(after, "key_path") == Some(Text(keyPath))
    && forall k :: k != "user" && k != "key_path" ==> Find(after, k) == Find(entries, k)
  }

  lemma IdentityEntries(entries: seq<Entry>, user: string, keyPath: string)
    ensures Identifies(entries, Identity(entries, user, keyPath), user, keyPath)
  {
    var half := Set(entries, "user", Text(user));
    assert "user"[0] != "key_path"[0];
    SetFind(entries, "user", Text(user), "user");
    SetFind(half, "key_path", Text(keyPath), "user");
    SetFind(half, "key_path", Text(keyPath), "key_path");
    forall k | k != "user" && k != "key_path"
      ensures Find(Identity(entries, user, keyPath), k) == Find(entries, k)
    {
      SetFind(entries, "user", Text(user), k);
      SetFind(half, "key_path", Text(keyPath), k);
    }
  }

  lemma IdentityKeys(entries: seq<Entry>, user: string, keyPath: string)
    requires NoDuplicates(Keys(entries))
    ensures NoDuplicates(Keys(Identity(entries, user, keyPath)))
  {
    var half := Set(entries, "user", Text(user));
    SetKeys(entries, "user", Text(user));
    KeyAdded(Keys(entries), "user");
    SetKeys(half, "key_path", Text(keyPath));
    KeyAdded(Keys(half), "key_path");
  }

  lemma KeyAdded(keys: seq<string>, key: string)
    requires NoDuplicates(keys)
    ensures NoDuplicates(if key in keys then keys else keys + [key])
  {
  }

  lemma IdentityTwice(entries: seq<Entry>, user: string, keyPath: string)
    ensures var after := Identity(entries, user, keyPath); Identity(after, user, keyPath) == after
  {
    var after := Identity(entries, user, keyPath);
    IdentityEntries(entries, user, keyPath);
    SetAgain(after, "user", Text(user));
    SetAgain(after, "key_path", Text(keyPath));
  }

  lemma IdentityShape(entries: seq<Entry>, user: string, keyPath: string)
    ensures var after := Identity(entries, user, keyPath);
      && Identifies(entries, after, user, keyPath)
      && (NoDuplicates(Keys(entries)) ==> NoDuplicates(Keys(after)))
      && Identity(after, user, keyPath) == after
  {
    IdentityEntries(entries, user, keyPath);
    if NoDuplicates(Keys(entries)) {
      IdentityKeys(entries, user, keyPath);
    }
    IdentityTwice(entries, user, keyPath);
  }

  lemma FindDistinct(doc: Doc, key: string)
    requires Distinct(doc) && Find(doc, key).Some? && Find(doc, key).value.Table?
    ensures NoDuplicates(Keys(Find(doc, key).value.entries))
  {
    FindIsMembership(doc, key);
    var i :| 0 <= i < |doc| && doc[i] == Keyed(key, Find(doc, key).value);
  }

  lemma UpdatedIsDistinct(doc: Doc, user: string, keyPath: string)
    requires Distinct(doc) && Updated(doc, user, keyPath).Some?
    ensures Distinct(Updated(doc, user, keyPath).value)
  {
    var entries := SshEntries(doc).value;
    if Find(doc, "ssh").Some? && Find(doc, "ssh").value.Table? {
      FindDistinct(doc, "ssh");
    }
    IdentityShape(entries, user, keyPath);
    var item := Table(Identity(entries, user, keyPath));
    SetKeys(doc, "ssh", item);
    SetMembers(doc, "ssh", item);
    var after := Set(doc, "ssh", item);
    forall i | 0 <= i < |after| && after[i].value.Table? ensures NoDuplicates(Keys(after[i].value.entries)) {
      assert after[i] in after;
      if after[i] != Keyed("ssh", item) {
        var j :| 0 <= j < |doc| && doc[j] == after[i];
      }
    }
  }

  lemma {:induction false} AllLeaves(doc: Doc)
    requires forall i :: 0 <= i < |doc| ==> doc[i].value.Leaf?
    ensures Scalars(doc) == doc && Tables(doc) == []
  {
    if doc == [] {
    } else {
      AllLeaves(doc[1..]);
    }
  }

  lemma {:induction false} AllTables(doc: Doc)
    requires forall i :: 0 <= i < |doc| ==> doc[i].value.Table?
    ensures Tables(doc) == doc && Scalars(doc) == []
  {
    if doc == [] {
    } else {
      AllTables(doc[1..]);
    }
  }

  lemma {:induction false} ScalarsConcat(a: Doc, b: Doc)
    ensures Scalars(a + b) == Scalars(a) + Scalars(b)
  {
    if a == [] {
      assert a + b == b;
    } else {
      assert (a + b)[0] == a[0] && (a + b)[1..] == a[1..] + b;
      ScalarsConcat(a[1..], b);
      var head := if a[0].value.Leaf? then [a[0]] else [];
      assert head + (Scalars(a[1..]) + Scalars(b)) == head + Scalars(a[1..]) + Scalars(b);
    }
  }

  lemma {:induction false} TablesConcat(a: Doc, b: Doc)
    ensures Tables(a + b) == Tables(a) + Tables(b)
  {
    if a == [] {
      assert a + b == b;
    } else {
      assert (a + b)[0] == a[0] && (a + b)[1..] == a[1..] + b;
      TablesConcat(a[1..], b);
      var head := if a[0].value.Table? then [a[0]] else [];
      assert head + (Tables(a[1..]) + Tables(b)) == head + Tables(a[1..]) + Tables(b);
    }
  }

  lemma ReorderedTwice(doc: Doc)
    ensures Reordered(Reordered(doc)) == Reordered(doc)
  {
    var scalars, tables := Scalars(doc), Tables(doc);
    PartsAreUniform(doc);
    AllLeaves(scalars);
    AllTables(tables);
    ScalarsConcat(scalars, tables);
    TablesConcat(scalars, tables);
    assert scalars + [] == scalars && [] + tables == tables;
  }

  lemma {:induction false} HeaderIsSkipped(header: seq<string>, rest: string)
    requires IsHeader(header)
    ensures Read(Unlines(header) + ("\n" + rest)) == Read(rest)
    decreases |header|
  {
    var start := Reader([], false);
    if header == [] {
      assert "" + ("\n" + rest) == "" + "\n" + rest;
      ReadOneLine(start, "", rest);
    } else {
      var first, others := header[0], Unlines(header[1..]) + ("\n" + rest);
      assert first[|first| - 1] != '\r';
      assert Unlines(header) + ("\n" + rest) == first + "\n" + others;
      ReadOneLine(start, first, others);
      HeaderIsSkipped(header[1..], rest);
    }
  }

  lemma UpdatedFinds(doc: Doc, user: string, keyPath: string)
    requires Updated(doc, user, keyPath).Some?
    ensures var after := Updated(doc, user, keyPath).value;
      && Find(after, "ssh") == Some(Table(Identity(SshEntries(doc).value, user, keyPath)))
      && forall k :: k != "ssh" ==> Find(after, k) == Find(doc, k)
  {
    var item := Table(Identity(SshEntries(doc).value, user, keyPath));
    SetFind(doc, "ssh", item, "ssh");
    forall k | k != "ssh" ensures Find(Set(doc, "ssh", item), k) == Find(doc, k) {
      SetFind(doc, "ssh", item, k);
    }
  }

  /** Carrying over is being the same dictionary as the update. */
  lemma CarriesOverExactly(before: Doc, text: string, user: string, keyPath: string)
    requires Updated(before, user, keyPath).Some?
    ensures CarriesOver(before, text, user, keyPath) <==>
            Read(text).Some? && SameDict(Updated(before, user, keyPath).value, Read(text).value)
  {
    if Read(text).Some? {
      var entries := SshEntries(before).value;
      var wanted, after := Updated(before, user, keyPath).value, Read(text).value;
      UpdatedFinds(before, user, keyPath);
      IdentityEntries(entries, user, keyPath);
      if CarriesOver(before, text, user, keyPath) {
        forall k ensures SameItem(Find(wanted, k), Find(after, k)) {
          if k == "ssh" {
            SameIdentity(entries, Identity(entries, user, keyPath), Find(after, k).value.entries, user, keyPath);
          } else {
            SameItemSymmetric(Find(after, k), Find(before, k));
          }
        }
      }
      if SameDict(wanted, after) {
        assert SameItem(Find(wanted, "ssh"), Find(after, "ssh"));
        IdentifiesToo(entries, Identity(entries, user, keyPath), Find(after, "ssh").value.entries, user, keyPath);
        forall k | k != "ssh" ensures SameItem(Find(after, k), Find(before, k)) {
          assert SameItem(Find(wanted, k), Find(after, k));
          SameItemSymmetric(Find(wanted, k), Find(after, k));
        }
      }
    }
  }

  lemma SameItemSymmetric(a: Option<Item>, b: Option<Item>)
    requires SameItem(a, b)
    ensures SameItem(b, a)
  {
  }

  lemma SameIdentity(entries: seq<Entry>, a: seq<Entry>, b: seq<Entry>, user: string, keyPath: string)
    requires Identifies(entries, a, user, keyPath) && Identifies(entries, b, user, keyPath)
    ensures SameTable(a, b)
  {
    forall k ensures Find(a, k) == Find(b, k) {
      if k != "user" && k != "key_path" {
        assert Find(a, k) == Find(entries, k);
      }
    }
  }

  lemma IdentifiesToo(entries: seq<Entry>, a: seq<Entry>, b: seq<Entry>, user: string, keyPath: string)
    requires Identifies(entries, a, user, keyPath) && SameTable(a, b)
    ensures Identifies(entries, b, user, keyPath)
  {
    SameTableAt(a, b, "user");
    SameTableAt(a, b, "key_path");
    forall k | k != "user" && k != "key_path" ensures Find(b, k) == Find(entries, k) {
      SameTableAt(a, b, k);
    }
  }

  /** The reference reader is itself such a parser. */
  lemma ReadIsFaithful()
    ensures Faithful(Read)
  {
    forall t | Read(t).Some? ensures Distinct(Read(t).value) {
      ReadIsDistinct(t);
    }
  }

  /** Rewriting any overlay text and reloading it gives the new user and key
      path, and every other entry as it was, exactly when everything that is
      printed reads back. */
  lemma RewritingPreserves(parse: Parser, header: seq<string>, text: Option<string>, user: string, keyPath: string)
    requires IsHeader(header) && Faithful(parse) && Rewritten(parse, header, text, user, keyPath).Some?
    ensures CarriesOver(Stored(parse, text).value, Rewritten(parse, header, text, user, keyPath).value, user, keyPath)
            <==> WillReload(parse, text, user, keyPath)
  {
    var before := Stored(parse, text).value;
    var after := Updated(before, user, keyPath).value;
    UpdatedIsDistinct(before, user, keyPath);
    HeaderIsSkipped(header, Emit(after));
    ReloadsExactly(after);
    CarriesOverExactly(before, OverlayText(header, after), user, keyPath);
  }

  /** Writing the same identity over the rewritten text then changes nothing. */
  lemma RewritingTwiceChangesNothing(
      parse: Parser, header: seq<string>, text: Option<string>, user: string, keyPath: string)
    requires IsHeader(header) && Faithful(parse) && Rewritten(parse, header, text, user, keyPath).Some?
    requires WillReload(parse, text, user, keyPath)
    ensures var written := Rewritten(parse, header, text, user, keyPath);
      Rewritten(parse, header, written, user, keyPath) == written
  {
    var before := Stored(parse, text).value;
    var after := Updated(before, user, keyPath).value;
    UpdatedIsDistinct(before, user, keyPath);
    HeaderIsSkipped(header, Emit(after));
    ReloadsExactly(after);
    ReorderedAgain(before, user, keyPath);
  }

  lemma ReorderedAgain(doc: Doc, user: string, keyPath: string)
    requires Distinct(doc) && Updated(doc, user, keyPath).Some?
    ensures var after := Updated(doc, user, keyPath).value;
      Updated(Reordered(after), user, keyPath) == Some(Reordered(after)) && Emit(Reordered(after)) == Emit(after)
  {
    var entries := SshEntries(doc).value;
    var after := Updated(doc, user, keyPath).value;
    UpdatedIsDistinct(doc, user, keyPath);
    IdentityShape(entries, user, keyPath);
    UpdatedFinds(doc, user, keyPath);
    FindReordered(after, "ssh");
    SetAgain(Reordered(after), "ssh", Table(Identity(entries, user, keyPath)));
    ReorderedTwice(after);
  }

  // ---------------------------------------------------------------------
  // What becomes of arrays, floats and dates
  // ---------------------------------------------------------------------

  /** The value that is written in place of another kind: its text. */
  function Flat(value: Scalar): Scalar
  {
    if value.Other? then Text(value.shown) else value
  }

  function FlatEntry(e: Entry): Entry
  {
    Keyed(e.key, Flat(e.value))
  }

  function FlatTop(top: Top): Top
  {
    match top.value
    case Leaf(value) => Keyed(top.key, Leaf(Flat(value)))
    case Table(entries) => Keyed(top.key, Table(Map(FlatEntry, entries)))
  }

  function FlatDoc(doc: Doc): Doc
  {
    Map(FlatTop, doc)
  }

  lemma {:induction false} FlatEntriesShow(entries: seq<Entry>)
    ensures ShowAll(EntryLines(Map(FlatEntry, entries))) == ShowAll(EntryLines(entries))
  {
    if entries == [] {
      assert Map(FlatEntry, entries) == [];
    } else {
      var flat := Map(FlatEntry, entries);
      FlatEntriesShow(entries[1..]);
      assert flat[1..] == Map(FlatEntry, entries[1..]);
      assert EntryLines(flat) == [Pair(flat[0].key, flat[0].value)] + EntryLines(flat[1..]);
    }
  }

  lemma FlatItemShows(top: Top)
    ensures ShowAll(ItemLines(FlatTop(top))) == ShowAll(ItemLines(top))
  {
    match top.value
    case Leaf(value) =>
      ScalarShown(top);
      ScalarShown(FlatTop(top));
    case Table(entries) =>
      FlatEntriesShow(entries);
      TableShown(top.key, entries);
      TableShown(top.key, Map(FlatEntry, entries));
  }

  lemma {:induction false} FlatLinesShow(doc: Doc)
    ensures ShowAll(DocLines(FlatDoc(doc))) == ShowAll(DocLines(doc))
  {
    if doc == [] {
      assert FlatDoc(doc) == [];
    } else {
      var flat := FlatDoc(doc);
      FlatLinesShow(doc[1..]);
      FlatItemShows(doc[0]);
      assert flat[1..] == FlatDoc(doc[1..]);
      ShowAllConcat(ItemLines(flat[0]), DocLines(flat[1..]));
      ShowAllConcat(ItemLines(doc[0]), DocLines(doc[1..]));
    }
  }

  lemma {:induction false} FlatParts(doc: Doc)
    ensures Scalars(FlatDoc(doc)) == FlatDoc(Scalars(doc)) && Tables(FlatDoc(doc)) == FlatDoc(Tables(doc))
  {
    if doc == [] {
      assert FlatDoc(doc) == [];
    } else {
      FlatParts(doc[1..]);
      assert FlatDoc(doc)[1..] == FlatDoc(doc[1..]);
      assert FlatDoc([]) == [] && FlatDoc([doc[0]]) == [FlatTop(doc[0])];
      FlatConcat(if doc[0].value.Leaf? then [doc[0]] else [], Scalars(doc[1..]));
      FlatConcat(if doc[0].value.Table? then [doc[0]] else [], Tables(doc[1..]));
    }
  }

  lemma FlatConcat(a: Doc, b: Doc)
    ensures FlatDoc(a + b) == FlatDoc(a) + FlatDoc(b)
  {
  }

  /** Printing does not tell a value of another kind from its text. */
  lemma FlatEmits(doc: Doc)
    ensures Emit(FlatDoc(doc)) == Emit(doc)
  {
    FlatParts(doc);
    FlatConcat(Scalars(doc), Tables(doc));
    FlatLinesShow(Reordered(doc));
  }

  lemma FlatIsDistinct(doc: Doc)
    requires Distinct(doc)
    ensures Distinct(FlatDoc(doc))
  {
    var flat := FlatDoc(doc);
    assert Keys(flat) == Keys(doc);
    forall i | 0 <= i < |flat| && flat[i].value.Table? ensures NoDuplicates(Keys(flat[i].value.entries)) {
      assert Keys(flat[i].value.entries) == Keys(doc[i].value.entries);
    }
  }

  /** A rewritten overlay reloads with every array, float, date and table within
      a table turned into the string of its text, wherever that text can stand
      between quotes; nothing of it is refused or reported. */
  lemma OtherKindsBecomeText(
      parse: Parser, header: seq<string>, text: Option<string>, user: string, keyPath: string, key: string, shown: string)
    requires IsHeader(header) && Faithful(parse) && Rewritten(parse, header, text, user, keyPath).Some?
    requires Clean(FlatDoc(Updated(Stored(parse, text).value, user, keyPath).value))
    requires key != "ssh" && Find(Stored(parse, text).value, key) == Some(Leaf(Other(shown)))
    ensures var reloaded := parse(Rewritten(parse, header, text, user, keyPath).value);
      reloaded.Some? && Find(reloaded.value, key) == Some(Leaf(Text(shown)))
    ensures !WillReload(parse, text, user, keyPath)
  {
    var before := Stored(parse, text).value;
    var after := Updated(before, user, keyPath).value;
    UpdatedIsDistinct(before, user, keyPath);
    UpdatedFinds(before, user, keyPath);
    HeaderIsSkipped(header, Emit(after));
    FlatReloads(after);
    FlatIsDistinct(after);
    FindReordered(FlatDoc(after), key);
    FlatFinds(after, key);
    OtherIsUnclean(after, key, shown);
  }

  lemma FlatReloads(doc: Doc)
    requires Distinct(doc) && Clean(FlatDoc(doc))
    ensures Read(Emit(doc)) == Some(Reordered(FlatDoc(doc)))
  {
    FlatIsDistinct(doc);
    FlatEmits(doc);
    ReloadsExactly(FlatDoc(doc));
  }

  lemma OtherIsUnclean(doc: Doc, key: string, shown: string)
    requires Distinct(doc) && Find(doc, key) == Some(Leaf(Other(shown)))
    ensures !Clean(doc)
  {
    FindIsMembership(doc, key);
    var i :| 0 <= i < |doc| && doc[i] == Keyed(key, Leaf(Other(shown)));
  }

  lemma {:induction false} FlatFinds(doc: Doc, key: string)
    requires Find(doc, key).Some? && Find(doc, key).value.Leaf?
    ensures Find(FlatDoc(doc), key) == Some(Leaf(Flat(Find(doc, key).value.value)))
  {
    if doc[0].key != key {
      FlatFinds(doc[1..], key);
      assert FlatDoc(doc)[1..] == FlatDoc(doc[1..]);
    }
  }

  /** The overlay `x = [1]` is one of them: it comes back as a string. */
  lemma ArrayIsLost(parse: Parser, header: seq<string>)
    requires IsHeader(header) && Faithful(parse)
    requires parse("x = [1]") == Some([Keyed("x", Leaf(Other("[1]")))])
    ensures var written := Rewritten(parse, header, Some("x = [1]"), "ops", "key");
      && written.Some? && parse(written.value).Some?
      && Find(parse(written.value).value, "x") == Some(Leaf(Text("[1]")))
  {
    var before: Doc := [Keyed("x", Leaf(Other("[1]")))];
    var ssh := [Keyed("user", Text("ops")), Keyed("key_path", Text("key"))];
    assert before[1..] == [] && Find(before, "ssh") == None;
    assert "user"[0] != "key_path"[0] && |"x"| != |"ssh"|;
    assert Set([], "user", Text("ops")) == [ssh[0]] && [ssh[0]][1..] == [];
    assert Identity([], "ops", "key") == ssh;
    assert Updated(before, "ops", "key") == Some(before + [Keyed("ssh", Table(ssh))]);
    CleanWitness(before + [Keyed("ssh", Table(ssh))]);
    OtherKindsBecomeText(parse, header, Some("x = [1]"), "ops", "key", "x", "[1]");
  }

  lemma WitnessIsClean()
    ensures Bare("x") && Bare("ssh") && Bare("user") && Bare("key_path")
    ensures Plain("[1]") && Plain("ops") && Plain("key")
  {
  }

  lemma CleanWitness(doc: Doc)
    requires doc == [Keyed("x", Leaf(Other("[1]"))),
                     Keyed("ssh", Table([Keyed("user", Text("ops")), Keyed("key_path", Text("key"))]))]
    ensures Clean(FlatDoc(doc))
  {
    var flat := FlatDoc(doc);
    assert flat[0] == Keyed("x", Leaf(Text("[1]")));
    assert flat[1].value.entries == [Keyed("user", Text("ops")), Keyed("key_path", Text("key"))];
    WitnessIsClean();
  }
}
