/** The seed documents as YAML 1.2.2 reads them: block mappings and sequences
    built from the indentation of the lines (section 8.2), with unique keys. */
module CloudConfig {
  import opened Basics
  import opened Strings
  import opened Lookup
  import opened Seed

  datatype Node = Empty | Atom(value: Scalar) | Mapping(fields: seq<Keyed<Node>>) | Sequence(items: seq<Node>)

  type Field = Keyed<Node>

  // ---------------------------------------------------------------------
  // Blocks
  // ---------------------------------------------------------------------

  /** Whether a line starts an item of a sequence. */
  predicate Dashes(line: Line)
  {
    line.Item? || (line.Pair? && line.dash)
  }

  function Content(lines: seq<Line>): (content: seq<Line>)
    ensures forall i :: 0 <= i < |content| ==> !content[i].Comment?
  {
    if lines == [] then []
    else (if lines[0].Comment? then [] else [lines[0]]) + Content(lines[1..])
  }

  predicate HasKey(fields: seq<Field>, key: string)
  {
    exists i :: 0 <= i < |fields| && fields[i].key == key
  }

  /** Put a field in front; keys must be unique. */
  function Add(key: string, value: Node, r: Option<(seq<Field>, seq<Line>)>): Option<(seq<Field>, seq<Line>)>
  {
    match r
    case None => None
    case Some((fields, rest)) => if HasKey(fields, key) then None else Some(([Keyed(key, value)] + fields, rest))
  }

  /** The fields of a block mapping at a column, and what follows it. */
  function Fields(n: nat, lines: seq<Line>): (r: Option<(seq<Field>, seq<Line>)>)
    ensures r.Some? ==> |r.value.1| <= |lines|
    ensures r.Some? && lines != [] && !lines[0].Comment? && lines[0].indent == n && !Dashes(lines[0]) ==>
              |r.value.1| < |lines|
    decreases |lines|, 0
  {
    if lines == [] || lines[0].Comment? || lines[0].indent < n then Some(([], lines))
    else if lines[0].indent > n then None
    else if Dashes(lines[0]) then Some(([], lines))
    else
      match lines[0]
      case Section(_, key) =>
        (match Value(n, lines[1..])
         case None => None
         case Some((value, rest)) => Add(key, value, Fields(n, rest)))
      case Pair(_, _, key, value) => Add(key, Atom(value), Fields(n, lines[1..]))
      case _ => None
  }

  /** What follows a key that stands alone on its line: a block further in, a
      sequence at the same column, or nothing. */
  function Value(n: nat, lines: seq<Line>): (r: Option<(Node, seq<Line>)>)
    ensures r.Some? ==> |r.value.1| <= |lines|
    decreases |lines|, 3
  {
    if lines == [] || lines[0].Comment? || lines[0].indent < n || (lines[0].indent == n && !Dashes(lines[0]))
    then Some((Empty, lines))
    else Block(lines[0].indent, lines)
  }

  function Block(n: nat, lines: seq<Line>): (r: Option<(Node, seq<Line>)>)
    requires lines != []
    ensures r.Some? ==> |r.value.1| <= |lines|
    decreases |lines|, 2
  {
    if Dashes(lines[0]) then
      match Items(n, lines)
      case None => None
      case Some((items, rest)) => Some((Sequence(items), rest))
    else
      match Fields(n, lines)
      case None => None
      case Some((fields, rest)) => Some((Mapping(fields), rest))
  }

  /** The items of a block sequence. An item that starts with a field is a
      mapping at the column of that field. */
  function Items(n: nat, lines: seq<Line>): (r: Option<(seq<Node>, seq<Line>)>)
    ensures r.Some? ==> |r.value.1| <= |lines|
    decreases |lines|, 1
  {
    if lines == [] || lines[0].Comment? || lines[0].indent < n then Some(([], lines))
    else if lines[0].indent > n then None
    else if !Dashes(lines[0]) then Some(([], lines))
    else
      match lines[0]
      case Item(_, value) => Before(Atom(value), Items(n, lines[1..]))
      case Pair(_, _, key, value) =>
        (match Fields(n + 2, [Pair(n + 2, false, key, value)] + lines[1..])
         case None => None
         case Some((fields, rest)) => Before(Mapping(fields), Items(n, rest)))
      case _ => None
  }

  function Before(item: Node, r: Option<(seq<Node>, seq<Line>)>): Option<(seq<Node>, seq<Line>)>
  {
    match r
    case None => None
    case Some((items, rest)) => Some(([item] + items, rest))
  }

  /** A whole document is one block. */
  function Compose(lines: seq<Line>): Option<Node>
  {
    var content := Content(lines);
    if content == [] then Some(Empty)
    else
      match Block(content[0].indent, content)
      case None => None
      case Some((node, rest)) => if rest == [] then Some(node) else None
  }

  function Load(text: string): Option<Node>
  {
    match Read(text)
    case None => None
    case Some(lines) => Compose(lines)
  }

  // ---------------------------------------------------------------------
  // Looking things up
  // ---------------------------------------------------------------------

  function Get(node: Node, key: string): Option<Node>
  {
    if node.Mapping? then Find(node.fields, key) else None
  }

  // ---------------------------------------------------------------------
  // What the rendered documents say
  // ---------------------------------------------------------------------

  /** The mapping at this column takes up the lines and leaves the rest. */
  predicate Gives(n: nat, lines: seq<Line>, fields: seq<Field>, rest: seq<Line>)
  {
    Fields(n, lines) == Some((fields, rest))
  }

  lemma FieldComes(n: nat, key: string, value: Scalar, lines: seq<Line>, fields: seq<Field>, rest: seq<Line>)
    requires Gives(n, lines, fields, rest) && !HasKey(fields, key)
    ensures Gives(n, [Pair(n, false, key, value)] + lines, [Keyed(key, Atom(value))] + fields, rest)
  {
    assert ([Pair(n, false, key, value)] + lines)[1..] == lines;
  }

  lemma SectionComes(
      n: nat, key: string, value: Node, lines: seq<Line>, after: seq<Line>, fields: seq<Field>, rest: seq<Line>)
    requires Value(n, lines) == Some((value, after)) && Gives(n, after, fields, rest) && !HasKey(fields, key)
    ensures Gives(n, [Section(n, key)] + lines, [Keyed(key, value)] + fields, rest)
  {
    assert ([Section(n, key)] + lines)[1..] == lines;
  }

  predicate KeysApart(fields: seq<Field>)
  {
    forall i, j :: 0 <= i < j < |fields| ==> fields[i].key != fields[j].key
  }

  function AtomLine(n: nat, field: Field): Line
  {
    Pair(n, false, field.key, if field.value.Atom? then field.value.value else Bare(""))
  }

  /** Any number of plain fields in front of what is read already. */
  lemma {:induction false} PlainFieldsRead(
      n: nat, lines: seq<Line>, fields: seq<Field>, later: seq<Line>, tail: seq<Field>, rest: seq<Line>)
    requires Gives(n, later, tail, rest) && |lines| == |fields| && KeysApart(fields)
    requires forall i :: 0 <= i < |lines| ==> fields[i].value.Atom? && lines[i] == AtomLine(n, fields[i])
    requires forall i, j :: 0 <= i < |fields| && 0 <= j < |tail| ==> fields[i].key != tail[j].key
    ensures Gives(n, lines + later, fields + tail, rest)
    decreases |lines|
  {
    if lines == [] {
      assert lines + later == later && fields + tail == tail;
    } else {
      PlainFieldsRead(n, lines[1..], fields[1..], later, tail, rest);
      FieldComes(n, fields[0].key, fields[0].value.value, lines[1..] + later, fields[1..] + tail, rest);
      FirstOfConcat(lines, later);
      FirstOfConcat(fields, tail);
    }
  }

  /** Columns further out end a block. */
  lemma BlockEnds(n: nat, rest: seq<Line>)
    requires rest != [] ==> !rest[0].Comment? && rest[0].indent < n
    ensures Gives(n, rest, [], rest) && Items(n, rest) == Some(([], rest))
  {
  }

  function AccessFields(): seq<Field>
  {
    [Keyed("ssh_pwauth", Atom(Bare("false"))), Keyed("disable_root", Atom(Bare("true")))]
  }

  lemma AccessRead()
    ensures Gives(0, AccessLines(), AccessFields(), [])
  {
    var all, fields := AccessLines(), AccessFields();
    BlockEnds(0, []);
    FieldComes(0, "disable_root", Bare("true"), [], [], []);
    assert [all[1]] + [] == all[1..] && [fields[1]] + [] == fields[1..];
    assert |"ssh_pwauth"| != |"disable_root"|;
    FieldComes(0, "ssh_pwauth", Bare("false"), all[1..], fields[1..], []);
    assert [all[0]] + all[1..] == all && [fields[0]] + fields[1..] == fields;
  }

  function Account(username: string, key: string): seq<Field>
  {
    [Keyed("name", Atom(Quoted(username))),
     Keyed("shell", Atom(Bare("/bin/bash"))),
     Keyed("lock_passwd", Atom(Bare("true"))),
     Keyed("sudo", Atom(Quoted("ALL=(ALL) NOPASSWD:ALL"))),
     Keyed("ssh_authorized_keys", Sequence([Atom(Quoted(key))]))]
  }

  lemma OneItem(n: nat, value: Scalar, rest: seq<Line>)
    requires Items(n, rest) == Some(([], rest))
    ensures Items(n, [Item(n, value)] + rest) == Some(([Atom(value)], rest))
  {
    assert ([Item(n, value)] + rest)[1..] == rest;
    assert [Atom(value)] + [] == [Atom(value)];
  }

  /** The one key of the account, up to a line that stands further out. */
  lemma KeysRead(key: string, rest: seq<Line>)
    requires rest != [] && !rest[0].Comment? && rest[0].indent == 0
    ensures Gives(4, [Section(4, "ssh_authorized_keys")] + ([Item(6, Quoted(key))] + rest),
                  [Keyed("ssh_authorized_keys", Sequence([Atom(Quoted(key))]))], rest)
  {
    var lines := [Item(6, Quoted(key))] + rest;
    BlockEnds(6, rest);
    OneItem(6, Quoted(key), rest);
    BlockEnds(4, rest);
    var keys := Sequence([Atom(Quoted(key))]);
    assert lines[0] == Item(6, Quoted(key));
    assert Value(4, lines) == Some((keys, rest));
    SectionComes(4, "ssh_authorized_keys", keys, lines, rest, [], rest);
    assert [Keyed("ssh_authorized_keys", keys)] + [] == [Keyed("ssh_authorized_keys", keys)];
  }

  lemma AccountLinesSplit(name: seq<Line>, lines: seq<Line>, rest: seq<Line>)
    requires |lines| == 7
    ensures name + lines[2..5] + ([lines[5]] + ([lines[6]] + rest)) == name + (lines[2..] + rest)
  {
  }

  /** The account's lines as a mapping at the column of its first field. */
  lemma AccountFieldsRead(username: string, key: string, rest: seq<Line>)
    requires rest != [] && !rest[0].Comment? && rest[0].indent == 0
    ensures Gives(4, [Pair(4, false, "name", Quoted(username))] + (AccountLines(username, key)[2..] + rest),
                  Account(username, key), rest)
  {
    var lines, fields := AccountLines(username, key), Account(username, key);
    var plain := [Pair(4, false, "name", Quoted(username))] + lines[2..5];
    KeysDiffer();
    KeysRead(key, rest);
    PlainFieldsRead(4, plain, fields[..4], [lines[5]] + ([lines[6]] + rest), [fields[4]], rest);
    AccountLinesSplit([Pair(4, false, "name", Quoted(username))], lines, rest);
    LastApart(fields);
  }

  lemma AccountRead(username: string, key: string, rest: seq<Line>)
    requires rest != [] && !rest[0].Comment? && rest[0].indent == 0 && !Dashes(rest[0])
    ensures Value(0, AccountLines(username, key)[1..] + rest) ==
            Some((Sequence([Mapping(Account(username, key))]), rest))
  {
    var lines, account := AccountLines(username, key), Mapping(Account(username, key));
    var all := lines[1..] + rest;
    assert all[0] == lines[1] && all[1..] == lines[2..] + rest;
    AccountFieldsRead(username, key, rest);
    BlockEnds(2, rest);
    assert [account] + [] == [account];
    assert Items(2, all) == Some(([account], rest));
  }

  lemma KeysDiffer()
    ensures "name" != "sudo" && "name" != "shell" && "shell" != "sudo"
    ensures "lock_passwd" !in {"name", "shell", "sudo", "ssh_authorized_keys"}
    ensures "ssh_authorized_keys" !in {"name", "shell", "sudo"}
  {
    assert "name"[0] != "sudo"[0];
    assert |"lock_passwd"| == 11 && |"ssh_authorized_keys"| == 19;
  }

  function UserFields(hostname: string, username: string, key: string): seq<Field>
  {
    [Keyed("hostname", Atom(Quoted(hostname))),
     Keyed("fqdn", Atom(Quoted(hostname))),
     Keyed("preserve_hostname", Atom(Bare("false"))),
     Keyed("manage_etc_hosts", Atom(Bare("true"))),
     Keyed("ssh_deletekeys", Atom(Bare("true"))),
     Keyed("users", Sequence([Mapping(Account(username, key))]))]
    + AccessFields()
  }

  lemma UsersRead(username: string, key: string)
    ensures Gives(0, AccountLines(username, key) + AccessLines(),
                  [Keyed("users", Sequence([Mapping(Account(username, key))]))] + AccessFields(), [])
  {
    var lines := AccountLines(username, key);
    AccessRead();
    AccountRead(username, key, AccessLines());
    var fields := AccessFields();
    assert |fields[0].key| == 10 && |fields[1].key| == 12 && |"users"| == 5;
    SectionComes(0, "users", Sequence([Mapping(Account(username, key))]), lines[1..] + AccessLines(), AccessLines(),
                 fields, []);
    assert [lines[0]] + (lines[1..] + AccessLines()) == lines + AccessLines();
  }

  lemma {:induction false} KeyLengths(hostname: string, username: string, key: string)
    ensures var fields := UserFields(hostname, username, key);
      && |fields| == 8
      && |fields[0].key| == 8 && |fields[1].key| == 4 && |fields[2].key| == 17 && |fields[3].key| == 16
      && |fields[4].key| == 14 && |fields[5].key| == 5 && |fields[6].key| == 10 && |fields[7].key| == 12
  {
  }

  function HostFields(hostname: string): seq<Field>
  {
    [Keyed("hostname", Atom(Quoted(hostname))),
     Keyed("fqdn", Atom(Quoted(hostname))),
     Keyed("preserve_hostname", Atom(Bare("false"))),
     Keyed("manage_etc_hosts", Atom(Bare("true"))),
     Keyed("ssh_deletekeys", Atom(Bare("true")))]
  }

  lemma HostRead(hostname: string, rest: seq<Line>, tail: seq<Field>)
    requires Gives(0, rest, tail, []) && forall j :: 0 <= j < |tail| ==> |tail[j].key| in {5, 10, 12}
    ensures Gives(0, HostLines(hostname)[1..] + rest, HostFields(hostname) + tail, [])
  {
    var lines, fields := HostLines(hostname)[1..], HostFields(hostname);
    HostKeys(hostname);
    assert forall i :: 0 <= i < 5 ==> lines[i] == AtomLine(0, fields[i]);
    PlainFieldsRead(0, lines, fields, rest, tail, []);
  }

  lemma HostKeys(hostname: string)
    ensures var fields := HostFields(hostname);
      && KeysApart(fields)
      && forall i :: 0 <= i < 5 ==> |fields[i].key| !in {5, 10, 12}
  {
    var fields := HostFields(hostname);
    assert |fields[0].key| == 8 && |fields[1].key| == 4 && |fields[2].key| == 17;
    assert |fields[3].key| == 16 && |fields[4].key| == 14;
  }

  lemma UserDataComposes(hostname: string, username: string, key: string)
    ensures Compose(UserData(hostname, username, key)) == Some(Mapping(UserFields(hostname, username, key)))
  {
    var rest := AccountLines(username, key) + AccessLines();
    var tail := [Keyed("users", Sequence([Mapping(Account(username, key))]))] + AccessFields();
    var lines := UserData(hostname, username, key);
    UsersRead(username, key);
    assert |tail[0].key| == 5 && |tail[1].key| == 10 && |tail[2].key| == 12;
    HostRead(hostname, rest, tail);
    OneComment(lines);
    assert lines[1..] == HostLines(hostname)[1..] + rest;
    assert HostFields(hostname) + tail == UserFields(hostname, username, key);
  }

  lemma {:induction false} NoComments(lines: seq<Line>)
    requires forall i :: 0 <= i < |lines| ==> !lines[i].Comment?
    ensures Content(lines) == lines
  {
    if lines == [] {
    } else {
      NoComments(lines[1..]);
    }
  }

  lemma OneComment(lines: seq<Line>)
    requires lines != [] && lines[0].Comment? && forall i :: 1 <= i < |lines| ==> !lines[i].Comment?
    ensures Content(lines) == lines[1..]
  {
    NoComments(lines[1..]);
    assert [] + lines[1..] == lines[1..];
  }

  function MetaFields(hostname: string, instanceId: string): seq<Field>
  {
    [Keyed("instance-id", Atom(Quoted(instanceId))), Keyed("local-hostname", Atom(Quoted(hostname)))]
  }

  lemma MetaDataComposes(hostname: string, instanceId: string)
    ensures Compose(MetaData(hostname, instanceId)) == Some(Mapping(MetaFields(hostname, instanceId)))
  {
    var lines, fields := MetaData(hostname, instanceId), MetaFields(hostname, instanceId);
    BlockEnds(0, []);
    FieldComes(0, "local-hostname", Quoted(hostname), [], [], []);
    assert [lines[1]] + [] == lines[1..] && [fields[1]] + [] == fields[1..];
    assert |fields[0].key| != |fields[1].key|;
    FieldComes(0, "instance-id", Quoted(instanceId), lines[1..], fields[1..], []);
    assert [lines[0]] + lines[1..] == lines && [fields[0]] + fields[1..] == fields;
    NoComments(lines);
  }

  // ---------------------------------------------------------------------
  // The two documents
  // ---------------------------------------------------------------------

  /** The document names the guest, has fresh host keys made on first boot, shuts
      password login and root login, and makes one account; it says nothing else. */
  predicate Says(node: Node, hostname: string, username: string, key: string)
  {
    && node.Mapping? && |node.fields| == 8 && NamesHost(node, hostname)
    && Get(node, "ssh_pwauth") == Some(Atom(Bare("false")))
    && Get(node, "disable_root") == Some(Atom(Bare("true")))
    && var users := Get(node, "users");
    && users.Some? && users.value.Sequence? && |users.value.items| == 1
    && MakesAccount(users.value.items[0], username, key)
  }

  predicate NamesHost(node: Node, hostname: string)
  {
    && Get(node, "hostname") == Some(Atom(Quoted(hostname)))
    && Get(node, "fqdn") == Some(Atom(Quoted(hostname)))
    && Get(node, "preserve_hostname") == Some(Atom(Bare("false")))
    && Get(node, "manage_etc_hosts") == Some(Atom(Bare("true")))
    && Get(node, "ssh_deletekeys") == Some(Atom(Bare("true")))
  }

  /** Key-only, with a shell and the right to become root without a password. */
  predicate MakesAccount(account: Node, username: string, key: string)
  {
    && account.Mapping? && |account.fields| == 5
    && Get(account, "name") == Some(Atom(Quoted(username)))
    && Get(account, "shell") == Some(Atom(Bare("/bin/bash")))
    && Get(account, "lock_passwd") == Some(Atom(Bare("true")))
    && Get(account, "sudo") == Some(Atom(Quoted("ALL=(ALL) NOPASSWD:ALL")))
    && Get(account, "ssh_authorized_keys") == Some(Sequence([Atom(Quoted(key))]))
  }

  lemma AccountSays(username: string, key: string)
    ensures MakesAccount(Mapping(Account(username, key)), username, key)
  {
    var account := Account(username, key);
    KeysDiffer();
    FindFirst(account, 0);
    FindFirst(account, 1);
    FindFirst(account, 2);
    FindFirst(account, 3);
    FindFirst(account, 4);
  }

  lemma HostFieldsSay(hostname: string, username: string, key: string)
    ensures NamesHost(Mapping(UserFields(hostname, username, key)), hostname)
  {
    var fields := UserFields(hostname, username, key);
    KeyLengths(hostname, username, key);
    FindFirst(fields, 0);
    FindFirst(fields, 1);
    FindFirst(fields, 2);
    FindFirst(fields, 3);
    FindFirst(fields, 4);
  }

  lemma UserFieldsSay(hostname: string, username: string, key: string)
    ensures Says(Mapping(UserFields(hostname, username, key)), hostname, username, key)
  {
    var fields := UserFields(hostname, username, key);
    KeyLengths(hostname, username, key);
    HostFieldsSay(hostname, username, key);
    AccountSays(username, key);
    FindFirst(fields, 5);
    FindFirst(fields, 6);
    FindFirst(fields, 7);
  }

  /** For all inputs the validators accept, a YAML reader finds exactly the
      hostname, the account and the trimmed key if and only if neither name ends
      in a line break and the key holds no control character; otherwise it reads
      nothing. */
  lemma UserDataReadsBack(hostname: string, username: string, publicKey: string)
    requires RenderUserData(hostname, username, publicKey).Some?
    ensures var (key, doc) := (Trim(IsSpacePython, publicKey), Load(RenderUserData(hostname, username, publicKey).value));
      if '\n' !in hostname && '\n' !in username && AllIn(key, IsJsonChar)
      then doc.Some? && Says(doc.value, hostname, username, key)
      else doc == None
  {
    var key := AcceptedKey(publicKey).value;
    UserDataLines(hostname, username, publicKey);
    UserDataComposes(hostname, username, key);
    UserFieldsSay(hostname, username, key);
  }

  /** The same for the meta-data, whose instance id is not validated. */
  lemma MetaDataReadsBack(hostname: string, instanceId: string)
    requires RenderMetaData(hostname, instanceId).Some?
    ensures var doc := Load(RenderMetaData(hostname, instanceId).value);
      if '\n' !in hostname && AllIn(instanceId, IsJsonChar)
      then && doc.Some? && doc.value.Mapping? && |doc.value.fields| == 2
           && Get(doc.value, "instance-id") == Some(Atom(Quoted(instanceId)))
           && Get(doc.value, "local-hostname") == Some(Atom(Quoted(hostname)))
      else doc == None
  {
    var fields := MetaFields(hostname, instanceId);
    MetaDataLines(hostname, instanceId);
    MetaDataComposes(hostname, instanceId);
    assert |fields[0].key| != |fields[1].key|;
    FindFirst(fields, 0);
    FindFirst(fields, 1);
  }

  /** A hostname with a final line break passes validation, and the document is
      then refused. */
  lemma FinalBreakSlipsThrough()
    ensures AcceptsHostname("node\n")
    ensures RenderMetaData("node\n", "id").Some? && Load(RenderMetaData("node\n", "id").value) == None
  {
    assert WithoutFinalBreak("node\n") == "node";
    assert IsLabel("node");
    MetaDataReadsBack("node\n", "id");
    assert "node\n"[4] in "node\n";
  }
}
