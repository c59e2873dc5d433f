/** The encrypted payload shared by the Go service and the Python client:
    base64(nonce || ciphertext || tag) around a UTF-8 JSON array of records. */
module Wire {
  import opened Basics
  import opened Registry
  import opened Json
  import opened Strings
  import Base64
  import Utf8

  const KEY_BYTES := 32
  const NONCE_BYTES := 12
  const TAG_BYTES := 16

  /** An authenticated cipher, known only by its laws. */
  datatype Aead = Aead(
    seal: (seq<byte>, seq<byte>, seq<byte>) -> seq<byte>,
    open: (seq<byte>, seq<byte>, seq<byte>) -> Option<seq<byte>>)

  /** Sections 7.1 and 7.2 of NIST SP 800-38D: opening inverts sealing, and
      sealing adds exactly one tag. */
  ghost predicate Lawful(aead: Aead)
  {
    forall key: seq<byte>, nonce: seq<byte>, plain: seq<byte> ::
      |key| == KEY_BYTES && |nonce| == NONCE_BYTES ==>
        && |aead.seal(key, nonce, plain)| == |plain| + TAG_BYTES
        && aead.open(key, nonce, aead.seal(key, nonce, plain)) == Some(plain)
  }

  /** The laws can be met: append a constant tag and check it. */
  function ToyAead(): Aead
  {
    var tag: seq<byte> := seq(TAG_BYTES, _ => 0);
    Aead((key, nonce, plain) => plain + tag,
         (key, nonce, sealed) =>
           if |sealed| >= TAG_BYTES && sealed[|sealed| - TAG_BYTES..] == tag
           then Some(sealed[..|sealed| - TAG_BYTES]) else None)
  }

  lemma ToyIsLawful()
    ensures Lawful(ToyAead())
  {
    var tag: seq<byte> := seq(TAG_BYTES, _ => 0);
    forall key: seq<byte>, nonce: seq<byte>, plain: seq<byte>
      | |key| == KEY_BYTES && |nonce| == NONCE_BYTES
      ensures && |ToyAead().seal(key, nonce, plain)| == |plain| + TAG_BYTES
              && ToyAead().open(key, nonce, ToyAead().seal(key, nonce, plain)) == Some(plain)
    {
      var sealed := plain + tag;
      assert sealed[|plain|..] == tag && sealed[..|plain|] == plain;
    }
  }

  /** Everything that can be wrong with a payload or a key. */
  datatype Problem =
    | BadKey | NotAscii | NotBase64 | TooShort | NotAuthentic
    | NotUtf8 | NotJson | NotAnArray | NotAnObject | MissingField | NotText

  // ---------------------------------------------------------------------
  // Records and JSON objects
  // ---------------------------------------------------------------------

  /** Go prints the fields in declaration order, Python sorts them. */
  function Members(language: Language, r: Record): seq<Member>
  {
    match language
    case Go =>
      [Member("hostname", Text(r.hostname)), Member("role", Text(r.role)),
       Member("ipv4", Text(r.ipv4)), Member("ipv6", Text(r.ipv6)),
       Member("status", Text(r.status)), Member("status_timestamp", Text(r.statusTimestamp)),
       Member("state", Text(r.state)), Member("state_timestamp", Text(r.stateTimestamp))]
    case Python =>
      [Member("hostname", Text(r.hostname)), Member("ipv4", Text(r.ipv4)),
       Member("ipv6", Text(r.ipv6)), Member("role", Text(r.role)),
       Member("state", Text(r.state)), Member("state_timestamp", Text(r.stateTimestamp)),
       Member("status", Text(r.status)), Member("status_timestamp", Text(r.statusTimestamp))]
  }

  function Document(language: Language, records: seq<Record>): Json
  {
    List(seq(|records|, i requires 0 <= i < |records| => Object(Members(language, records[i]))))
  }

  /** One text field. Python needs it present and turns null into "None"; Go
      leaves an absent or null field empty. Repeated names: the last one counts. */
  function Field(language: Language, members: seq<Member>, name: string): Result<string, Problem>
  {
    if members == [] then
      if language.Python? then Err(MissingField) else Ok("")
    else
      var last := |members| - 1;
      var before := Field(language, members[..last], name);
      if language.Go? && before.Err? then before
      else if members[last].name != name then before
      else
        match members[last].value
        case Text(text) => Ok(text)
        case Null => if language.Python? then Ok("None") else before
        case _ => Err(NotText)
  }

  function RecordOf(language: Language, members: seq<Member>): Result<Record, Problem>
  {
    var hostname := Field(language, members, "hostname");
    var role := Field(language, members, "role");
    var ipv4 := Field(language, members, "ipv4");
    var ipv6 := Field(language, members, "ipv6");
    var status := Field(language, members, "status");
    var statusTimestamp := Field(language, members, "status_timestamp");
    var state := Field(language, members, "state");
    var stateTimestamp := Field(language, members, "state_timestamp");
    if hostname.Err? then Err(hostname.error)
    else if role.Err? then Err(role.error)
    else if ipv4.Err? then Err(ipv4.error)
    else if ipv6.Err? then Err(ipv6.error)
    else if status.Err? then Err(status.error)
    else if statusTimestamp.Err? then Err(statusTimestamp.error)
    else if state.Err? then Err(state.error)
    else if stateTimestamp.Err? then Err(stateTimestamp.error)
    else Ok(Record(hostname.value, role.value, ipv4.value, ipv6.value, status.value,
                   statusTimestamp.value, state.value, stateTimestamp.value))
  }

  /** One array element. Go also takes null for an empty record. */
  function Entry(language: Language, entry: Json): Result<Record, Problem>
  {
    match entry
    case Object(members) => RecordOf(language, members)
    case Null => if language.Go? then RecordOf(Go, []) else Err(NotAnObject)
    case _ => Err(NotAnObject)
  }

  function Entries(language: Language, items: seq<Json>): Result<seq<Record>, Problem>
  {
    if items == [] then Ok([])
    else
      var last := |items| - 1;
      var before := Entries(language, items[..last]);
      if before.Err? then before
      else
        match Entry(language, items[last])
        case Err(problem) => Err(problem)
        case Ok(record) => Ok(before.value + [record])
  }

  /** Python appends to a list and raises at the first bad entry. */
  method DecodeEntries(decoded: seq<Json>) returns (r: Result<seq<Record>, Problem>)
    ensures r == Entries(Python, decoded)
  {
    var records: seq<Record> := [];
    for index := 0 to |decoded|
      invariant Entries(Python, decoded[..index]) == Ok(records)
    {
      assert decoded[..index + 1][..index] == decoded[..index];
      match Entry(Python, decoded[index]) {
        case Err(problem) =>
          EntriesStop(decoded, index + 1);
          return Err(problem);
        case Ok(record) =>
          records := records + [record];
      }
    }
    assert decoded[..|decoded|] == decoded;
    return Ok(records);
  }

  /** A bad entry decides the outcome whatever follows it. */
  lemma {:induction false} EntriesStop(items: seq<Json>, n: nat)
    requires n <= |items| && Entries(Python, items[..n]).Err?
    ensures Entries(Python, items) == Entries(Python, items[..n])
    decreases |items| - n
  {
    if n == |items| {
      assert items[..n] == items;
    } else {
      assert items[..n + 1][..n] == items[..n];
      EntriesStop(items, n + 1);
    }
  }

  /** The registry a decrypted document stands for. Go reads null as empty. */
  function RecordsOf(language: Language, document: Json): Result<seq<Record>, Problem>
  {
    match document
    case List(items) => Entries(language, items)
    case Null => if language.Go? then Ok([]) else Err(NotAnArray)
    case _ => Err(NotAnArray)
  }

  // ---------------------------------------------------------------------
  // Which documents are read
  // ---------------------------------------------------------------------

  /** No later member has the name. */
  ghost predicate IsLastOf(members: seq<Member>, name: string, k: int)
  {
    0 <= k < |members| && members[k].name == name && forall j :: k < j < |members| ==> members[j].name != name
  }

  predicate TextOrNull(v: Json)
  {
    v.Text? || v.Null?
  }

  lemma LaterIsLast(members: seq<Member>, name: string, k: int)
    requires members != [] && members[|members| - 1].name != name
    ensures IsLastOf(members, name, k) <==> IsLastOf(members[..|members| - 1], name, k)
  {
    var front := members[..|members| - 1];
    assert forall j :: 0 <= j < |front| ==> front[j] == members[j];
    if IsLastOf(front, name, k) {
      assert members[k] == front[k];
    }
  }

  /** The last member of the name decides in Python, and there must be one. */
  lemma {:induction false} PythonField(members: seq<Member>, name: string)
    ensures Field(Python, members, name).Ok? <==>
              exists k :: IsLastOf(members, name, k) && TextOrNull(members[k].value)
    ensures forall k :: IsLastOf(members, name, k) && TextOrNull(members[k].value) ==>
              Field(Python, members, name) ==
              Ok(match members[k].value case Text(text) => text case _ => "None")
  {
    if members == [] {
    } else {
      var last := |members| - 1;
      if members[last].name == name {
        assert IsLastOf(members, name, last);
        forall k | IsLastOf(members, name, k) ensures k == last {
          assert k <= last;
        }
      } else {
        var front := members[..last];
        PythonField(front, name);
        forall k ensures IsLastOf(members, name, k) <==> IsLastOf(front, name, k) {
          LaterIsLast(members, name, k);
        }
        assert forall k :: IsLastOf(front, name, k) ==> front[k] == members[k];
      }
    }
  }

  /** In Go every member of the name must be a text or null, and the last text
      decides, or the empty one where there is none. */
  lemma {:induction false} GoField(members: seq<Member>, name: string)
    ensures Field(Go, members, name).Ok? <==>
              forall k :: 0 <= k < |members| && members[k].name == name ==> TextOrNull(members[k].value)
    ensures Field(Go, members, name).Ok? ==>
              if exists k :: 0 <= k < |members| && members[k].name == name && members[k].value.Text?
              then exists k :: && 0 <= k < |members| && members[k].name == name
                               && members[k].value == Text(Field(Go, members, name).value)
                               && forall j :: k < j < |members| && members[j].name == name ==> members[j].value.Null?
              else Field(Go, members, name).value == ""
  {
    if members == [] {
    } else {
      var last := |members| - 1;
      var front := members[..last];
      GoField(front, name);
      assert forall k :: 0 <= k < last ==> front[k] == members[k];
      if Field(Go, members, name).Ok? && members[last].name == name && members[last].value.Text? {
        assert members[last].value == Text(Field(Go, members, name).value);
      }
    }
  }

  /** The names of the fields, in the order of a record. */
  const FIELDS := ["hostname", "role", "ipv4", "ipv6", "status", "status_timestamp", "state", "state_timestamp"]

  /** A record is read exactly when its eight fields are, each from its name. */
  lemma RecordMeans(language: Language, members: seq<Member>)
    ensures RecordOf(language, members).Ok? <==>
              forall i :: 0 <= i < |FIELDS| ==> Field(language, members, FIELDS[i]).Ok?
    ensures RecordOf(language, members).Ok? ==>
              var r := RecordOf(language, members).value;
              [r.hostname, r.role, r.ipv4, r.ipv6, r.status, r.statusTimestamp, r.state, r.stateTimestamp] ==
              seq(|FIELDS|, i requires 0 <= i < |FIELDS| => FieldText(language, members, FIELDS[i]))
  {
    assert FIELDS[0] == "hostname" && FIELDS[1] == "role" && FIELDS[2] == "ipv4" && FIELDS[3] == "ipv6";
    assert FIELDS[4] == "status" && FIELDS[5] == "status_timestamp";
    assert FIELDS[6] == "state" && FIELDS[7] == "state_timestamp";
  }

  function FieldText(language: Language, members: seq<Member>, name: string): string
  {
    var r := Field(language, members, name);
    if r.Ok? then r.value else ""
  }

  ghost predicate ReadAs(language: Language, items: seq<Json>, records: seq<Record>)
  {
    |records| == |items| && forall i :: 0 <= i < |items| ==> Entry(language, items[i]) == Ok(records[i])
  }

  lemma ReadOn(language: Language, items: seq<Json>, records: seq<Record>, record: Record)
    requires items != [] && ReadAs(language, items[..|items| - 1], records)
    requires Entry(language, items[|items| - 1]) == Ok(record)
    ensures ReadAs(language, items, records + [record])
  {
    var front := items[..|items| - 1];
    forall i | 0 <= i < |items| ensures Entry(language, items[i]) == Ok((records + [record])[i]) {
      if i < |front| {
        assert front[i] == items[i];
      }
    }
  }

  /** A list is read exactly when each of its entries is, in order. */
  lemma {:induction false} EntriesMean(language: Language, items: seq<Json>)
    ensures Entries(language, items).Ok? <==> forall i :: 0 <= i < |items| ==> Entry(language, items[i]).Ok?
    ensures Entries(language, items).Ok? ==> ReadAs(language, items, Entries(language, items).value)
  {
    if items == [] {
    } else {
      var last := |items| - 1;
      var front := items[..last];
      EntriesMean(language, front);
      assert forall i :: 0 <= i < last ==> front[i] == items[i];
      if Entries(language, items).Ok? {
        ReadOn(language, items, Entries(language, front).value, Entry(language, items[last]).value);
      }
    }
  }

  ghost predicate ReadableByPython(entry: Json)
  {
    entry.Object? && forall i :: 0 <= i < |FIELDS| ==> HasLast(entry.members, FIELDS[i])
  }

  ghost predicate HasLast(members: seq<Member>, name: string)
  {
    exists k :: IsLastOf(members, name, k) && TextOrNull(members[k].value)
  }

  ghost predicate ReadableByGo(entry: Json)
  {
    entry.Null? ||
    (entry.Object? && forall k :: 0 <= k < |entry.members| && entry.members[k].name in FIELDS ==>
                        TextOrNull(entry.members[k].value))
  }

  lemma EntryReads(entry: Json)
    ensures Entry(Python, entry).Ok? <==> ReadableByPython(entry)
    ensures Entry(Go, entry).Ok? <==> ReadableByGo(entry)
  {
    if entry.Object? {
      RecordMeans(Python, entry.members);
      RecordMeans(Go, entry.members);
      forall i | 0 <= i < |FIELDS|
        ensures Field(Python, entry.members, FIELDS[i]).Ok? <==> HasLast(entry.members, FIELDS[i])
        ensures Field(Go, entry.members, FIELDS[i]).Ok? <==>
                  forall k :: 0 <= k < |entry.members| && entry.members[k].name == FIELDS[i] ==>
                    TextOrNull(entry.members[k].value)
      {
        PythonField(entry.members, FIELDS[i]);
        GoField(entry.members, FIELDS[i]);
      }
    } else if entry.Null? {
      RecordMeans(Go, []);
      forall i | 0 <= i < |FIELDS| ensures Field(Go, [], FIELDS[i]).Ok? {
        GoField([], FIELDS[i]);
      }
    }
  }

  /** Python reads a list of objects that each have all eight fields, the last of
      each name a text or null. Go also takes null, for a list or for a record, and
      lets fields be missing, but every value under one of the names must fit. */
  lemma DocumentsReadExactly(document: Json)
    ensures RecordsOf(Python, document).Ok? <==>
              document.List? && forall i :: 0 <= i < |document.items| ==> ReadableByPython(document.items[i])
    ensures RecordsOf(Go, document).Ok? <==>
              document.Null? ||
              (document.List? && forall i :: 0 <= i < |document.items| ==> ReadableByGo(document.items[i]))
  {
    if document.List? {
      EntriesMean(Python, document.items);
      EntriesMean(Go, document.items);
      forall i | 0 <= i < |document.items|
        ensures Entry(Python, document.items[i]).Ok? <==> ReadableByPython(document.items[i])
        ensures Entry(Go, document.items[i]).Ok? <==> ReadableByGo(document.items[i])
      {
        EntryReads(document.items[i]);
      }
    }
  }

  // ---------------------------------------------------------------------
  // Sealing and opening
  // ---------------------------------------------------------------------

  function Plaintext(language: Language, document: Json): seq<byte>
  {
    Utf8.Encode(Print(language, document, 0))
  }

  function Encrypt(aead: Aead, key: seq<byte>, nonce: seq<byte>, plaintext: seq<byte>): Result<string, Problem>
  {
    if |key| != KEY_BYTES then Err(BadKey)
    else Ok(Base64.Encode(nonce + aead.seal(key, nonce, plaintext)))
  }

  function Seal(language: Language, aead: Aead, key: seq<byte>, nonce: seq<byte>, records: seq<Record>)
    : Result<string, Problem>
  {
    Encrypt(aead, key, nonce, Plaintext(language, Document(language, records)))
  }

  /** What the store writes: a nil slice would print as null, so it is replaced
      by an empty one first. */
  function Guarded(records: Option<seq<Record>>): seq<Record>
  {
    match records
    case None => []
    case Some(list) => list
  }

  /** json.MarshalIndent on a slice that may be nil. */
  function DocumentGo(records: Option<seq<Record>>): Json
  {
    match records
    case None => Null
    case Some(list) => Document(Go, list)
  }

  function Decrypt(language: Language, aead: Aead, key: seq<byte>, blob: string): Result<seq<byte>, Problem>
  {
    if |key| != KEY_BYTES then Err(BadKey)
    else
      var raw := if language.Python? then Base64.Decode(blob)
                 else Base64.DecodeGo(Trim(IsSpaceGo, blob));
      if raw.None? then Err(NotBase64)
      else if |raw.value| < NONCE_BYTES + TAG_BYTES then Err(TooShort)
      else
        match aead.open(key, raw.value[..NONCE_BYTES], raw.value[NONCE_BYTES..])
        case None => Err(NotAuthentic)
        case Some(plaintext) => Ok(plaintext)
  }

  function Open(language: Language, aead: Aead, key: seq<byte>, blob: string): Result<seq<Record>, Problem>
  {
    match Decrypt(language, aead, key, blob)
    case Err(problem) => Err(problem)
    case Ok(plaintext) =>
      match Utf8.Decode(plaintext)
      case None => Err(NotUtf8)
      case Some(text) =>
        match Parse(text)
        case None => Err(NotJson)
        case Some(document) => RecordsOf(language, document)
  }

  // ---------------------------------------------------------------------
  // Either language opens what either language sealed
  // ---------------------------------------------------------------------

  lemma {:induction false} FieldAt(language: Language, members: seq<Member>, i: nat, text: string)
    requires i < |members| && members[i].value == Text(text)
    requires forall j :: 0 <= j < |members| && j != i ==> members[j].name != members[i].name
    requires forall j :: 0 <= j < |members| ==> members[j].value.Text?
    ensures Field(language, members, members[i].name) == Ok(text)
  {
    var last := |members| - 1;
    if i == last {
      FieldOk(members[..last], members[i].name);
    } else {
      FieldAt(language, members[..last], i, text);
    }
  }

  lemma {:induction false} FieldOk(members: seq<Member>, name: string)
    requires forall j :: 0 <= j < |members| ==> members[j].value.Text?
    ensures Field(Go, members, name).Ok?
  {
    if members == [] {
    } else {
      FieldOk(members[..|members| - 1], name);
    }
  }

  lemma FieldNamesDiffer(language: Language, r: Record)
    ensures var m := Members(language, r);
      && |m| == 8
      && (forall j :: 0 <= j < 8 ==> m[j].value.Text?)
      && (forall i, j :: 0 <= i < j < 8 ==> m[i].name != m[j].name)
  {
    assert "role"[0] != "ipv4"[0] && "role"[0] != "ipv6"[0] && "ipv4"[3] != "ipv6"[3];
  }

  lemma RecordRoundTrip(writer: Language, reader: Language, r: Record)
    ensures RecordOf(reader, Members(writer, r)) == Ok(r)
  {
    var m := Members(writer, r);
    FieldNamesDiffer(writer, r);
    if writer.Go? {
      FieldAt(reader, m, 0, r.hostname);
      FieldAt(reader, m, 1, r.role);
      FieldAt(reader, m, 2, r.ipv4);
      FieldAt(reader, m, 3, r.ipv6);
      FieldAt(reader, m, 4, r.status);
      FieldAt(reader, m, 5, r.statusTimestamp);
      FieldAt(reader, m, 6, r.state);
      FieldAt(reader, m, 7, r.stateTimestamp);
    } else {
      FieldAt(reader, m, 0, r.hostname);
      FieldAt(reader, m, 1, r.ipv4);
      FieldAt(reader, m, 2, r.ipv6);
      FieldAt(reader, m, 3, r.role);
      FieldAt(reader, m, 4, r.state);
      FieldAt(reader, m, 5, r.stateTimestamp);
      FieldAt(reader, m, 6, r.status);
      FieldAt(reader, m, 7, r.statusTimestamp);
    }
  }

  lemma DocumentSnoc(language: Language, records: seq<Record>, record: Record)
    ensures Document(language, records + [record]).items ==
            Document(language, records).items + [Object(Members(language, record))]
  {
  }

  lemma EntriesSnoc(language: Language, items: seq<Json>, item: Json, records: seq<Record>, record: Record)
    requires Entries(language, items) == Ok(records) && Entry(language, item) == Ok(record)
    ensures Entries(language, items + [item]) == Ok(records + [record])
  {
    LastOfConcat(items, [item]);
  }

  lemma EntriesMore(writer: Language, reader: Language, records: seq<Record>, record: Record)
    requires Entries(reader, Document(writer, records).items) == Ok(records)
    ensures Entries(reader, Document(writer, records + [record]).items) == Ok(records + [record])
  {
    RecordRoundTrip(writer, reader, record);
    DocumentSnoc(writer, records, record);
    EntriesSnoc(reader, Document(writer, records).items, Object(Members(writer, record)), records, record);
  }

  lemma {:induction false} EntriesRoundTrip(writer: Language, reader: Language, records: seq<Record>)
    ensures Entries(reader, Document(writer, records).items) == Ok(records)
  {
    if records == [] {
    } else {
      var last := |records| - 1;
      EntriesRoundTrip(writer, reader, records[..last]);
      EntriesMore(writer, reader, records[..last], records[last]);
      LastApart(records);
    }
  }

  /** Decrypting gives back the plaintext; no genuine payload is too short. */
  lemma EncryptRoundTrip(reader: Language, aead: Aead, key: seq<byte>, nonce: seq<byte>, plaintext: seq<byte>)
    requires Lawful(aead) && |key| == KEY_BYTES && |nonce| == NONCE_BYTES
    ensures Encrypt(aead, key, nonce, plaintext).Ok?
    ensures Encrypt(aead, key, nonce, plaintext).value != ""
    ensures Decrypt(reader, aead, key, Encrypt(aead, key, nonce, plaintext).value) == Ok(plaintext)
  {
    var raw := nonce + aead.seal(key, nonce, plaintext);
    var code := Base64.Encode(raw);
    Base64.RoundTrip(raw);
    Base64.RoundTripGo(raw);
    Base64.EncodeIsCode(raw);
    Base64.TrimsToCode(IsSpaceGo, code, "", "");
    assert "" + code + "" == code;
    assert raw[..NONCE_BYTES] == nonce && raw[NONCE_BYTES..] == aead.seal(key, nonce, plaintext);
  }

  /** Any registry sealed by either language opens in the other to the same
      records in the same order; a key of the wrong length is refused by both. */
  lemma SealedOpens(
      writer: Language, reader: Language, aead: Aead, key: seq<byte>, nonce: seq<byte>, records: seq<Record>)
    requires Lawful(aead) && |nonce| == NONCE_BYTES
    ensures if |key| == KEY_BYTES
            then && Seal(writer, aead, key, nonce, records).Ok?
                 && Seal(writer, aead, key, nonce, records).value != ""
                 && Open(reader, aead, key, Seal(writer, aead, key, nonce, records).value) == Ok(records)
            else && Seal(writer, aead, key, nonce, records) == Err(BadKey)
                 && forall blob :: Open(reader, aead, key, blob) == Err(BadKey)
  {
    if |key| == KEY_BYTES {
      var document := Document(writer, records);
      EncryptRoundTrip(reader, aead, key, nonce, Plaintext(writer, document));
      Utf8.RoundTrip(Print(writer, document, 0));
      ParsePrinted(writer, document);
      EntriesRoundTrip(writer, reader, records);
    }
  }

  lemma PaddingIsForeign(blob: string, before: string, after: string)
    requires before + after != "" && forall c :: c in before || c in after ==> IsSpaceGo(c)
    ensures Base64.Decode(before + blob + after) == None
  {
    var padded := before + blob + after;
    var i := if before != "" then 0 else |padded| - 1;
    assert padded[i] == (if before != "" then before[0] else after[|after| - 1]);
    Base64.SpaceIsNotCode(padded[i]);
    Base64.ForeignIsRefused(padded, i);
  }

  /** White space around a stored payload does not matter to Go, and makes it
      unreadable for Python. */
  lemma PaddedPayloadsExactly(
      language: Language, aead: Aead, key: seq<byte>, blob: string, before: string, after: string)
    requires |key| == KEY_BYTES && Base64.AllCode(blob)
    requires forall c :: c in before || c in after ==> IsSpaceGo(c)
    ensures Decrypt(language, aead, key, before + blob + after) ==
            if language.Go? || (before == "" && after == "") then Decrypt(language, aead, key, blob) else Err(NotBase64)
  {
    var padded := before + blob + after;
    if language.Go? {
      Base64.TrimsToCode(IsSpaceGo, blob, before, after);
      Base64.TrimsToCode(IsSpaceGo, blob, "", "");
      assert "" + blob + "" == blob;
    } else if before == "" && after == "" {
      assert padded == blob;
    } else {
      PaddingIsForeign(blob, before, after);
    }
  }

  /** Why the store replaces a nil slice: unguarded, an empty registry written
      by Go is one Python refuses to read. */
  lemma NilGuardIsNeeded(aead: Aead, key: seq<byte>, nonce: seq<byte>)
    requires Lawful(aead) && |key| == KEY_BYTES && |nonce| == NONCE_BYTES
    ensures var unguarded := Encrypt(aead, key, nonce, Plaintext(Go, DocumentGo(None)));
      unguarded.Ok? && Open(Python, aead, key, unguarded.value) == Err(NotAnArray)
    ensures var guarded := Encrypt(aead, key, nonce, Plaintext(Go, DocumentGo(Some(Guarded(None)))));
      guarded.Ok? && Open(Python, aead, key, guarded.value) == Ok([])
  {
    EncryptRoundTrip(Python, aead, key, nonce, Plaintext(Go, Null));
    Utf8.RoundTrip(Print(Go, Null, 0));
    ParsePrinted(Go, Null);
    SealedOpens(Go, Python, aead, key, nonce, []);
  }

  // ---------------------------------------------------------------------
  // Key files
  // ---------------------------------------------------------------------

  /** The local key file, written by Python without a line break. */
  function WriteKeyFile(key: seq<byte>): Result<string, Problem>
  {
    if |key| != KEY_BYTES then Err(BadKey) else Ok(Base64.Encode(key))
  }

  /** The uploaded key file, with a line break. */
  function EncodeKey(key: seq<byte>): string
  {
    Base64.Encode(key) + "\n"
  }

  predicate IsAscii(text: string)
  {
    forall c :: c in text ==> c < '\U{80}'
  }

  /** Python reads key files as ASCII, Go as whatever they are. */
  function LoadKey(language: Language, contents: string): Result<seq<byte>, Problem>
  {
    if language.Python? && !IsAscii(contents) then Err(NotAscii)
    else
      var key := if language.Python? then Base64.Decode(Trim(IsSpacePython, contents))
                 else Base64.DecodeGo(Trim(IsSpaceGo, contents));
      if key.None? then Err(NotBase64)
      else if |key.value| != KEY_BYTES then Err(BadKey)
      else Ok(key.value)
  }

  /** What may stand around the code: for Python, white space that is ASCII. */
  predicate IsPadding(language: Language, c: char)
  {
    match language
    case Python => IsSpacePython(c) && c < '\U{80}'
    case Go => IsSpaceGo(c)
  }

  /** A key file loads as its key exactly when the key has the right length and
      nothing but padding has been put around the code. */
  lemma KeyFilesLoadExactly(language: Language, key: seq<byte>, before: string, after: string)
    ensures LoadKey(language, before + Base64.Encode(key) + after) == Ok(key) <==>
            |key| == KEY_BYTES && forall c :: c in before || c in after ==> IsPadding(language, c)
    ensures language.Python? && !IsAscii(before + Base64.Encode(key) + after) ==>
            LoadKey(language, before + Base64.Encode(key) + after) == Err(NotAscii)
  {
    var contents := before + Base64.Encode(key) + after;
    if |key| == KEY_BYTES && forall c :: c in before || c in after ==> IsPadding(language, c) {
      PaddedKeyLoads(language, key, before, after);
    }
    if LoadKey(language, contents) == Ok(key) {
      LoadedKeyIsPadded(language, key, Base64.Encode(key), before, after);
    }
  }

  lemma PaddedKeyLoads(language: Language, key: seq<byte>, before: string, after: string)
    requires |key| == KEY_BYTES && forall c :: c in before || c in after ==> IsPadding(language, c)
    ensures LoadKey(language, before + Base64.Encode(key) + after) == Ok(key)
  {
    var code := Base64.Encode(key);
    Base64.EncodeIsCode(key);
    match language
    case Python =>
      AsciiParts(before, code, after);
      Base64.TrimsToCode(IsSpacePython, code, before, after);
      Base64.RoundTrip(key);
    case Go =>
      Base64.TrimsToCode(IsSpaceGo, code, before, after);
      Base64.RoundTripGo(key);
  }

  lemma AsciiParts(before: string, code: string, after: string)
    requires Base64.AllCode(code)
    ensures IsAscii(before + code + after) <==> IsAscii(before) && IsAscii(after)
  {
    var contents := before + code + after;
    forall c | c in code ensures c < '\U{80}' {
      var i :| 0 <= i < |code| && code[i] == c;
    }
    assert forall c :: c in contents <==> c in before || c in code || c in after;
  }

  lemma LoadedKeyDecodes(language: Language, contents: string, key: seq<byte>)
    requires LoadKey(language, contents) == Ok(key)
    ensures |key| == KEY_BYTES
    ensures match language
      case Python => IsAscii(contents) && Base64.Decode(Trim(IsSpacePython, contents)) == Some(key)
      case Go => Base64.DecodeGo(Trim(IsSpaceGo, contents)) == Some(key)
  {
  }

  lemma LoadedKeyIsPadded(language: Language, key: seq<byte>, code: string, before: string, after: string)
    requires code == Base64.Encode(key) && LoadKey(language, before + code + after) == Ok(key)
    ensures |key| == KEY_BYTES && forall c :: c in before || c in after ==> IsPadding(language, c)
  {
    LoadedKeyDecodes(language, before + code + after, key);
    match language
    case Python =>
      Base64.EncodeIsCode(key);
      AsciiParts(before, code, after);
      PaddedForPython(key, before, after);
    case Go =>
      PaddedForGo(key, before, after);
  }

  lemma PaddedForPython(key: seq<byte>, before: string, after: string)
    requires Base64.Decode(Trim(IsSpacePython, before + Base64.Encode(key) + after)) == Some(key)
    ensures forall c :: c in before || c in after ==> IsSpacePython(c)
  {
    var trimmed := Trim(IsSpacePython, before + Base64.Encode(key) + after);
    SolidBounds(IsSpacePython, trimmed);
    CodeOfKey(key, trimmed);
    NothingElseIsSolid(IsSpacePython, key, before, after, |trimmed|);
  }

  lemma PaddedForGo(key: seq<byte>, before: string, after: string)
    requires Base64.DecodeGo(Trim(IsSpaceGo, before + Base64.Encode(key) + after)) == Some(key)
    ensures forall c :: c in before || c in after ==> IsSpaceGo(c)
  {
    var trimmed := Trim(IsSpaceGo, before + Base64.Encode(key) + after);
    Base64.LineBreaksAreNotSolid(trimmed);
    CodeOfKey(key, Base64.WithoutLineBreaks(trimmed));
    NothingElseIsSolid(IsSpaceGo, key, before, after, |Base64.WithoutLineBreaks(trimmed)|);
  }

  lemma CodeOfKey(key: seq<byte>, text: string)
    requires Base64.Decode(text) == Some(key)
    ensures |text| == |Base64.Encode(key)|
  {
    Base64.DecodedIsCode(text);
    Base64.EncodeIsCode(key);
    GroupsOfKey(|text|, |key|);
  }

  lemma GroupsOfKey(length: nat, octets: nat)
    requires length % 4 == 0 && length / 4 * 3 - 2 <= octets <= length / 4 * 3
    ensures length == (octets + 2) / 3 * 4
  {
  }

  lemma NothingElseIsSolid(space: char -> bool, key: seq<byte>, before: string, after: string, length: nat)
    requires space == IsSpacePython || space == IsSpaceGo
    requires length == |Base64.Encode(key)|
    requires Solid(space, Trim(space, before + Base64.Encode(key) + after)) <= length
    ensures forall c :: c in before || c in after ==> space(c)
  {
    var code := Base64.Encode(key);
    Base64.EncodeIsCode(key);
    Base64.CodeIsSolid(code);
    assert Solid(space, code) == |code|;
    TrimKeepsSolid(space, before + code + after);
    SolidConcat(space, before + code, after);
    SolidConcat(space, before, code);
    SolidBounds(space, before);
    SolidBounds(space, after);
  }

  lemma KeyRoundTrips(language: Language, key: seq<byte>)
    requires |key| == KEY_BYTES
    ensures WriteKeyFile(key).Ok? && LoadKey(language, WriteKeyFile(key).value) == Ok(key)
    ensures LoadKey(language, EncodeKey(key)) == Ok(key)
  {
    KeyFilesLoadExactly(language, key, "", "");
    KeyFilesLoadExactly(language, key, "", "\n");
    assert "" + Base64.Encode(key) + "" == Base64.Encode(key);
    assert "" + Base64.Encode(key) + "\n" == EncodeKey(key);
  }

  // ---------------------------------------------------------------------
  // The format itself
  // ---------------------------------------------------------------------

  /** One field of that name, holding that text. */
  predicate Says(members: seq<Member>, name: string, text: string)
  {
    exists i :: 0 <= i < |members| && members[i] == Member(name, Text(text))
  }

  function NamesOf(members: seq<Member>): (names: seq<string>)
    ensures |names| == |members| && forall i :: 0 <= i < |names| ==> names[i] == members[i].name
  {
    seq(|members|, i requires 0 <= i < |members| => members[i].name)
  }

  /** The eight fields under the names both languages agreed on: Go prints them in
      declaration order, Python sorted. */
  lemma FieldsOnTheWire(language: Language, r: Record)
    ensures NamesOf(Members(language, r)) ==
            match language
            case Go => ["hostname", "role", "ipv4", "ipv6", "status", "status_timestamp", "state", "state_timestamp"]
            case Python => ["hostname", "ipv4", "ipv6", "role", "state", "state_timestamp", "status", "status_timestamp"]
    ensures var m := Members(language, r);
      && Says(m, "hostname", r.hostname) && Says(m, "role", r.role)
      && Says(m, "ipv4", r.ipv4) && Says(m, "ipv6", r.ipv6)
      && Says(m, "status", r.status) && Says(m, "status_timestamp", r.statusTimestamp)
      && Says(m, "state", r.state) && Says(m, "state_timestamp", r.stateTimestamp)
  {
    var m := Members(language, r);
    if language.Go? {
      assert m[0] == Member("hostname", Text(r.hostname)) && m[1] == Member("role", Text(r.role));
      assert m[2] == Member("ipv4", Text(r.ipv4)) && m[3] == Member("ipv6", Text(r.ipv6));
      assert m[4] == Member("status", Text(r.status)) && m[5] == Member("status_timestamp", Text(r.statusTimestamp));
      assert m[6] == Member("state", Text(r.state)) && m[7] == Member("state_timestamp", Text(r.stateTimestamp));
    } else {
      assert m[0] == Member("hostname", Text(r.hostname)) && m[3] == Member("role", Text(r.role));
      assert m[1] == Member("ipv4", Text(r.ipv4)) && m[2] == Member("ipv6", Text(r.ipv6));
      assert m[6] == Member("status", Text(r.status)) && m[7] == Member("status_timestamp", Text(r.statusTimestamp));
      assert m[4] == Member("state", Text(r.state)) && m[5] == Member("state_timestamp", Text(r.stateTimestamp));
    }
  }

  /** What is stored decodes to the nonce, then the ciphertext with its tag, which
      is the seal of the array in UTF-8. */
  lemma PayloadLayout(language: Language, aead: Aead, key: seq<byte>, nonce: seq<byte>, records: seq<Record>)
    requires Lawful(aead) && |key| == KEY_BYTES && |nonce| == NONCE_BYTES
    ensures var payload := Seal(language, aead, key, nonce, records);
      && payload.Ok? && Base64.Decode(payload.value).Some?
      && var raw := Base64.Decode(payload.value).value;
      && |raw| >= NONCE_BYTES + TAG_BYTES && raw[..NONCE_BYTES] == nonce
      && aead.open(key, nonce, raw[NONCE_BYTES..]) == Some(Utf8.Encode(Print(language, Document(language, records), 0)))
  {
    var plain := Plaintext(language, Document(language, records));
    var raw := nonce + aead.seal(key, nonce, plain);
    Base64.RoundTrip(raw);
    assert raw[..NONCE_BYTES] == nonce && raw[NONCE_BYTES..] == aead.seal(key, nonce, plain);
  }

  /** Of any octets in base64, either language makes what the cipher makes of the
      first twelve as the nonce and all others; fewer than a nonce and a tag, or
      what the cipher does not authenticate, is an error. */
  lemma OpensByLayout(language: Language, aead: Aead, key: seq<byte>, raw: seq<byte>)
    requires |key| == KEY_BYTES
    ensures Decrypt(language, aead, key, Base64.Encode(raw)) ==
            if |raw| < 28 then Err(TooShort)
            else if aead.open(key, raw[..12], raw[12..]).None? then Err(NotAuthentic)
            else Ok(aead.open(key, raw[..12], raw[12..]).value)
  {
    if language.Python? {
      Base64.RoundTrip(raw);
    } else {
      EncodedIsRead(raw);
    }
  }

  lemma EncodedIsRead(raw: seq<byte>)
    ensures Base64.DecodeGo(Trim(IsSpaceGo, Base64.Encode(raw))) == Some(raw)
  {
    NothingToTrim(raw);
    Base64.RoundTripGo(raw);
  }

  lemma NothingToTrim(raw: seq<byte>)
    ensures Trim(IsSpaceGo, Base64.Encode(raw)) == Base64.Encode(raw)
  {
    var code := Base64.Encode(raw);
    Base64.EncodeIsCode(raw);
    assert "" + code + "" == code;
    Base64.TrimsToCode(IsSpaceGo, code, "", "");
  }
}
