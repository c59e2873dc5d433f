/** The directory that holds the datastore, with what is written told apart
    from what would survive a crash. */
module Storage {
  import opened Basics
  import opened Registry
  import opened Wire
  import Json

  /** A file, however it is named. */
  type Inode = nat

  datatype File = File(content: string, synced: bool)

  /** `entry` is what the datastore path names. A rename is visible at once but
      reaches the medium some time later: after a crash the path names one of
      the inodes in `journal`, whose last element is the current one. */
  datatype Disk = Disk(
    files: map<Inode, File>,
    entry: Option<Inode>,
    journal: seq<Option<Inode>>,
    temps: set<Inode>,
    next: Inode)

  ghost predicate Valid(d: Disk)
  {
    && (forall i :: i in d.files ==> i < d.next)
    && d.temps <= d.files.Keys
    && |d.journal| > 0 && d.journal[|d.journal| - 1] == d.entry
    && (forall k :: 0 <= k < |d.journal| && d.journal[k].Some? ==> Published(d, d.journal[k].value))
  }

  /** A file the path names, or may come to name after a crash. */
  ghost predicate Published(d: Disk, i: Inode)
  {
    i in d.files && i !in d.temps && d.files[i].synced
  }

  // ---------------------------------------------------------------------
  // System calls
  // ---------------------------------------------------------------------

  function CreateTemp(d: Disk): Disk
  {
    d.(files := d.files[d.next := File("", false)], temps := d.temps + {d.next}, next := d.next + 1)
  }

  function Write(d: Disk, i: Inode, text: string): Disk
    requires i in d.files
  {
    d.(files := d.files[i := File(d.files[i].content + text, false)])
  }

  function Sync(d: Disk, i: Inode): Disk
    requires i in d.files
  {
    d.(files := d.files[i := d.files[i].(synced := true)])
  }

  function Rename(d: Disk, i: Inode): Disk
  {
    d.(entry := Some(i), journal := d.journal + [Some(i)], temps := d.temps - {i})
  }

  /** All six calls of a replacement, none failing. */
  function Committed(d: Disk, payload: string): Disk
  {
    Rename(Sync(Write(CreateTemp(d), d.next, payload), d.next), d.next)
  }

  function Remove(d: Disk, i: Inode): Disk
  {
    d.(temps := d.temps - {i})
  }

  /** The kernel writes the directory back. */
  function Flush(d: Disk): Disk
  {
    d.(journal := [d.entry])
  }

  /** Power loss: the path falls back to some journalled inode, and every file
      that was not synced may hold anything at all. */
  ghost predicate Crash(d: Disk, after: Disk)
  {
    && (exists k :: 0 <= k < |d.journal| && d.journal[k] == after.entry)
    && after.journal == [after.entry]
    && after.files.Keys == d.files.Keys
    && (forall i :: i in d.files && d.files[i].synced ==> after.files[i].content == d.files[i].content)
    && (forall i :: i in after.files ==> after.files[i].synced)
    && after.temps <= d.files.Keys && (after.entry.Some? ==> after.entry.value !in after.temps)
    && after.next == d.next
  }

  // ---------------------------------------------------------------------
  // What the datastore means
  // ---------------------------------------------------------------------

  /** The bytes a reader of this inode gets. */
  function ContentOf(d: Disk, entry: Option<Inode>): Option<string>
  {
    match entry
    case None => None
    case Some(i) => if i in d.files then Some(d.files[i].content) else None
  }

  function Payload(d: Disk): Option<string>
  {
    ContentOf(d, d.entry)
  }

  /** A key and the cipher it is for. */
  datatype Service = Service(aead: Aead, key: seq<byte>)

  /** An absent or empty datastore is an empty registry. */
  function ViewOf(v: Service, payload: Option<string>): Result<seq<Record>, Problem>
  {
    match payload
    case None => Ok([])
    case Some(blob) => if blob == "" then Ok([]) else Open(Json.Go, v.aead, v.key, blob)
  }

  /** Whatever a crash may leave the path naming can be read. */
  ghost predicate Durable(v: Service, d: Disk)
  {
    forall k :: 0 <= k < |d.journal| ==> ViewOf(v, ContentOf(d, d.journal[k])).Ok?
  }

  /** A crash leaves the path holding, whole, one of the payloads it may have
      held since the directory last reached the medium. */
  lemma CrashKeepsAWholePayload(v: Service, d: Disk, after: Disk)
    requires Valid(d) && Crash(d, after)
    ensures Valid(after)
    ensures exists k :: 0 <= k < |d.journal| && Payload(after) == ContentOf(d, d.journal[k])
    ensures Durable(v, d) ==> Durable(v, after) && ViewOf(v, Payload(after)).Ok?
  {
    var k :| 0 <= k < |d.journal| && d.journal[k] == after.entry;
    assert d.journal[k].Some? ==> Published(d, d.journal[k].value);
    assert Payload(after) == ContentOf(d, d.journal[k]);
  }

  /** Inodes that keep their file keep what they stand for. */
  lemma ContentsKept(before: Disk, after: Disk)
    requires Valid(before)
    requires forall i :: i in before.files ==> i in after.files && after.files[i] == before.files[i]
    ensures forall k :: 0 <= k < |before.journal| ==>
              ContentOf(after, before.journal[k]) == ContentOf(before, before.journal[k])
    ensures after.entry == before.entry ==> Payload(after) == Payload(before)
  {
    forall k | 0 <= k < |before.journal|
      ensures ContentOf(after, before.journal[k]) == ContentOf(before, before.journal[k])
    {
      assert before.journal[k].Some? ==> Published(before, before.journal[k].value);
    }
  }
}
