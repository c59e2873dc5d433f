/** The file-backed registry store of the Go service, one call at a time: each
    system call may fail on its own. How calls interleave is in StoreMachine,
    whose threads write what `Replace` writes. */
module Store {
  import opened Basics
  import opened Registry
  import opened Wire
  import opened Storage
  import Json

  datatype ReadOutcome = Content(text: string) | NotExist | Unreadable

  datatype Call =
    | ReadPath | DrawNonce
    | MakeTemp | WriteTo(i: Inode, text: string) | Sync(i: Inode) | Close(i: Inode) | Chmod(i: Inode)
    | RenameOver(i: Inode) | Unlink(i: Inode)

  /** The operating system, as seen by the store. It remembers the calls made and
      how each ended. */
  class FileSystem {
    var disk: Disk
    ghost var calls: seq<Step<Call>>

    constructor (initial: Disk)
      ensures disk == initial && calls == []
    {
      disk := initial;
      calls := [];
    }

    /** That there is no file is an answer; only `Unreadable` is a failure. */
    method ReadFile() returns (r: ReadOutcome)
      modifies this`calls
      ensures r.Content? ==> Payload(disk) == Some(r.text)
      ensures r.NotExist? ==> Payload(disk) == None
      ensures calls == old(calls) + [Step(ReadPath, !r.Unreadable?)]
    {
      var ok: bool := *;
      calls := calls + [Step(ReadPath, ok)];
      if !ok {
        return Unreadable;
      }
      match Payload(disk) {
        case None => return NotExist;
        case Some(text) => return Content(text);
      }
    }

    method CreateTempFile() returns (r: Option<Inode>)
      modifies this
      ensures r.None? ==> disk == old(disk)
      ensures r.Some? ==> r.value == old(disk).next && disk == CreateTemp(old(disk))
      ensures calls == old(calls) + [Step(MakeTemp, r.Some?)]
    {
      var ok: bool := *;
      calls := calls + [Step(MakeTemp, ok)];
      if !ok {
        return None;
      }
      r := Some(disk.next);
      disk := CreateTemp(disk);
    }

    /** A failing write may have written anything. */
    method WriteFile(i: Inode, text: string) returns (ok: bool, ghost written: string)
      requires i in disk.files
      modifies this
      ensures disk == Write(old(disk), i, written)
      ensures ok ==> written == text
      ensures calls == old(calls) + [Step(WriteTo(i, text), ok)]
    {
      ok := *;
      var partial: string := *;
      var put := if ok then text else partial;
      disk := Write(disk, i, put);
      written := put;
      calls := calls + [Step(WriteTo(i, text), ok)];
    }

    method SyncFile(i: Inode) returns (ok: bool)
      requires i in disk.files
      modifies this
      ensures disk == if ok then Storage.Sync(old(disk), i) else old(disk)
      ensures calls == old(calls) + [Step(Sync(i), ok)]
    {
      ok := *;
      if ok {
        disk := Storage.Sync(disk, i);
      }
      calls := calls + [Step(Sync(i), ok)];
    }

    /** Closing a file and changing its mode leave names and contents alone. */
    method CloseFile(i: Inode) returns (ok: bool)
      modifies this`calls
      ensures calls == old(calls) + [Step(Close(i), ok)]
    {
      ok := *;
      calls := calls + [Step(Close(i), ok)];
    }

    method ChmodFile(i: Inode) returns (ok: bool)
      modifies this`calls
      ensures calls == old(calls) + [Step(Chmod(i), ok)]
    {
      ok := *;
      calls := calls + [Step(Chmod(i), ok)];
    }

    method RenameFile(i: Inode) returns (ok: bool)
      modifies this
      ensures disk == if ok then Rename(old(disk), i) else old(disk)
      ensures calls == old(calls) + [Step(RenameOver(i), ok)]
    {
      ok := *;
      if ok {
        disk := Rename(disk, i);
      }
      calls := calls + [Step(RenameOver(i), ok)];
    }

    method RemoveFile(i: Inode) returns (ok: bool)
      modifies this
      ensures disk == if ok then Remove(old(disk), i) else old(disk)
      ensures calls == old(calls) + [Step(Unlink(i), ok)]
    {
      ok := *;
      if ok {
        disk := Remove(disk, i);
      }
      calls := calls + [Step(Unlink(i), ok)];
    }

    method RandomNonce() returns (nonce: Option<seq<byte>>)
      modifies this`calls
      ensures nonce.Some? ==> |nonce.value| == NONCE_BYTES
      ensures calls == old(calls) + [Step(DrawNonce, nonce.Some?)]
    {
      var drawn: seq<byte> := *;
      nonce := if |drawn| == NONCE_BYTES then Some(drawn) else None;
      calls := calls + [Step(DrawNonce, nonce.Some?)];
    }
  }

  // ---------------------------------------------------------------------
  // The calls of an operation
  // ---------------------------------------------------------------------

  /** The replacement of the datastore by a new file `i`, call by call. */
  function Replacement(i: Inode, payload: string): seq<Call>
  {
    [MakeTemp, WriteTo(i, payload), Sync(i), Close(i), Chmod(i), RenameOver(i)]
  }

  /** After the failure of the first, second, ... call of a replacement: a file
      that is still open is closed, and one that was made is removed. */
  predicate CleansUp(calls: seq<Step<Call>>, i: Inode, failed: nat, removed: bool)
  {
    if failed == 0 then calls == [] && removed
    else if failed <= 2 then |calls| == 2 && calls[0].op == Close(i) && calls[1] == Step(Unlink(i), removed)
    else calls == [Step(Unlink(i), removed)]
  }

  predicate FailsAt(calls: seq<Step<Call>>, i: Inode, payload: string, n: nat, removed: bool)
  {
    n < |calls| && InOrder(calls[..n + 1], Replacement(i, payload), false) && CleansUp(calls[n + 1..], i, n, removed)
  }

  /** The calls of a replacement: all six in order on success, otherwise up to the
      one that failed, and then those that clean up. */
  ghost predicate Replaces(calls: seq<Step<Call>>, i: Inode, payload: string, ok: bool, removed: bool)
  {
    if ok then InOrder(calls, Replacement(i, payload), true)
    else exists n: nat :: FailsAt(calls, i, payload, n, removed)
  }

  lemma FailedCall(taken: seq<Step<Call>>, i: Inode, payload: string, n: nat, after: seq<Step<Call>>, removed: bool)
    requires n < 6 && |taken| == n && InOrder(taken, Replacement(i, payload)[..n], true)
    requires CleansUp(after, i, n, removed)
    ensures Replaces(taken + [Step(Replacement(i, payload)[n], false)] + after, i, payload, false, removed)
  {
    var failing := taken + [Step(Replacement(i, payload)[n], false)];
    OneStep(taken, Replacement(i, payload), false);
    assert (failing + after)[..n + 1] == failing && (failing + after)[n + 1..] == after;
    assert FailsAt(failing + after, i, payload, n, removed);
  }

  lemma LeftBehind(calls: seq<Step<Call>>, i: Inode, payload: string)
    requires Replaces(calls, i, payload, false, false)
    ensures Step(Unlink(i), false) in calls
  {
    var n: nat :| FailsAt(calls, i, payload, n, false);
    var after := calls[n + 1..];
    assert after[|after| - 1] == Step(Unlink(i), false);
    assert calls[|calls| - 1] == after[|after| - 1];
  }

  /** One more call of a replacement goes through. */
  lemma Goes(taken: seq<Step<Call>>, i: Inode, payload: string) returns (calls: seq<Step<Call>>)
    requires |taken| < 6 && InOrder(taken, Replacement(i, payload)[..|taken|], true)
    ensures calls == taken + [Step(Replacement(i, payload)[|taken|], true)]
    ensures InOrder(calls, Replacement(i, payload)[..|calls|], true)
    ensures |calls| == 6 ==> Replaces(calls, i, payload, true, true)
  {
    calls := taken + [Step(Replacement(i, payload)[|taken|], true)];
    OneStep(taken, Replacement(i, payload), true);
    Whole(Replacement(i, payload));
  }

  /** The next call fails, and is followed by what cleans up. */
  lemma Fails(taken: seq<Step<Call>>, i: Inode, payload: string, n: nat, after: seq<Step<Call>>, removed: bool)
    returns (calls: seq<Step<Call>>)
    requires n < 6 && |taken| == n && InOrder(taken, Replacement(i, payload)[..n], true)
    requires CleansUp(after, i, n, removed)
    ensures calls == taken + [Step(Replacement(i, payload)[n], false)] + after
    ensures Replaces(calls, i, payload, false, removed)
  {
    calls := taken + [Step(Replacement(i, payload)[n], false)] + after;
    FailedCall(taken, i, payload, n, after, removed);
  }

  lemma Went(past: seq<Step<Call>>, taken: seq<Step<Call>>, i: Inode, payload: string) returns (calls: seq<Step<Call>>)
    requires |taken| < 6 && InOrder(taken, Replacement(i, payload)[..|taken|], true)
    ensures past + taken + [Step(Replacement(i, payload)[|taken|], true)] == past + calls
    ensures |calls| == |taken| + 1 && InOrder(calls, Replacement(i, payload)[..|calls|], true)
    ensures |calls| == 6 ==> Replaces(calls, i, payload, true, true)
  {
    calls := Goes(taken, i, payload);
    MoreCalls(past, taken, [Step(Replacement(i, payload)[|taken|], true)]);
  }

  lemma Failed(past: seq<Step<Call>>, taken: seq<Step<Call>>, i: Inode, payload: string, n: nat,
               after: seq<Step<Call>>, removed: bool)
    returns (calls: seq<Step<Call>>)
    requires n < 6 && |taken| == n && InOrder(taken, Replacement(i, payload)[..n], true)
    requires CleansUp(after, i, n, removed)
    ensures past + taken + [Step(Replacement(i, payload)[n], false)] + after == past + calls
    ensures Replaces(calls, i, payload, false, removed)
  {
    calls := Fails(taken, i, payload, n, after, removed);
    var failing := [Step(Replacement(i, payload)[n], false)];
    MoreCalls(past, taken, failing);
    MoreCalls(past, taken + failing, after);
  }

  predicate NoneFailed(calls: seq<Step<Call>>)
  {
    forall k :: 0 <= k < |calls| ==> calls[k].ok
  }

  lemma NoneFailedIn(a: seq<Step<Call>>, b: seq<Step<Call>>)
    ensures NoneFailed(a + b) <==> NoneFailed(a) && NoneFailed(b)
  {
    if NoneFailed(a + b) {
      assert forall k :: 0 <= k < |a| ==> a[k] == (a + b)[k];
      assert forall k :: 0 <= k < |b| ==> b[k] == (a + b)[|a| + k];
    }
  }

  lemma ReplacesOrFails(calls: seq<Step<Call>>, i: Inode, payload: string, ok: bool, removed: bool)
    requires Replaces(calls, i, payload, ok, removed)
    ensures ok <==> NoneFailed(calls)
  {
    if !ok {
      var n: nat :| FailsAt(calls, i, payload, n, removed);
      assert !calls[..n + 1][n].ok;
    }
  }

  // ---------------------------------------------------------------------
  // What a replacement does to the disk
  // ---------------------------------------------------------------------

  /** A temporary file is there, and beside it everything is as it was. */
  ghost predicate Staged(before: Disk, d: Disk, i: Inode)
  {
    && i == before.next && Valid(d) && i in d.files
    && d.entry == before.entry && d.journal == before.journal && d.temps == before.temps + {i}
    && FilesStay(before, d)
  }

  ghost predicate FilesStay(before: Disk, d: Disk)
  {
    forall i :: i in before.files ==> i in d.files && d.files[i] == before.files[i]
  }

  /** On success the path names a new synced file with the payload; otherwise it
      names what it named. Other files stay, and no temporary file does unless it
      could not be removed. */
  ghost predicate Replaced(before: Disk, after: Disk, payload: string, ok: bool, removed: bool)
  {
    && Valid(after) && FilesStay(before, after)
    && (ok ==> removed && Payload(after) == Some(payload) && after == Committed(before, payload))
    && after.entry == (if ok then Some(before.next) else before.entry)
    && after.journal == before.journal + (if ok then [after.entry] else [])
    && (removed ==> after.temps == before.temps)
    && after.temps <= before.temps + {before.next}
  }

  lemma Stages(before: Disk)
    requires Valid(before)
    ensures Staged(before, CreateTemp(before), before.next)
  {
  }

  lemma StaysStaged(before: Disk, d: Disk, i: Inode, text: string)
    requires Valid(before) && Staged(before, d, i)
    ensures Staged(before, Write(d, i, text), i) && Staged(before, Storage.Sync(d, i), i)
  {
  }

  lemma Discards(before: Disk, d: Disk, i: Inode, payload: string, removed: bool)
    requires Valid(before) && Staged(before, d, i)
    ensures Replaced(before, if removed then Remove(d, i) else d, payload, false, removed)
  {
  }

  lemma NothingDone(before: Disk, payload: string)
    requires Valid(before)
    ensures Replaced(before, before, payload, false, true)
  {
  }

  /** A new synced file with the payload, not yet under the path. */
  function Filled(before: Disk, payload: string): Disk
  {
    Storage.Sync(Write(CreateTemp(before), before.next, payload), before.next)
  }

  lemma FilledIsStaged(before: Disk, payload: string)
    requires Valid(before)
    ensures Staged(before, Write(CreateTemp(before), before.next, payload), before.next)
    ensures Staged(before, Filled(before, payload), before.next)
  {
    Stages(before);
    StaysStaged(before, CreateTemp(before), before.next, payload);
    StaysStaged(before, Write(CreateTemp(before), before.next, payload), before.next, payload);
  }

  lemma Commits(before: Disk, payload: string)
    requires Valid(before)
    ensures Replaced(before, Committed(before, payload), payload, true, true)
  {
    var i := before.next;
    var written := Write(CreateTemp(before), i, payload);
    Stages(before);
    StaysStaged(before, CreateTemp(before), i, payload);
    StaysStaged(before, written, i, payload);
    assert written.files[i].content == payload;
  }

  lemma MoreCalls(past: seq<Step<Call>>, taken: seq<Step<Call>>, more: seq<Step<Call>>)
    ensures past + taken + more == past + (taken + more)
  {
  }

  datatype LoadError = CannotRead | Damaged(problem: Problem)

  class Store {
    const files: FileSystem
    const service: Service

    constructor (files: FileSystem, service: Service)
      ensures this.files == files && this.service == service
    {
      this.files := files;
      this.service := service;
    }

    ghost predicate Ready()
      reads this, files
    {
      Valid(files.disk) && Lawful(service.aead)
    }

    ghost function View(): Result<seq<Record>, Problem>
      reads this, files
    {
      ViewOf(service, Payload(files.disk))
    }

    /** Every read decrypts the file afresh. An absent or empty file is an empty
        registry; `failed` says that the read itself failed. */
    method Load() returns (r: Result<seq<Record>, LoadError>, ghost failed: bool)
      modifies files`calls
      ensures files.calls == old(files.calls) + [Step(ReadPath, !failed)]
      ensures r == if failed then Err(CannotRead)
                   else if View().Ok? then Ok(View().value) else Err(Damaged(View().error))
    {
      var blob := files.ReadFile();
      failed := blob.Unreadable?;
      match blob {
        case NotExist => return Ok([]), false;
        case Unreadable => return Err(CannotRead), true;
        case Content(text) =>
          if text == "" {
            return Ok([]), false;
          }
          match Open(Json.Go, service.aead, service.key, text) {
            case Err(problem) => return Err(Damaged(problem)), false;
            case Ok(records) => return Ok(records), false;
          }
      }
    }

    /** The datastore as stored, still encrypted. */
    method RawCiphertext() returns (r: Option<string>, ghost failed: bool)
      modifies files`calls
      ensures files.calls == old(files.calls) + [Step(ReadPath, !failed)]
      ensures r == if failed then None
                   else match Payload(files.disk) case None => Some("") case Some(blob) => Some(blob)
    {
      var blob := files.ReadFile();
      failed := blob.Unreadable?;
      match blob {
        case NotExist => return Some(""), false;
        case Unreadable => return None, true;
        case Content(text) => return Some(text), false;
      }
    }

    /** Clean up after a failed call: close the file if it is still open, and
        remove it. */
    method Discard(i: Inode, open: bool) returns (ghost removed: bool, ghost after: seq<Step<Call>>)
      modifies files
      ensures files.disk == if removed then Remove(old(files.disk), i) else old(files.disk)
      ensures files.calls == old(files.calls) + after
      ensures forall failed :: (if open then 0 < failed <= 2 else failed > 2) ==> CleansUp(after, i, failed, removed)
    {
      after := [];
      if open {
        var closed := files.CloseFile(i);
        after := [Step(Close(i), closed)];
      }
      var ok := files.RemoveFile(i);
      removed := ok;
      after := after + [Step(Unlink(i), ok)];
    }

    /** A new temporary file, written in full. */
    method Fill(payload: string) returns (temp: Option<Inode>, ghost removed: bool, ghost calls: seq<Step<Call>>)
      requires Valid(files.disk)
      modifies files
      ensures files.calls == old(files.calls) + calls
      ensures temp.Some? ==>
                && temp.value == old(files.disk).next && |calls| == 2
                && InOrder(calls, Replacement(temp.value, payload)[..2], true)
                && files.disk == Write(CreateTemp(old(files.disk)), temp.value, payload)
      ensures temp.None? ==>
                && Replaces(calls, old(files.disk).next, payload, false, removed)
                && Replaced(old(files.disk), files.disk, payload, false, removed)
    {
      ghost var before, past, after := files.disk, files.calls, [];
      temp := files.CreateTempFile();
      if temp.None? {
        NothingDone(before, payload);
        calls := Fails([], before.next, payload, 0, [], true);
        assert calls == [Step(MakeTemp, false)];
        return None, true, calls;
      }
      var i := temp.value;
      calls := Goes([], i, payload);
      Stages(before);
      assert calls == [Step(MakeTemp, true)];
      ghost var written;
      var ok;
      ok, written := files.WriteFile(i, payload);
      StaysStaged(before, CreateTemp(before), i, written);
      if !ok {
        ghost var full := files.disk;
        removed, after := Discard(i, true);
        Discards(before, full, i, payload, removed);
        calls := Failed(past, calls, i, payload, 1, after, removed);
        return None, removed, calls;
      }
      removed := true;
      calls := Went(past, calls, i, payload);
    }

    /** Everything up to the rename. */
    method Stage(payload: string) returns (temp: Option<Inode>, ghost removed: bool, ghost calls: seq<Step<Call>>)
      requires Valid(files.disk)
      modifies files
      ensures files.calls == old(files.calls) + calls
      ensures temp.Some? ==>
                && temp.value == old(files.disk).next && |calls| == 5
                && InOrder(calls, Replacement(temp.value, payload)[..5], true)
                && files.disk == Filled(old(files.disk), payload)
      ensures temp.None? ==>
                && Replaces(calls, old(files.disk).next, payload, false, removed)
                && Replaced(old(files.disk), files.disk, payload, false, removed)
    {
      ghost var before, past, after := files.disk, files.calls, [];
      temp, removed, calls := Fill(payload);
      if temp.None? {
        return;
      }
      var i := temp.value;
      FilledIsStaged(before, payload);
      ghost var staged := files.disk;
      var ok := files.SyncFile(i);
      if !ok {
        removed, after := Discard(i, true);
        Discards(before, staged, i, payload, removed);
        calls := Failed(past, calls, i, payload, 2, after, removed);
        return None, removed, calls;
      }
      staged := files.disk;
      calls := Went(past, calls, i, payload);
      ok := files.CloseFile(i);
      if !ok {
        removed, after := Discard(i, false);
        Discards(before, staged, i, payload, removed);
        calls := Failed(past, calls, i, payload, 3, after, removed);
        return None, removed, calls;
      }
      calls := Went(past, calls, i, payload);
      ok := files.ChmodFile(i);
      if !ok {
        removed, after := Discard(i, false);
        Discards(before, staged, i, payload, removed);
        calls := Failed(past, calls, i, payload, 4, after, removed);
        return None, removed, calls;
      }
      calls := Went(past, calls, i, payload);
    }

    /** Stage in a temporary file, sync, rename. Any failure leaves the path
        alone, and nothing else behind unless removing the temporary file failed
        too (`removed` is false). `calls` are the calls made. */
    method Replace(payload: string) returns (ok: bool, ghost removed: bool, ghost calls: seq<Step<Call>>)
      requires Valid(files.disk)
      modifies files
      ensures files.calls == old(files.calls) + calls
      ensures Replaces(calls, old(files.disk).next, payload, ok, removed)
      ensures Replaced(old(files.disk), files.disk, payload, ok, removed)
    {
      ghost var before, past, after := files.disk, files.calls, [];
      var temp;
      temp, removed, calls := Stage(payload);
      if temp.None? {
        return false, removed, calls;
      }
      ghost var staged := files.disk;
      FilledIsStaged(before, payload);
      ok := files.RenameFile(temp.value);
      if !ok {
        removed, after := Discard(temp.value, false);
        Discards(before, staged, temp.value, payload, removed);
        calls := Failed(past, calls, temp.value, payload, 5, after, removed);
        return false, removed, calls;
      }
      removed := true;
      calls := Went(past, calls, temp.value, payload);
      Commits(before, payload);
    }

    /** Success replaces the datastore by a synced file that reads back as the
        records; any failure leaves the datastore as it was, and comes of the key
        or of a call that failed. */
    method Save(records: Option<seq<Record>>) returns (ok: bool, ghost removed: bool, ghost calls: seq<Step<Call>>)
      requires Ready()
      modifies files
      ensures Ready()
      ensures files.calls == old(files.calls) + calls
      ensures ok <==> |service.key| == KEY_BYTES && NoneFailed(calls)
      ensures ok ==> View() == Ok(match records case None => [] case Some(list) => list)
      ensures !ok ==> Payload(files.disk) == old(Payload(files.disk)) && View() == old(View())
      ensures files.disk.journal == old(files.disk).journal + if ok then [files.disk.entry] else []
      ensures removed ==> files.disk.temps == old(files.disk).temps
      ensures !removed ==> Step(Unlink(old(files.disk).next), false) in calls
      ensures old(Durable(service, files.disk)) ==> Durable(service, files.disk)
    {
      removed, calls := true, [];
      var list := Guarded(records);
      if |service.key| != KEY_BYTES {
        return false, true, calls;
      }
      var drawn := files.RandomNonce();
      calls := [Step(DrawNonce, drawn.Some?)];
      if drawn.None? {
        assert !calls[0].ok;
        return false, true, calls;
      }
      var payload := Seal(Json.Go, service.aead, service.key, drawn.value, list);
      SealedOpens(Json.Go, Json.Go, service.aead, service.key, drawn.value, list);
      ghost var before := files.disk;
      ghost var replacement;
      ok, removed, replacement := Replace(payload.value);
      ReplacesOrFails(replacement, before.next, payload.value, ok, removed);
      NoneFailedIn(calls, replacement);
      MoreCalls(old(files.calls), calls, replacement);
      if !removed {
        LeftBehind(replacement, before.next, payload.value);
        assert Step(Unlink(before.next), false) in calls + replacement;
      }
      calls := calls + replacement;
      SavedView(service, before, files.disk, payload.value, list, ok, removed);
    }

    /** Read, replace or append, and save, under one lock. It fails only where the
        read or a call of the save fails, the key is of the wrong length, or what
        is stored cannot be opened. */
    method Upsert(candidate: Record) returns (r: Option<seq<Record>>, ghost removed: bool, ghost calls: seq<Step<Call>>)
      requires Ready()
      modifies files
      ensures Ready()
      ensures files.calls == old(files.calls) + calls
      ensures r.Some? <==> old(View()).Ok? && |service.key| == KEY_BYTES && NoneFailed(calls)
      ensures r.Some? ==> r.value == Registry.Upsert(old(View()).value, candidate)
      ensures r.Some? ==> View() == Ok(r.value)
      ensures r.None? ==> files.disk.entry == old(files.disk).entry && View() == old(View())
      ensures removed ==> files.disk.temps == old(files.disk).temps
    {
      removed := true;
      var loaded;
      ghost var failed;
      loaded, failed := Load();
      calls := [Step(ReadPath, !failed)];
      assert calls[0].ok == !failed;
      if loaded.Err? {
        return None, true, calls;
      }
      var records := UpsertGo(loaded.value, candidate);
      var ok;
      ghost var saving;
      ok, removed, saving := Save(Some(records));
      assert ok ==> View() == Ok(records);
      NoneFailedIn(calls, saving);
      MoreCalls(old(files.calls), calls, saving);
      calls := calls + saving;
      return if ok then Some(records) else None, removed, calls;
    }
  }

  /** What a replacement by a payload that reads as a list makes of the registry. */
  lemma SavedView(v: Service, before: Disk, after: Disk, payload: string, list: seq<Record>, ok: bool, removed: bool)
    requires Valid(before) && Replaced(before, after, payload, ok, removed)
    requires ViewOf(v, Some(payload)) == Ok(list)
    ensures ok ==> ViewOf(v, Payload(after)) == Ok(list)
    ensures !ok ==> Payload(after) == Payload(before)
    ensures Durable(v, before) ==> Durable(v, after)
  {
    ContentsKept(before, after);
    if Durable(v, before) {
      StaysDurable(v, before, after, if ok then [after.entry] else []);
    }
  }

  /** A journal that only gains readable payloads stays readable. */
  lemma StaysDurable(v: Service, before: Disk, after: Disk, more: seq<Option<Inode>>)
    requires Valid(before) && Durable(v, before) && after.journal == before.journal + more
    requires forall i :: i in before.files ==> i in after.files && after.files[i] == before.files[i]
    requires forall k :: 0 <= k < |more| ==> ViewOf(v, ContentOf(after, more[k])).Ok?
    ensures Durable(v, after)
  {
    ContentsKept(before, after);
    forall k | 0 <= k < |after.journal| ensures ViewOf(v, ContentOf(after, after.journal[k])).Ok? {
      if k < |before.journal| {
        assert after.journal[k] == before.journal[k];
      } else {
        assert after.journal[k] == more[k - |before.journal|];
      }
    }
  }
}
