/** The store under concurrency: any number of threads, each inside one of the
    four operations, taking one system call or lock operation per step. */
module StoreMachine {
  import opened Basics
  import opened Registry
  import opened Wire
  import opened Storage
  import Json

  type Tid = nat

  datatype Op = Load | Raw | Save(records: seq<Record>) | Upsert(candidate: Record)

  datatype Answer = Records(records: seq<Record>) | Blob(text: string) | Saved | Failed

  /** How far a temporary file has come. */
  datatype Stage = Fresh | Written | Synced | Closed | Chmodded

  /** Where a thread is. */
  datatype Pc =
    | Idle
    | Waiting(op: Op)
    | Reading(op: Op)
    | Opened(op: Op, inode: Inode)
    | Sealing(op: Op, next: seq<Record>)
    | Creating(op: Op, next: seq<Record>, payload: string)
    | Staging(op: Op, next: seq<Record>, payload: string, temp: Inode, stage: Stage)
    | Cleaning(op: Op, temp: Inode)
    | Leaving(op: Op, answer: Answer)
    | Answering(op: Op, answer: Answer)

  /** What happens, in the one order in which it happens. `Effect` marks the
      moment an operation takes place, with the payload it leaves. */
  datatype Event =
    | Call(t: Tid, op: Op)
    | Effect(t: Tid, op: Op, answer: Answer, after: Option<string>)
    | Return(t: Tid, answer: Answer)

  datatype State = State(
    disk: Disk, writer: Option<Tid>, readers: set<Tid>, threads: map<Tid, Pc>, trace: seq<Event>)

  /** The environment's part in a step. */
  datatype Choice = Invoke(op: Op) | Proceed | Draw(nonce: seq<byte>) | Fail(partial: string)

  datatype Action = Thread(t: Tid, choice: Choice) | WriteBack

  function PcOf(s: State, t: Tid): Pc
  {
    if t in s.threads then s.threads[t] else Idle
  }

  function Goto(s: State, t: Tid, pc: Pc): State
  {
    s.(threads := s.threads[t := pc])
  }

  /** Take effect now: record the event and remember the answer. */
  function Settle(s: State, t: Tid, op: Op, answer: Answer, pc: Pc): State
  {
    Goto(s.(trace := s.trace + [Effect(t, op, answer, Payload(s.disk))]), t, pc)
  }

  predicate ReadsOnly(op: Op)
  {
    op.Load? || op.Raw?
  }

  // ---------------------------------------------------------------------
  // One step of one thread
  // ---------------------------------------------------------------------

  /** Readers exclude the writer; the writer excludes everybody. */
  function Acquire(s: State, t: Tid, op: Op): Option<State>
  {
    if ReadsOnly(op) then
      if s.writer.Some? then None
      else Some(Goto(s.(readers := s.readers + {t}), t, Reading(op)))
    else
      if s.writer.Some? || s.readers != {} then None
      else Some(Goto(s.(writer := Some(t)), t, if op.Save? then Sealing(op, op.records) else Reading(op)))
  }

  function Release(s: State, t: Tid, op: Op, answer: Answer): State
  {
    Goto(if ReadsOnly(op) then s.(readers := s.readers - {t}) else s.(writer := None),
         t, Answering(op, answer))
  }

  /** The file has been read, or the path does not exist. */
  function Decide(v: Service, s: State, t: Tid, op: Op, payload: Option<string>): State
  {
    var view := ViewOf(v, payload);
    match op
    case Raw =>
      var blob := Blob(match payload case None => "" case Some(text) => text);
      Settle(s, t, op, blob, Leaving(op, blob))
    case Load =>
      var answer := if view.Ok? then Records(view.value) else Failed;
      Settle(s, t, op, answer, Leaving(op, answer))
    case Upsert(candidate) =>
      if view.Ok? then Goto(s, t, Sealing(op, Registry.Upsert(view.value, candidate)))
      else Settle(s, t, op, Failed, Leaving(op, Failed))
    case Save(_) => s
  }

  /** The system call a temporary file is waiting for succeeds. */
  function Advance(s: State, t: Tid, pc: Pc): State
    requires pc.Staging? && pc.temp in s.disk.files
  {
    match pc.stage
    case Fresh => Goto(s.(disk := Write(s.disk, pc.temp, pc.payload)), t, pc.(stage := Written))
    case Written => Goto(s.(disk := Sync(s.disk, pc.temp)), t, pc.(stage := Synced))
    case Synced => Goto(s, t, pc.(stage := Closed))
    case Closed => Goto(s, t, pc.(stage := Chmodded))
    case Chmodded =>
      var answer := if pc.op.Save? then Saved else Records(pc.next);
      Settle(s.(disk := Rename(s.disk, pc.temp)), t, pc.op, answer, Leaving(pc.op, answer))
  }

  /** ... or fails; a failing write may have written anything. */
  function Abandon(s: State, t: Tid, pc: Pc, partial: string): State
    requires pc.Staging? && pc.temp in s.disk.files
  {
    var disk := if pc.stage.Fresh? then Write(s.disk, pc.temp, partial) else s.disk;
    Settle(s.(disk := disk), t, pc.op, Failed, Cleaning(pc.op, pc.temp))
  }

  /** The next step of a thread, or None when the choice does not apply. */
  function Step(v: Service, s: State, t: Tid, c: Choice): Option<State>
  {
    var pc := PcOf(s, t);
    match pc
    case Idle =>
      if c.Invoke? then Some(Goto(s.(trace := s.trace + [Call(t, c.op)]), t, Waiting(c.op))) else None
    case Waiting(op) =>
      if c.Proceed? then Acquire(s, t, op) else None
    case Reading(op) =>
      if c.Fail? then Some(Settle(s, t, op, Failed, Leaving(op, Failed)))
      else if !c.Proceed? then None
      else if s.disk.entry.None? then Some(Decide(v, s, t, op, None))
      else Some(Goto(s, t, Opened(op, s.disk.entry.value)))
    case Opened(op, inode) =>
      if c.Fail? then Some(Settle(s, t, op, Failed, Leaving(op, Failed)))
      else if !c.Proceed? then None
      else Some(Decide(v, s, t, op, ContentOf(s.disk, Some(inode))))
    case Sealing(op, next) =>
      if c.Fail? then Some(Settle(s, t, op, Failed, Leaving(op, Failed)))
      else if !c.Draw? || |c.nonce| != NONCE_BYTES then None
      else
        (match Seal(Json.Go, v.aead, v.key, c.nonce, next)
         case Err(_) => Some(Settle(s, t, op, Failed, Leaving(op, Failed)))
         case Ok(payload) => Some(Goto(s, t, Creating(op, next, payload))))
    case Creating(op, next, payload) =>
      if c.Fail? then Some(Settle(s, t, op, Failed, Leaving(op, Failed)))
      else if !c.Proceed? then None
      else Some(Goto(s.(disk := CreateTemp(s.disk)), t, Staging(op, next, payload, s.disk.next, Fresh)))
    case Staging(op, next, payload, temp, stage) =>
      if temp !in s.disk.files then None
      else if c.Fail? then Some(Abandon(s, t, pc, c.partial))
      else if c.Proceed? then Some(Advance(s, t, pc))
      else None
    case Cleaning(op, temp) =>
      if c.Fail? then Some(Goto(s, t, Leaving(op, Failed)))
      else if c.Proceed? then Some(Goto(s.(disk := Remove(s.disk, temp)), t, Leaving(op, Failed)))
      else None
    case Leaving(op, answer) =>
      if c.Proceed? then Some(Release(s, t, op, answer)) else None
    case Answering(op, answer) =>
      if c.Proceed? then Some(Goto(s.(trace := s.trace + [Return(t, answer)]), t, Idle)) else None
  }

  function Act(v: Service, s: State, a: Action): Option<State>
  {
    match a
    case Thread(t, c) => Step(v, s, t, c)
    case WriteBack => Some(s.(disk := Flush(s.disk)))
  }

  /** The state after a run, or None if some action of it does not apply. */
  function Run(v: Service, s: State, actions: seq<Action>): Option<State>
  {
    if actions == [] then Some(s)
    else
      var last := |actions| - 1;
      match Run(v, s, actions[..last])
      case None => None
      case Some(before) => Act(v, before, actions[last])
  }

  function Start(disk: Disk): State
  {
    State(disk, None, {}, map[], [])
  }

  // ---------------------------------------------------------------------
  // The atomic store, and what linearizable means
  // ---------------------------------------------------------------------

  /** One operation of the atomic store: may it answer this, going from one
      payload to another? Failing changes nothing. */
  predicate Atomic(v: Service, op: Op, before: Option<string>, answer: Answer, after: Option<string>)
  {
    match answer
    case Failed => after == before
    case Saved => op.Save? && ViewOf(v, after) == Ok(op.records)
    case Blob(text) => op.Raw? && after == before && text == (match before case None => "" case Some(b) => b)
    case Records(records) =>
      match op
      case Load => after == before && ViewOf(v, before) == Ok(records)
      case Upsert(candidate) =>
        && ViewOf(v, before).Ok?
        && records == Registry.Upsert(ViewOf(v, before).value, candidate)
        && ViewOf(v, after) == Ok(records)
      case _ => false
  }

  /** Play the effects of a trace on the atomic store, in order. */
  function Replay(v: Service, first: Option<string>, trace: seq<Event>): Option<Option<string>>
  {
    if trace == [] then Some(first)
    else
      var last := |trace| - 1;
      var before := Replay(v, first, trace[..last]);
      match trace[last]
      case Effect(_, op, answer, after) =>
        if before.Some? && Atomic(v, op, before.value, answer, after) then Some(after) else None
      case _ => before
  }

  /** What a thread has done since it last returned. */
  datatype Phase = Quiet | Pending(op: Op) | Effected(op: Op, answer: Answer) | Broken

  function PhaseOf(trace: seq<Event>, t: Tid): Phase
  {
    if trace == [] then Quiet
    else
      var last := |trace| - 1;
      var before := PhaseOf(trace[..last], t);
      if trace[last].t != t then before
      else
        match trace[last]
        case Call(_, op) => if before.Quiet? then Pending(op) else Broken
        case Effect(_, op, answer, _) => if before == Pending(op) then Effected(op, answer) else Broken
        case Return(_, answer) => if before.Effected? && before.answer == answer then Quiet else Broken
  }

  /** Every operation takes effect once, between its call and its return, and
      returns what it was given there; the effects, in order, are a run of the
      atomic store. */
  ghost predicate Linearizable(v: Service, first: Option<string>, trace: seq<Event>)
  {
    && (forall t: Tid :: !PhaseOf(trace, t).Broken?)
    && Replay(v, first, trace).Some?
  }

  // ---------------------------------------------------------------------
  // The invariant
  // ---------------------------------------------------------------------

  /** What the trace must say about a thread at this point. */
  function Expected(pc: Pc): Phase
  {
    match pc
    case Idle => Quiet
    case Cleaning(op, _) => Effected(op, Failed)
    case Leaving(op, answer) => Effected(op, answer)
    case Answering(op, answer) => Effected(op, answer)
    case _ => Pending(pc.op)
  }

  predicate InLock(pc: Pc)
  {
    !pc.Idle? && !pc.Waiting? && !pc.Answering?
  }

  /** The records a save or an upsert is about to store. */
  ghost predicate Intended(v: Service, d: Disk, op: Op, next: seq<Record>)
  {
    match op
    case Save(records) => next == records
    case Upsert(candidate) =>
      ViewOf(v, Payload(d)).Ok? && next == Registry.Upsert(ViewOf(v, Payload(d)).value, candidate)
    case _ => false
  }

  ghost predicate Sealed(v: Service, payload: string, next: seq<Record>)
  {
    ViewOf(v, Some(payload)) == Ok(next)
  }

  /** What a thread may rely on while it is where it is. */
  ghost predicate Grounded(v: Service, d: Disk, pc: Pc)
  {
    match pc
    case Reading(op) => !op.Save?
    case Opened(op, inode) => !op.Save? && d.entry == Some(inode)
    case Sealing(op, next) => Intended(v, d, op, next)
    case Creating(op, next, payload) => Intended(v, d, op, next) && Sealed(v, payload, next)
    case Staging(op, next, payload, temp, stage) =>
      && Intended(v, d, op, next) && Sealed(v, payload, next)
      && temp in d.temps && temp in d.files
      && (if stage.Fresh? then d.files[temp].content == "" else d.files[temp].content == payload)
      && (stage.Fresh? || stage.Written? || d.files[temp].synced)
    case Cleaning(op, _) => !ReadsOnly(op)
    case _ => true
  }

  ghost predicate Locks(s: State)
  {
    && (forall t: Tid :: t in s.readers <==> InLock(PcOf(s, t)) && ReadsOnly(PcOf(s, t).op))
    && (forall t: Tid :: s.writer == Some(t) <==> InLock(PcOf(s, t)) && !ReadsOnly(PcOf(s, t).op))
    && (s.writer.Some? ==> s.readers == {})
  }

  ghost predicate Inv(v: Service, first: Option<string>, s: State)
  {
    && Valid(s.disk)
    && Locks(s)
    && (forall t: Tid :: Grounded(v, s.disk, PcOf(s, t)))
    && (forall t: Tid :: PhaseOf(s.trace, t) == Expected(PcOf(s, t)))
    && Replay(v, first, s.trace) == Some(Payload(s.disk))
  }

  // ---------------------------------------------------------------------
  // Every step keeps it
  // ---------------------------------------------------------------------

  lemma TraceSnoc(v: Service, first: Option<string>, trace: seq<Event>, e: Event)
    ensures forall u: Tid :: u != e.t ==> PhaseOf(trace + [e], u) == PhaseOf(trace, u)
    ensures PhaseOf(trace + [e], e.t) ==
            var before := PhaseOf(trace, e.t);
            match e
            case Call(_, op) => if before.Quiet? then Pending(op) else Broken
            case Effect(_, op, answer, _) => if before == Pending(op) then Effected(op, answer) else Broken
            case Return(_, answer) => if before.Effected? && before.answer == answer then Quiet else Broken
    ensures Replay(v, first, trace + [e]) ==
            var before := Replay(v, first, trace);
            match e
            case Effect(_, op, answer, after) =>
              if before.Some? && Atomic(v, op, before.value, answer, after) then Some(after) else None
            case _ => before
  {
    assert (trace + [e])[..|trace|] == trace;
  }

  /** A thread moves and leaves locks, disk and trace alone. */
  lemma Move(v: Service, first: Option<string>, s: State, t: Tid, pc: Pc)
    requires Inv(v, first, s)
    requires Expected(pc) == Expected(PcOf(s, t))
    requires InLock(pc) == InLock(PcOf(s, t)) && (InLock(pc) ==> pc.op == PcOf(s, t).op)
    requires Grounded(v, s.disk, pc)
    ensures Inv(v, first, Goto(s, t, pc))
  {
    var s' := Goto(s, t, pc);
    assert forall u: Tid :: PcOf(s', u) == if u == t then pc else PcOf(s, u);
  }

  /** Whoever holds the write lock is the only one inside. */
  lemma WriterIsAlone(s: State, t: Tid, u: Tid)
    requires Locks(s) && InLock(PcOf(s, t)) && !ReadsOnly(PcOf(s, t).op) && u != t
    ensures !InLock(PcOf(s, u))
  {
    assert s.writer == Some(t);
    assert u !in s.readers;
  }

  /** The writer moves and changes the disk, but not what the path holds. */
  lemma MoveOnDisk(v: Service, first: Option<string>, s: State, t: Tid, disk: Disk, pc: Pc)
    requires Inv(v, first, s) && Valid(disk) && Payload(disk) == Payload(s.disk)
    requires InLock(PcOf(s, t)) && !ReadsOnly(PcOf(s, t).op)
    requires InLock(pc) && pc.op == PcOf(s, t).op && Expected(pc) == Expected(PcOf(s, t))
    requires Grounded(v, disk, pc)
    ensures Inv(v, first, Goto(s.(disk := disk), t, pc))
  {
    var s' := Goto(s.(disk := disk), t, pc);
    assert forall u: Tid :: PcOf(s', u) == if u == t then pc else PcOf(s, u);
    forall u: Tid ensures Grounded(v, disk, PcOf(s', u)) {
      if u != t {
        WriterIsAlone(s, t, u);
      }
    }
  }

  lemma OthersStayGrounded(v: Service, first: Option<string>, s: State, t: Tid, disk: Disk)
    requires Inv(v, first, s) && InLock(PcOf(s, t))
    requires disk != s.disk ==> !ReadsOnly(PcOf(s, t).op)
    ensures forall u: Tid :: u != t ==> Grounded(v, disk, PcOf(s, u))
  {
    forall u: Tid | u != t ensures Grounded(v, disk, PcOf(s, u)) {
      if disk != s.disk {
        WriterIsAlone(s, t, u);
      }
    }
  }

  /** A thread inside the lock takes effect; only a writer may leave another
      payload than it found. */
  lemma MoveWithEffect(v: Service, first: Option<string>, s: State, t: Tid, disk: Disk, answer: Answer, pc: Pc)
    requires Inv(v, first, s) && Valid(disk)
    requires var now := PcOf(s, t);
      && InLock(now) && InLock(pc) && pc.op == now.op
      && Expected(now) == Pending(now.op) && Expected(pc) == Effected(now.op, answer)
      && Atomic(v, now.op, Payload(s.disk), answer, Payload(disk))
      && (disk != s.disk ==> !ReadsOnly(now.op))
    requires Grounded(v, disk, pc)
    ensures Inv(v, first, Settle(s.(disk := disk), t, pc.op, answer, pc))
  {
    var s' := Settle(s.(disk := disk), t, pc.op, answer, pc);
    TraceSnoc(v, first, s.trace, Effect(t, pc.op, answer, Payload(disk)));
    assert forall u: Tid :: PcOf(s', u) == if u == t then pc else PcOf(s, u);
    OthersStayGrounded(v, first, s, t, disk);
  }

  /** Calling and returning happen outside the lock. */
  lemma MoveOutside(v: Service, first: Option<string>, s: State, t: Tid, e: Event, pc: Pc)
    requires Inv(v, first, s) && e.t == t && !e.Effect?
    requires !InLock(pc) && !InLock(PcOf(s, t))
    requires PhaseOf(s.trace + [e], t) == Expected(pc)
    ensures Inv(v, first, Goto(s.(trace := s.trace + [e]), t, pc))
  {
    var s' := Goto(s.(trace := s.trace + [e]), t, pc);
    TraceSnoc(v, first, s.trace, e);
    assert forall u: Tid :: PcOf(s', u) == if u == t then pc else PcOf(s, u);
  }

  lemma AcquireKeepsInv(v: Service, first: Option<string>, s: State, t: Tid, op: Op)
    requires Inv(v, first, s) && PcOf(s, t) == Waiting(op) && Acquire(s, t, op).Some?
    ensures Inv(v, first, Acquire(s, t, op).value)
  {
    var s' := Acquire(s, t, op).value;
    assert forall u: Tid :: u != t ==> PcOf(s', u) == PcOf(s, u);
    forall u: Tid
      ensures u in s'.readers <==> InLock(PcOf(s', u)) && ReadsOnly(PcOf(s', u).op)
      ensures s'.writer == Some(u) <==> InLock(PcOf(s', u)) && !ReadsOnly(PcOf(s', u).op)
    {
    }
  }

  lemma ReleaseKeepsInv(v: Service, first: Option<string>, s: State, t: Tid, op: Op, answer: Answer)
    requires Inv(v, first, s) && PcOf(s, t) == Leaving(op, answer)
    ensures Inv(v, first, Release(s, t, op, answer))
  {
    var s' := Release(s, t, op, answer);
    assert forall u: Tid :: u != t ==> PcOf(s', u) == PcOf(s, u);
    forall u: Tid
      ensures u in s'.readers <==> InLock(PcOf(s', u)) && ReadsOnly(PcOf(s', u).op)
      ensures s'.writer == Some(u) <==> InLock(PcOf(s', u)) && !ReadsOnly(PcOf(s', u).op)
    {
      if u != t && !ReadsOnly(op) {
        WriterIsAlone(s, t, u);
      }
    }
  }

  lemma DecideKeepsInv(v: Service, first: Option<string>, s: State, t: Tid, op: Op)
    requires Inv(v, first, s) && !op.Save?
    requires PcOf(s, t) == Reading(op) || (PcOf(s, t).Opened? && PcOf(s, t).op == op)
    ensures Inv(v, first, Decide(v, s, t, op, Payload(s.disk)))
  {
    var view := ViewOf(v, Payload(s.disk));
    match op
    case Raw =>
      var blob := Blob(match Payload(s.disk) case None => "" case Some(text) => text);
      MoveWithEffect(v, first, s, t, s.disk, blob, Leaving(op, blob));
    case Load =>
      var answer := if view.Ok? then Records(view.value) else Failed;
      MoveWithEffect(v, first, s, t, s.disk, answer, Leaving(op, answer));
    case Upsert(candidate) =>
      if view.Ok? {
        Move(v, first, s, t, Sealing(op, Registry.Upsert(view.value, candidate)));
      } else {
        MoveWithEffect(v, first, s, t, s.disk, Failed, Leaving(op, Failed));
      }
  }

  lemma TempIsUnpublished(d: Disk, temp: Inode)
    requires Valid(d) && temp in d.temps
    ensures forall k :: 0 <= k < |d.journal| ==> d.journal[k] != Some(temp)
    ensures d.entry != Some(temp)
  {
    forall k | 0 <= k < |d.journal| ensures d.journal[k] != Some(temp) {
      assert d.journal[k].Some? ==> Published(d, d.journal[k].value);
    }
  }

  /** Journalled inodes keep their contents from one disk to the next. */
  ghost predicate JournalKept(d: Disk, d': Disk)
  {
    && |d.journal| <= |d'.journal|
    && forall k :: 0 <= k < |d.journal| ==>
         d'.journal[k] == d.journal[k] && ContentOf(d', d.journal[k]) == ContentOf(d, d.journal[k])
  }

  /** Work on a temporary file does not show at the path. */
  lemma TempWorkIsHidden(d: Disk, temp: Inode, file: File)
    requires Valid(d) && temp in d.temps
    ensures var d' := d.(files := d.files[temp := file]); Valid(d') && Payload(d') == Payload(d) && JournalKept(d, d')
  {
    var d' := d.(files := d.files[temp := file]);
    TempIsUnpublished(d, temp);
    forall k | 0 <= k < |d.journal| ensures ContentOf(d', d.journal[k]) == ContentOf(d, d.journal[k]) {
    }
    forall k | 0 <= k < |d.journal| && d.journal[k].Some? ensures Published(d', d.journal[k].value) {
      assert Published(d, d.journal[k].value);
    }
  }

  lemma RenameKeepsInv(v: Service, first: Option<string>, s: State, t: Tid)
    requires Inv(v, first, s) && PcOf(s, t).Staging? && PcOf(s, t).stage.Chmodded?
    ensures PcOf(s, t).temp in s.disk.files
    ensures Inv(v, first, Advance(s, t, PcOf(s, t)))
  {
    var pc := PcOf(s, t);
    assert Grounded(v, s.disk, pc);
    var disk := Rename(s.disk, pc.temp);
    assert Payload(disk) == Some(pc.payload);
    assert Valid(disk) by { TempIsUnpublished(s.disk, pc.temp); }
    var answer := if pc.op.Save? then Saved else Records(pc.next);
    assert Atomic(v, pc.op, Payload(s.disk), answer, Payload(disk));
    MoveWithEffect(v, first, s, t, disk, answer, Leaving(pc.op, answer));
  }

  lemma FillKeepsInv(v: Service, first: Option<string>, s: State, t: Tid)
    requires Inv(v, first, s) && PcOf(s, t).Staging? && PcOf(s, t).stage.Fresh?
    ensures PcOf(s, t).temp in s.disk.files
    ensures Inv(v, first, Advance(s, t, PcOf(s, t)))
  {
    var pc := PcOf(s, t);
    assert Grounded(v, s.disk, pc);
    assert "" + pc.payload == pc.payload;
    TempWorkIsHidden(s.disk, pc.temp, File(pc.payload, false));
    MoveOnDisk(v, first, s, t, Write(s.disk, pc.temp, pc.payload), pc.(stage := Written));
  }

  lemma SyncKeepsInv(v: Service, first: Option<string>, s: State, t: Tid)
    requires Inv(v, first, s) && PcOf(s, t).Staging? && PcOf(s, t).stage.Written?
    ensures PcOf(s, t).temp in s.disk.files
    ensures Inv(v, first, Advance(s, t, PcOf(s, t)))
  {
    var pc := PcOf(s, t);
    assert Grounded(v, s.disk, pc);
    TempWorkIsHidden(s.disk, pc.temp, s.disk.files[pc.temp].(synced := true));
    MoveOnDisk(v, first, s, t, Sync(s.disk, pc.temp), pc.(stage := Synced));
  }

  lemma CloseKeepsInv(v: Service, first: Option<string>, s: State, t: Tid)
    requires Inv(v, first, s) && PcOf(s, t).Staging?
    requires PcOf(s, t).stage.Synced? || PcOf(s, t).stage.Closed?
    ensures PcOf(s, t).temp in s.disk.files
    ensures Inv(v, first, Advance(s, t, PcOf(s, t)))
  {
    var pc := PcOf(s, t);
    assert Grounded(v, s.disk, pc);
    Move(v, first, s, t, pc.(stage := if pc.stage.Synced? then Closed else Chmodded));
  }

  lemma AdvanceKeepsInv(v: Service, first: Option<string>, s: State, t: Tid)
    requires Inv(v, first, s) && PcOf(s, t).Staging?
    ensures PcOf(s, t).temp in s.disk.files
    ensures Inv(v, first, Advance(s, t, PcOf(s, t)))
  {
    match PcOf(s, t).stage
    case Fresh => FillKeepsInv(v, first, s, t);
    case Written => SyncKeepsInv(v, first, s, t);
    case Synced => CloseKeepsInv(v, first, s, t);
    case Closed => CloseKeepsInv(v, first, s, t);
    case Chmodded => RenameKeepsInv(v, first, s, t);
  }

  lemma AbandonKeepsInv(v: Service, first: Option<string>, s: State, t: Tid, partial: string)
    requires Inv(v, first, s) && PcOf(s, t).Staging?
    ensures PcOf(s, t).temp in s.disk.files
    ensures Inv(v, first, Abandon(s, t, PcOf(s, t), partial))
  {
    var pc := PcOf(s, t);
    assert Grounded(v, s.disk, pc);
    var disk := if pc.stage.Fresh? then Write(s.disk, pc.temp, partial) else s.disk;
    TempWorkIsHidden(s.disk, pc.temp, File(s.disk.files[pc.temp].content + partial, false));
    MoveWithEffect(v, first, s, t, disk, Failed, Cleaning(pc.op, pc.temp));
  }

  lemma SealingKeepsInv(v: Service, first: Option<string>, s: State, t: Tid, nonce: seq<byte>)
    requires Inv(v, first, s) && Lawful(v.aead) && PcOf(s, t).Sealing? && |nonce| == NONCE_BYTES
    requires Seal(Json.Go, v.aead, v.key, nonce, PcOf(s, t).next).Ok?
    ensures var pc := PcOf(s, t);
      Inv(v, first, Goto(s, t, Creating(pc.op, pc.next, Seal(Json.Go, v.aead, v.key, nonce, pc.next).value)))
  {
    var pc := PcOf(s, t);
    SealedOpens(Json.Go, Json.Go, v.aead, v.key, nonce, pc.next);
    Move(v, first, s, t, Creating(pc.op, pc.next, Seal(Json.Go, v.aead, v.key, nonce, pc.next).value));
  }

  lemma FailKeepsInv(v: Service, first: Option<string>, s: State, t: Tid)
    requires Inv(v, first, s)
    requires var pc := PcOf(s, t); pc.Reading? || pc.Opened? || pc.Sealing? || pc.Creating?
    ensures Inv(v, first, Settle(s, t, PcOf(s, t).op, Failed, Leaving(PcOf(s, t).op, Failed)))
  {
    MoveWithEffect(v, first, s, t, s.disk, Failed, Leaving(PcOf(s, t).op, Failed));
  }

  lemma ReadStepKeepsInv(v: Service, first: Option<string>, s: State, t: Tid, c: Choice)
    requires Inv(v, first, s) && Step(v, s, t, c).Some?
    requires PcOf(s, t).Reading? || PcOf(s, t).Opened?
    ensures Inv(v, first, Step(v, s, t, c).value)
  {
    var pc := PcOf(s, t);
    assert Grounded(v, s.disk, pc);
    if c.Fail? {
      FailKeepsInv(v, first, s, t);
    } else if pc.Opened? || s.disk.entry.None? {
      DecideKeepsInv(v, first, s, t, pc.op);
    } else {
      Move(v, first, s, t, Opened(pc.op, s.disk.entry.value));
    }
  }

  lemma CreateKeepsInv(v: Service, first: Option<string>, s: State, t: Tid)
    requires Inv(v, first, s) && PcOf(s, t).Creating?
    ensures var pc := PcOf(s, t);
      Inv(v, first, Goto(s.(disk := CreateTemp(s.disk)), t, Staging(pc.op, pc.next, pc.payload, s.disk.next, Fresh)))
  {
    var pc := PcOf(s, t);
    assert Grounded(v, s.disk, pc);
    forall k | 0 <= k < |s.disk.journal| && s.disk.journal[k].Some?
      ensures Published(CreateTemp(s.disk), s.disk.journal[k].value)
    {
      assert Published(s.disk, s.disk.journal[k].value);
    }
    MoveOnDisk(v, first, s, t, CreateTemp(s.disk), Staging(pc.op, pc.next, pc.payload, s.disk.next, Fresh));
  }

  lemma CleanKeepsInv(v: Service, first: Option<string>, s: State, t: Tid, c: Choice)
    requires Inv(v, first, s) && PcOf(s, t).Cleaning? && Step(v, s, t, c).Some?
    ensures Inv(v, first, Step(v, s, t, c).value)
  {
    var pc := PcOf(s, t);
    assert Grounded(v, s.disk, pc);
    if c.Fail? {
      Move(v, first, s, t, Leaving(pc.op, Failed));
    } else {
      MoveOnDisk(v, first, s, t, Remove(s.disk, pc.temp), Leaving(pc.op, Failed));
    }
  }

  lemma StepKeepsInv(v: Service, first: Option<string>, s: State, t: Tid, c: Choice)
    requires Inv(v, first, s) && Lawful(v.aead) && Step(v, s, t, c).Some?
    ensures Inv(v, first, Step(v, s, t, c).value)
  {
    var pc := PcOf(s, t);
    assert Grounded(v, s.disk, pc) && PhaseOf(s.trace, t) == Expected(pc);
    match pc
    case Idle =>
      TraceSnoc(v, first, s.trace, Call(t, c.op));
      MoveOutside(v, first, s, t, Call(t, c.op), Waiting(c.op));
    case Waiting(op) =>
      AcquireKeepsInv(v, first, s, t, op);
    case Reading(_) =>
      ReadStepKeepsInv(v, first, s, t, c);
    case Opened(_, _) =>
      ReadStepKeepsInv(v, first, s, t, c);
    case Sealing(_, next) =>
      if c.Draw? && Seal(Json.Go, v.aead, v.key, c.nonce, next).Ok? {
        SealingKeepsInv(v, first, s, t, c.nonce);
      } else {
        FailKeepsInv(v, first, s, t);
      }
    case Creating(_, _, _) =>
      if c.Fail? {
        FailKeepsInv(v, first, s, t);
      } else {
        CreateKeepsInv(v, first, s, t);
      }
    case Staging(_, _, _, _, _) =>
      if c.Fail? {
        AbandonKeepsInv(v, first, s, t, c.partial);
      } else {
        AdvanceKeepsInv(v, first, s, t);
      }
    case Cleaning(_, _) =>
      CleanKeepsInv(v, first, s, t, c);
    case Leaving(op, answer) =>
      ReleaseKeepsInv(v, first, s, t, op, answer);
    case Answering(_, answer) =>
      TraceSnoc(v, first, s.trace, Return(t, answer));
      MoveOutside(v, first, s, t, Return(t, answer), Idle);
  }

  lemma ActKeepsInv(v: Service, first: Option<string>, s: State, a: Action)
    requires Inv(v, first, s) && Lawful(v.aead) && Act(v, s, a).Some?
    ensures Inv(v, first, Act(v, s, a).value)
  {
    match a
    case Thread(t, c) => StepKeepsInv(v, first, s, t, c);
    case WriteBack =>
      var s' := s.(disk := Flush(s.disk));
      assert forall u: Tid :: PcOf(s', u) == PcOf(s, u);
      assert s.disk.entry.Some? ==> Published(s.disk, s.disk.entry.value) by {
        assert s.disk.journal[|s.disk.journal| - 1] == s.disk.entry;
      }
  }

  lemma {:induction false} RunKeepsInv(v: Service, disk: Disk, actions: seq<Action>)
    requires Valid(disk) && Lawful(v.aead) && Run(v, Start(disk), actions).Some?
    ensures Inv(v, Payload(disk), Run(v, Start(disk), actions).value)
  {
    if actions == [] {
    } else {
      var last := |actions| - 1;
      RunKeepsInv(v, disk, actions[..last]);
      ActKeepsInv(v, Payload(disk), Run(v, Start(disk), actions[..last]).value, actions[last]);
    }
  }

  // ---------------------------------------------------------------------
  // The theorems
  // ---------------------------------------------------------------------

  /** Every run of every number of threads is linearizable, and ends with the
      datastore holding what the atomic store holds. */
  lemma StoreIsLinearizable(v: Service, disk: Disk, actions: seq<Action>)
    requires Valid(disk) && Lawful(v.aead) && Run(v, Start(disk), actions).Some?
    ensures var s := Run(v, Start(disk), actions).value;
      && Linearizable(v, Payload(disk), s.trace)
      && Replay(v, Payload(disk), s.trace) == Some(Payload(s.disk))
  {
    RunKeepsInv(v, disk, actions);
    var s := Run(v, Start(disk), actions).value;
    forall t: Tid ensures !PhaseOf(s.trace, t).Broken? {
      assert PhaseOf(s.trace, t) == Expected(PcOf(s, t));
    }
  }

  // ---------------------------------------------------------------------
  // Failing, entering and going on
  // ---------------------------------------------------------------------

  /** The step makes the call fail. */
  ghost predicate FailsNow(s: State, s': State, t: Tid)
  {
    |s'.trace| == |s.trace| + 1 && s'.trace[|s.trace|].Effect? && s'.trace[|s.trace|].answer == Failed
  }

  /** The call is at work, and has not taken effect yet. */
  predicate AtWork(pc: Pc)
  {
    pc.Reading? || pc.Opened? || pc.Sealing? || pc.Creating? || pc.Staging?
  }

  /** The file has been read, or found absent. */
  predicate HasRead(s: State, t: Tid)
  {
    PcOf(s, t).Opened? || (PcOf(s, t).Reading? && s.disk.entry.None?)
  }

  /** A step makes its call fail exactly when a system call in it fails, what it
      has read cannot be opened, or the key has the wrong length. */
  lemma FailsExactly(v: Service, first: Option<string>, s: State, t: Tid, c: Choice)
    requires Inv(v, first, s) && Step(v, s, t, c).Some?
    ensures var pc := PcOf(s, t);
      FailsNow(s, Step(v, s, t, c).value, t) <==>
      || (c.Fail? && AtWork(pc))
      || (!c.Fail? && HasRead(s, t) && !pc.op.Raw? && ViewOf(v, Payload(s.disk)).Err?)
      || (!c.Fail? && pc.Sealing? && |v.key| != KEY_BYTES)
  {
    assert Grounded(v, s.disk, PcOf(s, t));
  }

  lemma StepAddsOne(v: Service, s: State, t: Tid, c: Choice)
    requires Step(v, s, t, c).Some?
    ensures var s' := Step(v, s, t, c).value;
      s'.trace == s.trace || (|s'.trace| == |s.trace| + 1 && s'.trace == s.trace + [s'.trace[|s.trace|]])
  {
  }

  /** A reader may enter exactly when no writer is inside, and a writer when
      nobody is. */
  lemma EntersExactly(v: Service, first: Option<string>, s: State, t: Tid)
    requires Inv(v, first, s) && PcOf(s, t).Waiting?
    ensures Step(v, s, t, Proceed).Some? <==>
            forall u: Tid :: InLock(PcOf(s, u)) ==> ReadsOnly(PcOf(s, t).op) && ReadsOnly(PcOf(s, u).op)
  {
    var op := PcOf(s, t).op;
    if s.writer.Some? {
      assert InLock(PcOf(s, s.writer.value)) && !ReadsOnly(PcOf(s, s.writer.value).op);
    }
    if !ReadsOnly(op) && s.readers != {} {
      var u :| u in s.readers;
      assert InLock(PcOf(s, u));
    }
    forall u: Tid | s.writer == None && InLock(PcOf(s, u)) ensures u in s.readers && ReadsOnly(PcOf(s, u).op) {
      assert s.writer != Some(u);
    }
  }

  /** How many steps a call has before it at most. */
  function StepsLeft(pc: Pc): nat
  {
    match pc
    case Idle => 0
    case Answering(_, _) => 1
    case Leaving(_, _) => 2
    case Cleaning(_, _) => 3
    case Staging(_, _, _, _, stage) =>
      (match stage case Chmodded => 4 case Closed => 5 case Synced => 6 case Written => 7 case Fresh => 8)
    case Creating(_, _, _) => 9
    case Sealing(_, _) => 10
    case Opened(_, _) => 11
    case Reading(_) => 12
    case Waiting(_) => 13
  }

  lemma DecidedStepsLeft(v: Service, s: State, t: Tid, op: Op, payload: Option<string>)
    requires !op.Save?
    ensures StepsLeft(PcOf(Decide(v, s, t, op, payload), t)) <= 10
  {
  }

  lemma ReadingRunsOut(v: Service, s: State, t: Tid, c: Choice)
    requires (PcOf(s, t).Reading? || PcOf(s, t).Opened?) && !PcOf(s, t).op.Save? && Step(v, s, t, c).Some?
    ensures StepsLeft(PcOf(Step(v, s, t, c).value, t)) < StepsLeft(PcOf(s, t))
  {
    var pc := PcOf(s, t);
    DecidedStepsLeft(v, s, t, pc.op, if pc.Opened? then ContentOf(s.disk, Some(pc.inode)) else None);
  }

  lemma StagingRunsOut(v: Service, s: State, t: Tid, c: Choice)
    requires PcOf(s, t).Staging? && Step(v, s, t, c).Some?
    ensures StepsLeft(PcOf(Step(v, s, t, c).value, t)) < StepsLeft(PcOf(s, t))
  {
  }

  lemma StepsRunOut(v: Service, s: State, t: Tid, c: Choice)
    requires Grounded(v, s.disk, PcOf(s, t)) && !PcOf(s, t).Idle? && Step(v, s, t, c).Some?
    ensures StepsLeft(PcOf(Step(v, s, t, c).value, t)) < StepsLeft(PcOf(s, t))
  {
    var pc := PcOf(s, t);
    if pc.Reading? || pc.Opened? {
      ReadingRunsOut(v, s, t, c);
    } else if pc.Staging? {
      StagingRunsOut(v, s, t, c);
    }
  }

  /** A call that is past the lock can go on without anything failing. */
  lemma PastTheLock(v: Service, first: Option<string>, s: State, t: Tid) returns (c: Choice)
    requires Inv(v, first, s) && !PcOf(s, t).Idle? && !PcOf(s, t).Waiting?
    ensures (c == Proceed || c.Draw?) && Step(v, s, t, c).Some?
  {
    assert Grounded(v, s.disk, PcOf(s, t));
    c := if PcOf(s, t).Sealing? then Draw(seq(NONCE_BYTES, _ => 0)) else Proceed;
  }

  /** There is no deadlock: while a call is under way, it or one that it waits for
      can take a step that is not a failure, and comes closer to its return. */
  lemma SomeCallGoesOn(v: Service, first: Option<string>, s: State, t: Tid) returns (u: Tid, c: Choice)
    requires Inv(v, first, s) && !PcOf(s, t).Idle?
    ensures !PcOf(s, u).Idle? && (c == Proceed || c.Draw?) && Step(v, s, u, c).Some?
    ensures u == t || (PcOf(s, t).Waiting? && InLock(PcOf(s, u)))
    ensures StepsLeft(PcOf(Step(v, s, u, c).value, u)) < StepsLeft(PcOf(s, u))
  {
    u, c := t, Proceed;
    if !PcOf(s, t).Waiting? {
      c := PastTheLock(v, first, s, t);
    } else {
      EntersExactly(v, first, s, t);
      if Step(v, s, t, Proceed).None? {
        u :| InLock(PcOf(s, u));
        c := PastTheLock(v, first, s, u);
      }
    }
    StepsRunOut(v, s, u, c);
  }

  // ---------------------------------------------------------------------
  // A writer that nothing fails
  // ---------------------------------------------------------------------

  /** The thread takes `n` steps, none of which fails. */
  function Proceeds(v: Service, s: State, t: Tid, n: nat): Option<State>
    decreases n
  {
    if n == 0 then Some(s)
    else
      match Step(v, s, t, Proceed)
      case None => None
      case Some(next) => Proceeds(v, next, t, n - 1)
  }

  lemma StepsOn(v: Service, s: State, t: Tid, next: State, n: nat)
    requires Step(v, s, t, Proceed) == Some(next)
    ensures Proceeds(v, s, t, n + 1) == Proceeds(v, next, t, n)
  {
  }

  lemma FileStays(d: Disk, i: Inode, text: string)
    requires i in d.files
    ensures i in Write(d, i, text).files && i in Sync(Write(d, i, text), i).files
  {
  }

  /** A thread that writes, and meets no failure, replaces the datastore in six
      steps by exactly what the store's `Replace` makes of it, and goes on to
      report success. */
  lemma LoneWriterCommits(v: Service, s: State, t: Tid)
    requires PcOf(s, t).Creating?
    ensures var pc := PcOf(s, t);
      var end := Proceeds(v, s, t, 6);
      && end.Some? && end.value.disk == Committed(s.disk, pc.payload)
      && PcOf(end.value, t) == Leaving(pc.op, if pc.op.Save? then Saved else Records(pc.next))
  {
    var pc, i := PcOf(s, t), s.disk.next;
    var d1 := CreateTemp(s.disk);
    var d2 := Write(d1, i, pc.payload);
    var d3 := Sync(d2, i);
    FileStays(d1, i, pc.payload);
    var staged := Staging(pc.op, pc.next, pc.payload, i, Fresh);
    var s1 := Goto(s.(disk := d1), t, staged);
    var s2 := Goto(s1.(disk := d2), t, staged.(stage := Written));
    var s3 := Goto(s2.(disk := d3), t, staged.(stage := Synced));
    var s4 := Goto(s3, t, staged.(stage := Closed));
    var s5 := Goto(s4, t, staged.(stage := Chmodded));
    var s6 := Advance(s5, t, staged.(stage := Chmodded));
    StepsOn(v, s, t, s1, 5);
    StepsOn(v, s1, t, s2, 4);
    StepsOn(v, s2, t, s3, 3);
    StepsOn(v, s3, t, s4, 2);
    StepsOn(v, s4, t, s5, 1);
    StepsOn(v, s5, t, s6, 0);
  }

  /** Whether an event put a new payload in place. */
  predicate IsWrite(e: Event)
  {
    e.Effect? && (e.answer.Saved? || (e.answer.Records? && e.op.Upsert?))
  }

  /** The registry that the successful writes of a trace build on a list. */
  function Outcome(records: seq<Record>, trace: seq<Event>): seq<Record>
  {
    if trace == [] then records
    else
      var last := |trace| - 1;
      var before := Outcome(records, trace[..last]);
      if !IsWrite(trace[last]) then before
      else
        match trace[last].op
        case Save(saved) => saved
        case Upsert(candidate) => Registry.Upsert(before, candidate)
        case _ => before
  }

  /** No write is lost: on a readable datastore, the registry is at any time the
      result of exactly the saves and upserts that succeeded, in their order. */
  lemma {:induction false} ReplayIsOutcome(v: Service, first: Option<string>, trace: seq<Event>)
    requires ViewOf(v, first).Ok? && Replay(v, first, trace).Some?
    ensures ViewOf(v, Replay(v, first, trace).value) == Ok(Outcome(ViewOf(v, first).value, trace))
  {
    if trace == [] {
    } else {
      var last := |trace| - 1;
      ReplayIsOutcome(v, first, trace[..last]);
      if trace[last].Effect? {
        OutcomeStep(v, Replay(v, first, trace[..last]).value, trace[last],
                    Outcome(ViewOf(v, first).value, trace[..last]));
      }
    }
  }

  lemma OutcomeStep(v: Service, before: Option<string>, e: Event, list: seq<Record>)
    requires e.Effect? && Atomic(v, e.op, before, e.answer, e.after) && ViewOf(v, before) == Ok(list)
    ensures ViewOf(v, e.after) ==
            if !IsWrite(e) then Ok(list)
            else match e.op
              case Save(saved) => Ok(saved)
              case Upsert(candidate) => Ok(Registry.Upsert(list, candidate))
              case _ => Ok(list)
  {
  }

  lemma NoWriteIsLost(v: Service, disk: Disk, actions: seq<Action>)
    requires Valid(disk) && Lawful(v.aead) && Run(v, Start(disk), actions).Some?
    requires ViewOf(v, Payload(disk)).Ok?
    ensures var s := Run(v, Start(disk), actions).value;
      ViewOf(v, Payload(s.disk)) == Ok(Outcome(ViewOf(v, Payload(disk)).value, s.trace))
  {
    StoreIsLinearizable(v, disk, actions);
    ReplayIsOutcome(v, Payload(disk), Run(v, Start(disk), actions).value.trace);
  }

  /** On a datastore that can be opened, with a key of the right length, no call
      fails in a run in which no system call does. */
  lemma {:induction false} NothingFailsByItself(v: Service, disk: Disk, actions: seq<Action>)
    requires Valid(disk) && Lawful(v.aead) && Run(v, Start(disk), actions).Some?
    requires ViewOf(v, Payload(disk)).Ok? && |v.key| == KEY_BYTES
    requires forall i :: 0 <= i < |actions| && actions[i].Thread? ==> !actions[i].choice.Fail?
    ensures forall e :: e in Run(v, Start(disk), actions).value.trace && e.Effect? ==> e.answer != Failed
  {
    if actions == [] {
    } else {
      var last := |actions| - 1;
      var s := Run(v, Start(disk), actions[..last]).value;
      NothingFailsByItself(v, disk, actions[..last]);
      NoWriteIsLost(v, disk, actions[..last]);
      RunKeepsInv(v, disk, actions[..last]);
      match actions[last]
      case WriteBack =>
      case Thread(t, c) =>
        FailsExactly(v, Payload(disk), s, t, c);
        StepAddsOne(v, s, t, c);
    }
  }

  /** Candidates of the upserts that succeeded, in the order of their effects. */
  function Accepted(trace: seq<Event>): seq<Record>
  {
    if trace == [] then []
    else
      var last := |trace| - 1;
      Accepted(trace[..last]) + if IsWrite(trace[last]) && trace[last].op.Upsert? then [trace[last].op.candidate] else []
  }

  /** While nobody saves a whole list, the outcome is a run of upserts: each
      hostname once, in first-seen order, with the record accepted last. */
  lemma {:induction false} UpsertsAccumulate(trace: seq<Event>)
    requires forall i :: 0 <= i < |trace| && IsWrite(trace[i]) ==> trace[i].op.Upsert?
    ensures Outcome([], trace) == UpsertAll([], Accepted(trace))
  {
    if trace == [] {
    } else {
      var last := |trace| - 1;
      UpsertsAccumulate(trace[..last]);
      var before := Accepted(trace[..last]);
      if IsWrite(trace[last]) {
        UpsertOneMore(before, trace[last].op.candidate);
      } else {
        assert Accepted(trace) == before;
      }
    }
  }

  lemma UpsertOneMore(records: seq<Record>, candidate: Record)
    ensures UpsertAll([], records + [candidate]) == Registry.Upsert(UpsertAll([], records), candidate)
  {
    var all := records + [candidate];
    assert all[..|records|] == records && all[..|records| + 1] == all;
    UpsertAllStep([], all, |records|);
  }

  lemma OnlyUpserts(trace: seq<Event>)
    requires forall i :: 0 <= i < |trace| && IsWrite(trace[i]) ==> trace[i].op.Upsert?
    ensures Hostnames(Outcome([], trace)) == FirstSeen(Hostnames(Accepted(trace)))
    ensures forall i :: 0 <= i < |Outcome([], trace)| ==>
              var r := Outcome([], trace)[i];
              r.hostname in Hostnames(Accepted(trace)) && r == LastWritten(Accepted(trace), r.hostname)
  {
    UpsertsAccumulate(trace);
    UpsertsKeepLastWrite(Accepted(trace));
  }

  // ---------------------------------------------------------------------
  // Crashes
  // ---------------------------------------------------------------------

  function Writes(trace: seq<Event>): nat
  {
    if trace == [] then 0
    else Writes(trace[..|trace| - 1]) + if IsWrite(trace[|trace| - 1]) then 1 else 0
  }

  /** Writing back aside, a step either leaves the journal alone or commits one
      readable payload on top of it. */
  ghost predicate Commits(v: Service, s: State, s': State)
  {
    && JournalKept(s.disk, s'.disk)
    && if Writes(s'.trace) == Writes(s.trace)
       then |s'.disk.journal| == |s.disk.journal| && Payload(s'.disk) == Payload(s.disk)
       else && Writes(s'.trace) == Writes(s.trace) + 1
            && |s'.disk.journal| == |s.disk.journal| + 1
            && ViewOf(v, Payload(s'.disk)).Ok?
  }

  lemma WritesSnoc(trace: seq<Event>, e: Event)
    ensures Writes(trace + [e]) == Writes(trace) + if IsWrite(e) then 1 else 0
  {
    assert (trace + [e])[..|trace|] == trace;
  }

  lemma StagingCommits(v: Service, first: Option<string>, s: State, t: Tid, c: Choice)
    requires Inv(v, first, s) && PcOf(s, t).Staging? && Step(v, s, t, c).Some?
    ensures Commits(v, s, Step(v, s, t, c).value)
  {
    var pc, s' := PcOf(s, t), Step(v, s, t, c).value;
    assert Grounded(v, s.disk, pc);
    if c.Fail? {
      AbandonedDisk(v, s, t, c.partial);
    } else {
      AdvancedDisk(v, s, t);
    }
    assert StagedStep(v, s, s', pc.temp);
    if s'.trace != s.trace {
      WritesSnoc(s.trace, s'.trace[|s.trace|]);
    }
    if s'.disk.journal == s.disk.journal {
      TempWorkIsHidden(s.disk, pc.temp, s'.disk.files[pc.temp]);
    } else {
      RenamedJournal(s.disk, pc.temp);
    }
  }

  /** What a step did to the disk and the trace, seen from a staged file. */
  ghost predicate StagedStep(v: Service, s: State, s': State, temp: Inode)
  {
    && (s'.trace == s.trace || (|s'.trace| > |s.trace| && s'.trace == s.trace + [s'.trace[|s.trace|]]))
    && if s'.trace != s.trace && IsWrite(s'.trace[|s.trace|])
       then s'.disk == Rename(s.disk, temp) && ViewOf(v, Payload(s'.disk)).Ok?
       else temp in s'.disk.files && s'.disk == s.disk.(files := s.disk.files[temp := s'.disk.files[temp]])
  }

  lemma AdvancedDisk(v: Service, s: State, t: Tid)
    requires PcOf(s, t).Staging? && Grounded(v, s.disk, PcOf(s, t))
    ensures StagedStep(v, s, Advance(s, t, PcOf(s, t)), PcOf(s, t).temp)
  {
    var pc := PcOf(s, t);
    if pc.stage.Chmodded? {
      assert Payload(Rename(s.disk, pc.temp)) == Some(pc.payload);
    } else {
      assert s.disk.files == s.disk.files[pc.temp := s.disk.files[pc.temp]];
    }
  }

  lemma AbandonedDisk(v: Service, s: State, t: Tid, partial: string)
    requires PcOf(s, t).Staging? && PcOf(s, t).temp in s.disk.files
    ensures StagedStep(v, s, Abandon(s, t, PcOf(s, t), partial), PcOf(s, t).temp)
  {
    var pc := PcOf(s, t);
    assert s.disk.files == s.disk.files[pc.temp := s.disk.files[pc.temp]];
  }

  lemma RenamedJournal(d: Disk, temp: Inode)
    ensures JournalKept(d, Rename(d, temp)) && |Rename(d, temp).journal| == |d.journal| + 1
  {
  }

  /** Outside the staging of a file a step commits nothing. */
  lemma QuietStep(v: Service, s: State, t: Tid, c: Choice)
    requires Valid(s.disk) && !PcOf(s, t).Staging? && Step(v, s, t, c).Some?
    ensures Step(v, s, t, c).value.disk in
            [s.disk, CreateTemp(s.disk), if PcOf(s, t).Cleaning? then Remove(s.disk, PcOf(s, t).temp) else s.disk]
  {
  }

  lemma QuietSettle(s: State, t: Tid, op: Op, answer: Answer, pc: Pc)
    requires !answer.Saved? && (answer.Records? ==> !op.Upsert?)
    ensures Writes(Settle(s, t, op, answer, pc).trace) == Writes(s.trace)
  {
    WritesSnoc(s.trace, Effect(t, op, answer, Payload(s.disk)));
  }

  lemma QuietDecide(v: Service, s: State, t: Tid, op: Op, payload: Option<string>)
    ensures Writes(Decide(v, s, t, op, payload).trace) == Writes(s.trace)
  {
    var view, pc := ViewOf(v, payload), Leaving(op, Failed);
    match op
    case Raw =>
      var blob := Blob(match payload case None => "" case Some(text) => text);
      QuietSettle(s, t, op, blob, Leaving(op, blob));
    case Load =>
      var answer := if view.Ok? then Records(view.value) else Failed;
      QuietSettle(s, t, op, answer, Leaving(op, answer));
    case Upsert(_) =>
      QuietSettle(s, t, op, Failed, pc);
    case Save(_) =>
  }

  lemma QuietReading(v: Service, s: State, t: Tid, c: Choice)
    requires (PcOf(s, t).Reading? || PcOf(s, t).Opened?) && Step(v, s, t, c).Some?
    ensures Writes(Step(v, s, t, c).value.trace) == Writes(s.trace)
  {
    var pc := PcOf(s, t);
    QuietSettle(s, t, pc.op, Failed, Leaving(pc.op, Failed));
    QuietDecide(v, s, t, pc.op, if pc.Opened? then ContentOf(s.disk, Some(pc.inode)) else None);
  }

  lemma QuietSealing(v: Service, s: State, t: Tid, c: Choice)
    requires (PcOf(s, t).Sealing? || PcOf(s, t).Creating?) && Step(v, s, t, c).Some?
    ensures Writes(Step(v, s, t, c).value.trace) == Writes(s.trace)
  {
    QuietSettle(s, t, PcOf(s, t).op, Failed, Leaving(PcOf(s, t).op, Failed));
  }

  lemma QuietTrace(v: Service, s: State, t: Tid, c: Choice)
    requires !PcOf(s, t).Staging? && Step(v, s, t, c).Some?
    ensures Writes(Step(v, s, t, c).value.trace) == Writes(s.trace)
  {
    var pc := PcOf(s, t);
    if pc.Reading? || pc.Opened? {
      QuietReading(v, s, t, c);
    } else if pc.Sealing? || pc.Creating? {
      QuietSealing(v, s, t, c);
    } else if pc.Idle? {
      WritesSnoc(s.trace, Call(t, c.op));
    } else if pc.Answering? {
      WritesSnoc(s.trace, Return(t, pc.answer));
    }
  }

  lemma StepCommits(v: Service, first: Option<string>, s: State, t: Tid, c: Choice)
    requires Inv(v, first, s) && Step(v, s, t, c).Some?
    ensures Commits(v, s, Step(v, s, t, c).value)
  {
    if PcOf(s, t).Staging? {
      StagingCommits(v, first, s, t, c);
    } else {
      var s' := Step(v, s, t, c).value;
      QuietStep(v, s, t, c);
      QuietTrace(v, s, t, c);
      ContentsKept(s.disk, s'.disk);
    }
  }

  /** `n` actions into the run, the path named this payload. */
  ghost predicate HeldAt(v: Service, disk: Disk, actions: seq<Action>, n: nat, payload: Option<string>)
  {
    && n <= |actions|
    && Run(v, Start(disk), actions[..n]).Some?
    && Payload(Run(v, Start(disk), actions[..n]).value.disk) == payload
  }

  /** A payload the path held since the directory was last written back. */
  ghost predicate HeldLately(v: Service, disk: Disk, actions: seq<Action>, payload: Option<string>)
  {
    exists n: nat :: HeldAt(v, disk, actions, n, payload) && WriteBack !in actions[n..]
  }

  lemma FrontAgrees(front: seq<Action>, last: Action, n: nat)
    requires n <= |front|
    ensures (front + [last])[..n] == front[..n] && (front + [last])[n..] == front[n..] + [last]
  {
  }

  lemma HeldLonger(v: Service, disk: Disk, actions: seq<Action>, payload: Option<string>)
    requires actions != [] && actions[|actions| - 1] != WriteBack
    requires HeldLately(v, disk, actions[..|actions| - 1], payload)
    ensures HeldLately(v, disk, actions, payload)
  {
    var front := actions[..|actions| - 1];
    var n: nat :| HeldAt(v, disk, front, n, payload) && WriteBack !in front[n..];
    LastApart(actions);
    FrontAgrees(front, actions[|actions| - 1], n);
    assert HeldAt(v, disk, actions, n, payload);
  }

  lemma HeldNow(v: Service, disk: Disk, actions: seq<Action>)
    requires Run(v, Start(disk), actions).Some?
    ensures HeldLately(v, disk, actions, Payload(Run(v, Start(disk), actions).value.disk))
  {
    assert actions[..|actions|] == actions;
    assert HeldAt(v, disk, actions, |actions|, Payload(Run(v, Start(disk), actions).value.disk));
  }

  /** What the crash theorems need to know about the last action of a run. */
  lemma LastAction(v: Service, disk: Disk, actions: seq<Action>)
    requires actions != [] && Valid(disk) && Lawful(v.aead) && Run(v, Start(disk), actions).Some?
    ensures var before := Run(v, Start(disk), actions[..|actions| - 1]);
      && before.Some?
      && var (s, s') := (before.value, Run(v, Start(disk), actions).value);
      && Valid(s.disk) && Valid(s'.disk)
      && if actions[|actions| - 1] == WriteBack
         then s'.disk.journal == [s'.disk.entry] && Payload(s'.disk) == Payload(s.disk) && s'.trace == s.trace
         else Commits(v, s, s')
  {
    var last := |actions| - 1;
    RunKeepsInv(v, disk, actions);
    RunKeepsInv(v, disk, actions[..last]);
    if actions[last] != WriteBack {
      StepCommits(v, Payload(disk), Run(v, Start(disk), actions[..last]).value, actions[last].t, actions[last].choice);
    }
  }

  /** Every inode a crash may fall back to holds a payload of recent history. */
  ghost predicate Recent(v: Service, disk: Disk, actions: seq<Action>, d: Disk)
  {
    forall k :: 0 <= k < |d.journal| ==> HeldLately(v, disk, actions, ContentOf(d, d.journal[k]))
  }

  lemma RecentStep(v: Service, disk: Disk, actions: seq<Action>, d: Disk, d': Disk)
    requires actions != [] && actions[|actions| - 1] != WriteBack
    requires Recent(v, disk, actions[..|actions| - 1], d)
    requires Valid(d') && JournalKept(d, d') && |d'.journal| <= |d.journal| + 1
    requires HeldLately(v, disk, actions, Payload(d'))
    ensures Recent(v, disk, actions, d')
  {
    forall k | 0 <= k < |d'.journal|
      ensures HeldLately(v, disk, actions, ContentOf(d', d'.journal[k]))
    {
      if k < |d.journal| {
        HeldLonger(v, disk, actions, ContentOf(d, d.journal[k]));
      }
    }
  }

  lemma {:induction false} JournalIsHistory(v: Service, disk: Disk, actions: seq<Action>)
    requires Valid(disk) && disk.journal == [disk.entry] && Lawful(v.aead) && Run(v, Start(disk), actions).Some?
    ensures Recent(v, disk, actions, Run(v, Start(disk), actions).value.disk)
  {
    HeldNow(v, disk, actions);
    if actions == [] {
    } else {
      LastAction(v, disk, actions);
      if actions[|actions| - 1] != WriteBack {
        JournalIsHistory(v, disk, actions[..|actions| - 1]);
        RecentStep(v, disk, actions, Run(v, Start(disk), actions[..|actions| - 1]).value.disk,
                   Run(v, Start(disk), actions).value.disk);
      }
    }
  }

  lemma DurableStep(v: Service, s: State, s': State)
    requires Valid(s.disk) && Valid(s'.disk) && Durable(v, s.disk)
    requires Commits(v, s, s') || (s'.disk.journal == [s'.disk.entry] && Payload(s'.disk) == Payload(s.disk))
    ensures Durable(v, s'.disk)
  {
    assert s.disk.journal[|s.disk.journal| - 1] == s.disk.entry;
  }

  lemma {:induction false} JournalIsReadable(v: Service, disk: Disk, actions: seq<Action>)
    requires Valid(disk) && disk.journal == [disk.entry] && Lawful(v.aead) && Run(v, Start(disk), actions).Some?
    requires ViewOf(v, Payload(disk)).Ok?
    ensures Durable(v, Run(v, Start(disk), actions).value.disk)
  {
    if actions == [] {
    } else {
      LastAction(v, disk, actions);
      JournalIsReadable(v, disk, actions[..|actions| - 1]);
      DurableStep(v, Run(v, Start(disk), actions[..|actions| - 1]).value, Run(v, Start(disk), actions).value);
    }
  }

  /** Power may fail at any step of any run: the path is left holding, whole, a
      payload it held since the directory last reached the medium, and if the
      datastore was readable at the start it is readable after the crash. */
  lemma CrashIsSafe(v: Service, disk: Disk, actions: seq<Action>, after: Disk)
    requires Valid(disk) && disk.journal == [disk.entry] && Lawful(v.aead) && Run(v, Start(disk), actions).Some?
    requires Crash(Run(v, Start(disk), actions).value.disk, after)
    ensures Valid(after) && after.journal == [after.entry]
    ensures HeldLately(v, disk, actions, Payload(after))
    ensures ViewOf(v, Payload(disk)).Ok? ==> ViewOf(v, Payload(after)).Ok?
  {
    RunKeepsInv(v, disk, actions);
    JournalIsHistory(v, disk, actions);
    if ViewOf(v, Payload(disk)).Ok? {
      JournalIsReadable(v, disk, actions);
    }
    CrashKeepsAWholePayload(v, Run(v, Start(disk), actions).value.disk, after);
  }

  ghost predicate TwoPayloads(first: Option<string>, s: State)
  {
    && (Writes(s.trace) == 0 ==> Payload(s.disk) == first)
    && forall k :: 0 <= k < |s.disk.journal| ==>
         ContentOf(s.disk, s.disk.journal[k]) in [first, Payload(s.disk)]
  }

  lemma CommitsTwoPayloads(v: Service, first: Option<string>, s: State, s': State)
    requires Valid(s'.disk) && Commits(v, s, s') && Writes(s'.trace) <= 1 && TwoPayloads(first, s)
    ensures TwoPayloads(first, s')
  {
    forall k | 0 <= k < |s'.disk.journal|
      ensures ContentOf(s'.disk, s'.disk.journal[k]) in [first, Payload(s'.disk)]
    {
      if k < |s.disk.journal| {
        assert ContentOf(s'.disk, s'.disk.journal[k]) == ContentOf(s.disk, s.disk.journal[k]);
      } else {
        assert s'.disk.journal[k] == s'.disk.entry;
      }
    }
  }

  lemma {:induction false} OneWriteTwoPayloads(v: Service, disk: Disk, actions: seq<Action>)
    requires Valid(disk) && disk.journal == [disk.entry] && Lawful(v.aead) && Run(v, Start(disk), actions).Some?
    requires Writes(Run(v, Start(disk), actions).value.trace) <= 1
    ensures TwoPayloads(Payload(disk), Run(v, Start(disk), actions).value)
  {
    if actions == [] {
    } else {
      LastAction(v, disk, actions);
      var before, after := Run(v, Start(disk), actions[..|actions| - 1]).value, Run(v, Start(disk), actions).value;
      OneWriteTwoPayloads(v, disk, actions[..|actions| - 1]);
      if actions[|actions| - 1] != WriteBack {
        CommitsTwoPayloads(v, Payload(disk), before, after);
      }
    }
  }

  /** Around a single save or upsert, a crash at any step leaves either the whole
      previous payload or the whole new one. */
  lemma CrashLeavesOldOrNew(v: Service, disk: Disk, actions: seq<Action>, after: Disk)
    requires Valid(disk) && disk.journal == [disk.entry] && Lawful(v.aead) && Run(v, Start(disk), actions).Some?
    requires Crash(Run(v, Start(disk), actions).value.disk, after)
    requires Writes(Run(v, Start(disk), actions).value.trace) <= 1
    ensures Payload(after) == Payload(disk) || Payload(after) == Payload(Run(v, Start(disk), actions).value.disk)
  {
    RunKeepsInv(v, disk, actions);
    OneWriteTwoPayloads(v, disk, actions);
    CrashKeepsAWholePayload(v, Run(v, Start(disk), actions).value.disk, after);
  }

  /** One uptime of the service, ended by a power failure. */
  datatype Uptime = Uptime(actions: seq<Action>, after: Disk)

  ghost predicate Survives(v: Service, disk: Disk, uptimes: seq<Uptime>)
    decreases |uptimes|
  {
    uptimes != [] ==>
      && Run(v, Start(disk), uptimes[0].actions).Some?
      && Crash(Run(v, Start(disk), uptimes[0].actions).value.disk, uptimes[0].after)
      && Survives(v, uptimes[0].after, uptimes[1..])
  }

  /** What one uptime leaves to the next. */
  lemma CrashKeepsReadable(v: Service, disk: Disk, uptime: Uptime)
    requires Valid(disk) && disk.journal == [disk.entry] && Lawful(v.aead)
    requires Run(v, Start(disk), uptime.actions).Some?
    requires Crash(Run(v, Start(disk), uptime.actions).value.disk, uptime.after)
    requires ViewOf(v, Payload(disk)).Ok?
    ensures Valid(uptime.after) && uptime.after.journal == [uptime.after.entry]
    ensures ViewOf(v, Payload(uptime.after)).Ok?
  {
    CrashIsSafe(v, disk, uptime.actions, uptime.after);
  }

  /** The disk after the last of several uptimes. */
  function Final(disk: Disk, uptimes: seq<Uptime>): Disk
    decreases |uptimes|
  {
    if uptimes == [] then disk else Final(uptimes[0].after, uptimes[1..])
  }

  /** A readable datastore stays readable through any number of crashes and
      restarts. */
  lemma {:induction false} AlwaysReadable(v: Service, disk: Disk, uptimes: seq<Uptime>)
    requires Valid(disk) && disk.journal == [disk.entry] && Lawful(v.aead)
    requires ViewOf(v, Payload(disk)).Ok? && Survives(v, disk, uptimes)
    ensures ViewOf(v, Payload(Final(disk, uptimes))).Ok?
    decreases |uptimes|
  {
    if uptimes == [] {
    } else {
      CrashKeepsReadable(v, disk, uptimes[0]);
      AlwaysReadable(v, uptimes[0].after, uptimes[1..]);
    }
  }
}
