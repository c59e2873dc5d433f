/** The hypervisor behind VBoxManage: registered machines, their disks and
    snapshots, and commands that may fail. */
module VirtualBox {
  import opened Basics

  datatype VmState = Running | PoweredOff | Saved | Aborted | Unknown | Absent

  /** Files of a guest's disk, by path. */
  type Image = map<string, string>

  datatype Snapshot = Snapshot(name: string, image: Image)

  /** A registered machine. `seed` is the hostname on the attached seed image;
      `configured` says that first boot has finished, under `hostname`; `address`
      is what the network gave it, or empty. */
  datatype Vm = Vm(
    state: VmState, disk: Image, snapshots: seq<Snapshot>,
    seed: Option<string>, configured: bool, hostname: string, address: string)

  type Vms = map<string, Vm>

  /** The appliance file: absent, something from before, what a failed export
      left, or a completed export. */
  datatype Ova = NoFile | Earlier(tag: int) | FailedExport | Completed(image: Image)

  // ---------------------------------------------------------------------
  // What machines do on their own
  // ---------------------------------------------------------------------

  /** A running machine may stop, may be given an address, and may finish its first
      boot; what it has been given it keeps, and what has finished stays
      finished. */
  predicate DriftsTo(a: Vm, b: Vm)
  {
    && b == a.(state := b.state, configured := b.configured, hostname := b.hostname, address := b.address)
    && (a.state != Running ==> b == a)
    && (a.configured ==> b.configured && b.hostname == a.hostname)
    && (a.address != "" ==> b.address == a.address)
    && (b.state == a.state || a.state == Running)
  }

  ghost predicate Drift(a: Vms, b: Vms)
  {
    a.Keys == b.Keys && forall k :: k in a ==> DriftsTo(a[k], b[k])
  }

  /** Machines under these names are still there and have only drifted. */
  ghost predicate Untouched(a: Vms, b: Vms, names: iset<string>)
  {
    forall k :: k in a && k in names ==> k in b && DriftsTo(a[k], b[k])
  }

  lemma DriftsTransitively(a: Vm, b: Vm, c: Vm)
    requires DriftsTo(a, b) && DriftsTo(b, c)
    ensures DriftsTo(a, c)
  {
  }

  lemma UntouchedTransitively(a: Vms, b: Vms, c: Vms, names: iset<string>)
    requires Untouched(a, b, names) && Untouched(b, c, names)
    ensures Untouched(a, c, names)
  {
    forall k | k in a && k in names ensures k in c && DriftsTo(a[k], c[k]) {
      DriftsTransitively(a[k], b[k], c[k]);
    }
  }

  /** Apart from this name the same machines are registered, and they have only
      drifted. */
  ghost predicate Elsewhere(a: Vms, b: Vms, name: string)
  {
    && (forall k :: k != name ==> (k in a <==> k in b))
    && forall k :: k in a && k != name ==> DriftsTo(a[k], b[k])
  }

  lemma ElsewhereOn(a: Vms, b: Vms, c: Vms, name: string)
    requires Elsewhere(a, b, name) && Elsewhere(b, c, name)
    ensures Elsewhere(a, c, name)
  {
    forall k | k in a && k != name ensures DriftsTo(a[k], c[k]) {
      DriftsTransitively(a[k], b[k], c[k]);
    }
  }

  // ---------------------------------------------------------------------
  // Snapshots
  // ---------------------------------------------------------------------

  predicate HasNamed(vm: Vm, name: string)
  {
    exists k :: 0 <= k < |vm.snapshots| && vm.snapshots[k].name == name
  }

  function Taken(vm: Vm, name: string): Vm
  {
    vm.(snapshots := vm.snapshots + [Snapshot(name, vm.disk)])
  }

  /** Names need not be unique; a command by name acts on some snapshot of that
      name, and nothing here says which. */
  predicate RestoresAt(vm: Vm, name: string, k: nat, after: Vm)
  {
    k < |vm.snapshots| && vm.snapshots[k].name == name &&
    after == vm.(disk := vm.snapshots[k].image, state := after.state) && after.state != Running
  }

  ghost predicate Restores(vm: Vm, name: string, after: Vm)
  {
    vm.state != Running && exists k: nat :: RestoresAt(vm, name, k, after)
  }

  /** Every snapshot of that name holds this disk. */
  predicate Unambiguous(vm: Vm, name: string, disk: Image)
  {
    forall k :: 0 <= k < |vm.snapshots| && vm.snapshots[k].name == name ==> vm.snapshots[k].image == disk
  }

  /** A leftover snapshot whose removal fails silently makes the next rollback
      uncertain: it may bring back the older disk. */
  lemma LeftoverMayWin(vm: Vm, name: string, older: Image)
    requires vm.state == PoweredOff && older != vm.disk
    ensures var build := Taken(vm.(snapshots := [Snapshot(name, older)]), name);
      exists after :: Restores(build, name, after) && after.disk == older && after.disk != vm.disk
  {
    var build := Taken(vm.(snapshots := [Snapshot(name, older)]), name);
    var after := build.(disk := older);
    assert build.snapshots[0] == Snapshot(name, older);
    assert RestoresAt(build, name, 0, after);
    assert Restores(build, name, after);
  }

  /** A machine fresh from an appliance. */
  function Imported(disk: Image): Vm
  {
    Vm(PoweredOff, disk, [], None, false, "", "")
  }

  function WithoutAt(s: seq<Snapshot>, k: nat): seq<Snapshot>
    requires k < |s|
  {
    s[..k] + s[k + 1..]
  }

  predicate RemovesAt(vm: Vm, name: string, k: nat, after: Vm)
  {
    k < |vm.snapshots| && vm.snapshots[k].name == name && after == vm.(snapshots := WithoutAt(vm.snapshots, k))
  }

  ghost predicate Removes(vm: Vm, name: string, after: Vm)
  {
    exists k: nat :: RemovesAt(vm, name, k, after)
  }

  /** Some snapshot of that name holds this disk. */
  predicate Holds(vm: Vm, name: string, disk: Image)
  {
    exists k :: 0 <= k < |vm.snapshots| && vm.snapshots[k] == Snapshot(name, disk)
  }

  /** At most one snapshot has that name. */
  predicate SoleNamed(vm: Vm, name: string)
  {
    forall i, j :: 0 <= i < j < |vm.snapshots| && vm.snapshots[i].name == name ==> vm.snapshots[j].name != name
  }

  /** Taking a snapshot, complete or not, changes the list of snapshots only,
      and every snapshot of that name in it is an old one or holds the disk. */
  ghost predicate SnapshotsOf(vm: Vm, after: Vm, name: string)
  {
    && after == vm.(snapshots := after.snapshots)
    && forall k :: 0 <= k < |after.snapshots| && after.snapshots[k].name == name ==>
         after.snapshots[k].image == vm.disk || Holds(vm, name, after.snapshots[k].image)
  }

  lemma RemovalKeeps(vm: Vm, name: string, after: Vm)
    requires Removes(vm, name, after) || after == vm
    ensures SnapshotsOf(vm, after, name)
    ensures Removes(vm, name, after) && SoleNamed(vm, name) ==> !HasNamed(after, name)
  {
    forall k | 0 <= k < |after.snapshots| ensures after.snapshots[k] in vm.snapshots {
    }
    if Removes(vm, name, after) {
      var k :| RemovesAt(vm, name, k, after);
      forall i | 0 <= i < |after.snapshots| && after.snapshots[i].name == name
        ensures !SoleNamed(vm, name)
      {
        assert after.snapshots[i] == vm.snapshots[if i < k then i else i + 1];
      }
    }
  }

  lemma TakingKeeps(vm: Vm, before: Vm, name: string)
    requires SnapshotsOf(vm, before, name)
    ensures SnapshotsOf(vm, Taken(before, name), name) && Holds(Taken(before, name), name, vm.disk)
    ensures !HasNamed(before, name) ==> Unambiguous(Taken(before, name), name, vm.disk)
  {
    assert Taken(before, name).snapshots[|before.snapshots|] == Snapshot(name, vm.disk);
  }

  // ---------------------------------------------------------------------
  // Runs
  // ---------------------------------------------------------------------

  function Started(vms: Vms, name: string): Vms
    requires name in vms
  {
    vms[name := vms[name].(state := Running)]
  }

  function Seeded(vms: Vms, name: string, hostname: string): Vms
    requires name in vms
  {
    vms[name := vms[name].(seed := Some(hostname))]
  }

  /** What may happen next while commands are given for one machine. */
  ghost predicate Moves(a: Vms, b: Vms, name: string)
  {
    || Drift(a, b)
    || (name in a && a[name].state != Running && b == a - {name})
    || (name !in a && exists disk: Image :: b == a[name := Imported(disk)])
    || (name in a && exists hostname: string :: b == Seeded(a, name, hostname))
    || (name in a && b == Started(a, name))
  }

  ghost predicate Chain(a: Vms, states: seq<Vms>, name: string)
    decreases |states|
  {
    states == [] || (Moves(a, states[0], name) && Chain(states[0], states[1..], name))
  }

  function End(a: Vms, states: seq<Vms>): Vms
  {
    if states == [] then a else states[|states| - 1]
  }

  /** The log has grown by a run that leads from one state to the other. */
  ghost predicate Went(a: Vms, past: seq<Vms>, b: Vms, log: seq<Vms>, name: string)
  {
    past <= log && Chain(a, log[|past|..], name) && b == End(a, log[|past|..])
  }

  lemma {:induction false} ChainOn(a: Vms, s: seq<Vms>, t: seq<Vms>, name: string)
    requires Chain(a, s, name) && Chain(End(a, s), t, name)
    ensures Chain(a, s + t, name)
    decreases |s|
  {
    if s == [] {
      assert s + t == t;
    } else {
      assert (s + t)[0] == s[0] && (s + t)[1..] == s[1..] + t;
      assert End(s[0], s[1..]) == End(a, s);
      ChainOn(s[0], s[1..], t, name);
    }
  }

  lemma WentOn(a: Vms, past: seq<Vms>, b: Vms, mid: seq<Vms>, c: Vms, log: seq<Vms>, name: string)
    requires Went(a, past, b, mid, name) && Went(b, mid, c, log, name)
    ensures Went(a, past, c, log, name)
  {
    var s, t := mid[|past|..], log[|mid|..];
    assert log[|past|..] == s + t;
    ChainOn(a, s, t, name);
  }

  lemma WentNowhere(a: Vms, past: seq<Vms>, name: string)
    ensures Went(a, past, a, past, name)
  {
    assert past[|past|..] == [];
  }

  lemma WentStep(a: Vms, past: seq<Vms>, b: Vms, name: string)
    requires Moves(a, b, name)
    ensures Went(a, past, b, past + [b], name)
  {
    assert (past + [b])[|past|..] == [b] && [b][1..] == [];
  }

  // ---------------------------------------------------------------------
  // The host
  // ---------------------------------------------------------------------

  /** Success, a failing status, or a timeout; the last raises even where the
      status is not checked. A command that does not succeed may have been
      carried out all the same. */
  datatype Reply = Succeeded | Refused | TimedOut

  /** From one state of the log on, machines have only drifted. */
  ghost predicate AllDrift(start: Vms, log: seq<Vms>, from: nat)
  {
    forall i :: from <= i < |log| ==> Drift(start, log[i])
  }

  lemma AllDriftOn(start: Vms, before: Vms, past: seq<Vms>, log: seq<Vms>, from: nat)
    requires AllDrift(start, past, from) && past <= log && from <= |past|
    requires Drift(start, before) && AllDrift(before, log, |past|)
    ensures AllDrift(start, log, from)
  {
    forall i | from <= i < |log| ensures Drift(start, log[i]) {
      if i < |past| {
        assert log[i] == past[i];
      } else {
        DriftsOn(start, before, log[i]);
      }
    }
  }

  /** Machines have only drifted, but for one that may be gone. */
  ghost predicate DriftOrGone(start: Vms, after: Vms, name: string)
  {
    Drift(start, after) || (name in start && Drift(start - {name}, after))
  }

  ghost predicate AllDriftOrGone(start: Vms, log: seq<Vms>, from: nat, name: string)
  {
    forall i :: from <= i < |log| ==> DriftOrGone(start, log[i], name)
  }

  lemma AllDriftOrGoneOn(start: Vms, past: seq<Vms>, now: Vms, log: seq<Vms>, from: nat, name: string)
    requires AllDriftOrGone(start, past, from, name) && past <= log && from <= |past|
    requires DriftOrGone(start, now, name) && forall i :: |past| <= i < |log| ==> log[i] == now
    ensures AllDriftOrGone(start, log, from, name)
  {
    forall i | from <= i < |log| ensures DriftOrGone(start, log[i], name) {
      if i < |past| {
        assert log[i] == past[i];
      }
    }
  }

  /** The same machines, and all but one of them as they were. */
  ghost predicate OnlyThis(a: Vms, b: Vms, name: string)
  {
    a.Keys == b.Keys && forall k :: k in b && k != name ==> b[k] == a[k]
  }

  lemma OnlyThisOne(a: Vms, b: Vms, c: Vms, name: string)
    requires b == a || (name in a && name in b && b == a[name := b[name]])
    requires c == b || (name in b && name in c && c == b[name := c[name]])
    ensures OnlyThis(a, c, name)
  {
  }

  // ---------------------------------------------------------------------
  // What is run, and what each operation runs
  // ---------------------------------------------------------------------

  /** Subcommands that change something. */
  datatype Verb =
    | PressButton | CutOff | ImportAs | Resize | BridgeAdapter | InsertSeed(hostname: string) | BootHeadless
    | SnapshotTake(snapshot: string) | SnapshotRestore(snapshot: string) | SnapshotDelete(snapshot: string)
    | UnregisterDelete | ExportOva

  /** What is run, with the answer; None is a timeout, or for the checked listing
      any failure. `effective` says that a command was carried out. */
  datatype Call =
    | ListVms(name: string, registered: Option<bool>)
    | ShowInfo(name: string, state: Option<VmState>)
    | ListSnapshots(name: string, snapshot: string, shown: Option<bool>)
    | UnlinkOva(ok: bool)
    | Ran(verb: Verb, name: string, reply: Reply, effective: bool)

  /** The operations of the wrapper and of what is built on it. */
  datatype Op =
    | PoweringOff(name: string) | Starting(name: string)
    | TakingSnapshot(name: string, snapshot: string) | RestoringSnapshot(name: string, snapshot: string)
    | DeletingSnapshot(name: string, snapshot: string)
    | Exporting(name: string) | Importing(name: string) | Destroying(name: string)
    | ReadingBridge(name: string) | SettingBridge(name: string) | Configuring(name: string)
    | BuildingSeed(hostname: string) | Seeding(name: string, hostname: string)
    | AwaitingGuest(name: string) | AwaitingCloudInit(name: string) | CheckingHostname(name: string, hostname: string)
    | FindingTemplate(name: string) | Preparing(name: string) | Sanitizing(name: string) | Arming(name: string)

  predicate IsRun(c: Call, verb: Verb, name: string)
  {
    c.Ran? && c.verb == verb && c.name == name
  }

  /** One more call, with this reply. */
  predicate RanOnce(past: seq<Call>, calls: seq<Call>, verb: Verb, name: string, reply: Reply)
  {
    && |calls| == |past| + 1 && past <= calls
    && IsRun(calls[|past|], verb, name) && calls[|past|].reply == reply
  }

  /** One more call, checked: any reply but success raises. */
  predicate RanChecked(past: seq<Call>, calls: seq<Call>, verb: Verb, name: string, ok: bool)
  {
    && |calls| == |past| + 1 && past <= calls
    && IsRun(calls[|past|], verb, name) && (ok <==> calls[|past|].reply.Succeeded?)
  }

  predicate AllRunning(calls: seq<Call>, name: string)
  {
    forall k :: 0 <= k < |calls| ==> calls[k] == ShowInfo(name, Some(Running))
  }

  /** Asking until the answer is another than running. */
  predicate Settles(calls: seq<Call>, name: string, ok: bool)
  {
    && calls != []
    && AllRunning(calls[..|calls| - 1], name)
    && var last := calls[|calls| - 1];
    && last.ShowInfo? && last.name == name && last.state != Some(Running) && (ok <==> last.state.Some?)
  }

  /** Cutting the power, and asking once more. */
  predicate Forces(calls: seq<Call>, name: string, ok: bool)
  {
    && calls != [] && IsRun(calls[0], CutOff, name)
    && if calls[0].reply.TimedOut? then |calls| == 1 && !ok
       else
         && |calls| == 2 && calls[1].ShowInfo? && calls[1].name == name
         && (ok <==> calls[1].state.Some? && calls[1].state != Some(Running))
  }

  /** After the button: polling, and the power is cut only where the machine has
      been running at every poll. */
  ghost predicate SettlesOrForces(calls: seq<Call>, name: string, ok: bool)
  {
    Settles(calls, name, ok) || exists n :: PollsUpTo(calls, name, n, ok)
  }

  predicate PollsUpTo(calls: seq<Call>, name: string, n: int, ok: bool)
  {
    0 <= n <= |calls| && AllRunning(calls[..n], name) && Forces(calls[n..], name, ok)
  }

  /** Powering off: nothing is done to a machine not reported running. Otherwise
      the button is pressed, and what follows decides. */
  ghost predicate PowersOff(calls: seq<Call>, name: string, ok: bool)
  {
    && calls != [] && calls[0].ShowInfo? && calls[0].name == name
    && if calls[0].state != Some(Running) then |calls| == 1 && (ok <==> calls[0].state.Some?)
       else
         && |calls| >= 2 && IsRun(calls[1], PressButton, name)
         && if calls[1].reply.TimedOut? then |calls| == 2 && !ok else SettlesOrForces(calls[2..], name, ok)
  }

  /** The machine is stopped, unless the last query was refused or showed none. */
  predicate HasStopped(calls: seq<Call>, vms: Vms, name: string)
  {
    && calls != [] && calls[|calls| - 1].ShowInfo?
    && (calls[|calls| - 1].state != Some(Absent) ==> name in vms && vms[name].state != Running)
  }

  predicate Starts(calls: seq<Call>, name: string, ok: bool)
  {
    && calls != [] && calls[0].ShowInfo? && calls[0].name == name
    && if calls[0].state.None? || calls[0].state == Some(Running) then |calls| == 1 && (ok <==> calls[0].state.Some?)
       else |calls| == 2 && IsRun(calls[1], BootHeadless, name) && (ok <==> calls[1].reply.Succeeded?)
  }

  /** Restoring refuses a machine reported running. */
  predicate AsksThenRuns(calls: seq<Call>, name: string, verb: Verb, ok: bool)
  {
    && calls != [] && calls[0].ShowInfo? && calls[0].name == name
    && if calls[0].state.None? || calls[0].state == Some(Running) then |calls| == 1 && !ok
       else |calls| == 2 && IsRun(calls[1], verb, name) && (ok <==> calls[1].reply.Succeeded?)
  }

  /** Exporting refuses it too, and removes the file at the path if there is one. */
  predicate Exports(calls: seq<Call>, name: string, absent: bool, ok: bool)
  {
    && calls != [] && calls[0].ShowInfo? && calls[0].name == name
    && if calls[0].state.None? || calls[0].state == Some(Running) then |calls| == 1 && !ok
       else if !absent && |calls| == 2 then calls[1] == UnlinkOva(false) && !ok
       else
         && |calls| == (if absent then 2 else 3) && (!absent ==> calls[1] == UnlinkOva(true))
         && IsRun(calls[|calls| - 1], ExportOva, name) && (ok <==> calls[|calls| - 1].reply.Succeeded?)
  }

  /** A snapshot is deleted exactly if the listing shows one of the name. */
  predicate Removals(calls: seq<Call>, name: string, snapshot: string, found: Option<bool>, removal: Reply, ok: bool)
  {
    && calls != [] && calls[0] == ListSnapshots(name, snapshot, found)
    && if found.None? || !found.value then |calls| == 1 && (ok <==> found.Some?)
       else
         && |calls| == 2 && IsRun(calls[1], SnapshotDelete(snapshot), name)
         && calls[1].reply == removal && (ok <==> !removal.TimedOut?)
  }

  /** That, and then the new one is taken. */
  predicate Snapshots(calls: seq<Call>, name: string, snapshot: string, found: Option<bool>, removal: Reply, ok: bool)
  {
    if Removals(calls, name, snapshot, found, removal, false) then !ok
    else
      && calls != [] && Removals(calls[..|calls| - 1], name, snapshot, found, removal, true)
      && IsRun(calls[|calls| - 1], SnapshotTake(snapshot), name) && (ok <==> calls[|calls| - 1].reply.Succeeded?)
  }

  /** Attempts to delete after each of which the machine was still registered. */
  predicate StillThere(calls: seq<Call>, name: string, attempts: nat)
  {
    && |calls| == 2 * attempts
    && forall k :: 0 <= k < attempts ==>
         && IsRun(calls[2 * k], UnregisterDelete, name) && !calls[2 * k].reply.TimedOut?
         && calls[2 * k + 1] == ListVms(name, Some(true))
  }

  predicate LastAttempt(calls: seq<Call>, name: string, ok: bool)
  {
    && calls != [] && IsRun(calls[0], UnregisterDelete, name)
    && if calls[0].reply.TimedOut? then |calls| == 1 && !ok
       else
         && |calls| == 2 && calls[1].ListVms? && calls[1].name == name
         && calls[1].registered != Some(true) && (ok <==> calls[1].registered.Some?)
  }

  /** It goes on until the machine is gone or an answer fails to come, and gives up
      only after all attempts. */
  ghost predicate Deletes(calls: seq<Call>, name: string, attempts: nat, ok: bool)
  {
    exists n: nat :: DeletesAt(calls, name, attempts, n, ok)
  }

  predicate DeletesAt(calls: seq<Call>, name: string, attempts: nat, n: nat, ok: bool)
  {
    && n <= attempts && 2 * n <= |calls| && StillThere(calls[..2 * n], name, n)
    && if n == attempts then |calls| == 2 * n && !ok else LastAttempt(calls[2 * n..], name, ok)
  }

  /** A machine that is not registered is left alone; otherwise it is powered off,
      and deleted once it is off. */
  ghost predicate Destroys(calls: seq<Call>, name: string, attempts: nat, ok: bool)
  {
    && calls != [] && calls[0].ListVms? && calls[0].name == name
    && if calls[0].registered != Some(true) then |calls| == 1 && (ok <==> calls[0].registered.Some?)
       else exists n: nat :: DestroysAt(calls, name, attempts, n, ok)
  }

  ghost predicate DestroysAt(calls: seq<Call>, name: string, attempts: nat, n: nat, ok: bool)
  {
    && 1 <= n <= |calls|
    && if PowersOff(calls[1..n], name, true) then Deletes(calls[n..], name, attempts, ok)
       else n == |calls| && !ok && PowersOff(calls[1..], name, false)
  }

  lemma SettlesAfter(polls: seq<Call>, name: string, s: Option<VmState>, vms: Vms)
    requires AllRunning(polls, name) && s != Some(Running)
    requires s.Some? && s.value != Absent ==> name in vms && vms[name].state == s.value
    ensures Settles(polls + [ShowInfo(name, s)], name, s.Some?)
    ensures s.Some? ==> HasStopped(polls + [ShowInfo(name, s)], vms, name)
  {
    assert (polls + [ShowInfo(name, s)])[..|polls|] == polls;
  }

  lemma PollsThenForces(polls: seq<Call>, forced: seq<Call>, name: string, ok: bool)
    requires AllRunning(polls, name) && Forces(forced, name, ok)
    ensures SettlesOrForces(polls + forced, name, ok)
  {
    assert (polls + forced)[..|polls|] == polls && (polls + forced)[|polls|..] == forced;
    assert PollsUpTo(polls + forced, name, |polls|, ok);
  }

  lemma ButtonThen(made: seq<Call>, rest: seq<Call>, name: string, ok: bool)
    requires |made| == 2 && made[0] == ShowInfo(name, Some(Running))
    requires IsRun(made[1], PressButton, name) && !made[1].reply.TimedOut?
    requires SettlesOrForces(rest, name, ok)
    ensures PowersOff(made + rest, name, ok)
  {
    assert (made + rest)[2..] == rest;
  }

  lemma HasStoppedLater(made: seq<Call>, more: seq<Call>, vms: Vms, name: string)
    ensures HasStopped(more, vms, name) ==> HasStopped(made + more, vms, name)
  {
    if more != [] {
      assert (made + more)[|made + more| - 1] == more[|more| - 1];
    }
  }

  lemma StaysThere(made: seq<Call>, one: seq<Call>, name: string, attempt: nat)
    requires StillThere(made, name, attempt) && StillThere(one, name, 1)
    ensures StillThere(made + one, name, attempt + 1)
  {
    assert one[2 * 0] == one[0];
  }

  lemma DeletesOn(made: seq<Call>, last: seq<Call>, name: string, attempt: nat, attempts: nat, ok: bool)
    requires attempt <= attempts && StillThere(made, name, attempt)
    requires if attempt == attempts then last == [] && !ok else LastAttempt(last, name, ok)
    ensures Deletes(made + last, name, attempts, ok)
  {
    assert (made + last)[..2 * attempt] == made && (made + last)[2 * attempt..] == last;
    assert DeletesAt(made + last, name, attempts, attempt, ok);
  }

  lemma StuckRunning(off: seq<Call>, name: string, attempts: nat)
    requires PowersOff(off, name, false)
    ensures Destroys([ListVms(name, Some(true))] + off, name, attempts, false)
  {
    var calls := [ListVms(name, Some(true))] + off;
    assert calls[1..] == off && calls[1..|calls|] == off;
    NeverBoth(off, name);
    assert DestroysAt(calls, name, attempts, |calls|, false);
  }

  /** Whether powering off failed can be told from its last call. */
  lemma LastTells(calls: seq<Call>, name: string, ok: bool)
    requires PowersOff(calls, name, ok)
    ensures var last := calls[|calls| - 1]; ok <==> last.ShowInfo? && last.state.Some? && last.state != Some(Running)
  {
  }

  lemma NeverBoth(calls: seq<Call>, name: string)
    requires PowersOff(calls, name, false)
    ensures !PowersOff(calls, name, true)
  {
    LastTells(calls, name, false);
    if PowersOff(calls, name, true) {
      LastTells(calls, name, true);
    }
  }

  lemma OffThenDeletes(off: seq<Call>, deleting: seq<Call>, name: string, attempts: nat, ok: bool)
    requires PowersOff(off, name, true) && Deletes(deleting, name, attempts, ok)
    ensures Destroys([ListVms(name, Some(true))] + off + deleting, name, attempts, ok)
  {
    var calls := [ListVms(name, Some(true))] + off + deleting;
    assert calls[1..|off| + 1] == off && calls[|off| + 1..] == deleting;
    assert DestroysAt(calls, name, attempts, |off| + 1, ok);
  }

  /** Machines drift while one is stopped, and but for that one while it goes. */
  lemma GoneSince(start: Vms, before: Vms, after: Vms, past: seq<Vms>, log: seq<Vms>, from: nat, name: string)
    requires from <= |past| && past <= log && Drift(start, before) && AllDrift(start, past, from)
    requires DriftOrGone(before, after, name) && AllDriftOrGone(before, log, |past|, name)
    ensures DriftOrGone(start, after, name) && AllDriftOrGone(start, log, from, name)
  {
    GoneOn(start, before, after, name);
    forall i | from <= i < |log| ensures DriftOrGone(start, log[i], name) {
      if i < |past| {
        assert log[i] == past[i];
      } else {
        GoneOn(start, before, log[i], name);
      }
    }
  }

  lemma GoneOn(start: Vms, before: Vms, after: Vms, name: string)
    requires Drift(start, before) && DriftOrGone(before, after, name)
    ensures DriftOrGone(start, after, name)
  {
    if Drift(before, after) {
      DriftsOn(start, before, after);
    } else {
      assert Drift(start - {name}, before - {name});
      DriftsOn(start - {name}, before - {name}, after);
    }
  }

  class Host {
    var vms: Vms
    var ova: Ova
    ghost var log: seq<Vms>
    ghost var calls: seq<Call>
    ghost var steps: seq<Step<Op>>

    constructor (vms: Vms, ova: Ova)
      ensures this.vms == vms && this.ova == ova && log == [vms] && calls == [] && steps == []
    {
      this.vms := vms;
      this.ova := ova;
      log := [vms];
      calls := [];
      steps := [];
    }

    /** An operation has ended. */
    ghost method Mark(op: Op, ok: bool)
      modifies this`steps
      ensures steps == old(steps) + [Step(op, ok)]
    {
      steps := steps + [Step(op, ok)];
    }

    /** Time passes: any running machine may stop or finish its first boot. */
    method Wait()
      modifies this`vms, this`log
      ensures Drift(old(vms), vms)
      ensures log == old(log) + [vms]
    {
      var stopped: set<string> := *;
      var booted: map<string, string> := *;
      var leased: map<string, string> := *;
      vms := map k | k in vms ::
        if vms[k].state != Running then vms[k]
        else
          var vm := if k in booted && !vms[k].configured
                    then vms[k].(configured := true, hostname := booted[k]) else vms[k];
          var on := if k in leased && vm.address == "" then vm.(address := leased[k]) else vm;
          if k in stopped then on.(state := Aborted) else on;
      log := log + [vms];
    }

    /** None when the listing fails, which raises. */
    method Exists(name: string) returns (r: Option<bool>)
      modifies this`calls
      ensures r.Some? ==> r.value == (name in vms)
      ensures calls == old(calls) + [ListVms(name, r)]
    {
      var ok: bool := *;
      r := if ok then Some(name in vms) else None;
      calls := calls + [ListVms(name, r)];
    }

    /** The state query is not checked: when it fails the machine is reported
        absent. None is a timeout. */
    method State(name: string) returns (r: Option<VmState>)
      modifies this`calls
      ensures r.Some? && r.value != Absent ==> name in vms && vms[name].state == r.value
      ensures calls == old(calls) + [ShowInfo(name, r)]
    {
      var reply: Reply := *;
      r := if reply.TimedOut? then None
           else if reply.Succeeded? && name in vms then Some(vms[name].state) else Some(Absent);
      calls := calls + [ShowInfo(name, r)];
    }

    /** A snapshot listing that fails counts as no snapshot. */
    method HasSnapshot(name: string, snapshot: string) returns (r: Option<bool>)
      modifies this`calls
      ensures r == Some(true) ==> name in vms && HasNamed(vms[name], snapshot)
      ensures calls == old(calls) + [ListSnapshots(name, snapshot, r)]
    {
      var reply: Reply := *;
      r := if reply.TimedOut? then None
           else Some(reply.Succeeded? && name in vms && HasNamed(vms[name], snapshot));
      calls := calls + [ListSnapshots(name, snapshot, r)];
    }

    /** A command that changes nothing that is modelled. */
    method Run(verb: Verb, name: string) returns (reply: Reply)
      modifies this`calls
      ensures calls == old(calls) + [Ran(verb, name, reply, false)]
    {
      reply := *;
      calls := calls + [Ran(verb, name, reply, false)];
    }

    /** Replace one machine by what a command makes of it. */
    method Put(name: string, vm: Vm)
      modifies this`vms, this`log
      ensures vms == old(vms)[name := vm] && log == old(log) + [vms]
    {
      vms := vms[name := vm];
      log := log + [vms];
    }

    method CutPower(name: string) returns (reply: Reply)
      modifies this`vms, this`log, this`calls
      ensures Went(old(vms), old(log), vms, log, name)
      ensures Drift(old(vms), vms)
      ensures old(log) <= log && AllDrift(old(vms), log, |old(log)|)
      ensures RanOnce(old(calls), calls, CutOff, name, reply)
    {
      reply := *;
      var effective: bool := *;
      effective := effective && name in vms && vms[name].state == Running;
      WentNowhere(vms, log, name);
      if effective {
        WentStep(vms, log, vms[name := vms[name].(state := PoweredOff)], name);
        Put(name, vms[name].(state := PoweredOff));
      }
      calls := calls + [Ran(CutOff, name, reply, effective)];
    }

    /** Register a new machine from the appliance file, refused where there is
        no file or the name is taken. */
    method ImportAppliance(name: string) returns (ok: bool)
      modifies this`vms, this`log, this`calls, this`steps
      ensures Went(old(vms), old(log), vms, log, name)
      ensures vms == old(vms) || (name !in old(vms) && name in vms && vms == old(vms)[name := vms[name]])
      ensures ok ==> name !in old(vms) && name in vms
      ensures log == old(log) || log == old(log) + [vms]
      ensures log == old(log) ==> vms == old(vms)
      ensures name in vms && name !in old(vms) ==>
                && vms[name] == Imported(vms[name].disk)
                && (ova.Completed? ==> vms[name].disk == ova.image)
      ensures steps == old(steps) + [Step(Importing(name), ok)]
      ensures if ova.NoFile? then !ok && calls == old(calls)
              else RanChecked(old(calls), calls, ImportAs, name, ok)
    {
      var reply: Reply := *;
      var effective: bool := *;
      WentNowhere(vms, log, name);
      if ova.NoFile? {
        Mark(Importing(name), false);
        return false;
      }
      effective := (effective || reply.Succeeded?) && name !in vms;
      reply := if name in vms && reply.Succeeded? then Refused else reply;
      if effective {
        var disk: Image := *;
        disk := if ova.Completed? then ova.image else disk;
        WentStep(vms, log, vms[name := Imported(disk)], name);
        Put(name, Imported(disk));
      }
      calls := calls + [Ran(ImportAs, name, reply, effective)];
      Mark(Importing(name), reply.Succeeded?);
      return reply.Succeeded?;
    }

    /** A checked command on a machine that changes nothing that is modelled: its
        sizes, or the interface its adapter is bridged to. */
    method Adjust(verb: Verb, name: string, ghost op: Op) returns (ok: bool)
      modifies this`calls, this`steps
      ensures RanChecked(old(calls), calls, verb, name, ok)
      ensures steps == old(steps) + [Step(op, ok)]
    {
      var reply := Run(verb, name);
      Mark(op, reply.Succeeded?);
      return reply.Succeeded?;
    }

    /** The interface the template is bridged to, or none. The query is not
        checked; None is a timeout. */
    method BridgeOf(name: string) returns (bridged: Option<bool>)
      modifies this`calls, this`steps
      ensures |calls| == |old(calls)| + 1 && old(calls) <= calls && calls[|old(calls)|].ShowInfo?
              && calls[|old(calls)|].name == name && (bridged.None? <==> calls[|old(calls)|].state.None?)
      ensures steps == old(steps) + [Step(ReadingBridge(name), bridged.Some?)]
    {
      var s := State(name);
      var found: bool := *;
      bridged := if s.None? then None else Some(found);
      Mark(ReadingBridge(name), bridged.Some?);
    }

    /** Insert a seed image carrying a hostname. */
    method AttachSeed(name: string, hostname: string) returns (ok: bool)
      modifies this`vms, this`log, this`calls, this`steps
      ensures Went(old(vms), old(log), vms, log, name)
      ensures vms == old(vms) || (name in old(vms) && vms == Seeded(old(vms), name, hostname))
      ensures ok ==> name in vms && vms[name].seed == Some(hostname)
      ensures log == old(log) || log == old(log) + [vms]
      ensures log == old(log) ==> vms == old(vms)
      ensures RanChecked(old(calls), calls, InsertSeed(hostname), name, ok)
      ensures steps == old(steps) + [Step(Seeding(name, hostname), ok)]
    {
      var reply: Reply := *;
      var effective: bool := *;
      WentNowhere(vms, log, name);
      effective := (effective || reply.Succeeded?) && name in vms;
      reply := if name !in vms && reply.Succeeded? then Refused else reply;
      if effective {
        WentStep(vms, log, Seeded(vms, name, hostname), name);
        Put(name, vms[name].(seed := Some(hostname)));
      }
      calls := calls + [Ran(InsertSeed(hostname), name, reply, effective)];
      Mark(Seeding(name, hostname), reply.Succeeded?);
      return reply.Succeeded?;
    }

    /** Wait until the guest has an address and answers there; None when the wait
        gives up. */
    method AwaitGuest(name: string) returns (address: Option<string>)
      requires name in vms
      modifies this`vms, this`log, this`steps
      ensures Drift(old(vms), vms) && log == old(log) + [vms]
      ensures address.Some? ==> address.value != "" && vms[name].address == address.value
      ensures steps == old(steps) + [Step(AwaitingGuest(name), address.Some?)]
    {
      Wait();
      var reached: bool := *;
      address := if reached && vms[name].address != "" then Some(vms[name].address) else None;
      Mark(AwaitingGuest(name), address.Some?);
    }

    /** Reads inside a guest; None is a broken session, which fails like any other
        answer than the one waited for. */
    method CloudInitDone(name: string) returns (done: Option<bool>)
      requires name in vms
      modifies this`steps
      ensures done.Some? ==> done.value == (vms[name].state == Running && vms[name].configured)
      ensures steps == old(steps) + [Step(AwaitingCloudInit(name), done == Some(true))]
    {
      var broken: bool := *;
      done := if broken then None else Some(vms[name].state == Running && vms[name].configured);
      Mark(AwaitingCloudInit(name), done == Some(true));
    }

    method GuestHostname(name: string, expected: string) returns (hostname: Option<string>)
      requires name in vms
      modifies this`steps
      ensures hostname.Some? ==> hostname.value == vms[name].hostname
      ensures steps == old(steps) + [Step(CheckingHostname(name, expected), hostname == Some(expected))]
    {
      var broken: bool := *;
      hostname := if broken then None else Some(vms[name].hostname);
      Mark(CheckingHostname(name, expected), hostname == Some(expected));
    }

    method StartVm(name: string) returns (reply: Reply)
      modifies this`vms, this`log, this`calls
      ensures Went(old(vms), old(log), vms, log, name)
      ensures vms == old(vms) || (name in old(vms) && vms == Started(old(vms), name))
      ensures reply.Succeeded? ==> name in vms && vms[name].state == Running
      ensures log == old(log) || log == old(log) + [vms]
      ensures log == old(log) ==> vms == old(vms)
      ensures RanOnce(old(calls), calls, BootHeadless, name, reply)
    {
      reply := *;
      var effective: bool := *;
      WentNowhere(vms, log, name);
      effective := (effective || reply.Succeeded?) && name in vms;
      reply := if name !in vms && reply.Succeeded? then Refused else reply;
      if effective {
        WentStep(vms, log, Started(vms, name), name);
        Put(name, vms[name].(state := Running));
      }
      calls := calls + [Ran(BootHeadless, name, reply, effective)];
    }

    method Take(name: string, snapshot: string) returns (reply: Reply)
      modifies this`vms, this`log, this`calls
      ensures vms == old(vms) || (name in old(vms) && vms == old(vms)[name := Taken(old(vms)[name], snapshot)])
      ensures reply.Succeeded? ==> name in old(vms) && vms == old(vms)[name := Taken(old(vms)[name], snapshot)]
      ensures RanOnce(old(calls), calls, SnapshotTake(snapshot), name, reply)
    {
      reply := *;
      var effective: bool := *;
      effective := (effective || reply.Succeeded?) && name in vms;
      reply := if name !in vms && reply.Succeeded? then Refused else reply;
      if effective {
        Put(name, Taken(vms[name], snapshot));
      }
      calls := calls + [Ran(SnapshotTake(snapshot), name, reply, effective)];
    }

    /** A running machine is not restored. */
    method Restore(name: string, snapshot: string) returns (reply: Reply)
      modifies this`vms, this`log, this`calls
      ensures vms == old(vms) ||
              (name in old(vms) && name in vms && Restores(old(vms)[name], snapshot, vms[name])
               && vms == old(vms)[name := vms[name]])
      ensures reply.Succeeded? ==>
                name in old(vms) && name in vms && Restores(old(vms)[name], snapshot, vms[name])
                && vms == old(vms)[name := vms[name]]
      ensures RanOnce(old(calls), calls, SnapshotRestore(snapshot), name, reply)
    {
      reply := *;
      var effective: bool := *;
      var possible := name in vms && vms[name].state != Running && HasNamed(vms[name], snapshot);
      effective := (effective || reply.Succeeded?) && possible;
      reply := if !possible && reply.Succeeded? then Refused else reply;
      if effective {
        var k: nat :| k < |vms[name].snapshots| && vms[name].snapshots[k].name == snapshot;
        var after := vms[name].(disk := vms[name].snapshots[k].image);
        assert RestoresAt(vms[name], snapshot, k, after);
        assert Restores(vms[name], snapshot, after);
        Put(name, after);
      }
      calls := calls + [Ran(SnapshotRestore(snapshot), name, reply, effective)];
    }

    /** Deleting a snapshot keeps the disk as it is. The status is not checked;
        only a timeout raises. */
    method RemoveSnapshot(name: string, snapshot: string) returns (reply: Reply, ghost effective: bool)
      modifies this`vms, this`log, this`calls
      ensures if effective
              then name in old(vms) && name in vms && Removes(old(vms)[name], snapshot, vms[name])
                   && vms == old(vms)[name := vms[name]]
              else vms == old(vms)
      ensures reply.Succeeded? ==> effective
      ensures calls == old(calls) + [Ran(SnapshotDelete(snapshot), name, reply, effective)]
    {
      reply := *;
      var reached: bool := *;
      var possible := name in vms && HasNamed(vms[name], snapshot);
      reached := (reached || reply.Succeeded?) && possible;
      reply := if !possible && reply.Succeeded? then Refused else reply;
      if reached {
        var k: nat :| k < |vms[name].snapshots| && vms[name].snapshots[k].name == snapshot;
        var after := vms[name].(snapshots := WithoutAt(vms[name].snapshots, k));
        assert RemovesAt(vms[name], snapshot, k, after);
        Put(name, after);
      }
      effective := reached;
      calls := calls + [Ran(SnapshotDelete(snapshot), name, reply, effective)];
    }

    /** A running machine is neither unregistered nor exported. */
    method Unregister(name: string) returns (reply: Reply)
      modifies this`vms, this`log, this`calls
      ensures Went(old(vms), old(log), vms, log, name)
      ensures vms == old(vms) || vms == old(vms) - {name}
      ensures old(log) <= log && forall i :: |old(log)| <= i < |log| ==> log[i] == vms
      ensures RanOnce(old(calls), calls, UnregisterDelete, name, reply)
    {
      reply := *;
      var effective: bool := *;
      effective := effective && name in vms && vms[name].state != Running;
      WentNowhere(vms, log, name);
      if effective {
        WentStep(vms, log, vms - {name}, name);
        vms := vms - {name};
        log := log + [vms];
      }
      calls := calls + [Ran(UnregisterDelete, name, reply, effective)];
    }

    method RunExport(name: string) returns (reply: Reply)
      modifies this`ova, this`calls
      ensures ova == FailedExport || ova == NoFile
              || (name in vms && vms[name].state != Running && ova == Completed(vms[name].disk))
      ensures reply.Succeeded? ==> name in vms && vms[name].state != Running && ova == Completed(vms[name].disk)
      ensures RanOnce(old(calls), calls, ExportOva, name, reply)
    {
      reply := *;
      var written: bool := *;
      var possible := name in vms && vms[name].state != Running;
      reply := if !possible && reply.Succeeded? then Refused else reply;
      ova := if reply.Succeeded? then Completed(vms[name].disk) else if written then FailedExport else NoFile;
      calls := calls + [Ran(ExportOva, name, reply, reply.Succeeded?)];
    }

    // -------------------------------------------------------------------
    // The wrapper's methods
    // -------------------------------------------------------------------

    /** Some time passes, in what has been a run so far. */
    method WaitMore(name: string, ghost start: Vms, ghost from: seq<Vms>)
      requires Drift(start, vms) && Went(start, from, vms, log, name)
      requires from <= log && AllDrift(start, log, |from|)
      modifies this`vms, this`log
      ensures Drift(start, vms) && Went(start, from, vms, log, name)
      ensures from <= log && AllDrift(start, log, |from|)
    {
      ghost var before, past := vms, log;
      Wait();
      DriftsOn(start, before, vms);
      WentStep(before, past, vms, name);
      WentOn(start, from, before, past, vms, log, name);
      AllDriftOn(start, before, past, log, |from|);
    }

    /** Poll until the machine settles, for as long as the time allows; None is a
        timeout of the query, and Some(false) that it never settled. */
    method Poll(name: string) returns (settled: Option<bool>, ghost polls: seq<Call>)
      modifies this`vms, this`log, this`calls
      ensures Went(old(vms), old(log), vms, log, name)
      ensures Drift(old(vms), vms)
      ensures old(log) <= log && AllDrift(old(vms), log, |old(log)|)
      ensures calls == old(calls) + polls
      ensures if settled.Some? && !settled.value then AllRunning(polls, name) else Settles(polls, name, settled.Some?)
      ensures settled.Some? && settled.value ==> HasStopped(polls, vms, name)
    {
      WentNowhere(vms, log, name);
      polls := [];
      var left: nat := *;
      while left > 0
        invariant Drift(old(vms), vms) && Went(old(vms), old(log), vms, log, name)
        invariant old(log) <= log && AllDrift(old(vms), log, |old(log)|)
        invariant calls == old(calls) + polls && AllRunning(polls, name)
        decreases left
      {
        var s := State(name);
        Regroup(old(calls), polls, [ShowInfo(name, s)]);
        if s != Some(Running) {
          SettlesAfter(polls, name, s, vms);
          return if s.None? then None else Some(true), polls + [ShowInfo(name, s)];
        }
        polls := polls + [ShowInfo(name, s)];
        WaitMore(name, old(vms), old(log));
        left := left - 1;
      }
      return Some(false), polls;
    }

    /** Cut the power, wait, and look once more. */
    method Force(name: string) returns (ok: bool, ghost made: seq<Call>)
      modifies this`vms, this`log, this`calls
      ensures Went(old(vms), old(log), vms, log, name)
      ensures Drift(old(vms), vms)
      ensures old(log) <= log && AllDrift(old(vms), log, |old(log)|)
      ensures calls == old(calls) + made && Forces(made, name, ok)
      ensures ok ==> HasStopped(made, vms, name)
    {
      ghost var past := calls;
      var reply := CutPower(name);
      ghost var cut := calls[|past|];
      made := [cut];
      if reply.TimedOut? {
        return false, made;
      }
      ghost var before, logged := vms, log;
      Wait();
      DriftsOn(old(vms), before, vms);
      WentStep(before, logged, vms, name);
      WentOn(old(vms), old(log), before, logged, vms, log, name);
      AllDriftOn(old(vms), before, logged, log, |old(log)|);
      var s := State(name);
      made := [cut, ShowInfo(name, s)];
      return s.Some? && s.value != Running, made;
    }

    /** Press the button, poll until the machine settles, then cut the power.
        False is a raised error. */
    method SettleOff(name: string) returns (ok: bool, ghost made: seq<Call>)
      modifies this`vms, this`log, this`calls
      ensures Went(old(vms), old(log), vms, log, name)
      ensures Drift(old(vms), vms)
      ensures old(log) <= log && AllDrift(old(vms), log, |old(log)|)
      ensures calls == old(calls) + made && PowersOff(made, name, ok)
      ensures ok ==> HasStopped(made, vms, name)
    {
      WentNowhere(vms, log, name);
      ghost var past := calls;
      var s := State(name);
      made := [ShowInfo(name, s)];
      if s != Some(Running) {
        return s.Some?, made;
      }
      var pressed := Run(PressButton, name);
      made := [ShowInfo(name, s), Ran(PressButton, name, pressed, false)];
      assert calls == past + made;
      if pressed.TimedOut? {
        return false, made;
      }
      var settled;
      ghost var polls, forced;
      settled, polls := Poll(name);
      Regroup(past, made, polls);
      if settled.None? || settled.value {
        ButtonThen(made, polls, name, settled.Some?);
        HasStoppedLater(made, polls, vms, name);
        return settled.Some?, made + polls;
      }
      ghost var before, logged := vms, log;
      ok, forced := Force(name);
      DriftsOn(old(vms), before, vms);
      WentOn(old(vms), old(log), before, logged, vms, log, name);
      AllDriftOn(old(vms), before, logged, log, |old(log)|);
      Regroup(past, made + polls, forced);
      PollsThenForces(polls, forced, name, ok);
      Regroup(made, polls, forced);
      ButtonThen(made, polls + forced, name, ok);
      HasStoppedLater(made + polls, forced, vms, name);
      made := made + polls + forced;
    }

    method PowerOff(name: string) returns (ok: bool)
      modifies this`vms, this`log, this`calls, this`steps
      ensures Went(old(vms), old(log), vms, log, name)
      ensures Drift(old(vms), vms)
      ensures old(log) <= log && AllDrift(old(vms), log, |old(log)|)
      ensures old(calls) <= calls && PowersOff(calls[|old(calls)|..], name, ok)
      ensures ok ==> HasStopped(calls, vms, name)
      ensures steps == old(steps) + [Step(PoweringOff(name), ok)]
    {
      ghost var made;
      ok, made := SettleOff(name);
      HasStoppedLater(old(calls), made, vms, name);
      Mark(PoweringOff(name), ok);
    }

    /** False is a raised error. A machine already reported running is left as
        it is. */
    method StartHeadless(name: string) returns (ok: bool)
      modifies this`vms, this`log, this`calls, this`steps
      ensures Went(old(vms), old(log), vms, log, name)
      ensures vms == old(vms) || (name in old(vms) && vms == Started(old(vms), name))
      ensures ok ==> name in vms && vms[name].state == Running
      ensures log == old(log) || log == old(log) + [vms]
      ensures log == old(log) ==> vms == old(vms)
      ensures old(calls) <= calls && Starts(calls[|old(calls)|..], name, ok)
      ensures steps == old(steps) + [Step(Starting(name), ok)]
    {
      WentNowhere(vms, log, name);
      var s := State(name);
      if s.None? || s.value == Running {
        assert calls[|old(calls)|..] == [ShowInfo(name, s)];
        Mark(Starting(name), s.Some?);
        return s.Some?;
      }
      ghost var asked := calls;
      var reply := StartVm(name);
      assert calls[|old(calls)|..] == [ShowInfo(name, s), calls[|asked|]];
      Mark(Starting(name), reply.Succeeded?);
      return reply.Succeeded?;
    }

    /** Delete a snapshot of that name if the listing shows one. The deletion is not
        checked; false is a timeout of either. */
    method RemoveLeftover(name: string, snapshot: string)
      returns (ok: bool, found: Option<bool>, removal: Reply, ghost made: seq<Call>)
      modifies this`vms, this`log, this`calls
      ensures vms == old(vms) || (name in old(vms) && name in vms && Removes(old(vms)[name], snapshot, vms[name])
                                  && vms == old(vms)[name := vms[name]])
      ensures found == Some(true) && removal.Succeeded? ==> name in vms && Removes(old(vms)[name], snapshot, vms[name])
      ensures name in vms && !HasNamed(old(vms)[name], snapshot) ==> vms == old(vms)
      ensures calls == old(calls) + made && Removals(made, name, snapshot, found, removal, ok)
    {
      removal := Refused;
      found := HasSnapshot(name, snapshot);
      made := [ListSnapshots(name, snapshot, found)];
      if found.None? || !found.value {
        return found.Some?, found, removal, made;
      }
      ghost var effective;
      removal, effective := RemoveSnapshot(name, snapshot);
      made := [ListSnapshots(name, snapshot, found), Ran(SnapshotDelete(snapshot), name, removal, effective)];
      return !removal.TimedOut?, found, removal, made;
    }

    /** Take a snapshot, replacing one that the listing shows under that name.
        The removal is not checked. `found` and `removal` are what the listing
        and the removal answered; false is a raised error. */
    method TakeSnapshot(name: string, snapshot: string) returns (ok: bool, found: Option<bool>, removal: Reply)
      modifies this`vms, this`log, this`calls, this`steps
      ensures OnlyThis(old(vms), vms, name)
      ensures name in vms ==> SnapshotsOf(old(vms)[name], vms[name], snapshot)
      ensures ok ==> name in vms && Holds(vms[name], snapshot, vms[name].disk)
      ensures ok && found == Some(true) && removal.Succeeded? && SoleNamed(old(vms)[name], snapshot)
              ==> Unambiguous(vms[name], snapshot, vms[name].disk)
      ensures ok && !HasNamed(old(vms)[name], snapshot) ==> vms[name] == Taken(old(vms)[name], snapshot)
      ensures old(calls) <= calls && Snapshots(calls[|old(calls)|..], name, snapshot, found, removal, ok)
      ensures steps == old(steps) + [Step(TakingSnapshot(name, snapshot), ok)]
    {
      ghost var made;
      ok, found, removal, made := RemoveLeftover(name, snapshot);
      ghost var before, asked := vms, calls;
      if name in vms {
        RemovalKeeps(old(vms)[name], snapshot, vms[name]);
      }
      if !ok {
        assert calls[|old(calls)|..] == made;
        Mark(TakingSnapshot(name, snapshot), false);
        return;
      }
      var reply := Take(name, snapshot);
      OnlyThisOne(old(vms), before, vms, name);
      if name in vms {
        TakingKeeps(old(vms)[name], before[name], snapshot);
      }
      LaterPart(asked, calls, |old(calls)|);
      assert calls[|old(calls)|..] == made + [calls[|asked|]];
      ok := reply.Succeeded?;
      Mark(TakingSnapshot(name, snapshot), ok);
    }

    /** False is a raised error. */
    method RestoreSnapshot(name: string, snapshot: string) returns (ok: bool)
      modifies this`vms, this`log, this`calls, this`steps
      ensures vms == old(vms) ||
              (name in old(vms) && name in vms && Restores(old(vms)[name], snapshot, vms[name])
               && vms == old(vms)[name := vms[name]])
      ensures ok ==> name in old(vms) && name in vms && Restores(old(vms)[name], snapshot, vms[name])
      ensures old(calls) <= calls && AsksThenRuns(calls[|old(calls)|..], name, SnapshotRestore(snapshot), ok)
      ensures steps == old(steps) + [Step(RestoringSnapshot(name, snapshot), ok)]
    {
      var s := State(name);
      if s.None? || s.value == Running {
        assert calls[|old(calls)|..] == [ShowInfo(name, s)];
        Mark(RestoringSnapshot(name, snapshot), false);
        return false;
      }
      ghost var asked := calls;
      var reply := Restore(name, snapshot);
      assert calls[|old(calls)|..] == [ShowInfo(name, s), calls[|asked|]];
      Mark(RestoringSnapshot(name, snapshot), reply.Succeeded?);
      return reply.Succeeded?;
    }

    /** False is a raised error, which only a timeout is. */
    method DeleteSnapshot(name: string, snapshot: string) returns (ok: bool, ghost effective: bool)
      modifies this`vms, this`log, this`calls, this`steps
      ensures if effective
              then name in old(vms) && name in vms && Removes(old(vms)[name], snapshot, vms[name])
                   && vms == old(vms)[name := vms[name]]
              else vms == old(vms)
      ensures |calls| == |old(calls)| + 1 && old(calls) <= calls
              && var call := calls[|old(calls)|];
              && IsRun(call, SnapshotDelete(snapshot), name) && call.effective == effective
              && (ok <==> !call.reply.TimedOut?) && (call.reply.Succeeded? ==> effective)
      ensures steps == old(steps) + [Step(DeletingSnapshot(name, snapshot), ok)]
    {
      var reply;
      reply, effective := RemoveSnapshot(name, snapshot);
      Mark(DeletingSnapshot(name, snapshot), !reply.TimedOut?);
      return !reply.TimedOut?, effective;
    }

    /** Refuse a running machine, remove what is at the path, then export. False
        is a raised error. */
    method ExportAppliance(name: string) returns (ok: bool)
      modifies this`ova, this`calls, this`steps
      ensures ova in {old(ova), NoFile, FailedExport} || (name in vms && ova == Completed(vms[name].disk))
      ensures ok ==> name in vms && vms[name].state != Running && ova == Completed(vms[name].disk)
      ensures old(calls) <= calls && Exports(calls[|old(calls)|..], name, old(ova).NoFile?, ok)
      ensures steps == old(steps) + [Step(Exporting(name), ok)]
    {
      var s := State(name);
      ghost var made := [ShowInfo(name, s)];
      if s.None? || s.value == Running {
        assert calls[|old(calls)|..] == made;
        Mark(Exporting(name), false);
        return false;
      }
      if !ova.NoFile? {
        var unlinked: bool := *;
        calls := calls + [UnlinkOva(unlinked)];
        made := made + [UnlinkOva(unlinked)];
        if !unlinked {
          assert calls[|old(calls)|..] == made;
          Mark(Exporting(name), false);
          return false;
        }
        ova := NoFile;
      }
      ghost var asked := calls;
      assert asked == old(calls) + made;
      var reply := RunExport(name);
      assert calls[|old(calls)|..] == made + [calls[|asked|]];
      Mark(Exporting(name), reply.Succeeded?);
      return reply.Succeeded?;
    }

    /** One attempt and a look at what came of it, in what has been a run so far.
        None is a machine still registered, Some(false) a raised error. */
    method DeleteOnce(name: string, ghost start: Vms, ghost from: seq<Vms>)
      returns (ending: Option<bool>, ghost made: seq<Call>)
      requires DriftOrGone(start, vms, name) && Went(start, from, vms, log, name)
      requires from <= log && AllDriftOrGone(start, log, |from|, name)
      modifies this`vms, this`log, this`calls
      ensures DriftOrGone(start, vms, name) && Went(start, from, vms, log, name)
      ensures from <= log && AllDriftOrGone(start, log, |from|, name)
      ensures ending == Some(true) ==> name !in vms
      ensures calls == old(calls) + made
      ensures if ending.Some? then LastAttempt(made, name, ending.value) else StillThere(made, name, 1)
    {
      ghost var before, logged := vms, log;
      var reply := Unregister(name);
      WentOn(start, from, before, logged, vms, log, name);
      UnregisterDrifts(start, before, vms, name);
      AllDriftOrGoneOn(start, logged, vms, log, |from|, name);
      made := [calls[|old(calls)|]];
      if reply.TimedOut? {
        return Some(false), made;
      }
      var registered := Exists(name);
      made := made + [ListVms(name, registered)];
      ending := if registered == Some(true) then None else Some(registered.Some?);
    }

    /** Try to delete up to `attempts` times, checking after each. */
    method TryDelete(name: string, attempts: nat) returns (ok: bool, ghost made: seq<Call>)
      modifies this`vms, this`log, this`calls
      ensures Went(old(vms), old(log), vms, log, name)
      ensures ok ==> name !in vms
      ensures DriftOrGone(old(vms), vms, name)
      ensures old(log) <= log && AllDriftOrGone(old(vms), log, |old(log)|, name)
      ensures calls == old(calls) + made && Deletes(made, name, attempts, ok)
    {
      WentNowhere(vms, log, name);
      made := [];
      var attempt := 0;
      while attempt < attempts
        invariant attempt <= attempts
        invariant DriftOrGone(old(vms), vms, name)
        invariant old(log) <= log && Went(old(vms), old(log), vms, log, name)
        invariant AllDriftOrGone(old(vms), log, |old(log)|, name)
        invariant calls == old(calls) + made && StillThere(made, name, attempt)
        decreases attempts - attempt
      {
        var ending;
        ghost var one;
        ending, one := DeleteOnce(name, old(vms), old(log));
        Regroup(old(calls), made, one);
        if ending.Some? {
          DeletesOn(made, one, name, attempt, attempts, ending.value);
          return ending.value, made + one;
        }
        StaysThere(made, one, name, attempt);
        made := made + one;
        attempt := attempt + 1;
      }
      DeletesOn(made, [], name, attempts, attempts, false);
      assert made + [] == made;
      return false, made;
    }

    /** Delete up to `attempts` times, checking after each; a machine that is
        still registered in the end raises. */
    method Destroy(name: string, attempts: nat) returns (ok: bool)
      modifies this`vms, this`log, this`calls, this`steps
      ensures Went(old(vms), old(log), vms, log, name)
      ensures ok ==> name !in vms
      ensures DriftOrGone(old(vms), vms, name)
      ensures old(log) <= log && AllDriftOrGone(old(vms), log, |old(log)|, name)
      ensures old(calls) <= calls && Destroys(calls[|old(calls)|..], name, attempts, ok)
      ensures steps == old(steps) + [Step(Destroying(name), ok)]
    {
      WentNowhere(vms, log, name);
      ghost var past := calls;
      var registered := Exists(name);
      if registered != Some(true) {
        assert calls[|past|..] == [ListVms(name, registered)];
        Mark(Destroying(name), registered.Some?);
        return registered.Some?;
      }
      ghost var off, deleting, made;
      ok, off := SettleOff(name);
      made := [ListVms(name, registered)] + off;
      Regroup(past, [ListVms(name, registered)], off);
      if !ok {
        StuckRunning(off, name, attempts);
        assert calls[|past|..] == made;
        Mark(Destroying(name), false);
        return false;
      }
      ghost var before, logged := vms, log;
      ok, deleting := TryDelete(name, attempts);
      WentOn(old(vms), old(log), before, logged, vms, log, name);
      GoneSince(old(vms), before, vms, logged, log, |old(log)|, name);
      OffThenDeletes(off, deleting, name, attempts, ok);
      Regroup(past, made, deleting);
      assert calls[|past|..] == made + deleting;
      Mark(Destroying(name), ok);
    }
  }

  lemma DriftsOn(a: Vms, b: Vms, c: Vms)
    requires Drift(a, b) && Drift(b, c)
    ensures Drift(a, c)
  {
    forall k | k in a ensures DriftsTo(a[k], c[k]) {
      DriftsTransitively(a[k], b[k], c[k]);
    }
  }

  lemma UnregisterDrifts(start: Vms, before: Vms, after: Vms, name: string)
    requires DriftOrGone(start, before, name)
    requires after == before || after == before - {name}
    ensures DriftOrGone(start, after, name)
  {
    if after != before && name in before {
      assert name in start;
      assert after.Keys == before.Keys - {name};
      assert (start - {name}).Keys == start.Keys - {name};
    }
  }
}
