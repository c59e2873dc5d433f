/** Building the golden image: snapshot the template, bake it, strip it, arm
    it, export it, and roll it back whatever happens. */
module GoldenImage {
  import opened Basics
  import opened VirtualBox

  const PREBAKE := "vmdeploy-prebake"

  const CLOUD := "/etc/cloud/"
  const CONFIGS := CLOUD + "cloud.cfg.d/"
  const FLAG := CLOUD + "cloud-init.disabled"
  const INSTALLER := CONFIGS + "99-installer.cfg"
  const DATASOURCE := CONFIGS + "99-vmdeploy-nocloud.cfg"
  const NETWORK := CONFIGS + "99-vmdeploy-network.cfg"

  /** The settings of the two drop-ins, below their comment lines. */
  const DATASOURCE_BODY := "datasource_list: [ NoCloud, None ]\n"
  const NETWORK_BODY := "network: {config: disabled}\n"

  // ---------------------------------------------------------------------
  // What may be published
  // ---------------------------------------------------------------------

  predicate EndsWith(path: string, tail: string)
  {
    |tail| <= |path| && path[|path| - |tail|..] == tail
  }

  predicate OccursAt(text: string, word: string, i: nat)
  {
    i + |word| <= |text| && text[i..i + |word|] == word
  }

  predicate Contains(text: string, word: string)
  {
    exists i :: 0 <= i < |text| && OccursAt(text, word, i)
  }

  predicate IsAuthorizedKeys(path: string)
  {
    ("/root/" <= path || "/home/" <= path) && EndsWith(path, "/authorized_keys")
  }

  ghost predicate NoLogin(disk: Image)
  {
    forall path :: path in disk ==> !IsAuthorizedKeys(path)
  }

  predicate Armed(disk: Image)
  {
    && FLAG !in disk && INSTALLER !in disk
    && DATASOURCE in disk && Contains(disk[DATASOURCE], "NoCloud")
    && NETWORK in disk && Contains(disk[NETWORK], "disabled")
  }

  ghost predicate Publishable(disk: Image)
  {
    NoLogin(disk) && Armed(disk)
  }

  /** Files whose presence or contents decide whether an image may ship. */
  predicate Watched(path: string)
  {
    IsAuthorizedKeys(path) || path in {FLAG, INSTALLER, DATASOURCE, NETWORK}
  }

  ghost predicate GrantsNoLogin(a: Image, b: Image)
  {
    NoLogin(a) ==> NoLogin(b)
  }

  /** What a cleaning command may do, successful or not: watched files stay or
      go, and any other file may change. */
  ghost predicate Strips(a: Image, b: Image)
  {
    forall path :: path in b && Watched(path) ==> path in a && b[path] == a[path]
  }

  lemma PathsDiffer()
    ensures DATASOURCE != NETWORK && FLAG !in {DATASOURCE, NETWORK} && INSTALLER !in {DATASOURCE, NETWORK}
  {
    assert DATASOURCE[|CONFIGS|..] == "99-vmdeploy-nocloud.cfg";
    assert NETWORK[|CONFIGS|..] == "99-vmdeploy-network.cfg";
    assert "99-vmdeploy-nocloud.cfg"[13] != "99-vmdeploy-network.cfg"[13];
    assert |INSTALLER| < |DATASOURCE| == |NETWORK|;
    assert |FLAG| < |DATASOURCE|;
  }

  /** The drop-ins written pass the checks made of them. */
  lemma DropInsPassTheirChecks(disk: Image)
    requires FLAG !in disk && INSTALLER !in disk
    ensures Armed(disk[DATASOURCE := DATASOURCE_BODY][NETWORK := NETWORK_BODY])
  {
    assert OccursAt(DATASOURCE_BODY, "NoCloud", 19);
    assert OccursAt(NETWORK_BODY, "disabled", 18);
    PathsDiffer();
  }

  // ---------------------------------------------------------------------
  // What a build leaves alone
  // ---------------------------------------------------------------------

  /** The same machines are registered; this one has its snapshots, and the
      others have only drifted. */
  ghost predicate Kept(a: Vms, b: Vms, name: string)
  {
    && a.Keys == b.Keys && Elsewhere(a, b, name)
    && (name in a ==> b[name].snapshots == a[name].snapshots)
  }

  lemma KeptOn(a: Vms, b: Vms, c: Vms, name: string)
    requires Kept(a, b, name) && Kept(b, c, name)
    ensures Kept(a, c, name)
  {
    ElsewhereOn(a, b, c, name);
  }

  lemma OnlyDiskKeeps(a: Vms, b: Vms, name: string)
    requires OnlyDisk(a, b, name)
    ensures Kept(a, b, name)
  {
  }

  lemma DriftKeeps(a: Vms, b: Vms, name: string)
    requires Drift(a, b)
    ensures Kept(a, b, name)
  {
  }

  lemma OnlyDiskOn(a: Vms, b: Vms, c: Vms, name: string)
    requires OnlyDisk(a, b, name) && OnlyDisk(b, c, name)
    ensures OnlyDisk(a, c, name)
  {
  }

  /** A guest command changes the disk of its own machine and nothing else. */
  ghost predicate OnlyDisk(a: Vms, b: Vms, name: string)
  {
    name in a && name in b && b == a[name := a[name].(disk := b[name].disk)]
  }

  // ---------------------------------------------------------------------
  // A session on the guest
  // ---------------------------------------------------------------------

  /** What is run on the guest. The exit status is looked at only where a file is
      removed, staged or installed. */
  datatype Command =
    | PurgeCredentials | LockAccounts | PurgeTooling | Autoremove | DropContainerData
    | DropDockerGroup | CleanPackages | LookForTooling | FindKeys
    | RemoveOptOuts | CloudInitClean | InstallFile(path: string, body: string) | DropStaged(path: string) | CheckArmed

  ghost function SanitizingPlan(): seq<Command>
  {
    [PurgeCredentials, LockAccounts, PurgeTooling, Autoremove, DropContainerData, DropDockerGroup, CleanPackages,
     LookForTooling, FindKeys]
  }

  /** The first of the two drop-ins, or both. */
  ghost function DropInPlan(count: nat): seq<Command>
    requires count <= 2
  {
    if count == 0 then []
    else if count == 1 then [InstallFile(DATASOURCE, DATASOURCE_BODY), DropStaged(DATASOURCE)]
    else [InstallFile(DATASOURCE, DATASOURCE_BODY), DropStaged(DATASOURCE),
          InstallFile(NETWORK, NETWORK_BODY), DropStaged(NETWORK)]
  }

  ghost function ArmingPlan(): seq<Command>
  {
    [RemoveOptOuts, CloudInitClean, InstallFile(DATASOURCE, DATASOURCE_BODY), DropStaged(DATASOURCE),
     InstallFile(NETWORK, NETWORK_BODY), DropStaged(NETWORK), CheckArmed]
  }

  class RemoteHost {
    const host: Host
    const name: string
    ghost var commands: seq<Step<Command>>

    constructor (host: Host, name: string)
      ensures this.host == host && this.name == name && commands == []
    {
      this.host := host;
      this.name := name;
      commands := [];
    }

    function Disk(): Image
      requires name in host.vms
      reads host
    {
      host.vms[name].disk
    }

    method Put(disk: Image)
      requires name in host.vms
      modifies host`vms, host`log
      ensures OnlyDisk(old(host.vms), host.vms, name) && Disk() == disk
    {
      host.Put(name, host.vms[name].(disk := disk));
    }

    /** Installing the service and its dependencies may change anything. */
    method PrepareTemplate() returns (ok: bool)
      requires name in host.vms
      modifies host`vms, host`log
      ensures OnlyDisk(old(host.vms), host.vms, name)
    {
      var disk: Image := *;
      Put(disk);
      ok := *;
    }

    /** Whether the command did its work is not looked at; false is a broken
        session. */
    method Run(command: Command) returns (ok: bool)
      requires name in host.vms
      modifies this`commands, host`vms, host`log
      ensures OnlyDisk(old(host.vms), host.vms, name) && Strips(old(Disk()), Disk())
      ensures commands == old(commands) + [Step(command, ok)]
    {
      var surviving: set<string> := *;
      var others: Image := *;
      var disk := Disk();
      Put((map path | path in others && !Watched(path) :: others[path])
          + map path | path in disk && Watched(path) && path in surviving :: disk[path]);
      ok := *;
      commands := commands + [Step(command, ok)];
    }

    /** A look that decides nothing. */
    method Look() returns (ok: bool)
      modifies this`commands
      ensures commands == old(commands) + [Step(LookForTooling, ok)]
    {
      ok := *;
      commands := commands + [Step(LookForTooling, ok)];
    }

    /** Checked: true means that both opt-outs are gone. */
    method RemoveInstallerOptOuts() returns (ok: bool)
      requires name in host.vms
      modifies this`commands, host`vms, host`log
      ensures OnlyDisk(old(host.vms), host.vms, name) && Strips(old(Disk()), Disk())
      ensures ok ==> FLAG !in Disk() && INSTALLER !in Disk()
      ensures commands == old(commands) + [Step(RemoveOptOuts, ok)]
    {
      var removed: set<string> := *;
      ok := removed == {FLAG, INSTALLER};
      Put(Disk() - removed * {FLAG, INSTALLER});
      commands := commands + [Step(RemoveOptOuts, ok)];
    }

    /** Stage a file and install it: checked, so true means it is in place. The
        only watched file touched is the one installed. */
    method Install(path: string, body: string) returns (ok: bool)
      requires name in host.vms
      modifies this`commands, host`vms, host`log
      ensures OnlyDisk(old(host.vms), host.vms, name)
      ensures Strips(old(Disk()), Disk() - {path})
      ensures ok ==> path in Disk() && Disk()[path] == body
      ensures commands == old(commands) + [Step(InstallFile(path, body), ok)]
    {
      var partial: Option<string> := *;
      var disk := Disk();
      ok := partial == Some(body);
      if partial.Some? {
        Put(disk[path := partial.value]);
      }
      commands := commands + [Step(InstallFile(path, body), ok)];
    }

    /** Reads are truthful; None is a broken session. */
    method VerifyNoAuthorizedKeys() returns (clean: Option<bool>)
      requires name in host.vms
      modifies this`commands
      ensures clean.Some? ==> clean.value == NoLogin(Disk())
      ensures commands == old(commands) + [Step(FindKeys, clean == Some(true))]
    {
      var broken: bool := *;
      var disk := Disk();
      var survivors := set path | path in disk && IsAuthorizedKeys(path);
      if survivors == {} {
        forall path | path in disk ensures !IsAuthorizedKeys(path) {
          assert path !in survivors;
        }
      }
      clean := if broken then None else Some(survivors == {});
      commands := commands + [Step(FindKeys, clean == Some(true))];
    }

    method VerifyCloudInitArmed() returns (armed: Option<bool>)
      requires name in host.vms
      modifies this`commands
      ensures armed.Some? ==> armed.value == Armed(Disk())
      ensures commands == old(commands) + [Step(CheckArmed, armed == Some(true))]
    {
      var broken: bool := *;
      var disk := Disk();
      var datasource := if DATASOURCE in disk then disk[DATASOURCE] else "";
      var network := if NETWORK in disk then disk[NETWORK] else "";
      armed := if broken then None
               else if FLAG in disk || INSTALLER in disk then Some(false)
               else if !Contains(datasource, "NoCloud") then Some(false)
               else Some(Contains(network, "disabled"));
      commands := commands + [Step(CheckArmed, armed == Some(true))];
    }

    /** False is a raised error: a broken session, or a key that was found. */
    method SanitizeImage() returns (ok: bool)
      requires name in host.vms
      modifies this`commands, host`vms, host`log
      ensures OnlyDisk(old(host.vms), host.vms, name) && Strips(old(Disk()), Disk())
      ensures ok ==> NoLogin(Disk())
      ensures old(commands) <= commands
      ensures InOrder(commands[|old(commands)|..], SanitizingPlan(), ok)
    {
      ghost var past, taken := commands, [];
      ok, taken := Purge();
      if ok {
        ok := Look();
        taken := TakeStep(past, taken, SanitizingPlan(), ok);
      }
      assert commands[|past|..] == taken;
      if !ok {
        return false;
      }
      var clean := VerifyNoAuthorizedKeys();
      taken := TakeStep(past, taken, SanitizingPlan(), clean == Some(true));
      assert commands[|past|..] == taken;
      return clean == Some(true);
    }

    /** The seven commands whose status is ignored. */
    method Purge() returns (ok: bool, ghost taken: seq<Step<Command>>)
      requires name in host.vms
      modifies this`commands, host`vms, host`log
      ensures OnlyDisk(old(host.vms), host.vms, name) && Strips(old(Disk()), Disk())
      ensures commands == old(commands) + taken
      ensures ok ==> |taken| == 7 && InOrder(taken, SanitizingPlan()[..7], true)
      ensures !ok ==> InOrder(taken, SanitizingPlan(), false)
    {
      var list := [PurgeCredentials, LockAccounts, PurgeTooling, Autoremove,
                   DropContainerData, DropDockerGroup, CleanPackages];
      taken := [];
      ok := true;
      for i := 0 to |list|
        invariant OnlyDisk(old(host.vms), host.vms, name) && Strips(old(Disk()), Disk())
        invariant commands == old(commands) + taken && |taken| == i && InOrder(taken, SanitizingPlan()[..i], true)
        invariant ok
      {
        assert list[i] == SanitizingPlan()[i];
        ok := Run(list[i]);
        taken := TakeStep(old(commands), taken, SanitizingPlan(), ok);
        if !ok {
          return;
        }
      }
    }

    /** Remove the opt-outs, forget the instance, and only then write the
        drop-ins. False is a raised error. */
    method ArmCloudInit() returns (ok: bool)
      requires name in host.vms
      modifies this`commands, host`vms, host`log
      ensures OnlyDisk(old(host.vms), host.vms, name)
      ensures GrantsNoLogin(old(Disk()), Disk())
      ensures ok ==> Armed(Disk())
      ensures old(commands) <= commands
      ensures InOrder(commands[|old(commands)|..], ArmingPlan(), ok)
    {
      ghost var past, taken, forgetting := commands, [], [];
      ok, forgetting := ForgetInstaller();
      taken := forgetting;
      assert commands[|past|..] == taken;
      if !ok {
        NoFurther(taken, [RemoveOptOuts, CloudInitClean], ArmingPlan()[2..]);
        assert [RemoveOptOuts, CloudInitClean] + ArmingPlan()[2..] == ArmingPlan();
        return false;
      }
      ghost var installing;
      ok, installing := InstallDropIns();
      Regroup(past, forgetting, installing);
      ArmingSoFar(forgetting, installing, ok);
      taken := forgetting + installing;
      assert commands[|past|..] == taken;
      if !ok {
        return false;
      }
      var armed := VerifyCloudInitArmed();
      taken := TakeStep(past, taken, ArmingPlan(), armed == Some(true));
      assert commands[|past|..] == taken;
      return armed == Some(true);
    }

    method ForgetInstaller() returns (ok: bool, ghost taken: seq<Step<Command>>)
      requires name in host.vms
      modifies this`commands, host`vms, host`log
      ensures OnlyDisk(old(host.vms), host.vms, name) && GrantsNoLogin(old(Disk()), Disk())
      ensures commands == old(commands) + taken && InOrder(taken, [RemoveOptOuts, CloudInitClean], ok)
    {
      ghost var past := commands;
      ok := RemoveInstallerOptOuts();
      taken := TakeStep(past, [], [RemoveOptOuts, CloudInitClean], ok);
      if ok {
        ok := Run(CloudInitClean);
        taken := TakeStep(past, taken, [RemoveOptOuts, CloudInitClean], ok);
      }
    }

    method InstallDropIns() returns (ok: bool, ghost taken: seq<Step<Command>>)
      requires name in host.vms
      modifies this`commands, host`vms, host`log
      ensures OnlyDisk(old(host.vms), host.vms, name) && GrantsNoLogin(old(Disk()), Disk())
      ensures commands == old(commands) + taken && InOrder(taken, DropInPlan(2), ok)
    {
      var dropIns := [(DATASOURCE, DATASOURCE_BODY), (NETWORK, NETWORK_BODY)];
      taken := [];
      for i := 0 to 2
        invariant OnlyDisk(old(host.vms), host.vms, name) && GrantsNoLogin(old(Disk()), Disk())
        invariant commands == old(commands) + taken && InOrder(taken, DropInPlan(i), true)
      {
        ghost var before := host.vms;
        ghost var one;
        ok, one := InstallDropIn(dropIns[i].0, dropIns[i].1);
        OnlyDiskOn(old(host.vms), before, host.vms, name);
        Regroup(old(commands), taken, one);
        NextSteps(taken, DropInPlan(i), one, [InstallFile(dropIns[i].0, dropIns[i].1), DropStaged(dropIns[i].0)], ok);
        taken := taken + one;
        if !ok {
          DropInsBreakOff(taken, i);
          return false, taken;
        }
      }
      return true, taken;
    }

    method InstallDropIn(path: string, body: string) returns (ok: bool, ghost taken: seq<Step<Command>>)
      requires name in host.vms && path in {DATASOURCE, NETWORK}
      modifies this`commands, host`vms, host`log
      ensures OnlyDisk(old(host.vms), host.vms, name) && GrantsNoLogin(old(Disk()), Disk())
      ensures commands == old(commands) + taken && InOrder(taken, [InstallFile(path, body), DropStaged(path)], ok)
    {
      ghost var before, past := Disk(), commands;
      ok := Install(path, body);
      taken := TakeStep(past, [], [InstallFile(path, body), DropStaged(path)], ok);
      InstallingGrantsNoLogin(before, Disk(), path);
      if ok {
        ok := Run(DropStaged(path));
        taken := TakeStep(past, taken, [InstallFile(path, body), DropStaged(path)], ok);
      }
    }
  }

  lemma DropInsBreakOff(taken: seq<Step<Command>>, i: nat)
    requires i < 2 && InOrder(taken, DropInPlan(i + 1), false)
    ensures InOrder(taken, DropInPlan(2), false)
  {
    if i == 0 {
      NoFurther(taken, DropInPlan(1), DropInPlan(2)[2..]);
      assert DropInPlan(1) + DropInPlan(2)[2..] == DropInPlan(2);
    }
  }

  lemma ArmingSoFar(forgetting: seq<Step<Command>>, installing: seq<Step<Command>>, ok: bool)
    requires InOrder(forgetting, [RemoveOptOuts, CloudInitClean], true) && InOrder(installing, DropInPlan(2), ok)
    ensures ok ==> |forgetting + installing| == 6 && InOrder(forgetting + installing, ArmingPlan()[..6], true)
    ensures !ok ==> InOrder(forgetting + installing, ArmingPlan(), false)
  {
    var so := [RemoveOptOuts, CloudInitClean] + DropInPlan(2);
    assert ArmingPlan()[..6] == so && so + [CheckArmed] == ArmingPlan();
    NextSteps(forgetting, [RemoveOptOuts, CloudInitClean], installing, DropInPlan(2), ok);
    if !ok {
      NoFurther(forgetting + installing, so, [CheckArmed]);
    }
  }

  lemma InstallingGrantsNoLogin(a: Image, b: Image, path: string)
    requires Strips(a, b - {path}) && path in {DATASOURCE, NETWORK}
    ensures GrantsNoLogin(a, b)
  {
    DropInsGrantNoLogin();
    forall p | p in b && IsAuthorizedKeys(p) ensures p in a {
      assert p in b - {path};
    }
  }

  lemma DropInsGrantNoLogin()
    ensures !IsAuthorizedKeys(DATASOURCE) && !IsAuthorizedKeys(NETWORK)
  {
    assert CLOUD[1] == 'e';
    assert DATASOURCE[1] == 'e' && NETWORK[1] == 'e';
    assert "/root/"[1] != 'e' && "/home/"[1] != 'e';
  }

  // ---------------------------------------------------------------------
  // The build
  // ---------------------------------------------------------------------

  ghost predicate Others(a: Vms, b: Vms, name: string)
  {
    a.Keys == b.Keys && Elsewhere(a, b, name)
  }

  lemma OthersOn(a: Vms, b: Vms, c: Vms, name: string)
    requires Others(a, b, name) && Others(b, c, name)
    ensures Others(a, c, name)
  {
    ElsewhereOn(a, b, c, name);
  }

  lemma OthersSame(a: Vms, b: Vms, name: string)
    requires OnlyThis(a, b, name)
    ensures Others(a, b, name)
  {
  }

  lemma OneChanged(a: Vms, b: Vms, name: string)
    requires b == a || (name in a && name in b && b == a[name := b[name]])
    ensures Others(a, b, name)
  {
  }

  /** Rolling back can only bring the present disk back. */
  predicate Settled(vm: Vm)
  {
    Unambiguous(vm, PREBAKE, vm.disk)
  }

  /** The disk is in place, or can still be restored. */
  predicate Recoverable(vm: Vm, disk: Image)
  {
    vm.disk == disk || Holds(vm, PREBAKE, disk)
  }

  /** A stage of the build inside the guest has ended. */
  method PrepareImage(host: Host, template: string) returns (ok: bool, ghost taken: seq<Step<Op>>)
    requires template in host.vms
    modifies host`vms, host`log, host`steps
    ensures OnlyDisk(old(host.vms), host.vms, template)
    ensures ok ==> Publishable(host.vms[template].disk)
    ensures host.steps == old(host.steps) + taken
    ensures InOrder(taken, [Preparing(template), Sanitizing(template), Arming(template)], ok)
  {
    ghost var past, plan := host.steps, [Preparing(template), Sanitizing(template), Arming(template)];
    var guest := new RemoteHost(host, template);
    ok := guest.PrepareTemplate();
    host.Mark(Preparing(template), ok);
    taken := TakeStep(past, [], plan, ok);
    if !ok {
      return;
    }
    ghost var baked := host.vms;
    ok := guest.SanitizeImage();
    host.Mark(Sanitizing(template), ok);
    taken := TakeStep(past, taken, plan, ok);
    OnlyDiskOn(old(host.vms), baked, host.vms, template);
    if !ok {
      return;
    }
    ghost var stripped := host.vms;
    ok := guest.ArmCloudInit();
    host.Mark(Arming(template), ok);
    taken := TakeStep(past, taken, plan, ok);
    OnlyDiskOn(old(host.vms), stripped, host.vms, template);
  }

  /** Start the template and wait for it. */
  method Reach(host: Host, template: string) returns (ok: bool, ghost taken: seq<Step<Op>>)
    requires template in host.vms
    modifies host`vms, host`log, host`calls, host`steps
    ensures Kept(old(host.vms), host.vms, template)
    ensures host.steps == old(host.steps) + taken
    ensures InOrder(taken, [Starting(template), AwaitingGuest(template)], ok)
  {
    ghost var past, plan := host.steps, [Starting(template), AwaitingGuest(template)];
    ok := host.StartHeadless(template);
    taken := TakeStep(past, [], plan, ok);
    if !ok {
      return;
    }
    ghost var started := host.vms;
    var address := host.AwaitGuest(template);
    taken := TakeStep(past, taken, plan, address.Some?);
    DriftKeeps(started, host.vms, template);
    KeptOn(old(host.vms), started, host.vms, template);
    ok := address.Some?;
  }

  /** The plan of the guarded part. */
  ghost function GuardedPlan(template: string): seq<Op>
  {
    [Starting(template), AwaitingGuest(template), Preparing(template), Sanitizing(template), Arming(template),
     PoweringOff(template), Exporting(template)]
  }

  /** The guarded part up to the export: start, bake, strip, arm, stop. Any wait
      may give up; false is a raised error. */
  method Bake(host: Host, template: string) returns (ok: bool, ghost taken: seq<Step<Op>>)
    requires template in host.vms
    modifies host`vms, host`log, host`calls, host`steps
    ensures Kept(old(host.vms), host.vms, template)
    ensures ok ==> Publishable(host.vms[template].disk)
    ensures host.steps == old(host.steps) + taken
    ensures ok ==> |taken| == 6 && InOrder(taken, GuardedPlan(template)[..6], true)
    ensures !ok ==> InOrder(taken, GuardedPlan(template), false)
  {
    ghost var past, reaching, preparing := host.steps, [], [];
    ok, reaching := Reach(host, template);
    taken := reaching;
    if !ok {
      BreaksOff(reaching, GuardedPlan(template), 2);
      return;
    }
    ghost var reached := host.vms;
    ok, preparing := PrepareImage(host, template);
    OnlyDiskKeeps(reached, host.vms, template);
    KeptOn(old(host.vms), reached, host.vms, template);
    Regroup(past, reaching, preparing);
    ReachedThenPrepared(reaching, preparing, template, ok);
    taken := reaching + preparing;
    if !ok {
      return;
    }
    ghost var ready := host.vms;
    ok := host.PowerOff(template);
    taken := TakeStep(past, taken, GuardedPlan(template), ok);
    DriftKeeps(ready, host.vms, template);
    KeptOn(old(host.vms), ready, host.vms, template);
  }

  /** A part of a plan that breaks off breaks off the whole plan. */
  lemma BreaksOff(taken: seq<Step<Op>>, plan: seq<Op>, n: nat)
    requires n <= |plan| && InOrder(taken, plan[..n], false)
    ensures InOrder(taken, plan, false)
  {
    NoFurther(taken, plan[..n], plan[n..]);
    assert plan[..n] + plan[n..] == plan;
  }

  lemma ReachedThenPrepared(reaching: seq<Step<Op>>, preparing: seq<Step<Op>>, template: string, ok: bool)
    requires InOrder(reaching, [Starting(template), AwaitingGuest(template)], true)
    requires InOrder(preparing, [Preparing(template), Sanitizing(template), Arming(template)], ok)
    ensures ok ==> |reaching + preparing| == 5 && InOrder(reaching + preparing, GuardedPlan(template)[..5], true)
    ensures !ok ==> InOrder(reaching + preparing, GuardedPlan(template), false)
  {
    var plan := GuardedPlan(template);
    assert plan[..5] == [Starting(template), AwaitingGuest(template)]
                        + [Preparing(template), Sanitizing(template), Arming(template)];
    NextSteps(reaching, [Starting(template), AwaitingGuest(template)], preparing,
              [Preparing(template), Sanitizing(template), Arming(template)], ok);
    if !ok {
      BreaksOff(reaching + preparing, plan, 5);
    }
  }

  /** The whole guarded part. */
  method BakeAndExport(host: Host, template: string) returns (ok: bool, ghost taken: seq<Step<Op>>)
    requires template in host.vms
    modifies host`vms, host`log, host`ova, host`calls, host`steps
    ensures Kept(old(host.vms), host.vms, template)
    ensures host.ova in {old(host.ova), NoFile, FailedExport}
            || (host.ova.Completed? && Publishable(host.ova.image))
    ensures ok ==> host.ova.Completed? && Publishable(host.ova.image)
    ensures host.steps == old(host.steps) + taken && InOrder(taken, GuardedPlan(template), ok)
  {
    ghost var past := host.steps;
    ok, taken := Bake(host, template);
    if ok {
      ok := host.ExportAppliance(template);
      taken := TakeStep(past, taken, GuardedPlan(template), ok);
    }
  }

  ghost function RollbackPlan(template: string): seq<Op>
  {
    [PoweringOff(template), RestoringSnapshot(template, PREBAKE), DeletingSnapshot(template, PREBAKE)]
  }

  /** What the last call, a deletion of the snapshot, did to the list of them: one
      of that name is gone if it was carried out. */
  ghost predicate Cleared(before: seq<Snapshot>, after: seq<Snapshot>, call: Call, template: string)
  {
    && IsRun(call, SnapshotDelete(PREBAKE), template)
    && if call.effective
       then exists k: nat :: k < |before| && before[k].name == PREBAKE && after == WithoutAt(before, k)
       else after == before
  }

  /** The `finally` part: stop, restore, delete the snapshot. False is an error
      raised from within it. One that completes has had the deletion run, and
      where that was carried out the template has one snapshot of the name
      fewer. */
  method RollBack(host: Host, template: string, ghost disk: Image) returns (ok: bool, ghost taken: seq<Step<Op>>)
    requires template in host.vms && Holds(host.vms[template], PREBAKE, disk)
    modifies host`vms, host`log, host`calls, host`steps
    ensures Others(old(host.vms), host.vms, template)
    ensures ok ==> host.vms[template].state != Running
                   && Holds(old(host.vms[template]), PREBAKE, host.vms[template].disk)
    ensures ok ==> host.calls != [] &&
                   Cleared(old(host.vms[template]).snapshots, host.vms[template].snapshots,
                           host.calls[|host.calls| - 1], template)
    ensures old(Unambiguous(host.vms[template], PREBAKE, disk)) ==>
              && Unambiguous(host.vms[template], PREBAKE, disk)
              && Recoverable(host.vms[template], disk)
              && (ok ==> host.vms[template].disk == disk)
    ensures host.steps == old(host.steps) + taken && InOrder(taken, RollbackPlan(template), ok)
  {
    ghost var past := host.steps;
    ok, taken := RestoreOff(host, template, disk);
    if !ok {
      return;
    }
    ghost var restored := host.vms;
    ghost var effective;
    ok, effective := host.DeleteSnapshot(template, PREBAKE);
    taken := TakeStep(past, taken, RollbackPlan(template), ok);
    RemovalKeeps(restored[template], PREBAKE, host.vms[template]);
    OneChanged(restored, host.vms, template);
    OthersOn(old(host.vms), restored, host.vms, template);
    if effective {
      var k: nat :| RemovesAt(restored[template], PREBAKE, k, host.vms[template]);
    }
  }

  /** Stop and restore. */
  method RestoreOff(host: Host, template: string, ghost disk: Image) returns (ok: bool, ghost taken: seq<Step<Op>>)
    requires template in host.vms && Holds(host.vms[template], PREBAKE, disk)
    modifies host`vms, host`log, host`calls, host`steps
    ensures Others(old(host.vms), host.vms, template)
    ensures host.vms[template].snapshots == old(host.vms[template]).snapshots
    ensures ok ==> host.vms[template].state != Running
                   && Holds(old(host.vms[template]), PREBAKE, host.vms[template].disk)
    ensures old(Unambiguous(host.vms[template], PREBAKE, disk)) && ok ==> host.vms[template].disk == disk
    ensures host.steps == old(host.steps) + taken
    ensures ok ==> |taken| == 2 && InOrder(taken, RollbackPlan(template)[..2], true)
    ensures !ok ==> InOrder(taken, RollbackPlan(template), false)
  {
    ghost var past := host.steps;
    ok := host.PowerOff(template);
    taken := TakeStep(past, [], RollbackPlan(template), ok);
    ghost var off := host.vms;
    if !ok {
      return;
    }
    ok := host.RestoreSnapshot(template, PREBAKE);
    taken := TakeStep(past, taken, RollbackPlan(template), ok);
    OneChanged(off, host.vms, template);
    OthersOn(old(host.vms), off, host.vms, template);
    if ok || host.vms != off {
      RestoredFrom(off[template], host.vms[template]);
    }
  }

  lemma RestoredFrom(vm: Vm, after: Vm)
    requires Restores(vm, PREBAKE, after)
    ensures Holds(vm, PREBAKE, after.disk) && after.snapshots == vm.snapshots
    ensures after.state != Running
  {
    var k: nat :| RestoresAt(vm, PREBAKE, k, after);
    assert vm.snapshots[k] == Snapshot(PREBAKE, after.disk);
  }

  /** The steps of a build: before the guarded part, within it, and after it. */
  datatype BuildRecord = BuildRecord(opening: seq<Step<Op>>, guarded: seq<Step<Op>>, rollback: seq<Step<Op>>)

  ghost function OpeningPlan(template: string): seq<Op>
  {
    [FindingTemplate(template), PoweringOff(template), TakingSnapshot(template, PREBAKE)]
  }

  /** Look for the template, stop it and take the snapshot; if that goes through,
      the guarded part and then, whatever came of it, the rollback. The build
      succeeds exactly if every step does, and fails only where one does not. */
  ghost predicate BuiltInOrder(r: BuildRecord, template: string, ok: bool, rolledBack: bool)
  {
    if InOrder(r.opening, OpeningPlan(template), true)
    then
      && (exists exported :: InOrder(r.guarded, GuardedPlan(template), exported) && (ok <==> exported && rolledBack))
      && InOrder(r.rollback, RollbackPlan(template), rolledBack)
    else InOrder(r.opening, OpeningPlan(template), false) && r.guarded == [] && r.rollback == [] && !ok && !rolledBack
  }

  /** From the snapshot on: whatever comes of the guarded part, roll back. */
  method BakeThenRollBack(host: Host, template: string)
    returns (ok: bool, rolledBack: bool, ghost guarded: seq<Step<Op>>, ghost rollback: seq<Step<Op>>)
    requires template in host.vms && Holds(host.vms[template], PREBAKE, host.vms[template].disk)
    modifies host`vms, host`log, host`ova, host`calls, host`steps
    ensures Others(old(host.vms), host.vms, template)
    ensures host.ova in {old(host.ova), NoFile, FailedExport}
            || (host.ova.Completed? && Publishable(host.ova.image))
    ensures ok ==> rolledBack && host.ova.Completed? && Publishable(host.ova.image)
    ensures RolledBackAs(old(host.vms)[template], host.vms[template], host.calls, rolledBack, template)
    ensures host.steps == old(host.steps) + guarded + rollback
    ensures exists exported :: InOrder(guarded, GuardedPlan(template), exported) && (ok <==> exported && rolledBack)
    ensures InOrder(rollback, RollbackPlan(template), rolledBack)
  {
    ghost var disk := host.vms[template].disk;
    var exported;
    exported, guarded := BakeAndExport(host, template);
    ghost var built := host.vms;
    rolledBack, rollback := RollBack(host, template, disk);
    OthersOn(old(host.vms), built, host.vms, template);
    ok := exported && rolledBack;
    assert InOrder(guarded, GuardedPlan(template), exported) && (ok <==> exported && rolledBack);
  }

  /** There was one leftover; the listing showed it and its removal succeeded. */
  predicate Replaced(vm: Vm, found: Option<bool>, removal: Reply)
  {
    SoleNamed(vm, PREBAKE) && found == Some(true) && removal.Succeeded?
  }

  method FindTemplate(host: Host, template: string) returns (ok: bool)
    modifies host`calls, host`steps
    ensures |host.calls| == |old(host.calls)| + 1 && old(host.calls) <= host.calls
    ensures exists answer :: host.calls[|old(host.calls)|] == ListVms(template, answer) && (ok <==> answer == Some(true))
    ensures ok ==> template in host.vms
    ensures host.steps == old(host.steps) + [Step(FindingTemplate(template), ok)]
  {
    var registered := host.Exists(template);
    ok := registered == Some(true);
    assert host.calls[|old(host.calls)|] == ListVms(template, registered);
    host.Mark(FindingTemplate(template), ok);
  }

  /** Find the template and stop it. */
  method FindAndStop(host: Host, template: string) returns (ok: bool, ghost opening: seq<Step<Op>>)
    modifies host`vms, host`log, host`calls, host`steps
    ensures Drift(old(host.vms), host.vms)
    ensures ok ==> template in old(host.vms)
    ensures host.steps == old(host.steps) + opening
    ensures ok ==> |opening| == 2 && InOrder(opening, OpeningPlan(template)[..2], true)
    ensures !ok ==> InOrder(opening, OpeningPlan(template), false)
  {
    ghost var past := host.steps;
    ok := FindTemplate(host, template);
    opening := TakeStep(past, [], OpeningPlan(template), ok);
    if ok {
      ok := host.PowerOff(template);
      opening := TakeStep(past, opening, OpeningPlan(template), ok);
    }
  }

  /** Find the template, stop it, and take the snapshot. */
  method Open(host: Host, template: string)
    returns (ok: bool, found: Option<bool>, removal: Reply, ghost opening: seq<Step<Op>>)
    modifies host`vms, host`log, host`calls, host`steps
    ensures Others(old(host.vms), host.vms, template)
    ensures ok ==> template in old(host.vms)
    ensures template in old(host.vms) ==> OpenedAs(old(host.vms)[template], host.vms[template])
    ensures ok ==> SnapshotTaken(old(host.vms)[template], host.vms[template], found, removal)
    ensures host.steps == old(host.steps) + opening && InOrder(opening, OpeningPlan(template), ok)
  {
    ghost var past := host.steps;
    found, removal := None, Refused;
    ok, opening := FindAndStop(host, template);
    ghost var stopped := host.vms;
    if !ok {
      return;
    }
    ok, found, removal := host.TakeSnapshot(template, PREBAKE);
    opening := TakeStep(past, opening, OpeningPlan(template), ok);
    OthersSame(stopped, host.vms, template);
    OthersOn(old(host.vms), stopped, host.vms, template);
    if ok {
      TakenSince(old(host.vms)[template], stopped[template], host.vms[template], found, removal);
    }
  }

  /** The new snapshot is there. It is the only disk under its name if a sole
      leftover was replaced, and the only addition if there was none. */
  ghost predicate SnapshotTaken(before: Vm, after: Vm, found: Option<bool>, removal: Reply)
  {
    && Holds(after, PREBAKE, after.disk)
    && (Replaced(before, found, removal) ==> Settled(after))
    && (!HasNamed(before, PREBAKE) ==> after.snapshots == before.snapshots + [Snapshot(PREBAKE, before.disk)])
  }

  lemma TakenSince(before: Vm, stopped: Vm, after: Vm, found: Option<bool>, removal: Reply)
    requires DriftsTo(before, stopped) && Holds(after, PREBAKE, after.disk)
    requires found == Some(true) && removal.Succeeded? && SoleNamed(stopped, PREBAKE) ==>
               Unambiguous(after, PREBAKE, after.disk)
    requires !HasNamed(stopped, PREBAKE) ==> after == Taken(stopped, PREBAKE)
    ensures SnapshotTaken(before, after, found, removal)
  {
  }

  /** The template as it was, but for having stopped and for snapshots: those of
      the name are old ones, or hold its disk. */
  ghost predicate OpenedAs(before: Vm, after: Vm)
  {
    && after.disk == before.disk
    && forall k :: 0 <= k < |after.snapshots| && after.snapshots[k].name == PREBAKE ==>
         after.snapshots[k].image == before.disk || Holds(before, PREBAKE, after.snapshots[k].image)
  }

  lemma OpenedMeans(before: Vm, ready: Vm)
    requires OpenedAs(before, ready)
    ensures Settled(before) ==> Settled(ready)
    ensures forall disk :: Holds(ready, PREBAKE, disk) ==> Recoverable(before, disk)
  {
  }

  /** With no snapshot of the name before, and the deletion carried out, the
      snapshots are those there were. */
  lemma SnapshotsRestored(before: seq<Snapshot>, taken: Snapshot, after: seq<Snapshot>, k: nat)
    requires forall i :: 0 <= i < |before| ==> before[i].name != PREBAKE
    requires k < |before| + 1 && (before + [taken])[k].name == PREBAKE && after == WithoutAt(before + [taken], k)
    ensures after == before
  {
  }

  /** How a build leaves the template. A rollback that completed has it stopped,
      with a disk that was its own or a leftover's, and the deletion of the
      snapshot run; with none of the name before, and the deletion carried out,
      the snapshots are those there were. Where no leftover held another disk the
      present one is in place or can be restored, and in place once rolled back;
      so it is where one leftover was found and removed. */
  ghost predicate LeftAs(before: Vm, after: Vm, calls: seq<Call>, rolledBack: bool, found: Option<bool>, removal: Reply,
                         template: string)
  {
    && (rolledBack ==>
          && after.state != Running && Recoverable(before, after.disk)
          && calls != [] && IsRun(calls[|calls| - 1], SnapshotDelete(PREBAKE), template)
          && (calls[|calls| - 1].effective && !HasNamed(before, PREBAKE) ==> after.snapshots == before.snapshots))
    && (Settled(before) ==> Unambiguous(after, PREBAKE, before.disk))
    && (Settled(before) || Replaced(before, found, removal) ==> Recoverable(after, before.disk))
    && (rolledBack && (Settled(before) || Replaced(before, found, removal)) ==>
          after.disk == before.disk && Settled(after))
  }

  lemma LeftOpened(before: Vm, ready: Vm, calls: seq<Call>, found: Option<bool>, removal: Reply, template: string)
    requires OpenedAs(before, ready)
    ensures LeftAs(before, ready, calls, false, found, removal, template)
  {
    OpenedMeans(before, ready);
  }

  /** From the snapshot on, as `BakeThenRollBack` goes. */
  ghost predicate RolledBackAs(ready: Vm, after: Vm, calls: seq<Call>, rolledBack: bool, template: string)
  {
    && (rolledBack ==> after.state != Running && Holds(ready, PREBAKE, after.disk))
    && (rolledBack ==> calls != [] && Cleared(ready.snapshots, after.snapshots, calls[|calls| - 1], template))
    && (Settled(ready) ==>
          && Unambiguous(after, PREBAKE, ready.disk) && Recoverable(after, ready.disk)
          && (rolledBack ==> after.disk == ready.disk))
  }

  lemma LeftSince(before: Vm, ready: Vm, after: Vm, calls: seq<Call>, rolledBack: bool, found: Option<bool>,
                  removal: Reply, template: string)
    requires OpenedAs(before, ready) && SnapshotTaken(before, ready, found, removal)
    requires RolledBackAs(ready, after, calls, rolledBack, template)
    ensures LeftAs(before, after, calls, rolledBack, found, removal, template)
  {
    OpenedMeans(before, ready);
    if rolledBack && calls[|calls| - 1].effective && !HasNamed(before, PREBAKE) {
      var k: nat :| k < |ready.snapshots| && ready.snapshots[k].name == PREBAKE
                    && after.snapshots == WithoutAt(ready.snapshots, k);
      SnapshotsRestored(before.snapshots, Snapshot(PREBAKE, before.disk), after.snapshots, k);
    }
  }

  /** The whole build. `rolledBack` says that the rollback ran to its end,
      whether or not the build itself failed; `found` and `removal` are what the
      listing and the removal of a leftover snapshot answered; false is a raised
      error. */
  method BuildGoldenTemplate(host: Host, template: string)
    returns (ok: bool, rolledBack: bool, found: Option<bool>, removal: Reply, ghost taken: BuildRecord)
    modifies host`vms, host`log, host`ova, host`calls, host`steps
    ensures Others(old(host.vms), host.vms, template)
    ensures host.ova in {old(host.ova), NoFile, FailedExport}
            || (host.ova.Completed? && Publishable(host.ova.image))
    ensures ok ==> rolledBack && host.ova.Completed? && Publishable(host.ova.image)
    ensures rolledBack ==> template in old(host.vms)
    ensures template in old(host.vms) ==>
              LeftAs(old(host.vms)[template], host.vms[template], host.calls, rolledBack, found, removal, template)
    ensures host.steps == old(host.steps) + taken.opening + taken.guarded + taken.rollback
    ensures BuiltInOrder(taken, template, ok, rolledBack)
  {
    ghost var past, opening, guarded, rollback := host.steps, [], [], [];
    ok, found, removal, opening := Open(host, template);
    rolledBack, taken := false, BuildRecord(opening, [], []);
    assert past + opening + [] + [] == past + opening;
    ghost var ready := host.vms;
    if template in old(host.vms) {
      LeftOpened(old(host.vms)[template], ready[template], host.calls, found, removal, template);
    }
    if !ok {
      return;
    }
    ok, rolledBack, guarded, rollback := BakeThenRollBack(host, template);
    taken := BuildRecord(opening, guarded, rollback);
    OthersOn(old(host.vms), ready, host.vms, template);
    LeftSince(old(host.vms)[template], ready[template], host.vms[template], host.calls, rolledBack, found, removal,
              template);
  }

  // ---------------------------------------------------------------------
  // When the rollback is certain
  // ---------------------------------------------------------------------

  /** Once a build has removed leftovers down to `cleared` and taken its
      snapshot, whatever it then does to the disk, its rollback may restore
      this disk. */
  ghost predicate MayRestore(cleared: Vm, disk: Image)
  {
    exists dirty: Image, after :: Restores(Built(cleared, dirty), PREBAKE, after) && after.disk == disk
  }

  function Built(cleared: Vm, dirty: Image): Vm
  {
    Taken(cleared, PREBAKE).(disk := dirty, state := PoweredOff)
  }

  lemma MayRestoreExactly(cleared: Vm, disk: Image)
    ensures MayRestore(cleared, disk) <==> Recoverable(cleared, disk)
  {
    var named := Taken(cleared, PREBAKE).snapshots;
    if MayRestore(cleared, disk) {
      var dirty: Image, after :| Restores(Built(cleared, dirty), PREBAKE, after) && after.disk == disk;
      var k: nat :| RestoresAt(Built(cleared, dirty), PREBAKE, k, after);
      assert k < |cleared.snapshots| ==> cleared.snapshots[k] == Snapshot(PREBAKE, disk);
    }
    if Recoverable(cleared, disk) {
      assert named[|cleared.snapshots|] == Snapshot(PREBAKE, cleared.disk);
      assert forall i :: 0 <= i < |cleared.snapshots| ==> named[i] == cleared.snapshots[i];
      var k: nat :| k < |named| && named[k] == Snapshot(PREBAKE, disk);
      var after := Built(cleared, cleared.disk).(disk := disk);
      assert RestoresAt(Built(cleared, cleared.disk), PREBAKE, k, after);
      assert Restores(Built(cleared, cleared.disk), PREBAKE, after);
    }
  }

  /** Seen from before the build, with a removal that may fail silently: the
      rollback brings the present disk back for certain if and only if no
      leftover of the name holds another. */
  lemma RollbackIsCertainExactly(vm: Vm)
    ensures (forall cleared, disk :: (cleared == vm || Removes(vm, PREBAKE, cleared)) && MayRestore(cleared, disk)
               ==> disk == vm.disk)
            <==> Settled(vm)
  {
    if Settled(vm) {
      forall cleared, disk | (cleared == vm || Removes(vm, PREBAKE, cleared)) && MayRestore(cleared, disk)
        ensures disk == vm.disk
      {
        MayRestoreExactly(cleared, disk);
        RemovalKeeps(vm, PREBAKE, cleared);
      }
    } else {
      var k :| 0 <= k < |vm.snapshots| && vm.snapshots[k].name == PREBAKE && vm.snapshots[k].image != vm.disk;
      assert vm.snapshots[k] == Snapshot(PREBAKE, vm.snapshots[k].image);
      MayRestoreExactly(vm, vm.snapshots[k].image);
    }
  }

  /** And where the one removal is carried out: if and only if, besides, there
      is but one leftover. */
  lemma ReplacingIsCertainExactly(vm: Vm)
    ensures (forall cleared, disk :: Removes(vm, PREBAKE, cleared) && MayRestore(cleared, disk) ==> disk == vm.disk)
            <==> Settled(vm) || SoleNamed(vm, PREBAKE)
  {
    if Settled(vm) || SoleNamed(vm, PREBAKE) {
      forall cleared, disk | Removes(vm, PREBAKE, cleared) && MayRestore(cleared, disk)
        ensures disk == vm.disk
      {
        MayRestoreExactly(cleared, disk);
        RemovalKeeps(vm, PREBAKE, cleared);
      }
    } else {
      var bad :| 0 <= bad < |vm.snapshots| && vm.snapshots[bad].name == PREBAKE && vm.snapshots[bad].image != vm.disk;
      var i, j :| 0 <= i < j < |vm.snapshots| && vm.snapshots[i].name == PREBAKE && vm.snapshots[j].name == PREBAKE;
      var other := if i == bad then j else i;
      AnotherStays(vm, bad, other);
    }
  }

  lemma AnotherStays(vm: Vm, bad: nat, other: nat)
    requires bad < |vm.snapshots| && other < |vm.snapshots| && bad != other
    requires vm.snapshots[bad].name == PREBAKE && vm.snapshots[other].name == PREBAKE
    ensures exists cleared :: Removes(vm, PREBAKE, cleared) && MayRestore(cleared, vm.snapshots[bad].image)
  {
    var cleared := vm.(snapshots := WithoutAt(vm.snapshots, other));
    assert RemovesAt(vm, PREBAKE, other, cleared);
    var k := if bad < other then bad else bad - 1;
    assert cleared.snapshots[k] == Snapshot(PREBAKE, vm.snapshots[bad].image);
    MayRestoreExactly(cleared, vm.snapshots[bad].image);
  }

  /** After a rollback that failed, building again gives the disk up: the
      snapshot that still held it is the leftover that is replaced. */
  lemma RebuildGivesUpTheDisk(vm: Vm, disk: Image, removed: Vm)
    requires vm.snapshots == [Snapshot(PREBAKE, disk)] && vm.disk != disk
    requires Removes(vm, PREBAKE, removed)
    ensures Recoverable(vm, disk) && !Settled(vm)
    ensures !Recoverable(Taken(removed, PREBAKE), disk)
  {
    assert vm.snapshots[0] == Snapshot(PREBAKE, disk);
    RemovalKeeps(vm, PREBAKE, removed);
    var k: nat :| RemovesAt(vm, PREBAKE, k, removed);
    assert removed.snapshots == [];
  }
}
