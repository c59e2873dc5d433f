/** Provisioning the cluster one guest at a time, and tearing it down. */
module Cluster {
  import opened Basics
  import opened VirtualBox
  import Strings

  datatype HostConfig = HostConfig(vmName: string, hostname: string, httpPort: int)

  datatype ClusterConfig = ClusterConfig(
    template: string, jump: HostConfig, backends: seq<HostConfig>, servicePort: int)
  {
    /** The jump station first. */
    function AllHosts(): (hosts: seq<HostConfig>)
    {
      [jump] + backends
    }
  }

  function VmNames(hosts: seq<HostConfig>): (names: seq<string>)
    ensures |names| == |hosts| && forall i :: 0 <= i < |hosts| ==> names[i] == hosts[i].vmName
  {
    seq(|hosts|, i requires 0 <= i < |hosts| => hosts[i].vmName)
  }

  function HostnamesOf(hosts: seq<HostConfig>): (names: seq<string>)
    ensures |names| == |hosts| && forall i :: 0 <= i < |hosts| ==> names[i] == hosts[i].hostname
  {
    seq(|hosts|, i requires 0 <= i < |hosts| => hosts[i].hostname)
  }

  function Elements(s: seq<string>): set<string>
  {
    set x | x in s
  }

  // ---------------------------------------------------------------------
  // Validation
  // ---------------------------------------------------------------------

  /** A list is as long as the set of its elements exactly when none repeats. */
  lemma {:induction false} SetSizeFindsDuplicates(s: seq<string>)
    ensures |Elements(s)| <= |s|
    ensures |Elements(s)| == |s| <==> NoDuplicates(s)
    decreases |s|
  {
    if s == [] {
      assert Elements(s) == {};
    } else {
      var front, last := s[..|s| - 1], s[|s| - 1];
      SetSizeFindsDuplicates(front);
      assert Elements(s) == Elements(front) + {last};
      assert last in front ==> Elements(s) == Elements(front);
      assert last !in front ==> |Elements(s)| == |Elements(front)| + 1;
      LastRepeats(s);
    }
  }

  lemma LastRepeats(s: seq<string>)
    requires s != []
    ensures var front := s[..|s| - 1]; NoDuplicates(s) <==> NoDuplicates(front) && s[|s| - 1] !in front
  {
    var front, last := s[..|s| - 1], s[|s| - 1];
    assert forall i :: 0 <= i < |front| ==> front[i] == s[i];
    if last in front {
      var i :| 0 <= i < |front| && front[i] == last;
      assert s[i] == s[|s| - 1];
    }
  }

  datatype Entry = NotATable | BackendTable(vmName: Option<string>, hostname: Option<string>, httpPort: Option<int>)

  datatype ConfigError = TooFewBackends | Malformed(index: nat) | DuplicateBackends
    | DuplicateNames | TemplateCollides | PortsCollide

  /** A required string must not be blank; a port must be in range. */
  predicate Filled(text: Option<string>)
  {
    text.Some? && Strings.Trim(Strings.IsSpacePython, text.value) != ""
  }

  predicate WellFormed(e: Entry)
  {
    e.BackendTable? && Filled(e.vmName) && Filled(e.hostname) && e.httpPort.Some? && 1 <= e.httpPort.value <= 65535
  }

  function BackendOf(e: Entry): HostConfig
    requires WellFormed(e)
  {
    HostConfig(Strings.Trim(Strings.IsSpacePython, e.vmName.value),
               Strings.Trim(Strings.IsSpacePython, e.hostname.value), e.httpPort.value)
  }

  /** Each field is the table's own, without the white space around it. */
  predicate Describes(host: HostConfig, e: Entry)
  {
    && e.BackendTable? && e.vmName.Some? && e.hostname.Some?
    && host.vmName == Strings.Trim(Strings.IsSpacePython, e.vmName.value)
    && host.hostname == Strings.Trim(Strings.IsSpacePython, e.hostname.value)
    && Some(host.httpPort) == e.httpPort
  }

  predicate SameMachine(e: Entry, f: Entry)
  {
    && e.BackendTable? && e.vmName.Some? && f.BackendTable? && f.vmName.Some?
    && Strings.Trim(Strings.IsSpacePython, e.vmName.value) == Strings.Trim(Strings.IsSpacePython, f.vmName.value)
  }

  /** The tables in their order, each complete, at least two, and no machine
      named twice; anything else raises. */
  method ParseBackends(raw: seq<Entry>) returns (r: Result<seq<HostConfig>, ConfigError>)
    ensures r.Err? && r.error.TooFewBackends? <==> |raw| < 2
    ensures r.Err? && r.error.Malformed? ==>
              && r.error.index < |raw| && !WellFormed(raw[r.error.index])
              && forall i :: 0 <= i < r.error.index ==> WellFormed(raw[i])
    ensures r.Ok? ==>
              && |r.value| == |raw| >= 2
              && (forall i :: 0 <= i < |raw| ==> WellFormed(raw[i]) && Describes(r.value[i], raw[i]))
              && NoDuplicates(VmNames(r.value))
    ensures r.Err? && r.error.DuplicateBackends? ==>
              && (forall i :: 0 <= i < |raw| ==> WellFormed(raw[i]))
              && exists i, j :: 0 <= i < j < |raw| && SameMachine(raw[i], raw[j])
    ensures r.Err? ==> r.error.TooFewBackends? || r.error.Malformed? || r.error.DuplicateBackends?
  {
    if |raw| < 2 {
      return Err(TooFewBackends);
    }
    var backends: seq<HostConfig> := [];
    for index := 0 to |raw|
      invariant |backends| == index
      invariant forall i :: 0 <= i < index ==> WellFormed(raw[i]) && backends[i] == BackendOf(raw[i])
    {
      if !WellFormed(raw[index]) {
        return Err(Malformed(index));
      }
      backends := backends + [BackendOf(raw[index])];
    }
    var names := VmNames(backends);
    SetSizeFindsDuplicates(names);
    if |Elements(names)| != |names| {
      var i, j :| 0 <= i < j < |names| && names[i] == names[j];
      assert SameMachine(raw[i], raw[j]);
      return Err(DuplicateBackends);
    }
    return Ok(backends);
  }

  /** What provisioning relies on. */
  ghost predicate Validated(config: ClusterConfig)
  {
    && NoDuplicates(VmNames(config.AllHosts()))
    && config.template !in VmNames(config.AllHosts())
    && config.servicePort != config.jump.httpPort
  }

  /** None is acceptance. */
  function ValidateCrossReferences(config: ClusterConfig): (error: Option<ConfigError>)
  {
    var names := VmNames(config.AllHosts());
    if |Elements(names)| != |names| then Some(DuplicateNames)
    else if config.template in names then Some(TemplateCollides)
    else if config.servicePort == config.jump.httpPort then Some(PortsCollide)
    else None
  }

  /** The error is that of the first check that fails. */
  lemma AcceptsExactly(config: ClusterConfig)
    ensures ValidateCrossReferences(config) == None <==> Validated(config)
    ensures ValidateCrossReferences(config) == Some(DuplicateNames) <==> !NoDuplicates(VmNames(config.AllHosts()))
    ensures ValidateCrossReferences(config) == Some(TemplateCollides) <==>
              NoDuplicates(VmNames(config.AllHosts())) && config.template in VmNames(config.AllHosts())
    ensures ValidateCrossReferences(config) in
              {None, Some(DuplicateNames), Some(TemplateCollides), Some(PortsCollide)}
  {
    SetSizeFindsDuplicates(VmNames(config.AllHosts()));
  }

  // ---------------------------------------------------------------------
  // What one machine's provisioning leaves alone
  // ---------------------------------------------------------------------

  /** Running, and first boot has not finished. */
  predicate HalfConfigured(vm: Vm)
  {
    vm.state == Running && !vm.configured
  }

  ghost predicate OnlyHalf(vms: Vms, name: string)
  {
    forall k :: k in vms && HalfConfigured(vms[k]) ==> k == name
  }

  ghost predicate AtMostOneHalf(vms: Vms)
  {
    forall j, k :: j in vms && k in vms && HalfConfigured(vms[j]) && HalfConfigured(vms[k]) ==> j == k
  }

  ghost predicate AllElsewhere(a: Vms, states: seq<Vms>, name: string)
  {
    forall i :: 0 <= i < |states| ==> Elsewhere(a, states[i], name)
  }

  lemma AllElsewhereOn(a: Vms, b: Vms, states: seq<Vms>, later: seq<Vms>, name: string)
    requires AllElsewhere(a, states, name) && Elsewhere(a, b, name) && AllElsewhere(b, later, name)
    ensures AllElsewhere(a, states + later, name)
  {
    forall i | 0 <= i < |states + later| ensures Elsewhere(a, (states + later)[i], name) {
      if i >= |states| {
        ElsewhereOn(a, b, later[i - |states|], name);
      }
    }
  }

  lemma MovesElsewhere(a: Vms, b: Vms, name: string)
    requires Moves(a, b, name)
    ensures Elsewhere(a, b, name)
  {
  }

  /** Whatever run commands for one machine take, the others are left alone. */
  lemma {:induction false} ChainElsewhere(a: Vms, states: seq<Vms>, name: string)
    requires Chain(a, states, name)
    ensures AllElsewhere(a, states, name) && Elsewhere(a, End(a, states), name)
    decreases |states|
  {
    if states == [] {
    } else {
      var b, later := states[0], states[1..];
      MovesElsewhere(a, b, name);
      ChainElsewhere(b, later, name);
      ElsewhereOn(a, b, End(b, later), name);
      AllElsewhereOn(a, b, [b], later, name);
      assert states == [b] + later;
    }
  }

  lemma WentElsewhere(a: Vms, past: seq<Vms>, b: Vms, log: seq<Vms>, name: string)
    requires Went(a, past, b, log, name)
    ensures Elsewhere(a, b, name) && AllElsewhere(a, log[|past|..], name)
  {
    ChainElsewhere(a, log[|past|..], name);
  }

  /** If no other machine was half-configured at the start, none but this one is,
      and so at most one. */
  lemma StaysOnlyHalf(a: Vms, v: Vms, name: string)
    requires OnlyHalf(a, name) && Elsewhere(a, v, name)
    ensures OnlyHalf(v, name) && AtMostOneHalf(v)
  {
    forall k | k in v && k != name ensures !HalfConfigured(v[k]) {
      assert DriftsTo(a[k], v[k]);
    }
  }

  // ---------------------------------------------------------------------
  // One guest
  // ---------------------------------------------------------------------

  /** A new machine made from the appliance, with its own seed. */
  predicate Cloned(vms: Vms, host: HostConfig, ova: Ova)
  {
    && host.vmName in vms
    && var vm := vms[host.vmName];
    && vm.seed == Some(host.hostname) && vm.snapshots == [] && (ova.Completed? ==> vm.disk == ova.image)
  }

  /** Registered, and never started so far. */
  predicate IsNew(vms: Vms, name: string)
  {
    name in vms && vms[name].state == PoweredOff && !vms[name].configured
  }

  /** Some state shows the machine running before its first boot has finished. */
  ghost predicate SeenHalf(states: seq<Vms>, name: string)
  {
    exists i :: 0 <= i < |states| && name in states[i] && HalfConfigured(states[i][name])
  }

  lemma SeenLater(states: seq<Vms>, later: seq<Vms>, name: string)
    requires SeenHalf(later, name)
    ensures SeenHalf(states + later, name)
  {
    var i :| 0 <= i < |later| && name in later[i] && HalfConfigured(later[i][name]);
    assert (states + later)[|states| + i] == later[i];
  }

  /** Registered, cloned, individualised, under its own name, and with an
      address. */
  predicate Stands(vms: Vms, host: HostConfig, ova: Ova)
  {
    && Cloned(vms, host, ova) && vms[host.vmName].configured && vms[host.vmName].hostname == host.hostname
    && vms[host.vmName].address != ""
  }

  /** What provisioning one guest does, in its order. The adapter is bridged only
      where the template's is. */
  ghost function ProvisionPlan(template: string, host: HostConfig, bridged: bool): seq<Op>
  {
    [ReadingBridge(template), Destroying(host.vmName), Importing(host.vmName), Configuring(host.vmName)]
    + (if bridged then [SettingBridge(host.vmName)] else [])
    + [BuildingSeed(host.hostname), Seeding(host.vmName, host.hostname), Starting(host.vmName),
       AwaitingGuest(host.vmName), AwaitingCloudInit(host.vmName), CheckingHostname(host.vmName, host.hostname)]
  }

  /** Destroy what has the name, import, seed, start, and wait until first boot
      has finished and the guest reports its own hostname. None is a raised
      error, which is the failure of the last step taken; the answer is the
      guest's address. */
  method ProvisionHost(h: Host, template: string, host: HostConfig)
    returns (address: Option<string>, ghost taken: seq<Step<Op>>, ghost bridged: bool)
    modifies h`vms, h`log, h`calls, h`steps
    ensures Went(old(h.vms), old(h.log), h.vms, h.log, host.vmName)
    ensures Elsewhere(old(h.vms), h.vms, host.vmName)
    ensures old(h.log) <= h.log && AllElsewhere(old(h.vms), h.log[|old(h.log)|..], host.vmName)
    ensures address.Some? ==> Stands(h.vms, host, h.ova) && address.value == h.vms[host.vmName].address
    ensures address.Some? ==> SeenHalf(h.log[|old(h.log)|..], host.vmName)
    ensures h.steps == old(h.steps) + taken && InOrder(taken, ProvisionPlan(template, host, bridged), address.Some?)
  {
    address, taken, bridged := CloneAndBoot(h, template, host);
    WentElsewhere(old(h.vms), old(h.log), h.vms, h.log, host.vmName);
  }

  method CloneAndBoot(h: Host, template: string, host: HostConfig)
    returns (address: Option<string>, ghost taken: seq<Step<Op>>, ghost bridged: bool)
    modifies h`vms, h`log, h`calls, h`steps
    ensures Went(old(h.vms), old(h.log), h.vms, h.log, host.vmName)
    ensures address.Some? ==> Stands(h.vms, host, h.ova) && address.value == h.vms[host.vmName].address
    ensures address.Some? ==> SeenHalf(h.log[|old(h.log)|..], host.vmName)
    ensures h.steps == old(h.steps) + taken && InOrder(taken, ProvisionPlan(template, host, bridged), address.Some?)
  {
    ghost var past := h.steps;
    var ok;
    ghost var booting;
    ok, taken, bridged := Install(h, template, host);
    if !ok {
      return None, taken, bridged;
    }
    ghost var installed, until := h.vms, h.log;
    address, booting := FirstBoot(h, host);
    WentOn(old(h.vms), old(h.log), installed, until, h.vms, h.log, host.vmName);
    Regroup(past, taken, booting);
    InstalledThenBooted(taken, booting, template, host, bridged, address.Some?);
    taken := taken + booting;
    if address.Some? {
      SeenLater(until[|old(h.log)|..], h.log[|until|..], host.vmName);
      LaterPart(until, h.log, |old(h.log)|);
    }
  }

  /** Everything up to the first boot. */
  ghost function InstallPlan(template: string, host: HostConfig, bridged: bool): seq<Op>
  {
    [ReadingBridge(template), Destroying(host.vmName), Importing(host.vmName), Configuring(host.vmName)]
    + (if bridged then [SettingBridge(host.vmName)] else [])
    + [BuildingSeed(host.hostname), Seeding(host.vmName, host.hostname)]
  }

  ghost function BootPlan(host: HostConfig): seq<Op>
  {
    [Starting(host.vmName), AwaitingGuest(host.vmName), AwaitingCloudInit(host.vmName),
     CheckingHostname(host.vmName, host.hostname)]
  }

  lemma PlanParts(template: string, host: HostConfig, bridged: bool)
    ensures InstallPlan(template, host, bridged) + BootPlan(host) == ProvisionPlan(template, host, bridged)
  {
  }

  lemma InstalledThenBooted(installing: seq<Step<Op>>, booting: seq<Step<Op>>, template: string, host: HostConfig,
                            bridged: bool, ok: bool)
    requires InOrder(installing, InstallPlan(template, host, bridged), true) && InOrder(booting, BootPlan(host), ok)
    ensures InOrder(installing + booting, ProvisionPlan(template, host, bridged), ok)
  {
    PlanParts(template, host, bridged);
    NextSteps(installing, InstallPlan(template, host, bridged), booting, BootPlan(host), ok);
  }

  /** A part of a plan that breaks off breaks off the whole plan. */
  lemma BreaksOff(taken: seq<Step<Op>>, template: string, host: HostConfig, bridged: bool)
    requires InOrder(taken, InstallPlan(template, host, bridged), false)
    ensures InOrder(taken, ProvisionPlan(template, host, bridged), false)
  {
    PlanParts(template, host, bridged);
    NoFurther(taken, InstallPlan(template, host, bridged), BootPlan(host));
  }

  /** Import, size, and seed a machine that is not running yet. */
  method Install(h: Host, template: string, host: HostConfig)
    returns (ok: bool, ghost taken: seq<Step<Op>>, ghost bridged: bool)
    modifies h`vms, h`log, h`calls, h`steps
    ensures Went(old(h.vms), old(h.log), h.vms, h.log, host.vmName)
    ensures ok ==> Cloned(h.vms, host, h.ova) && IsNew(h.vms, host.vmName)
    ensures h.steps == old(h.steps) + taken
    ensures ok ==> InOrder(taken, InstallPlan(template, host, bridged), true)
    ensures !ok ==> InOrder(taken, ProvisionPlan(template, host, bridged), false)
  {
    ghost var past, seeding := h.steps, [];
    var bridge;
    bridge, ok, taken := Clone(h, template, host);
    bridged := bridge;
    if !ok {
      BreaksOff(taken, template, host, bridged);
      return;
    }
    ghost var imported, until := h.vms, h.log;
    ok, seeding := SizeAndSeed(h, host, bridge);
    WentOn(old(h.vms), old(h.log), imported, until, h.vms, h.log, host.vmName);
    Regroup(past, taken, seeding);
    ClonedThenSeeded(taken, seeding, template, host, bridged, ok);
    taken := taken + seeding;
    if !ok {
      BreaksOff(taken, template, host, bridged);
    }
  }

  ghost function ClonePlan(template: string, host: HostConfig): seq<Op>
  {
    [ReadingBridge(template), Destroying(host.vmName), Importing(host.vmName)]
  }

  ghost function SeedPlan(host: HostConfig, bridged: bool): seq<Op>
  {
    [Configuring(host.vmName)] + (if bridged then [SettingBridge(host.vmName)] else [])
    + [BuildingSeed(host.hostname), Seeding(host.vmName, host.hostname)]
  }

  lemma ClonedThenSeeded(cloning: seq<Step<Op>>, seeding: seq<Step<Op>>, template: string, host: HostConfig,
                         bridged: bool, ok: bool)
    requires InOrder(cloning, ClonePlan(template, host), true) && InOrder(seeding, SeedPlan(host, bridged), ok)
    ensures InOrder(cloning + seeding, InstallPlan(template, host, bridged), ok)
  {
    assert ClonePlan(template, host) + SeedPlan(host, bridged) == InstallPlan(template, host, bridged);
    NextSteps(cloning, ClonePlan(template, host), seeding, SeedPlan(host, bridged), ok);
  }

  lemma CloningBreaksOff(taken: seq<Step<Op>>, template: string, host: HostConfig)
    requires InOrder(taken, ClonePlan(template, host), false)
    ensures forall bridged :: InOrder(taken, InstallPlan(template, host, bridged), false)
  {
    forall bridged ensures InOrder(taken, InstallPlan(template, host, bridged), false) {
      NoFurther(taken, ClonePlan(template, host), SeedPlan(host, bridged));
      assert ClonePlan(template, host) + SeedPlan(host, bridged) == InstallPlan(template, host, bridged);
    }
  }

  /** Destroy what has the name and import the appliance under it. */
  method Clone(h: Host, template: string, host: HostConfig)
    returns (bridge: bool, ok: bool, ghost taken: seq<Step<Op>>)
    modifies h`vms, h`log, h`calls, h`steps
    ensures Went(old(h.vms), old(h.log), h.vms, h.log, host.vmName)
    ensures ok ==> IsFresh(h.vms, host.vmName, h.ova)
    ensures h.steps == old(h.steps) + taken
    ensures ok ==> InOrder(taken, ClonePlan(template, host), true)
    ensures !ok ==> InOrder(taken, InstallPlan(template, host, bridge), false)
  {
    var name := host.vmName;
    WentNowhere(h.vms, h.log, name);
    ghost var past, plan := h.steps, ClonePlan(template, host);
    var bridged := h.BridgeOf(template);
    bridge, ok := bridged == Some(true), bridged.Some?;
    taken := TakeStep(past, [], plan, ok);
    if !ok {
      CloningBreaksOff(taken, template, host);
      return;
    }
    ok := h.Destroy(name, 3);
    taken := TakeStep(past, taken, plan, ok);
    if !ok {
      CloningBreaksOff(taken, template, host);
      return;
    }
    ghost var clear, until := h.vms, h.log;
    ok := h.ImportAppliance(name);
    WentOn(old(h.vms), old(h.log), clear, until, h.vms, h.log, name);
    taken := TakeStep(past, taken, plan, ok);
    if !ok {
      CloningBreaksOff(taken, template, host);
    }
  }

  /** Registered from the appliance, and nothing done with it yet. */
  predicate IsFresh(vms: Vms, name: string, ova: Ova)
  {
    name in vms && vms[name] == Imported(vms[name].disk) && (ova.Completed? ==> vms[name].disk == ova.image)
  }

  /** A local file; writing it may fail. */
  method BuildSeed(h: Host, hostname: string) returns (ok: bool)
    modifies h`steps
    ensures h.steps == old(h.steps) + [Step(BuildingSeed(hostname), ok)]
  {
    ok := *;
    h.Mark(BuildingSeed(hostname), ok);
  }

  /** Processors and memory, and the interface of a bridged adapter. */
  method Size(h: Host, host: HostConfig, bridge: bool) returns (ok: bool, ghost taken: seq<Step<Op>>)
    modifies h`calls, h`steps
    ensures h.steps == old(h.steps) + taken
    ensures ok ==>
              && |taken| + 2 == |SeedPlan(host, bridge)|
              && InOrder(taken, SeedPlan(host, bridge)[..|taken|], true)
    ensures !ok ==> InOrder(taken, SeedPlan(host, bridge), false)
  {
    ghost var past, plan := h.steps, SeedPlan(host, bridge);
    ok := h.Adjust(Resize, host.vmName, Configuring(host.vmName));
    taken := TakeStep(past, [], plan, ok);
    if ok && bridge {
      ok := h.Adjust(BridgeAdapter, host.vmName, SettingBridge(host.vmName));
      taken := TakeStep(past, taken, plan, ok);
    }
  }

  method SizeAndSeed(h: Host, host: HostConfig, bridge: bool) returns (ok: bool, ghost taken: seq<Step<Op>>)
    modifies h`vms, h`log, h`calls, h`steps
    ensures Went(old(h.vms), old(h.log), h.vms, h.log, host.vmName)
    ensures ok && old(IsFresh(h.vms, host.vmName, h.ova)) ==> Cloned(h.vms, host, h.ova) && IsNew(h.vms, host.vmName)
    ensures h.steps == old(h.steps) + taken && InOrder(taken, SeedPlan(host, bridge), ok)
  {
    var name := host.vmName;
    WentNowhere(h.vms, h.log, name);
    ghost var past, plan := h.steps, SeedPlan(host, bridge);
    ok, taken := Size(h, host, bridge);
    if !ok {
      return;
    }
    ok := BuildSeed(h, host.hostname);
    taken := TakeStep(past, taken, plan, ok);
    if !ok {
      return;
    }
    ok := h.AttachSeed(name, host.hostname);
    taken := TakeStep(past, taken, plan, ok);
  }

  method FirstBoot(h: Host, host: HostConfig) returns (address: Option<string>, ghost taken: seq<Step<Op>>)
    modifies h`vms, h`log, h`calls, h`steps
    ensures Went(old(h.vms), old(h.log), h.vms, h.log, host.vmName)
    ensures address.Some? && old(Cloned(h.vms, host, h.ova)) ==>
              Stands(h.vms, host, h.ova) && address.value == h.vms[host.vmName].address
    ensures address.Some? && old(IsNew(h.vms, host.vmName)) ==> SeenHalf(h.log[|old(h.log)|..], host.vmName)
    ensures h.steps == old(h.steps) + taken && InOrder(taken, BootPlan(host), address.Some?)
  {
    var name := host.vmName;
    ghost var past := h.steps;
    address, taken := StartAndWait(h, host);
    if address.None? {
      return;
    }
    var done := h.CloudInitDone(name);
    taken := TakeStep(past, taken, BootPlan(host), done == Some(true));
    if done != Some(true) {
      return None, taken;
    }
    var actual := h.GuestHostname(name, host.hostname);
    taken := TakeStep(past, taken, BootPlan(host), actual == Some(host.hostname));
    if actual != Some(host.hostname) {
      return None, taken;
    }
  }

  predicate SameMake(a: Vm, b: Vm)
  {
    b.seed == a.seed && b.snapshots == a.snapshots && b.disk == a.disk
  }

  method StartAndWait(h: Host, host: HostConfig) returns (address: Option<string>, ghost taken: seq<Step<Op>>)
    modifies h`vms, h`log, h`calls, h`steps
    ensures Went(old(h.vms), old(h.log), h.vms, h.log, host.vmName)
    ensures address.Some? ==>
              && host.vmName in old(h.vms) && host.vmName in h.vms
              && SameMake(old(h.vms)[host.vmName], h.vms[host.vmName])
              && address.value != "" && address.value == h.vms[host.vmName].address
    ensures address.Some? && old(IsNew(h.vms, host.vmName)) ==> SeenHalf(h.log[|old(h.log)|..], host.vmName)
    ensures h.steps == old(h.steps) + taken
    ensures address.Some? ==> |taken| == 2 && InOrder(taken, BootPlan(host)[..2], true)
    ensures address.None? ==> InOrder(taken, BootPlan(host), false)
  {
    var name := host.vmName;
    ghost var before := h.steps;
    var ok := h.StartHeadless(name);
    taken := TakeStep(before, [], BootPlan(host), ok);
    ghost var started, past := h.vms, h.log;
    if !ok {
      return None, taken;
    }
    address := h.AwaitGuest(name);
    taken := TakeStep(before, taken, BootPlan(host), address.Some?);
    WentStep(started, past, h.vms, name);
    WentOn(old(h.vms), old(h.log), started, past, h.vms, h.log, name);
    if old(IsNew(h.vms, name)) {
      SeenStarted(old(h.log), started, h.vms, h.log, name);
    }
  }

  lemma SeenStarted(past: seq<Vms>, started: Vms, now: Vms, log: seq<Vms>, name: string)
    requires log == past + [started] + [now] && name in started && HalfConfigured(started[name])
    ensures SeenHalf(log[|past|..], name)
  {
    assert log[|past|..][0] == started;
  }

  lemma GoneOrDrifted(a: Vms, b: Vms, name: string)
    requires Drift(a, b) || (name in a && Drift(a - {name}, b))
    ensures Elsewhere(a, b, name)
  {
    if !Drift(a, b) {
      forall k | k in a && k != name ensures k in b && DriftsTo(a[k], b[k]) {
        assert k in a - {name};
      }
    }
  }

  // ---------------------------------------------------------------------
  // The cluster
  // ---------------------------------------------------------------------

  ghost function Outside(hosts: seq<HostConfig>): iset<string>
  {
    iset name | name !in VmNames(hosts)
  }

  ghost predicate AllUntouched(a: Vms, states: seq<Vms>, names: iset<string>)
  {
    forall i :: 0 <= i < |states| ==> Untouched(a, states[i], names)
  }

  ghost predicate Serial(states: seq<Vms>)
  {
    forall i :: 0 <= i < |states| ==> AtMostOneHalf(states[i])
  }

  /** One machine's step, seen from the start of the whole operation. */
  lemma StepUntouched(a: Vms, b: Vms, c: Vms, past: seq<Vms>, later: seq<Vms>, hosts: seq<HostConfig>, i: nat)
    requires i < |hosts|
    requires Untouched(a, b, Outside(hosts)) && AllUntouched(a, past, Outside(hosts))
    requires Elsewhere(b, c, hosts[i].vmName) && AllElsewhere(b, later, hosts[i].vmName)
    ensures Untouched(a, c, Outside(hosts)) && AllUntouched(a, past + later, Outside(hosts))
  {
    assert VmNames(hosts)[i] == hosts[i].vmName;
    assert Untouched(b, c, Outside(hosts));
    UntouchedTransitively(a, b, c, Outside(hosts));
    forall j | 0 <= j < |past + later| ensures Untouched(a, (past + later)[j], Outside(hosts)) {
      if j >= |past| {
        assert Untouched(b, later[j - |past|], Outside(hosts));
        UntouchedTransitively(a, b, later[j - |past|], Outside(hosts));
      }
    }
  }

  lemma StepSerial(b: Vms, past: seq<Vms>, later: seq<Vms>, name: string)
    requires Serial(past) && OnlyHalf(b, name) && AllElsewhere(b, later, name)
    ensures Serial(past + later)
  {
    forall j | 0 <= j < |past + later| ensures AtMostOneHalf((past + later)[j]) {
      if j >= |past| {
        StaysOnlyHalf(b, later[j - |past|], name);
      }
    }
  }

  /** A guest that stands keeps standing while another one is worked on. */
  lemma KeepsStanding(b: Vms, c: Vms, hosts: seq<HostConfig>, i: nat, ova: Ova)
    requires NoDuplicates(VmNames(hosts)) && i < |hosts|
    requires Elsewhere(b, c, hosts[i].vmName)
    requires forall j :: 0 <= j < i ==> Stands(b, hosts[j], ova)
    ensures forall j :: 0 <= j < i ==>
              Stands(c, hosts[j], ova) && c[hosts[j].vmName].address == b[hosts[j].vmName].address
  {
    forall j | 0 <= j < i
      ensures Stands(c, hosts[j], ova) && c[hosts[j].vmName].address == b[hosts[j].vmName].address
    {
      assert VmNames(hosts)[j] != VmNames(hosts)[i];
      assert DriftsTo(b[hosts[j].vmName], c[hosts[j].vmName]);
    }
  }

  ghost predicate NoneHalf(vms: Vms)
  {
    forall k :: k in vms ==> !HalfConfigured(vms[k])
  }

  /** The machines now, and the states passed through, after `i` guests. */
  ghost predicate Progress(start: Vms, since: seq<Vms>, now: Vms, hosts: seq<HostConfig>, i: nat, ova: Ova)
  {
    && i <= |hosts| && hosts != []
    && Untouched(start, now, Outside(hosts)) && AllUntouched(start, since, Outside(hosts))
    && (forall j :: 0 <= j < i ==> Stands(now, hosts[j], ova))
    && (OnlyHalf(start, hosts[0].vmName) ==>
          Serial(since) && if i == 0 then OnlyHalf(now, hosts[0].vmName) else NoneHalf(now))
  }

  lemma ProgressStep(start: Vms, since: seq<Vms>, before: Vms, later: seq<Vms>, after: Vms,
                     hosts: seq<HostConfig>, i: nat, ova: Ova)
    requires i < |hosts| && NoDuplicates(VmNames(hosts)) && Progress(start, since, before, hosts, i, ova)
    requires Elsewhere(before, after, hosts[i].vmName) && AllElsewhere(before, later, hosts[i].vmName)
    ensures Untouched(start, after, Outside(hosts)) && AllUntouched(start, since + later, Outside(hosts))
    ensures OnlyHalf(start, hosts[0].vmName) ==> Serial(since + later)
    ensures Stands(after, hosts[i], ova) ==> Progress(start, since + later, after, hosts, i + 1, ova)
  {
    StepUntouched(start, before, after, since, later, hosts, i);
    KeepsStanding(before, after, hosts, i, ova);
    if OnlyHalf(start, hosts[0].vmName) {
      assert OnlyHalf(before, hosts[i].vmName);
      StepSerial(before, since, later, hosts[i].vmName);
      StaysOnlyHalf(before, after, hosts[i].vmName);
    }
  }

  /** What holds even if a guest has just failed. */
  ghost predicate Harmless(start: Vms, since: seq<Vms>, now: Vms, hosts: seq<HostConfig>)
  {
    && hosts != []
    && Untouched(start, now, Outside(hosts)) && AllUntouched(start, since, Outside(hosts))
    && (OnlyHalf(start, hosts[0].vmName) ==> Serial(since))
  }

  /** What the answer has for one host. */
  ghost predicate HasAddress(found: map<string, string>, vms: Vms, host: HostConfig)
  {
    host.hostname in found && host.vmName in vms && found[host.hostname] == vms[host.vmName].address != ""
  }

  /** Each hostname has the address of the machine configured under it, the last
      one if there are several. */
  ghost predicate Answers(found: map<string, string>, vms: Vms, hosts: seq<HostConfig>, i: nat)
    requires i <= |hosts|
  {
    && found.Keys == NamesUpTo(hosts, i)
    && forall j :: 0 <= j < i && IsLast(hosts, i, j) ==> HasAddress(found, vms, hosts[j])
  }

  /** No later host has the same hostname. */
  predicate IsLast(hosts: seq<HostConfig>, i: nat, j: nat)
    requires j < i <= |hosts|
  {
    forall k :: j < k < i ==> hosts[k].hostname != hosts[j].hostname
  }

  lemma AnswersOn(found: map<string, string>, b: Vms, c: Vms, hosts: seq<HostConfig>, i: nat, ova: Ova)
    requires NoDuplicates(VmNames(hosts)) && i < |hosts| && Answers(found, b, hosts, i)
    requires Elsewhere(b, c, hosts[i].vmName) && Stands(c, hosts[i], ova)
    requires forall j :: 0 <= j < i ==> Stands(b, hosts[j], ova)
    ensures Answers(found[hosts[i].hostname := c[hosts[i].vmName].address], c, hosts, i + 1)
  {
    var after := found[hosts[i].hostname := c[hosts[i].vmName].address];
    NamesSoFar(hosts, i);
    forall j | 0 <= j < i + 1 && IsLast(hosts, i + 1, j) ensures HasAddress(after, c, hosts[j]) {
      if j < i {
        assert hosts[i].hostname != hosts[j].hostname;
        assert IsLast(hosts, i, j);
        AddressKept(b, c, hosts, i, j);
      }
    }
  }

  lemma AddressKept(b: Vms, c: Vms, hosts: seq<HostConfig>, i: nat, j: nat)
    requires NoDuplicates(VmNames(hosts)) && j < i < |hosts| && Elsewhere(b, c, hosts[i].vmName)
    requires hosts[j].vmName in b && b[hosts[j].vmName].address != ""
    ensures hosts[j].vmName in c && c[hosts[j].vmName].address == b[hosts[j].vmName].address
  {
    assert VmNames(hosts)[j] != VmNames(hosts)[i];
    assert DriftsTo(b[hosts[j].vmName], c[hosts[j].vmName]);
  }

  /** What provisioning the first hosts does, given for each of them whether its
      adapter was to be bridged: one host after the other, in their order. */
  ghost function ClusterPlan(template: string, hosts: seq<HostConfig>, bridged: seq<bool>): seq<Op>
    requires |bridged| <= |hosts|
    decreases |bridged|
  {
    if bridged == [] then []
    else
      var i := |bridged| - 1;
      ClusterPlan(template, hosts, bridged[..i]) + ProvisionPlan(template, hosts[i], bridged[i])
  }

  /** The hosts are provisioned in their order, each in the order of its plan; all
      of them unless a step of one fails, and then no step follows. */
  ghost predicate Provisions(taken: seq<Step<Op>>, template: string, hosts: seq<HostConfig>, bridged: seq<bool>,
                             ok: bool)
  {
    && |bridged| <= |hosts| && (ok ==> |bridged| == |hosts|)
    && InOrder(taken, ClusterPlan(template, hosts, bridged), ok)
  }

  lemma OneMoreHost(taken: seq<Step<Op>>, one: seq<Step<Op>>, template: string, hosts: seq<HostConfig>,
                    bridged: seq<bool>, next: bool, ok: bool)
    requires |bridged| < |hosts| && InOrder(taken, ClusterPlan(template, hosts, bridged), true)
    requires InOrder(one, ProvisionPlan(template, hosts[|bridged|], next), ok)
    ensures InOrder(taken + one, ClusterPlan(template, hosts, bridged + [next]), ok)
  {
    var longer := bridged + [next];
    assert longer[..|bridged|] == bridged;
    NextSteps(taken, ClusterPlan(template, hosts, bridged), one, ProvisionPlan(template, hosts[|bridged|], next), ok);
  }

  /** One turn of the loop, whose records it carries on. */
  method ProvisionNext(h: Host, template: string, hosts: seq<HostConfig>, i: nat, found: map<string, string>,
                       ghost start: Vms, ghost past: seq<Vms>, ghost since: seq<Vms>)
    returns (longer: map<string, string>, ok: bool, ghost seen: seq<Vms>, ghost one: seq<Step<Op>>, ghost bridged: bool)
    requires i < |hosts| && NoDuplicates(VmNames(hosts)) && h.log == past + since
    requires Progress(start, since, h.vms, hosts, i, h.ova) && Answers(found, h.vms, hosts, i)
    modifies h`vms, h`log, h`calls, h`steps
    ensures h.log == past + seen && Harmless(start, seen, h.vms, hosts)
    ensures ok ==> Progress(start, seen, h.vms, hosts, i + 1, h.ova) && Answers(longer, h.vms, hosts, i + 1)
    ensures h.steps == old(h.steps) + one && InOrder(one, ProvisionPlan(template, hosts[i], bridged), ok)
  {
    var address;
    address, one, bridged := ProvisionHost(h, template, hosts[i]);
    ghost var later := h.log[|old(h.log)|..];
    PastAndLater(old(h.log), h.log);
    Regroup(past, since, later);
    seen := since + later;
    ProgressStep(start, since, old(h.vms), later, h.vms, hosts, i, h.ova);
    longer, ok := found, address.Some?;
    if ok {
      AnswersOn(found, old(h.vms), h.vms, hosts, i, h.ova);
      longer := found[hosts[i].hostname := address.value];
    }
  }

  /** The loop. */
  method ProvisionAll(h: Host, template: string, hosts: seq<HostConfig>)
    returns (found: map<string, string>, ok: bool, ghost since: seq<Vms>, ghost taken: seq<Step<Op>>,
             ghost bridged: seq<bool>)
    requires NoDuplicates(VmNames(hosts)) && Progress(h.vms, [], h.vms, hosts, 0, h.ova)
    modifies h`vms, h`log, h`calls, h`steps
    ensures h.log == old(h.log) + since && Harmless(old(h.vms), since, h.vms, hosts)
    ensures ok ==> Progress(old(h.vms), since, h.vms, hosts, |hosts|, h.ova) && Answers(found, h.vms, hosts, |hosts|)
    ensures h.steps == old(h.steps) + taken && Provisions(taken, template, hosts, bridged, ok)
  {
    found, since, taken, bridged := map[], [], [], [];
    AllNames(hosts);
    for i := 0 to |hosts|
      invariant h.log == old(h.log) + since && Harmless(old(h.vms), since, h.vms, hosts)
      invariant Progress(old(h.vms), since, h.vms, hosts, i, h.ova) && Answers(found, h.vms, hosts, i)
      invariant h.steps == old(h.steps) + taken
      invariant |bridged| == i && InOrder(taken, ClusterPlan(template, hosts, bridged), true)
    {
      ghost var one, next;
      found, ok, since, one, next := ProvisionNext(h, template, hosts, i, found, old(h.vms), old(h.log), since);
      Regroup(old(h.steps), taken, one);
      OneMoreHost(taken, one, template, hosts, bridged, next, ok);
      taken, bridged := taken + one, bridged + [next];
      if !ok {
        return found, false, since, taken, bridged;
      }
    }
    return found, true, since, taken, bridged;
  }

  /** Addresses by hostname, or None when a guest failed. */
  method ProvisionCluster(h: Host, config: ClusterConfig)
    returns (addresses: Option<map<string, string>>, ghost taken: seq<Step<Op>>, ghost bridged: seq<bool>)
    requires Validated(config)
    modifies h`vms, h`log, h`calls, h`steps
    ensures old(h.log) <= h.log && Harmless(old(h.vms), h.log[|old(h.log)|..], h.vms, config.AllHosts())
    ensures addresses.Some? ==>
              && (forall i :: 0 <= i < |config.AllHosts()| ==> Stands(h.vms, config.AllHosts()[i], h.ova))
              && addresses.value.Keys == Elements(HostnamesOf(config.AllHosts()))
              && Answers(addresses.value, h.vms, config.AllHosts(), |config.AllHosts()|)
    ensures addresses.Some? && old(OnlyHalf(h.vms, config.jump.vmName)) ==> NoneHalf(h.vms)
    ensures h.steps == old(h.steps) + taken
    ensures Provisions(taken, config.template, config.AllHosts(), bridged, addresses.Some?)
  {
    var hosts := config.AllHosts();
    AllNames(hosts);
    var found, ok;
    ghost var since;
    found, ok, since, taken, bridged := ProvisionAll(h, config.template, hosts);
    assert h.log[|old(h.log)|..] == since;
    return if ok then Some(found) else None, taken, bridged;
  }

  ghost function NamesUpTo(hosts: seq<HostConfig>, count: nat): set<string>
    requires count <= |hosts|
  {
    Elements(HostnamesOf(hosts)[..count])
  }

  lemma NamesSoFar(hosts: seq<HostConfig>, i: nat)
    requires i < |hosts|
    ensures NamesUpTo(hosts, i + 1) == NamesUpTo(hosts, i) + {hosts[i].hostname}
  {
    var names := HostnamesOf(hosts);
    assert names[..i + 1] == names[..i] + [names[i]];
  }

  lemma AllNames(hosts: seq<HostConfig>)
    ensures NamesUpTo(hosts, 0) == {} && NamesUpTo(hosts, |hosts|) == Elements(HostnamesOf(hosts))
  {
    assert HostnamesOf(hosts)[..|hosts|] == HostnamesOf(hosts);
  }

  /** Every host in its order. */
  ghost function TeardownPlan(hosts: seq<HostConfig>): (plan: seq<Op>)
    ensures |plan| == |hosts| && forall i :: 0 <= i < |hosts| ==> plan[i] == Destroying(hosts[i].vmName)
  {
    seq(|hosts|, i requires 0 <= i < |hosts| => Destroying(hosts[i].vmName))
  }

  /** What every turn of the teardown keeps. */
  ghost predicate TearsDown(start: Vms, since: seq<Vms>, now: Vms, hosts: seq<HostConfig>)
  {
    Untouched(start, now, Outside(hosts)) && AllUntouched(start, since, Outside(hosts)) && now.Keys <= start.Keys
  }

  ghost predicate NoneLeft(vms: Vms, hosts: seq<HostConfig>, i: nat)
  {
    i <= |hosts| && forall j :: 0 <= j < i ==> hosts[j].vmName !in vms
  }

  /** One turn of the loop. */
  method TeardownNext(h: Host, hosts: seq<HostConfig>, i: nat, ghost start: Vms, ghost since: seq<Vms>)
    returns (ok: bool, ghost later: seq<Vms>)
    requires i < |hosts| && TearsDown(start, since, h.vms, hosts) && NoneLeft(h.vms, hosts, i)
    modifies h`vms, h`log, h`calls, h`steps
    ensures h.log == old(h.log) + later && TearsDown(start, since + later, h.vms, hosts)
    ensures ok ==> NoneLeft(h.vms, hosts, i + 1)
    ensures h.steps == old(h.steps) + [Step(Destroying(hosts[i].vmName), ok)]
  {
    ok := DestroyGuest(h, hosts[i].vmName);
    later := h.log[|old(h.log)|..];
    PastAndLater(old(h.log), h.log);
    StepUntouched(start, old(h.vms), h.vms, since, later, hosts, i);
  }

  /** False is a raised error, from the destruction that is the last step taken;
      what was destroyed before it stays destroyed. */
  method TeardownCluster(h: Host, config: ClusterConfig) returns (ok: bool, ghost taken: seq<Step<Op>>)
    modifies h`vms, h`log, h`calls, h`steps
    ensures old(h.log) <= h.log && TearsDown(old(h.vms), h.log[|old(h.log)|..], h.vms, config.AllHosts())
    ensures ok ==> NoneLeft(h.vms, config.AllHosts(), |config.AllHosts()|)
    ensures h.steps == old(h.steps) + taken && InOrder(taken, TeardownPlan(config.AllHosts()), ok)
  {
    ghost var since;
    ok, since, taken := TeardownAll(h, config.AllHosts());
    assert h.log[|old(h.log)|..] == since;
  }

  /** The loop. */
  method TeardownAll(h: Host, hosts: seq<HostConfig>)
    returns (ok: bool, ghost since: seq<Vms>, ghost taken: seq<Step<Op>>)
    modifies h`vms, h`log, h`calls, h`steps
    ensures h.log == old(h.log) + since && TearsDown(old(h.vms), since, h.vms, hosts)
    ensures ok ==> NoneLeft(h.vms, hosts, |hosts|)
    ensures h.steps == old(h.steps) + taken && InOrder(taken, TeardownPlan(hosts), ok)
  {
    since, taken := [], [];
    for i := 0 to |hosts|
      invariant h.log == old(h.log) + since && TearsDown(old(h.vms), since, h.vms, hosts)
      invariant NoneLeft(h.vms, hosts, i)
      invariant h.steps == old(h.steps) + taken && |taken| == i && InOrder(taken, TeardownPlan(hosts)[..i], true)
    {
      ghost var later;
      ok, later := TeardownNext(h, hosts, i, old(h.vms), since);
      Regroup(old(h.log), since, later);
      since := since + later;
      taken := TakeStep(old(h.steps), taken, TeardownPlan(hosts), ok);
      if !ok {
        return false, since, taken;
      }
    }
    Whole(TeardownPlan(hosts));
    return true, since, taken;
  }

  method DestroyGuest(h: Host, name: string) returns (ok: bool)
    modifies h`vms, h`log, h`calls, h`steps
    ensures Elsewhere(old(h.vms), h.vms, name) && h.vms.Keys <= old(h.vms).Keys
    ensures old(h.log) <= h.log && AllElsewhere(old(h.vms), h.log[|old(h.log)|..], name)
    ensures ok ==> name !in h.vms
    ensures h.steps == old(h.steps) + [Step(Destroying(name), ok)]
  {
    ok := h.Destroy(name, 3);
    GoneOrDrifted(old(h.vms), h.vms, name);
    forall i | |old(h.log)| <= i < |h.log| ensures Elsewhere(old(h.vms), h.log[i], name) {
      GoneOrDrifted(old(h.vms), h.log[i], name);
    }
  }

  // ---------------------------------------------------------------------
  // Any sequence of operations
  // ---------------------------------------------------------------------

  datatype Operation = Provision | Teardown

  /** Whatever operations are run, failing or not, the template is there in
      every state passed through and has at most stopped by itself. */
  method Operate(h: Host, config: ClusterConfig, plan: seq<Operation>)
    requires Validated(config) && config.template in h.vms
    modifies h`vms, h`log, h`calls, h`steps
    ensures old(h.log) <= h.log
    ensures forall i :: |old(h.log)| <= i < |h.log| ==>
              config.template in h.log[i] && DriftsTo(old(h.vms)[config.template], h.log[i][config.template])
    ensures config.template in h.vms && DriftsTo(old(h.vms)[config.template], h.vms[config.template])
  {
    for n := 0 to |plan|
      invariant Untouched(old(h.vms), h.vms, Outside(config.AllHosts()))
      invariant old(h.log) <= h.log && AllUntouched(old(h.vms), h.log[|old(h.log)|..], Outside(config.AllHosts()))
    {
      ghost var before, past := h.vms, h.log;
      if plan[n] == Provision {
        var _, _, _ := ProvisionCluster(h, config);
      } else {
        var _, _ := TeardownCluster(h, config);
      }
      ghost var seen, later := past[|old(h.log)|..], h.log[|past|..];
      LaterPart(past, h.log, |old(h.log)|);
      UntouchedOn(old(h.vms), before, h.vms, seen, later, Outside(config.AllHosts()));
    }
    forall i | |old(h.log)| <= i < |h.log| ensures Untouched(old(h.vms), h.log[i], Outside(config.AllHosts())) {
      assert h.log[i] == h.log[|old(h.log)|..][i - |old(h.log)|];
    }
  }

  lemma UntouchedOn(a: Vms, b: Vms, c: Vms, past: seq<Vms>, later: seq<Vms>, names: iset<string>)
    requires Untouched(a, b, names) && AllUntouched(a, past, names)
    requires Untouched(b, c, names) && AllUntouched(b, later, names)
    ensures Untouched(a, c, names) && AllUntouched(a, past + later, names)
  {
    UntouchedTransitively(a, b, c, names);
    forall j | 0 <= j < |past + later| ensures Untouched(a, (past + later)[j], names) {
      if j >= |past| {
        UntouchedTransitively(a, b, later[j - |past|], names);
      }
    }
  }

  // ---------------------------------------------------------------------
  // What validation is for
  // ---------------------------------------------------------------------

  ghost predicate AllStand(vms: Vms, hosts: seq<HostConfig>, ova: Ova)
  {
    forall i :: 0 <= i < |hosts| ==> Stands(vms, hosts[i], ova)
  }

  predicate NamesAgree(hosts: seq<HostConfig>)
  {
    forall i, j :: 0 <= i < j < |hosts| && hosts[i].vmName == hosts[j].vmName ==> hosts[i].hostname == hosts[j].hostname
  }

  /** All guests can stand at once exactly when no machine name is given to two
      hostnames, which unique machine names guarantee. */
  lemma CanAllStandExactly(hosts: seq<HostConfig>, ova: Ova)
    ensures (exists vms :: AllStand(vms, hosts, ova)) <==> NamesAgree(hosts)
    ensures NoDuplicates(VmNames(hosts)) ==> NamesAgree(hosts)
  {
    if NamesAgree(hosts) {
      MachinesStand(hosts, ova);
    }
    if NoDuplicates(VmNames(hosts)) {
      forall i, j | 0 <= i < j < |hosts| ensures hosts[i].vmName != hosts[j].vmName {
        assert VmNames(hosts)[i] != VmNames(hosts)[j];
      }
    }
  }

  ghost function Machines(hosts: seq<HostConfig>, ova: Ova): Vms
    decreases |hosts|
  {
    if hosts == [] then map[]
    else
      var last := hosts[|hosts| - 1];
      var disk := if ova.Completed? then ova.image else map[];
      var vm := Vm(Running, disk, [], Some(last.hostname), true, last.hostname, "10.0.0.1");
      Machines(hosts[..|hosts| - 1], ova)[last.vmName := vm]
  }

  lemma {:induction false} MachinesStand(hosts: seq<HostConfig>, ova: Ova)
    requires NamesAgree(hosts)
    ensures AllStand(Machines(hosts, ova), hosts, ova)
    decreases |hosts|
  {
    if hosts == [] {
    } else {
      var front, last := hosts[..|hosts| - 1], hosts[|hosts| - 1];
      assert forall i :: 0 <= i < |front| ==> front[i] == hosts[i];
      MachinesStand(front, ova);
      forall i | 0 <= i < |front| ensures Stands(Machines(hosts, ova), hosts[i], ova) {
        assert Stands(Machines(front, ova), front[i], ova);
      }
    }
  }

  /** Hostnames are not checked for repeats: the result of provisioning has an
      address for every guest exactly when no two share a hostname. */
  lemma AnAddressPerGuestExactly(hosts: seq<HostConfig>, addresses: map<string, string>)
    requires addresses.Keys == Elements(HostnamesOf(hosts))
    ensures |addresses| == |hosts| <==> NoDuplicates(HostnamesOf(hosts))
  {
    SetSizeFindsDuplicates(HostnamesOf(hosts));
    assert |addresses| == |addresses.Keys|;
  }

  /** There is a configuration that passes validation and loses an address. */
  lemma RepeatedHostnamesPass() returns (config: ClusterConfig)
    ensures |config.backends| >= 2 && ValidateCrossReferences(config) == None
    ensures !NoDuplicates(HostnamesOf(config.AllHosts()))
  {
    config := ClusterConfig("template", HostConfig("jump", "node", 80),
                            [HostConfig("first", "node", 80), HostConfig("second", "node", 80)], 8080);
    var names := VmNames(config.AllHosts());
    assert |"template"| == 8 && |"jump"| == 4 && |"first"| == 5 && |"second"| == 6;
    assert |names| == 3 && |names[0]| == 4 && |names[1]| == 5 && |names[2]| == 6;
    assert HostnamesOf(config.AllHosts())[0] == HostnamesOf(config.AllHosts())[1];
    AcceptsExactly(config);
  }

  /** The machine has stopped, if it was running. */
  function Stopped(a: Vms, name: string): Vms
  {
    if name in a && a[name].state == Running then a[name := a[name].(state := PoweredOff)] else a
  }

  /** The run that provisioning takes when every command is carried out and
      nothing happens by itself: stop, remove, import, seed, start. */
  function Undisturbed(a: Vms, host: HostConfig, disk: Image): seq<Vms>
  {
    var n := host.vmName;
    var stopped := Stopped(a, n);
    var removed := stopped - {n};
    var imported := removed[n := Imported(disk)];
    var seeded := Seeded(imported, n, host.hostname);
    [stopped, removed, imported, seeded, Started(seeded, n)]
  }

  lemma ChainCons(a: Vms, b: Vms, rest: seq<Vms>, name: string)
    requires Moves(a, b, name) && Chain(b, rest, name)
    ensures Chain(a, [b] + rest, name)
  {
    assert ([b] + rest)[1..] == rest;
  }

  lemma UndisturbedIsARun(a: Vms, host: HostConfig, disk: Image)
    ensures Chain(a, Undisturbed(a, host, disk), host.vmName)
  {
    var n, states := host.vmName, Undisturbed(a, host, disk);
    assert Drift(a, states[0]);
    assert n !in states[0] ==> states[1] == states[0];
    ChainCons(states[3], states[4], [], n);
    ChainCons(states[2], states[3], [states[4]] + [], n);
    ChainCons(states[1], states[2], [states[3]] + ([states[4]] + []), n);
    ChainCons(states[0], states[1], [states[2]] + ([states[3]] + ([states[4]] + [])), n);
    ChainCons(a, states[0], [states[1]] + ([states[2]] + ([states[3]] + ([states[4]] + []))), n);
    assert states == [states[0]] + ([states[1]] + ([states[2]] + ([states[3]] + ([states[4]] + []))));
  }

  /** Over all runs that commands for one machine can take, and already over the
      one in the order of provisioning, at most one guest is ever half-configured
      exactly when no other one was at the start. */
  lemma SerialRunsExactly(a: Vms, host: HostConfig, disk: Image)
    ensures (forall states :: Chain(a, states, host.vmName) ==> Serial(states)) <==> OnlyHalf(a, host.vmName)
    ensures Serial(Undisturbed(a, host, disk)) <==> OnlyHalf(a, host.vmName)
  {
    var run, n := Undisturbed(a, host, disk), host.vmName;
    UndisturbedIsARun(a, host, disk);
    if OnlyHalf(a, n) {
      forall states | Chain(a, states, n) ensures Serial(states) {
        ChainElsewhere(a, states, n);
        forall i | 0 <= i < |states| ensures AtMostOneHalf(states[i]) {
          StaysOnlyHalf(a, states[i], n);
        }
      }
    } else {
      var k :| k in a && HalfConfigured(a[k]) && k != n;
      assert HalfConfigured(run[4][k]) && HalfConfigured(run[4][n]);
      assert !AtMostOneHalf(run[4]);
      assert Chain(a, run, host.vmName) && !Serial(run);
    }
  }
}
