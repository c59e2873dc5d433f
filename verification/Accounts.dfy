/** Hardening the template's accounts: create and verify the operational user,
    then disable the bootstrap one, while commands fail at will. */
module Accounts {
  import opened Basics

  // ---------------------------------------------------------------------
  // The guest, as far as logins and sudo are concerned
  // ---------------------------------------------------------------------

  datatype User = User(loginShell: bool, passwordLocked: bool, inSudoGroup: bool)

  datatype File = File(lines: seq<string>, owner: string, mode: string)

  /** `sshDirs` are the accounts with a private directory for keys of their own. */
  datatype Guest = Guest(users: map<string, User>, files: map<string, File>, sshDirs: set<string>)

  /** What is known outside: public keys whose private halves are held locally
      and accounts whose password is known. And the guest's programs: whether
      sshd takes passwords, and which rules sudo parses. */
  datatype Site = Site(keys: set<string>, passwords: set<string>, passwordLogin: bool, parses: string -> bool)

  function Authorized(u: string): string
  {
    "/home/" + u + "/.ssh/authorized_keys"
  }

  function Sudoers(u: string): string
  {
    "/etc/sudoers.d/90-" + u
  }

  function Rule(u: string): string
  {
    u + " ALL=(ALL) NOPASSWD:ALL"
  }

  /** Sudo passes over files whose name has a dot in it or ends in a tilde. */
  predicate IsReadName(name: string)
  {
    name != "" && '.' !in name && '/' !in name && name[|name| - 1] != '~'
  }

  predicate IsSudoersFile(path: string)
  {
    "/etc/sudoers.d/" <= path && IsReadName(path[15..])
  }

  /** Whether the rule file of an account is one that sudo reads. */
  predicate RuleIsRead(u: string)
  {
    '.' !in u && '/' !in u && (u == "" || u[|u| - 1] != '~')
  }

  /** One malformed file under sudoers.d refuses sudo to everybody. */
  predicate SudoHealthy(site: Site, g: Guest)
  {
    forall path :: path in g.files && IsSudoersFile(path) ==>
      forall i :: 0 <= i < |g.files[path].lines| ==> site.parses(g.files[path].lines[i])
  }

  /** A key file that belongs to the account and lists a key held locally. */
  predicate HasKey(site: Site, g: Guest, u: string)
  {
    && Authorized(u) in g.files
    && g.files[Authorized(u)].owner == u
    && exists key :: key in site.keys && key in g.files[Authorized(u)].lines
  }

  predicate HasPassword(site: Site, g: Guest, u: string)
  {
    site.passwordLogin && u in g.users && !g.users[u].passwordLocked && u in site.passwords
  }

  /** A login needs a shell, and a key or a password. */
  predicate CanLogin(site: Site, g: Guest, u: string)
  {
    u in g.users && g.users[u].loginShell && (HasKey(site, g, u) || HasPassword(site, g, u))
  }

  /** Root is reached by a rule that is read, or by group and a known password. */
  predicate CanReachRoot(site: Site, g: Guest, u: string)
  {
    && SudoHealthy(site, g)
    && u in g.users
    && (|| (RuleIsRead(u) && Sudoers(u) in g.files && Rule(u) in g.files[Sudoers(u)].lines)
        || (g.users[u].inSudoGroup && !g.users[u].passwordLocked && u in site.passwords))
  }

  /** The account can be used with a local key, as every later command does. */
  predicate Works(site: Site, g: Guest, u: string)
  {
    u in g.users && g.users[u].loginShell && HasKey(site, g, u) && CanReachRoot(site, g, u)
  }

  // ---------------------------------------------------------------------
  // The privileged commands
  // ---------------------------------------------------------------------

  datatype Command =
    | UserAdd(u: string)
    | JoinSudo(u: string)
    | MakeSshDir(u: string)
    | PutKey(u: string, key: string)
    | OwnKey(u: string)
    | RestrictKey(u: string)
    | PutRule(u: string)
    | DropRule(u: string)
    | LockPassword(u: string)
    | UnlockPassword(u: string)
    | SetNologin(u: string)
    | SetBash(u: string)
    | LeaveSudo(u: string)
    | DropKeys(u: string)
    // questions
    | AskId(u: string)
    | CheckRule(u: string)
    | AskRoot(u: string)

  function Edit(g: Guest, u: string, to: User -> User): Guest
  {
    if u in g.users then g.(users := g.users[u := to(g.users[u])]) else g
  }

  /** The effect of a command that is carried out. */
  function Apply(c: Command, g: Guest): Guest
  {
    match c
    case UserAdd(u) => if u in g.users then g else g.(users := g.users[u := User(true, true, false)])
    case JoinSudo(u) => Edit(g, u, (x: User) => x.(inSudoGroup := true))
    case MakeSshDir(u) => g.(sshDirs := g.sshDirs + {u})
    case PutKey(u, key) =>
      if u in g.sshDirs then g.(files := g.files[Authorized(u) := File([key], "root", "600")]) else g
    case OwnKey(u) =>
      if Authorized(u) in g.files
      then g.(files := g.files[Authorized(u) := g.files[Authorized(u)].(owner := u)]) else g
    case RestrictKey(u) =>
      if Authorized(u) in g.files
      then g.(files := g.files[Authorized(u) := g.files[Authorized(u)].(mode := "600")]) else g
    case PutRule(u) => g.(files := g.files[Sudoers(u) := File([Rule(u)], "root", "440")])
    case DropRule(u) => g.(files := g.files - {Sudoers(u)})
    case LockPassword(u) => Edit(g, u, (x: User) => x.(passwordLocked := true))
    case UnlockPassword(u) => Edit(g, u, (x: User) => x.(passwordLocked := false))
    case SetNologin(u) => Edit(g, u, (x: User) => x.(loginShell := false))
    case SetBash(u) => Edit(g, u, (x: User) => x.(loginShell := true))
    case LeaveSudo(u) => Edit(g, u, (x: User) => x.(inSudoGroup := false))
    case DropKeys(u) => g.(files := g.files - {Authorized(u)})
    case AskId(_) => g
    case CheckRule(_) => g
    case AskRoot(_) => g
  }

  function ApplyAll(cs: seq<Command>, g: Guest): Guest
  {
    if cs == [] then g else ApplyAll(cs[1..], Apply(cs[0], g))
  }

  /** What creating and enabling an account have in common. */
  function InstallCommands(u: string, key: string): seq<Command>
  {
    [JoinSudo(u), MakeSshDir(u), PutKey(u, key), OwnKey(u), RestrictKey(u), PutRule(u)]
  }

  function CreateCommands(u: string, key: string, exists_: bool): seq<Command>
  {
    (if exists_ then [] else [UserAdd(u)]) + InstallCommands(u, key)
  }

  function DisableCommands(u: string): seq<Command>
  {
    [LockPassword(u), SetNologin(u), LeaveSudo(u), DropRule(u), DropKeys(u)]
  }

  function EnableCommands(u: string, key: string): seq<Command>
  {
    [UnlockPassword(u), SetBash(u)] + InstallCommands(u, key)
  }

  // ---------------------------------------------------------------------
  // One account's commands never touch another account
  // ---------------------------------------------------------------------

  /** Everything that belongs to an account is the same. */
  predicate SameAccount(a: Guest, b: Guest, u: string)
  {
    && (u in a.users <==> u in b.users) && (u in a.users ==> a.users[u] == b.users[u])
    && SameFile(a, b, Authorized(u)) && SameFile(a, b, Sudoers(u))
    && (u in a.sshDirs <==> u in b.sshDirs)
  }

  predicate SameFile(a: Guest, b: Guest, path: string)
  {
    (path in a.files <==> path in b.files) && (path in a.files ==> a.files[path] == b.files[path])
  }

  lemma PathsNameTheirOwner(u: string, v: string)
    ensures Authorized(u) == Authorized(v) ==> u == v
    ensures Sudoers(u) == Sudoers(v) ==> u == v
  {
    if Authorized(u) == Authorized(v) {
      assert |u| == |v|;
      assert u == Authorized(u)[6..6 + |u|] == Authorized(v)[6..6 + |v|] == v;
    }
    if Sudoers(u) == Sudoers(v) {
      assert u == Sudoers(u)[18..] == Sudoers(v)[18..] == v;
    }
  }

  lemma PathsAreDistinct(u: string, v: string)
    requires u != v
    ensures Authorized(u) != Authorized(v) && Sudoers(u) != Sudoers(v) && Authorized(u) != Sudoers(v)
  {
    PathsNameTheirOwner(u, v);
    assert Authorized(u)[1] == 'h' && Sudoers(v)[1] == 'e';
  }

  lemma KeyFileIsNoRule(u: string)
    ensures Authorized(u) != Sudoers(u) && !IsSudoersFile(Authorized(u))
    ensures IsSudoersFile(Sudoers(u)) <==> RuleIsRead(u)
  {
    assert Authorized(u)[1] == 'h' && Sudoers(u)[1] == 'e' && "/etc/sudoers.d/"[1] == 'e';
    assert Sudoers(u)[15..] == "90-" + u;
    assert forall c :: c in "90-" + u <==> c in "90-" || c in u;
  }

  lemma ForeignCommand(c: Command, g: Guest, u: string)
    requires c.u != u
    ensures SameAccount(g, Apply(c, g), u)
  {
    PathsAreDistinct(c.u, u);
    PathsAreDistinct(u, c.u);
  }

  /** Sudo parses the account's rule, or never looks at it. */
  predicate RuleIsHarmless(site: Site, u: string)
  {
    RuleIsRead(u) ==> site.parses(Rule(u))
  }

  lemma HealthIsKept(site: Site, c: Command, g: Guest)
    requires SudoHealthy(site, g) && (c.PutRule? ==> RuleIsHarmless(site, c.u))
    ensures SudoHealthy(site, Apply(c, g))
  {
    KeyFileIsNoRule(c.u);
  }

  /** Installing a rule keeps sudo working exactly if sudo parses it or passes
      over the file. Until the check of its syntax has been answered, any other
      name leaves nobody able to reach root. */
  lemma RuleKeepsSudoExactly(site: Site, g: Guest, u: string)
    requires SudoHealthy(site, g)
    ensures SudoHealthy(site, Apply(PutRule(u), g)) <==> RuleIsHarmless(site, u)
    ensures !RuleIsHarmless(site, u) ==> forall v :: !CanReachRoot(site, Apply(PutRule(u), g), v)
  {
    var after := Apply(PutRule(u), g);
    KeyFileIsNoRule(u);
    if RuleIsHarmless(site, u) {
      HealthIsKept(site, PutRule(u), g);
    } else {
      assert after.files[Sudoers(u)].lines[0] == Rule(u);
    }
  }

  /** A working account goes on working whatever is done to another one. */
  lemma ForeignCommandKeepsWorking(site: Site, c: Command, g: Guest, u: string)
    requires c.u != u && (c.PutRule? ==> RuleIsHarmless(site, c.u))
    requires Works(site, g, u)
    ensures Works(site, Apply(c, g), u)
  {
    ForeignCommand(c, g, u);
    HealthIsKept(site, c, g);
  }

  /** The commands of a list that are carried out. */
  function Effective(cs: seq<Command>, effective: seq<bool>): seq<Command>
    requires |cs| == |effective|
  {
    if cs == [] then []
    else (if effective[0] then [cs[0]] else []) + Effective(cs[1..], effective[1..])
  }

  lemma {:induction false} EffectiveSnoc(cs: seq<Command>, e: seq<bool>, c: Command, b: bool)
    requires |cs| == |e|
    ensures Effective(cs + [c], e + [b]) == Effective(cs, e) + if b then [c] else []
    decreases |cs|
  {
    if cs == [] {
      assert (cs + [c])[1..] == [] && (e + [b])[1..] == [];
    } else {
      assert (cs + [c])[1..] == cs[1..] + [c] && (e + [b])[1..] == e[1..] + [b];
      EffectiveSnoc(cs[1..], e[1..], c, b);
    }
  }

  lemma {:induction false} AllEffective(cs: seq<Command>, e: seq<bool>)
    requires |cs| == |e| && forall i :: 0 <= i < |e| ==> e[i]
    ensures Effective(cs, e) == cs
    decreases |cs|
  {
    if cs == [] {
    } else {
      AllEffective(cs[1..], e[1..]);
    }
  }

  lemma {:induction false} ApplyAllSnoc(cs: seq<Command>, c: Command, g: Guest)
    ensures ApplyAll(cs + [c], g) == Apply(c, ApplyAll(cs, g))
    decreases |cs|
  {
    if cs == [] {
      assert (cs + [c])[1..] == [];
    } else {
      assert (cs + [c])[1..] == cs[1..] + [c];
      ApplyAllSnoc(cs[1..], c, Apply(cs[0], g));
    }
  }

  /** One more command, carried out or not. */
  lemma OneMoreCommand(cs: seq<Command>, i: nat, e: seq<bool>, b: bool, start: Guest)
    requires i < |cs| && |e| == i
    ensures ApplyAll(Effective(cs[..i + 1], e + [b]), start) ==
            var g := ApplyAll(Effective(cs[..i], e), start); if b then Apply(cs[i], g) else g
  {
    assert cs[..i + 1] == cs[..i] + [cs[i]];
    EffectiveSnoc(cs[..i], e, cs[i], b);
    var before := Effective(cs[..i], e);
    ApplyAllSnoc(before, cs[i], start);
    assert before + [] == before;
  }

  // ---------------------------------------------------------------------
  // The setup as it runs
  // ---------------------------------------------------------------------

  /** How a command ends: with status zero, with another status, or with the
      connection lost. Except in the first case it may or may not have been
      carried out. */
  datatype Reply = Succeeded | Refused | Lost

  /** The guest after the new account has been created in full and the bootstrap
      account disabled by those commands that were carried out. */
  function Hardened(g: Guest, bootstrap: string, newUser: string, key: string, disabled: seq<bool>): Guest
    requires |disabled| == 5
  {
    ApplyAll(Effective(DisableCommands(bootstrap), disabled), ApplyAll(CreateCommands(newUser, key, newUser in g.users), g))
  }

  ghost predicate CarriedOut(done: seq<bool>)
  {
    forall k :: 0 <= k < |done| ==> done[k]
  }

  /** From one state of the guest on, an account is as it was at the start, and
      sudo works. */
  ghost predicate Spared(site: Site, start: Guest, log: seq<Guest>, from: nat, u: string)
  {
    forall i :: from <= i < |log| ==> SameAccount(start, log[i], u) && SudoHealthy(site, log[i])
  }

  lemma SparedLonger(site: Site, start: Guest, log: seq<Guest>, from: nat, u: string, now: Guest)
    requires Spared(site, start, log, from, u) && SameAccount(start, now, u) && SudoHealthy(site, now)
    ensures Spared(site, start, log + [now], from, u)
  {
  }

  lemma SparedWorks(site: Site, start: Guest, log: seq<Guest>, from: nat, u: string, now: Guest)
    requires Spared(site, start, log, from, u) && Works(site, start, u)
    requires SameAccount(start, now, u) && SudoHealthy(site, now)
    ensures Works(site, now, u)
    ensures forall i :: from <= i < |log| ==> Works(site, log[i], u) && SameAccount(log[i], now, u)
  {
  }

  /** A command given: whether a failing status was to raise, how it ended, and
      whether it was carried out. */
  datatype Issued = Issued(command: Command, checked: bool, reply: Reply, effective: bool)

  predicate Raises(i: Issued)
  {
    i.reply.Lost? || (i.checked && i.reply.Refused?)
  }

  /** The commands were given in their order until one raised, which is the only
      way to fail. */
  predicate Issues(taken: seq<Issued>, cs: seq<Command>, check: bool, ok: bool)
  {
    && |taken| <= |cs|
    && (forall k :: 0 <= k < |taken| ==> taken[k].command == cs[k] && taken[k].checked == check)
    && (forall k :: 0 <= k < |taken| - 1 ==> !Raises(taken[k]))
    && (ok ==> |taken| == |cs|)
    && (taken == [] ==> ok)
    && (taken != [] ==> (ok <==> !Raises(taken[|taken| - 1])))
  }

  /** A creation asks whether the account exists, gives its commands, has the
      syntax of the rule checked, and withdraws the rule where the check
      objects. */
  predicate Creates(taken: seq<Issued>, cs: seq<Command>, u: string, ok: bool)
  {
    && taken != [] && taken[0].command == AskId(u) && !taken[0].checked
    && if taken[0].reply.Lost? then |taken| == 1 && !ok
       else if |taken| <= |cs| + 1 then !ok && Issues(taken[1..], cs, true, false)
       else
         && Issues(taken[1..|cs| + 1], cs, true, true)
         && taken[|cs| + 1].command == CheckRule(u) && !taken[|cs| + 1].checked
         && match taken[|cs| + 1].reply
            case Succeeded => ok && |taken| == |cs| + 2
            case Lost => !ok && |taken| == |cs| + 2
            case Refused => !ok && |taken| == |cs| + 3 && taken[|cs| + 2].command == DropRule(u)
  }

  /** The commands of a setup, by its three parts. */
  datatype SetupRecord = SetupRecord(creating: seq<Issued>, verifying: seq<Issued>, disabling: seq<Issued>)

  /** A setup goes on to the verification exactly if the creation went through,
      and to the disabling exactly if the question was answered and the account
      works; it fails where one of its commands raises, or the account does not
      work. */
  ghost predicate SetsUp(site: Site, taken: SetupRecord, start: Guest, bootstrap: string, newUser: string,
                          key: string, ok: bool)
  {
    var commands := CreateCommands(newUser, key, newUser in start.users);
    if taken.verifying == [] then !ok && taken.disabling == [] && Creates(taken.creating, commands, newUser, false)
    else
      && Creates(taken.creating, commands, newUser, true)
      && |taken.verifying| == 1 && taken.verifying[0].command == AskRoot(newUser)
      && if !taken.verifying[0].reply.Lost? && Works(site, ApplyAll(commands, start), newUser)
         then Issues(taken.disabling, DisableCommands(bootstrap), false, ok)
         else !ok && taken.disabling == []
  }

  lemma GoesOn(site: Site, creating: seq<Issued>, asked: Issued, disabling: seq<Issued>, start: Guest, middle: Guest,
               bootstrap: string, newUser: string, key: string, ok: bool)
    requires Creates(creating, CreateCommands(newUser, key, newUser in start.users), newUser, true)
    requires middle == ApplyAll(CreateCommands(newUser, key, newUser in start.users), start)
    requires asked.command == AskRoot(newUser)
    requires if !asked.reply.Lost? && Works(site, middle, newUser)
             then Issues(disabling, DisableCommands(bootstrap), false, ok) else !ok && disabling == []
    ensures SetsUp(site, SetupRecord(creating, [asked], disabling), start, bootstrap, newUser, key, ok)
  {
  }

  /** Which of the commands issued were carried out. */
  predicate Records(taken: seq<Issued>, done: seq<bool>)
  {
    |taken| == |done| && forall k :: 0 <= k < |done| ==> taken[k].effective == done[k]
  }

  lemma IssuedOne(past: seq<Issued>, taken: seq<Issued>, cs: seq<Command>, i: nat, one: Issued)
    requires i < |cs| && |taken| == i && Issues(taken, cs[..i], one.checked, true) && one.command == cs[i]
    ensures past + taken + [one] == past + (taken + [one])
    ensures if Raises(one) then Issues(taken + [one], cs, one.checked, false)
            else Issues(taken + [one], cs[..i + 1], one.checked, true)
  {
  }

  /** How far a list of commands has come. */
  ghost predicate Going(site: Site, start: Guest, log: seq<Guest>, from: nat, now: Guest, other: string,
                        cs: seq<Command>, check: bool, done: seq<bool>, taken: seq<Issued>, i: nat)
  {
    && Spared(site, start, log, from, other) && SameAccount(start, now, other) && SudoHealthy(site, now)
    && |done| == i <= |cs| && now == ApplyAll(Effective(cs[..i], done), start)
    && (check ==> CarriedOut(done)) && Records(taken, done)
  }

  lemma AskedThenIssued(asked: Issued, more: seq<Issued>, cs: seq<Command>, u: string)
    requires asked.command == AskId(u) && !asked.checked
    requires asked.reply.Lost? ==> more == []
    ensures asked.reply.Lost? || Issues(more, cs, true, false) ==> Creates([asked] + more, cs, u, false)
  {
    assert ([asked] + more)[1..] == more;
  }

  lemma ThenChecked(asked: Issued, more: seq<Issued>, cs: seq<Command>, u: string, checked: Issued, dropping: seq<Issued>)
    requires asked.command == AskId(u) && !asked.checked && !asked.reply.Lost?
    requires Issues(more, cs, true, true) && checked.command == CheckRule(u) && !checked.checked
    requires if checked.reply.Refused? then |dropping| == 1 && dropping[0].command == DropRule(u) else dropping == []
    ensures Creates([asked] + more + ([checked] + dropping), cs, u, checked.reply.Succeeded?)
  {
    var all := [asked] + more + ([checked] + dropping);
    assert all[1..|cs| + 1] == more;
  }

  lemma SparedOn(site: Site, start: Guest, mid: Guest, past: seq<Guest>, log: seq<Guest>, from: nat, u: string)
    requires Spared(site, start, past, from, u) && past <= log && from <= |past|
    requires SameAccount(start, mid, u) && Spared(site, mid, log, |past|, u)
    ensures Spared(site, start, log, from, u)
  {
    forall i | from <= i < |log| ensures SameAccount(start, log[i], u) && SudoHealthy(site, log[i]) {
      if i < |past| {
        assert log[i] == past[i];
      }
    }
  }

  lemma ShutOutSince(site: Site, start: Guest, middle: Guest, now: Guest, u: string, e: seq<bool>)
    requires |e| == 5 && SameAccount(start, middle, u) && CanLogin(site, start, u)
    requires now == ApplyAll(Effective(DisableCommands(u), e), middle)
    ensures CanLogin(site, now, u) <==> StillOpen(site, start, u, e)
  {
    DisablingShutsOutExactly(site, middle, u, e);
  }

  lemma NothingIssued(past: seq<Issued>)
    ensures past + [] == past && past + [] + [] == past && past + [] + [] + [] == past
  {
  }

  /** In every state of the log somebody with a local key can act as one of the two
      accounts. Up to the hand-over nothing of the bootstrap account has changed;
      from then on nothing of the new one does, and it works. */
  ghost predicate Safe(site: Site, start: Guest, log: seq<Guest>, from: nat, handedOver: nat, now: Guest,
                       bootstrap: string, newUser: string)
  {
    && from <= handedOver <= |log|
    && (forall i :: from <= i < |log| ==> Works(site, log[i], bootstrap) || Works(site, log[i], newUser))
    && (forall i :: from <= i < handedOver ==> SameAccount(start, log[i], bootstrap))
    && (forall i :: handedOver <= i < |log| ==> SameAccount(log[i], now, newUser) && Works(site, log[i], newUser))
    && (Works(site, now, bootstrap) || Works(site, now, newUser))
  }

  /** What a setup that runs to its end leaves: the new account created in full and
      working, and of the bootstrap account what the commands carried out left. */
  ghost predicate Finished(site: Site, start: Guest, now: Guest, bootstrap: string, newUser: string, key: string,
                           disabled: seq<bool>)
  {
    && Works(site, now, newUser)
    && |disabled| == 5 && now == Hardened(start, bootstrap, newUser, key, disabled)
    && DisabledAccount(start, now, bootstrap, disabled)
    && (CanLogin(site, now, bootstrap) <==> StillOpen(site, start, bootstrap, disabled))
  }

  /** The states of a setup, before and after it was handed over. */
  lemma HandedOver(site: Site, start: Guest, middle: Guest, past: seq<Guest>, log: seq<Guest>, from: nat,
                   bootstrap: string, newUser: string, now: Guest)
    requires past <= log && from <= |past| && Spared(site, start, past, from, bootstrap) && Works(site, start, bootstrap)
    requires SameAccount(start, middle, bootstrap) && SudoHealthy(site, middle)
    requires Spared(site, middle, log, |past|, newUser) && SameAccount(middle, now, newUser) && SudoHealthy(site, now)
    requires !Works(site, middle, newUser) ==> log == past && now == middle
    ensures Safe(site, start, log, from, |past|, now, bootstrap, newUser)
  {
    SparedWorks(site, start, past, from, bootstrap, middle);
    if Works(site, middle, newUser) {
      SparedWorks(site, middle, log, |past|, newUser, now);
    }
  }

  lemma NotHandedOver(site: Site, start: Guest, log: seq<Guest>, from: nat, bootstrap: string, newUser: string, now: Guest)
    requires from <= |log| && Spared(site, start, log, from, bootstrap) && Works(site, start, bootstrap)
    requires SameAccount(start, now, bootstrap) && SudoHealthy(site, now)
    ensures Safe(site, start, log, from, |log|, now, bootstrap, newUser)
  {
    SparedWorks(site, start, log, from, bootstrap, now);
  }

  lemma FinishesSetup(site: Site, start: Guest, middle: Guest, now: Guest, bootstrap: string, newUser: string, key: string,
                      e: seq<bool>)
    requires |e| == 5 && SameAccount(start, middle, bootstrap) && Works(site, start, bootstrap)
    requires middle == ApplyAll(CreateCommands(newUser, key, newUser in start.users), start)
    requires now == ApplyAll(Effective(DisableCommands(bootstrap), e), middle)
    requires Works(site, middle, newUser) && SameAccount(middle, now, newUser) && SudoHealthy(site, now)
    ensures Finished(site, start, now, bootstrap, newUser, key, e)
  {
    DisablingMeans(middle, bootstrap, e);
    DisabledSince(start, middle, now, bootstrap, e);
    ShutOutSince(site, start, middle, now, bootstrap, e);
  }

  class Template {
    const site: Site
    var now: Guest
    ghost var log: seq<Guest>
    ghost var issued: seq<Issued>

    constructor (site: Site, start: Guest)
      ensures this.site == site && now == start && log == [start] && issued == []
    {
      this.site := site;
      now := start;
      log := [start];
      issued := [];
    }

    method Issue(c: Command, check: bool) returns (reply: Reply, ghost effective: bool)
      modifies this
      ensures now == if effective then Apply(c, old(now)) else old(now)
      ensures reply == Succeeded ==> effective
      ensures log == old(log) + [now]
      ensures issued == old(issued) + [Issued(c, check, reply, effective)]
    {
      var reached: bool := *;
      reply := *;
      reached := reached || reply.Succeeded?;
      if reached {
        now := Apply(c, now);
      }
      effective := reached;
      log := log + [now];
      issued := issued + [Issued(c, check, reply, effective)];
    }

    /** A question: unless the connection is lost, the answer is the truth. */
    method Ask(question: Command, truth: bool) returns (reply: Reply)
      modifies this`issued
      ensures !reply.Lost? ==> (reply.Succeeded? <==> truth)
      ensures issued == old(issued) + [Issued(question, false, reply, false)]
    {
      var lost: bool := *;
      reply := if lost then Lost else if truth then Succeeded else Refused;
      issued := issued + [Issued(question, false, reply, false)];
    }

    /** One of the commands. */
    method IssueNext(cs: seq<Command>, i: nat, check: bool, ghost start: Guest, ghost from: nat, ghost other: string,
                     ghost done: seq<bool>, ghost taken: seq<Issued>)
      returns (raised: bool, ghost one: Issued)
      requires i < |cs| && cs[i].u != other && (cs[i].PutRule? ==> RuleIsHarmless(site, cs[i].u))
      requires from <= |log| && Going(site, start, log, from, now, other, cs, check, done, taken, i)
      modifies this
      ensures log == old(log) + [now] && issued == old(issued) + [one]
      ensures one.command == cs[i] && one.checked == check && (raised <==> Raises(one))
      ensures Going(site, start, log, from, now, other, cs, check && !raised, done + [one.effective], taken + [one], i + 1)
    {
      ForeignCommand(cs[i], now, other);
      HealthIsKept(site, cs[i], now);
      var reply;
      ghost var effective;
      ghost var before := log;
      reply, effective := Issue(cs[i], check);
      SparedLonger(site, start, before, from, other, now);
      OneMoreCommand(cs, i, done, effective, start);
      one := Issued(cs[i], check, reply, effective);
      return reply.Lost? || (check && reply.Refused?), one;
    }

    /** Run a list of commands on one account: with `check`, any reply but
        success raises; without, only a lost connection does. `done` says of
        each command issued whether it was carried out. */
    method IssueAll(cs: seq<Command>, check: bool, ghost u: string, ghost other: string)
      returns (ok: bool, ghost done: seq<bool>, ghost taken: seq<Issued>)
      requires SudoHealthy(site, now) && u != other
      requires forall i :: 0 <= i < |cs| ==> cs[i].u == u && (cs[i].PutRule? ==> RuleIsHarmless(site, u))
      modifies this
      ensures old(log) <= log
      ensures Spared(site, old(now), log, |old(log)|, other)
      ensures SameAccount(old(now), now, other) && SudoHealthy(site, now)
      ensures |done| <= |cs| && now == ApplyAll(Effective(cs[..|done|], done), old(now))
      ensures ok ==> |done| == |cs| && (check ==> CarriedOut(done))
      ensures issued == old(issued) + taken && Issues(taken, cs, check, ok)
      ensures Records(taken, done)
    {
      ok := true;
      done, taken := [], [];
      assert cs[..0] == [] && Effective([], []) == [];
      for i := 0 to |cs|
        invariant old(log) <= log
        invariant Going(site, old(now), log, |old(log)|, now, other, cs, check, done, taken, i)
        invariant issued == old(issued) + taken && Issues(taken, cs[..i], check, true)
      {
        var raised;
        ghost var one;
        raised, one := IssueNext(cs, i, check, old(now), |old(log)|, other, done, taken);
        IssuedOne(old(issued), taken, cs, i, one);
        done, taken := done + [one.effective], taken + [one];
        if raised {
          return false, done, taken;
        }
      }
      Whole(cs);
    }

    /** Ask whether the account exists, and give the commands that create or
        reconfigure it. `done` says that all were carried out. */
    method GiveCommands(u: string, key: string, ghost other: string)
      returns (ok: bool, ghost asked: Issued, ghost more: seq<Issued>)
      requires SudoHealthy(site, now) && u != other && RuleIsHarmless(site, u)
      modifies this
      ensures old(log) <= log
      ensures Spared(site, old(now), log, |old(log)|, other)
      ensures SameAccount(old(now), now, other) && SudoHealthy(site, now)
      ensures issued == old(issued) + ([asked] + more) && asked.command == AskId(u) && !asked.checked
      ensures asked.reply.Lost? ==> !ok && more == []
      ensures !asked.reply.Lost? ==> Issues(more, CreateCommands(u, key, u in old(now).users), true, ok)
      ensures ok ==> now == ApplyAll(CreateCommands(u, key, u in old(now).users), old(now))
    {
      ghost var past := issued;
      var reply := Ask(AskId(u), u in now.users);
      asked, more := Issued(AskId(u), false, reply, false), [];
      assert [asked] + [] == [asked];
      if reply.Lost? {
        return false, asked, more;
      }
      var commands := CreateCommands(u, key, reply.Succeeded?);
      ghost var done;
      ok, done, more := IssueAll(commands, true, u, other);
      Regroup(past, [asked], more);
      if ok {
        Whole(commands);
        AllEffective(commands, done);
      }
    }

    /** Have the syntax of the rule checked; where the check objects, take the rule
        away again. */
    method KeepRuleIfValid(u: string, ghost other: string)
      returns (ok: bool, ghost checked: Issued, ghost dropping: seq<Issued>)
      requires SudoHealthy(site, now) && u != other
      modifies this
      ensures old(log) <= log
      ensures Spared(site, old(now), log, |old(log)|, other)
      ensures SameAccount(old(now), now, other) && SudoHealthy(site, now)
      ensures issued == old(issued) + ([checked] + dropping) && checked.command == CheckRule(u) && !checked.checked
      ensures ok <==> checked.reply.Succeeded?
      ensures if checked.reply.Refused? then |dropping| == 1 && dropping[0].command == DropRule(u) else dropping == []
      ensures ok ==> now == old(now)
    {
      ghost var past := issued;
      var reply := Ask(CheckRule(u), site.parses(Rule(u)));
      checked, dropping := Issued(CheckRule(u), false, reply, false), [];
      assert [checked] + [] == [checked];
      if reply.Refused? {
        var _, _, dropped := IssueAll([DropRule(u)], false, u, other);
        dropping := dropped;
        Regroup(past, [checked], dropping);
      }
      return reply.Succeeded?, checked, dropping;
    }

    /** Create the account, or reconfigure it if it exists; its rule is taken
        away again if the syntax check objects. */
    method CreateAdminUser(u: string, key: string, ghost other: string) returns (ok: bool, ghost taken: seq<Issued>)
      requires SudoHealthy(site, now) && u != other && RuleIsHarmless(site, u)
      modifies this
      ensures old(log) <= log
      ensures Spared(site, old(now), log, |old(log)|, other)
      ensures SameAccount(old(now), now, other) && SudoHealthy(site, now)
      ensures issued == old(issued) + taken
      ensures Creates(taken, CreateCommands(u, key, u in old(now).users), u, ok)
      ensures ok ==> now == ApplyAll(CreateCommands(u, key, u in old(now).users), old(now))
      ensures ok ==> Created(old(now), now, u, key)
    {
      ghost var past, asked, more, checked, dropping;
      past := issued;
      ok, asked, more := GiveCommands(u, key, other);
      taken := [asked] + more;
      AskedThenIssued(asked, more, CreateCommands(u, key, u in old(now).users), u);
      if !ok {
        return;
      }
      ghost var created, logged := now, log;
      ok, checked, dropping := KeepRuleIfValid(u, other);
      SparedOn(site, old(now), created, logged, log, |old(log)|, other);
      ThenChecked(asked, more, CreateCommands(u, key, u in old(now).users), u, checked, dropping);
      Regroup(past, taken, [checked] + dropping);
      taken := taken + ([checked] + dropping);
      CreatingMeans(old(now), u, key);
    }

    /** Log in as the new account and ask for the user id under sudo. The answer
        is believed only when it comes. */
    method VerifyAdminAccess(u: string) returns (verified: bool, ghost asked: Issued)
      modifies this`issued
      ensures issued == old(issued) + [asked] && asked.command == AskRoot(u)
      ensures verified <==> !asked.reply.Lost? && Works(site, now, u)
    {
      var reply := Ask(AskRoot(u), Works(site, now, u));
      return reply.Succeeded?, Issued(AskRoot(u), false, reply, false);
    }

    method DisableBootstrapAccount(u: string, ghost other: string)
      returns (ok: bool, ghost done: seq<bool>, ghost taken: seq<Issued>)
      requires SudoHealthy(site, now) && u != other
      modifies this
      ensures old(log) <= log
      ensures Spared(site, old(now), log, |old(log)|, other)
      ensures SameAccount(old(now), now, other) && SudoHealthy(site, now)
      ensures issued == old(issued) + taken && Issues(taken, DisableCommands(u), false, ok)
      ensures Records(taken, done)
      ensures ok ==> |done| == 5 && now == ApplyAll(Effective(DisableCommands(u), done), old(now))
      ensures ok ==> Disabled(old(now), now, u, done)
    {
      ok, done, taken := IssueAll(DisableCommands(u), false, u, other);
      if ok {
        Whole(DisableCommands(u));
        DisablingMeans(old(now), u, done);
      }
    }

    /** Verify the new account, and only if it works disable the bootstrap one. */
    method HandOver(bootstrap: string, newUser: string)
      returns (ok: bool, ghost disabled: seq<bool>, ghost asked: Issued, ghost disabling: seq<Issued>)
      requires SudoHealthy(site, now) && newUser != bootstrap
      modifies this
      ensures old(log) <= log && issued == old(issued) + ([asked] + disabling) && asked.command == AskRoot(newUser)
      ensures if !asked.reply.Lost? && Works(site, old(now), newUser)
              then Issues(disabling, DisableCommands(bootstrap), false, ok)
              else !ok && disabling == [] && now == old(now) && log == old(log)
      ensures Spared(site, old(now), log, |old(log)|, newUser)
      ensures SameAccount(old(now), now, newUser) && SudoHealthy(site, now)
      ensures ok ==> |disabled| == 5 && now == ApplyAll(Effective(DisableCommands(bootstrap), disabled), old(now))
      ensures ok ==> Disabled(old(now), now, bootstrap, disabled)
    {
      ghost var past := issued;
      var verified;
      verified, asked := VerifyAdminAccess(newUser);
      ok, disabled, disabling := false, [], [];
      assert [asked] + [] == [asked];
      if verified {
        ok, disabled, disabling := DisableBootstrapAccount(bootstrap, newUser);
        Regroup(past, [asked], disabling);
      }
    }

    /** Whatever fails, and whenever: in every state along the way somebody holding
        a local key can log in and reach root. Up to the verification nothing of
        the bootstrap account changes; from then on nothing of the new one does,
        and it works. A setup that runs to its end leaves the guest with the new
        account created in full and the bootstrap account as far disabled as the
        unchecked commands went. */
    method RunSetup(bootstrap: string, newUser: string, key: string)
      returns (ok: bool, ghost verifiedAt: nat, ghost disabled: seq<bool>, ghost taken: SetupRecord)
      requires Works(site, now, bootstrap) && RuleIsHarmless(site, newUser)
      modifies this
      ensures old(log) <= log
      ensures Safe(site, old(now), log, |old(log)|, verifiedAt, now, bootstrap, newUser)
      ensures ok ==> Finished(site, old(now), now, bootstrap, newUser, key, disabled)
      ensures issued == old(issued) + taken.creating + taken.verifying + taken.disabling
      ensures if newUser == bootstrap then !ok && now == old(now) && taken == SetupRecord([], [], [])
              else SetsUp(site, taken, old(now), bootstrap, newUser, key, ok)
    {
      verifiedAt, disabled, taken := |log|, [], SetupRecord([], [], []);
      ghost var start, past, creating := now, issued, [];
      NothingIssued(past);
      if newUser == bootstrap {
        return false, verifiedAt, disabled, taken;
      }
      ok, creating := CreateAdminUser(newUser, key, bootstrap);
      taken := SetupRecord(creating, [], []);
      verifiedAt := |log|;
      NotHandedOver(site, start, log, |old(log)|, bootstrap, newUser, now);
      NothingIssued(past + creating);
      if !ok {
        return false, verifiedAt, disabled, taken;
      }
      ghost var middle, logged, asked, disabling := now, log, Issued(AskRoot(newUser), false, Lost, false), [];
      ok, disabled, asked, disabling := HandOver(bootstrap, newUser);
      taken := SetupRecord(creating, [asked], disabling);
      Regroup(past + creating, [asked], disabling);
      GoesOn(site, creating, asked, disabling, start, middle, bootstrap, newUser, key, ok);
      HandedOver(site, start, middle, logged, log, |old(log)|, bootstrap, newUser, now);
      if ok {
        FinishesSetup(site, start, middle, now, bootstrap, newUser, key, disabled);
      }
    }
  }

  // ---------------------------------------------------------------------
  // What the three procedures achieve
  // ---------------------------------------------------------------------

  /** A login is left: the shell has been kept, and the keys or a password that
      opened the account before. */
  predicate StillOpen(site: Site, g: Guest, u: string, e: seq<bool>)
    requires |e| == 5
  {
    !e[1] && ((HasKey(site, g, u) && !e[4]) || (HasPassword(site, g, u) && !e[0]))
  }

  /** Disabling takes its five commands unchecked. It shuts an account out exactly
      when the shell change was carried out, or the removal of the keys if there
      were keys together with the password lock if there was a password. */
  lemma DisablingShutsOutExactly(site: Site, g: Guest, u: string, e: seq<bool>)
    requires CanLogin(site, g, u) && |e| == 5
    ensures CanLogin(site, ApplyAll(Effective(DisableCommands(u), e), g), u) <==> StillOpen(site, g, u, e)
  {
    var g1 := if e[0] then Apply(LockPassword(u), g) else g;
    var g2 := if e[1] then Apply(SetNologin(u), g1) else g1;
    var g3 := if e[2] then Apply(LeaveSudo(u), g2) else g2;
    var g4 := if e[3] then Apply(DropRule(u), g3) else g3;
    FiveCommands(LockPassword(u), SetNologin(u), LeaveSudo(u), DropRule(u), DropKeys(u), e, g);
    RoutesAfter(site, g, LockPassword(u));
    RoutesAfter(site, g1, SetNologin(u));
    RoutesAfter(site, g2, LeaveSudo(u));
    RoutesAfter(site, g3, DropRule(u));
    RoutesAfter(site, g4, DropKeys(u));
  }

  /** What each of the five commands leaves of the ways in. */
  lemma RoutesAfter(site: Site, g: Guest, c: Command)
    requires c.LockPassword? || c.SetNologin? || c.LeaveSudo? || c.DropRule? || c.DropKeys?
    requires c.u in g.users
    ensures var after := Apply(c, g);
      && c.u in after.users
      && (after.users[c.u].loginShell <==> g.users[c.u].loginShell && !c.SetNologin?)
      && (HasKey(site, after, c.u) <==> HasKey(site, g, c.u) && !c.DropKeys?)
      && (HasPassword(site, after, c.u) <==> HasPassword(site, g, c.u) && !c.LockPassword?)
  {
    KeyFileIsNoRule(c.u);
  }

  /** The account as it was, but for what the commands carried out took from it:
      the password's use, the shell, the group, the rule and the keys. */
  predicate DisabledAccount(a: Guest, b: Guest, u: string, e: seq<bool>)
    requires |e| == 5
  {
    && (u in b.users <==> u in a.users)
    && (u in a.users ==>
          && (b.users[u].passwordLocked <==> a.users[u].passwordLocked || e[0])
          && (b.users[u].loginShell <==> a.users[u].loginShell && !e[1])
          && (b.users[u].inSudoGroup <==> a.users[u].inSudoGroup && !e[2]))
    && (Sudoers(u) in b.files <==> Sudoers(u) in a.files && !e[3])
    && (Authorized(u) in b.files <==> Authorized(u) in a.files && !e[4])
  }

  /** That, and nothing else. */
  ghost predicate Disabled(a: Guest, b: Guest, u: string, e: seq<bool>)
    requires |e| == 5
  {
    && DisabledAccount(a, b, u, e) && OthersKept(a, b, u)
    && (forall path :: path in b.files ==> path in a.files && b.files[path] == a.files[path])
    && (forall path :: path in a.files && path != Sudoers(u) && path != Authorized(u) ==> path in b.files)
  }

  /** Every other account and every directory stays. */
  ghost predicate OthersKept(a: Guest, b: Guest, u: string)
  {
    && (forall v :: v != u ==> (v in b.users <==> v in a.users))
    && (forall v :: v in a.users && v != u ==> b.users[v] == a.users[v])
    && a.sshDirs <= b.sshDirs <= a.sshDirs + {u}
  }

  function Without(g: Guest, u: string, e: seq<bool>): Guest
    requires |e| == 5
  {
    Guest(if u in g.users
          then g.users[u := User(g.users[u].loginShell && !e[1], g.users[u].passwordLocked || e[0],
                                 g.users[u].inSudoGroup && !e[2])]
          else g.users,
          g.files - (if e[3] then {Sudoers(u)} else {}) - (if e[4] then {Authorized(u)} else {}), g.sshDirs)
  }

  lemma WithoutGroup(g: Guest, u: string, e: seq<bool>)
    requires |e| == 5
    ensures var g1 := if e[0] then Apply(LockPassword(u), g) else g;
      var g2 := if e[1] then Apply(SetNologin(u), g1) else g1;
      (if e[2] then Apply(LeaveSudo(u), g2) else g2) == g.(users := Without(g, u, e).users)
  {
    if u in g.users {
      assert g.users == g.users[u := g.users[u]];
    }
  }

  lemma WithoutFiles(g: Guest, u: string, rule: bool, keys: bool)
    ensures var ruleless := if rule then Apply(DropRule(u), g) else g;
      (if keys then Apply(DropKeys(u), ruleless) else ruleless) ==
      g.(files := g.files - (if rule then {Sudoers(u)} else {}) - (if keys then {Authorized(u)} else {}))
  {
  }

  lemma DisableUnfolds(g: Guest, u: string, e: seq<bool>)
    requires |e| == 5
    ensures ApplyAll(Effective(DisableCommands(u), e), g) == Without(g, u, e)
  {
    FiveCommands(LockPassword(u), SetNologin(u), LeaveSudo(u), DropRule(u), DropKeys(u), e, g);
    WithoutGroup(g, u, e);
    WithoutFiles(g.(users := Without(g, u, e).users), u, e[3], e[4]);
  }

  lemma WithoutMeans(g: Guest, u: string, e: seq<bool>)
    requires |e| == 5
    ensures Disabled(g, Without(g, u, e), u, e)
  {
    KeyFileIsNoRule(u);
  }

  /** Of the five commands each takes its own thing away, and nothing else goes. */
  lemma DisablingMeans(g: Guest, u: string, e: seq<bool>)
    requires |e| == 5
    ensures Disabled(g, ApplyAll(Effective(DisableCommands(u), e), g), u, e)
  {
    DisableUnfolds(g, u, e);
    WithoutMeans(g, u, e);
  }

  /** Seen from before another account was worked on. */
  lemma DisabledSince(a: Guest, b: Guest, c: Guest, u: string, e: seq<bool>)
    requires |e| == 5 && SameAccount(a, b, u) && DisabledAccount(b, c, u, e)
    ensures DisabledAccount(a, c, u, e)
  {
  }

  /** The account exists, in the sudo group, with its key and its rule in files of
      their own, each with its owner and mode; for the rest it is as it was, or
      as useradd makes it. */
  ghost predicate Created(a: Guest, b: Guest, u: string, key: string)
  {
    && u in b.users
    && b.users[u] == (if u in a.users then a.users[u].(inSudoGroup := true) else User(true, true, true))
    && u in b.sshDirs
    && Authorized(u) in b.files && b.files[Authorized(u)] == File([key], u, "600")
    && Sudoers(u) in b.files && b.files[Sudoers(u)] == File([u + " ALL=(ALL) NOPASSWD:ALL"], "root", "440")
    && (forall path :: path != Sudoers(u) && path != Authorized(u) ==> SameFile(a, b, path))
    && OthersKept(a, b, u)
  }

  function With(g: Guest, u: string, key: string): Guest
    requires u in g.users
  {
    Guest(g.users[u := g.users[u].(inSudoGroup := true)],
          g.files[Authorized(u) := File([key], u, "600")][Sudoers(u) := File([Rule(u)], "root", "440")],
          g.sshDirs + {u})
  }

  lemma InstallIsWith(g: Guest, u: string, key: string)
    requires u in g.users
    ensures ApplyAll(InstallCommands(u, key), g) == With(g, u, key)
  {
    InstallUnfolds(g, u, key);
  }

  lemma WithMeans(g: Guest, u: string, key: string)
    requires u in g.users
    ensures Created(g, With(g, u, key), u, key)
  {
    KeyFileIsNoRule(u);
  }

  /** Of a creation carried out in full. */
  lemma CreatingMeans(g: Guest, u: string, key: string)
    ensures Created(g, ApplyAll(CreateCommands(u, key, u in g.users), g), u, key)
  {
    var rest := InstallCommands(u, key);
    if u in g.users {
      assert CreateCommands(u, key, true) == rest by { assert [] + rest == rest; }
      InstallIsWith(g, u, key);
      WithMeans(g, u, key);
    } else {
      var added := Apply(UserAdd(u), g);
      ApplyCons(UserAdd(u), rest, g);
      InstallIsWith(added, u, key);
      WithMeans(added, u, key);
      CreatedAnew(g, added, With(added, u, key), u, key);
    }
  }

  lemma CreatedAnew(g: Guest, added: Guest, after: Guest, u: string, key: string)
    requires u !in g.users && added == g.(users := g.users[u := User(true, true, false)])
    requires Created(added, after, u, key)
    ensures Created(g, after, u, key)
  {
    forall path | path != Sudoers(u) && path != Authorized(u) ensures SameFile(g, after, path) {
      assert SameFile(added, after, path);
    }
  }

  /** Re-enabling, every command carried out: as after a creation, and unlocked,
      with a shell. */
  lemma EnablingMeans(g: Guest, u: string, key: string)
    requires u in g.users
    ensures var after := ApplyAll(EnableCommands(u, key), g);
      && u in after.users && after.users[u] == User(true, false, true)
      && Created(Apply(SetBash(u), Apply(UnlockPassword(u), g)), after, u, key)
  {
    var shelled := Apply(SetBash(u), Apply(UnlockPassword(u), g));
    EnableUnfolds(g, u, key);
    InstallIsWith(shelled, u, key);
    WithMeans(shelled, u, key);
  }

  lemma EffectiveStep(cs: seq<Command>, e: seq<bool>, g: Guest)
    requires |cs| == |e| && cs != []
    ensures ApplyAll(Effective(cs, e), g) ==
            ApplyAll(Effective(cs[1..], e[1..]), if e[0] then Apply(cs[0], g) else g)
  {
    var rest := Effective(cs[1..], e[1..]);
    if e[0] {
      assert ([cs[0]] + rest)[0] == cs[0] && ([cs[0]] + rest)[1..] == rest;
    } else {
      assert [] + rest == rest;
    }
  }

  lemma CommandFirst(c: Command, cs: seq<Command>, x: bool, e: seq<bool>, g: Guest)
    requires |e| == |cs|
    ensures ApplyAll(Effective([c] + cs, [x] + e), g) == ApplyAll(Effective(cs, e), if x then Apply(c, g) else g)
  {
    EffectiveStep([c] + cs, [x] + e, g);
    assert ([c] + cs)[1..] == cs && ([x] + e)[1..] == e;
  }

  lemma TwoCommands(a: Command, b: Command, cs: seq<Command>, x: bool, y: bool, e: seq<bool>, g: Guest)
    requires |e| == |cs|
    ensures var g1 := if x then Apply(a, g) else g;
      ApplyAll(Effective([a, b] + cs, [x, y] + e), g) == ApplyAll(Effective(cs, e), if y then Apply(b, g1) else g1)
  {
    CommandFirst(a, [b] + cs, x, [y] + e, g);
    CommandFirst(b, cs, y, e, if x then Apply(a, g) else g);
    assert [a] + ([b] + cs) == [a, b] + cs && [x] + ([y] + e) == [x, y] + e;
  }

  lemma FiveInARow<T>(s: seq<T>)
    requires |s| == 5
    ensures [s[0], s[1]] + ([s[2], s[3]] + ([s[4]] + [])) == s
  {
  }

  lemma FiveCommands(a: Command, b: Command, c: Command, d: Command, f: Command, e: seq<bool>, g: Guest)
    requires |e| == 5
    ensures var g1 := if e[0] then Apply(a, g) else g;
      var g2 := if e[1] then Apply(b, g1) else g1;
      var g3 := if e[2] then Apply(c, g2) else g2;
      var g4 := if e[3] then Apply(d, g3) else g3;
      ApplyAll(Effective([a, b, c, d, f], e), g) == if e[4] then Apply(f, g4) else g4
  {
    var g1 := if e[0] then Apply(a, g) else g;
    var g2 := if e[1] then Apply(b, g1) else g1;
    var g3 := if e[2] then Apply(c, g2) else g2;
    var g4 := if e[3] then Apply(d, g3) else g3;
    TwoCommands(a, b, [c, d] + ([f] + []), e[0], e[1], [e[2], e[3]] + ([e[4]] + []), g);
    TwoCommands(c, d, [f] + [], e[2], e[3], [e[4]] + [], g2);
    CommandFirst(f, [], e[4], [], g4);
    FiveInARow([a, b, c, d, f]);
    FiveInARow(e);
  }

  lemma ApplyCons(c: Command, cs: seq<Command>, g: Guest)
    ensures ApplyAll([c] + cs, g) == ApplyAll(cs, Apply(c, g))
  {
    assert ([c] + cs)[1..] == cs;
  }

  lemma InstallUnfolds(g: Guest, u: string, key: string)
    ensures ApplyAll(InstallCommands(u, key), g) ==
            Apply(PutRule(u), WithKey(Apply(MakeSshDir(u), Apply(JoinSudo(u), g)), u, key))
  {
    var g1 := Apply(JoinSudo(u), g);
    var g2 := Apply(MakeSshDir(u), g1);
    var g3 := Apply(PutKey(u, key), g2);
    var g4 := Apply(OwnKey(u), g3);
    var g5 := Apply(RestrictKey(u), g4);
    ApplyCons(JoinSudo(u), [MakeSshDir(u), PutKey(u, key), OwnKey(u), RestrictKey(u), PutRule(u)], g);
    ApplyCons(MakeSshDir(u), [PutKey(u, key), OwnKey(u), RestrictKey(u), PutRule(u)], g1);
    ApplyCons(PutKey(u, key), [OwnKey(u), RestrictKey(u), PutRule(u)], g2);
    ApplyCons(OwnKey(u), [RestrictKey(u), PutRule(u)], g3);
    ApplyCons(RestrictKey(u), [PutRule(u)], g4);
    ApplyCons(PutRule(u), [], g5);
    assert g5.files == WithKey(g2, u, key).files;
  }

  /** The guest with the key in place, private to the account. */
  function WithKey(g: Guest, u: string, key: string): Guest
  {
    g.(files := g.files[Authorized(u) := File([key], u, "600")])
  }

  /** Root by the group and a password that is known. */
  predicate HasSudoPassword(site: Site, g: Guest, u: string)
  {
    u in g.users && !g.users[u].passwordLocked && u in site.passwords
  }

  /** Installing a key and a rule. */
  lemma Install(site: Site, g: Guest, u: string, key: string)
    requires SudoHealthy(site, g) && key in site.keys && u in g.users
    ensures var after := ApplyAll(InstallCommands(u, key), g);
      Works(site, after, u) <==>
      && g.users[u].loginShell
      && RuleIsHarmless(site, u) && (RuleIsRead(u) || HasSudoPassword(site, g, u))
  {
    InstallUnfolds(g, u, key);
    var g1 := Apply(JoinSudo(u), g);
    var g2 := Apply(MakeSshDir(u), g1);
    var keyed := WithKey(g2, u, key);
    KeyFileIsNoRule(u);
    HealthIsKept(site, JoinSudo(u), g);
    HealthIsKept(site, MakeSshDir(u), g1);
    assert SudoHealthy(site, keyed);
    RuleKeepsSudoExactly(site, keyed, u);
    Installed(site, Apply(PutRule(u), keyed), u, key);
  }

  lemma Installed(site: Site, g: Guest, u: string, key: string)
    requires u in g.users && g.users[u].inSudoGroup && key in site.keys
    requires Authorized(u) in g.files && g.files[Authorized(u)] == File([key], u, "600")
    requires Sudoers(u) in g.files && g.files[Sudoers(u)] == File([Rule(u)], "root", "440")
    ensures Works(site, g, u) <==>
            g.users[u].loginShell && SudoHealthy(site, g) && (RuleIsRead(u) || HasSudoPassword(site, g, u))
  {
    assert key in [key] && Rule(u) in [Rule(u)];
  }

  /** When every command of the creation is carried out, the account passes the
      verification exactly if it is new or has a login shell, and sudo reads and
      parses its rule, or, passing over the file, finds an old password that is
      known. */
  lemma CreationWorksExactly(site: Site, g: Guest, u: string, key: string)
    requires SudoHealthy(site, g) && key in site.keys
    ensures Works(site, ApplyAll(CreateCommands(u, key, u in g.users), g), u) <==>
            && (u !in g.users || g.users[u].loginShell)
            && if RuleIsRead(u) then site.parses(Rule(u)) else HasSudoPassword(site, g, u)
  {
    var rest := InstallCommands(u, key);
    if u in g.users {
      assert CreateCommands(u, key, true) == rest by { assert [] + rest == rest; }
      Install(site, g, u, key);
    } else {
      ApplyCons(UserAdd(u), rest, g);
      HealthIsKept(site, UserAdd(u), g);
      Install(site, Apply(UserAdd(u), g), u, key);
    }
  }

  /** A new account `john.doe` is created without an error and does not work, on
      any guest: sudo passes over its rule. */
  lemma DottedNameIsPassedOver(site: Site, g: Guest, key: string)
    requires SudoHealthy(site, g) && key in site.keys && "john.doe" !in g.users
    ensures !Works(site, ApplyAll(CreateCommands("john.doe", key, false), g), "john.doe")
  {
    assert "john.doe"[4] == '.' && '.' in "john.doe";
    CreationWorksExactly(site, g, "john.doe", key);
  }

  /** Re-enabling undoes disabling, however much of the latter was carried out:
      the account works again, with the key it is given. */
  lemma EnablingUndoesDisabling(site: Site, g: Guest, u: string, key: string, e: seq<bool>)
    requires RuleIsHarmless(site, u) && key in site.keys && Works(site, g, u) && |e| == 5
    ensures Works(site, ApplyAll(EnableCommands(u, key), ApplyAll(Effective(DisableCommands(u), e), g)), u)
  {
    EffectiveMembers(DisableCommands(u), e);
    HealthSurvives(site, Effective(DisableCommands(u), e), g);
    Enable(site, ApplyAll(Effective(DisableCommands(u), e), g), u, key);
  }

  lemma {:induction false} EffectiveMembers(cs: seq<Command>, e: seq<bool>)
    requires |cs| == |e|
    ensures forall c :: c in Effective(cs, e) ==> c in cs
  {
    if cs == [] {
    } else {
      EffectiveMembers(cs[1..], e[1..]);
    }
  }

  /** No list of commands without a rule in it removes an account or spoils sudo. */
  lemma {:induction false} HealthSurvives(site: Site, cs: seq<Command>, g: Guest)
    requires SudoHealthy(site, g) && forall c :: c in cs ==> !c.PutRule?
    ensures SudoHealthy(site, ApplyAll(cs, g)) && g.users.Keys <= ApplyAll(cs, g).users.Keys
    decreases |cs|
  {
    if cs == [] {
    } else {
      assert cs[0] in cs;
      HealthIsKept(site, cs[0], g);
      HealthSurvives(site, cs[1..], Apply(cs[0], g));
    }
  }

  lemma EnableUnfolds(g: Guest, u: string, key: string)
    ensures ApplyAll(EnableCommands(u, key), g) ==
            ApplyAll(InstallCommands(u, key), Apply(SetBash(u), Apply(UnlockPassword(u), g)))
  {
    var rest := InstallCommands(u, key);
    ApplyCons(UnlockPassword(u), [SetBash(u)] + rest, g);
    ApplyCons(SetBash(u), rest, Apply(UnlockPassword(u), g));
    assert EnableCommands(u, key) == [UnlockPassword(u)] + ([SetBash(u)] + rest);
  }

  /** A sudo that takes any name without an equals sign. */
  function StrictSite(keys: set<string>): Site
  {
    Site(keys, {}, false, line => |line| >= 23 && '=' !in line[..|line| - 23])
  }

  lemma RuleOfOpsAdmin()
    ensures !StrictSite({}).parses(Rule("ops=admin")) && RuleIsRead("ops=admin")
  {
    var u := "ops=admin";
    assert |" ALL=(ALL) NOPASSWD:ALL"| == 23 && Rule(u)[..|Rule(u)| - 23] == u && u[3] == '=';
  }

  /** No name is validated before its rule is installed. Once an existing account
      `ops=admin` has been through the creation, and until the rule is taken away
      again, nobody reaches root. */
  lemma UnvalidatedNameLocksOut(g: Guest, key: string)
    requires SudoHealthy(StrictSite({key}), g)
    ensures var after := ApplyAll(CreateCommands("ops=admin", key, true), g);
      forall v :: !CanReachRoot(StrictSite({key}), after, v)
  {
    var site, u := StrictSite({key}), "ops=admin";
    var before := [JoinSudo(u), MakeSshDir(u), PutKey(u, key), OwnKey(u), RestrictKey(u)];
    assert CreateCommands(u, key, true) == before + [PutRule(u)];
    ApplyAllSnoc(before, PutRule(u), g);
    HealthSurvives(site, before, g);
    RuleOfOpsAdmin();
    RuleKeepsSudoExactly(site, ApplyAll(before, g), u);
  }

  lemma Enable(site: Site, g: Guest, u: string, key: string)
    requires SudoHealthy(site, g) && RuleIsHarmless(site, u) && key in site.keys && u in g.users
    requires RuleIsRead(u) || u in site.passwords
    ensures Works(site, ApplyAll(EnableCommands(u, key), g), u)
  {
    var unlocked := Apply(UnlockPassword(u), g);
    var shelled := Apply(SetBash(u), unlocked);
    EnableUnfolds(g, u, key);
    HealthIsKept(site, UnlockPassword(u), g);
    HealthIsKept(site, SetBash(u), unlocked);
    Install(site, shelled, u, key);
  }
}
