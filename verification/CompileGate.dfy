/** The source-hash gate: recompile the service only when the recorded hash of
    its sources is not the hash of the current ones. */
module CompileGate {
  import opened Basics

  /** Contents of the hashed files, in the fixed order of their names. */
  type Files = seq<seq<byte>>

  const NUL: byte := 0

  // ---------------------------------------------------------------------
  // The byte stream fed to the hash
  // ---------------------------------------------------------------------

  /** Name, NUL, contents, NUL, for each file in turn. */
  function Frame(names: seq<seq<byte>>, files: Files): seq<byte>
    requires |names| == |files|
  {
    if names == [] then [] else names[0] + [NUL] + files[0] + [NUL] + Frame(names[1..], files[1..])
  }

  /** On `a` holding `x` and `b` holding `y`, in ASCII. */
  lemma FrameExample()
    ensures Frame([[97], [98]], [[120], [121]]) == [97, 0, 120, 0, 98, 0, 121, 0]
  {
    assert [[97 as byte], [98]][1..] == [[98]] && [[120 as byte], [121]][1..] == [[121]];
    assert Frame([[98]], [[121]]) == [98, 0, 121, 0];
  }

  ghost predicate NulFree(parts: seq<seq<byte>>)
  {
    forall i :: 0 <= i < |parts| ==> NUL !in parts[i]
  }

  lemma {:induction false} SplitAtNul(a: seq<byte>, x: seq<byte>, b: seq<byte>, y: seq<byte>)
    requires NUL !in a && NUL !in b && a + [NUL] + x == b + [NUL] + y
    ensures a == b && x == y
  {
    var s, r := a + [NUL] + x, b + [NUL] + y;
    assert s[0] == r[0];
    if a != [] && b != [] {
      assert a[1..] + [NUL] + x == s[1..] && b[1..] + [NUL] + y == r[1..];
      SplitAtNul(a[1..], x, b[1..], y);
      FirstApart(a);
      FirstApart(b);
    } else {
      assert a == [] ==> s[0] == NUL;
      assert b == [] ==> r[0] == NUL;
      assert x == s[|a| + 1..] && y == r[|b| + 1..];
    }
  }

  /** On NUL-free files the stream determines names and contents, for lists of
      any lengths. */
  lemma {:induction false} FramingIsInjective(
      names: seq<seq<byte>>, files: Files, otherNames: seq<seq<byte>>, otherFiles: Files)
    requires |names| == |files| && |otherNames| == |otherFiles|
    requires NulFree(names) && NulFree(files) && NulFree(otherNames) && NulFree(otherFiles)
    requires Frame(names, files) == Frame(otherNames, otherFiles)
    ensures names == otherNames && files == otherFiles
  {
    if names == [] || otherNames == [] {
      assert names == [] ==> Frame(names, files) == [];
      assert otherNames == [] ==> Frame(otherNames, otherFiles) == [];
    } else {
      var rest := files[0] + [NUL] + Frame(names[1..], files[1..]);
      var otherRest := otherFiles[0] + [NUL] + Frame(otherNames[1..], otherFiles[1..]);
      assert Frame(names, files) == names[0] + [NUL] + rest;
      assert Frame(otherNames, otherFiles) == otherNames[0] + [NUL] + otherRest;
      SplitAtNul(names[0], rest, otherNames[0], otherRest);
      SplitAtNul(files[0], Frame(names[1..], files[1..]), otherFiles[0], Frame(otherNames[1..], otherFiles[1..]));
      FramingIsInjective(names[1..], files[1..], otherNames[1..], otherFiles[1..]);
      FirstApart(names);
      FirstApart(otherNames);
      FirstApart(files);
      FirstApart(otherFiles);
    }
  }

  lemma FrameTwo(names: seq<seq<byte>>, x: seq<byte>, y: seq<byte>, rest: Files)
    requires |names| >= 2 && |rest| == |names| - 2
    ensures Frame(names, [x, y] + rest) ==
            names[0] + [NUL] + x + [NUL] + (names[1] + [NUL] + y + [NUL] + Frame(names[2..], rest))
  {
    var files := [x, y] + rest;
    assert files[1..][1..] == rest && names[1..][1..] == names[2..];
    assert Frame(names[1..], files[1..]) == names[1] + [NUL] + y + [NUL] + Frame(names[2..], rest);
  }

  /** With NULs allowed in the contents, two different sets of files share a
      stream as soon as there are two names: move the text of the second
      header from one file to the other. */
  lemma NulsCollide(names: seq<seq<byte>>, rest: Files)
    requires |names| >= 2 && |rest| == |names| - 2
    ensures var header := [NUL] + names[1] + [NUL];
      Frame(names, [header, []] + rest) == Frame(names, [[], header] + rest)
  {
    var header := [NUL] + names[1] + [NUL];
    FrameTwo(names, header, [], rest);
    FrameTwo(names, [], header, rest);
    MoveHeader(names[0], names[1], Frame(names[2..], rest));
  }

  lemma MoveHeader(first: seq<byte>, second: seq<byte>, tail: seq<byte>)
    ensures var header := [NUL] + second + [NUL];
      first + [NUL] + header + [NUL] + (second + [NUL] + [] + [NUL] + tail) ==
      first + [NUL] + [] + [NUL] + (second + [NUL] + header + [NUL] + tail)
  {
    var header := [NUL] + second + [NUL];
    var core := [NUL, NUL] + second + [NUL, NUL] + second + [NUL, NUL];
    assert first + [NUL] + header + [NUL] + (second + [NUL] + [] + [NUL] + tail) == first + core + tail;
    assert first + [NUL] + [] + [NUL] + (second + [NUL] + header + [NUL] + tail) == first + core + tail;
  }

  /** So over arbitrary contents the stream is injective exactly for lists of at
      most one file. */
  lemma InjectiveOnAllContentsExactly(names: seq<seq<byte>>)
    ensures InjectiveOnAllContents(names) <==> |names| <= 1
  {
    if |names| == 1 {
      forall a: Files, b: Files | |a| == 1 && |b| == 1 && Frame(names, a) == Frame(names, b) ensures a == b {
        OneFile(names, a, b);
      }
    } else if |names| >= 2 {
      var rest: Files := seq(|names| - 2, _ => []);
      var header := [NUL] + names[1] + [NUL];
      NulsCollide(names, rest);
      assert ([header, []] + rest)[0] != ([[], header] + rest)[0];
      assert [header, []] + rest != [[], header] + rest;
    }
  }

  ghost predicate InjectiveOnAllContents(names: seq<seq<byte>>)
  {
    forall a: Files, b: Files ::
      |a| == |names| && |b| == |names| && Frame(names, a) == Frame(names, b) ==> a == b
  }

  lemma OneFile(names: seq<seq<byte>>, a: Files, b: Files)
    requires |names| == |a| == |b| == 1 && Frame(names, a) == Frame(names, b)
    ensures a == b
  {
    var n := names[0];
    assert Frame(names[1..], a[1..]) == [] && Frame(names[1..], b[1..]) == [];
    assert Frame(names, a) == n + [NUL] + a[0] + [NUL] && Frame(names, b) == n + [NUL] + b[0] + [NUL];
    assert a[0] == Frame(names, a)[|n| + 1..|Frame(names, a)| - 1];
    assert b[0] == Frame(names, b)[|n| + 1..|Frame(names, b)| - 1];
    assert a == [a[0]] && b == [b[0]];
  }

  // ---------------------------------------------------------------------
  // Hashing
  // ---------------------------------------------------------------------

  /** The names hashed, and the digest function. */
  datatype Hashing = Hashing(names: seq<seq<byte>>, digest: seq<byte> -> string)

  /** The digest is treated as injective; a digest is never empty, which is what
      reading an absent hash file gives. */
  ghost predicate Collisionless(h: Hashing)
  {
    && NulFree(h.names)
    && (forall a: seq<byte>, b: seq<byte> :: h.digest(a) == h.digest(b) ==> a == b)
    && (forall a: seq<byte> :: h.digest(a) != "")
  }

  ghost predicate Sources(h: Hashing, files: Files)
  {
    |files| == |h.names| && NulFree(files)
  }

  function SourceHash(h: Hashing, files: Files): string
    requires |files| == |h.names|
  {
    h.digest(Frame(h.names, files))
  }

  /** The digest is updated four times per file; a missing file is an error. */
  method ComputeSourceHash(h: Hashing, directory: seq<Option<seq<byte>>>) returns (r: Option<string>)
    requires |directory| == |h.names|
    ensures r.None? <==> None in directory
    ensures r.Some? ==> forall files: Files ::
              |files| == |directory| && (forall i :: 0 <= i < |files| ==> directory[i] == Some(files[i])) ==>
              r.value == SourceHash(h, files)
  {
    var stream: seq<byte> := [];
    ghost var seen: Files := [];
    for i := 0 to |h.names|
      invariant |seen| == i && forall j :: 0 <= j < i ==> directory[j] == Some(seen[j])
      invariant stream == Frame(h.names[..i], seen)
    {
      if directory[i].None? {
        return None;
      }
      FrameSnoc(h.names[..i], seen, h.names[i], directory[i].value);
      assert h.names[..i + 1] == h.names[..i] + [h.names[i]];
      stream := stream + h.names[i];
      stream := stream + [NUL];
      stream := stream + directory[i].value;
      stream := stream + [NUL];
      seen := seen + [directory[i].value];
    }
    assert h.names[..|h.names|] == h.names;
    forall files: Files
      | |files| == |directory| && (forall i :: 0 <= i < |files| ==> directory[i] == Some(files[i]))
      ensures files == seen
    {
      assert forall i :: 0 <= i < |files| ==> Some(files[i]) == Some(seen[i]);
    }
    return Some(h.digest(stream));
  }

  lemma Appended(head: seq<byte>, rest: seq<byte>, name: seq<byte>, file: seq<byte>)
    ensures head + (rest + name + [NUL] + file + [NUL]) == head + rest + name + [NUL] + file + [NUL]
  {
  }

  lemma {:induction false} FrameSnoc(names: seq<seq<byte>>, files: Files, name: seq<byte>, file: seq<byte>)
    requires |names| == |files|
    ensures Frame(names + [name], files + [file]) == Frame(names, files) + name + [NUL] + file + [NUL]
  {
    var ns, fs := names + [name], files + [file];
    if names == [] {
      assert ns[1..] == [] && fs[1..] == [];
      assert Frame(ns[1..], fs[1..]) == [];
    } else {
      assert ns[1..] == names[1..] + [name] && fs[1..] == files[1..] + [file];
      FrameSnoc(names[1..], files[1..], name, file);
      Appended(names[0] + [NUL] + files[0] + [NUL], Frame(names[1..], files[1..]), name, file);
    }
  }

  /** Equal hashes mean equal sources. */
  lemma SameHashSameSources(h: Hashing, a: Files, b: Files)
    requires Collisionless(h) && Sources(h, a) && Sources(h, b)
    ensures SourceHash(h, a) == SourceHash(h, b) ==> a == b
  {
    if SourceHash(h, a) == SourceHash(h, b) {
      FramingIsInjective(h.names, a, h.names, b);
    }
  }

  // ---------------------------------------------------------------------
  // The gate, step by step
  // ---------------------------------------------------------------------

  /** The toolchain version is fixed, so a binary is known by its sources. */
  datatype Guest = Guest(binary: Option<Files>, hashFile: string)

  /** A recorded hash names the sources of the binary beside it. */
  ghost predicate Coherent(h: Hashing, g: Guest)
  {
    g.binary.Some? ==>
      forall files: Files :: Sources(h, files) && g.hashFile == SourceHash(h, files) ==> g.binary.value == files
  }

  /** Where a deployment is. */
  datatype Pc = Idle | Stale | Uploaded(staged: Files) | Built(staged: Files) | Installed

  datatype World = World(local: Files, guest: Guest, pc: Pc, returned: bool)

  /** The developer edits, or the deployment takes its next step. A failing step
      ends the deployment; its command may have taken effect all the same. */
  datatype Event = Edit(files: Files) | Advance | Fail(effective: bool)

  /** The effect of the command the deployment is about to issue. */
  function Effect(h: Hashing, w: World): Guest
    requires |w.local| == |h.names|
  {
    match w.pc
    case Built(staged) => w.guest.(binary := Some(staged))
    case Installed => w.guest.(hashFile := SourceHash(h, w.local))
    case _ => w.guest
  }

  function Next(h: Hashing, w: World, e: Event): World
    requires |w.local| == |h.names|
  {
    match e
    case Edit(files) => w.(local := files, returned := false)
    case Fail(effective) =>
      if w.pc.Idle? then w.(returned := false)
      else w.(guest := if effective then Effect(h, w) else w.guest, pc := Idle, returned := false)
    case Advance =>
      var guest := Effect(h, w);
      match w.pc
      case Idle =>
        // The check itself: a current binary ends the deployment at once.
        if w.guest.binary.Some? && w.guest.hashFile == SourceHash(h, w.local)
        then w.(returned := true) else w.(pc := Stale, returned := false)
      case Stale => w.(pc := Uploaded(w.local), returned := false)
      case Uploaded(staged) => w.(pc := Built(staged), returned := false)
      case Built(_) => w.(guest := guest, pc := Installed, returned := false)
      case Installed => w.(guest := guest, pc := Idle, returned := true)
  }

  /** The sources may change, but only to NUL-free ones, and not while they are
      being built; and once the binary is replaced its hash gets written. */
  ghost predicate Allowed(h: Hashing, w: World, e: Event)
  {
    match e
    case Edit(files) => Sources(h, files) && (w.pc.Idle? || w.pc.Stale?)
    case Fail(effective) => !w.pc.Installed? && !(w.pc.Built? && effective)
    case Advance => true
  }

  function Run(h: Hashing, w: World, events: seq<Event>): World
    requires |w.local| == |h.names|
    requires forall i :: 0 <= i < |events| && events[i].Edit? ==> |events[i].files| == |h.names|
    ensures |Run(h, w, events).local| == |h.names|
  {
    if events == [] then w
    else Next(h, Run(h, w, events[..|events| - 1]), events[|events| - 1])
  }

  ghost predicate AllowedRun(h: Hashing, w: World, events: seq<Event>)
    requires |w.local| == |h.names|
    requires forall i :: 0 <= i < |events| && events[i].Edit? ==> |events[i].files| == |h.names|
  {
    forall i :: 0 <= i < |events| ==> Allowed(h, Run(h, w, events[..i]), events[i])
  }

  ghost predicate Inv(h: Hashing, w: World)
  {
    && Sources(h, w.local)
    && (match w.pc
        case Idle => Coherent(h, w.guest)
        case Stale => Coherent(h, w.guest)
        case Uploaded(staged) => staged == w.local && Coherent(h, w.guest)
        case Built(staged) => staged == w.local && Coherent(h, w.guest)
        case Installed => w.guest.binary == Some(w.local))
    && (w.returned ==> w.pc.Idle? && w.guest.binary == Some(w.local))
  }

  lemma StepKeepsInv(h: Hashing, w: World, e: Event)
    requires Collisionless(h) && Inv(h, w) && Allowed(h, w, e)
    ensures Inv(h, Next(h, w, e))
  {
    if e.Advance? && w.pc.Installed? {
      forall files: Files | Sources(h, files) && SourceHash(h, w.local) == SourceHash(h, files)
        ensures files == w.local
      {
        SameHashSameSources(h, w.local, files);
      }
    }
  }

  lemma PrefixIsAllowed(h: Hashing, w: World, events: seq<Event>)
    requires |w.local| == |h.names| && events != []
    requires forall i :: 0 <= i < |events| && events[i].Edit? ==> |events[i].files| == |h.names|
    requires AllowedRun(h, w, events)
    ensures var last := |events| - 1;
      AllowedRun(h, w, events[..last]) && Allowed(h, Run(h, w, events[..last]), events[last])
  {
    var last := |events| - 1;
    forall i | 0 <= i < last ensures Allowed(h, Run(h, w, events[..last][..i]), events[..last][i]) {
      assert events[..last][..i] == events[..i];
    }
  }

  lemma {:induction false} RunKeepsInv(h: Hashing, w: World, events: seq<Event>)
    requires Collisionless(h) && Inv(h, w)
    requires forall i :: 0 <= i < |events| && events[i].Edit? ==> |events[i].files| == |h.names|
    requires AllowedRun(h, w, events)
    ensures Inv(h, Run(h, w, events))
  {
    if events == [] {
    } else {
      var last := |events| - 1;
      PrefixIsAllowed(h, w, events);
      RunKeepsInv(h, w, events[..last]);
      StepKeepsInv(h, Run(h, w, events[..last]), events[last]);
    }
  }

  /** Over every allowed run of edits and deployments, a deployment returns only
      when the installed binary is the compilation of the current sources. */
  lemma GateIsSound(h: Hashing, w: World, events: seq<Event>)
    requires Collisionless(h) && Inv(h, w)
    requires forall i :: 0 <= i < |events| && events[i].Edit? ==> |events[i].files| == |h.names|
    requires AllowedRun(h, w, events)
    ensures Inv(h, Run(h, w, events))
    ensures Run(h, w, events).returned ==> Run(h, w, events).guest.binary == Some(Run(h, w, events).local)
  {
    RunKeepsInv(h, w, events);
  }

  /** The five steps of a deployment nothing interferes with. */
  function Deploy(h: Hashing, w: World): World
    requires |w.local| == |h.names|
  {
    var checked := Next(h, w, Advance);
    if checked.returned then checked
    else Next(h, Next(h, Next(h, Next(h, checked, Advance), Advance), Advance), Advance)
  }

  /** The check that a deployment makes before it skips. */
  predicate Skips(h: Hashing, local: Files, guest: Guest)
    requires |local| == |h.names|
  {
    guest.binary.Some? && guest.hashFile == SourceHash(h, local)
  }

  /** A deployment that recompiles restores coherence, whatever it finds; one that
      skips leaves everything as it finds it. */
  lemma DeploymentRestoresCoherence(h: Hashing, local: Files, guest: Guest)
    requires Collisionless(h) && Sources(h, local)
    ensures var end := Deploy(h, World(local, guest, Idle, false));
      && end.returned
      && end.guest == (if Skips(h, local, guest) then guest else Guest(Some(local), SourceHash(h, local)))
      && (!Skips(h, local, guest) ==> Coherent(h, end.guest))
  {
    forall files: Files | Sources(h, files) && SourceHash(h, local) == SourceHash(h, files) ensures local == files {
      SameHashSameSources(h, local, files);
    }
  }

  /** After an install that was torn between its two writes, the next completed
      deployment sets things right if and only if the local sources are not back
      at the ones whose hash is still recorded. */
  lemma TornInstallHealsExactly(h: Hashing, recorded: Files, installed: Files, local: Files)
    requires Collisionless(h) && Sources(h, recorded) && Sources(h, installed) && Sources(h, local)
    requires installed != recorded
    ensures var torn := Guest(Some(installed), SourceHash(h, recorded));
      var end := Deploy(h, World(local, torn, Idle, false));
      && !Coherent(h, torn) && end.returned
      && (Coherent(h, end.guest) && end.guest.binary == Some(local) <==> SourceHash(h, local) != torn.hashFile)
  {
    SameHashSameSources(h, local, recorded);
    DeploymentRestoresCoherence(h, local, Guest(Some(installed), SourceHash(h, recorded)));
  }

  /** The world after issuing `n` commands without a failure. */
  function Commands(h: Hashing, w: World, n: nat): (end: World)
    requires |w.local| == |h.names|
    ensures end.local == w.local
  {
    if n == 0 then w else Next(h, Commands(h, w, n - 1), Advance)
  }

  /** Why the binary must not be replaced without its hash being written: edit,
      deploy and fail between the two, revert, and the next deployment returns
      at once with the wrong binary in place. */
  lemma TornInstallIsUnsound(h: Hashing, before: Files, edited: Files)
    requires Collisionless(h) && Sources(h, before) && Sources(h, edited) && before != edited
    ensures var start := World(before, Guest(Some(before), SourceHash(h, before)), Idle, false);
      var building := Commands(h, Next(h, start, Edit(edited)), 4);
      var end := Next(h, Next(h, Next(h, building, Fail(false)), Edit(before)), Advance);
      Inv(h, start) && end.returned && end.local == before && end.guest.binary == Some(edited)
  {
    var start := World(before, Guest(Some(before), SourceHash(h, before)), Idle, false);
    forall files: Files | Sources(h, files) && SourceHash(h, before) == SourceHash(h, files) ensures before == files {
      SameHashSameSources(h, before, files);
    }
    SameHashSameSources(h, before, edited);
    FourCommands(h, Next(h, start, Edit(edited)));
  }

  /** ... and why the sources must hold still while they are built: the hash is
      taken only after the build. */
  lemma EditDuringBuildIsUnsound(h: Hashing, before: Files, edited: Files)
    requires Collisionless(h) && Sources(h, before) && Sources(h, edited) && before != edited
    ensures var start := World(before, Guest(None, ""), Idle, false);
      var end := Commands(h, Next(h, Commands(h, start, 2), Edit(edited)), 3);
      Inv(h, start) && end.returned && end.local == edited && end.guest.binary == Some(before)
  {
    var start := World(before, Guest(None, ""), Idle, false);
    assert Commands(h, start, 1).pc == Stale;
    assert Commands(h, start, 2).pc == Uploaded(before);
    var w := Next(h, Commands(h, start, 2), Edit(edited));
    assert Commands(h, w, 1).pc == Built(before);
    assert Commands(h, w, 2).pc == Installed;
  }

  /** A deployment that has uploaded some sources ends right, and coherent,
      exactly when those are still the local ones: the binary is compiled from
      what was uploaded, the hash taken from what is there in the end. */
  lemma UploadIsRightExactly(h: Hashing, guest: Guest, staged: Files, local: Files)
    requires Collisionless(h) && Sources(h, staged) && Sources(h, local)
    ensures var end := Commands(h, World(local, guest, Uploaded(staged), false), 3);
      && end.returned && end.guest == Guest(Some(staged), SourceHash(h, local))
      && (end.guest.binary == Some(end.local) <==> staged == local)
      && (Coherent(h, end.guest) <==> staged == local)
  {
    var w := World(local, guest, Uploaded(staged), false);
    assert Commands(h, w, 1) == w.(pc := Built(staged));
    assert Commands(h, w, 2) == w.(guest := guest.(binary := Some(staged)), pc := Installed);
    forall files: Files | Sources(h, files) && SourceHash(h, local) == SourceHash(h, files) ensures local == files {
      SameHashSameSources(h, local, files);
    }
  }

  lemma FourCommands(h: Hashing, w: World)
    requires |w.local| == |h.names| && w.pc.Idle? && w.guest.hashFile != SourceHash(h, w.local)
    ensures Commands(h, w, 4) == World(w.local, Guest(Some(w.local), w.guest.hashFile), Installed, false)
  {
    assert Commands(h, w, 1) == w.(pc := Stale, returned := false);
    assert Commands(h, w, 2) == w.(pc := Uploaded(w.local), returned := false);
    assert Commands(h, w, 3) == w.(pc := Built(w.local), returned := false);
  }

  // ---------------------------------------------------------------------
  // The gate as it runs
  // ---------------------------------------------------------------------

  /** The commands of a deployment. */
  datatype Remote =
    | ReadHash | TestBinary | InstallGo
    | ClearBuildDir | Upload(sources: Files) | HandBack | Compile
    | MakeDir | InstallBinary | RemoveBuildDir | RecordHash(digest: string)

  /** The commands that build and install the service, in their order. */
  ghost function BuildPlan(local: Files, digest: string): (plan: seq<Remote>)
    ensures |plan| == 8
  {
    [ClearBuildDir, Upload(local), HandBack, Compile, MakeDir, InstallBinary, RemoveBuildDir, RecordHash(digest)]
  }

  /** A current binary is looked at and left alone. */
  ghost function EnsurePlan(current: bool, local: Files, digest: string): (plan: seq<Remote>)
    ensures |plan| == if current then 2 else 11
  {
    if current then [ReadHash, TestBinary] else [ReadHash, TestBinary, InstallGo] + BuildPlan(local, digest)
  }

  /** Looking, and what it costs if it breaks off. */
  lemma Looked(past: seq<Step<Remote>>, taken: seq<Step<Remote>>, command: Remote, ok: bool,
               current: bool, local: Files, digest: string) returns (longer: seq<Step<Remote>>)
    requires var plan := EnsurePlan(current, local, digest);
      |taken| < 3 && |taken| < |plan| && plan[|taken|] == command && InOrder(taken, plan[..|taken|], true)
    ensures longer == taken + [Step(command, ok)]
    ensures past + taken + [Step(command, ok)] == past + longer
    ensures taken == [] ==> past + [Step(command, ok)] == past + longer
    ensures var plan := EnsurePlan(current, local, digest);
      && InOrder(longer, plan[..|longer|], ok)
      && (!ok || |longer| == |plan| ==> InOrder(longer, plan, ok))
  {
    longer := TakeStep(past, taken, EnsurePlan(current, local, digest), ok);
  }

  lemma ThenBuilt(past: seq<Step<Remote>>, taken: seq<Step<Remote>>, building: seq<Step<Remote>>, ok: bool,
                  local: Files, digest: string)
    requires |taken| == 3 && InOrder(taken, EnsurePlan(false, local, digest)[..3], true)
    requires InOrder(building, BuildPlan(local, digest), ok)
    ensures past + taken + building == past + (taken + building)
    ensures InOrder(taken + building, EnsurePlan(false, local, digest), ok)
  {
    assert EnsurePlan(false, local, digest)[..3] + BuildPlan(local, digest) == EnsurePlan(false, local, digest);
    NextSteps(taken, EnsurePlan(false, local, digest)[..3], building, BuildPlan(local, digest), ok);
  }

  /** A guest reached over SSH. Any command may be reported as failed, whether it
      has taken effect or not. `commands` are those given, with how each ended. */
  class RemoteGuest {
    const hashing: Hashing
    var guest: Guest
    var staged: Option<Files>
    var built: Option<Files>
    ghost var commands: seq<Step<Remote>>

    constructor (hashing: Hashing, guest: Guest)
      ensures this.hashing == hashing && this.guest == guest && commands == []
    {
      this.hashing, this.guest, staged, built := hashing, guest, None, None;
      commands := [];
    }

    /** A binary is there, and the hash beside it is that of the local sources. */
    ghost predicate Current(local: Files)
      requires |local| == |hashing.names|
      reads this
    {
      guest.binary.Some? && guest.hashFile == SourceHash(hashing, local)
    }

    /** A command that changes nothing that matters here. */
    method Run(command: Remote) returns (ok: bool)
      modifies this`commands
      ensures commands == old(commands) + [Step(command, ok)]
    {
      ok := *;
      commands := commands + [Step(command, ok)];
    }

    /** Reads are truthful; None is a broken session. */
    method InstalledHash() returns (hash: Option<string>)
      modifies this`commands
      ensures hash.Some? ==> hash.value == guest.hashFile
      ensures commands == old(commands) + [Step(ReadHash, hash.Some?)]
    {
      var ok := Run(ReadHash);
      return if ok then Some(guest.hashFile) else None;
    }

    method BinaryPresent() returns (present: Option<bool>)
      modifies this`commands
      ensures present.Some? ==> present.value == guest.binary.Some?
      ensures commands == old(commands) + [Step(TestBinary, present.Some?)]
    {
      var ok := Run(TestBinary);
      return if ok then Some(guest.binary.Some?) else None;
    }

    method Stage(sources: Files) returns (ok: bool)
      modifies this`commands, this`staged
      ensures ok ==> staged == Some(sources)
      ensures commands == old(commands) + [Step(Upload(sources), ok)]
    {
      ok := Run(Upload(sources));
      var partial: Option<Files> := *;
      staged := if ok then Some(sources) else partial;
    }

    /** The compiler turns what is staged into a binary. */
    method Build() returns (ok: bool)
      modifies this`commands, this`built
      ensures ok ==> staged.Some? && built == staged
      ensures commands == old(commands) + [Step(Compile, ok)]
    {
      var compiled: bool := *;
      ok := compiled && staged.Some?;
      built := if ok then staged else None;
      commands := commands + [Step(Compile, ok)];
    }

    method Install() returns (ok: bool)
      modifies this`commands, this`guest
      ensures guest == old(guest) || guest == old(guest).(binary := built)
      ensures ok ==> guest == old(guest).(binary := built)
      ensures commands == old(commands) + [Step(InstallBinary, ok)]
    {
      ok := Run(InstallBinary);
      var effective: bool := *;
      if ok || effective {
        guest := guest.(binary := built);
      }
    }

    method Record(digest: string) returns (ok: bool)
      modifies this`commands, this`guest
      ensures guest == old(guest) || guest == old(guest).(hashFile := digest)
      ensures ok ==> guest == old(guest).(hashFile := digest)
      ensures commands == old(commands) + [Step(RecordHash(digest), ok)]
    {
      ok := Run(RecordHash(digest));
      var effective: bool := *;
      if ok || effective {
        guest := guest.(hashFile := digest);
      }
    }

    /** Stage the sources and compile them. */
    method CompileSources(local: Files, ghost plan: seq<Remote>) returns (ok: bool, ghost taken: seq<Step<Remote>>)
      requires |plan| > 4 && plan[..4] == [ClearBuildDir, Upload(local), HandBack, Compile]
      modifies this`commands, this`staged, this`built
      ensures commands == old(commands) + taken
      ensures ok ==> built == Some(local) && |taken| == 4 && InOrder(taken, plan[..4], true)
      ensures !ok ==> |taken| <= 4 && InOrder(taken, plan, false)
    {
      ghost var past := commands;
      assert forall k :: 0 <= k < 4 ==> plan[k] == plan[..4][k];
      ok := Run(ClearBuildDir);
      taken := TakeStep(past, [], plan, ok);
      if !ok {
        return;
      }
      ok := Stage(local);
      taken := TakeStep(past, taken, plan, ok);
      if !ok {
        return;
      }
      ok := Run(HandBack);
      taken := TakeStep(past, taken, plan, ok);
      if !ok {
        return;
      }
      ok := Build();
      taken := TakeStep(past, taken, plan, ok);
    }

    /** Upload, compile, install, then record the hash. `torn` says that a
        failure came once the binary may have been replaced. It fails only where
        one of its commands does. */
    method BuildService(local: Files) returns (ok: bool, ghost torn: bool, ghost taken: seq<Step<Remote>>)
      requires Collisionless(hashing) && Sources(hashing, local)
      modifies this
      ensures commands == old(commands) + taken
      ensures InOrder(taken, BuildPlan(local, SourceHash(hashing, local)), ok)
      ensures torn <==> !ok && |taken| > 5
      ensures ok ==> guest == Guest(Some(local), SourceHash(hashing, local))
      ensures !ok && !torn ==> guest == old(guest)
      ensures ok ==> Coherent(hashing, guest)
    {
      torn := false;
      ghost var past := commands;
      ghost var plan := BuildPlan(local, SourceHash(hashing, local));
      ok, taken := CompileSources(local, plan);
      if !ok {
        return;
      }
      ok := Run(MakeDir);
      taken := TakeStep(past, taken, plan, ok);
      if !ok {
        return;
      }
      ok := Install();
      torn := !ok;
      taken := TakeStep(past, taken, plan, ok);
      if !ok {
        return;
      }
      ok := Run(RemoveBuildDir);
      torn := !ok;
      taken := TakeStep(past, taken, plan, ok);
      if !ok {
        return;
      }
      var digest := SourceHash(hashing, local);
      ok := Record(digest);
      torn := !ok;
      taken := TakeStep(past, taken, plan, ok);
      forall files: Files | Sources(hashing, files) && SourceHash(hashing, local) == SourceHash(hashing, files)
        ensures local == files
      {
        SameHashSameSources(hashing, local, files);
      }
    }

    /** Compile only if stale. None is a raised error, which only a command that
        fails can be. */
    method EnsureServiceBinary(local: Files)
      returns (recompiled: Option<bool>, ghost torn: bool, ghost taken: seq<Step<Remote>>)
      requires Collisionless(hashing) && Sources(hashing, local) && Coherent(hashing, guest)
      modifies this
      ensures commands == old(commands) + taken
      ensures InOrder(taken, EnsurePlan(old(Current(local)), local, SourceHash(hashing, local)), recompiled.Some?)
      ensures recompiled.Some? ==> recompiled.value == !old(Current(local))
      ensures recompiled.Some? ==> guest.binary == Some(local)
      ensures torn <==> recompiled.None? && |taken| > 8
      ensures !torn ==> Coherent(hashing, guest)
      ensures recompiled == Some(false) ==> guest == old(guest)
    {
      torn := false;
      var wanted := SourceHash(hashing, local);
      ghost var past, current := commands, Current(local);
      var installed := InstalledHash();
      taken := Looked(past, [], ReadHash, installed.Some?, current, local, wanted);
      if installed.None? {
        return None, false, taken;
      }
      var binaryPresent := BinaryPresent();
      taken := Looked(past, taken, TestBinary, binaryPresent.Some?, current, local, wanted);
      if binaryPresent.None? {
        return None, false, taken;
      }
      if binaryPresent.value && installed.value == wanted {
        return Some(false), false, taken;
      }
      var ok := Run(InstallGo);
      taken := Looked(past, taken, InstallGo, ok, current, local, wanted);
      if !ok {
        return None, false, taken;
      }
      ghost var building;
      ok, torn, building := BuildService(local);
      ThenBuilt(past, taken, building, ok, local, wanted);
      taken := taken + building;
      return if ok then Some(true) else None, torn, taken;
    }
  }
}
