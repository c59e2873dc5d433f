/** The resumable, digest-verified download of the golden image, against an
    honest server and an unreliable network. */
module Download {
  import opened Basics

  /** What the registry serves and advertises; the digest is treated as
      injective. */
  datatype Registry = Registry(blob: seq<byte>, digest: seq<byte> -> string)

  ghost predicate Honest(r: Registry)
  {
    forall a: seq<byte>, b: seq<byte> :: r.digest(a) == r.digest(b) ==> a == b
  }

  /** How one attempt fares: the blob's location cannot be resolved, the
      transfer breaks off after some bytes, or it completes. */
  datatype Fetch = Unresolved | Interrupted(bytes: nat) | Complete

  /** Pulled, or the error the script ends with. */
  datatype Outcome = Pulled | NoSource | GaveUp | Missing | WrongSize | Corrupt

  /** The appliance file, if it exists. */
  type Landed = Option<seq<byte>>

  function Content(file: Landed): seq<byte>
  {
    if file.Some? then file.value else []
  }

  /** A transfer continues from the bytes on disk; a file comes into being with
      its first byte, or when an empty transfer completes. */
  function Transfer(r: Registry, file: Landed, fetch: Fetch): Landed
    requires |Content(file)| <= |r.blob|
  {
    var have := |Content(file)|;
    match fetch
    case Unresolved => file
    case Complete => Some(Content(file) + r.blob[have..])
    case Interrupted(n) =>
      var end := if have + n <= |r.blob| then have + n else |r.blob|;
      if end == have then file else Some(Content(file) + r.blob[have..end])
  }

  /** What is left of the loop from one attempt on: the file it leaves, the error
      it throws if it does, and how many transfers it starts. */
  function Attempt(r: Registry, file: Landed, attempt: nat, attempts: int, network: nat -> Fetch)
    : (Landed, Option<Outcome>, nat)
    decreases attempts - attempt
  {
    if attempt > attempts || |Content(file)| >= |r.blob| then (file, None, 0)
    else
      var fetch := network(attempt);
      var after := Transfer(r, file, fetch);
      match fetch
      case Unresolved => (file, Some(NoSource), 0)
      case Complete => (after, None, 1)
      case Interrupted(_) =>
        if attempt == attempts then (after, Some(GaveUp), 1)
        else
          var (end, error, more) := Attempt(r, after, attempt + 1, attempts, network);
          (end, error, 1 + more)
  }

  /** Size first, then digest; a file of the right size and the wrong digest is
      deleted. */
  function Verify(r: Registry, file: Landed): (Landed, Outcome)
  {
    if file.None? then (file, Missing)
    else if |file.value| != |r.blob| then (file, WrongSize)
    else if r.digest(file.value) != r.digest(r.blob) then (None, Corrupt)
    else (file, Pulled)
  }

  /** One run of the script. */
  function Pull(r: Registry, file: Landed, attempts: int, network: nat -> Fetch): (Landed, Outcome)
  {
    var (landed, error, _) := Attempt(r, file, 1, attempts, network);
    if error.Some? then (landed, error.value) else Verify(r, landed)
  }

  /** The script as it runs, on the file on disk. */
  class Disk {
    var landed: Landed

    constructor (landed: Landed)
      ensures this.landed == landed
    {
      this.landed := landed;
    }

    method PullImage(r: Registry, attempts: int, network: nat -> Fetch) returns (outcome: Outcome, ghost transfers: nat)
      modifies this
      ensures (landed, outcome) == Pull(r, old(landed), attempts, network)
      ensures transfers == 0 || transfers <= attempts
    {
      transfers := 0;
      ghost var whole := Attempt(r, landed, 1, attempts, network);
      var attempt := 1;
      while attempt <= attempts
        invariant 1 <= attempt
        invariant attempt > attempts + 1 ==> transfers == 0
        invariant transfers == 0 || transfers < attempt
        invariant transfers == 0 || attempt <= attempts + 1
        invariant var (end, error, more) := Attempt(r, landed, attempt, attempts, network);
          whole == (end, error, transfers + more)
        decreases attempts - attempt
      {
        var have := if landed.Some? then |landed.value| else 0;
        if have >= |r.blob| {
          break;
        }
        var fetch := network(attempt);
        if fetch.Unresolved? {
          return NoSource, transfers;
        }
        landed := Transfer(r, landed, fetch);
        transfers := transfers + 1;
        if fetch.Complete? {
          assert whole == (landed, None, transfers);
          break;
        }
        if attempt == attempts {
          return GaveUp, transfers;
        }
        attempt := attempt + 1;
      }
      assert whole.0 == landed && whole.1 == None;
      if landed.None? {
        return Missing, transfers;
      }
      if |landed.value| != |r.blob| {
        return WrongSize, transfers;
      }
      if r.digest(landed.value) != r.digest(r.blob) {
        landed := None;
        return Corrupt, transfers;
      }
      return Pulled, transfers;
    }
  }

  // ---------------------------------------------------------------------
  // What a run guarantees
  // ---------------------------------------------------------------------

  ghost predicate IsPrefix(r: Registry, file: Landed)
  {
    Content(file) <= r.blob
  }

  lemma {:induction false} AttemptGrows(r: Registry, file: Landed, attempt: nat, attempts: int, network: nat -> Fetch)
    ensures var (end, error, transfers) := Attempt(r, file, attempt, attempts, network);
      && Content(file) <= Content(end)
      && (file.Some? ==> end.Some?)
      && (IsPrefix(r, file) ==> IsPrefix(r, end))
      && (|Content(file)| <= |r.blob| ==> |Content(end)| <= |r.blob|)
      && (transfers == 0 || transfers <= attempts - attempt + 1)
    decreases attempts - attempt
  {
    if attempt <= attempts && |Content(file)| < |r.blob| {
      var after := Transfer(r, file, network(attempt));
      if IsPrefix(r, file) {
        assert Content(after) == r.blob[..|Content(after)|];
      }
      if network(attempt).Interrupted? && attempt < attempts {
        AttemptGrows(r, after, attempt + 1, attempts, network);
      }
    }
  }

  /** The bytes a number of broken-off transfers delivered. */
  function Received(network: nat -> Fetch, attempt: nat, count: nat): nat
    decreases count
  {
    if count == 0 then 0
    else (if network(attempt).Interrupted? then network(attempt).bytes else 0) + Received(network, attempt + 1, count - 1)
  }

  function Least(a: nat, b: nat): nat
  {
    if a <= b then a else b
  }

  /** What the attempts from one on come to: every transfer but the last broke
      off; the file has gained the bytes that follow those it had, as many as were
      delivered; and each way to end has its own cause. */
  ghost predicate EndsLike(r: Registry, file: Landed, attempt: nat, attempts: int, network: nat -> Fetch,
                           end: Landed, error: Option<Outcome>, transfers: nat)
  {
    && |Content(file)| <= |Content(end)| <= |r.blob|
    && Content(end) == Content(file) + r.blob[|Content(file)|..|Content(end)|]
    && (forall k :: attempt <= k < attempt + transfers - 1 ==> network(k).Interrupted?)
    && (transfers > 0 && network(attempt + transfers - 1).Complete? ==>
          error.None? && end == Some(Content(end)) && |Content(end)| == |r.blob|)
    && (transfers > 0 && !network(attempt + transfers - 1).Complete? ==>
          && network(attempt + transfers - 1).Interrupted?
          && |Content(end)| == Least(|r.blob|, |Content(file)| + Received(network, attempt, transfers)))
    && (transfers == 0 ==> end == file)
    && (error == Some(NoSource) ==> attempt + transfers <= attempts && network(attempt + transfers).Unresolved?)
    && (error == Some(GaveUp) ==> transfers > 0 && attempt + transfers == attempts + 1)
    && (error.None? ==> |Content(end)| == |r.blob| || (transfers == 0 && attempt > attempts))
    && error in {None, Some(NoSource), Some(GaveUp)}
  }

  lemma {:induction false} AttemptEnds(r: Registry, file: Landed, attempt: nat, attempts: int, network: nat -> Fetch)
    requires |Content(file)| <= |r.blob|
    ensures var (end, error, transfers) := Attempt(r, file, attempt, attempts, network);
      EndsLike(r, file, attempt, attempts, network, end, error, transfers)
    decreases attempts - attempt
  {
    var have := |Content(file)|;
    if attempt > attempts || have == |r.blob| {
      assert r.blob[have..have] == [];
    } else {
      var fetch := network(attempt);
      var after := Transfer(r, file, fetch);
      TransferAppends(r, file, fetch);
      if fetch.Interrupted? {
        assert Received(network, attempt, 1) == fetch.bytes + Received(network, attempt + 1, 0);
        if attempt < attempts {
          AttemptEnds(r, after, attempt + 1, attempts, network);
          var (end, error, more) := Attempt(r, after, attempt + 1, attempts, network);
          OneMoreAttempt(r, file, after, attempt, attempts, network, end, error, more);
        }
      }
    }
  }

  lemma TransferAppends(r: Registry, file: Landed, fetch: Fetch)
    requires |Content(file)| <= |r.blob|
    ensures var (have, after) := (|Content(file)|, Content(Transfer(r, file, fetch)));
      && have <= |after| <= |r.blob| && after == Content(file) + r.blob[have..|after|]
      && (fetch.Complete? ==> |after| == |r.blob|)
      && (fetch.Interrupted? ==> |after| == Least(|r.blob|, have + fetch.bytes))
  {
    var have := |Content(file)|;
    assert r.blob[have..|r.blob|] == r.blob[have..] && r.blob[have..have] == [];
  }

  lemma OneMoreAttempt(r: Registry, file: Landed, after: Landed, attempt: nat, attempts: int, network: nat -> Fetch,
                       end: Landed, error: Option<Outcome>, more: nat)
    requires |Content(file)| <= |r.blob| && network(attempt).Interrupted?
    requires after == Transfer(r, file, network(attempt)) && attempt < attempts
    requires EndsLike(r, after, attempt + 1, attempts, network, end, error, more)
    requires more == 0 ==> error != Some(GaveUp)
    ensures EndsLike(r, file, attempt, attempts, network, end, error, 1 + more)
  {
    TransferAppends(r, file, network(attempt));
    JoinParts(r.blob, Content(file), Content(after), Content(end));
    assert Received(network, attempt, 1 + more) == network(attempt).bytes + Received(network, attempt + 1, more);
    AddUp(|r.blob|, |Content(file)|, network(attempt).bytes, Received(network, attempt + 1, more));
    forall k | attempt <= k < attempt + more ensures network(k).Interrupted? {
    }
  }

  lemma JoinParts(blob: seq<byte>, a: seq<byte>, b: seq<byte>, c: seq<byte>)
    requires |a| <= |b| <= |c| <= |blob|
    requires b == a + blob[|a|..|b|] && c == b + blob[|b|..|c|]
    ensures c == a + blob[|a|..|c|]
  {
    assert blob[|a|..|b|] + blob[|b|..|c|] == blob[|a|..|c|];
  }

  lemma AddUp(whole: nat, have: nat, first: nat, later: nat)
    ensures Least(whole, Least(whole, have + first) + later) == Least(whole, have + (first + later))
  {
  }

  /** What each outcome says of the run and of the file it leaves, wherever the
      file was no longer than the blob; a longer one is left alone. */
  lemma OutcomesMean(r: Registry, file: Landed, attempts: int, network: nat -> Fetch)
    ensures var (end, outcome) := Pull(r, file, attempts, network);
      var (landed, error, transfers) := Attempt(r, file, 1, attempts, network);
      if |Content(file)| > |r.blob| then end == file && outcome == WrongSize
      else
        && EndsLike(r, file, 1, attempts, network, landed, error, transfers)
        && (end == if outcome == Corrupt then None else landed)
        && match outcome
           case Pulled => landed.Some? && |landed.value| == |r.blob| && r.digest(landed.value) == r.digest(r.blob)
           case NoSource => transfers < attempts && network(1 + transfers).Unresolved?
           case GaveUp => transfers == attempts > 0
           case Missing => landed.None? && (r.blob == [] || attempts < 1)
           case WrongSize => landed.Some? && |landed.value| < |r.blob| && attempts < 1
           case Corrupt => landed.Some? && |landed.value| == |r.blob| && r.digest(landed.value) != r.digest(r.blob)
  {
    if |Content(file)| <= |r.blob| {
      AttemptEnds(r, file, 1, attempts, network);
    }
  }

  /** Success is reported exactly when the loop ended with the whole blob on
      disk, and then the file is the blob. */
  lemma PulledMeansWhole(r: Registry, file: Landed, attempts: int, network: nat -> Fetch)
    requires Honest(r)
    ensures var (end, outcome) := Pull(r, file, attempts, network);
      var (landed, error, _) := Attempt(r, file, 1, attempts, network);
      && (outcome == Pulled <==> error.None? && landed == Some(r.blob))
      && (outcome == Pulled ==> end == Some(r.blob))
  {
    NotWholeOnError(r, file, 1, attempts, network);
  }

  datatype Run = Run(attempts: int, network: nat -> Fetch)

  /** The file after a number of runs, each interrupted in its own way. */
  function PullAll(r: Registry, file: Landed, runs: seq<Run>): Landed
  {
    if runs == [] then file
    else
      var last := |runs| - 1;
      Pull(r, PullAll(r, file, runs[..last]), runs[last].attempts, runs[last].network).0
  }

  /** From nothing, or any part of the blob, every run leaves a prefix of the
      blob that is at least as long as before, and no run finds it corrupt. */
  lemma PrefixNeverShrinks(r: Registry, file: Landed, attempts: int, network: nat -> Fetch)
    requires Honest(r) && IsPrefix(r, file)
    ensures var (end, outcome) := Pull(r, file, attempts, network);
      && IsPrefix(r, end) && Content(file) <= Content(end)
      && outcome != Corrupt
      && (outcome == Pulled <==> end == Some(r.blob) && outcome != GaveUp)
  {
    AttemptGrows(r, file, 1, attempts, network);
    var (landed, error, _) := Attempt(r, file, 1, attempts, network);
    if |Content(landed)| == |r.blob| {
      assert Content(landed) == r.blob;
    }
    NotWholeOnError(r, file, 1, attempts, network);
  }

  lemma {:induction false} NotWholeOnError(r: Registry, file: Landed, attempt: nat, attempts: int, network: nat -> Fetch)
    ensures var (end, error, _) := Attempt(r, file, attempt, attempts, network);
      && (error == Some(NoSource) ==> |Content(end)| < |r.blob|)
      && (error.Some? ==> error.value in [NoSource, GaveUp])
    decreases attempts - attempt
  {
    if attempt < attempts && |Content(file)| < |r.blob| && network(attempt).Interrupted? {
      NotWholeOnError(r, Transfer(r, file, network(attempt)), attempt + 1, attempts, network);
    }
  }

  lemma PullAllSnoc(r: Registry, file: Landed, runs: seq<Run>, run: Run)
    ensures PullAll(r, file, runs + [run]) == Pull(r, PullAll(r, file, runs), run.attempts, run.network).0
  {
    assert (runs + [run])[..|runs|] == runs;
  }

  lemma PartialDownloadsAccumulate(r: Registry, file: Landed, runs: seq<Run>, more: seq<Run>)
    requires Honest(r) && IsPrefix(r, file)
    ensures IsPrefix(r, PullAll(r, file, runs))
    ensures Content(PullAll(r, file, runs)) <= Content(PullAll(r, file, runs + more))
  {
    StaysPrefix(r, file, runs);
    RunsNeverShrink(r, file, runs, more);
  }

  lemma {:induction false} RunsNeverShrink(r: Registry, file: Landed, runs: seq<Run>, more: seq<Run>)
    requires Honest(r) && IsPrefix(r, file)
    ensures Content(PullAll(r, file, runs)) <= Content(PullAll(r, file, runs + more))
    decreases |more|
  {
    if more == [] {
      assert runs + more == runs;
    } else {
      OneMoreRun(r, file, runs, more[0]);
      RunsNeverShrink(r, file, runs + [more[0]], more[1..]);
      MoveFirst(runs, more);
    }
  }

  lemma OneMoreRun(r: Registry, file: Landed, runs: seq<Run>, run: Run)
    requires Honest(r) && IsPrefix(r, file)
    ensures Content(PullAll(r, file, runs)) <= Content(PullAll(r, file, runs + [run]))
  {
    StaysPrefix(r, file, runs);
    PrefixNeverShrinks(r, PullAll(r, file, runs), run.attempts, run.network);
    PullAllSnoc(r, file, runs, run);
  }

  lemma {:induction false} StaysPrefix(r: Registry, file: Landed, runs: seq<Run>)
    requires Honest(r) && IsPrefix(r, file)
    ensures IsPrefix(r, PullAll(r, file, runs))
  {
    if runs == [] {
    } else {
      var last := |runs| - 1;
      StaysPrefix(r, file, runs[..last]);
      PrefixNeverShrinks(r, PullAll(r, file, runs[..last]), runs[last].attempts, runs[last].network);
    }
  }

  /** A run nothing interrupts. */
  function Clean(r: Registry, file: Landed, attempts: int): (Landed, Outcome)
  {
    Pull(r, file, attempts, _ => Complete)
  }

  /** Two uninterrupted runs produce the image from whatever is on disk exactly
      when that is no longer than the blob, and not a missing file where the
      blob is empty. */
  lemma TwoCleanRunsSufficeExactly(r: Registry, file: Landed, attempts: int)
    requires Honest(r) && attempts >= 1
    ensures var (first, _) := Clean(r, file, attempts);
      Clean(r, first, attempts) == (Some(r.blob), Pulled) <==>
      |Content(file)| <= |r.blob| && (file.Some? || r.blob != [])
  {
    CleanRun(r, file, attempts);
    CleanRun(r, Clean(r, file, attempts).0, attempts);
  }

  lemma CleanRun(r: Registry, file: Landed, attempts: int)
    requires Honest(r) && attempts >= 1
    ensures var have := Content(file);
      Clean(r, file, attempts) ==
      if |have| > |r.blob| then (file, WrongSize)
      else if file.None? && r.blob == [] then (None, Missing)
      else if have <= r.blob then (Some(r.blob), Pulled)
      else (None, Corrupt)
  {
    var have := Content(file);
    if |have| <= |r.blob| {
      var whole := have + r.blob[|have|..];
      assert have <= r.blob <==> whole == r.blob by {
        assert whole[..|have|] == have;
      }
      if |have| == |r.blob| {
        assert whole == have;
      }
    }
  }

  /** Left to itself, a file that is too long is never repaired. */
  lemma {:induction false} TooLongIsNeverRepaired(r: Registry, file: Landed, runs: seq<Run>)
    requires |Content(file)| > |r.blob|
    ensures PullAll(r, file, runs) == file
  {
    if runs == [] {
    } else {
      TooLongIsNeverRepaired(r, file, runs[..|runs| - 1]);
    }
  }
}
