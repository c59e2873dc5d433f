/** The cluster registry as a list of records: the upsert shared by the Go
    service and the Python client, and the transition that marks a manifest as
    torn down. */
module Registry {
  import opened Basics

  /** One host in the registry. */
  datatype Record = Record(
    hostname: string, role: string, ipv4: string, ipv6: string,
    status: string, statusTimestamp: string, state: string, stateTimestamp: string)

  /** A configured host, as far as the registry is concerned. */
  datatype Host = Host(hostname: string, role: string)

  function NameOf(host: Host): string
  {
    host.hostname
  }

  function Hostnames(records: seq<Record>): (names: seq<string>)
    ensures |names| == |records|
    ensures forall i :: 0 <= i < |records| ==> names[i] == records[i].hostname
  {
    seq(|records|, i requires 0 <= i < |records| => records[i].hostname)
  }

  /** Position of the first record for a hostname, or the length of the list. */
  function IndexOf(records: seq<Record>, hostname: string): (index: nat)
    ensures index <= |records|
    ensures forall j :: 0 <= j < index ==> records[j].hostname != hostname
    ensures index < |records| ==> records[index].hostname == hostname
  {
    if records == [] then 0
    else if records[0].hostname == hostname then 0
    else 1 + IndexOf(records[1..], hostname)
  }

  /** Replace the entry with the candidate's hostname in place, or append. */
  function Upsert(records: seq<Record>, candidate: Record): seq<Record>
  {
    var index := IndexOf(records, candidate.hostname);
    if index < |records| then records[index := candidate] else records + [candidate]
  }

  /** The candidate stands where the first record of its hostname stood, or at the
      end if there was none; every other record is as and where it was. */
  ghost predicate Upserted(before: seq<Record>, candidate: Record, after: seq<Record>)
  {
    if forall j :: 0 <= j < |before| ==> before[j].hostname != candidate.hostname
    then |after| == |before| + 1 && after[..|before|] == before && after[|before|] == candidate
    else
      && |after| == |before|
      && exists i :: 0 <= i < |before| && UpsertedAt(before, candidate, after, i)
  }

  ghost predicate UpsertedAt(before: seq<Record>, candidate: Record, after: seq<Record>, i: nat)
    requires i < |before| == |after|
  {
    && before[i].hostname == candidate.hostname && after[i] == candidate
    && (forall j :: 0 <= j < i ==> before[j].hostname != candidate.hostname)
    && (forall j :: 0 <= j < |before| && j != i ==> after[j] == before[j])
  }

  lemma UpsertIsUpserted(records: seq<Record>, candidate: Record)
    ensures Upserted(records, candidate, Upsert(records, candidate))
  {
    var index := IndexOf(records, candidate.hostname);
    if index < |records| {
      assert UpsertedAt(records, candidate, Upsert(records, candidate), index);
    }
  }

  /** A run of upserts, applied in order. */
  function UpsertAll(records: seq<Record>, candidates: seq<Record>): seq<Record>
  {
    if candidates == [] then records
    else
      var last := |candidates| - 1;
      Upsert(UpsertAll(records, candidates[..last]), candidates[last])
  }

  // ---------------------------------------------------------------------
  // The two implementations of upsert
  // ---------------------------------------------------------------------

  /** The Python client copies the list, overwrites the match and returns. */
  method UpsertPython(records: seq<Record>, candidate: Record) returns (result: seq<Record>)
    ensures result == Upsert(records, candidate) && Upserted(records, candidate, result)
  {
    UpsertIsUpserted(records, candidate);
    var updated := records;
    for index := 0 to |records|
      invariant updated == records
      invariant forall j :: 0 <= j < index ==> records[j].hostname != candidate.hostname
    {
      if updated[index].hostname == candidate.hostname {
        updated := updated[index := candidate];
        return updated;
      }
    }
    return updated + [candidate];
  }

  /** The Go service keeps a flag and breaks out of its scan. */
  method UpsertGo(stored: seq<Record>, candidate: Record) returns (records: seq<Record>)
    ensures records == Upsert(stored, candidate) && Upserted(stored, candidate, records)
  {
    UpsertIsUpserted(stored, candidate);
    records := stored;
    var replaced := false;
    var index := 0;
    while index < |records|
      invariant 0 <= index <= |records|
      invariant !replaced && records == stored
      invariant forall j :: 0 <= j < index ==> stored[j].hostname != candidate.hostname
    {
      if records[index].hostname == candidate.hostname {
        records := records[index := candidate];
        replaced := true;
        break;
      }
      index := index + 1;
    }
    if !replaced {
      records := records + [candidate];
    }
  }

  // ---------------------------------------------------------------------
  // What a run of upserts leaves behind
  // ---------------------------------------------------------------------

  /** The distinct names of a list, each at its first occurrence. */
  function FirstSeen(names: seq<string>): seq<string>
  {
    if names == [] then []
    else
      var last := |names| - 1;
      var before := FirstSeen(names[..last]);
      if names[last] in names[..last] then before else before + [names[last]]
  }

  /** The record most recently written for a hostname. */
  function LastWritten(candidates: seq<Record>, hostname: string): (record: Record)
    requires hostname in Hostnames(candidates)
    ensures record in candidates && record.hostname == hostname
  {
    var last := |candidates| - 1;
    if candidates[last].hostname == hostname then candidates[last]
    else
      assert hostname in Hostnames(candidates[..last]) by {
        var i :| 0 <= i < |candidates| && Hostnames(candidates)[i] == hostname;
        assert Hostnames(candidates[..last])[i] == hostname;
      }
      LastWritten(candidates[..last], hostname)
  }

  lemma HostnamesPrefix(records: seq<Record>, n: nat)
    requires n <= |records|
    ensures Hostnames(records[..n]) == Hostnames(records)[..n]
  {
  }

  lemma HostnamesConcat(a: seq<Record>, b: seq<Record>)
    ensures Hostnames(a + b) == Hostnames(a) + Hostnames(b)
  {
  }

  /** `FirstSeen` lists exactly the names that occur, each once. */
  lemma {:induction false} FirstSeenIsASet(names: seq<string>)
    ensures NoDuplicates(FirstSeen(names))
    ensures forall x :: x in FirstSeen(names) <==> x in names
  {
    if names == [] {
    } else {
      var last := |names| - 1;
      FirstSeenIsASet(names[..last]);
      LastApart(names);
    }
  }

  /** ... in the order in which they first occur. */
  lemma {:induction false} FirstSeenKeepsOrder(names: seq<string>, p: nat, q: nat)
    requires p < q < |FirstSeen(names)|
    ensures exists i, j ::
      && 0 <= i < j < |names|
      && names[i] == FirstSeen(names)[p] && names[j] == FirstSeen(names)[q]
      && FirstSeen(names)[q] !in names[..j]
  {
    var last := |names| - 1;
    var front := names[..last];
    var before := FirstSeen(front);
    if q < |before| {
      FirstSeenKeepsOrder(front, p, q);
      var i, j :| 0 <= i < j < |front| && front[i] == before[p] && front[j] == before[q]
                  && before[q] !in front[..j];
      assert names[..j] == front[..j];
      assert names[i] == FirstSeen(names)[p] && names[j] == FirstSeen(names)[q];
    } else {
      FirstSeenIsASet(front);
      assert before[p] in front;
      var i :| 0 <= i < |front| && front[i] == before[p];
      assert names[i] == FirstSeen(names)[p] && names[last] == FirstSeen(names)[q];
    }
  }

  lemma UpsertHostnames(records: seq<Record>, candidate: Record)
    ensures Hostnames(Upsert(records, candidate)) ==
            if candidate.hostname in Hostnames(records) then Hostnames(records)
            else Hostnames(records) + [candidate.hostname]
  {
    var index := IndexOf(records, candidate.hostname);
    if index < |records| {
      assert Hostnames(records)[index] == candidate.hostname;
    }
  }

  /** Every record is the last one written under its name. */
  ghost predicate HoldsLastWrites(records: seq<Record>, candidates: seq<Record>)
  {
    forall i :: 0 <= i < |records| ==>
      && records[i].hostname in Hostnames(candidates)
      && records[i] == LastWritten(candidates, records[i].hostname)
  }

  lemma OneMoreWrite(before: seq<Record>, candidates: seq<Record>)
    requires candidates != [] && HoldsLastWrites(before, candidates[..|candidates| - 1])
    requires NoDuplicates(Hostnames(Upsert(before, candidates[|candidates| - 1])))
    ensures HoldsLastWrites(Upsert(before, candidates[|candidates| - 1]), candidates)
  {
    var last := |candidates| - 1;
    var c := candidates[last];
    var r, index := Upsert(before, c), IndexOf(before, c.hostname);
    HostnamesPrefix(candidates, last);
    assert Hostnames(candidates)[last] == c.hostname;
    assert r[index] == c && Hostnames(r)[index] == c.hostname;
    forall i | 0 <= i < |r|
      ensures r[i].hostname in Hostnames(candidates) && r[i] == LastWritten(candidates, r[i].hostname)
    {
      assert Hostnames(r)[i] == r[i].hostname;
      if i != index {
        assert r[i] == before[i];
      }
    }
  }

  /** For any run of upserts from an empty registry: each hostname once, in
      first-seen order, holding the record written last. */
  lemma {:induction false} UpsertsKeepLastWrite(candidates: seq<Record>)
    ensures var r := UpsertAll([], candidates);
      && Hostnames(r) == FirstSeen(Hostnames(candidates))
      && NoDuplicates(Hostnames(r))
      && (forall h :: h in Hostnames(r) <==> h in Hostnames(candidates))
      && HoldsLastWrites(r, candidates)
  {
    if candidates == [] {
    } else {
      var last := |candidates| - 1;
      var before := UpsertAll([], candidates[..last]);
      UpsertsKeepLastWrite(candidates[..last]);
      HostnamesPrefix(candidates, last);
      UpsertHostnames(before, candidates[last]);
      FirstSeenIsASet(Hostnames(candidates));
      OneMoreWrite(before, candidates);
    }
  }

  /** Upserts compose: a second run continues the first. */
  lemma UpsertAllSnoc(records: seq<Record>, candidates: seq<Record>, c: Record)
    ensures UpsertAll(records, candidates + [c]) == Upsert(UpsertAll(records, candidates), c)
  {
    LastOfConcat(candidates, [c]);
  }

  lemma UpsertAllMore(records: seq<Record>, a: seq<Record>, b: seq<Record>, c: Record)
    requires UpsertAll(UpsertAll(records, a), b) == UpsertAll(records, a + b)
    ensures UpsertAll(UpsertAll(records, a), b + [c]) == UpsertAll(records, a + (b + [c]))
  {
    UpsertAllSnoc(UpsertAll(records, a), b, c);
    UpsertAllSnoc(records, a + b, c);
    assert a + b + [c] == a + (b + [c]);
  }

  lemma {:induction false} UpsertAllConcat(records: seq<Record>, a: seq<Record>, b: seq<Record>)
    ensures UpsertAll(UpsertAll(records, a), b) == UpsertAll(records, a + b)
  {
    if b == [] {
      assert a + b == a;
    } else {
      var last := |b| - 1;
      UpsertAllConcat(records, a, b[..last]);
      UpsertAllMore(records, a, b[..last], b[last]);
      LastApart(b);
    }
  }

  lemma UpsertAllStep(records: seq<Record>, candidates: seq<Record>, n: nat)
    requires n < |candidates|
    ensures UpsertAll(records, candidates[..n + 1]) == Upsert(UpsertAll(records, candidates[..n]), candidates[n])
  {
    assert candidates[..n + 1][..n] == candidates[..n];
  }

  /** Writing distinct records one by one rebuilds the list as it was. */
  lemma {:induction false} UpsertAllOfDistinct(records: seq<Record>)
    requires NoDuplicates(Hostnames(records))
    ensures UpsertAll([], records) == records
  {
    if records == [] {
    } else {
      var last := |records| - 1;
      HostnamesPrefix(records, last);
      UpsertAllOfDistinct(records[..last]);
      assert forall j :: 0 <= j < last ==> Hostnames(records)[j] != Hostnames(records)[last];
    }
  }

  // ---------------------------------------------------------------------
  // Building the registry after a deploy
  // ---------------------------------------------------------------------

  function DeployedRecord(host: Host, addresses: map<string, string>, ipv6: map<string, string>, now: string): Record
  {
    var address := if host.hostname in addresses then addresses[host.hostname] else "";
    Record(host.hostname, host.role, address,
           if host.hostname in ipv6 then ipv6[host.hostname] else "",
           if address != "" then "Deployed" else "Unreachable", now,
           if address != "" then "Active" else "Inactive", now)
  }

  /** What a record says of a host after a deploy: its address if it was reached,
      and from that alone its status and state. */
  ghost predicate Describes(r: Record, host: Host, addresses: map<string, string>, ipv6: map<string, string>, now: string)
  {
    && r.hostname == host.hostname && r.role == host.role
    && (host.hostname in addresses ==> r.ipv4 == addresses[host.hostname])
    && (host.hostname !in addresses ==> r.ipv4 == "")
    && (host.hostname in ipv6 ==> r.ipv6 == ipv6[host.hostname])
    && (host.hostname !in ipv6 ==> r.ipv6 == "")
    && (r.ipv4 != "" ==> r.status == "Deployed" && r.state == "Active")
    && (r.ipv4 == "" ==> r.status == "Unreachable" && r.state == "Inactive")
    && r.statusTimestamp == now && r.stateTimestamp == now
  }

  /** Every record describes the last host configured under its name. */
  ghost predicate DescribesLast(
      records: seq<Record>, hosts: seq<Host>, addresses: map<string, string>, ipv6: map<string, string>, now: string)
  {
    forall i :: 0 <= i < |records| ==>
      exists j :: 0 <= j < |hosts| && Describes(records[i], hosts[j], addresses, ipv6, now)
                  && forall k :: j < k < |hosts| ==> hosts[k].hostname != records[i].hostname
  }

  lemma {:induction false} LastWrittenAt(candidates: seq<Record>, h: string) returns (j: nat)
    requires h in Hostnames(candidates)
    ensures j < |candidates| && candidates[j] == LastWritten(candidates, h)
    ensures forall k :: j < k < |candidates| ==> candidates[k].hostname != h
  {
    var last := |candidates| - 1;
    if candidates[last].hostname == h {
      j := last;
    } else {
      var i :| 0 <= i < |candidates| && Hostnames(candidates)[i] == h;
      assert Hostnames(candidates[..last])[i] == h;
      j := LastWrittenAt(candidates[..last], h);
    }
  }

  lemma DeployedDescribe(hosts: seq<Host>, addresses: map<string, string>, ipv6: map<string, string>, now: string)
    ensures var r := UpsertAll([], DeployedRecords(hosts, addresses, ipv6, now));
      && Hostnames(r) == FirstSeen(Map(NameOf, hosts))
      && DescribesLast(r, hosts, addresses, ipv6, now)
  {
    var all := DeployedRecords(hosts, addresses, ipv6, now);
    var r := UpsertAll([], all);
    UpsertsKeepLastWrite(all);
    assert Hostnames(all) == Map(NameOf, hosts);
    forall i | 0 <= i < |r|
      ensures exists j :: 0 <= j < |hosts| && Describes(r[i], hosts[j], addresses, ipv6, now)
                          && forall k :: j < k < |hosts| ==> hosts[k].hostname != r[i].hostname
    {
      var j := LastWrittenAt(all, r[i].hostname);
      assert Describes(r[i], hosts[j], addresses, ipv6, now);
      forall k | j < k < |hosts| ensures hosts[k].hostname != r[i].hostname {
        assert all[k].hostname == hosts[k].hostname;
      }
    }
  }

  function DeployedRecords(hosts: seq<Host>, addresses: map<string, string>, ipv6: map<string, string>, now: string)
    : seq<Record>
  {
    seq(|hosts|, i requires 0 <= i < |hosts| => DeployedRecord(hosts[i], addresses, ipv6, now))
  }

  /** Records for every configured host, rebuilt by upserting one at a time. */
  method BuildRecords(hosts: seq<Host>, addresses: map<string, string>, ipv6: map<string, string>, now: string)
    returns (records: seq<Record>)
    ensures records == UpsertAll([], DeployedRecords(hosts, addresses, ipv6, now))
    ensures NoDuplicates(Map(NameOf, hosts)) ==> records == DeployedRecords(hosts, addresses, ipv6, now)
    ensures Hostnames(records) == FirstSeen(Map(NameOf, hosts))
    ensures DescribesLast(records, hosts, addresses, ipv6, now)
  {
    ghost var all := DeployedRecords(hosts, addresses, ipv6, now);
    records := [];
    assert all[..0] == [];
    for i := 0 to |hosts|
      invariant records == UpsertAll([], all[..i])
    {
      assert all[i] == DeployedRecord(hosts[i], addresses, ipv6, now);
      UpsertAllStep([], all, i);
      records := UpsertPython(records, DeployedRecord(hosts[i], addresses, ipv6, now));
    }
    Whole(all);
    DeployedDescribe(hosts, addresses, ipv6, now);
    if NoDuplicates(Map(NameOf, hosts)) {
      assert Hostnames(all) == Map(NameOf, hosts);
      UpsertAllOfDistinct(all);
    }
  }

  // ---------------------------------------------------------------------
  // Teardown
  // ---------------------------------------------------------------------

  function Removed(record: Record, now: string): Record
  {
    record.(status := "Removed", statusTimestamp := now, state := "Inactive", stateTimestamp := now)
  }

  function RemovedAll(records: seq<Record>, now: string): (r: seq<Record>)
    ensures |r| == |records|
    ensures forall i :: 0 <= i < |r| ==> r[i] == Removed(records[i], now)
  {
    seq(|records|, i requires 0 <= i < |records| => Removed(records[i], now))
  }

  /** The record of a configured host the manifest has never heard of. */
  function NeverSeen(host: Host, now: string): Record
  {
    Record(host.hostname, host.role, "", "", "Removed", now, "Inactive", now)
  }

  /** Records for the configured hosts the manifest lacks, in cluster order. */
  function Missing(hosts: seq<Host>, manifest: seq<Record>, now: string): seq<Record>
  {
    if hosts == [] then []
    else
      var last := |hosts| - 1;
      var before := Missing(hosts[..last], manifest, now);
      if hosts[last].hostname in Hostnames(manifest) then before
      else before + [NeverSeen(hosts[last], now)]
  }

  /** The manifest teardown writes. */
  function MarkRemoved(manifest: seq<Record>, hosts: seq<Host>, now: string): seq<Record>
  {
    UpsertAll([], RemovedAll(manifest, now) + Missing(hosts, manifest, now))
  }

  lemma MissingStep(all: seq<Record>, hosts: seq<Host>, manifest: seq<Record>, now: string, i: nat)
    requires i < |hosts|
    ensures var before := UpsertAll([], all + Missing(hosts[..i], manifest, now));
      UpsertAll([], all + Missing(hosts[..i + 1], manifest, now)) ==
      if hosts[i].hostname in Hostnames(manifest) then before else Upsert(before, NeverSeen(hosts[i], now))
  {
    assert hosts[..i + 1][..i] == hosts[..i];
    var c := NeverSeen(hosts[i], now);
    var longer := all + Missing(hosts[..i], manifest, now) + [c];
    assert longer[..|longer| - 1] == all + Missing(hosts[..i], manifest, now);
    if hosts[i].hostname !in Hostnames(manifest) {
      assert longer == all + Missing(hosts[..i + 1], manifest, now);
    }
  }

  ghost predicate SeenUpTo(seen: set<string>, manifest: seq<Record>, i: nat)
    requires i <= |manifest|
  {
    seen == set j | 0 <= j < i :: manifest[j].hostname
  }

  lemma SeenOne(seen: set<string>, manifest: seq<Record>, i: nat)
    requires i < |manifest| && SeenUpTo(seen, manifest, i)
    ensures SeenUpTo(seen + {manifest[i].hostname}, manifest, i + 1)
  {
  }

  lemma SeenIsHostnames(manifest: seq<Record>, seen: set<string>)
    requires SeenUpTo(seen, manifest, |manifest|)
    ensures forall h :: h in seen <==> h in Hostnames(manifest)
  {
    forall h ensures h in seen <==> h in Hostnames(manifest) {
      if h in seen {
        var j :| 0 <= j < |manifest| && manifest[j].hostname == h;
        assert Hostnames(manifest)[j] == h;
      }
    }
  }

  lemma FirstSeenSnoc(names: seq<string>, x: string)
    ensures FirstSeen(names + [x]) == if x in names then FirstSeen(names) else FirstSeen(names) + [x]
  {
    assert (names + [x])[..|names|] == names;
  }

  lemma {:induction false} MissingAreNew(hosts: seq<Host>, manifest: seq<Record>, now: string)
    ensures forall c :: c in Missing(hosts, manifest, now) ==>
              c.hostname !in Hostnames(manifest) && Removed(c, now) == c && c.ipv4 == "" && c.ipv6 == ""
              && Host(c.hostname, c.role) in hosts
  {
    if hosts == [] {
    } else {
      MissingAreNew(hosts[..|hosts| - 1], manifest, now);
    }
  }

  lemma {:induction false} MissingHostnames(hosts: seq<Host>, manifest: seq<Record>, now: string)
    ensures FirstSeen(Hostnames(manifest) + Hostnames(Missing(hosts, manifest, now))) ==
            FirstSeen(Hostnames(manifest) + Map(NameOf, hosts))
  {
    var known := Hostnames(manifest);
    if hosts == [] {
      assert Hostnames(Missing(hosts, manifest, now)) == Map(NameOf, hosts);
    } else {
      var last := |hosts| - 1;
      var h, front := hosts[last].hostname, Map(NameOf, hosts[..last]);
      MissingHostnames(hosts[..last], manifest, now);
      var before := Hostnames(Missing(hosts[..last], manifest, now));
      assert known + Map(NameOf, hosts) == (known + front) + [h];
      if h in known {
        FirstSeenSnoc(known + front, h);
      } else {
        HostnamesConcat(Missing(hosts[..last], manifest, now), [NeverSeen(hosts[last], now)]);
        assert known + Hostnames(Missing(hosts, manifest, now)) == (known + before) + [h];
        SameFirstSeen(known + before, known + front, h);
      }
    }
  }

  lemma SameFirstSeen(a: seq<string>, b: seq<string>, x: string)
    requires FirstSeen(a) == FirstSeen(b)
    ensures FirstSeen(a + [x]) == FirstSeen(b + [x])
  {
    FirstSeenSnoc(a, x);
    FirstSeenSnoc(b, x);
    FirstSeenIsASet(a);
    FirstSeenIsASet(b);
    assert x in a <==> x in FirstSeen(a);
  }

  lemma {:induction false} LastWrittenBeyond(a: seq<Record>, b: seq<Record>, h: string)
    requires h in Hostnames(a) && h !in Hostnames(b)
    ensures h in Hostnames(a + b) && LastWritten(a + b, h) == LastWritten(a, h)
  {
    HostnamesConcat(a, b);
    if b == [] {
      assert a + b == a;
    } else {
      var last := |b| - 1;
      HostnamesPrefix(b, last);
      assert Hostnames(b)[last] == b[last].hostname;
      LastWrittenBeyond(a, b[..last], h);
      LastOfConcat(a, b);
    }
  }

  lemma LastWrittenOfTeardown(
      manifest: seq<Record>, gone: seq<Record>, missing: seq<Record>, now: string, h: string)
    requires gone == RemovedAll(manifest, now)
    requires forall c :: c in missing ==> c.hostname !in Hostnames(manifest)
    requires h in Hostnames(gone + missing)
    ensures h in Hostnames(manifest) ==>
              LastWritten(gone + missing, h) == Removed(LastWritten(manifest, h), now)
    ensures h !in Hostnames(manifest) ==> LastWritten(gone + missing, h) in missing
  {
    assert Hostnames(gone) == Hostnames(manifest);
    if h in Hostnames(manifest) {
      LastRemoved(manifest, now, h);
      LastWrittenBeyond(gone, missing, h);
    } else {
      var w := LastWritten(gone + missing, h);
      assert forall i :: 0 <= i < |gone| ==> Hostnames(gone)[i] != h;
    }
  }

  lemma {:induction false} LastRemoved(manifest: seq<Record>, now: string, h: string)
    requires h in Hostnames(manifest)
    ensures Hostnames(RemovedAll(manifest, now)) == Hostnames(manifest)
    ensures LastWritten(RemovedAll(manifest, now), h) == Removed(LastWritten(manifest, h), now)
  {
    assert Hostnames(RemovedAll(manifest, now)) == Hostnames(manifest);
    var last := |manifest| - 1;
    if manifest[last].hostname != h {
      var i :| 0 <= i < |manifest| && Hostnames(manifest)[i] == h;
      assert Hostnames(manifest[..last])[i] == h;
      assert RemovedAll(manifest, now)[..last] == RemovedAll(manifest[..last], now);
      LastRemoved(manifest[..last], now, h);
    }
  }

  lemma TeardownRecords(manifest: seq<Record>, hosts: seq<Host>, now: string)
    ensures var r := MarkRemoved(manifest, hosts, now);
      && Hostnames(r) == FirstSeen(Hostnames(manifest) + Map(NameOf, hosts))
      && NoDuplicates(Hostnames(r))
      && forall i :: 0 <= i < |r| ==>
           && Removed(r[i], now) == r[i]
           && (if r[i].hostname in Hostnames(manifest)
               then r[i] == Removed(LastWritten(manifest, r[i].hostname), now)
               else r[i].ipv4 == "" && r[i].ipv6 == "" && Host(r[i].hostname, r[i].role) in hosts)
  {
    var gone, missing := RemovedAll(manifest, now), Missing(hosts, manifest, now);
    var r := MarkRemoved(manifest, hosts, now);
    UpsertsKeepLastWrite(gone + missing);
    HostnamesConcat(gone, missing);
    assert Hostnames(gone) == Hostnames(manifest);
    MissingHostnames(hosts, manifest, now);
    MissingAreNew(hosts, manifest, now);
    forall i | 0 <= i < |r|
      ensures && Removed(r[i], now) == r[i]
              && (if r[i].hostname in Hostnames(manifest)
                  then r[i] == Removed(LastWritten(manifest, r[i].hostname), now)
                  else r[i].ipv4 == "" && r[i].ipv6 == "" && Host(r[i].hostname, r[i].role) in hosts)
    {
      LastWrittenOfTeardown(manifest, gone, missing, now, r[i].hostname);
    }
  }

  /** The manifest after teardown, field by field: the hosts it knew in first-seen
      order and then configured ones it lacked, each once; all of them removed
      and inactive since now; with the role and the addresses of the last record
      it had, or with none. */
  ghost predicate TornDown(r: seq<Record>, manifest: seq<Record>, hosts: seq<Host>, now: string)
  {
    && Hostnames(r) == FirstSeen(Hostnames(manifest) + Map(NameOf, hosts))
    && NoDuplicates(Hostnames(r))
    && forall i :: 0 <= i < |r| ==>
         && r[i].status == "Removed" && r[i].state == "Inactive"
         && r[i].statusTimestamp == now && r[i].stateTimestamp == now
         && if r[i].hostname in Hostnames(manifest)
            then
              var known := LastWritten(manifest, r[i].hostname);
              r[i].role == known.role && r[i].ipv4 == known.ipv4 && r[i].ipv6 == known.ipv6
            else r[i].ipv4 == "" && r[i].ipv6 == "" && Host(r[i].hostname, r[i].role) in hosts
  }

  /** A manifest with repeated names is allowed: its last entry counts. */
  lemma TeardownManifest(manifest: seq<Record>, hosts: seq<Host>, now: string)
    ensures TornDown(MarkRemoved(manifest, hosts, now), manifest, hosts, now)
  {
    TeardownRecords(manifest, hosts, now);
    var r := MarkRemoved(manifest, hosts, now);
    forall i | 0 <= i < |r|
      ensures && r[i].status == "Removed" && r[i].state == "Inactive"
              && r[i].statusTimestamp == now && r[i].stateTimestamp == now
    {
      assert Removed(r[i], now) == r[i];
    }
  }

  /** Teardown on the automation host: two loops over an accumulator. */
  method MarkManifestRemoved(manifest: seq<Record>, hosts: seq<Host>, now: string) returns (updated: seq<Record>)
    ensures updated == MarkRemoved(manifest, hosts, now) && TornDown(updated, manifest, hosts, now)
  {
    TeardownManifest(manifest, hosts, now);
    ghost var all := RemovedAll(manifest, now);
    updated := [];
    var seen: set<string> := {};
    for i := 0 to |manifest|
      invariant SeenUpTo(seen, manifest, i)
      invariant updated == UpsertAll([], all[..i])
    {
      SeenOne(seen, manifest, i);
      seen := seen + {manifest[i].hostname};
      UpsertAllStep([], all, i);
      updated := UpsertPython(updated, Removed(manifest[i], now));
    }
    Whole(all);
    SeenIsHostnames(manifest, seen);
    assert Missing(hosts[..0], manifest, now) == [] && all + [] == all;
    for i := 0 to |hosts|
      invariant updated == UpsertAll([], all + Missing(hosts[..i], manifest, now))
    {
      MissingStep(all, hosts, manifest, now, i);
      if hosts[i].hostname !in seen {
        updated := UpsertPython(updated, NeverSeen(hosts[i], now));
      }
    }
    Whole(hosts);
  }

  /** The Go subcommand overwrites four fields of every stored record. */
  method MarkRemovedGo(stored: seq<Record>, now: string) returns (records: seq<Record>)
    ensures records == RemovedAll(stored, now)
    ensures |records| == |stored| && forall i :: 0 <= i < |records| ==>
              records[i] == Record(stored[i].hostname, stored[i].role, stored[i].ipv4, stored[i].ipv6,
                                   "Removed", now, "Inactive", now)
  {
    records := stored;
    for index := 0 to |records|
      invariant |records| == |stored|
      invariant forall i :: 0 <= i < index ==> records[i] == Removed(stored[i], now)
      invariant forall i :: index <= i < |stored| ==> records[i] == stored[i]
    {
      records := records[index := records[index].(status := "Removed")];
      records := records[index := records[index].(statusTimestamp := now)];
      records := records[index := records[index].(state := "Inactive")];
      records := records[index := records[index].(stateTimestamp := now)];
    }
  }

  /** The Go transition and the Python teardown write the same manifest exactly
      when the manifest already lists every configured host and repeats none. */
  lemma GoMatchesTeardownExactly(manifest: seq<Record>, hosts: seq<Host>, now: string)
    ensures RemovedAll(manifest, now) == MarkRemoved(manifest, hosts, now) <==>
            NoDuplicates(Hostnames(manifest)) && forall h :: h in Map(NameOf, hosts) ==> h in Hostnames(manifest)
  {
    var go, py := RemovedAll(manifest, now), MarkRemoved(manifest, hosts, now);
    assert Hostnames(go) == Hostnames(manifest);
    TeardownRecords(manifest, hosts, now);
    FirstSeenIsASet(Hostnames(manifest) + Map(NameOf, hosts));
    if go == py {
      forall h | h in Map(NameOf, hosts) ensures h in Hostnames(manifest) {
        assert h in Hostnames(manifest) + Map(NameOf, hosts);
      }
    }
    if NoDuplicates(Hostnames(manifest)) && forall h :: h in Map(NameOf, hosts) ==> h in Hostnames(manifest) {
      NothingMissing(hosts, manifest, now);
      assert go + [] == go;
      UpsertAllOfDistinct(go);
    }
  }

  lemma {:induction false} NothingMissing(hosts: seq<Host>, manifest: seq<Record>, now: string)
    requires forall h :: h in Map(NameOf, hosts) ==> h in Hostnames(manifest)
    ensures Missing(hosts, manifest, now) == []
  {
    if hosts == [] {
    } else {
      var last := |hosts| - 1;
      assert Map(NameOf, hosts)[last] == hosts[last].hostname;
      assert Map(NameOf, hosts[..last]) == Map(NameOf, hosts)[..last];
      NothingMissing(hosts[..last], manifest, now);
    }
  }

  /** Tearing down again, with either tool, changes nothing but timestamps. */
  lemma TeardownIsIdempotent(manifest: seq<Record>, hosts: seq<Host>, first: string, second: string)
    ensures var once := MarkRemoved(manifest, hosts, first);
      && MarkRemoved(once, hosts, second) == RemovedAll(once, second)
      && forall i :: 0 <= i < |once| ==>
           RemovedAll(once, second)[i] == once[i].(statusTimestamp := second, stateTimestamp := second)
  {
    var once := MarkRemoved(manifest, hosts, first);
    TeardownRecords(manifest, hosts, first);
    FirstSeenIsASet(Hostnames(manifest) + Map(NameOf, hosts));
    forall h | h in Map(NameOf, hosts) ensures h in Hostnames(once) {
      assert h in Hostnames(manifest) + Map(NameOf, hosts);
    }
    GoMatchesTeardownExactly(once, hosts, second);
  }
}
