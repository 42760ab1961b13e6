/** The evaluator as it runs: sorting, validating and accumulating in loops
    (internal/placement/evaluator.go). */
module PlacementEvaluator {
  import opened Common
  import opened Sorting
  import P = Placement
  import O = PlacementOrder
  import L = PlacementLaws
  import K = PlacementCapacity

  /** In a sorted list whose neighbours differ, an element equals none before it. */
  lemma NoneBefore(keys: seq<string>, n: nat)
    requires n < |keys| && (forall i, j :: 0 <= i < j <= n ==> StringLeq(keys[i], keys[j]))
    requires n > 0 ==> keys[n - 1] != keys[n]
    ensures forall i :: 0 <= i < n ==> keys[i] != keys[n]
  {
    forall i | 0 <= i < n ensures keys[i] != keys[n] {
      if i < n - 1 { StringOrder(keys[n - 1], keys[n], ""); }
    }
  }

  function Addresses(s: seq<P.PciRequirement>): seq<string> { seq(|s|, i requires 0 <= i < |s| => s[i].address) }
  function Ports(s: seq<P.NetworkRequirement>): seq<string> { seq(|s|, i requires 0 <= i < |s| => s[i].port) }
  function Volumes(s: seq<P.StorageRequirement>): seq<string> { seq(|s|, i requires 0 <= i < |s| => s[i].volume) }

  /** The first loop: complete and, since sorted, without duplicates if no two neighbours agree. */
  method ValidatePci(s: seq<P.PciRequirement>) returns (ok: bool)
    requires Sorted(P.AddressLeq, s)
    ensures ok <==> (forall i :: 0 <= i < |s| ==> P.PciOk(s[i])) && P.NoClash(P.PciClash, s)
  {
    hide P.PciOk, P.NoClash;
    EmptyIsFree(P.PciClash, s);
    for index := 0 to |s|
      invariant forall i :: 0 <= i < index ==> P.PciOk(s[i])
      invariant P.NoClash(P.PciClash, s[..index])
    {
      if !P.PciOk(s[index]) { return false; }
      if index > 0 && s[index - 1].address == s[index].address {
        ClashFound(P.PciClash, s, index - 1, index);
        return false;
      }
      AddressesDiffer(s, index);
      O.ClashesAreSymmetric();
      ClashFreeExtends(P.PciClash, s, index);
    }
    assert s[..|s|] == s;
    return true;
  }

  lemma AddressesDiffer(s: seq<P.PciRequirement>, n: nat)
    requires n < |s| && Sorted(P.AddressLeq, s) && (n > 0 ==> s[n - 1].address != s[n].address)
    ensures forall i :: 0 <= i < n ==> s[i].address != s[n].address
  {
    NoneBefore(Addresses(s), n);
    assert forall i :: 0 <= i <= n ==> Addresses(s)[i] == s[i].address;
  }

  /** One more element that clashes with none before it. */
  lemma ClashFreeExtends<T(!new)>(clash: (T, T) -> bool, s: seq<T>, n: nat)
    requires O.Symmetric(clash) && n < |s| && P.NoClash(clash, s[..n]) && forall i :: 0 <= i < n ==> !clash(s[i], s[n])
    ensures P.NoClash(clash, s[..n + 1])
  {
    forall i, j | 0 <= i < n + 1 && 0 <= j < n + 1 && i != j ensures !clash(s[i], s[j]) {
      if i < n && j < n { assert s[..n][i] == s[i] && s[..n][j] == s[j]; }
    }
  }

  lemma ClashFound<T>(clash: (T, T) -> bool, s: seq<T>, i: nat, j: nat)
    requires i < j < |s| && clash(s[i], s[j])
    ensures !P.NoClash(clash, s)
  {
  }

  method ValidateNetwork(s: seq<P.NetworkRequirement>, pci: seq<P.PciRequirement>) returns (ok: bool)
    requires Sorted(P.PortLeq, s)
    ensures ok <==> (forall i :: 0 <= i < |s| ==> P.NetworkOk(s[i], pci)) && P.NoClash(P.NetworkClash, s)
  {
    hide P.NetworkOk, P.Explicit, P.IpKey, P.MacKey, P.NoClash;
    EmptyIsFree(P.NetworkClash, s);
    var ips: set<string>, macs: set<string> := {}, {};
    for index := 0 to |s|
      invariant forall i :: 0 <= i < index ==> P.NetworkOk(s[i], pci)
      invariant P.NoClash(P.NetworkClash, s[..index])
      invariant Collected(s, index, ips, macs)
    {
      var r := s[index];
      if !P.NetworkOk(r, pci) { return false; }
      if index > 0 && s[index - 1].port == r.port {
        ClashFound(P.NetworkClash, s, index - 1, index);
        return false;
      }
      PortsDiffer(s, index);
      if P.Explicit(r) && (P.IpKey(r) in ips || P.MacKey(r) in macs) {
        var i := FindClash(s, index, ips, macs);
        ClashFound(P.NetworkClash, s, i, index);
        return false;
      }
      NothingClashes(s, index, ips, macs);
      O.ClashesAreSymmetric();
      ClashFreeExtends(P.NetworkClash, s, index);
      if P.Explicit(r) { ips, macs := ips + {P.IpKey(r)}, macs + {P.MacKey(r)}; }
    }
    assert s[..|s|] == s;
    return true;
  }

  lemma EmptyIsFree<T>(clash: (T, T) -> bool, s: seq<T>)
    ensures P.NoClash(clash, s[..0])
  {
  }

  /** The identities of the explicit requirements before `index`. */
  ghost predicate Collected(s: seq<P.NetworkRequirement>, index: nat, ips: set<string>, macs: set<string>)
    requires index <= |s|
  {
    && ips == (set i | 0 <= i < index && P.Explicit(s[i]) :: P.IpKey(s[i]))
    && macs == (set i | 0 <= i < index && P.Explicit(s[i]) :: P.MacKey(s[i]))
  }

  lemma PortsDiffer(s: seq<P.NetworkRequirement>, n: nat)
    requires n < |s| && Sorted(P.PortLeq, s) && (n > 0 ==> s[n - 1].port != s[n].port)
    ensures forall i :: 0 <= i < n ==> s[i].port != s[n].port
  {
    NoneBefore(Ports(s), n);
    assert forall i :: 0 <= i <= n ==> Ports(s)[i] == s[i].port;
  }

  lemma FindClash(s: seq<P.NetworkRequirement>, n: nat, ips: set<string>, macs: set<string>) returns (i: nat)
    requires n < |s| && Collected(s, n, ips, macs) && P.Explicit(s[n])
             && (P.IpKey(s[n]) in ips || P.MacKey(s[n]) in macs)
    ensures i < n && P.NetworkClash(s[i], s[n])
  {
    hide P.Explicit, P.IpKey, P.MacKey;
    if P.IpKey(s[n]) in ips {
      i :| 0 <= i < n && P.Explicit(s[i]) && P.IpKey(s[i]) == P.IpKey(s[n]);
    } else {
      i :| 0 <= i < n && P.Explicit(s[i]) && P.MacKey(s[i]) == P.MacKey(s[n]);
    }
  }

  lemma NothingClashes(s: seq<P.NetworkRequirement>, n: nat, ips: set<string>, macs: set<string>)
    requires n < |s| && Collected(s, n, ips, macs)
             && (P.Explicit(s[n]) ==> P.IpKey(s[n]) !in ips && P.MacKey(s[n]) !in macs)
    requires forall i :: 0 <= i < n ==> s[i].port != s[n].port
    ensures forall i :: 0 <= i < n ==> !P.NetworkClash(s[i], s[n])
  {
    hide P.Explicit, P.IpKey, P.MacKey;
    forall i | 0 <= i < n ensures !P.NetworkClash(s[i], s[n]) {
      if P.Explicit(s[i]) { assert P.IpKey(s[i]) in ips && P.MacKey(s[i]) in macs; }
    }
  }

  method ValidateStorage(s: seq<P.StorageRequirement>) returns (ok: bool)
    requires Sorted(P.VolumeLeq, s)
    ensures ok <==> (forall i :: 0 <= i < |s| ==> P.StorageOk(s[i])) && P.NoClash(P.StorageClash, s)
  {
    hide P.StorageOk, P.NoClash;
    EmptyIsFree(P.StorageClash, s);
    var attachments: set<string> := {};
    for index := 0 to |s|
      invariant forall i :: 0 <= i < index ==> P.StorageOk(s[i])
      invariant P.NoClash(P.StorageClash, s[..index])
      invariant attachments == set i | 0 <= i < index :: s[i].attachment
    {
      if !P.StorageOk(s[index]) { return false; }
      if index > 0 && s[index - 1].volume == s[index].volume {
        ClashFound(P.StorageClash, s, index - 1, index);
        return false;
      }
      VolumesDiffer(s, index);
      if s[index].attachment in attachments {
        ghost var i :| 0 <= i < index && s[i].attachment == s[index].attachment;
        ClashFound(P.StorageClash, s, i, index);
        return false;
      }
      assert forall i :: 0 <= i < index ==> s[i].attachment in attachments;
      O.ClashesAreSymmetric();
      ClashFreeExtends(P.StorageClash, s, index);
      attachments := attachments + {s[index].attachment};
    }
    assert s[..|s|] == s;
    return true;
  }

  lemma VolumesDiffer(s: seq<P.StorageRequirement>, n: nat)
    requires n < |s| && Sorted(P.VolumeLeq, s) && (n > 0 ==> s[n - 1].volume != s[n].volume)
    ensures forall i :: 0 <= i < n ==> s[i].volume != s[n].volume
  {
    NoneBefore(Volumes(s), n);
    assert forall i :: 0 <= i <= n ==> Volumes(s)[i] == s[i].volume;
  }

  method ExtractCapacity(fragments: seq<P.Fragment>) returns (c: P.Capacity)
    ensures c == P.CapacityOf(fragments)
    ensures forall size: P.u64 ::
              var t := K.TotalsOf(fragments, size);
              && c.vcpus == P.Wrap(t.online) && c.isolated == P.Wrap(t.isolated)
              && P.Of(c.pages, size) == P.Wrap(t.pages) && P.Of(c.freePages, size) == P.Wrap(t.freePages)
  {
    forall size: P.u64 ensures var c, t := P.CapacityOf(fragments), K.TotalsOf(fragments, size);
                               && c.vcpus == P.Wrap(t.online) && c.isolated == P.Wrap(t.isolated)
                               && P.Of(c.pages, size) == P.Wrap(t.pages)
                               && P.Of(c.freePages, size) == P.Wrap(t.freePages) {
      K.CapacityIs(fragments, size);
    }
    hide K.TotalsOf, P.Wrap, P.Of;
    c := P.NOTHING;
    for n := 0 to |fragments|
      invariant c == P.CapacityOf(fragments[..n])
    {
      var f := fragments[n];
      ghost var before := c;
      assert fragments[..n + 1][..n] == fragments[..n];
      if f.compute.Some? {
        if !P.Available(f.capabilities, "kim.host.cpu-topology.v1") { continue; }
        c := CountThreads(c.(computeSeen := true), f.compute.value);
      } else if f.memory.Some? {
        if !P.Available(f.capabilities, "kim.host.memory.v1") { continue; }
        var m := f.memory.value;
        c := c.(memorySeen := true, memoryMiB := m.totalBytes / P.MIB, availableMiB := m.availableBytes / P.MIB,
                numaNodes := P.Wrap(m.numaNodes));
        c := AddPools(c, m.pools);
      }
    }
    assert fragments[..|fragments|] == fragments;
  }

  method CountThreads(start: P.Capacity, threads: seq<P.Thread>) returns (c: P.Capacity)
    ensures c == P.WithThreads(start, threads)
  {
    c := start;
    for i := 0 to |threads|
      invariant c == P.WithThreads(start, threads[..i])
    {
      assert threads[..i + 1][..i] == threads[..i];
      if threads[i].online {
        c := c.(vcpus := P.Wrap(c.vcpus + 1));
        if threads[i].isolated { c := c.(isolated := P.Wrap(c.isolated + 1)); }
      }
    }
    assert threads[..|threads|] == threads;
  }

  method AddPools(start: P.Capacity, pools: seq<P.Pool>) returns (c: P.Capacity)
    ensures c == P.WithPools(start, pools)
  {
    hide P.Wrap, P.Of;
    c := start;
    for i := 0 to |pools|
      invariant c == P.WithPools(start, pools[..i])
    {
      assert pools[..i + 1][..i] == pools[..i];
      var size: P.u64 := pools[i].pageBytes / 1024;
      c := c.(pages := c.pages[size := P.Wrap(P.Of(c.pages, size) + pools[i].total)]);
      c := c.(freePages := c.freePages[size := P.Wrap(P.Of(c.freePages, size) + pools[i].free)]);
    }
    assert pools[..|pools|] == pools;
  }

  /** The three requirement loops, appending to the reasons found so far. */
  method RequirementReasons(r: P.Request, a: P.Authority) returns (reasons: seq<string>)
    ensures reasons == P.HostReasons(r, a) + P.PciAll(r.pci, a) + P.NetworkAll(r.project, r.network,
          a) + P.StorageAll(r.storage, a)
  {
    hide P.HostReasons, P.PciReasons, P.NetworkReasons, P.StorageReasons;
    reasons := P.HostReasons(r, a);
    for i := 0 to |r.pci|
      invariant reasons == P.HostReasons(r, a) + P.PciAll(r.pci[..i], a)
    {
      assert r.pci[..i + 1][..i] == r.pci[..i];
      reasons := reasons + P.PciReasons(r.pci[i], a);
    }
    assert r.pci[..|r.pci|] == r.pci;
    ghost var found := reasons;
    for i := 0 to |r.network|
      invariant reasons == found + P.NetworkAll(r.project, r.network[..i], a)
    {
      assert r.network[..i + 1][..i] == r.network[..i];
      reasons := reasons + P.NetworkReasons(r.project, r.network[i], a);
    }
    assert r.network[..|r.network|] == r.network;
    found := reasons;
    for i := 0 to |r.storage|
      invariant reasons == found + P.StorageAll(r.storage[..i], a)
    {
      assert r.storage[..i + 1][..i] == r.storage[..i];
      reasons := reasons + P.StorageReasons(r.storage[i], a);
    }
    assert r.storage[..|r.storage|] == r.storage;
  }

  /** Evaluate.  Beyond the specification function: a result is given exactly for well-formed
      requests, it is eligible exactly when every bound holds against the counters, and then what
      is claimed and asked for fits the host's true totals. */
  method Evaluate(request: P.Request, a: P.Authority) returns (result: Result<P.Evaluated, P.Error>)
    ensures result == P.Evaluate(request, a)
    ensures result.Ok? <==> P.Wellformed(request)
    ensures result.Ok? ==> (result.value.evaluation.eligible <==> L.Fits(P.Canonical(request), a))
    ensures result.Ok? && result.value.evaluation.eligible ==> K.TrulyFits(P.Canonical(request), a)
  {
    hide K.TrulyFits, K.Representable, K.TotalsOf, P.CapacityOf;
    hide P.Wellformed, P.Reasons, P.Score, L.Fits, P.RequiredPages;
    O.CanonicalWellformed(request);
    var r := P.Canonical(request);
    var ok := Validate(request);
    if !ok { return Err(P.InvalidRequest); }
    var reasons := RequirementReasons(r, a);
    var capacity := ExtractCapacity(a.fragments);
    var shortfalls := CapacityShortfalls(r, a, capacity);
    reasons := reasons + shortfalls;
    assert reasons == P.Reasons(r, a) by { AllReasons(r, a); }
    SortPermutes(StringLeq, reasons);
    L.NoReasonIff(r, a);
    K.EligibleTrulyFits(r, a);
    reasons := Sort(StringLeq, reasons);
    var eligible := |reasons| == 0;
    var score := 0;
    if eligible { score := P.Score(r, a); }
    var e := P.Evaluation(r, a.host, a.pool, eligible, reasons, score, P.RequiredPages(r), a.detail);
    return Ok(P.Evaluated(e, e));
  }

  lemma AllReasons(r: P.Request, a: P.Authority)
    ensures P.Reasons(r, a) == P.HostReasons(r, a) + P.PciAll(r.pci, a) + P.NetworkAll(r.project, r.network,
          a) + P.StorageAll(r.storage, a)
                               + P.CapacityReasons(r, a)
  {
  }

  /** What the extracted capacity lacks. */
  method CapacityShortfalls(r: P.Request, a: P.Authority, c: P.Capacity) returns (reasons: seq<string>)
    requires c == P.CapacityOf(a.fragments)
    ensures reasons == P.CapacityReasons(r, a)
  {
    hide P.CapacityOf, P.Shortfalls, P.FreeVcpus, P.FreeMemory, P.FreePages, P.RequiredPages;
    var vcpus := AvailableVcpus(r, a, c);
    var memory := AvailableMemory(a, c);
    var short := false;
    if r.hugePageKiB.Some? {
      var pages := AvailablePages(a, c, r.hugePageKiB.value);
      short := pages < P.RequiredPages(r);
    }
    reasons := P.Shortfalls(!c.computeSeen, !c.memorySeen, vcpus < r.vcpus, memory < r.memoryMiB,
                            r.numaPolicy == "REQUIRED" && r.numaNodes.Some? && c.numaNodes < r.numaNodes.value, short);
  }

  method AvailableVcpus(r: P.Request, a: P.Authority, c: P.Capacity) returns (free: P.u64)
    requires c == P.CapacityOf(a.fragments)
    ensures free == P.FreeVcpus(r, a)
  {
    hide P.CapacityOf;
    free := P.SaturatingSubtract(c.vcpus, a.claimedVcpus);
    if r.pinning || r.cpuAllocation == "DEDICATED" { free := P.SaturatingSubtract(c.isolated, a.claimedVcpus); }
  }

  method AvailableMemory(a: P.Authority, c: P.Capacity) returns (free: P.u64)
    requires c == P.CapacityOf(a.fragments)
    ensures free == P.FreeMemory(a)
  {
    hide P.CapacityOf;
    free := P.SaturatingSubtract(c.memoryMiB, a.claimedMemoryMiB);
    if c.availableMiB < free { free := c.availableMiB; }
  }

  method AvailablePages(a: P.Authority, c: P.Capacity, size: P.u64) returns (free: P.u64)
    requires c == P.CapacityOf(a.fragments)
    ensures free == P.FreePages(a, size)
  {
    hide P.CapacityOf;
    free := P.SaturatingSubtract(P.Of(c.pages, size), P.Of(a.claimedPages, size));
    if P.Of(c.freePages, size) < free { free := P.Of(c.freePages, size); }
  }

  method Validate(request: P.Request) returns (ok: bool)
    ensures ok <==> P.Wellformed(P.Canonical(request))
  {
    hide P.PciOk, P.NetworkOk, P.StorageOk, P.NoClash, Sorted, Sort, Linear;
    O.LeqsAreLinear();
    SortSorts(P.AddressLeq, request.pci);
    SortSorts(P.PortLeq, request.network);
    SortSorts(P.VolumeLeq, request.storage);
    var pci, network, storage := Sort(P.AddressLeq, request.pci), Sort(P.PortLeq, request.network),
        Sort(P.VolumeLeq, request.storage);
    ok := ValidatePci(pci);
    if !ok { return; }
    ok := ValidateNetwork(network, pci);
    if !ok { return; }
    ok := ValidateStorage(storage);
  }

  method SelectBest(evaluations: seq<P.Evaluated>) returns (selected: seq<P.Evaluated>)
    ensures selected == P.Select(evaluations)
    ensures Sorted(P.Ranks, selected)
    ensures forall e :: multiset(selected)[e] == if e.evaluation.eligible then multiset(evaluations)[e] else 0
  {
    selected := [];
    for i := 0 to |evaluations|
      invariant selected == P.EligibleOf(evaluations[..i])
    {
      assert evaluations[..i + 1][..i] == evaluations[..i];
      if evaluations[i].evaluation.eligible { selected := selected + [evaluations[i]]; }
    }
    assert evaluations[..|evaluations|] == evaluations;
    selected := Sort(P.Ranks, selected);
    O.SelectRanksEligible(evaluations);
  }
}
