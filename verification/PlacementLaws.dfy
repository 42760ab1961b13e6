/** What an evaluation and a selection mean. */
module PlacementLaws {
  import opened Common
  import opened Placement

  // ----- eligibility without saturation ----------------------------------------------------------

  predicate HostFits(r: Request, a: Authority) {
    && a.database == "ACTIVE" && r.pool != "" && a.pool == r.pool && a.poolState == "ACTIVE" && a.membership == "ACTIVE"
    && a.capability == "CURRENT" && a.inventoryGeneration == a.capabilityGeneration == a.readinessGeneration
    && a.readiness == "READY" && a.preflight == "PASSED" && a.compliance == "COMPLIANT" && r.catalogAccess
  }

  predicate PciFits(r: PciRequirement, a: Authority) {
    && r.address in a.devices
    && var d := a.devices[r.address];
       && d.generation == a.capabilityGeneration && d.observed == "AVAILABLE" && d.relationship == "AVAILABLE"
       && d.pf != "" && d.vf >= 0
       && d.binding == "CURRENT" && d.bindingGeneration == a.capabilityGeneration && d.qualified
       && d.qualification == r.qualification && d.qualificationRevision == r.qualificationRevision
       && d.policy == r.policy && d.policyState == "ALLOWED" && d.policyGeneration == r.policyGeneration
       && d.policyProfile == d.bindingProfile
       && (r.numaNode.Some? ==> d.numaNode == r.numaNode.value)
       && (r.iommuGroup != "" ==> d.iommuGroup == r.iommuGroup) && !d.claimed
  }

  predicate NetworkFits(project: string, r: NetworkRequirement, a: Authority) {
    && r.port in a.networks
    && var n := a.networks[r.port];
       && n.network == r.network && n.project == project && n.state == "ACTIVE" && n.generation == r.networkGeneration
       && n.subnet == r.subnet && n.subnetState == "ACTIVE" && n.subnetGeneration == r.subnetGeneration
       && n.segment == r.segment && n.segmentState == "ACTIVE" && n.segmentGeneration == r.segmentGeneration
       && n.mapping == "CURRENT" && n.mappingGeneration == r.mappingGeneration && r.mtu <= n.mtu
       && r.mtu <= n.mappingMtu
       && n.ipAllowed && !n.identityConflict && !n.portConflict && (r.handoff.Some? ==> n.handoffReady)
       && n.bindingSupported
  }

  /** Reserve, claims and the new volume together fit the total, and the volume fits what is
      observed free beside foreign data. */
  predicate SpaceFits(size: u64, s: Store) {
    s.reserve + s.claimed + size <= s.total && s.external + size <= s.free
  }

  predicate StorageFits(r: StorageRequirement, a: Authority) {
    && r.volume in a.stores
    && var s := a.stores[r.volume];
       && s.backend == r.backend && s.backendType == "LOCAL_LVM" && s.backendState == "ACTIVE"
       && s.backendGeneration == r.backendGeneration
       && (s.tier == "VALIDATED" || s.tier == "SUPPORTED")
       && s.host == a.host && s.vg == r.vg && s.capability == "CURRENT"
       && s.capabilityGeneration == a.capabilityGeneration
       && s.storageClass == r.storageClass && s.classRevision == r.classRevision && s.classState == "ACTIVE"
       && s.allowedType == "LOCAL_LVM"
       && s.locality == "HOST_LOCAL" && s.singleWriter && !s.thin && !s.encrypted
       && s.fencingRevision == r.fencingRevision
       && s.capacityGeneration == r.capacityGeneration && s.capacityState == "CURRENT" && s.health == "HEALTHY"
       && SpaceFits(r.size, s) && !s.volumeConflict && !s.attachmentConflict
       && (r.volumeRevision > 0 ==> s.consumerReady)
  }

  function Cpus(r: Request, c: Capacity): u64 {
    if r.pinning || r.cpuAllocation == "DEDICATED" then c.isolated else c.vcpus
  }

  predicate CapacityFits(r: Request, a: Authority) {
    var c := CapacityOf(a.fragments);
    && c.computeSeen && c.memorySeen
    && (r.vcpus > 0 ==> a.claimedVcpus + r.vcpus <= Cpus(r, c))
    && (r.memoryMiB > 0 ==> a.claimedMemoryMiB + r.memoryMiB <= c.memoryMiB) && r.memoryMiB <= c.availableMiB
    && (r.numaPolicy == "REQUIRED" && r.numaNodes.Some? ==> r.numaNodes.value <= c.numaNodes)
    && (r.hugePageKiB.Some? ==>
          var size, pages := r.hugePageKiB.value, RequiredPages(r);
          (pages > 0 ==> Of(a.claimedPages, size) + pages <= Of(c.pages, size)) && pages <= Of(c.freePages, size))
  }

  ghost predicate Fits(r: Request, a: Authority) {
    && HostFits(r, a) && CapacityFits(r, a)
    && (forall i :: 0 <= i < |r.pci| ==> PciFits(r.pci[i], a))
    && (forall i :: 0 <= i < |r.network| ==> NetworkFits(r.project, r.network[i], a))
    && (forall i :: 0 <= i < |r.storage| ==> StorageFits(r.storage[i], a))
  }

  lemma FreeBytesIff(size: u64, s: Store)
    requires size > 0
    ensures FreeBytes(s) >= size <==> SpaceFits(size, s)
  {
  }

  lemma CapacityIff(r: Request, a: Authority)
    ensures CapacityReasons(r, a) == [] <==> CapacityFits(r, a)
  {
    hide CapacityOf, RequiredPages;
  }

  lemma StorageIff(r: StorageRequirement, a: Authority)
    requires r.size > 0
    ensures StorageReasons(r, a) == [] <==> StorageFits(r, a)
  {
    hide FreeBytes, SpaceFits;
    if r.volume in a.stores { FreeBytesIff(r.size, a.stores[r.volume]); }
  }

  lemma PciIff(r: PciRequirement, a: Authority)
    ensures PciReasons(r, a) == [] <==> PciFits(r, a)
  {
  }

  lemma NetworkIff(project: string, r: NetworkRequirement, a: Authority)
    ensures NetworkReasons(project, r, a) == [] <==> NetworkFits(project, r, a)
  {
  }

  lemma {:induction false} PciAllIff(rs: seq<PciRequirement>, a: Authority)
    ensures PciAll(rs, a) == [] <==> forall i :: 0 <= i < |rs| ==> PciFits(rs[i], a)
  {
    hide PciReasons, PciFits;
    if rs != [] {
      var n := |rs| - 1;
      PciAllIff(rs[..n], a);
      PciIff(rs[n], a);
      assert forall i :: 0 <= i < n ==> rs[..n][i] == rs[i];
    }
  }

  lemma {:induction false} NetworkAllIff(project: string, rs: seq<NetworkRequirement>, a: Authority)
    ensures NetworkAll(project, rs, a) == [] <==> forall i :: 0 <= i < |rs| ==> NetworkFits(project, rs[i], a)
  {
    hide NetworkReasons, NetworkFits;
    if rs != [] {
      var n := |rs| - 1;
      NetworkAllIff(project, rs[..n], a);
      NetworkIff(project, rs[n], a);
      assert forall i :: 0 <= i < n ==> rs[..n][i] == rs[i];
    }
  }

  lemma {:induction false} StorageAllIff(rs: seq<StorageRequirement>, a: Authority)
    requires forall i :: 0 <= i < |rs| ==> rs[i].size > 0
    ensures StorageAll(rs, a) == [] <==> forall i :: 0 <= i < |rs| ==> StorageFits(rs[i], a)
  {
    hide StorageReasons, StorageFits;
    if rs != [] {
      var n := |rs| - 1;
      StorageAllIff(rs[..n], a);
      StorageIff(rs[n], a);
      assert forall i :: 0 <= i < n ==> rs[..n][i] == rs[i];
    }
  }

  lemma HostIff(r: Request, a: Authority)
    ensures HostReasons(r, a) == [] <==> HostFits(r, a)
  {
  }

  /** No reason is recorded exactly when every bound holds without saturation, against the capacity
      counters; what the counters are is for PlacementCapacity. */
  lemma NoReasonIff(r: Request, a: Authority)
    requires Wellformed(r)
    ensures Reasons(r, a) == [] <==> Fits(r, a)
  {
    hide HostReasons, HostFits, CapacityReasons, CapacityFits, PciAll, NetworkAll, StorageAll, PciFits, NetworkFits,
         StorageFits;
    HostIff(r, a);
    CapacityIff(r, a);
    PciAllIff(r.pci, a);
    NetworkAllIff(r.project, r.network, a);
    StorageAllIff(r.storage, a);
  }

  // ----- huge pages -----------------------------------------------------------------------------------

  /** The quotient is the true ceiling exactly when the sum inside it fits. */
  lemma CeilDivideExactIff(value: u64, divisor: u64)
    requires divisor > 0
    ensures IsCeiling(CeilDivide(value, divisor), value, divisor) <==> value + divisor - 1 < TWO64
  {
    var x := value + divisor - 1;
    if x >= TWO64 {
      WrapOnce(x);
      CeilingTooSmall(x - TWO64, value, divisor);
    } else {
      WrapSmall(x);
      CeilingOfSum(value, divisor);
    }
    hide IsCeiling, Wrap;
  }

  /** q pages of this size hold the value, and one page less does not. */
  ghost predicate IsCeiling(q: int, value: int, size: int) {
    q * size >= value && (q - 1) * size < value
  }

  lemma CeilingTooSmall(w: int, value: int, d: int)
    requires 0 <= w < value && d > 0
    ensures !IsCeiling(w / d, value, d)
  {
    DivBounds(w, d);
  }

  lemma CeilingOfSum(value: int, d: int)
    requires value >= 0 && d > 0
    ensures IsCeiling((value + d - 1) / d, value, d)
  {
    var q := (value + d - 1) / d;
    DivBounds(value + d - 1, d);
    Distribute(q, d);
  }

  lemma Distribute(q: int, d: int)
    ensures (q - 1) * d == q * d - d
  {
  }

  lemma DivBounds(x: int, d: int)
    requires d > 0 && x >= 0
    ensures (x / d) * d <= x < (x / d) * d + d
  {
    assert x == d * (x / d) + x % d;
  }

  lemma {:induction false} MemoryBound(fragments: seq<Fragment>)
    ensures CapacityOf(fragments).memoryMiB * MIB < TWO64
  {
    if fragments != [] {
      var n := |fragments| - 1;
      MemoryBound(fragments[..n]);
      FragmentMemory(CapacityOf(fragments[..n]), fragments[n]);
    }
  }

  lemma FragmentMemory(c: Capacity, f: Fragment)
    requires c.memoryMiB * MIB < TWO64
    ensures WithFragment(c, f).memoryMiB * MIB < TWO64
  {
    if f.compute.Some? {
      ThreadsKeep(c.(computeSeen := true), f.compute.value);
    } else if f.memory.Some? && Available(f.capabilities, "kim.host.memory.v1") {
      var m := f.memory.value;
      DivBounds(m.totalBytes, MIB);
      PoolsKeep(c.(memorySeen := true, memoryMiB := m.totalBytes / MIB, availableMiB := m.availableBytes / MIB,
                   numaNodes := Wrap(m.numaNodes)), m.pools);
    }
  }

  lemma {:induction false} ThreadsKeep(c: Capacity, threads: seq<Thread>)
    ensures WithThreads(c, threads).memoryMiB == c.memoryMiB
  {
    if threads != [] { ThreadsKeep(c, threads[..|threads| - 1]); }
  }

  lemma {:induction false} PoolsKeep(c: Capacity, pools: seq<Pool>)
    ensures WithPools(c, pools).memoryMiB == c.memoryMiB
  {
    if pools != [] { PoolsKeep(c, pools[..|pools| - 1]); }
  }

  /** An eligible request cannot overflow its conversion to KiB, and its pages are the true
      ceiling exactly when rounding up does not overflow; a page size up to 2^63 never does. */
  lemma EligiblePages(r: Request, a: Authority)
    requires Wellformed(r) && Reasons(r, a) == [] && r.hugePageKiB.Some? && r.hugePageKiB.value > 0
    ensures r.memoryMiB * 1024 < TWO64
    ensures var size, pages := r.hugePageKiB.value, RequiredPages(r);
            && (IsCeiling(pages, r.memoryMiB * 1024, size) <==> r.memoryMiB * 1024 + size - 1 < TWO64)
            && (size <= TWO63 ==> r.memoryMiB * 1024 + size - 1 < TWO64)
  {
    hide Wellformed, HostFits, PciFits, NetworkFits, StorageFits, Reasons, CapacityOf, IsCeiling, CeilDivide, Wrap;
    NoReasonIff(r, a);
    MemoryBound(a.fragments);
    WrapSmall(r.memoryMiB * 1024);
    CeilDivideExactIff(r.memoryMiB * 1024, r.hugePageKiB.value);
  }

  /** A page size of zero, or one that overflows the rounding, asks for no page at all. */
  lemma NoPagesAskedFor(r: Request)
    requires r.hugePageKiB.Some? && r.memoryMiB * 1024 < TWO64
    requires r.hugePageKiB.value == 0 || r.memoryMiB * 1024 + r.hugePageKiB.value - 1 >= TWO64
    ensures RequiredPages(r) == 0
  {
    if r.hugePageKiB.value > 0 {
      var value, d := r.memoryMiB * 1024, r.hugePageKiB.value;
      WrapSmall(value);
      WrapOnce(value + d - 1);
      hide Wrap;
      SmallDiv(value + d - 1 - TWO64, d);
    }
  }

  lemma WrapOnce(x: int)
    requires TWO64 <= x < 2 * TWO64
    ensures Wrap(x) == x - TWO64
  {
  }

  lemma SmallDiv(x: int, d: int)
    requires 0 <= x < d
    ensures x / d == 0
  {
  }

  // ----- claims only take away ---------------------------------------------------------------------

  /** b is a with some claimed counters raised. */
  ghost predicate MoreClaimed(a: Authority, b: Authority) {
    && b == a.(claimedVcpus := b.claimedVcpus, claimedMemoryMiB := b.claimedMemoryMiB, claimedPages := b.claimedPages,
               stores := b.stores)
    && a.claimedVcpus <= b.claimedVcpus && a.claimedMemoryMiB <= b.claimedMemoryMiB
    && (forall k :: Of(a.claimedPages, k) <= Of(b.claimedPages, k))
    && a.stores.Keys == b.stores.Keys
    && (forall v :: v in a.stores ==>
        b.stores[v] == a.stores[v].(claimed := b.stores[v].claimed) && a.stores[v].claimed <= b.stores[v].claimed)
  }

  /** The score without wrap-around. */
  function ExactScore(r: Request, a: Authority): int {
    (FreeVcpus(r, a) - r.vcpus) * 1000 + (FreeMemory(a) - r.memoryMiB) / 1024
  }

  lemma FreeEnough(r: Request, a: Authority)
    requires CapacityFits(r, a)
    ensures FreeVcpus(r, a) >= r.vcpus && FreeMemory(a) >= r.memoryMiB
  {
    hide CapacityOf;
  }

  /** The score of an eligible request is the weighted sum of what remains exactly while that sum
      fits a signed 64-bit integer. */
  lemma ScoreExactIff(r: Request, a: Authority)
    requires CapacityFits(r, a)
    ensures Score(r, a) == ExactScore(r, a) <==> ExactScore(r, a) < TWO63
  {
    FreeEnough(r, a);
    hide CapacityFits, FreeVcpus, FreeMemory, Wrap, Signed;
    WrapSmall(FreeVcpus(r, a) - r.vcpus);
    WrapSmall(FreeMemory(a) - r.memoryMiB);
    SignedWrapIff(ExactScore(r, a));
  }

  lemma WrapSmall(x: int)
    requires 0 <= x < TWO64
    ensures Wrap(x) == x
  {
  }

  lemma SignedWrapIff(x: int)
    requires x >= 0
    ensures Signed(Wrap(x)) == x <==> x < TWO63
  {
    assert Signed(Wrap(x)) < TWO63;
  }

  lemma MoreClaimedFits(r: Request, a: Authority, b: Authority)
    requires MoreClaimed(a, b) && Fits(r, b)
    ensures Fits(r, a)
  {
    assert CapacityFits(r, a) by { hide CapacityOf, RequiredPages, HostFits, PciFits, NetworkFits, StorageFits; }
    forall i | 0 <= i < |r.storage| ensures StorageFits(r.storage[i], a) {
      assert StorageFits(r.storage[i], b);
    }
    forall i | 0 <= i < |r.pci| ensures PciFits(r.pci[i], a) { assert PciFits(r.pci[i], b); }
    forall i | 0 <= i < |r.network| ensures NetworkFits(r.project, r.network[i], a) {
      assert NetworkFits(r.project, r.network[i], b);
    }
  }

  /** Raising claimed counters never creates eligibility, and never raises a score that fits. */
  lemma ClaimsOnlyTakeAway(r: Request, a: Authority, b: Authority)
    requires Wellformed(r) && MoreClaimed(a, b) && Reasons(r, b) == []
    ensures Reasons(r, a) == []
    ensures ExactScore(r, b) <= ExactScore(r, a)
    ensures ExactScore(r, a) < TWO63 ==> Score(r, b) <= Score(r, a)
  {
    hide Wellformed, Reasons, HostFits, PciFits, NetworkFits, StorageFits, CapacityFits, Score, ExactScore;
    NoReasonIff(r, b);
    MoreClaimedFits(r, a, b);
    NoReasonIff(r, a);
    ScoreExactIff(r, a);
    ScoreExactIff(r, b);
    ExactScoreFalls(r, a, b);
  }

  lemma ExactScoreFalls(r: Request, a: Authority, b: Authority)
    requires MoreClaimed(a, b)
    ensures ExactScore(r, b) <= ExactScore(r, a)
  {
    hide CapacityOf;
    assert FreeVcpus(r, b) <= FreeVcpus(r, a) && FreeMemory(b) <= FreeMemory(a);
    hide FreeVcpus, FreeMemory;
    DivMonotone(FreeMemory(b) - r.memoryMiB, FreeMemory(a) - r.memoryMiB);
  }

  lemma DivMonotone(x: int, y: int)
    requires x <= y
    ensures x / 1024 <= y / 1024
  {
  }
}
