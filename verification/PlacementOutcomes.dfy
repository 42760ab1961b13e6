/** What an evaluation says about the host it was made for, in the words of the source. */
module PlacementOutcomes {
  import opened Common
  import opened Sorting
  import opened Placement
  import opened PlacementLaws
  import opened PlacementOrder

  /** An evaluation names the authority's own host and pool, covers exactly the request's requirements,
      is eligible exactly when it gives no reason, and scores nothing otherwise. */
  lemma EvaluationIsAbout(r: Request, a: Authority)
    requires Evaluate(r, a).Ok?
    ensures var e := Evaluate(r, a).value.evaluation;
            && e.host == a.host && e.pool == a.pool && e.detail == a.detail
            && Evaluate(r, a).value.digest == e
            && multiset(e.requestDigest.pci) == multiset(r.pci)
            && multiset(e.requestDigest.network) == multiset(r.network)
            && multiset(e.requestDigest.storage) == multiset(r.storage)
            && e.requestDigest == r.(pci := e.requestDigest.pci, network := e.requestDigest.network,
                                     storage := e.requestDigest.storage)
            && (e.eligible <==> e.reasons == []) && (!e.eligible ==> e.score == 0)
            && (e.eligible ==> e.score == Score(Canonical(r), a)) && (r.hugePageKiB.None? ==> e.pages == 0)
            && Sorted(StringLeq, e.reasons)
            && multiset(e.reasons) == multiset(Reasons(Canonical(r), a))
  {
    hide Wellformed, Reasons, Score, StringLeq, Linear;
    CanonicalPermutes(r);
    StringsAreLinear();
    SortSorts(StringLeq, Reasons(Canonical(r), a));
    SortPermutes(StringLeq, Reasons(Canonical(r), a));
  }

  lemma StringsAreLinear()
    ensures Linear(StringLeq)
  {
    forall x: string, y: string, z: string
      ensures (StringLeq(x, y) || StringLeq(y, x)) && (StringLeq(x, y) && StringLeq(y, z) ==> StringLeq(x, z))
    {
      StringOrder(x, y, z);
    }
  }

  /** What a reason against the host itself means. */
  ghost predicate HostReason(r: Request, a: Authority, s: string) {
    || (s == "database_authority_not_active" && a.database != "ACTIVE")
    || (s == "placement_pool_mismatch" && (r.pool == "" || r.pool != a.pool))
    || (s == "placement_pool_not_active" && a.poolState != "ACTIVE")
    || (s == "placement_membership_not_active" && a.membership != "ACTIVE")
    || (s == "host_capability_not_current"
        && !(a.capability == "CURRENT" && a.inventoryGeneration == a.capabilityGeneration))
    || (s == "readiness_capability_generation_stale" && a.readinessGeneration != a.capabilityGeneration)
    || (s == "host_readiness_not_eligible"
        && !(a.readiness == "READY" && a.preflight == "PASSED" && a.compliance == "COMPLIANT"))
    || (s == "catalog_access_denied" && !r.catalogAccess)
  }

  lemma HostReasonsOnly(r: Request, a: Authority, s: string)
    requires s in HostReasons(r, a)
    ensures HostReason(r, a, s)
  {
  }

  lemma HostReasonsAll(r: Request, a: Authority, s: string)
    requires HostReason(r, a, s)
    ensures s in HostReasons(r, a)
  {
  }

  lemma HostReasonsIff(r: Request, a: Authority, s: string)
    ensures s in HostReasons(r, a) <==> HostReason(r, a, s)
  {
    hide HostReasons, HostReason;
    if s in HostReasons(r, a) { HostReasonsOnly(r, a, s); }
    if HostReason(r, a, s) { HostReasonsAll(r, a, s); }
  }

  /** What a reason against its capacity means: what is claimed and what is asked for together exceed
      what was counted, without saturation. */
  ghost predicate CapacityReason(r: Request, a: Authority, s: string) {
    var c := CapacityOf(a.fragments);
    || (s == "cpu_topology_unavailable" && !c.computeSeen)
    || (s == "memory_topology_unavailable" && !c.memorySeen)
    || (s == "insufficient_vcpu_capacity" && r.vcpus > 0 && a.claimedVcpus + r.vcpus > Cpus(r, c))
    || (s == "insufficient_memory_capacity" && r.memoryMiB > 0
        && (a.claimedMemoryMiB + r.memoryMiB > c.memoryMiB || r.memoryMiB > c.availableMiB))
    || (s == "insufficient_numa_nodes" && r.numaPolicy == "REQUIRED" && r.numaNodes.Some?
        && r.numaNodes.value > c.numaNodes)
    || (s == "insufficient_hugepage_capacity" && r.hugePageKiB.Some?
        && var size, pages := r.hugePageKiB.value, RequiredPages(r);
           && pages > 0
           && (Of(a.claimedPages, size) + pages > Of(c.pages, size) || pages > Of(c.freePages, size)))
  }

  lemma CapacityReasonsIff(r: Request, a: Authority, s: string)
    ensures s in CapacityReasons(r, a) <==> CapacityReason(r, a, s)
  {
    hide CapacityOf, RequiredPages;
  }

  /** A reason is given exactly when what it says of the host or its capacity is so, or one of the
      requirements gives it. */
  lemma ReasonsMean(r: Request, a: Authority, s: string)
    requires Evaluate(r, a).Ok?
    ensures var q := Canonical(r);
            s in Evaluate(r, a).value.evaluation.reasons <==>
              || HostReason(r, a, s) || CapacityReason(r, a, s)
              || s in PciAll(q.pci, a) || s in NetworkAll(q.project, q.network, a) || s in StorageAll(q.storage, a)
  {
    hide HostReasons, HostReason, CapacityReasons, CapacityReason, Wellformed, Score, Canonical,
         PciAll, NetworkAll, StorageAll, RequiredPages, StringLeq;
    var q := Canonical(r);
    SortPermutes(StringLeq, Reasons(q, a));
    assert s in Evaluate(r, a).value.evaluation.reasons <==> s in multiset(Reasons(q, a));
    HostReasonsIff(q, a, s);
    CapacityReasonsIff(q, a, s);
    CanonicalReasons(r, a, s);
  }

  lemma CanonicalReasons(r: Request, a: Authority, s: string)
    ensures HostReason(Canonical(r), a, s) <==> HostReason(r, a, s)
    ensures CapacityReason(Canonical(r), a, s) <==> CapacityReason(r, a, s)
  {
    hide CapacityOf, CeilDivide, Sort;
  }
}
