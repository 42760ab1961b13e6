/** The placement evaluator (internal/placement/evaluator.go) as functions of its inputs.

    Fields that Evaluate only passes into a digest are gathered in the `detail` of their record.
    Digests are the injective images of what they cover. */
module Placement {
  import opened Common
  import opened Sorting

  // ----- 64-bit arithmetic ---------------------------------------------------------------------

  const TWO64: int := 0x1_0000_0000_0000_0000
  const TWO63: int := 0x8000_0000_0000_0000

  type u64 = x: int | 0 <= x < 0x1_0000_0000_0000_0000

  function Wrap(x: int): u64 { x % TWO64 }

  /** The cast of an unsigned to a signed 64-bit integer. */
  function Signed(x: u64): int { if x < TWO63 then x else x - TWO64 }

  function SaturatingSubtract(total: u64, used: u64): (r: u64)
    ensures r == if total - used >= 0 then total - used else 0
  {
    if used >= total then 0 else Wrap(total - used)
  }

  /** The wrapped sum is smaller than an operand exactly when the true sum does not fit. */
  function SaturatingAdd(left: u64, right: u64): (r: u64)
    ensures r == if left + right < TWO64 then left + right else TWO64 - 1
  {
    var result := Wrap(left + right);
    if result < left then TWO64 - 1 else result
  }

  function CeilDivide(value: u64, divisor: u64): u64 {
    if divisor == 0 then 0 else Wrap(value + divisor - 1) / divisor
  }

  function Least(a: u64, b: u64): (r: u64)
    ensures r <= a && r <= b && (r == a || r == b)
  {
    if a < b then a else b
  }

  // ----- requests --------------------------------------------------------------------------------

  datatype PciRequirement = PciRequirement(
    address: string, policy: string, policyGeneration: u64, qualification: string, qualificationRevision: u64,
    iommuGroup: string, numaNode: Option<int>, detail: string)

  datatype NetworkRequirement = NetworkRequirement(
    port: string, network: string, networkGeneration: u64, subnet: string, subnetGeneration: u64,
    segment: string, segmentGeneration: u64, mappingGeneration: u64, ip: string, mac: string,
    bindingType: string, address: string, allocationSource: string, mtu: u64, handoff: Option<Handoff>, detail: string)
  datatype Handoff = Handoff(
    sourceHost: string, quiescence: string, quiescenceDigest: Digest, sourcePort: u64, sourceBinding: u64,
    destinationPort: u64, destinationBinding: u64)

  datatype StorageRequirement = StorageRequirement(
    volume: string, attachment: string, backend: string, vg: string, backendGeneration: u64, storageClass: string,
        classRevision: u64,
    capacityGeneration: u64, attachmentGeneration: u64, fencingRevision: u64, size: u64, accessMode: string,
    volumeRevision: u64, intent: string, intentGeneration: u64, capacityAllocation: string,
    capacityAllocationGeneration: u64, detail: string)

  datatype Request = Request(
    project: string, pool: string, vcpus: u64, memoryMiB: u64, numaPolicy: string, numaNodes: Option<u64>,
    hugePageKiB: Option<u64>, cpuAllocation: string, pinning: bool, catalogAccess: bool,
    pci: seq<PciRequirement>, network: seq<NetworkRequirement>, storage: seq<StorageRequirement>, detail: string)

  // ----- authority ----------------------------------------------------------------------------------

  datatype Thread = Thread(online: bool, isolated: bool)
  datatype Pool = Pool(pageBytes: u64, total: u64, free: u64)
  datatype Memory = Memory(totalBytes: u64, availableBytes: u64, numaNodes: nat, pools: seq<Pool>)
  datatype Fragment = Fragment(compute: Option<seq<Thread>>, memory: Option<Memory>, capabilities: seq<(string, bool)>)

  datatype Device = Device(
    generation: u64, observed: string, relationship: string, pf: string, vf: int, iommuGroup: string, numaNode: int,
    binding: string, bindingGeneration: u64, bindingProfile: string, qualification: string, qualificationRevision: u64,
        qualified: bool,
    policy: string, policyState: string, policyGeneration: u64, policyProfile: string, claimed: bool)

  datatype Network = Network(
    network: string, project: string, state: string, generation: u64, subnet: string, subnetState: string,
        subnetGeneration: u64,
    segment: string, segmentState: string, segmentGeneration: u64, mapping: string, mappingGeneration: u64, mtu: u64,
        mappingMtu: u64,
    ipAllowed: bool, identityConflict: bool, portConflict: bool, handoffReady: bool, bindingSupported: bool)

  datatype Store = Store(
    backend: string, backendType: string, backendState: string, backendGeneration: u64, tier: string,
    host: string, vg: string, capability: string, capabilityGeneration: u64,
    storageClass: string, classRevision: u64, classState: string, allowedType: string, locality: string,
        singleWriter: bool,
    thin: bool, encrypted: bool, fencingRevision: u64, capacityGeneration: u64, capacityState: string, health: string,
    total: u64, free: u64, external: u64, reserve: u64, claimed: u64,
    volumeConflict: bool, attachmentConflict: bool, consumerReady: bool)

  datatype Authority = Authority(
    database: string, host: string, pool: string, poolState: string, membership: string,
    capability: string, capabilityGeneration: u64, inventoryGeneration: u64, readinessGeneration: u64,
    readiness: string, preflight: string, compliance: string,
    fragments: seq<Fragment>, claimedVcpus: u64, claimedMemoryMiB: u64, claimedPages: map<u64, u64>,
    devices: map<string, Device>, networks: map<string, Network>, stores: map<string, Store>, detail: string)

  // ----- what a request must look like ---------------------------------------------------------

  function AddressLeq(a: PciRequirement, b: PciRequirement): bool { StringLeq(a.address, b.address) }
  function PortLeq(a: NetworkRequirement, b: NetworkRequirement): bool { StringLeq(a.port, b.port) }
  function VolumeLeq(a: StorageRequirement, b: StorageRequirement): bool { StringLeq(a.volume, b.volume) }

  predicate PciOk(r: PciRequirement) {
    r.address != "" && r.policy != "" && r.policyGeneration != 0 && r.qualification != ""
    && r.qualificationRevision != 0
  }

  function Source(r: NetworkRequirement): string { if r.allocationSource == "" then "EXPLICIT" else r.allocationSource }
  predicate Explicit(r: NetworkRequirement) { Source(r) == "EXPLICIT" }

  predicate IdentitiesOk(r: NetworkRequirement) {
    (Explicit(r) && r.ip != "" && r.mac != "") || (Source(r) == "AUTOMATIC" && r.ip == "" && r.mac == "")
  }

  predicate HandoffOk(r: NetworkRequirement) {
    r.handoff.Some? ==>
      var h := r.handoff.value;
      && h.sourceHost != "" && h.quiescence != "" && h.quiescenceDigest.Has64Characters()
      && h.sourcePort > 0 && h.sourceBinding > 0
      && h.destinationPort == Wrap(h.sourcePort + 1) && h.destinationBinding == Wrap(h.sourceBinding + 1) && Explicit(r)
  }

  predicate Offers(pci: seq<PciRequirement>, address: string) {
    exists i :: 0 <= i < |pci| && pci[i].address == address
  }

  predicate NetworkOk(r: NetworkRequirement, pci: seq<PciRequirement>) {
    && r.port != "" && r.network != "" && r.networkGeneration != 0 && r.subnet != "" && r.subnetGeneration != 0
    && r.segment != "" && r.segmentGeneration != 0 && r.mappingGeneration != 0 && IdentitiesOk(r) && HandoffOk(r)
    && r.mtu >= 576
    && (r.bindingType == "OVS" || r.bindingType == "SRIOV_DIRECT")
    && (r.bindingType == "OVS" ==> r.address == "")
    && (r.bindingType == "SRIOV_DIRECT" ==> r.address != "" && Offers(pci, r.address))
  }

  predicate ResourceContractOk(r: StorageRequirement) {
    || (r.volumeRevision == 0 && r.intent == "" && r.intentGeneration == 0 && r.capacityAllocation == ""
        && r.capacityAllocationGeneration == 0)
    || (r.volumeRevision > 0 && r.intent != "" && r.intentGeneration > 0 && r.capacityAllocation != ""
        && r.capacityAllocationGeneration > 0)
  }

  predicate StorageOk(r: StorageRequirement) {
    && r.volume != "" && r.attachment != "" && r.backend != "" && r.vg != "" && r.backendGeneration != 0
    && r.storageClass != ""
    && r.classRevision != 0 && r.capacityGeneration != 0 && r.attachmentGeneration != 0 && r.fencingRevision != 0
    && r.size != 0
    && r.accessMode == "SINGLE_WRITER" && ResourceContractOk(r)
  }

  /** Two requirements that may not stand in one request. */
  predicate PciClash(a: PciRequirement, b: PciRequirement) { a.address == b.address }
  function IpKey(r: NetworkRequirement): string { r.subnet + "/" + r.ip }
  function MacKey(r: NetworkRequirement): string { r.network + "/" + r.mac }
  predicate NetworkClash(a: NetworkRequirement, b: NetworkRequirement) {
    a.port == b.port || (Explicit(a) && Explicit(b) && (IpKey(a) == IpKey(b) || MacKey(a) == MacKey(b)))
  }
  predicate StorageClash(a: StorageRequirement, b: StorageRequirement) {
    a.volume == b.volume || a.attachment == b.attachment
  }

  ghost predicate NoClash<T>(clash: (T, T) -> bool, s: seq<T>) {
    forall i, j :: 0 <= i < |s| && 0 <= j < |s| && i != j ==> !clash(s[i], s[j])
  }

  /** A well-formed request: every requirement complete, no two in each other's way. */
  ghost predicate Wellformed(r: Request) {
    && (forall i :: 0 <= i < |r.pci| ==> PciOk(r.pci[i])) && NoClash(PciClash, r.pci)
    && (forall i :: 0 <= i < |r.network| ==> NetworkOk(r.network[i], r.pci)) && NoClash(NetworkClash, r.network)
    && (forall i :: 0 <= i < |r.storage| ==> StorageOk(r.storage[i])) && NoClash(StorageClash, r.storage)
  }

  /** The request with its requirements in canonical order. */
  function Canonical(r: Request): Request {
    r.(pci := Sort(AddressLeq, r.pci), network := Sort(PortLeq, r.network), storage := Sort(VolumeLeq, r.storage))
  }

  // ----- capacity ------------------------------------------------------------------------------------

  datatype Capacity = Capacity(
    vcpus: u64, isolated: u64, memoryMiB: u64, availableMiB: u64, numaNodes: u64,
    pages: map<u64, u64>, freePages: map<u64, u64>, computeSeen: bool, memorySeen: bool)

  const NOTHING: Capacity := Capacity(0, 0, 0, 0, 0, map[], map[], false, false)

  function Of(m: map<u64, u64>, k: u64): u64 { if k in m then m[k] else 0 }

  predicate Available(capabilities: seq<(string, bool)>, name: string) {
    exists i :: 0 <= i < |capabilities| && capabilities[i] == (name, true)
  }

  function WithThread(c: Capacity, t: Thread): Capacity {
    if t.online then c.(vcpus := Wrap(c.vcpus + 1), isolated := if t.isolated then Wrap(c.isolated + 1)
                        else c.isolated) else c
  }

  function WithThreads(c: Capacity, threads: seq<Thread>): Capacity {
    if threads == [] then c else WithThread(WithThreads(c, threads[..|threads| - 1]), threads[|threads| - 1])
  }

  function WithPool(c: Capacity, p: Pool): Capacity {
    var k: u64 := p.pageBytes / 1024;
    c.(pages := c.pages[k := Wrap(Of(c.pages, k) + p.total)],
       freePages := c.freePages[k := Wrap(Of(c.freePages, k) + p.free)])
  }

  function WithPools(c: Capacity, pools: seq<Pool>): Capacity {
    if pools == [] then c else WithPool(WithPools(c, pools[..|pools| - 1]), pools[|pools| - 1])
  }

  const MIB: int := 1024 * 1024

  function WithFragment(c: Capacity, f: Fragment): Capacity {
    if f.compute.Some? then
      if Available(f.capabilities, "kim.host.cpu-topology.v1")
          then WithThreads(c.(computeSeen := true), f.compute.value) else c
    else if f.memory.Some? then
      if Available(f.capabilities, "kim.host.memory.v1") then
        var m := f.memory.value;
        WithPools(c.(memorySeen := true, memoryMiB := m.totalBytes / MIB, availableMiB := m.availableBytes / MIB,
                     numaNodes := Wrap(m.numaNodes)), m.pools)
      else c
    else c
  }

  function CapacityOf(fragments: seq<Fragment>): Capacity {
    if fragments == [] then NOTHING
    else WithFragment(CapacityOf(fragments[..|fragments| - 1]), fragments[|fragments| - 1])
  }

  // ----- reasons against -----------------------------------------------------------------------------

  function If(condition: bool, reason: string): seq<string> { if condition then [reason] else [] }

  function HostReasons(r: Request, a: Authority): seq<string> {
    If(a.database != "ACTIVE", "database_authority_not_active")
    + If(r.pool == "" || a.pool != r.pool, "placement_pool_mismatch")
    + If(a.poolState != "ACTIVE", "placement_pool_not_active")
    + If(a.membership != "ACTIVE", "placement_membership_not_active")
    + If(a.capability != "CURRENT" || a.inventoryGeneration != a.capabilityGeneration, "host_capability_not_current")
    + If(a.readinessGeneration != a.capabilityGeneration, "readiness_capability_generation_stale")
    + If(a.readiness != "READY" || a.preflight != "PASSED"
         || a.compliance != "COMPLIANT", "host_readiness_not_eligible")
    + If(!r.catalogAccess, "catalog_access_denied")
  }

  function PciReasons(r: PciRequirement, a: Authority): seq<string> {
    var prefix := "pci:" + r.address + ":";
    if r.address !in a.devices then [prefix + "observation_missing"]
    else
      var d := a.devices[r.address];
      If(d.generation != a.capabilityGeneration || d.observed != "AVAILABLE" || d.relationship != "AVAILABLE"
         || d.pf == "" || d.vf < 0,
         prefix + "observation_not_eligible")
      + If(d.binding != "CURRENT" || d.bindingGeneration != a.capabilityGeneration || d.qualification != r.qualification
           || d.qualificationRevision != r.qualificationRevision || !d.qualified, prefix + "qualification_not_current")
      + If(d.policy != r.policy || d.policyState != "ALLOWED" || d.policyGeneration != r.policyGeneration
           || d.policyProfile != d.bindingProfile,
           prefix + "policy_not_allowed")
      + If(r.numaNode.Some? && d.numaNode != r.numaNode.value, prefix + "numa_mismatch")
      + If(r.iommuGroup != "" && d.iommuGroup != r.iommuGroup, prefix + "iommu_group_mismatch")
      + If(d.claimed, prefix + "already_claimed")
  }

  function NetworkReasons(project: string, r: NetworkRequirement, a: Authority): seq<string> {
    var prefix := "network:" + r.port + ":";
    if r.port !in a.networks then [prefix + "authority_missing"]
    else
      var n := a.networks[r.port];
      If(n.network != r.network || n.project != project || n.state != "ACTIVE"
         || n.generation != r.networkGeneration, prefix + "network_not_current")
      + If(n.subnet != r.subnet || n.subnetState != "ACTIVE"
           || n.subnetGeneration != r.subnetGeneration, prefix + "subnet_not_current")
      + If(n.segment != r.segment || n.segmentState != "ACTIVE"
           || n.segmentGeneration != r.segmentGeneration, prefix + "segment_not_current")
      + If(n.mapping != "CURRENT" || n.mappingGeneration != r.mappingGeneration, prefix + "host_mapping_not_current")
      + If(n.mtu < r.mtu || n.mappingMtu < r.mtu, prefix + "mtu_not_eligible")
      + If(!n.ipAllowed, prefix + "ip_not_allowed")
      + If(n.identityConflict, prefix + "identity_claim_conflict")
      + If(n.portConflict, prefix + "port_conflict")
      + If(r.handoff.Some? && !n.handoffReady, prefix + "handoff_not_current")
      + If(!n.bindingSupported, prefix + "binding_not_supported")
  }

  /** The smaller of what the ledger and what the observation leave. */
  function FreeBytes(s: Store): u64 {
    Least(SaturatingSubtract(s.free, s.external), SaturatingSubtract(s.total, SaturatingAdd(s.reserve, s.claimed)))
  }

  function StorageReasons(r: StorageRequirement, a: Authority): seq<string> {
    var prefix := "storage:" + r.volume + ":";
    if r.volume !in a.stores then [prefix + "authority_missing"]
    else
      var s := a.stores[r.volume];
      If(s.backend != r.backend || s.backendType != "LOCAL_LVM" || s.backendState != "ACTIVE"
         || s.backendGeneration != r.backendGeneration
         || (s.tier != "VALIDATED" && s.tier != "SUPPORTED"), prefix + "backend_not_current")
      + If(s.host != a.host || s.vg != r.vg || s.capability != "CURRENT"
           || s.capabilityGeneration != a.capabilityGeneration,
           prefix + "locality_or_capability_not_current")
      + If(s.storageClass != r.storageClass || s.classRevision != r.classRevision || s.classState != "ACTIVE"
           || s.allowedType != "LOCAL_LVM"
           || s.locality != "HOST_LOCAL" || !s.singleWriter || s.thin || s.encrypted
           || s.fencingRevision != r.fencingRevision,
           prefix + "storage_class_not_current")
      + If(s.capacityGeneration != r.capacityGeneration || s.capacityState != "CURRENT"
           || s.health != "HEALTHY", prefix + "capacity_not_current")
      + If(FreeBytes(s) < r.size, prefix + "insufficient_capacity")
      + If(s.volumeConflict, prefix + "volume_conflict")
      + If(s.attachmentConflict, prefix + "attachment_conflict")
      + If(r.volumeRevision > 0 && !s.consumerReady, prefix + "volume_resource_not_ready")
  }

  function PciAll(rs: seq<PciRequirement>, a: Authority): seq<string> {
    if rs == [] then [] else PciAll(rs[..|rs| - 1], a) + PciReasons(rs[|rs| - 1], a)
  }

  function NetworkAll(project: string, rs: seq<NetworkRequirement>, a: Authority): seq<string> {
    if rs == [] then [] else NetworkAll(project, rs[..|rs| - 1], a) + NetworkReasons(project, rs[|rs| - 1], a)
  }

  function StorageAll(rs: seq<StorageRequirement>, a: Authority): seq<string> {
    if rs == [] then [] else StorageAll(rs[..|rs| - 1], a) + StorageReasons(rs[|rs| - 1], a)
  }

  function FreeVcpus(r: Request, a: Authority): u64 {
    var c := CapacityOf(a.fragments);
    SaturatingSubtract(if r.pinning || r.cpuAllocation == "DEDICATED" then c.isolated else c.vcpus, a.claimedVcpus)
  }

  function FreeMemory(a: Authority): u64 {
    var c := CapacityOf(a.fragments);
    Least(c.availableMiB, SaturatingSubtract(c.memoryMiB, a.claimedMemoryMiB))
  }

  function FreePages(a: Authority, size: u64): u64 {
    var c := CapacityOf(a.fragments);
    Least(Of(c.freePages, size), SaturatingSubtract(Of(c.pages, size), Of(a.claimedPages, size)))
  }

  function RequiredPages(r: Request): u64 {
    if r.hugePageKiB.None? then 0 else CeilDivide(Wrap(r.memoryMiB * 1024), r.hugePageKiB.value)
  }

  function Shortfalls(compute: bool, memory: bool, vcpus: bool, space: bool, numa: bool, pages: bool): seq<string> {
    If(compute, "cpu_topology_unavailable") + If(memory, "memory_topology_unavailable") + If(vcpus,
          "insufficient_vcpu_capacity")
    + If(space, "insufficient_memory_capacity") + If(numa, "insufficient_numa_nodes") + If(pages,
          "insufficient_hugepage_capacity")
  }

  function CapacityReasons(r: Request, a: Authority): seq<string> {
    var c := CapacityOf(a.fragments);
    Shortfalls(!c.computeSeen, !c.memorySeen, FreeVcpus(r, a) < r.vcpus, FreeMemory(a) < r.memoryMiB,
               r.numaPolicy == "REQUIRED" && r.numaNodes.Some? && c.numaNodes < r.numaNodes.value,
               r.hugePageKiB.Some? && FreePages(a, r.hugePageKiB.value) < RequiredPages(r))
  }

  function Reasons(r: Request, a: Authority): seq<string> {
    HostReasons(r, a) + PciAll(r.pci, a) + NetworkAll(r.project, r.network, a) + StorageAll(r.storage,
          a) + CapacityReasons(r, a)
  }

  // ----- evaluations --------------------------------------------------------------------------------

  function Score(r: Request, a: Authority): int {
    Signed(Wrap(Wrap(FreeVcpus(r, a) - r.vcpus) * 1000 + Wrap(FreeMemory(a) - r.memoryMiB) / 1024))
  }

  /** The request digest is the canonical request itself; `detail` carries the authority's
      generations and identifiers. */
  datatype Evaluation = Evaluation(
    requestDigest: Request, host: string, pool: string, eligible: bool, reasons: seq<string>, score: int,
    pages: u64, detail: string)

  datatype Evaluated = Evaluated(evaluation: Evaluation, digest: Evaluation)

  datatype Error = InvalidRequest

  function Judged(r: Request, a: Authority): Evaluated {
    var reasons := Sort(StringLeq, Reasons(r, a));
    var eligible := |reasons| == 0;
    var e := Evaluation(r, a.host, a.pool, eligible, reasons, if eligible then Score(r, a)
                        else 0, RequiredPages(r), a.detail);
    Evaluated(e, e)
  }

  ghost function Evaluate(r: Request, a: Authority): Result<Evaluated, Error> {
    if Wellformed(Canonical(r)) then Ok(Judged(Canonical(r), a)) else Err(InvalidRequest)
  }

  // ----- selection ------------------------------------------------------------------------------------

  /** Score descending, then host. */
  predicate Ranks(x: Evaluated, y: Evaluated) {
    if x.evaluation.score != y.evaluation.score then x.evaluation.score > y.evaluation.score
    else StringLeq(x.evaluation.host, y.evaluation.host)
  }

  function EligibleOf(s: seq<Evaluated>): seq<Evaluated> {
    if s == [] then []
    else EligibleOf(s[..|s| - 1]) + if s[|s| - 1].evaluation.eligible then [s[|s| - 1]] else []
  }

  function Select(s: seq<Evaluated>): seq<Evaluated> { Sort(Ranks, EligibleOf(s)) }
}
