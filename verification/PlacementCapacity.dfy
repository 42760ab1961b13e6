/** What the evaluator's 64-bit counters say about the true totals of a host. */
module PlacementCapacity {
  import opened Common
  import opened Placement
  import opened PlacementLaws

  // ----- true totals -----------------------------------------------------------------------------------

  function Online(threads: seq<Thread>): nat {
    if threads == [] then 0 else Online(threads[..|threads| - 1]) + if threads[|threads| - 1].online then 1 else 0
  }

  function Isolated(threads: seq<Thread>): nat {
    if threads == [] then 0
    else Isolated(threads[..|threads| - 1]) + if threads[|threads| - 1].online
    && threads[|threads| - 1].isolated then 1 else 0
  }

  function SizeKiB(p: Pool): u64 { p.pageBytes / 1024 }

  function PoolPages(pools: seq<Pool>, size: u64): nat {
    if pools == [] then 0
    else PoolPages(pools[..|pools| - 1], size) + if SizeKiB(pools[|pools| - 1]) == size then pools[|pools| - 1].total
        else 0
  }

  function PoolFree(pools: seq<Pool>, size: u64): nat {
    if pools == [] then 0
    else PoolFree(pools[..|pools| - 1], size) + if SizeKiB(pools[|pools| - 1]) == size then pools[|pools| - 1].free
        else 0
  }

  /** The threads of a compute fragment whose topology is available. */
  function ThreadsOf(f: Fragment): seq<Thread> {
    if f.compute.Some? && Available(f.capabilities, "kim.host.cpu-topology.v1") then f.compute.value else []
  }

  /** The memory of a memory fragment that is available. */
  function MemoryOf(f: Fragment): Option<Memory> {
    if f.compute.None? && Available(f.capabilities, "kim.host.memory.v1") then f.memory else None
  }

  function PoolsOf(f: Fragment): seq<Pool> { if MemoryOf(f).Some? then MemoryOf(f).value.pools else [] }

  /** Sums over the fragments of a host. */
  datatype Totals = Totals(online: nat, isolated: nat, pages: nat, freePages: nat)

  function TotalsOf(fragments: seq<Fragment>, size: u64): Totals {
    if fragments == [] then Totals(0, 0, 0, 0)
    else
      var before, f := TotalsOf(fragments[..|fragments| - 1], size), fragments[|fragments| - 1];
      Totals(before.online + Online(ThreadsOf(f)), before.isolated + Isolated(ThreadsOf(f)),
             before.pages + PoolPages(PoolsOf(f), size), before.freePages + PoolFree(PoolsOf(f), size))
  }

  /** The last memory fragment that is available; a later one replaces the figures of an earlier. */
  function LastMemory(fragments: seq<Fragment>): Option<Memory> {
    if fragments == [] then None
    else
      var m := MemoryOf(fragments[|fragments| - 1]);
      if m.Some? then m else LastMemory(fragments[..|fragments| - 1])
  }

  // ----- counters are totals modulo 2^64 -------------------------------------------------------------

  lemma WrapAdd(x: int, y: int)
    ensures Wrap(Wrap(x) + y) == Wrap(x + y)
  {
    var q := x / TWO64;
    assert x == q * TWO64 + Wrap(x);
    assert (Wrap(x) + y + q * TWO64) % TWO64 == (Wrap(x) + y) % TWO64 by { ModAdd(Wrap(x) + y, q); }
  }

  lemma {:induction false} ModAdd(x: int, q: int)
    ensures (x + q * TWO64) % TWO64 == x % TWO64
    decreases if q < 0 then -q else q
  {
    if q > 0 {
      ModAdd(x, q - 1);
      ModOne(x + (q - 1) * TWO64);
    } else if q < 0 {
      ModAdd(x, q + 1);
      ModOne(x + q * TWO64);
    }
  }

  lemma ModOne(x: int)
    ensures (x + TWO64) % TWO64 == x % TWO64
  {
  }

  /** A wrapped total is never too large, and it is right exactly while the total fits. */
  lemma WrapIsAtMost(x: nat)
    ensures Wrap(x) <= x
    ensures Wrap(x) == x <==> x < TWO64
  {
  }

  lemma {:induction false} ThreadsCounted(c: Capacity, threads: seq<Thread>)
    ensures WithThreads(c, threads) ==
              c.(vcpus := Wrap(c.vcpus + Online(threads)), isolated := Wrap(c.isolated + Isolated(threads)))
  {
    if threads == [] {
      WrapIsAtMost(c.vcpus);
      WrapIsAtMost(c.isolated);
    } else {
      var rest := threads[..|threads| - 1];
      ThreadsCounted(c, rest);
      WrapAdd(c.vcpus + Online(rest), 1);
      WrapAdd(c.isolated + Isolated(rest), 1);
      hide Wrap;
    }
  }

  lemma {:induction false} PoolsCounted(c: Capacity, pools: seq<Pool>, size: u64)
    ensures var w := WithPools(c, pools);
            && w == c.(pages := w.pages, freePages := w.freePages)
            && Of(w.pages, size) == Wrap(Of(c.pages, size) + PoolPages(pools, size))
            && Of(w.freePages, size) == Wrap(Of(c.freePages, size) + PoolFree(pools, size))
  {
    hide Wrap;
    if pools == [] {
      WrapIsAtMost(Of(c.pages, size));
      WrapIsAtMost(Of(c.freePages, size));
    } else {
      var rest, p := pools[..|pools| - 1], pools[|pools| - 1];
      PoolsCounted(c, rest, size);
      WrapAdd(Of(c.pages, size) + PoolPages(rest, size), p.total);
      WrapAdd(Of(c.freePages, size) + PoolFree(rest, size), p.free);
    }
  }

  lemma NothingCounted(size: u64)
    ensures Online([]) == 0 && Isolated([]) == 0 && PoolPages([], size) == 0 && PoolFree([], size) == 0
  {
  }

  lemma FragmentCounted(c: Capacity, f: Fragment, size: u64)
    ensures var w := WithFragment(c, f);
            && w.vcpus == Wrap(c.vcpus + Online(ThreadsOf(f)))
            && w.isolated == Wrap(c.isolated + Isolated(ThreadsOf(f)))
            && Of(w.pages, size) == Wrap(Of(c.pages, size) + PoolPages(PoolsOf(f), size))
            && Of(w.freePages, size) == Wrap(Of(c.freePages, size) + PoolFree(PoolsOf(f), size))
            && (match MemoryOf(f)
                case None =>
                  && w.memoryMiB == c.memoryMiB && w.availableMiB == c.availableMiB
                  && w.numaNodes == c.numaNodes && w.memorySeen == c.memorySeen
                case Some(m) =>
                  && w.memorySeen && w.memoryMiB == m.totalBytes / MIB
                  && w.availableMiB == m.availableBytes / MIB && w.numaNodes == Wrap(m.numaNodes))
  {
    hide Wrap, Online, Isolated, PoolPages, PoolFree, WithThreads, WithPools;
    WrapIsAtMost(c.vcpus);
    WrapIsAtMost(c.isolated);
    WrapIsAtMost(Of(c.pages, size));
    WrapIsAtMost(Of(c.freePages, size));
    NothingCounted(size);
    if f.compute.Some? {
      ThreadsCounted(c.(computeSeen := true), f.compute.value);
    } else if MemoryOf(f).Some? {
      var m := MemoryOf(f).value;
      PoolsCounted(c.(memorySeen := true, memoryMiB := m.totalBytes / MIB, availableMiB := m.availableBytes / MIB,
                      numaNodes := Wrap(m.numaNodes)), m.pools, size);
    }
  }

  /** What extractCapacity computes: the thread and page counters are the true totals modulo
      2^64. */
  lemma {:induction false} CapacityIs(fragments: seq<Fragment>, size: u64)
    ensures var c, t := CapacityOf(fragments), TotalsOf(fragments, size);
            && c.vcpus == Wrap(t.online) && c.isolated == Wrap(t.isolated)
            && Of(c.pages, size) == Wrap(t.pages) && Of(c.freePages, size) == Wrap(t.freePages)
  {
    hide Wrap, WithFragment, MemoryOf, PoolsOf, ThreadsOf, Online, Isolated, PoolPages, PoolFree;
    if fragments == [] {
      WrapIsAtMost(0);
    } else {
      var rest, f := fragments[..|fragments| - 1], fragments[|fragments| - 1];
      CapacityIs(rest, size);
      FragmentCounted(CapacityOf(rest), f, size);
      var t := TotalsOf(rest, size);
      WrapAdd(t.online, Online(ThreadsOf(f)));
      WrapAdd(t.isolated, Isolated(ThreadsOf(f)));
      WrapAdd(t.pages, PoolPages(PoolsOf(f), size));
      WrapAdd(t.freePages, PoolFree(PoolsOf(f), size));
    }
  }

  /** The memory figures are those of the last available memory fragment. */
  lemma {:induction false} MemoryIs(fragments: seq<Fragment>)
    ensures var c := CapacityOf(fragments);
            && c.memorySeen == LastMemory(fragments).Some?
            && (match LastMemory(fragments)
                case None => c.memoryMiB == 0 && c.availableMiB == 0 && c.numaNodes == 0
                case Some(m) =>
                  && c.memoryMiB == m.totalBytes / MIB && c.availableMiB == m.availableBytes / MIB
                  && c.numaNodes == Wrap(m.numaNodes))
  {
    hide Wrap, WithFragment, MemoryOf, PoolsOf, ThreadsOf;
    if fragments != [] {
      var rest, f := fragments[..|fragments| - 1], fragments[|fragments| - 1];
      MemoryIs(rest);
      FragmentCounted(CapacityOf(rest), f, 0);
    }
  }

  predicate HasCompute(fragments: seq<Fragment>) {
    exists i :: 0 <= i < |fragments| && fragments[i].compute.Some?
                && Available(fragments[i].capabilities, "kim.host.cpu-topology.v1")
  }

  lemma {:induction false} ComputeIs(fragments: seq<Fragment>)
    ensures CapacityOf(fragments).computeSeen == HasCompute(fragments)
  {
    if fragments != [] {
      var n := |fragments| - 1;
      var rest, f := fragments[..n], fragments[n];
      ComputeIs(rest);
      SeenAfter(CapacityOf(rest), f);
      hide WithFragment, Available, CapacityOf;
      if HasCompute(rest) {
        var i :| 0 <= i < n && rest[i].compute.Some? && Available(rest[i].capabilities, "kim.host.cpu-topology.v1");
        assert fragments[i] == rest[i];
      }
      if i :| 0 <= i < n && fragments[i].compute.Some?
              && Available(fragments[i].capabilities, "kim.host.cpu-topology.v1") {
        assert rest[i] == fragments[i];
      }
      assert CapacityOf(fragments) == WithFragment(CapacityOf(rest), f) by { Unfold(fragments); }
    }
  }

  lemma Unfold(fragments: seq<Fragment>)
    requires fragments != []
    ensures CapacityOf(fragments) == WithFragment(CapacityOf(fragments[..|fragments| - 1]), fragments[|fragments| - 1])
  {
  }

  lemma SeenAfter(c: Capacity, f: Fragment)
    ensures WithFragment(c, f).computeSeen == (c.computeSeen
                                               || (f.compute.Some? && Available(f.capabilities,
                                                     "kim.host.cpu-topology.v1")))
  {
    if f.compute.Some? {
      ThreadsCounted(c.(computeSeen := true), f.compute.value);
    } else if MemoryOf(f).Some? {
      var m := MemoryOf(f).value;
      PoolsCounted(c.(memorySeen := true, memoryMiB := m.totalBytes / MIB, availableMiB := m.availableBytes / MIB,
                      numaNodes := Wrap(m.numaNodes)), m.pools, 0);
    }
  }

  // ----- eligibility against the true totals --------------------------------------------------------

  /** The page size that matters to a request. */
  function PageSize(r: Request): u64 { if r.hugePageKiB.Some? then r.hugePageKiB.value else 0 }

  function TrueCpus(r: Request, t: Totals): nat {
    if r.pinning || r.cpuAllocation == "DEDICATED" then t.isolated else t.online
  }

  /** Claims and request together fit the true totals of the host. */
  ghost predicate TrulyFits(r: Request, a: Authority) {
    var t := TotalsOf(a.fragments, PageSize(r));
    && HasCompute(a.fragments) && LastMemory(a.fragments).Some?
    && var m := LastMemory(a.fragments).value;
    && (r.vcpus > 0 ==> a.claimedVcpus + r.vcpus <= TrueCpus(r, t))
    && (r.memoryMiB > 0 ==> a.claimedMemoryMiB + r.memoryMiB <= m.totalBytes / MIB)
    && r.memoryMiB <= m.availableBytes / MIB
    && (r.numaPolicy == "REQUIRED" && r.numaNodes.Some? ==> r.numaNodes.value <= m.numaNodes)
    && (r.hugePageKiB.Some? ==>
          (RequiredPages(r) > 0 ==> Of(a.claimedPages, PageSize(r)) + RequiredPages(r) <= t.pages)
          && RequiredPages(r) <= t.freePages)
  }

  /** The totals that matter to a request fit their counters. */
  ghost predicate Representable(r: Request, a: Authority) {
    var t := TotalsOf(a.fragments, PageSize(r));
    && TrueCpus(r, t) < TWO64 && t.pages < TWO64 && t.freePages < TWO64
    && (LastMemory(a.fragments).Some? ==> LastMemory(a.fragments).value.numaNodes < TWO64)
  }

  lemma CountersAndTotals(r: Request, a: Authority)
    ensures var c, t := CapacityOf(a.fragments), TotalsOf(a.fragments, PageSize(r));
            && Cpus(r, c) <= TrueCpus(r, t) && Of(c.pages, PageSize(r)) <= t.pages
            && Of(c.freePages, PageSize(r)) <= t.freePages
            && (Cpus(r, c) == TrueCpus(r, t) <==> TrueCpus(r, t) < TWO64)
            && (Of(c.pages, PageSize(r)) == t.pages <==> t.pages < TWO64)
            && (Of(c.freePages, PageSize(r)) == t.freePages <==> t.freePages < TWO64)
  {
    CapacityIs(a.fragments, PageSize(r));
    var t := TotalsOf(a.fragments, PageSize(r));
    WrapIsAtMost(t.online);
    WrapIsAtMost(t.isolated);
    WrapIsAtMost(t.pages);
    WrapIsAtMost(t.freePages);
    hide Wrap, CapacityOf, TotalsOf;
  }

  /** Wrap-around never lets too much in: capacity by the counters is capacity by the true totals.
      The other way holds while the totals fit their counters. */
  lemma CapacityTrulyFits(r: Request, a: Authority)
    ensures CapacityFits(r, a) ==> TrulyFits(r, a)
    ensures Representable(r, a) ==> (CapacityFits(r, a) <==> TrulyFits(r, a))
  {
    CountersAndTotals(r, a);
    MemoryIs(a.fragments);
    ComputeIs(a.fragments);
    if LastMemory(a.fragments).Some? { WrapIsAtMost(LastMemory(a.fragments).value.numaNodes); }
    hide Wrap, CapacityOf, TotalsOf, LastMemory, RequiredPages, HasCompute;
  }

  /** What eligibility promises about the host itself, for every request and every snapshot: what is
      claimed and what is asked for fit the true totals, together with every other condition. */
  lemma EligibleTrulyFits(r: Request, a: Authority)
    requires Wellformed(r)
    ensures Reasons(r, a) == [] ==> TrulyFits(r, a)
    ensures Representable(r, a) ==>
              (Reasons(r, a) == [] <==>
                 && HostFits(r, a) && TrulyFits(r, a)
                 && (forall i :: 0 <= i < |r.pci| ==> PciFits(r.pci[i], a))
                 && (forall i :: 0 <= i < |r.network| ==> NetworkFits(r.project, r.network[i], a))
                 && (forall i :: 0 <= i < |r.storage| ==> StorageFits(r.storage[i], a)))
  {
    hide Wellformed, Reasons, HostFits, PciFits, NetworkFits, StorageFits, CapacityFits, TrulyFits, Representable;
    NoReasonIff(r, a);
    CapacityTrulyFits(r, a);
  }

  /** The condition is needed: two pools that together hold 2^64 pages count as none. */
  lemma PagesCanWrap(size: u64)
    requires size * 1024 < TWO64
    ensures var pools := [Pool(size * 1024, TWO64 - 1, TWO64 - 1), Pool(size * 1024, 1, 1)];
            var f := Fragment(None, Some(Memory(0, 0, 0, pools)), [("kim.host.memory.v1", true)]);
            TotalsOf([f], size).pages == TWO64 && Of(CapacityOf([f]).pages, size) == 0
  {
    var p, q := Pool(size * 1024, TWO64 - 1, TWO64 - 1), Pool(size * 1024, 1, 1);
    var f := Fragment(None, Some(Memory(0, 0, 0, [p, q])), [("kim.host.memory.v1", true)]);
    assert [p, q][..1] == [p] && [p][..0] == [] && [f][..0] == [];
    assert f.capabilities[0] == ("kim.host.memory.v1", true);
    assert SizeKiB(p) == size && SizeKiB(q) == size;
    assert PoolPages([p], size) == TWO64 - 1;
    assert PoolPages([p, q], size) == TWO64;
    CapacityIs([f], size);
  }

  // ----- the score --------------------------------------------------------------------------------------

  /** How many threads the snapshot lists. */
  function Listed(fragments: seq<Fragment>): nat {
    if fragments == [] then 0
    else
      var f := fragments[|fragments| - 1];
      Listed(fragments[..|fragments| - 1]) + if f.compute.Some? then |f.compute.value| else 0
  }

  lemma {:induction false} OnlineAtMost(threads: seq<Thread>)
    ensures Isolated(threads) <= Online(threads) <= |threads|
  {
    if threads != [] { OnlineAtMost(threads[..|threads| - 1]); }
  }

  lemma {:induction false} ListedAtLeast(fragments: seq<Fragment>, size: u64)
    ensures TotalsOf(fragments, size).isolated <= TotalsOf(fragments, size).online <= Listed(fragments)
  {
    if fragments != [] {
      ListedAtLeast(fragments[..|fragments| - 1], size);
      OnlineAtMost(ThreadsOf(fragments[|fragments| - 1]));
    }
  }

  const TWO53: int := 0x20_0000_0000_0000

  /** A host that lists at most 2^53 threads cannot make the score overflow. */
  lemma ScoreFits(r: Request, a: Authority)
    requires Listed(a.fragments) <= TWO53
    ensures ExactScore(r, a) < TWO63
  {
    ListedAtLeast(a.fragments, PageSize(r));
    CountersAndTotals(r, a);
    MemoryBound(a.fragments);
    hide CapacityOf, TotalsOf, Listed;
    var c := CapacityOf(a.fragments);
    assert FreeVcpus(r, a) <= Cpus(r, c) && FreeMemory(a) <= c.memoryMiB;
    hide FreeVcpus, FreeMemory;
    DivMonotone(FreeMemory(a) - r.memoryMiB, c.memoryMiB);
  }

  /** For such a host the score of an eligible request is exactly the weighted sum of what remains,
      and raising any claimed counter neither creates eligibility nor raises the score. */
  lemma ClaimsLowerTheScore(r: Request, a: Authority, b: Authority)
    requires Wellformed(r) && MoreClaimed(a, b) && Reasons(r, b) == [] && Listed(a.fragments) <= TWO53
    ensures Reasons(r, a) == []
    ensures Score(r, a) == ExactScore(r, a) && Score(r, b) == ExactScore(r, b)
    ensures Score(r, b) <= Score(r, a)
  {
    hide Wellformed, Reasons, HostFits, PciFits, NetworkFits, StorageFits, CapacityFits, Score, ExactScore, Listed;
    ScoreFits(r, a);
    ScoreFits(r, b);
    ClaimsOnlyTakeAway(r, a, b);
    NoReasonIff(r, a);
    NoReasonIff(r, b);
    ScoreExactIff(r, a);
    ScoreExactIff(r, b);
  }

  /** A host of n equal threads, and nothing else of note. */
  function Uniform(n: nat): seq<Fragment> {
    [Fragment(None, Some(Memory(0, 0, 0, [])), [("kim.host.memory.v1", true)]),
     Fragment(Some(Same(n)), None, [("kim.host.cpu-topology.v1", true)])]
  }

  function Same(n: nat): seq<Thread> { seq(n, i => Thread(true, false)) }

  lemma {:induction false} SameOnline(n: nat)
    ensures Online(Same(n)) == n && Isolated(Same(n)) == 0
    decreases n
  {
    if n > 0 {
      SameOnline(n - 1);
      assert Same(n)[..n - 1] == Same(n - 1);
    }
  }

  lemma UniformTotals(n: nat)
    ensures TotalsOf(Uniform(n), 0) == Totals(n, 0, 0, 0)
    ensures CapacityOf(Uniform(n)).computeSeen && LastMemory(Uniform(n)).Some? && Listed(Uniform(n)) == n
  {
    var u := Uniform(n);
    var memory, compute := u[0], u[1];
    SameOnline(n);
    assert u[..1] == [memory] && [memory][..0] == [];
    assert memory.capabilities[0] == ("kim.host.memory.v1", true)
           && compute.capabilities[0] == ("kim.host.cpu-topology.v1", true);
    assert TotalsOf([memory], 0) == Totals(0, 0, 0, 0);
    ThreadsCounted(CapacityOf([memory]).(computeSeen := true), Same(n));
  }

  /** Beyond that bound it can: with 2^54 listed threads the score of an empty request is negative,
      and claiming all of them raises it to zero. */
  lemma ScoreCanRise(r: Request, a: Authority)
    requires r.vcpus == 0 && r.memoryMiB == 0 && r.numaNodes.None? && r.hugePageKiB.None? && !r.pinning
             && r.cpuAllocation != "DEDICATED"
    requires a.fragments == Uniform(2 * TWO53) && a.claimedVcpus == 0
    ensures var b := a.(claimedVcpus := 2 * TWO53);
            && CapacityFits(r, a) && CapacityFits(r, b) && MoreClaimed(a, b)
            && Score(r, a) < 0 == Score(r, b)
  {
    var b := a.(claimedVcpus := 2 * TWO53);
    UniformTotals(2 * TWO53);
    CapacityIs(a.fragments, 0);
    MemoryIs(a.fragments);
    WrapIsAtMost(2 * TWO53);
    var c := CapacityOf(a.fragments);
    assert c.vcpus == 2 * TWO53 && c.computeSeen && c.memorySeen;
    MemoryIsZero(2 * TWO53);
    hide CapacityOf, Uniform;
    assert FreeVcpus(r, a) == 2 * TWO53 && FreeVcpus(r, b) == 0 && FreeMemory(a) == 0 && FreeMemory(b) == 0;
  }

  lemma MemoryIsZero(n: nat)
    ensures CapacityOf(Uniform(n)).memoryMiB == 0 && CapacityOf(Uniform(n)).availableMiB == 0
  {
    var u := Uniform(n);
    assert u[..1] == [u[0]];
    assert u[0].capabilities[0] == ("kim.host.memory.v1", true);
    MemoryIs(u);
    assert LastMemory([u[0]]) == Some(Memory(0, 0, 0, []));
    assert LastMemory(u) == Some(Memory(0, 0, 0, []));
  }
}
