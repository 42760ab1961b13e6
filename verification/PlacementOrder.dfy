/** Evaluation and selection do not depend on the order of their inputs. */
module PlacementOrder {
  import opened Common
  import opened Sorting
  import opened Placement

  // ----- permutations ---------------------------------------------------------------------------------

  /** q is r with its requirement lists permuted. */
  ghost predicate Permuted(r: Request, q: Request) {
    && q == r.(pci := q.pci, network := q.network, storage := q.storage)
    && multiset(q.pci) == multiset(r.pci) && multiset(q.network) == multiset(r.network)
    && multiset(q.storage) == multiset(r.storage)
  }

  ghost predicate Symmetric<T(!new)>(clash: (T, T) -> bool) { forall x, y :: clash(x, y) ==> clash(y, x) }

  function Without<T>(s: seq<T>, j: nat): seq<T>
    requires j < |s|
  {
    s[..j] + s[j + 1..]
  }

  lemma WithoutIs<T>(s: seq<T>, j: nat)
    requires j < |s|
    ensures multiset(Without(s, j)) == multiset(s) - multiset{s[j]}
  {
    assert s == s[..j] + [s[j]] + s[j + 1..];
  }

  lemma TailIs<T>(s: seq<T>)
    requires s != []
    ensures multiset(s[1..]) == multiset(s) - multiset{s[0]}
  {
    assert s == [s[0]] + s[1..];
  }

  lemma {:induction false} NoClashPermutes<T(!new)>(clash: (T, T) -> bool, a: seq<T>, b: seq<T>)
    requires Symmetric(clash) && multiset(a) == multiset(b) && NoClash(clash, a)
    ensures NoClash(clash, b)
  {
    if a == [] {
      assert |multiset(b)| == 0;
    } else {
      assert a[0] in multiset(b);
      var j :| 0 <= j < |b| && b[j] == a[0];
      TailIs(a);
      WithoutIs(b, j);
      NoClashPermutes(clash, a[1..], Without(b, j));
      forall i, k | 0 <= i < |b| && 0 <= k < |b| && i != k ensures !clash(b[i], b[k]) {
        ClashFree(clash, a, b, j, i, k);
      }
    }
  }

  lemma ClashFree<T(!new)>(clash: (T, T) -> bool, a: seq<T>, b: seq<T>, j: nat, i: nat, k: nat)
    requires Symmetric(clash) && a != [] && NoClash(clash, a) && j < |b| && b[j] == a[0] && i < |b| && k < |b| && i != k
    requires multiset(a[1..]) == multiset(Without(b, j)) && NoClash(clash, Without(b, j))
    ensures !clash(b[i], b[k])
  {
    var rest := Without(b, j);
    if i != j && k != j {
      assert b[i] == rest[if i < j then i else i - 1] && b[k] == rest[if k < j then k else k - 1];
    } else {
      var other := if i == j then k else i;
      assert b[other] == rest[if other < j then other else other - 1];
      assert b[other] in multiset(a[1..]);
      var m :| 0 <= m < |a[1..]| && a[1..][m] == b[other];
      assert a[m + 1] == b[other] && !clash(a[0], a[m + 1]);
    }
  }

  lemma Members<T>(a: seq<T>, b: seq<T>, i: nat) returns (j: nat)
    requires multiset(a) == multiset(b) && i < |b|
    ensures j < |a| && a[j] == b[i]
  {
    assert b[i] in multiset(a);
    j :| 0 <= j < |a| && a[j] == b[i];
  }

  lemma ClashesAreSymmetric()
    ensures Symmetric(PciClash) && Symmetric(NetworkClash) && Symmetric(StorageClash)
  {
  }

  lemma WellformedPermutes(r: Request, q: Request)
    requires Permuted(r, q) && Wellformed(r)
    ensures Wellformed(q)
  {
    hide PciOk, IdentitiesOk, HandoffOk, StorageOk, PciClash, NetworkClash, StorageClash;
    ClashesAreSymmetric();
    NoClashPermutes(PciClash, r.pci, q.pci);
    NoClashPermutes(NetworkClash, r.network, q.network);
    NoClashPermutes(StorageClash, r.storage, q.storage);
    hide NoClash;
    forall i | 0 <= i < |q.pci| ensures PciOk(q.pci[i]) { var j := Members(r.pci, q.pci, i); }
    forall i | 0 <= i < |q.storage| ensures StorageOk(q.storage[i]) { var j := Members(r.storage, q.storage, i); }
    forall i | 0 <= i < |q.network| ensures NetworkOk(q.network[i], q.pci) {
      var j := Members(r.network, q.network, i);
      if Offers(r.pci, q.network[i].address) {
        var k :| 0 <= k < |r.pci| && r.pci[k].address == q.network[i].address;
        var m := Members(q.pci, r.pci, k);
      }
    }
  }

  // ----- canonical order ---------------------------------------------------------------------------

  lemma LeqsAreLinear()
    ensures Linear(AddressLeq) && Linear(PortLeq) && Linear(VolumeLeq)
  {
    forall x: string, y: string, z: string
      ensures (StringLeq(x, y) || StringLeq(y, x)) && (StringLeq(x, y) && StringLeq(y, z) ==> StringLeq(x, z))
    {
      StringOrder(x, y, z);
    }
  }

  lemma KeysDistinguish(r: Request)
    requires Wellformed(r)
    ensures Distinguishes(AddressLeq, r.pci) && Distinguishes(PortLeq, r.network) && Distinguishes(VolumeLeq, r.storage)
  {
    hide PciOk, NetworkOk, StorageOk, StringLeq;
    forall x: string, y: string ensures StringLeq(x, y) && StringLeq(y, x) ==> x == y { StringOrder(x, y, x); }
    forall i, j | 0 <= i < |r.pci| && 0 <= j < |r.pci| && AddressLeq(r.pci[i], r.pci[j])
    && AddressLeq(r.pci[j], r.pci[i]) ensures r.pci[i] == r.pci[j] {
      assert PciClash(r.pci[i], r.pci[j]);
    }
    forall i, j | 0 <= i < |r.network| && 0 <= j < |r.network| && PortLeq(r.network[i], r.network[j])
    && PortLeq(r.network[j], r.network[i])
      ensures r.network[i] == r.network[j]
    {
      assert NetworkClash(r.network[i], r.network[j]);
    }
    forall i, j | 0 <= i < |r.storage| && 0 <= j < |r.storage| && VolumeLeq(r.storage[i], r.storage[j])
    && VolumeLeq(r.storage[j], r.storage[i])
      ensures r.storage[i] == r.storage[j]
    {
      assert StorageClash(r.storage[i], r.storage[j]);
    }
  }

  lemma CanonicalPermutes(r: Request)
    ensures Permuted(r, Canonical(r)) && Permuted(Canonical(r), r)
  {
    SortPermutes(AddressLeq, r.pci);
    SortPermutes(PortLeq, r.network);
    SortPermutes(VolumeLeq, r.storage);
  }

  /** A request is acceptable in canonical order exactly when it is as given. */
  lemma CanonicalWellformed(r: Request)
    ensures Wellformed(Canonical(r)) <==> Wellformed(r)
  {
    hide Wellformed, Canonical;
    CanonicalPermutes(r);
    if Wellformed(r) { WellformedPermutes(r, Canonical(r)); }
    if Wellformed(Canonical(r)) { WellformedPermutes(Canonical(r), r); }
  }

  lemma CanonicalIgnoresOrder(r: Request, q: Request)
    requires Wellformed(r) && Permuted(r, q)
    ensures Canonical(r) == Canonical(q)
  {
    hide Wellformed, Linear, Distinguishes;
    LeqsAreLinear();
    KeysDistinguish(r);
    SortCanonical(AddressLeq, r.pci, q.pci);
    SortCanonical(PortLeq, r.network, q.network);
    SortCanonical(VolumeLeq, r.storage, q.storage);
  }

  /** The evaluation, digests included, is the same for every order of the requirements, and so is
      whether there is one. */
  lemma EvaluateIgnoresOrder(r: Request, q: Request, a: Authority)
    requires Permuted(r, q)
    ensures Evaluate(r, a) == Evaluate(q, a)
  {
    hide Wellformed, Canonical, Judged;
    CanonicalWellformed(r);
    CanonicalWellformed(q);
    if Wellformed(r) {
      WellformedPermutes(r, q);
      CanonicalIgnoresOrder(r, q);
    } else if Wellformed(q) {
      WellformedPermutes(q, r);
    }
  }

  /** Nor does it depend on how sorting breaks ties: any sorted arrangement of the requirements is
      acceptable exactly when the canonical one is, and then it is the canonical one. */
  lemma AnySortedArrangement(r: Request, q: Request)
    requires Permuted(r, q) && Sorted(AddressLeq, q.pci) && Sorted(PortLeq, q.network) && Sorted(VolumeLeq, q.storage)
    ensures Wellformed(q) <==> Wellformed(Canonical(r))
    ensures Wellformed(q) ==> q == Canonical(r)
  {
    hide Wellformed, Linear, Distinguishes;
    CanonicalWellformed(r);
    if Wellformed(q) {
      WellformedPermutes(q, r);
      KeysDistinguish(q);
      LeqsAreLinear();
      SortPermutes(AddressLeq, r.pci);
      SortPermutes(PortLeq, r.network);
      SortPermutes(VolumeLeq, r.storage);
      SortSorts(AddressLeq, r.pci);
      SortSorts(PortLeq, r.network);
      SortSorts(VolumeLeq, r.storage);
      hide Sorted, Sort;
      SortedUnique(AddressLeq, q.pci, Sort(AddressLeq, r.pci));
      SortedUnique(PortLeq, q.network, Sort(PortLeq, r.network));
      SortedUnique(VolumeLeq, q.storage, Sort(VolumeLeq, r.storage));
    } else if Wellformed(r) {
      WellformedPermutes(r, q);
    }
  }

  // ----- selection ------------------------------------------------------------------------------------

  lemma RanksIsLinear()
    ensures Linear(Ranks)
  {
    forall x, y ensures Ranks(x, y) || Ranks(y, x) { StringOrder(x.evaluation.host, y.evaluation.host, ""); }
    forall x, y, z | Ranks(x, y) && Ranks(y, z) ensures Ranks(x, z) {
      StringOrder(x.evaluation.host, y.evaluation.host, z.evaluation.host);
    }
  }

  lemma {:induction false} EligibleCount(s: seq<Evaluated>, e: Evaluated)
    ensures multiset(EligibleOf(s))[e] == if e.evaluation.eligible then multiset(s)[e] else 0
  {
    if s != [] {
      var n := |s| - 1;
      EligibleCount(s[..n], e);
      assert s == s[..n] + [s[n]];
      assert multiset(s)[e] == multiset(s[..n])[e] + multiset([s[n]])[e];
    }
  }

  /** Select returns exactly the eligible candidates, each as often as it was given, best first. */
  lemma SelectRanksEligible(s: seq<Evaluated>)
    ensures Sorted(Ranks, Select(s))
    ensures forall e :: multiset(Select(s))[e] == if e.evaluation.eligible then multiset(s)[e] else 0
  {
    RanksIsLinear();
    SortSorts(Ranks, EligibleOf(s));
    SortPermutes(Ranks, EligibleOf(s));
    forall e ensures multiset(Select(s))[e] == if e.evaluation.eligible then multiset(s)[e]
        else 0 { EligibleCount(s, e); }
  }

  ghost predicate DistinctHosts(s: seq<Evaluated>) {
    forall i, j :: 0 <= i < |s| && 0 <= j < |s| && s[i].evaluation.host == s[j].evaluation.host ==> i == j
  }

  /** With distinct hosts there is only one such sequence, whatever order the candidates came in. */
  lemma SelectIsUnique(s: seq<Evaluated>, t: seq<Evaluated>)
    requires DistinctHosts(s) && Sorted(Ranks, t)
    requires forall e :: multiset(t)[e] == if e.evaluation.eligible then multiset(s)[e] else 0
    ensures t == Select(s)
  {
    SelectRanksEligible(s);
    var u := Select(s);
    assert multiset(t) == multiset(u);
    forall i, j | 0 <= i < |t| && 0 <= j < |t| && Ranks(t[i], t[j]) && Ranks(t[j], t[i]) ensures t[i] == t[j] {
      StringOrder(t[i].evaluation.host, t[j].evaluation.host, "");
      assert t[i] in multiset(t) && t[j] in multiset(t);
      assert t[i] in multiset(s) && t[j] in multiset(s);
      var k :| 0 <= k < |s| && s[k] == t[i];
      var m :| 0 <= m < |s| && s[m] == t[j];
    }
    hide Select, Sorted, Ranks;
    SortedUnique(Ranks, t, u);
  }

  lemma SelectIgnoresOrder(s: seq<Evaluated>, t: seq<Evaluated>)
    requires DistinctHosts(s) && multiset(s) == multiset(t)
    ensures Select(s) == Select(t)
  {
    SelectRanksEligible(t);
    SelectIsUnique(s, Select(t));
  }
}
