/** What holds of availability bindings in every run. */
module RebindRuns {
  import opened Common
  import opened Tables
  import opened Rebind

  // ----- the invariant ------------------------------------------------------------------------------

  type Bindings = map<(Workload, nat), Binding>

  /** Revision r of the chain names its own place, and revision r - 1 and its digest. */
  ghost predicate Linked(bindings: Bindings, w: Workload, r: nat) {
    (w, r) in bindings && LinksTo(w, r, bindings[(w, r)], if (w, r - 1) in bindings then Some(bindings[(w, r - 1)])
                                  else None)
  }

  ghost predicate LinksTo(w: Workload, r: nat, b: Binding, below: Option<Binding>) {
    && b.workload == w && b.revision == r
    && (r == 1 ==> b.origin.FinalAdmission?)
    && (r > 1 ==>
          && below.Some? && b.origin.ExplicitRebind? && b.origin.sourceRevision == r - 1
          && b.origin.sourceDigest == DigestOf(below.value)
          && b.admission == below.value.admission && b.allocation == below.value.allocation
          && Allowed(b.responsibility, b.action))
  }

  ghost predicate LinkInv(bindings: Bindings) {
    forall w, r {:trigger Linked(bindings, w, r)} :: (w, r) in bindings ==> Linked(bindings, w, r)
  }

  /** Revisions are exactly 1..head, and the pointer is the head's digest. */
  ghost predicate HeadInv(bindings: Bindings, current: map<Workload, Head>) {
    && (forall w, r :: (w, r) in bindings <==> w in current && 1 <= r <= current[w].revision)
    && (forall w :: w in current ==>
        current[w].revision >= 1 && current[w].digest == DigestOf(bindings[(w, current[w].revision)]))
  }

  ghost predicate ChainInv(bindings: Bindings, current: map<Workload, Head>) {
    HeadInv(bindings, current) && LinkInv(bindings)
  }

  ghost predicate Answers(d: Decision, r: Request) {
    r.workload == d.workload && r.expectedRevision == d.sourceRevision && r.sourceDigest == d.sourceDigest
    && r.target == d.target
  }

  /** An accepted decision answers the recorded request for exactly that revision, digest and
      policy, and made exactly the binding it names. */
  ghost predicate DecisionInv(bindings: Bindings, requests: map<string, Request>, decisions: map<string, Decision>) {
    forall id :: id in decisions ==>
      var d := decisions[id];
      && id in requests && Answers(d, requests[id])
      && d.targetRevision == d.sourceRevision + 1 && (d.workload, d.targetRevision) in bindings
      && var b := bindings[(d.workload, d.targetRevision)];
         b.origin.ExplicitRebind? && b.origin.rebind == id && b.origin.sourceDigest == d.sourceDigest
         && b.policy == d.target
  }

  /** Every rebound revision was made by the accepted decision it names. */
  ghost predicate OriginInv(bindings: Bindings, decisions: map<string, Decision>) {
    forall k :: k in bindings && bindings[k].origin.ExplicitRebind? ==>
      var id := bindings[k].origin.rebind;
      id in decisions && decisions[id].workload == k.0 && decisions[id].targetRevision == k.1
  }

  ghost predicate Inv(db: Db) {
    && ChainInv(db.bindings, db.current) && DecisionInv(db.bindings, db.requests, db.decisions)
    && OriginInv(db.bindings, db.decisions)
  }

  const EMPTY: Db := Db(map[], map[], map[], map[])

  ghost predicate Evolves(db: Db, db': Db) {
    && Grows(db.bindings, db'.bindings) && Grows(db.requests, db'.requests) && Grows(db.decisions, db'.decisions)
    && forall w :: w in db.current ==> w in db'.current && db.current[w].revision <= db'.current[w].revision
  }

  lemma EmptyHolds()
    ensures Inv(EMPTY)
  {
  }

  lemma StillEvolves(db: Db)
    ensures Evolves(db, db)
  {
  }

  // ----- each transaction keeps it -----------------------------------------------------------------

  lemma HeadAdded(bindings: Bindings, current: map<Workload, Head>, w: Workload, b: Binding)
    requires HeadInv(bindings, current) && b.revision == (if w in current then current[w].revision else 0) + 1
    ensures (w, b.revision) !in bindings
    ensures HeadInv(bindings[(w, b.revision) := b], current[w := Head(b.revision, DigestOf(b))])
  {
  }

  lemma LinkAdded(bindings: Bindings, w: Workload, b: Binding)
    requires LinkInv(bindings) && (w, b.revision) !in bindings && (w, b.revision + 1) !in bindings
    requires LinksTo(w, b.revision, b, if (w, b.revision - 1) in bindings then Some(bindings[(w, b.revision - 1)])
                     else None)
    ensures LinkInv(bindings[(w, b.revision) := b])
  {
    hide LinksTo;
    var bindings' := bindings[(w, b.revision) := b];
    forall v, r | (v, r) in bindings' ensures Linked(bindings', v, r) {
      if (v, r) != (w, b.revision) { assert Linked(bindings, v, r); }
    }
  }

  lemma NothingAbove(bindings: Bindings, current: map<Workload, Head>, w: Workload, r: nat)
    requires HeadInv(bindings, current) && r > (if w in current then current[w].revision else 0)
    ensures (w, r) !in bindings
    ensures w in current ==> current[w].revision >= 1
  {
  }

  lemma DecisionAdded(db: Db, id: string, d: Decision, b: Binding)
    requires DecisionInv(db.bindings, db.requests, db.decisions) && OriginInv(db.bindings, db.decisions)
    requires id !in db.decisions && id in db.requests && (d.workload, d.targetRevision) !in db.bindings
    requires Answers(d, db.requests[id]) && d.targetRevision == d.sourceRevision + 1
    requires b.origin == ExplicitRebind(d.sourceRevision, d.sourceDigest, id) && b.policy == d.target
    ensures var bindings', decisions' := db.bindings[(d.workload, d.targetRevision) := b], db.decisions[id := d];
            DecisionInv(bindings', db.requests, decisions') && OriginInv(bindings', decisions')
  {
  }

  lemma FirstAdded(db: Db, w: Workload, b: Binding)
    requires DecisionInv(db.bindings, db.requests, db.decisions) && OriginInv(db.bindings, db.decisions)
    requires (w, 1) !in db.bindings && b.origin.FinalAdmission?
    ensures DecisionInv(db.bindings[(w, 1) := b], db.requests, db.decisions)
            && OriginInv(db.bindings[(w, 1) := b], db.decisions)
  {
  }

  lemma BindKeeps(db: Db, w: Workload, admission: string, allocation: string, resolution: string, inputDigest: string,
                  policy: Policy, row: Option<PolicyRow>)
    requires Inv(db) && Bind(db, w, admission, allocation, resolution, inputDigest, policy, row).Ok?
    ensures var db' := Bind(db, w, admission, allocation, resolution, inputDigest, policy, row).value;
            Inv(db') && Evolves(db, db')
  {
    hide HeadInv, LinkInv, DecisionInv, OriginInv;
    var db' := Bind(db, w, admission, allocation, resolution, inputDigest, policy, row).value;
    FirstIffCurrent(db, w);
    if w !in db.current {
      HeadAdded(db.bindings, db.current, w, db'.bindings[(w, 1)]);
      NothingAbove(db.bindings, db.current, w, 2);
      LinkAdded(db.bindings, w, db'.bindings[(w, 1)]);
      FirstAdded(db, w, db'.bindings[(w, 1)]);
    }
  }

  lemma FirstIffCurrent(db: Db, w: Workload)
    requires Inv(db)
    ensures (w, 1) in db.bindings <==> w in db.current
  {
    hide LinkInv;
  }

  lemma RecordKeeps(db: Db, r: Request, row: Option<PolicyRow>)
    requires Inv(db) && Record(db, r, row).Ok?
    ensures Inv(Record(db, r, row).value) && Evolves(db, Record(db, r, row).value)
  {
  }

  lemma DecideKeeps(db: Db, rebind: string, decidedBy: string, row: Option<PolicyRow>, placed: bool)
    requires Inv(db) && Decide(db, rebind, decidedBy, row, placed).Ok?
    ensures var db' := Decide(db, rebind, decidedBy, row, placed).value.db; Inv(db') && Evolves(db, db')
  {
    hide HeadInv, LinkInv, DecisionInv, OriginInv;
    if rebind !in db.decisions {
      var w, b := db.requests[rebind].workload, Decide(db, rebind, decidedBy, row, placed).value.binding;
      HeadAdded(db.bindings, db.current, w, b);
      NothingAbove(db.bindings, db.current, w, b.revision + 1);
      LinkAdded(db.bindings, w, b);
      DecisionAdded(db, rebind, Decide(db, rebind, decidedBy, row, placed).value.decision, b);
    }
  }

  // ----- runs ------------------------------------------------------------------------------------------

  datatype Step =
    | DoBind(workload: Workload, admission: string, allocation: string, resolution: string, inputDigest: string,
             policy: Policy, row: Option<PolicyRow>)
    | DoRecord(request: Request, row: Option<PolicyRow>)
    | DoDecide(rebind: string, decidedBy: string, row: Option<PolicyRow>, placed: bool)

  function Next(db: Db, step: Step): Db {
    match step
    case DoBind(w, a, l, r, i, p, row) => var x := Bind(db, w, a, l, r, i, p, row); if x.Ok? then x.value else db
    case DoRecord(r, row) => var x := Record(db, r, row); if x.Ok? then x.value else db
    case DoDecide(id, who, row, ok) => var x := Decide(db, id, who, row, ok); if x.Ok? then x.value.db else db
  }

  ghost predicate Run(states: seq<Db>, steps: seq<Step>) {
    && |states| == |steps| + 1 && states[0] == EMPTY
    && forall i :: 0 <= i < |steps| ==> states[i + 1] == Next(states[i], steps[i])
  }

  lemma StepKeeps(db: Db, step: Step)
    requires Inv(db)
    ensures Inv(Next(db, step)) && Evolves(db, Next(db, step))
  {
    hide Inv, Evolves, Bind, Record, Decide;
    StillEvolves(db);
    if Next(db, step) != db {
      match step
      case DoBind(w, a, l, r, i, p, row) => BindKeeps(db, w, a, l, r, i, p, row);
      case DoRecord(r, row) => RecordKeeps(db, r, row);
      case DoDecide(id, who, row, ok) => DecideKeeps(db, id, who, row, ok);
    }
  }

  /** In every run the bindings of each workload form a gap-free digest-linked chain that ends at
      the current pointer, and rows are only ever added. */
  lemma {:induction false} EveryRun(states: seq<Db>, steps: seq<Step>, i: nat, j: nat)
    requires Run(states, steps) && i <= j < |states|
    ensures Inv(states[j]) && Evolves(states[i], states[j])
    decreases j
  {
    hide Inv, Evolves, Next;
    if j == 0 {
      EmptyHolds();
      StillEvolves(EMPTY);
    } else {
      EveryRun(states, steps, if i < j then i else j - 1, j - 1);
      StepKeeps(states[j - 1], steps[j - 1]);
      if i < j { EvolvesComposes(states[i], states[j - 1], states[j]); } else { StillEvolves(states[j]); }
    }
  }

  lemma EvolvesComposes(a: Db, b: Db, c: Db)
    requires Evolves(a, b) && Evolves(b, c)
    ensures Evolves(a, c)
  {
  }

  /** Admission and allocation are the same in every revision of a workload's chain. */
  lemma {:induction false} PlacementIsConstant(db: Db, w: Workload, r: nat)
    requires Inv(db) && (w, r) in db.bindings
    ensures (w, 1) in db.bindings
    ensures db.bindings[(w, r)].admission == db.bindings[(w, 1)].admission
    ensures db.bindings[(w, r)].allocation == db.bindings[(w, 1)].allocation
    decreases r
  {
    assert Linked(db.bindings, w, r);
    if r > 1 { PlacementIsConstant(db, w, r - 1); }
  }

  /** However requests race or replay, at most one rebind of a workload is accepted per source
      revision, over the whole run. */
  lemma OneRebindPerRevision(states: seq<Db>, steps: seq<Step>, i: nat, j: nat, a: string, b: string)
    requires Run(states, steps) && i <= j < |states| && a in states[i].decisions && b in states[j].decisions
    requires states[i].decisions[a].workload == states[j].decisions[b].workload
    requires states[i].decisions[a].sourceRevision == states[j].decisions[b].sourceRevision
    ensures a == b
  {
    hide Run, ChainInv;
    EveryRun(states, steps, i, j);
  }

  /** The digest of a binding determines the whole chain below it, in any state of any run. */
  lemma {:induction false} DigestDeterminesChain(x: Db, y: Db, w: Workload, v: Workload, r: nat, s: nat, k: nat)
    requires Inv(x) && Inv(y) && (w, r) in x.bindings && (v, s) in y.bindings
             && DigestOf(x.bindings[(w, r)]) == DigestOf(y.bindings[(v, s)])
    requires 1 <= k <= r
    ensures w == v && r == s && (w, k) in x.bindings && (w, k) in y.bindings && x.bindings[(w, k)] == y.bindings[(w, k)]
    decreases r
  {
    hide HeadInv, DecisionInv, OriginInv;
    assert Linked(x.bindings, w, r) && Linked(y.bindings, v, s);
    if k < r { DigestDeterminesChain(x, y, w, v, r - 1, s - 1, k); }
  }
}
