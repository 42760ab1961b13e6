/** What holds of cleanup claims in every run. */
module CleanupRuns {
  import opened Common
  import opened Tables
  import opened Cleanup

  type Ops = map<OpKey, Op>
  type Attempts = map<(OpKey, nat), Attempt>
  type Rows = map<string, Row>

  // ----- the invariant -----------------------------------------------------------------------------

  /** Claim generations are 1..last; the holder is the last one, and holds what it was granted;
      PENDING was never claimed; and only generation 1 may apply without a read-back. */
  ghost predicate ClaimInv(ops: Ops, attempts: Attempts) {
    && (forall k, g :: (k, g) in attempts <==> k in ops && 1 <= g <= ops[k].last)
    && (forall k, g :: (k, g) in attempts && attempts[(k, g)].mode == ApplyAllowed ==> g == 1)
    && (forall k :: k in ops ==>
          && (ops[k].holder.Some? <==> ops[k].state == Claimed)
          && (ops[k].state == Pending <==> ops[k].last == 0)
          && (ops[k].holder.Some? ==>
                && ops[k].holder.value.generation == ops[k].last
                && attempts[(k, ops[k].last)].owner == ops[k].holder.value.owner
                && attempts[(k, ops[k].last)].expires == ops[k].holder.value.expires))
  }

  /** A completion gave the claim back no later than t. */
  ghost predicate Released(rows: Rows, k: OpKey, g: nat, t: Time) {
    exists id :: id in rows && rows[id].op == k && rows[id].claim == g && rows[id].finding != Present
                 && rows[id].at <= t
  }

  /** Each claim was granted only after the one before had expired or been given back, and an
      operation that is not CLAIMED has had its last claim given back. */
  ghost predicate HandoverInv(now: Time, ops: Ops, attempts: Attempts, rows: Rows) {
    && (forall k, g :: (k, g) in attempts && (k, g + 1) in attempts ==>
          attempts[(k, g)].expires <= attempts[(k, g + 1)].grantedAt
          || Released(rows, k, g, attempts[(k, g + 1)].grantedAt))
    && (forall k :: k in ops && ops[k].last >= 1 && ops[k].state != Claimed ==> Released(rows, k, ops[k].last, now))
    && (forall k, g :: (k, g) in attempts ==> attempts[(k, g)].grantedAt <= now)
  }

  /** Evidence names a granted claim and is from the past. */
  ghost predicate RowInv(now: Time, attempts: Attempts, rows: Rows) {
    forall id :: id in rows ==> (rows[id].op, rows[id].claim) in attempts && rows[id].at <= now
  }

  /** An UNDEFINE was authorised under a first claim, or under a claim with an accepted
      read-back of its own. */
  ghost predicate UndefineInv(undefines: set<(OpKey, nat, CommandId)>, attempts: Attempts, rows: Rows) {
    forall u :: u in undefines ==>
      && (u.0, u.1) in attempts
      && (attempts[(u.0, u.1)].mode == ApplyAllowed || exists id :: id in rows && AcceptedRow(rows[id], u.0, u.1))
  }

  /** The row that finished an operation: exact absence for VERIFIED, a contradiction for
      CONFLICTING. */
  ghost predicate Finishes(r: Row, k: OpKey, state: OpState) {
    && r.op == k
    && (state == Verified ==> (r.finding == Absent || r.finding == AlreadyAbsent) && !r.present && !r.running
                              && r.matches)
    && (state == Conflicting ==> r.finding == ConflictingBackend)
  }

  ghost predicate FinishInv(ops: Ops, rows: Rows) {
    forall k :: k in ops && (ops[k].state == Verified || ops[k].state == Conflicting) ==>
      exists id :: id in rows && Finishes(rows[id], k, ops[k].state)
  }

  /** cleanup_complete is exactly: domain verified, and everything else verified or not needed. */
  ghost predicate ProjectionInv(projections: map<(string, nat), Projection>) {
    forall v :: v in projections ==>
      var p := projections[v];
      p.complete <==> p.domain == HVerified && Settled(p.storage) && Settled(p.network) && Settled(p.pci)
  }

  ghost predicate Inv(db: Db) {
    && ClaimInv(db.ops, db.attempts) && HandoverInv(db.now, db.ops, db.attempts, db.rows)
    && RowInv(db.now, db.attempts, db.rows)
    && UndefineInv(db.undefines, db.attempts, db.rows) && ProjectionInv(db.projections) && FinishInv(db.ops, db.rows)
  }

  const EMPTY: Db := Db(0, map[], map[], map[], map[], map[], {}, {})

  lemma EmptyHolds()
    ensures Inv(EMPTY)
  {
  }

  // ----- evolution -----------------------------------------------------------------------------------

  /** Generations only rise, identities stay, and a finished operation stays as it is. */
  ghost predicate OpsEvolve(ops: Ops, ops': Ops) {
    forall k :: k in ops ==>
      && k in ops' && ops'[k].identity == ops[k].identity && ops[k].last <= ops'[k].last
      && (ops[k].state in {Verified, Conflicting, BlockedOp, StaleOp} ==> ops'[k] == ops[k])
  }

  ghost predicate Evolves(db: Db, db': Db) {
    && db.now <= db'.now && OpsEvolve(db.ops, db'.ops)
    && Grows(db.attempts, db'.attempts) && Grows(db.rows, db'.rows) && Grows(db.commands, db'.commands)
    && db.undefines <= db'.undefines && db.readBacks <= db'.readBacks
  }

  ghost predicate Good(db: Db, db': Db) { Inv(db') && Evolves(db, db') }

  // ----- each transaction keeps it --------------------------------------------------------------------

  lemma RowAdded(db: Db, id: string, row: Row)
    requires HandoverInv(db.now, db.ops, db.attempts, db.rows) && RowInv(db.now, db.attempts, db.rows)
    requires UndefineInv(db.undefines, db.attempts, db.rows)
    requires id !in db.rows && (row.op, row.claim) in db.attempts && row.at <= db.now
    ensures var rows' := db.rows[id := row];
            && HandoverInv(db.now, db.ops, db.attempts, rows') && RowInv(db.now, db.attempts, rows')
            && UndefineInv(db.undefines, db.attempts, rows') && Grows(db.rows, rows')
            && (row.finding != Present ==> Released(rows', row.op, row.claim, db.now))
  {
    hide UndefineInv, RowInv;
    var rows' := db.rows[id := row];
    EvidenceAdded(db.undefines, db.now, db.attempts, db.rows, id, row);
    if row.finding != Present { assert rows'[id] == row; }
    HandoverGrows(db.now, db.ops, db.attempts, db.rows, rows');
  }

  lemma HandoverGrows(now: Time, ops: Ops, attempts: Attempts, rows: Rows, rows': Rows)
    requires HandoverInv(now, ops, attempts, rows) && Grows(rows, rows')
    ensures HandoverInv(now, ops, attempts, rows')
  {
    hide Released;
    forall k, g, t | Released(rows, k, g, t) ensures Released(rows', k, g, t) { ReleasedGrows(rows, rows', k, g, t); }
  }

  lemma ReleasedGrows(rows: Rows, rows': Rows, k: OpKey, g: nat, t: Time)
    requires Grows(rows, rows') && Released(rows, k, g, t)
    ensures Released(rows', k, g, t)
  {
    var id :| id in rows && rows[id].op == k && rows[id].claim == g && rows[id].finding != Present && rows[id].at <= t;
    assert rows'[id] == rows[id];
  }

  /** Finishing rows stay; an operation that ends needs its own. */
  lemma FinishKept(ops: Ops, rows: Rows, ops': Ops, rows': Rows, k: OpKey)
    requires FinishInv(ops, rows) && Grows(rows, rows') && ops' == (if k in ops' then ops[k := ops'[k]] else ops)
    requires k in ops' && (ops'[k].state == Verified || ops'[k].state == Conflicting) ==>
               exists id :: id in rows' && Finishes(rows'[id], k, ops'[k].state)
    ensures FinishInv(ops', rows')
  {
    hide Finishes;
    forall j | j in ops' && (ops'[j].state == Verified || ops'[j].state == Conflicting)
      ensures exists id :: id in rows' && Finishes(rows'[id], j, ops'[j].state)
    {
      if j != k {
        var id :| id in rows && Finishes(rows[id], j, ops[j].state);
        assert rows'[id] == rows[id];
      }
    }
  }

  /** Giving a claim back. */
  lemma OpReleased(db: Db, rows: Rows, k: OpKey, state: OpState)
    requires ClaimInv(db.ops, db.attempts) && HandoverInv(db.now, db.ops, db.attempts, rows)
    requires k in db.ops && db.ops[k].state == Claimed && state != Claimed && state != Pending
    requires Released(rows, k, db.ops[k].last, db.now)
    ensures var ops' := db.ops[k := db.ops[k].(state := state, holder := None)];
            ClaimInv(ops', db.attempts) && HandoverInv(db.now, ops', db.attempts, rows) && OpsEvolve(db.ops, ops')
  {
    hide Released;
  }

  ghost predicate Grantable(db: Db, k: OpKey, a: Attempt) {
    && k in db.ops && a.grantedAt == db.now && (a.mode == ApplyAllowed <==> db.ops[k].state == Pending)
    && (db.ops[k].state == Pending || db.ops[k].state == Claimed || db.ops[k].state == DispatchUnknown)
    && (db.ops[k].state == Claimed ==> db.ops[k].holder.Some? && db.ops[k].holder.value.expires <= db.now)
  }

  function Regranted(op: Op, a: Attempt): Op {
    op.(state := Claimed, holder := Some(Holder(a.owner, op.last + 1, a.expires)), last := op.last + 1)
  }

  /** Granting the next claim. */
  lemma ClaimAdded(db: Db, k: OpKey, a: Attempt)
    requires ClaimInv(db.ops, db.attempts) && Grantable(db, k, a)
    ensures var g := db.ops[k].last + 1;
            && (k, g) !in db.attempts && ClaimInv(db.ops[k := Regranted(db.ops[k], a)], db.attempts[(k, g) := a])
            && OpsEvolve(db.ops, db.ops[k := Regranted(db.ops[k], a)]) && Grows(db.attempts, db.attempts[(k, g) := a])
  {
  }

  lemma HandoverAdded(db: Db, k: OpKey, a: Attempt)
    requires ClaimInv(db.ops, db.attempts) && HandoverInv(db.now, db.ops, db.attempts, db.rows) && Grantable(db, k, a)
    ensures HandoverInv(db.now, db.ops[k := Regranted(db.ops[k], a)], db.attempts[(k, db.ops[k].last + 1) := a],
                        db.rows)
  {
    hide Released;
  }

  lemma AttemptsGrow(db: Db, attempts: Attempts)
    requires Grows(db.attempts, attempts) && RowInv(db.now, db.attempts, db.rows)
             && UndefineInv(db.undefines, db.attempts, db.rows)
    ensures RowInv(db.now, attempts, db.rows) && UndefineInv(db.undefines, attempts, db.rows)
  {
    hide AcceptedRow;
  }

  /** A new operation that is already verified. */
  lemma VerifiedAdded(db: Db, k: OpKey, op: Op, a: Attempt, rows: Rows)
    requires ClaimInv(db.ops, db.attempts) && HandoverInv(db.now, db.ops, db.attempts, db.rows) && Grows(db.rows, rows)
    requires k !in db.ops && op.state == Verified && op.holder.None? && op.last == 1
    requires a.mode == ReadBackFirst && a.grantedAt == db.now && Released(rows, k, 1, db.now)
    ensures var ops', attempts' := db.ops[k := op], db.attempts[(k, 1) := a];
            && ClaimInv(ops', attempts') && HandoverInv(db.now, ops', attempts', rows)
            && OpsEvolve(db.ops, ops') && Grows(db.attempts, attempts')
  {
    forall j, g, t | Released(db.rows, j, g, t) ensures Released(rows, j, g, t) {
      ReleasedGrows(db.rows, rows, j, g, t);
    }
    hide Released;
  }

  lemma TickKeeps(db: Db, now: Time)
    requires Inv(db)
    ensures Good(db, At(db, now))
  {
    var db' := At(db, now);
    forall k, g, t | Released(db.rows, k, g, t) ensures forall t' :: t <= t' ==> Released(db.rows, k, g, t') {}
  }

  /** A new operation that was never claimed. */
  lemma PendingAdded(db: Db, k: OpKey, identity: Identity)
    requires ClaimInv(db.ops, db.attempts) && HandoverInv(db.now, db.ops, db.attempts, db.rows) && k !in db.ops
    ensures var ops' := db.ops[k := Op(identity, Pending, None, 0)];
            ClaimInv(ops', db.attempts) && HandoverInv(db.now, ops', db.attempts, db.rows) && OpsEvolve(db.ops, ops')
  {
    hide Released;
  }

  lemma RegisterDomainKeeps(db: Db, key: OpKey, identity: Identity, networks: nat, devices: nat)
    requires Inv(db) && RegisterDomain(db, key, identity, networks, devices).Ok?
    ensures Good(db, RegisterDomain(db, key, identity, networks, devices).value)
  {
    hide ClaimInv, HandoverInv, UndefineInv, RowInv, Grows, OpsEvolve, FinishInv;
    StillEvolves(db);
    if key !in db.ops {
      PendingAdded(db, key, identity);
      FinishKept(db.ops, db.rows, RegisterDomain(db, key, identity, networks, devices).value.ops, db.rows, key);
    }
  }

  lemma RegisterNetworkKeeps(db: Db, key: OpKey, identity: Identity, evidenceId: string)
    requires Inv(db) && RegisterNetwork(db, key, identity, evidenceId).Ok?
    ensures Good(db, RegisterNetwork(db, key, identity, evidenceId).value)
  {
    hide ClaimInv, HandoverInv, UndefineInv, Grows, OpsEvolve, Released, FinishInv;
    StillEvolves(db);
    var db' := RegisterNetwork(db, key, identity, evidenceId).value;
    if key !in db.ops {
      var row := db'.rows[evidenceId];
      assert Finishes(db'.rows[evidenceId], key, Verified);
      RowMakesRelease(db.rows, evidenceId, row, db.now);
      VerifiedAdded(db, key, db'.ops[key], db'.attempts[(key, 1)], db'.rows);
      AttemptsGrow(db, db'.attempts);
      EvidenceAdded(db.undefines, db.now, db'.attempts, db.rows, evidenceId, row);
      FinishKept(db.ops, db.rows, db'.ops, db'.rows, key);
    }
  }

  lemma StillEvolves(db: Db)
    ensures Evolves(db, db)
  {
  }

  lemma RowMakesRelease(rows: Rows, id: string, row: Row, now: Time)
    requires id !in rows && row.finding != Present && row.at <= now
    ensures Grows(rows, rows[id := row]) && Released(rows[id := row], row.op, row.claim, now)
  {
    assert rows[id := row][id] == row;
  }

  lemma EvidenceAdded(undefines: set<(OpKey, nat, CommandId)>, now: Time, attempts: Attempts, rows: Rows, id: string,
                      row: Row)
    requires RowInv(now, attempts, rows) && UndefineInv(undefines, attempts, rows)
    requires id !in rows && (row.op, row.claim) in attempts && row.at <= now
    ensures RowInv(now, attempts, rows[id := row]) && UndefineInv(undefines, attempts, rows[id := row])
  {
    var rows' := rows[id := row];
    forall u | u in undefines && exists i :: i in rows && AcceptedRow(rows[i], u.0, u.1)
      ensures exists i :: i in rows' && AcceptedRow(rows'[i], u.0, u.1)
    {
      var i :| i in rows && AcceptedRow(rows[i], u.0, u.1);
      assert AcceptedRow(rows'[i], u.0, u.1);
    }
  }

  lemma ClaimKeeps(db: Db, key: OpKey, owner: string, lease: int, eligible: bool)
    requires Inv(db) && ClaimCleanup(db, key, owner, lease, eligible).Ok?
    ensures Good(db, ClaimCleanup(db, key, owner, lease, eligible).value.db)
  {
    hide ClaimInv, HandoverInv, UndefineInv, RowInv, ProjectionInv, Grows, OpsEvolve, Released, FinishInv;
    HolderIffClaimed(db, key);
    StillEvolves(db);
    var db' := ClaimCleanup(db, key, owner, lease, eligible).value.db;
    var g := db.ops[key].last + 1;
    ClaimAdded(db, key, db'.attempts[(key, g)]);
    HandoverAdded(db, key, db'.attempts[(key, g)]);
    AttemptsGrow(db, db'.attempts);
    FinishKept(db.ops, db.rows, db'.ops, db'.rows, key);
  }

  lemma HolderIffClaimed(db: Db, key: OpKey)
    requires Inv(db)
    ensures key in db.ops ==> (db.ops[key].holder.Some? <==> db.ops[key].state == Claimed)
    ensures key in db.ops && db.ops[key].holder.Some? ==> db.ops[key].holder.value.generation == db.ops[key].last
  {
  }

  lemma AuthorizeReadBackKeeps(db: Db, c: Claim, job: string, command: CommandId, eligible: bool)
    requires Inv(db) && AuthorizeReadBack(db, c, job, command, eligible).Ok?
    ensures Good(db, AuthorizeReadBack(db, c, job, command, eligible).value)
  {
    hide Released;
  }

  lemma AuthorizeKeeps(db: Db, c: Claim, job: string, command: CommandId, eligible: bool)
    requires Inv(db) && Authorize(db, c, job, command, eligible).Ok?
    ensures Good(db, Authorize(db, c, job, command, eligible).value)
  {
    hide Released;
  }

  lemma DomainProjected(projections: map<(string, nat), Projection>, vm: (string, nat), state: OpState)
    requires ProjectionInv(projections)
    ensures vm in projections ==> ProjectionInv(projections[vm := WithDomain(projections[vm], state)])
  {
  }

  lemma CompleteKeeps(db: Db, c: Claim, o: Observation, v: Option<VerificationState>, eligible: bool)
    requires Inv(db) && Complete(db, c, o, v, eligible).Ok?
    ensures Good(db, Complete(db, c, o, v, eligible).value)
  {
    hide ClaimInv, HandoverInv, UndefineInv, RowInv, ProjectionInv, Grows, OpsEvolve, Released, ReadBackAccepted,
         WithDomain, FinishInv;
    HolderIffClaimed(db, c.op);
    StillEvolves(db);
    var db' := Complete(db, c, o, v, eligible).value;
    DomainProjected(db.projections, (db.ops[c.op].identity.vm, db.ops[c.op].identity.materialization),
                    db'.ops[c.op].state);
    RowAdded(db, o.evidenceId, db'.rows[o.evidenceId]);
    if o.finding != Present {
      OpReleased(db, db'.rows, c.op, db'.ops[c.op].state);
    }
    if o.finding == Absent || o.finding == ConflictingBackend {
      assert Finishes(db'.rows[o.evidenceId], c.op, db'.ops[c.op].state);
    }
    FinishKept(db.ops, db.rows, db'.ops, db'.rows, c.op);
  }

  // ----- runs ------------------------------------------------------------------------------------------

  datatype Step =
    | DoRegisterDomain(op: OpKey, identity: Identity, networks: nat, devices: nat)
    | DoRegisterNetwork(op: OpKey, identity: Identity, evidenceId: string)
    | DoClaim(op: OpKey, owner: string, lease: int, eligible: bool)
    | DoAuthorizeReadBack(claim: Claim, job: string, command: CommandId, eligible: bool)
    | DoAuthorize(claim: Claim, job: string, command: CommandId, eligible: bool)
    | DoComplete(claim: Claim, observation: Observation, verification: Option<VerificationState>, eligible: bool)

  /** One transaction at a time on the database clock, which never goes back. */
  function Next(before: Db, now: Time, step: Step): Db {
    var db := At(before, now);
    match step
    case DoRegisterDomain(k, i, n, d) => var r := RegisterDomain(db, k, i, n, d); if r.Ok? then r.value else db
    case DoRegisterNetwork(k, i, e) => var r := RegisterNetwork(db, k, i, e); if r.Ok? then r.value else db
    case DoClaim(k, o, l, e) => var r := ClaimCleanup(db, k, o, l, e); if r.Ok? then r.value.db else db
    case DoAuthorizeReadBack(c, j, id, e) => var r := AuthorizeReadBack(db, c, j, id, e); if r.Ok? then r.value else db
    case DoAuthorize(c, j, id, e) => var r := Authorize(db, c, j, id, e); if r.Ok? then r.value else db
    case DoComplete(c, o, v, e) => var r := Complete(db, c, o, v, e); if r.Ok? then r.value else db
  }

  lemma StepKeeps(before: Db, now: Time, step: Step)
    requires Inv(before)
    ensures Good(before, Next(before, now, step))
  {
    hide Inv, Evolves, RegisterDomain, RegisterNetwork, ClaimCleanup, AuthorizeReadBack, Authorize, Complete, At;
    TickKeeps(before, now);
    var db, db' := At(before, now), Next(before, now, step);
    if db' != db {
      match step {
        case DoRegisterDomain(k, i, n, d) => RegisterDomainKeeps(db, k, i, n, d);
        case DoRegisterNetwork(k, i, e) => RegisterNetworkKeeps(db, k, i, e);
        case DoClaim(k, o, l, e) => ClaimKeeps(db, k, o, l, e);
        case DoAuthorizeReadBack(c, j, id, e) => AuthorizeReadBackKeeps(db, c, j, id, e);
        case DoAuthorize(c, j, id, e) => AuthorizeKeeps(db, c, j, id, e);
        case DoComplete(c, o, v, e) => CompleteKeeps(db, c, o, v, e);
      }
      EvolvesComposes(before, db, db');
    }
  }

  lemma EvolvesComposes(a: Db, b: Db, c: Db)
    requires Evolves(a, b) && Evolves(b, c)
    ensures Evolves(a, c)
  {
  }

  ghost predicate Run(states: seq<Db>, steps: seq<(Time, Step)>) {
    && |states| == |steps| + 1 && states[0] == EMPTY
    && forall i :: 0 <= i < |steps| ==> states[i + 1] == Next(states[i], steps[i].0, steps[i].1)
  }

  /** In every run the invariant holds throughout, claim generations only rise, evidence is only
      added, and VERIFIED, CONFLICTING, BLOCKED and STALE operations never change again. */
  lemma {:induction false} EveryRun(states: seq<Db>, steps: seq<(Time, Step)>, i: nat, j: nat)
    requires Run(states, steps) && i <= j < |states|
    ensures Inv(states[j]) && Evolves(states[i], states[j])
    decreases j
  {
    hide Inv, Evolves, Next;
    if j == 0 {
      EmptyHolds();
      StillEvolves(EMPTY);
    } else {
      EveryRun(states, steps, if i < j then i else j - 1, j - 1);
      StepKeeps(states[j - 1], steps[j - 1].0, steps[j - 1].1);
      if i < j { EvolvesComposes(states[i], states[j - 1], states[j]); } else { StillEvolves(states[j]); }
    }
  }

  /** Every UNDEFINE that was ever authorised was authorised under the first claim, or under a
      claim for which a read-back recorded the exact domain as defined and not running. */
  lemma UndefineNeedsReadBack(states: seq<Db>, steps: seq<(Time, Step)>, j: nat, k: OpKey, g: nat, command: CommandId)
    requires Run(states, steps) && j < |states| && (k, g, command) in states[j].undefines
    ensures g == 1 || exists id :: id in states[j].rows && AcceptedRow(states[j].rows[id], k, g)
  {
    hide Run, HandoverInv, RowInv, ProjectionInv, AcceptedRow;
    EveryRun(states, steps, j, j);
  }

  /** No claim is granted while an earlier one still holds: claim g had run out, or had been given
      back by a recorded completion, when claim g + 1 was granted. */
  lemma ClaimsDoNotOverlap(states: seq<Db>, steps: seq<(Time, Step)>, j: nat, k: OpKey, g: nat)
    requires Run(states, steps) && j < |states| && (k, g) in states[j].attempts && (k, g + 1) in states[j].attempts
    ensures var t := states[j].attempts[(k, g + 1)].grantedAt;
            states[j].attempts[(k, g)].expires <= t || Released(states[j].rows, k, g, t)
  {
    hide Run, ClaimInv, RowInv, ProjectionInv, UndefineInv, Released;
    EveryRun(states, steps, j, j);
  }

  /** VERIFIED rests on recorded exact absence: not defined, not running, identity matching. */
  lemma VerifiedMeansAbsent(states: seq<Db>, steps: seq<(Time, Step)>, j: nat, k: OpKey) returns (id: string)
    requires Run(states, steps) && j < |states| && k in states[j].ops && states[j].ops[k].state == Verified
    ensures id in states[j].rows
    ensures var r := states[j].rows[id];
            r.op == k && (r.finding == Absent || r.finding == AlreadyAbsent) && !r.present && !r.running && r.matches
  {
    hide Run, HandoverInv, RowInv, ProjectionInv, ClaimInv, UndefineInv;
    EveryRun(states, steps, j, j);
    id :| id in states[j].rows && Finishes(states[j].rows[id], k, Verified);
  }

  /** At any time at most one claim of an operation passes the check that every later transaction
      makes, and it is the last one granted. */
  lemma OneHolder(db: Db, a: Claim, b: Claim)
    requires Inv(db) && Holds(db, a) && Holds(db, b) && a.op == b.op
    ensures a == b && a.generation == db.ops[a.op].last
    ensures a.mode == ApplyAllowed ==> a.generation == 1
  {
    hide HandoverInv, RowInv, ProjectionInv, UndefineInv;
  }
}
